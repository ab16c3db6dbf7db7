# mio socket primitives in Dafny

A model of two low-level pieces of mio, the Rust I/O library, with proofs
about them:

- the Unix-domain socket helpers of `src/sys/unix/uds/mod.rs`:
  - `socket_addr` builds a `sockaddr_un` and its effective length from a path;
  - `path_offset` gives the offset of `sun_path`;
  - `pair_descriptors` creates a non-blocking, close-on-exec socket pair, either atomically or through `fcntl`;
- the value logic of the Windows TCP wrappers of `src/sys/windows/tcp.rs`:
  - how `bind`, `connect`, `listen` and the option setters and getters classify winsock results;
  - how they encode `SO_REUSEADDR`, `SO_LINGER` and `SIO_KEEPALIVE_VALS` values and decode them back;
  - how `get_localaddr` picks the address family.

`io.dfy` (module `Io`) holds the shared vocabulary: the fixed-width integer
types, `io::ErrorKind`, `io::Error` and `io::Result`.

`uds.dfy` (module `Uds`) covers the Unix side.
- `socket_addr` is an imperative method over a zeroed `sun_path` array, with the match arms in source order and the copy loop. It is proved equal to the reference function `EncodeAddr`, and the documented properties are lemmas about that function.
- The capacity of `sun_path` and the offset returned by `path_offset` are parameters `cap` and `off`. The Linux values, 108 and 2, are constants.
- `pair_descriptors` runs against a class `Os`, an abstract operating system that records:
  - each open descriptor with its `O_NONBLOCK` / `FD_CLOEXEC` flags;
  - the next descriptor number;
  - a log of every call;
  - a fixed table saying which call, by number, fails and with what error.
- The platform choice between `SOCK_NONBLOCK | SOCK_CLOEXEC` and the `fcntl` fallback is the boolean `atomic`.
- The four fallback `fcntl` calls are specified by `Run`, which runs a planned call sequence until the first failure.

`tcp.dfy` (module `WindowsTcp`) is pure. Each wrapper is a function of what winsock did:
- a setter receives the OS as a function from the value it passes to the return code;
- a getter receives the return code and the out-parameter the OS filled in;
- `lastError` stands for `io::Error::last_os_error()`.

## Model

| member | source | states |
|---|---|---|
| `Uds.EncodeAddr` | src/sys/unix/uds/mod.rs:16-64 | Reference definition of `socket_addr`: over-long input is an `InvalidInput` error; otherwise the family is `AF_UNIX`, `sun_path` is the input zero-padded to `cap` bytes, and the length is `off + len` plus one for a pathname, cast to `socklen_t`; the buffer always has the full capacity |
| `Uds.SocketAddr` | src/sys/unix/uds/mod.rs:16-64 | The imperative `socket_addr` (zeroed structure, family assignment, two-arm length match, zipped copy loop, conditional `+ 1`) returns exactly `EncodeAddr` of its inputs |
| `Uds.RejectsExactlyOverlong` | src/sys/unix/uds/mod.rs:32-47 | An input is rejected iff its length is at least `cap`, always as `InvalidInput`; the "no longer than" message is used iff the input is abstract and strictly longer than `cap`, and "must be shorter" otherwise |
| `Uds.AbstractAtCapacityRejected` | src/sys/unix/uds/mod.rs:34-45 | An abstract input of exactly `cap` bytes misses the first arm and is rejected by the `Equal` case as "must be shorter" |
| `Uds.EncodedContents` | src/sys/unix/uds/mod.rs:17-29 | On success the family is `AF_UNIX`, byte `i` of `sun_path` is byte `i` of the input for `i < len`, and every later byte up to `cap` is zero |
| `Uds.TerminatorLen` | src/sys/unix/uds/mod.rs:56-61 | The `socklen += 1` match adds one byte iff the input is a pathname (non-empty, first byte not NUL), and at most one |
| `Uds.SocklenCast` | src/sys/unix/uds/mod.rs:63 | `socklen as libc::socklen_t` keeps a length that fits in 32 bits and otherwise differs from it by a multiple of 2^32 |
| `Uds.EffectiveLength` | src/sys/unix/uds/mod.rs:53-61 | On success the length is `off + len + 1` for a pathname and `off + len` for an empty or abstract input; it is at most `off + cap`, and a pathname's terminator `sun_path[len]` is inside the buffer and zero |
| `Uds.AddressRoundTrip` | src/sys/unix/uds/mod.rs:49-63 | The returned length designates exactly the input bytes in the returned buffer, followed by a NUL for a pathname |
| `Uds.PathnameVector` | src/sys/unix/uds/mod.rs:109-121 | `"./foo/bar.txt"` has effective length `13 + off + 1` |
| `Uds.AbstractVector` | src/sys/unix/uds/mod.rs:123-136 | `[0, 116, 111, 107, 105, 111]` has effective length `6 + off` |
| `Uds.CreationFlags` | src/sys/unix/uds/mod.rs:79-82 | A new descriptor is non-blocking iff the type word has `SOCK_NONBLOCK`, and close-on-exec iff it has `SOCK_CLOEXEC` |
| `Uds.AfterFcntl` | src/sys/unix/uds/mod.rs:91-94 | `F_SETFL` sets the non-blocking flag from `O_NONBLOCK` in its argument and keeps close-on-exec; `F_SETFD` sets close-on-exec from `FD_CLOEXEC` and keeps the non-blocking flag |
| `Uds.FlagsAfter` | src/sys/unix/uds/mod.rs:91-94 | After the first `n` of a descriptor's two planned calls succeed it keeps every flag it had, is non-blocking iff it was or `n >= 1`, and close-on-exec iff it was or `n >= 2`; with `n == 0` it is unchanged |
| `Uds.Os.constructor` | src/sys/unix/uds/mod.rs:78-97 | A fresh OS has no open descriptors, an empty log and the given failure table |
| `Uds.Os.SocketPair` | src/sys/unix/uds/mod.rs:82 | `socketpair` is logged; if the table says it fails, it returns that error and changes nothing else; otherwise two new consecutive descriptors with the creation flags of the type word are opened and written to the array |
| `Uds.Os.Fcntl` | src/sys/unix/uds/mod.rs:91-94 | `fcntl` is logged and fails as the table says, or with `EBADF` on a descriptor that is not open; only on success is the flag changed |
| `Uds.Run` | src/sys/unix/uds/mod.rs:91-94 | Running planned calls stops at the first failure: a successful run made every planned call |
| `Uds.RunStopsAtFirstFailure` | src/sys/unix/uds/mod.rs:91-94 | The calls `Run` makes are a prefix of the plan; the run succeeds iff no planned call fails; on failure the last call made is the first failing one, and its error is the result |
| `Uds.RunConcat` | src/sys/unix/uds/mod.rs:91-94 | Running `p + q` is running `p`, then `q` only if `p` succeeded, with the logs concatenated |
| `Uds.SetNonBlockCloExec` | src/sys/unix/uds/mod.rs:91-92 | For one open descriptor, `F_SETFL O_NONBLOCK` then `F_SETFD FD_CLOEXEC` are made as `Run` prescribes, so one or two calls are logged. Only that descriptor changes. On every path its flags are `FlagsAfter` the calls that succeeded: both flags on success, `O_NONBLOCK` added when only the second call fails, unchanged when the first fails |
| `Uds.SetPairFlags` | src/sys/unix/uds/mod.rs:89-95 | The four `fcntl` calls on the two distinct descriptors `fds[0]` and `fds[1]`, in source order, are made as `Run` prescribes (first failure returned, later calls not made). Only the two descriptors change. On every path `fds[0]` has the flags after the first two successful calls and `fds[1]` after the rest, so a failure leaves the flags of the calls that did succeed; on success both gain both flags |
| `Uds.PairDescriptorsInto` | src/sys/unix/uds/mod.rs:78-97 | Corrected `pair_descriptors`. Atomic path: one `socketpair` with `flags \| SOCK_NONBLOCK \| SOCK_CLOEXEC`, whose result is returned. Fallback: a plain `socketpair`, then the four `fcntl` calls until the first failure. A failed `socketpair` leaves descriptors, next descriptor number and array unchanged. Otherwise the next number advances by two, the caller's array holds the new pair, and no other descriptor changes. On the fallback path each new descriptor carries its creation flags plus those of its `fcntl` calls that succeeded, also when a later one fails. On success both descriptors carry exactly `O_NONBLOCK` and `FD_CLOEXEC` |
| `Uds.PairDescriptors` | src/sys/unix/uds/mod.rs:78-97 | `pair_descriptors` as written: the same calls, results, descriptor numbering and descriptor states (the frame on every other descriptor, and the flags of the pair on every path) as `PairDescriptorsInto`, but the caller's array is never changed, so a caller starting from `[-1, -1]` holds no open descriptor after a success |
| `WindowsTcp.TryIntoI32` | src/sys/windows/tcp.rs:72 | `try_into::<i32>()` succeeds iff the value is in the `i32` range, and then yields the value itself |
| `WindowsTcp.UnwrapOr` | src/sys/windows/tcp.rs:159-160 | `unwrap_or` (also `unwrap_or_default` at line 140 and `unwrap_or(i32::max_value())` at line 72) yields the contained value when present and the default otherwise |
| `WindowsTcp.AsCUshort` | src/sys/windows/tcp.rs:140 | `as c_ushort` keeps a value below 65536 and otherwise differs from it by a multiple of 65536 |
| `WindowsTcp.FirstByte` | src/sys/windows/tcp.rs:97-108 | The one-byte `c_char` `optval` holds the first byte of the little-endian `BOOL`: a value in `c_char` range is kept, and the byte agrees with the value modulo 256 |
| `WindowsTcp.AsMillis` | src/sys/windows/tcp.rs:158 | `Duration::as_millis` is the whole number of milliseconds: the largest `m` with `m` ms not exceeding the duration |
| `WindowsTcp.Family` | src/sys/windows/tcp.rs:124 | `addr.ss_family` is the little-endian `u16` whose low byte is storage byte 0 and high byte is storage byte 1 |
| `WindowsTcp.AsCUlong` | src/sys/windows/tcp.rs:164-165 | `as c_ulong` keeps a non-negative `i32` unchanged |
| `WindowsTcp.FromMillis` | src/sys/windows/tcp.rs:204 | `Duration::from_millis(m)` is exactly `m` milliseconds (`secs * 10^9 + nanos == m * 10^6`), and `as_millis` gives back `m` |
| `WindowsTcp.CheckSocketError` | src/sys/windows/tcp.rs:39-43 | The `syscall!` check against `SOCKET_ERROR`: an error iff the call returns `SOCKET_ERROR`, carrying the last OS error, and otherwise the return value |
| `WindowsTcp.Bind` | src/sys/windows/tcp.rs:35-45 | `bind` fails iff the call returns `SOCKET_ERROR`, with the last OS error |
| `WindowsTcp.Connect` | src/sys/windows/tcp.rs:47-66 | `connect` succeeds iff the call does not return `SOCKET_ERROR` or its error kind is `WouldBlock`; the stream owns the socket; otherwise it returns the OS error |
| `WindowsTcp.ConnectAcceptsWouldBlock` | src/sys/windows/tcp.rs:35-66 | The same `SOCKET_ERROR` with kind `WouldBlock` is an error for `bind` and a success for `connect`; with another kind it is an error for `connect` too |
| `WindowsTcp.ClampBacklog` | src/sys/windows/tcp.rs:72 | The backlog passed is at most the requested one, is the requested one or `i32::MAX`, and is never an error |
| `WindowsTcp.BacklogClamp` | src/sys/windows/tcp.rs:72 | A backlog up to `i32::MAX` is passed unchanged, and every larger one becomes `i32::MAX` |
| `WindowsTcp.Listen` | src/sys/windows/tcp.rs:68-75 | `listen` hands the OS the clamped backlog and fails iff that call returns `SOCKET_ERROR`; on success the listener owns the socket |
| `WindowsTcp.ReuseAddrValue` | src/sys/windows/tcp.rs:82 | `true` is encoded as `TRUE`, `false` as `FALSE` |
| `WindowsTcp.SetReuseAddr` | src/sys/windows/tcp.rs:81-94 | `set_reuseaddr` hands the OS that `BOOL` and fails iff `setsockopt` returns `SOCKET_ERROR` |
| `WindowsTcp.GetReuseAddr` | src/sys/windows/tcp.rs:96-110 | `get_reuseaddr` fails iff `getsockopt` returns `SOCKET_ERROR`; otherwise it returns `optval != 0` |
| `WindowsTcp.ReuseAddrRoundTrip` | src/sys/windows/tcp.rs:82-108 | Reading back the first byte of the stored `BOOL` gives the value that was set |
| `WindowsTcp.GetLocalAddr` | src/sys/windows/tcp.rs:112-135 | `get_localaddr` fails iff `getsockname` returns `SOCKET_ERROR`; otherwise the address is IPv4 iff `ss_family == AF_INET`, and IPv6 for every other family; each reads the prefix of its structure's size |
| `WindowsTcp.UnrecognisedFamilyReadAsV6` | src/sys/windows/tcp.rs:124-130 | A storage with family `AF_UNIX` is read as an IPv6 address and is not rejected |
| `WindowsTcp.LingerValue` | src/sys/windows/tcp.rs:138-141 | `None` is `linger {0, 0}`; `Some(d)` is on, with `l_linger == d.as_secs() mod 65536` |
| `WindowsTcp.LingerTruncates` | src/sys/windows/tcp.rs:140 | The `as c_ushort` cast truncates, not clamps: below 65536 seconds the value is exact, adding 65536 seconds changes nothing, and 65536 seconds gives linger 0 |
| `WindowsTcp.SetLinger` | src/sys/windows/tcp.rs:137-153 | `set_linger` hands the OS the `linger` value for the duration and fails iff `setsockopt` returns `SOCKET_ERROR` |
| `WindowsTcp.KeepaliveMillis` | src/sys/windows/tcp.rs:157-160 | `None` gives 0; `Some(d)` gives `min(d.as_millis(), i32::MAX)`, stated as: at most the milliseconds, and either them or `i32::MAX` |
| `WindowsTcp.KeepaliveValue` | src/sys/windows/tcp.rs:162-166 | `onoff` is 1 iff a duration is given and 0 iff none is; the idle time and the probe interval both equal the clamped milliseconds |
| `WindowsTcp.SetKeepalive` | src/sys/windows/tcp.rs:155-183 | `set_keepalive` hands `WSAIoctl` that value and succeeds iff it returns 0 |
| `WindowsTcp.GetKeepalive` | src/sys/windows/tcp.rs:185-207 | A non-zero return is an error. After a zero return the result is `None` iff `onoff == 0` or the interval is 0; otherwise it is exactly `Duration::from_millis(interval)`: a duration of exactly the interval in milliseconds |
| `WindowsTcp.KeepaliveRoundTrip` | src/sys/windows/tcp.rs:157-166 | Decoding the encoding of `None` gives `None`. Decoding the encoding of `Some(d)` with `1 <= d.as_millis() <= i32::MAX` gives `Some` of those milliseconds (lines 203-204) |
| `WindowsTcp.KeepaliveRoundTripLossy` | src/sys/windows/tcp.rs:157-166 | A duration over `i32::MAX` ms reads back as `i32::MAX` ms. One under a millisecond switches keep-alive on but reads back as `None` (lines 203-204) |

## Left out

- The system calls themselves (`socketpair`, `fcntl`, `bind`, `connect`, `listen`, `closesocket`, `setsockopt`, `getsockopt`, `getsockname`, `WSAIoctl`): foreign functions. They appear only as the abstract `Os` class, as function parameters, or as return codes and out-parameters.
- `last_os_error` is the parameter `lastError`.
- `path_offset` (src/sys/unix/uds/mod.rs:72-76) subtracts two pointers. It is the parameter `off`, with the Linux value 2 as `LINUX_PATH_OFFSET`.
- The `cfg` platform selection in `pair_descriptors` is the boolean `atomic`, not a compile-time choice.
- `new_v4_socket`, `new_v6_socket`, and `bind`'s and `connect`'s translation of the address into a raw one: these rely on `init`, `new_socket` and `socket_addr` of the Windows `net` module, which is not part of this model.
- Ownership transfer by `from_raw_socket` is a wrapper datatype holding the socket.
- `accept` (src/sys/windows/tcp.rs:209-213) only calls `listener.accept()`.
- `close` (src/sys/windows/tcp.rs:77-79) ignores the result of `closesocket`.
- The `datagram`, `listener` and `stream` submodules of `uds` are not part of this model.
- Memory layout and pointer casts are not modelled. Two layouts look questionable but cannot be judged without the real ABI:
  - `get_reuseaddr` passes a one-byte `c_char` with the length of a four-byte `BOOL` (src/sys/windows/tcp.rs:97-98). The model assumes `optval` receives the first byte of the stored `BOOL`.
  - `set_keepalive` passes `size_of::<mstcpip::tcp_keepalive> as DWORD`, which casts the function item rather than calling it (src/sys/windows/tcp.rs:173). The model does not capture the length argument.
- `SocketAddrV4` / `SocketAddrV6` are the raw bytes of their structures. Port, address and scope decoding is left out, and so are `Duration` operations other than `as_secs`, `as_millis` and `from_millis`.
- `get_localaddr` rejects no address family: every family other than `AF_INET`, recognised or not, is read as a `SOCKADDR_IN6_LH`. The model keeps this behaviour and does not decode the address further.
- When a fallback `fcntl` fails, the new descriptors stay open, as in the source. No close on the error path is modelled.
- In `socket_addr`, `*src as libc::c_char` is kept as the byte's bit pattern; the sign of `c_char` does not matter for the copy.

## Findings

| source | as written | input that shows it | evidently intended | confidence | as-written member | corrected member |
|---|---|---|---|---|---|---|
| src/sys/unix/uds/mod.rs:78-82 | `fds: [RawFd; 2]` is taken by value, so `socketpair` fills the callee's copy and the caller's array is unchanged | any successful call whose caller passes `[-1, -1]`: afterwards the caller still holds `[-1, -1]`, while the two new descriptors stay open with no owner | the caller's array receives the new pair (`&mut [RawFd; 2]`) | not executed; follows from Rust's by-value semantics for arrays | `Uds.PairDescriptors` | `Uds.PairDescriptorsInto` |
