/** Unix-domain socket primitives: the `sockaddr_un` encoder and the
    non-blocking, close-on-exec socket-pair setup (src/sys/unix/uds/mod.rs). */
module Uds {
  import opened Io

  // ---------------------------------------------------------------------
  // Address encoding
  // ---------------------------------------------------------------------

  /** `AF_UNIX` family tag (1 on Linux and the BSDs). */
  const AF_UNIX: u16 := 1
  /** `AF_UNSPEC`, the value a zeroed `sun_family` holds. */
  const AF_UNSPEC: u16 := 0
  /** Capacity of `sun_path` on Linux; everything below takes it as the parameter `cap`. */
  const LINUX_SUN_PATH_LEN: nat := 108
  /** Byte offset of `sun_path` inside `sockaddr_un` on Linux (`size_of::<sa_family_t>()`);
      everything below takes it as the parameter `off`. */
  const LINUX_PATH_OFFSET: nat := 2

  /** Message of the abstract-namespace rejection (first arm of the length match). */
  const ABSTRACT_TOO_LONG: string := "path must be no longer than libc::sockaddr_un.sun_path"
  /** Message of every other over-long input (second arm). */
  const PATHNAME_TOO_LONG: string := "path must be shorter than libc::sockaddr_un.sun_path"

  /** `libc::sockaddr_un` as returned by value: the family tag and the
      `sun_path` bytes (the bit patterns of its `c_char`s). */
  datatype SockaddrUn = SockaddrUn(sunFamily: u16, sunPath: seq<byte>)

  /** A pathname address: non-empty and the first byte is not NUL. */
  predicate IsPathname(bytes: seq<byte>) {
    |bytes| > 0 && bytes[0] != 0
  }

  /** An abstract address: the first byte is NUL. */
  predicate IsAbstract(bytes: seq<byte>) {
    |bytes| > 0 && bytes[0] == 0
  }

  /** The one terminator byte counted in the length of a pathname address. */
  function TerminatorLen(bytes: seq<byte>): (t: nat)
    ensures t <= 1
    ensures t == 1 <==> IsPathname(bytes)
  {
    if IsPathname(bytes) then 1 else 0
  }

  /** `n` zero bytes. */
  function Zeros(n: nat): (z: seq<byte>)
    ensures |z| == n
    ensures forall i :: 0 <= i < n ==> z[i] == 0
  {
    seq(n, _ => 0)
  }

  /** The `usize as socklen_t` cast: keeps the low 32 bits, so a length
      that fits is unchanged and any other differs by a multiple of 2^32. */
  function SocklenCast(n: nat): (c: u32)
    ensures n < U32_MODULUS ==> c == n
    ensures (n - c) % U32_MODULUS == 0
  {
    n % U32_MODULUS
  }

  /** Reference definition of what `socket_addr` computes for the path
      bytes `bytes`, a `sun_path` capacity `cap` and a path offset `off`:
      over-long input is rejected, otherwise the buffer is the input
      followed by zero padding, and the length counts the header, the
      bytes and, for a pathname, its terminator. */
  function EncodeAddr(bytes: seq<byte>, cap: nat, off: nat): (r: Result<(SockaddrUn, u32)>)
    ensures r.Ok? ==> |r.value.0.sunPath| == cap
  {
    if |bytes| >= cap then
      Err(Custom(InvalidInput,
                 if IsAbstract(bytes) && |bytes| > cap then ABSTRACT_TOO_LONG else PATHNAME_TOO_LONG))
    else
      Ok((SockaddrUn(AF_UNIX, bytes + Zeros(cap - |bytes|)),
          SocklenCast(off + |bytes| + TerminatorLen(bytes))))
  }

  /** `socket_addr`: a zeroed local structure whose family is set, the
      two-arm length check in the source's match order, the copy loop over
      `sun_path` zipped with the input, and the conditional terminator. */
  method SocketAddr(bytes: seq<byte>, cap: nat, off: nat) returns (r: Result<(SockaddrUn, u32)>)
    ensures r == EncodeAddr(bytes, cap, off)
  {
    var sunPath := new byte[cap](_ => 0);
    var sunFamily := AF_UNSPEC;
    sunFamily := AF_UNIX;

    if |bytes| > 0 && bytes[0] == 0 && |bytes| > cap {
      return Err(Custom(InvalidInput, ABSTRACT_TOO_LONG));
    } else if |bytes| >= cap {
      return Err(Custom(InvalidInput, PATHNAME_TOO_LONG));
    }

    // `iter_mut().zip(bytes.iter())` stops at the shorter of the two
    var n := if cap < |bytes| then cap else |bytes|;
    var i := 0;
    while i < n
      invariant 0 <= i <= n
      invariant forall j :: 0 <= j < i ==> sunPath[j] == bytes[j]
      invariant forall j :: i <= j < cap ==> sunPath[j] == 0
    {
      sunPath[i] := bytes[i];
      i := i + 1;
    }

    var socklen := off + |bytes|;
    if |bytes| > 0 && bytes[0] != 0 {
      socklen := socklen + 1;
    }

    assert sunPath[..] == bytes + Zeros(cap - |bytes|) by {
      forall j | 0 <= j < cap ensures sunPath[..][j] == (bytes + Zeros(cap - |bytes|))[j] {
        if j < |bytes| { assert sunPath[j] == bytes[j]; }
      }
    }
    r := Ok((SockaddrUn(sunFamily, sunPath[..]), SocklenCast(socklen)));
  }

  /** Every input of length at least `cap` is rejected with `InvalidInput`;
      the "no longer than" message is used exactly for an abstract input
      strictly longer than `cap`. */
  lemma RejectsExactlyOverlong(bytes: seq<byte>, cap: nat, off: nat)
    ensures EncodeAddr(bytes, cap, off).Err? <==> |bytes| >= cap
    ensures EncodeAddr(bytes, cap, off).Err? ==>
              EncodeAddr(bytes, cap, off).error.kind == InvalidInput &&
              (EncodeAddr(bytes, cap, off).error.message == ABSTRACT_TOO_LONG <==>
                 IsAbstract(bytes) && |bytes| > cap) &&
              (EncodeAddr(bytes, cap, off).error.message == PATHNAME_TOO_LONG <==>
                 !(IsAbstract(bytes) && |bytes| > cap))
  {
  }

  /** An abstract input of exactly `cap` bytes misses the first arm and is
      caught by the `Equal` case of the second. */
  lemma AbstractAtCapacityRejected(bytes: seq<byte>, cap: nat, off: nat)
    requires IsAbstract(bytes) && |bytes| == cap
    ensures EncodeAddr(bytes, cap, off) == Err(Custom(InvalidInput, PATHNAME_TOO_LONG))
  {
  }

  /** On success the family is `AF_UNIX`, the input is copied byte for
      byte and the rest of the buffer is zero. */
  lemma EncodedContents(bytes: seq<byte>, cap: nat, off: nat)
    requires EncodeAddr(bytes, cap, off).Ok?
    ensures var a := EncodeAddr(bytes, cap, off).value.0;
            && a.sunFamily == AF_UNIX
            && |a.sunPath| == cap
            && (forall i :: 0 <= i < |bytes| ==> a.sunPath[i] == bytes[i])
            && (forall i :: |bytes| <= i < cap ==> a.sunPath[i] == 0)
  {
  }

  /** On success the effective length is the header plus the input plus one
      terminator byte exactly when the input is a pathname; it never exceeds
      the structure's size, and a pathname's terminator lies inside the
      buffer and is zero. The platform's `off + cap` fits in `socklen_t`. */
  lemma EffectiveLength(bytes: seq<byte>, cap: nat, off: nat)
    requires off + cap < U32_MODULUS
    requires EncodeAddr(bytes, cap, off).Ok?
    ensures var (a, len) := EncodeAddr(bytes, cap, off).value;
            && (IsPathname(bytes) ==> len == off + |bytes| + 1)
            && (!IsPathname(bytes) ==> len == off + |bytes|)
            && len <= off + cap
            && (IsPathname(bytes) ==> |bytes| < cap && a.sunPath[|bytes|] == 0)
  {
  }

  /** The bytes an effective length `len` designates in a `sun_path` buffer:
      the first `len - off` bytes, without the trailing terminator when
      they start a pathname. */
  function DesignatedAddress(sunPath: seq<byte>, len: nat, off: nat): seq<byte>
    requires off <= len <= off + |sunPath|
  {
    var n := len - off;
    if n == 0 || sunPath[0] == 0 then sunPath[..n] else sunPath[..n - 1]
  }

  /** Round trip: the effective length `socket_addr` computes designates
      exactly the input bytes in the buffer it fills, and for a pathname
      the byte after them is the NUL terminator. */
  lemma AddressRoundTrip(bytes: seq<byte>, cap: nat, off: nat)
    requires off + cap < U32_MODULUS
    requires EncodeAddr(bytes, cap, off).Ok?
    ensures var (a, len) := EncodeAddr(bytes, cap, off).value;
            && off <= len <= off + |a.sunPath|
            && DesignatedAddress(a.sunPath, len, off) == bytes
            && (IsPathname(bytes) ==> a.sunPath[len - off - 1] == 0)
  {
  }

  /** The pathname "./foo/bar.txt" (13 bytes) has effective length 13 + off + 1. */
  lemma PathnameVector(off: nat)
    requires off + LINUX_SUN_PATH_LEN < U32_MODULUS
    ensures var path: seq<byte> := [46, 47, 102, 111, 111, 47, 98, 97, 114, 46, 116, 120, 116];
            EncodeAddr(path, LINUX_SUN_PATH_LEN, off).Ok? &&
            EncodeAddr(path, LINUX_SUN_PATH_LEN, off).value.1 == 13 + off + 1
  {
  }

  /** The abstract name [0, 116, 111, 107, 105, 111] (6 bytes) has effective length 6 + off. */
  lemma AbstractVector(off: nat)
    requires off + LINUX_SUN_PATH_LEN < U32_MODULUS
    ensures var path: seq<byte> := [0, 116, 111, 107, 105, 111];
            EncodeAddr(path, LINUX_SUN_PATH_LEN, off).Ok? &&
            EncodeAddr(path, LINUX_SUN_PATH_LEN, off).value.1 == 6 + off
  {
  }

  // ---------------------------------------------------------------------
  // Socket pairs over an abstract operating system
  // ---------------------------------------------------------------------

  type Fd = int

  /** The two descriptor attributes this core sets: the `O_NONBLOCK` file
      status flag and the `FD_CLOEXEC` descriptor flag. */
  datatype FdFlag = NonBlock | CloExec

  datatype FcntlCmd = SetFl | SetFd

  /** A system call as the abstract OS records it. */
  datatype Call =
    | SocketPairCall(domain: int, ty: bv32, protocol: int)
    | FcntlCall(fd: Fd, cmd: FcntlCmd, arg: bv32)

  /** Linux creation flags accepted by `socketpair`'s type argument. */
  const SOCK_NONBLOCK: bv32 := 0x800
  const SOCK_CLOEXEC: bv32 := 0x8_0000
  /** Darwin `fcntl` arguments. */
  const O_NONBLOCK: bv32 := 0x4
  const FD_CLOEXEC: bv32 := 0x1
  /** `fcntl` on a descriptor that is not open. */
  const EBADF: IoError := Os(9, Other)

  /** The flags a new descriptor carries for the creation type `ty`. */
  function CreationFlags(ty: bv32): (f: set<FdFlag>)
    ensures NonBlock in f <==> ty & SOCK_NONBLOCK != 0
    ensures CloExec in f <==> ty & SOCK_CLOEXEC != 0
  {
    (if ty & SOCK_NONBLOCK != 0 then {NonBlock} else {}) +
    (if ty & SOCK_CLOEXEC != 0 then {CloExec} else {})
  }

  /** The effect of a successful `fcntl`: `F_SETFL` replaces the status flag,
      `F_SETFD` the descriptor flag; the other attribute is untouched. */
  function AfterFcntl(flags: set<FdFlag>, cmd: FcntlCmd, arg: bv32): (g: set<FdFlag>)
    ensures cmd == SetFl ==> (NonBlock in g <==> arg & O_NONBLOCK != 0) && (CloExec in g <==> CloExec in flags)
    ensures cmd == SetFd ==> (CloExec in g <==> arg & FD_CLOEXEC != 0) && (NonBlock in g <==> NonBlock in flags)
  {
    match cmd
    case SetFl => (flags - {NonBlock}) + (if arg & O_NONBLOCK != 0 then {NonBlock} else {})
    case SetFd => (flags - {CloExec}) + (if arg & FD_CLOEXEC != 0 then {CloExec} else {})
  }

  /** An abstract operating system: the open descriptors with their flags,
      the next descriptor number it hands out, the log of every call made,
      and `failAt`, which fixes the error the n-th call (counting from 0)
      fails with; a call whose number is absent does not fail for that reason. */
  class Os {
    var open: map<Fd, set<FdFlag>>
    var nextFd: Fd
    var log: seq<Call>
    const failAt: map<nat, IoError>

    ghost predicate Valid()
      reads this
    {
      0 <= nextFd && forall fd :: fd in open ==> 0 <= fd < nextFd
    }

    constructor (failAt: map<nat, IoError>)
      ensures Valid()
      ensures open == map[] && nextFd == 0 && log == [] && this.failAt == failAt
    {
      open, nextFd, log := map[], 0, [];
      this.failAt := failAt;
    }

    /** `socketpair(domain, ty, protocol, sv)`: on success two new
        descriptors carrying the creation flags of `ty` are written to `sv`. */
    method SocketPair(domain: int, ty: bv32, protocol: int, sv: array<Fd>) returns (r: Result<()>)
      requires Valid() && sv.Length == 2
      modifies this, sv
      ensures Valid()
      ensures log == old(log) + [SocketPairCall(domain, ty, protocol)]
      ensures |old(log)| in failAt ==>
                r == Err(failAt[|old(log)|]) && open == old(open) && nextFd == old(nextFd) &&
                sv[..] == old(sv[..])
      ensures |old(log)| !in failAt ==>
                r == Ok(()) && sv[..] == [old(nextFd), old(nextFd) + 1] && nextFd == old(nextFd) + 2 &&
                open == old(open)[old(nextFd) := CreationFlags(ty)][old(nextFd) + 1 := CreationFlags(ty)]
    {
      var k := |log|;
      log := log + [SocketPairCall(domain, ty, protocol)];
      if k in failAt {
        r := Err(failAt[k]);
      } else {
        var fd := nextFd;
        open := open[fd := CreationFlags(ty)][fd + 1 := CreationFlags(ty)];
        nextFd := fd + 2;
        sv[0], sv[1] := fd, fd + 1;
        r := Ok(());
      }
    }

    /** `fcntl(fd, cmd, arg)` for `F_SETFL` and `F_SETFD`. */
    method Fcntl(fd: Fd, cmd: FcntlCmd, arg: bv32) returns (r: Result<()>)
      requires Valid()
      modifies this
      ensures Valid() && nextFd == old(nextFd)
      ensures log == old(log) + [FcntlCall(fd, cmd, arg)]
      ensures r == if |old(log)| in failAt then Err(failAt[|old(log)|])
                   else if fd !in old(open) then Err(EBADF)
                   else Ok(())
      ensures open == if r.Ok? then old(open)[fd := AfterFcntl(old(open)[fd], cmd, arg)] else old(open)
    {
      var k := |log|;
      log := log + [FcntlCall(fd, cmd, arg)];
      if k in failAt {
        r := Err(failAt[k]);
      } else if fd !in open {
        r := Err(EBADF);
      } else {
        open := open[fd := AfterFcntl(open[fd], cmd, arg)];
        r := Ok(());
      }
    }
  }

  /** The two `fcntl` calls the fallback path makes for one descriptor. */
  function FcntlPlan(fd: Fd): seq<Call> {
    [FcntlCall(fd, SetFl, O_NONBLOCK), FcntlCall(fd, SetFd, FD_CLOEXEC)]
  }

  /** The flags of a descriptor that had `f` once the first `n` of its two
      planned calls, `F_SETFL O_NONBLOCK` then `F_SETFD FD_CLOEXEC`, have
      succeeded: nothing is lost, the first adds non-blocking, the second
      close-on-exec. */
  function FlagsAfter(f: set<FdFlag>, n: nat): (g: set<FdFlag>)
    ensures f <= g
    ensures n == 0 ==> g == f
    ensures NonBlock in g <==> NonBlock in f || 1 <= n
    ensures CloExec in g <==> CloExec in f || 2 <= n
  {
    f + (if 1 <= n then {NonBlock} else {}) + (if 2 <= n then {CloExec} else {})
  }

  /** The number of calls that succeeded among `made` calls ending with
      result `r`: all of them, or all but the last, failing one. */
  function Succeeded(made: nat, r: Result<()>): nat {
    if r.Err? && made > 0 then made - 1 else made
  }

  /** The four calls of the fallback path for the pair `fds[0]`, `fds[1]`. */
  function FallbackCalls(fd0: Fd, fd1: Fd): seq<Call> {
    FcntlPlan(fd0) + FcntlPlan(fd1)
  }

  /** The effect of running a sequence of planned calls: the calls actually
      made, in order, and the overall result. */
  datatype Outcome = Outcome(made: seq<Call>, result: Result<()>)

  /** What running the planned calls `plan` produces when the first of them
      is call number `k`: the calls are made in order until one fails; the
      failing call is the last one made and its error is the result. */
  function Run(failAt: map<nat, IoError>, k: nat, plan: seq<Call>): (o: Outcome)
    ensures o.result.Ok? ==> o.made == plan
    decreases |plan|
  {
    if plan == [] then Outcome([], Ok(()))
    else if k in failAt then Outcome([plan[0]], Err(failAt[k]))
    else
      var rest := Run(failAt, k + 1, plan[1..]);
      Outcome([plan[0]] + rest.made, rest.result)
  }

  /** Splitting a non-empty `p + q` at its first element. */
  lemma ConsConcat<T>(p: seq<T>, q: seq<T>)
    requires p != []
    ensures (p + q)[0] == p[0] && (p + q)[1..] == p[1..] + q && [p[0]] + (p[1..] + q) == p + q
  {
  }

  /** Running `p + q` is running `p`, then, if that succeeded, running `q`. */
  lemma {:induction false} RunConcat(failAt: map<nat, IoError>, k: nat, p: seq<Call>, q: seq<Call>)
    ensures Run(failAt, k, p).result.Err? ==> Run(failAt, k, p + q) == Run(failAt, k, p)
    ensures Run(failAt, k, p).result.Ok? ==>
              Run(failAt, k, p + q).made == p + Run(failAt, k + |p|, q).made &&
              Run(failAt, k, p + q).result == Run(failAt, k + |p|, q).result
    decreases |p|
  {
    if p == [] {
      assert p + q == q;
    } else if k in failAt {
      assert (p + q)[0] == p[0];
    } else {
      var tail := p[1..];
      ConsConcat(p, q);
      RunConcat(failAt, k + 1, tail, q);
      if Run(failAt, k + 1, tail).result.Ok? {
        ConsConcat(p, Run(failAt, k + |p|, q).made);
      }
    }
  }

  /** `Run` against an independent description: the calls made are a
      prefix of the plan; the run succeeds exactly when no planned call has
      a failure; otherwise the last call made is the first failing one and
      its error is the result. */
  lemma {:induction false} RunStopsAtFirstFailure(failAt: map<nat, IoError>, k: nat, plan: seq<Call>)
    ensures var o := Run(failAt, k, plan);
            && |o.made| <= |plan| && o.made == plan[..|o.made|]
            && (o.result.Ok? <==> forall j :: k <= j < k + |plan| ==> j !in failAt)
            && (o.result.Err? ==>
                  && 0 < |o.made|
                  && (forall j :: k <= j < k + |o.made| - 1 ==> j !in failAt)
                  && k + |o.made| - 1 in failAt
                  && o.result.error == failAt[k + |o.made| - 1])
    decreases |plan|
  {
    if plan != [] && k !in failAt {
      RunStopsAtFirstFailure(failAt, k + 1, plan[1..]);
    }
  }

  /** The fallback path for one descriptor: `F_SETFL O_NONBLOCK`, then
      `F_SETFD FD_CLOEXEC`, stopping at the first failure; on success the
      descriptor carries both flags in addition to what it had. */
  method SetNonBlockCloExec(os: Os, fd: Fd) returns (r: Result<()>)
    requires os.Valid() && fd in os.open
    modifies os
    ensures os.Valid() && os.nextFd == old(os.nextFd)
    ensures var o := Run(os.failAt, |old(os.log)|, FcntlPlan(fd));
            os.log == old(os.log) + o.made && r == o.result
    ensures |old(os.log)| < |os.log| <= |old(os.log)| + 2
    ensures fd in os.open && os.open == old(os.open)[fd := os.open[fd]]
    ensures r.Ok? ==> os.open[fd] == old(os.open)[fd] + {NonBlock, CloExec}
    ensures os.open[fd] == FlagsAfter(old(os.open)[fd], Succeeded(|os.log| - |old(os.log)|, r))
  {
    ghost var k := |os.log|;
    assert FcntlPlan(fd)[1..][1..] == [];
    r := os.Fcntl(fd, SetFl, O_NONBLOCK);
    if r.Err? {
      return;
    }
    r := os.Fcntl(fd, SetFd, FD_CLOEXEC);
    assert Run(os.failAt, k + 1, FcntlPlan(fd)[1..]).result == r;
  }

  /** The fallback block for a new pair `fd0`, `fd1`: the four `fcntl`
      calls in order, stopping at the first failure; on success both
      descriptors carry both flags in addition to what they had. */
  method SetPairFlags(os: Os, fd0: Fd, fd1: Fd) returns (r: Result<()>)
    requires os.Valid() && fd0 in os.open && fd1 in os.open && fd0 != fd1
    modifies os
    ensures os.Valid() && os.nextFd == old(os.nextFd)
    ensures var o := Run(os.failAt, |old(os.log)|, FallbackCalls(fd0, fd1));
            os.log == old(os.log) + o.made && r == o.result
    ensures fd0 in os.open && fd1 in os.open
    ensures os.open == old(os.open)[fd0 := os.open[fd0]][fd1 := os.open[fd1]]
    ensures r.Ok? ==> os.open[fd0] == old(os.open)[fd0] + {NonBlock, CloExec} &&
                      os.open[fd1] == old(os.open)[fd1] + {NonBlock, CloExec}
    ensures var s := Succeeded(|os.log| - |old(os.log)|, r);
            && os.open[fd0] == FlagsAfter(old(os.open)[fd0], if s < 2 then s else 2)
            && os.open[fd1] == FlagsAfter(old(os.open)[fd1], if s < 2 then 0 else s - 2)
  {
    RunConcat(os.failAt, |os.log|, FcntlPlan(fd0), FcntlPlan(fd1));
    r := SetNonBlockCloExec(os, fd0);
    if r.Err? {
      return;
    }
    r := SetNonBlockCloExec(os, fd1);
  }

  /** `pair_descriptors` with the descriptor array passed by reference, as
      evidently intended. On the atomic path one `socketpair` receives the
      flags OR-ed with `SOCK_NONBLOCK | SOCK_CLOEXEC` and its failure is the
      result. Otherwise a plain `socketpair` is followed by the four `fcntl`
      calls in order, stopping at the first failure, whose error is
      returned. Once `socketpair` succeeds the caller's array holds the new
      pair, which stays open even if a later `fcntl` fails; on success both
      descriptors carry exactly `O_NONBLOCK` and `FD_CLOEXEC`. */
  method PairDescriptorsInto(os: Os, fds: array<Fd>, flags: bv32, atomic: bool) returns (r: Result<()>)
    requires os.Valid() && fds.Length == 2
    modifies os, fds
    ensures os.Valid()
    ensures atomic ==>
              os.log == old(os.log) + [SocketPairCall(AF_UNIX as int, flags | SOCK_NONBLOCK | SOCK_CLOEXEC, 0)] &&
              r == (if |old(os.log)| in os.failAt then Err(os.failAt[|old(os.log)|]) else Ok(()))
    ensures !atomic && |old(os.log)| in os.failAt ==>
              os.log == old(os.log) + [SocketPairCall(AF_UNIX as int, flags, 0)] &&
              r == Err(os.failAt[|old(os.log)|])
    ensures !atomic && |old(os.log)| !in os.failAt ==>
              var o := Run(os.failAt, |old(os.log)| + 1, FallbackCalls(old(os.nextFd), old(os.nextFd) + 1));
              os.log == old(os.log) + [SocketPairCall(AF_UNIX as int, flags, 0)] + o.made && r == o.result
    ensures os.nextFd == old(os.nextFd) + (if |old(os.log)| in os.failAt then 0 else 2)
    ensures |old(os.log)| in os.failAt ==> os.open == old(os.open) && fds[..] == old(fds[..])
    ensures |old(os.log)| !in os.failAt ==>
              fds[..] == [old(os.nextFd), old(os.nextFd) + 1] &&
              old(os.nextFd) in os.open && old(os.nextFd) + 1 in os.open &&
              os.open == old(os.open)[old(os.nextFd) := os.open[old(os.nextFd)]]
                                     [old(os.nextFd) + 1 := os.open[old(os.nextFd) + 1]] &&
              (!atomic ==>
                 var s := Succeeded(|os.log| - |old(os.log)| - 1, r);
                 && os.open[old(os.nextFd)] == FlagsAfter(CreationFlags(flags), if s < 2 then s else 2)
                 && os.open[old(os.nextFd) + 1] == FlagsAfter(CreationFlags(flags), if s < 2 then 0 else s - 2))
    ensures r.Ok? ==>
              os.open == old(os.open)[old(os.nextFd) := {NonBlock, CloExec}]
                                     [old(os.nextFd) + 1 := {NonBlock, CloExec}]
  {
    var ty := if atomic then flags | SOCK_NONBLOCK | SOCK_CLOEXEC else flags;
    r := os.SocketPair(AF_UNIX as int, ty, 0, fds);
    if r.Err? {
      return;
    }
    if atomic {
      assert CreationFlags(ty) == {NonBlock, CloExec};
      return;
    }
    ghost var created := CreationFlags(ty);
    r := SetPairFlags(os, fds[0], fds[1]);
    if r.Ok? {
      assert created + {NonBlock, CloExec} == {NonBlock, CloExec};
    }
  }

  /** `pair_descriptors` as written: `fds` is a `[RawFd; 2]` taken by value,
      so `socketpair` writes the new pair into the callee's copy. The OS
      effects are those of `PairDescriptorsInto`, but the caller's array is
      left as it was: a caller that starts from `[-1, -1]` ends up holding two
      descriptors that are not open, while the new pair stays open. */
  method PairDescriptors(os: Os, fds: array<Fd>, flags: bv32, atomic: bool) returns (r: Result<()>)
    requires os.Valid() && fds.Length == 2
    modifies os
    ensures os.Valid()
    ensures atomic ==>
              os.log == old(os.log) + [SocketPairCall(AF_UNIX as int, flags | SOCK_NONBLOCK | SOCK_CLOEXEC, 0)] &&
              r == (if |old(os.log)| in os.failAt then Err(os.failAt[|old(os.log)|]) else Ok(()))
    ensures !atomic && |old(os.log)| in os.failAt ==>
              os.log == old(os.log) + [SocketPairCall(AF_UNIX as int, flags, 0)] &&
              r == Err(os.failAt[|old(os.log)|])
    ensures !atomic && |old(os.log)| !in os.failAt ==>
              var o := Run(os.failAt, |old(os.log)| + 1, FallbackCalls(old(os.nextFd), old(os.nextFd) + 1));
              os.log == old(os.log) + [SocketPairCall(AF_UNIX as int, flags, 0)] + o.made && r == o.result
    ensures os.nextFd == old(os.nextFd) + (if |old(os.log)| in os.failAt then 0 else 2)
    ensures |old(os.log)| in os.failAt ==> os.open == old(os.open)
    ensures |old(os.log)| !in os.failAt ==>
              old(os.nextFd) in os.open && old(os.nextFd) + 1 in os.open &&
              os.open == old(os.open)[old(os.nextFd) := os.open[old(os.nextFd)]]
                                     [old(os.nextFd) + 1 := os.open[old(os.nextFd) + 1]] &&
              (!atomic ==>
                 var s := Succeeded(|os.log| - |old(os.log)| - 1, r);
                 && os.open[old(os.nextFd)] == FlagsAfter(CreationFlags(flags), if s < 2 then s else 2)
                 && os.open[old(os.nextFd) + 1] == FlagsAfter(CreationFlags(flags), if s < 2 then 0 else s - 2))
    ensures r.Ok? ==>
              os.open == old(os.open)[old(os.nextFd) := {NonBlock, CloExec}]
                                     [old(os.nextFd) + 1 := {NonBlock, CloExec}]
    ensures fds[..] == old(fds[..])
    ensures r.Ok? && old(fds[..]) == [-1, -1] ==> fds[0] !in os.open && fds[1] !in os.open
  {
    var copy := new Fd[2];
    copy[0], copy[1] := fds[0], fds[1];
    r := PairDescriptorsInto(os, copy, flags, atomic);
  }
}
