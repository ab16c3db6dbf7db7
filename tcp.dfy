/** The value logic of the Windows TCP socket wrappers: how each wrapper
    encodes the option value it hands to winsock, how it decodes what
    winsock hands back, and how it turns the call's return code into an
    `io::Result`. Every winsock call is abstract: a setter receives the OS
    as a function from the value passed to the return code, a getter the
    return code and the out-parameter the OS filled in, and `lastError` is
    what `io::Error::last_os_error()` would report. */
module WindowsTcp {
  import opened Io

  /** `SOCKET`: an opaque handle. */
  type Socket = nat

  /** `net::TcpStream` / `net::TcpListener` taking ownership of a socket. */
  datatype TcpStream = TcpStream(socket: Socket)
  datatype TcpListener = TcpListener(socket: Socket)

  const SOCKET_ERROR: int := -1
  const TRUE: i32 := 1
  const FALSE: i32 := 0
  const AF_INET: int := 2
  const AF_INET6: int := 23

  /** Sizes of `SOCKADDR_STORAGE`, `SOCKADDR_IN` and `SOCKADDR_IN6_LH`. */
  const SOCKADDR_STORAGE_LEN: nat := 128
  const SOCKADDR_IN_LEN: nat := 16
  const SOCKADDR_IN6_LEN: nat := 28

  // ---------------------------------------------------------------------
  // Conversions of the standard library used by the wrappers
  // ---------------------------------------------------------------------

  /** `TryInto<i32>`: the value itself when it fits, `None` otherwise. */
  function TryIntoI32(x: int): (o: Option<i32>)
    ensures o.Some? <==> -0x8000_0000 <= x <= I32_MAX
    ensures o.Some? ==> o.value == x
  {
    if -0x8000_0000 <= x <= I32_MAX then Some(x) else None
  }

  /** `Option::unwrap_or` (and `unwrap_or_default` with the default given). */
  function UnwrapOr<T>(o: Option<T>, default: T): (v: T)
    ensures o.Some? ==> v == o.value
    ensures o.None? ==> v == default
  {
    match o
    case Some(v) => v
    case None => default
  }

  /** `x as c_ushort`: keeps the low 16 bits, so a value that fits is
      unchanged and any other differs by a multiple of 65536. */
  function AsCUshort(x: int): (y: u16)
    ensures 0 <= x < U16_MODULUS ==> y == x
    ensures (x - y) % U16_MODULUS == 0
  {
    x % U16_MODULUS
  }

  /** `x as c_ulong` (32 bits on Windows) from an `i32`: two's complement
      reinterpretation. */
  function AsCUlong(x: i32): (y: u32)
    ensures 0 <= x ==> y == x
  {
    x % U32_MODULUS
  }

  /** The first byte, in memory order, of a little-endian `BOOL`, read as a
      signed `c_char`. */
  function FirstByte(v: i32): (b: i8)
    ensures -0x80 <= v < 0x80 ==> b == v
    ensures (v - b) % 0x100 == 0
  {
    var b := v % 0x100;
    if b < 0x80 then b else b - 0x100
  }

  type Nanos = x: int | 0 <= x < 1_000_000_000

  /** `std::time::Duration`: whole seconds and the nanoseconds below one second. */
  datatype Duration = Duration(secs: u64, nanos: Nanos)

  /** `Duration::as_millis`: the whole milliseconds, truncated. */
  function AsMillis(d: Duration): (m: nat)
    ensures m * 1_000_000 <= d.secs * 1_000_000_000 + d.nanos < (m + 1) * 1_000_000
  {
    d.secs * 1000 + d.nanos / 1_000_000
  }

  /** `Duration::from_millis`; `as_millis` undoes it. */
  function FromMillis(ms: u64): (d: Duration)
    ensures d.secs * 1_000_000_000 + d.nanos == ms * 1_000_000
    ensures AsMillis(d) == ms
  {
    var d := Duration(ms / 1000, (ms % 1000) * 1_000_000);
    assert d.nanos / 1_000_000 == ms % 1000;
    d
  }

  // ---------------------------------------------------------------------
  // Result classification
  // ---------------------------------------------------------------------

  /** `syscall!(f(..), PartialEq::eq, SOCKET_ERROR)`: an error exactly when
      the call returns `SOCKET_ERROR`. */
  function CheckSocketError(ret: int, lastError: IoError): (r: Result<int>)
    ensures r.Err? <==> ret == SOCKET_ERROR
    ensures r.Err? ==> r.error == lastError
    ensures r.Ok? ==> r.value == ret
  {
    if ret == SOCKET_ERROR then Err(lastError) else Ok(ret)
  }

  /** `bind`: fails exactly when `bind` returns `SOCKET_ERROR`, with the last
      OS error. */
  function Bind(ret: int, lastError: IoError): (r: Result<()>)
    ensures r.Err? <==> ret == SOCKET_ERROR
    ensures r.Err? ==> r.error == lastError
  {
    match CheckSocketError(ret, lastError)
    case Err(e) => Err(e)
    case Ok(_) => Ok(())
  }

  /** `connect` on a non-blocking socket: a connection still in progress
      (`WouldBlock`) is a success, so the result is an error exactly when the
      call fails with any other kind; on success the stream owns the socket. */
  function Connect(socket: Socket, ret: int, lastError: IoError): (r: Result<TcpStream>)
    ensures r.Ok? <==> ret != SOCKET_ERROR || lastError.kind == WouldBlock
    ensures r.Ok? ==> r.value == TcpStream(socket)
    ensures r.Err? ==> r.error == lastError
  {
    match CheckSocketError(ret, lastError)
    case Err(err) =>
      if err.kind != WouldBlock then Err(err) else Ok(TcpStream(socket))
    case Ok(_) => Ok(TcpStream(socket))
  }

  /** The same failing call is an error for `bind` but a success for
      `connect` when its kind is `WouldBlock`. */
  lemma ConnectAcceptsWouldBlock(socket: Socket, code: int)
    ensures Bind(SOCKET_ERROR, Os(code, WouldBlock)).Err?
    ensures Connect(socket, SOCKET_ERROR, Os(code, WouldBlock)) == Ok(TcpStream(socket))
    ensures Connect(socket, SOCKET_ERROR, Os(code, Other)) == Err(Os(code, Other))
  {
  }

  // ---------------------------------------------------------------------
  // listen
  // ---------------------------------------------------------------------

  /** `backlog.try_into().unwrap_or(i32::max_value())`: the smaller of the
      backlog and `i32::MAX`; an over-large backlog is never an error. */
  function ClampBacklog(backlog: u32): (b: i32)
    ensures 0 <= b <= backlog
    ensures b == backlog || b == I32_MAX
  {
    UnwrapOr(TryIntoI32(backlog), I32_MAX)
  }

  /** `listen` calls the OS with the clamped backlog and fails exactly when
      that call returns `SOCKET_ERROR`; on success the listener owns the socket. */
  function Listen(socket: Socket, backlog: u32, listen: i32 -> int, lastError: IoError): (r: Result<TcpListener>)
    ensures r.Err? <==> listen(ClampBacklog(backlog)) == SOCKET_ERROR
    ensures r.Err? ==> r.error == lastError
    ensures r.Ok? ==> r.value == TcpListener(socket)
  {
    var backlog := ClampBacklog(backlog);
    match CheckSocketError(listen(backlog), lastError)
    case Err(e) => Err(e)
    case Ok(_) => Ok(TcpListener(socket))
  }

  /** A backlog that fits in an `i32` is passed through unchanged; every
      larger one becomes `i32::MAX`. */
  lemma BacklogClamp(backlog: u32)
    ensures backlog <= I32_MAX ==> ClampBacklog(backlog) == backlog
    ensures backlog > I32_MAX ==> ClampBacklog(backlog) == I32_MAX
  {
  }

  // ---------------------------------------------------------------------
  // SO_REUSEADDR
  // ---------------------------------------------------------------------

  /** The `BOOL` passed for `SO_REUSEADDR`. */
  function ReuseAddrValue(reuseaddr: bool): (v: i32)
    ensures v == TRUE <==> reuseaddr
    ensures v == FALSE <==> !reuseaddr
  {
    if reuseaddr then TRUE else FALSE
  }

  /** `set_reuseaddr` hands the OS the `BOOL` for `reuseaddr` and fails
      exactly when `setsockopt` returns `SOCKET_ERROR`. */
  function SetReuseAddr(reuseaddr: bool, setsockopt: i32 -> int, lastError: IoError): (r: Result<()>)
    ensures r.Err? <==> setsockopt(ReuseAddrValue(reuseaddr)) == SOCKET_ERROR
    ensures r.Err? ==> r.error == lastError
  {
    match setsockopt(ReuseAddrValue(reuseaddr))
    case -1 => Err(lastError)
    case _ => Ok(())
  }

  /** `get_reuseaddr`: the option is on exactly when the byte the OS left in
      `optval` is non-zero; `SOCKET_ERROR` gives the last OS error. */
  function GetReuseAddr(ret: int, optval: i8, lastError: IoError): (r: Result<bool>)
    ensures r.Err? <==> ret == SOCKET_ERROR
    ensures r.Err? ==> r.error == lastError
    ensures r.Ok? ==> (r.value <==> optval != 0)
  {
    match ret
    case -1 => Err(lastError)
    case _ => Ok(optval != 0)
  }

  /** An option set by `set_reuseaddr` reads back unchanged through
      `get_reuseaddr` when the OS returns the stored `BOOL`, of which the
      one-byte `optval` receives the first byte. */
  lemma ReuseAddrRoundTrip(reuseaddr: bool, ret: int, lastError: IoError)
    requires ret != SOCKET_ERROR
    ensures GetReuseAddr(ret, FirstByte(ReuseAddrValue(reuseaddr)), lastError) == Ok(reuseaddr)
  {
  }

  // ---------------------------------------------------------------------
  // getsockname
  // ---------------------------------------------------------------------

  /** The bytes of a `SOCKADDR_STORAGE`. */
  type Storage = s: seq<byte> | |s| == SOCKADDR_STORAGE_LEN witness seq(128, _ => 0)

  /** `ss_family`, the little-endian `u16` at the start of the storage. */
  function Family(s: Storage): (f: u16)
    ensures f % 0x100 == s[0] && f / 0x100 == s[1]
  {
    s[0] as int + 0x100 * s[1] as int
  }

  /** The address read out of the storage: the bytes of a `SOCKADDR_IN` or of
      a `SOCKADDR_IN6_LH`. */
  datatype SocketAddr = V4(raw: seq<byte>) | V6(raw: seq<byte>)

  /** `get_localaddr`: after a successful `getsockname`, the storage is read
      as IPv4 exactly when `ss_family` is `AF_INET` and as IPv6 for every
      other family, including unrecognised ones; `SOCKET_ERROR` gives the
      last OS error. */
  function GetLocalAddr(ret: int, storage: Storage, lastError: IoError): (r: Result<SocketAddr>)
    ensures r.Err? <==> ret == SOCKET_ERROR
    ensures r.Err? ==> r.error == lastError
    ensures r.Ok? ==> (r.value.V4? <==> Family(storage) == AF_INET)
    ensures r.Ok? && r.value.V4? ==> r.value.raw == storage[..SOCKADDR_IN_LEN]
    ensures r.Ok? && r.value.V6? ==> r.value.raw == storage[..SOCKADDR_IN6_LEN]
  {
    match ret
    case -1 => Err(lastError)
    case _ =>
      if Family(storage) as int == AF_INET then Ok(V4(storage[..SOCKADDR_IN_LEN]))
      else Ok(V6(storage[..SOCKADDR_IN6_LEN]))
  }

  /** A storage whose family is `AF_UNIX` (1), which no TCP socket reports,
      is still read as an IPv6 address rather than rejected. */
  lemma UnrecognisedFamilyReadAsV6(ret: int, lastError: IoError)
    requires ret != SOCKET_ERROR
    ensures var s: Storage := [1] + seq(127, _ => 0);
            GetLocalAddr(ret, s, lastError) == Ok(V6(s[..SOCKADDR_IN6_LEN]))
  {
  }

  // ---------------------------------------------------------------------
  // SO_LINGER
  // ---------------------------------------------------------------------

  /** `linger { l_onoff, l_linger }` */
  datatype Linger = Linger(onoff: u16, linger: u16)

  /** The `linger` value for `dur`: off with zero seconds for `None`; on,
      with the whole seconds cut to 16 bits, for `Some`. */
  function LingerValue(dur: Option<Duration>): (l: Linger)
    ensures dur.None? ==> l == Linger(0, 0)
    ensures dur.Some? ==> l.onoff == 1 && l.linger == dur.value.secs % U16_MODULUS
  {
    Linger(if dur.Some? then 1 else 0,
           UnwrapOr(match dur case Some(d) => Some(AsCUshort(d.secs)) case None => None, 0))
  }

  /** `set_linger` hands the OS the `linger` value for `dur` and fails
      exactly when `setsockopt` returns `SOCKET_ERROR`. */
  function SetLinger(dur: Option<Duration>, setsockopt: Linger -> int, lastError: IoError): (r: Result<()>)
    ensures r.Err? <==> setsockopt(LingerValue(dur)) == SOCKET_ERROR
    ensures r.Err? ==> r.error == lastError
  {
    match setsockopt(LingerValue(dur))
    case -1 => Err(lastError)
    case _ => Ok(())
  }

  /** The seconds are truncated, not clamped: a duration below 65536 seconds
      is passed exactly, adding 65536 seconds changes nothing, and exactly
      65536 seconds asks for a linger of zero seconds. */
  lemma LingerTruncates(secs: u64, nanos: Nanos)
    ensures secs < U16_MODULUS ==> LingerValue(Some(Duration(secs, nanos))) == Linger(1, secs)
    ensures secs + U16_MODULUS < 0x1_0000_0000_0000_0000 ==>
              LingerValue(Some(Duration(secs + U16_MODULUS, nanos))) == LingerValue(Some(Duration(secs, nanos)))
    ensures LingerValue(Some(Duration(U16_MODULUS, nanos))) == Linger(1, 0)
  {
  }

  // ---------------------------------------------------------------------
  // SIO_KEEPALIVE_VALS
  // ---------------------------------------------------------------------

  /** `mstcpip::tcp_keepalive` */
  datatype TcpKeepalive = TcpKeepalive(onoff: u32, keepaliveTime: u32, keepaliveInterval: u32)

  /** The keep-alive period in milliseconds: `0` for `None`, otherwise the
      whole milliseconds of the duration limited to `i32::MAX`. */
  function KeepaliveMillis(dur: Option<Duration>): (ms: i32)
    ensures dur.None? ==> ms == 0
    ensures dur.Some? ==> 0 <= ms <= AsMillis(dur.value) &&
                          (ms == AsMillis(dur.value) || ms == I32_MAX)
  {
    match dur
    case Some(d) => UnwrapOr(TryIntoI32(AsMillis(d)), I32_MAX)
    case None => 0
  }

  /** The `tcp_keepalive` value for `dur`: on exactly for `Some`, with both
      the idle time and the probe interval set to the clamped milliseconds. */
  function KeepaliveValue(dur: Option<Duration>): (k: TcpKeepalive)
    ensures k.onoff == 1 <==> dur.Some?
    ensures k.onoff == 0 <==> dur.None?
    ensures k.keepaliveTime == k.keepaliveInterval == KeepaliveMillis(dur)
  {
    var ms := KeepaliveMillis(dur);
    TcpKeepalive(if dur.Some? then 1 else 0, AsCUlong(ms), AsCUlong(ms))
  }

  /** `set_keepalive` hands `WSAIoctl` the `tcp_keepalive` value for `dur`
      and succeeds exactly when it returns 0. */
  function SetKeepalive(dur: Option<Duration>, ioctl: TcpKeepalive -> int, lastError: IoError): (r: Result<()>)
    ensures r.Ok? <==> ioctl(KeepaliveValue(dur)) == 0
    ensures r.Err? ==> r.error == lastError
  {
    match ioctl(KeepaliveValue(dur))
    case 0 => Ok(())
    case _ => Err(lastError)
  }

  /** `get_keepalive`: after a call returning 0, keep-alive is reported off
      exactly when the value is off or its interval is zero, and otherwise
      as the interval in milliseconds; any other return code gives the last
      OS error. */
  function GetKeepalive(ret: int, keepalive: TcpKeepalive, lastError: IoError): (r: Result<Option<Duration>>)
    ensures r.Err? <==> ret != 0
    ensures r.Err? ==> r.error == lastError
    ensures r.Ok? ==> (r.value.None? <==> keepalive.onoff == 0 || keepalive.keepaliveInterval == 0)
    ensures r.Ok? && r.value.Some? ==> AsMillis(r.value.value) == keepalive.keepaliveInterval
    ensures r.Ok? && r.value.Some? ==>
              r.value.value.secs * 1_000_000_000 + r.value.value.nanos == keepalive.keepaliveInterval * 1_000_000
  {
    match ret
    case 0 =>
      if keepalive.onoff == 0 || keepalive.keepaliveInterval == 0 then Ok(None)
      else Ok(Some(FromMillis(keepalive.keepaliveInterval)))
    case _ => Err(lastError)
  }

  /** What `get_keepalive` reads back when the OS returns the value
      `set_keepalive` stored: `None` stays `None`, and a duration of at
      least one and at most `i32::MAX` milliseconds comes back as its whole
      milliseconds. */
  lemma KeepaliveRoundTrip(dur: Option<Duration>, lastError: IoError)
    requires dur.Some? ==> 1 <= AsMillis(dur.value) <= I32_MAX
    ensures dur.None? ==> GetKeepalive(0, KeepaliveValue(dur), lastError) == Ok(None)
    ensures dur.Some? ==>
              GetKeepalive(0, KeepaliveValue(dur), lastError) == Ok(Some(FromMillis(AsMillis(dur.value))))
  {
  }

  /** Outside that range the round trip is lossy: a longer duration reads
      back as `i32::MAX` milliseconds, and one shorter than a millisecond,
      although it switches keep-alive on, reads back as off. */
  lemma KeepaliveRoundTripLossy(d: Duration, lastError: IoError)
    ensures AsMillis(d) > I32_MAX ==>
              GetKeepalive(0, KeepaliveValue(Some(d)), lastError) == Ok(Some(FromMillis(I32_MAX)))
    ensures AsMillis(d) == 0 ==>
              KeepaliveValue(Some(d)).onoff == 1 &&
              GetKeepalive(0, KeepaliveValue(Some(d)), lastError) == Ok(None)
  {
  }
}
