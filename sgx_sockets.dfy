/** The value-level part of the SGX PAL socket backend: the domains, types
    and operation tables of a PAL socket, the pure helpers of the backend
    (size sanitising, address-shape validation, the socket(2) argument
    mapping, the shutdown mapping, the microsecond to `timeval` conversion,
    the one-byte serialisation of the operation table) and the host
    interface the backend calls through (the `ocall_*` functions). */
module SgxSockets {
  import opened PalTypes
  import opened LinuxTypes

  /** `enum pal_socket_domain` of a socket handle. */
  datatype Domain = IPv4 | IPv6

  /** `enum pal_socket_type`. */
  datatype SocketType = Tcp | Udp

  /** The two `struct socket_ops` tables, `g_tcp_sock_ops` and
      `g_udp_sock_ops`. */
  datatype SockOps = TcpSockOps | UdpSockOps

  /** The two `struct handle_ops` tables, `g_tcp_handle_ops` and
      `g_udp_handle_ops`. */
  datatype HandleOps = TcpHandleOps | UdpHandleOps

  /** The entries of a `socket_ops` table. */
  datatype SockOp = OpBind | OpListen | OpAccept | OpConnect | OpSend | OpRecv

  /** `enum pal_delete_mode`; `DeleteUnknown` stands for any other value a
      caller may pass. */
  datatype DeleteMode = DeleteAll | DeleteRead | DeleteWrite | DeleteUnknown(raw: int)

  /** `pal_stream_options_t`: the set of options a caller passes. Only
      `PAL_OPTION_NONBLOCK` is consulted by the backend. */
  datatype StreamOption = OptionNonblock | OptionOther(id: nat)
  type StreamOptions = set<StreamOption>

  predicate IsNonblock(options: StreamOptions)
  {
    OptionNonblock in options
  }

  /** `struct pal_socket_addr`: either the "disconnect" address of
      `connect`, or an IP address of one domain with its port. */
  datatype SocketAddr =
    | DisconnectAddr
    | IpAddr(domain: Domain, host: seq<bv8>, port: U16)

  /** A `struct sockaddr_storage` the host filled in: its `ss_family` and the
      PAL address `linux_to_pal_sockaddr` makes of it. */
  datatype HostSockaddr = HostSockaddr(family: nat, converted: SocketAddr)

  /** Does an address belong to the given domain (`addr->domain == domain`)? */
  predicate InDomain(addr: SocketAddr, domain: Domain)
  {
    addr.IpAddr? && addr.domain == domain
  }

  // ---------------------------------------------------------------------
  // Operation tables

  /** Which entries each `socket_ops` table fills in: UDP has no `listen`
      and no `accept`. */
  function Provides(ops: SockOps, op: SockOp): (present: bool)
    ensures ops == TcpSockOps ==> present
    ensures ops == UdpSockOps ==> (present <==> op != OpListen && op != OpAccept)
  {
    match ops
    case TcpSockOps => true
    case UdpSockOps => op != OpListen && op != OpAccept
  }

  /** The handle-ops table that belongs with a socket-ops table. */
  function HandleOpsOf(ops: SockOps): HandleOps
  {
    match ops
    case TcpSockOps => TcpHandleOps
    case UdpSockOps => UdpHandleOps
  }

  // ---------------------------------------------------------------------
  // Sizes

  /** `1ull << 47`, the largest size the backend believes. */
  const MAX_SANE_SIZE: nat := 0x8000_0000_0000

  /** `sanitize_size`: a size above 2^47 is taken for garbage and replaced
      by 0; any other size is kept. */
  function SanitizeSize(size: U64): (r: U64)
    ensures r <= MAX_SANE_SIZE
    ensures r == size || r == 0
    ensures r == size <==> size <= MAX_SANE_SIZE
  {
    if size > MAX_SANE_SIZE then 0 else size
  }

  /** The `pending_size` that `attrquerybyhdl` reports for a FIONREAD
      result: a failed (negative) result reports 0, a sane count itself. */
  function PendingSize(fionread: int): (r: U64)
    ensures r <= MAX_SANE_SIZE
    ensures fionread < 0 ==> r == 0
    ensures 0 <= fionread <= MAX_SANE_SIZE ==> r == fionread
    ensures fionread > MAX_SANE_SIZE ==> r == 0
  {
    // the host returns a C `int`, so the last guard never fails in practice
    if 0 <= fionread < U64_BOUND then SanitizeSize(fionread) else 0
  }

  // ---------------------------------------------------------------------
  // Addresses

  /** `sizeof(sa_family_t)`, `sizeof(struct sockaddr_in)` and
      `sizeof(struct sockaddr_in6)` on Linux. */
  const SIZEOF_SA_FAMILY: nat := 2
  const SIZEOF_SOCKADDR_IN: nat := 16
  const SIZEOF_SOCKADDR_IN6: nat := 28

  /** The Linux address family of a PAL domain. */
  function FamilyOf(domain: Domain): int
  {
    match domain
    case IPv4 => AF_INET
    case IPv6 => AF_INET6
  }

  /** The size of the Linux address structure of a PAL domain. */
  function SockaddrSize(domain: Domain): nat
  {
    match domain
    case IPv4 => SIZEOF_SOCKADDR_IN
    case IPv6 => SIZEOF_SOCKADDR_IN6
  }

  /** `verify_ip_addr`: a host-provided address is accepted only if it is
      long enough to hold a family, its family is the domain's, and its
      length is exactly that of the domain's structure; every rejection is
      DENIED. */
  function VerifyIpAddr(domain: Domain, sa: HostSockaddr, addrlen: U64): (st: PalStatus)
    ensures st == Ok <==> sa.family == FamilyOf(domain) && addrlen == SockaddrSize(domain)
    ensures st != Ok ==> st == Fail(Denied)
    ensures addrlen < SIZEOF_SA_FAMILY ==> st == Fail(Denied)
  {
    if addrlen < SIZEOF_SA_FAMILY then Fail(Denied)
    else match domain
      case IPv4 =>
        if sa.family != AF_INET then Fail(Denied)
        else if addrlen != SIZEOF_SOCKADDR_IN then Fail(Denied)
        else Ok
      case IPv6 =>
        if sa.family != AF_INET6 then Fail(Denied)
        else if addrlen != SIZEOF_SOCKADDR_IN6 then Fail(Denied)
        else Ok
  }

  // ---------------------------------------------------------------------
  // Socket creation

  /** What `_DkSocketCreate` derives from its arguments before calling the
      host: the Linux family and type arguments of socket(2) and the two
      operation tables of the new handle. */
  datatype SocketArgs = SocketArgs(family: int, sockType: bv32, handleOps: HandleOps, sockOps: SockOps)

  function CreateArgs(domain: Domain, typ: SocketType, options: StreamOptions): (a: SocketArgs)
    ensures a.family == FamilyOf(domain)
    ensures a.sockType & SOCK_TYPE_MASK == (if typ == Tcp then SOCK_STREAM else SOCK_DGRAM)
    ensures a.sockType & SOCK_CLOEXEC != 0
    ensures a.sockType & SOCK_NONBLOCK != 0 <==> IsNonblock(options)
    ensures a.sockType & !(SOCK_TYPE_MASK | SOCK_NONBLOCK | SOCK_CLOEXEC) == 0
    ensures a.sockOps == (if typ == Tcp then TcpSockOps else UdpSockOps)
    ensures a.handleOps == HandleOpsOf(a.sockOps)
  {
    var family := match domain case IPv4 => AF_INET case IPv6 => AF_INET6;
    var base: bv32 := match typ case Tcp => SOCK_STREAM case Udp => SOCK_DGRAM;
    var hops := match typ case Tcp => TcpHandleOps case Udp => UdpHandleOps;
    var sops := match typ case Tcp => TcpSockOps case Udp => UdpSockOps;
    var t := if IsNonblock(options) then base | SOCK_NONBLOCK else base;
    SocketArgs(family, t | SOCK_CLOEXEC, hops, sops)
  }

  /** The `flags` argument `tcp_accept` passes to accept4(2). */
  function AcceptFlags(options: StreamOptions): (flags: bv32)
    ensures flags & SOCK_CLOEXEC != 0
    ensures flags & SOCK_NONBLOCK != 0 <==> IsNonblock(options)
    ensures flags & !(SOCK_NONBLOCK | SOCK_CLOEXEC) == 0
  {
    (if IsNonblock(options) then SOCK_NONBLOCK else 0) | SOCK_CLOEXEC
  }

  // ---------------------------------------------------------------------
  // Timeouts

  /** `TIME_US_IN_S`. */
  const US_PER_S: nat := 1_000_000

  datatype Timeval = Timeval(sec: nat, usec: nat)

  /** The `struct timeval` the attribute setter builds from a timeout in
      microseconds: it denotes exactly that many microseconds, with the
      microsecond part normalised below one second. */
  function UsToTimeval(us: U64): (tv: Timeval)
    ensures tv.sec * US_PER_S + tv.usec == us
    ensures tv.usec < US_PER_S
  {
    Timeval(us / US_PER_S, us % US_PER_S)
  }

  // ---------------------------------------------------------------------
  // Shutdown

  /** The `how` argument `delete_tcp` passes to shutdown(2), or INVAL for a
      mode it does not know. */
  function ShutdownHow(mode: DeleteMode): (r: PalResult<int>)
    ensures r.Success? <==> !mode.DeleteUnknown?
    ensures r.Failure? ==> r.err == Inval
    ensures r == Success(SHUT_RDWR) <==> mode == DeleteAll
    ensures r == Success(SHUT_RD) <==> mode == DeleteRead
    ensures r == Success(SHUT_WR) <==> mode == DeleteWrite
  {
    match mode
    case DeleteAll => Success(SHUT_RDWR)
    case DeleteRead => Success(SHUT_RD)
    case DeleteWrite => Success(SHUT_WR)
    case DeleteUnknown(_) => Failure(Inval)
  }

  // ---------------------------------------------------------------------
  // Serialisation of the operation table

  /** The bytes `deserialize_socket_handle` understands. */
  predicate IsSerializedOps(data: seq<char>)
  {
    |data| >= 1 && (data[0] == 'a' || data[0] == 'b')
  }

  /** `deserialize_socket_handle`: the first byte selects the socket-ops
      table and, with it, the handle-ops table. Any other byte is a `BUG()`. */
  function DeserializeOps(data: seq<char>): (r: (SockOps, HandleOps))
    requires IsSerializedOps(data)
    ensures r.1 == HandleOpsOf(r.0)
  {
    if data[0] == 'a' then (TcpSockOps, TcpHandleOps) else (UdpSockOps, UdpHandleOps)
  }

  /** `serialize_socket_handle`: one byte naming the socket-ops table, which
      deserialising turns back into the same tables. */
  function SerializeOps(ops: SockOps): (data: seq<char>)
    ensures |data| == 1
    ensures IsSerializedOps(data) && DeserializeOps(data) == (ops, HandleOpsOf(ops))
  {
    match ops
    case TcpSockOps => "a"
    case UdpSockOps => "b"
  }

  /** Serialising distinguishes the tables: TCP is "a", UDP is "b". */
  lemma SerializeOpsInjective(o1: SockOps, o2: SockOps)
    ensures SerializeOps(o1) == SerializeOps(o2) <==> o1 == o2
    ensures SerializeOps(TcpSockOps) == "a" && SerializeOps(UdpSockOps) == "b"
  {
    if SerializeOps(o1) == SerializeOps(o2) {
      assert DeserializeOps(SerializeOps(o1)).0 == o1;
    }
  }

  // ---------------------------------------------------------------------
  // The host interface

  /** The socket options the attribute setter issues, each with its level:
      `SOL_SOCKET` for the first seven, `IPPROTO_IPV6` for `IPV6_V6ONLY`,
      `SOL_TCP` for the last two. */
  datatype SockOpt =
    | SoLinger | SoRcvBuf | SoSndBuf | SoRcvTimeo | SoSndTimeo | SoKeepAlive | SoReuseAddr
    | Ipv6V6Only | TcpCork | TcpNoDelay

  /** The value passed to setsockopt(2). */
  datatype OptVal =
    | IntVal(v: int)
    | LingerVal(onoff: int, seconds: int)
    | TimevalVal(tv: Timeval)

  /** One host call (`ocall_*`) with its arguments. Host addresses are given
      as the PAL address `pal_to_linux_sockaddr` converts. */
  datatype Ocall =
    | OcallSocket(family: int, sockType: bv32, protocol: int)
    | OcallClose(fd: int)
    | OcallBind(fd: int, addr: SocketAddr)
    | OcallListen(fd: int, backlog: nat)
    | OcallAccept(fd: int, flags: bv32)
    | OcallConnect(fd: int, addr: SocketAddr)
    | OcallFionread(fd: int)
    | OcallSetNonblock(fd: int, nonblocking: bool)
    | OcallSetSockOpt(fd: int, opt: SockOpt, val: OptVal)
    | OcallSend(fd: int, iov: seq<IoVec>, dest: Option<SocketAddr>)
    | OcallRecv(fd: int, iov: seq<IoVec>, wantAddr: bool)
    | OcallShutdown(fd: int, how: int)

  /** What the host hands back: the return value, and for the calls that
      have out-parameters the port assigned by bind, the address it filled in
      and that address's length. */
  datatype Reply = Reply(ret: int, port: U16, sa: HostSockaddr, salen: U64)

  /** The untrusted host. Its answers are an oracle fixed at construction:
      the `k`-th call `c` ever made gets `answer(k, c)`, so every sequence of
      successes and failures is a possible host. `calls` records what the
      enclave asked for. */
  class Host {
    var calls: seq<Ocall>
    const answer: (nat, Ocall) -> Reply

    constructor (answer: (nat, Ocall) -> Reply)
      ensures this.answer == answer && calls == []
    {
      this.answer := answer;
      calls := [];
    }

    /** Issue one host call. */
    method Call(c: Ocall) returns (r: Reply)
      modifies this
      ensures calls == old(calls) + [c]
      ensures r == answer(|old(calls)|, c)
    {
      r := answer(|calls|, c);
      calls := calls + [c];
    }
  }
}
