/** The SGX PAL socket handle and the operations of its two operation tables
    (`g_tcp_sock_ops`/`g_tcp_handle_ops` and `g_udp_sock_ops`/
    `g_udp_handle_ops`). Every host call goes through a `Host`; what the host
    answers is arbitrary, so each operation is proved for every possible
    host behaviour. */
module SgxHandle {
  import opened PalTypes
  import opened LinuxTypes
  import opened SgxSockets
  import opened SgxAttrSet

  /** The process-wide defaults `create_sock_handle` copies into a new
      handle. They start at 0, and the code that would update them is
      commented out, so they stay 0. */
  const DEFAULT_RECV_BUF_SIZE: U64 := 0
  const DEFAULT_SEND_BUF_SIZE: U64 := 0

  /** `PAL_HANDLE` of type `PAL_TYPE_SOCKET`: the header's operation table
      and flags, the host descriptor, the domain, the socket operation table
      and the cached socket options. */
  class PalSocket {
    var hdrOps: HandleOps
    const fdReadable: bool
    const fdWritable: bool
    const fd: int
    const domain: Domain
    var ops: SockOps
    var isNonblocking: bool
    var linger: U64
    var recvBufSize: U64
    var sendBufSize: U64
    var recvTimeoutUs: U64
    var sendTimeoutUs: U64
    var keepalive: bool
    var reuseaddr: bool
    var ipv6V6only: bool
    var tcpCork: bool
    var tcpNodelay: bool

    /** The two operation tables belong together. */
    ghost predicate Valid()
      reads this
    {
      hdrOps == HandleOpsOf(ops)
    }

    /** The cached option values. */
    function Cache(): SockCache
      reads this
    {
      SockCache(isNonblocking, linger, recvBufSize, sendBufSize, recvTimeoutUs, sendTimeoutUs,
                keepalive, reuseaddr, ipv6V6only, tcpCork, tcpNodelay)
    }

    /** The initialisation part of `create_sock_handle`. */
    constructor (fd: int, domain: Domain, hdrOps: HandleOps, ops: SockOps, nonblocking: bool)
      ensures this.fd == fd && this.domain == domain
      ensures this.hdrOps == hdrOps && this.ops == ops
      ensures fdReadable && fdWritable
      ensures Cache() == FreshCache(nonblocking, DEFAULT_RECV_BUF_SIZE, DEFAULT_SEND_BUF_SIZE)
    {
      this.hdrOps := hdrOps;
      fdReadable, fdWritable := true, true;
      this.fd := fd;
      this.domain := domain;
      this.ops := ops;
      recvBufSize := DEFAULT_RECV_BUF_SIZE;
      sendBufSize := DEFAULT_SEND_BUF_SIZE;
      linger, recvTimeoutUs, sendTimeoutUs := 0, 0, 0;
      isNonblocking := nonblocking;
      reuseaddr, keepalive, tcpCork, tcpNodelay, ipv6V6only := false, false, false, false, false;
    }

    // -------------------------------------------------------------------
    // Handle operations

    /** `close`: close the host descriptor; a host failure is ignored. */
    method Close(host: Host) returns (st: PalStatus)
      modifies host
      ensures st == Ok
      ensures host.calls == old(host.calls) + [OcallClose(fd)]
    {
      var r := host.Call(OcallClose(fd));
      st := Ok;
    }

    /** `attrquerybyhdl`: the cached options, the blocking mode and the
      sanitised FIONREAD count. It always succeeds. */
    method AttrQuery(host: Host) returns (st: PalStatus, attr: StreamAttr)
      modifies host
      ensures st == Ok
      ensures host.calls == old(host.calls) + [OcallFionread(fd)]
      ensures attr == AttrOf(Cache(), PendingSize(host.answer(|old(host.calls)|, OcallFionread(fd)).ret))
    {
      var r := host.Call(OcallFionread(fd));
      var pending := if r.ret >= 0 then PendingSize(r.ret) else 0;
      attr := AttrOf(Cache(), pending);
      st := Ok;
    }

    /** Where an option block of the attribute setters starts: the walk so far
      has succeeded, the handle holds its cache and the host has seen `prefix`
      followed by its calls. */
    ghost predicate AtStep(host: Host, prefix: seq<Ocall>, run: SetRun)
      reads this, host
    {
      run.status.Ok? && run.cache == Cache() && host.calls == prefix + run.issued
    }

    /** Where an option block for `f` ends: exactly one `Step` further, with
      status `st`. */
    ghost predicate Stepped(f: Field, a: StreamAttr, host: Host, prefix: seq<Ocall>, run: SetRun, st: PalStatus)
      reads this, host
    {
      var s := Step(fd, a, f, run, host.answer, |prefix|);
      Cache() == s.cache && host.calls == prefix + s.issued && st == s.status
    }

    /** The `is_nonblocking` block: if the cached value differs from the request,
      issue its host call and commit the requested value only if the call
      succeeded. */
    method UpdateNonblocking(a: StreamAttr, host: Host, ghost prefix: seq<Ocall>, ghost run: SetRun)
      returns (st: PalStatus)
      requires AtStep(host, prefix, run)
      modifies this, host
      ensures Stepped(FNonblocking, a, host, prefix, run, st)
      ensures ops == old(ops) && hdrOps == old(hdrOps)
    {
      st := Ok;
      if a.nonblocking != isNonblocking {
        var r := host.Call(OcallSetNonblock(fd, a.nonblocking));
        if r.ret < 0 {
          return Fail(Unix(r.ret));
        }
        isNonblocking := a.nonblocking;
      }
    }

    /** The `linger` block: if the cached value differs from the request,
      issue its host call and commit the requested value only if the call
      succeeded. */
    method UpdateLinger(a: StreamAttr, host: Host, ghost prefix: seq<Ocall>, ghost run: SetRun)
      returns (st: PalStatus)
      requires AtStep(host, prefix, run)
      modifies this, host
      ensures Stepped(FLinger, a, host, prefix, run, st)
      ensures ops == old(ops) && hdrOps == old(hdrOps)
    {
      st := Ok;
      if a.socket.linger != linger {
        if a.socket.linger > INT_MAX {
          return Fail(Inval);
        }
        var onoff := if a.socket.linger != 0 then 1 else 0;
        var r := host.Call(OcallSetSockOpt(fd, SoLinger, LingerVal(onoff, a.socket.linger)));
        if r.ret < 0 {
          return Fail(Unix(r.ret));
        }
        linger := a.socket.linger;
      }
    }

    /** The `recv_buf_size` block: if the cached value differs from the request,
      issue its host call and commit the requested value only if the call
      succeeded. */
    method UpdateRecvBufSize(a: StreamAttr, host: Host, ghost prefix: seq<Ocall>, ghost run: SetRun)
      returns (st: PalStatus)
      requires AtStep(host, prefix, run)
      modifies this, host
      ensures Stepped(FRecvBuf, a, host, prefix, run, st)
      ensures ops == old(ops) && hdrOps == old(hdrOps)
    {
      st := Ok;
      if a.socket.recvBufSize != recvBufSize {
        if a.socket.recvBufSize > INT_MAX {
          return Fail(Inval);
        }
        var r := host.Call(OcallSetSockOpt(fd, SoRcvBuf, IntVal(a.socket.recvBufSize)));
        if r.ret < 0 {
          return Fail(Unix(r.ret));
        }
        recvBufSize := a.socket.recvBufSize;
      }
    }

    /** The `send_buf_size` block: if the cached value differs from the request,
      issue its host call and commit the requested value only if the call
      succeeded. */
    method UpdateSendBufSize(a: StreamAttr, host: Host, ghost prefix: seq<Ocall>, ghost run: SetRun)
      returns (st: PalStatus)
      requires AtStep(host, prefix, run)
      modifies this, host
      ensures Stepped(FSendBuf, a, host, prefix, run, st)
      ensures ops == old(ops) && hdrOps == old(hdrOps)
    {
      st := Ok;
      if a.socket.sendBufSize != sendBufSize {
        if a.socket.sendBufSize > INT_MAX {
          return Fail(Inval);
        }
        var r := host.Call(OcallSetSockOpt(fd, SoSndBuf, IntVal(a.socket.sendBufSize)));
        if r.ret < 0 {
          return Fail(Unix(r.ret));
        }
        sendBufSize := a.socket.sendBufSize;
      }
    }

    /** The `recvtimeout_us` block: if the cached value differs from the request,
      issue its host call and commit the requested value only if the call
      succeeded. */
    method UpdateRecvTimeout(a: StreamAttr, host: Host, ghost prefix: seq<Ocall>, ghost run: SetRun)
      returns (st: PalStatus)
      requires AtStep(host, prefix, run)
      modifies this, host
      ensures Stepped(FRecvTimeout, a, host, prefix, run, st)
      ensures ops == old(ops) && hdrOps == old(hdrOps)
    {
      st := Ok;
      if a.socket.receiveTimeoutUs != recvTimeoutUs {
        var us := a.socket.receiveTimeoutUs;
        var r := host.Call(OcallSetSockOpt(fd, SoRcvTimeo, TimevalVal(UsToTimeval(us))));
        if r.ret < 0 {
          return Fail(Unix(r.ret));
        }
        recvTimeoutUs := us;
      }
    }

    /** The `sendtimeout_us` block: if the cached value differs from the request,
      issue its host call and commit the requested value only if the call
      succeeded. */
    method UpdateSendTimeout(a: StreamAttr, host: Host, ghost prefix: seq<Ocall>, ghost run: SetRun)
      returns (st: PalStatus)
      requires AtStep(host, prefix, run)
      modifies this, host
      ensures Stepped(FSendTimeout, a, host, prefix, run, st)
      ensures ops == old(ops) && hdrOps == old(hdrOps)
    {
      st := Ok;
      if a.socket.sendTimeoutUs != sendTimeoutUs {
        var us := a.socket.sendTimeoutUs;
        var r := host.Call(OcallSetSockOpt(fd, SoSndTimeo, TimevalVal(UsToTimeval(us))));
        if r.ret < 0 {
          return Fail(Unix(r.ret));
        }
        sendTimeoutUs := us;
      }
    }

    /** The `keepalive` block: if the cached value differs from the request,
      issue its host call and commit the requested value only if the call
      succeeded. */
    method UpdateKeepalive(a: StreamAttr, host: Host, ghost prefix: seq<Ocall>, ghost run: SetRun)
      returns (st: PalStatus)
      requires AtStep(host, prefix, run)
      modifies this, host
      ensures Stepped(FKeepalive, a, host, prefix, run, st)
      ensures ops == old(ops) && hdrOps == old(hdrOps)
    {
      st := Ok;
      if a.socket.keepalive != keepalive {
        var r := host.Call(OcallSetSockOpt(fd, SoKeepAlive, IntVal(if a.socket.keepalive then 1 else 0)));
        if r.ret < 0 {
          return Fail(Unix(r.ret));
        }
        keepalive := a.socket.keepalive;
      }
    }

    /** The `reuseaddr` block: if the cached value differs from the request,
      issue its host call and commit the requested value only if the call
      succeeded. */
    method UpdateReuseaddr(a: StreamAttr, host: Host, ghost prefix: seq<Ocall>, ghost run: SetRun)
      returns (st: PalStatus)
      requires AtStep(host, prefix, run)
      modifies this, host
      ensures Stepped(FReuseaddr, a, host, prefix, run, st)
      ensures ops == old(ops) && hdrOps == old(hdrOps)
    {
      st := Ok;
      if a.socket.reuseaddr != reuseaddr {
        var r := host.Call(OcallSetSockOpt(fd, SoReuseAddr, IntVal(if a.socket.reuseaddr then 1 else 0)));
        if r.ret < 0 {
          return Fail(Unix(r.ret));
        }
        reuseaddr := a.socket.reuseaddr;
      }
    }

    /** The `ipv6_v6only` block: if the cached value differs from the request,
      issue its host call and commit the requested value only if the call
      succeeded. */
    method UpdateV6only(a: StreamAttr, host: Host, ghost prefix: seq<Ocall>, ghost run: SetRun)
      returns (st: PalStatus)
      requires AtStep(host, prefix, run)
      modifies this, host
      ensures Stepped(FV6only, a, host, prefix, run, st)
      ensures ops == old(ops) && hdrOps == old(hdrOps)
    {
      st := Ok;
      if a.socket.ipv6V6only != ipv6V6only {
        var r := host.Call(OcallSetSockOpt(fd, Ipv6V6Only, IntVal(if a.socket.ipv6V6only then 1 else 0)));
        if r.ret < 0 {
          return Fail(Unix(r.ret));
        }
        ipv6V6only := a.socket.ipv6V6only;
      }
    }

    /** The `tcp_cork` block: if the cached value differs from the request,
      issue its host call and commit the requested value only if the call
      succeeded. */
    method UpdateTcpCork(a: StreamAttr, host: Host, ghost prefix: seq<Ocall>, ghost run: SetRun)
      returns (st: PalStatus)
      requires AtStep(host, prefix, run)
      modifies this, host
      ensures Stepped(FCork, a, host, prefix, run, st)
      ensures ops == old(ops) && hdrOps == old(hdrOps)
    {
      st := Ok;
      if a.socket.tcpCork != tcpCork {
        var r := host.Call(OcallSetSockOpt(fd, TcpCork, IntVal(if a.socket.tcpCork then 1 else 0)));
        if r.ret < 0 {
          return Fail(Unix(r.ret));
        }
        tcpCork := a.socket.tcpCork;
      }
    }

    /** The `tcp_nodelay` block: if the cached value differs from the request,
      issue its host call and commit the requested value only if the call
      succeeded. */
    method UpdateTcpNodelay(a: StreamAttr, host: Host, ghost prefix: seq<Ocall>, ghost run: SetRun)
      returns (st: PalStatus)
      requires AtStep(host, prefix, run)
      modifies this, host
      ensures Stepped(FNodelay, a, host, prefix, run, st)
      ensures ops == old(ops) && hdrOps == old(hdrOps)
    {
      st := Ok;
      if a.socket.tcpNodelay != tcpNodelay {
        var r := host.Call(OcallSetSockOpt(fd, TcpNoDelay, IntVal(if a.socket.tcpNodelay then 1 else 0)));
        if r.ret < 0 {
          return Fail(Unix(r.ret));
        }
        tcpNodelay := a.socket.tcpNodelay;
      }
    }

    /** The walk over `fields[k..]` is the step for `fields[k]` and, unless
      that step failed, the walk over `fields[k + 1..]`. */
    static lemma Advance(fd: int, a: StreamAttr, fields: seq<Field>, k: nat, run: SetRun,
                         answer: (nat, Ocall) -> Reply, base: nat)
      requires k < |fields| && run.status.Ok?
      ensures var s := Step(fd, a, fields[k], run, answer, base);
        Run(fd, a, fields[k..], run, answer, base)
          == if s.status.Fail? then s else Run(fd, a, fields[k + 1..], s, answer, base)
    {
      assert fields[k..][1..] == fields[k + 1..];
    }

    /** `attrsetbyhdl_common`: a non-socket record is INVAL before anything
      is touched; otherwise the option blocks in the source's order, each
      updating one cached option that differs from the request, stopping at
      the first failure. The result is exactly the walk `SetCommon`. */
    method AttrSetCommon(a: StreamAttr, host: Host) returns (st: PalStatus)
      modifies this, host
      ensures var r := SetCommon(fd, old(Cache()), a, host.answer, |old(host.calls)|);
        Cache() == r.cache && host.calls == old(host.calls) + r.issued && st == r.status
      ensures ops == old(ops) && hdrOps == old(hdrOps)
    {
      if a.handleType != PalTypeSocket {
        return Fail(Inval);
      }
      ghost var prefix := host.calls;
      ghost var run := SetRun(Cache(), [], Ok);

      st := UpdateNonblocking(a, host, prefix, run);
      Advance(fd, a, CommonFields, 0, run, host.answer, |prefix|);
      run := Step(fd, a, FNonblocking, run, host.answer, |prefix|);
      if st.Fail? { return; }

      st := UpdateLinger(a, host, prefix, run);
      Advance(fd, a, CommonFields, 1, run, host.answer, |prefix|);
      run := Step(fd, a, FLinger, run, host.answer, |prefix|);
      if st.Fail? { return; }

      st := UpdateRecvBufSize(a, host, prefix, run);
      Advance(fd, a, CommonFields, 2, run, host.answer, |prefix|);
      run := Step(fd, a, FRecvBuf, run, host.answer, |prefix|);
      if st.Fail? { return; }

      st := UpdateSendBufSize(a, host, prefix, run);
      Advance(fd, a, CommonFields, 3, run, host.answer, |prefix|);
      run := Step(fd, a, FSendBuf, run, host.answer, |prefix|);
      if st.Fail? { return; }

      st := UpdateRecvTimeout(a, host, prefix, run);
      Advance(fd, a, CommonFields, 4, run, host.answer, |prefix|);
      run := Step(fd, a, FRecvTimeout, run, host.answer, |prefix|);
      if st.Fail? { return; }

      st := UpdateSendTimeout(a, host, prefix, run);
      Advance(fd, a, CommonFields, 5, run, host.answer, |prefix|);
      run := Step(fd, a, FSendTimeout, run, host.answer, |prefix|);
      if st.Fail? { return; }

      st := UpdateKeepalive(a, host, prefix, run);
      Advance(fd, a, CommonFields, 6, run, host.answer, |prefix|);
      run := Step(fd, a, FKeepalive, run, host.answer, |prefix|);
      if st.Fail? { return; }

      st := UpdateReuseaddr(a, host, prefix, run);
      Advance(fd, a, CommonFields, 7, run, host.answer, |prefix|);
      run := Step(fd, a, FReuseaddr, run, host.answer, |prefix|);
      if st.Fail? { return; }

      st := UpdateV6only(a, host, prefix, run);
      Advance(fd, a, CommonFields, 8, run, host.answer, |prefix|);
      run := Step(fd, a, FV6only, run, host.answer, |prefix|);
    }

    /** `attrsetbyhdl_tcp`: the common options, then, if they all succeeded,
      the `tcp_cork` and `tcp_nodelay` blocks. The result is exactly the walk
      `SetTcp`. */
    method AttrSetTcp(a: StreamAttr, host: Host) returns (st: PalStatus)
      modifies this, host
      ensures var r := SetTcp(fd, old(Cache()), a, host.answer, |old(host.calls)|);
        Cache() == r.cache && host.calls == old(host.calls) + r.issued && st == r.status
      ensures ops == old(ops) && hdrOps == old(hdrOps)
    {
      ghost var prefix := host.calls;
      ghost var c0 := Cache();
      st := AttrSetCommon(a, host);
      if st.Fail? {
        return;
      }
      ghost var common := SetCommon(fd, c0, a, host.answer, |prefix|);
      ghost var run := common;

      st := UpdateTcpCork(a, host, prefix, run);
      Advance(fd, a, TcpFields, 0, run, host.answer, |prefix|);
      run := Step(fd, a, FCork, run, host.answer, |prefix|);
      if st.Fail? { return; }

      st := UpdateTcpNodelay(a, host, prefix, run);
      Advance(fd, a, TcpFields, 1, run, host.answer, |prefix|);
      run := Step(fd, a, FNodelay, run, host.answer, |prefix|);
    }

    /** `attrsetbyhdl_udp`: the common options only. */
    method AttrSetUdp(a: StreamAttr, host: Host) returns (st: PalStatus)
      modifies this, host
      ensures var r := SetUdp(fd, old(Cache()), a, host.answer, |old(host.calls)|);
        Cache() == r.cache && host.calls == old(host.calls) + r.issued && st == r.status
      ensures ops == old(ops) && hdrOps == old(hdrOps)
    {
      st := AttrSetCommon(a, host);
    }

    /** The `attrsetbyhdl` entry of the handle's operation table. */
    method AttrSet(a: StreamAttr, host: Host) returns (st: PalStatus)
      modifies this, host
      ensures var c := old(Cache());
              var base := |old(host.calls)|;
              var r := if hdrOps == TcpHandleOps then SetTcp(fd, c, a, host.answer, base)
                       else SetUdp(fd, c, a, host.answer, base);
        Cache() == r.cache && host.calls == old(host.calls) + r.issued && st == r.status
      ensures ops == old(ops) && hdrOps == old(hdrOps)
    {
      match hdrOps
      case TcpHandleOps => st := AttrSetTcp(a, host);
      case UdpHandleOps => st := AttrSetUdp(a, host);
    }

    /** `delete_tcp`: shut down the requested direction; an unknown mode is
      INVAL without a host call. */
    method DeleteTcp(mode: DeleteMode, host: Host) returns (st: PalStatus)
      modifies host
      ensures mode.DeleteUnknown? ==> st == Fail(Inval) && host.calls == old(host.calls)
      ensures !mode.DeleteUnknown? ==>
        var c := OcallShutdown(fd, ShutdownHow(mode).value);
        host.calls == old(host.calls) + [c] && st == UnixToPal(host.answer(|old(host.calls)|, c).ret)
    {
      var how := ShutdownHow(mode);
      if how.Failure? {
        return Fail(Inval);
      }
      var r := host.Call(OcallShutdown(fd, how.value));
      st := UnixToPal(r.ret);
    }

    /** `delete_udp` does nothing and succeeds. */
    method DeleteUdp(mode: DeleteMode, host: Host) returns (st: PalStatus)
      ensures st == Ok
    {
      st := Ok;
    }

    /** The `delete` entry of the handle's operation table. */
    method Delete(mode: DeleteMode, host: Host) returns (st: PalStatus)
      modifies host
      ensures hdrOps == UdpHandleOps ==> st == Ok && host.calls == old(host.calls)
      ensures hdrOps == TcpHandleOps && mode.DeleteUnknown? ==>
        st == Fail(Inval) && host.calls == old(host.calls)
      ensures hdrOps == TcpHandleOps && !mode.DeleteUnknown? ==>
        var c := OcallShutdown(fd, ShutdownHow(mode).value);
        host.calls == old(host.calls) + [c] && st == UnixToPal(host.answer(|old(host.calls)|, c).ret)
    {
      match hdrOps
      case TcpHandleOps => st := DeleteTcp(mode, host);
      case UdpHandleOps => st := DeleteUdp(mode, host);
    }

    // -------------------------------------------------------------------
    // Socket operations

    /** `bind`: an address of another domain is INVAL without a host call;
      a host failure is returned; on success a requested port of 0 is
      replaced by the port the host assigned, any other address is handed
      back unchanged. */
    method Bind(addr: SocketAddr, host: Host) returns (st: PalStatus, bound: SocketAddr)
      modifies host
      ensures !InDomain(addr, domain) ==> st == Fail(Inval) && bound == addr && host.calls == old(host.calls)
      ensures InDomain(addr, domain) ==>
        var r := host.answer(|old(host.calls)|, OcallBind(fd, addr));
        && host.calls == old(host.calls) + [OcallBind(fd, addr)]
        && st == UnixToPal(r.ret)
        && bound == (if r.ret >= 0 && addr.port == 0 then addr.(port := r.port) else addr)
    {
      if !InDomain(addr, domain) {
        return Fail(Inval), addr;
      }
      var r := host.Call(OcallBind(fd, addr));
      if r.ret < 0 {
        return Fail(Unix(r.ret)), addr;
      }
      bound := addr;
      if addr.port == 0 {
        bound := addr.(port := r.port);
      }
      st := Ok;
    }

    /** `tcp_listen`: the host's answer, translated. */
    method TcpListen(backlog: nat, host: Host) returns (st: PalStatus)
      modifies host
      ensures host.calls == old(host.calls) + [OcallListen(fd, backlog)]
      ensures st == UnixToPal(host.answer(|old(host.calls)|, OcallListen(fd, backlog)).ret)
    {
      var r := host.Call(OcallListen(fd, backlog));
      st := UnixToPal(r.ret);
    }

    /** `tcp_accept`: accept a connection into a new handle of the same
      domain and operation tables. A host failure is returned; if the handle
      cannot be allocated the accepted descriptor is closed and the result
      is NOMEM; if the caller wants the peer address and the host's address
      is malformed, the new handle is closed again and the result is
      DENIED. `allocOk` stands for whether the allocation succeeds. */
    method TcpAccept(options: StreamOptions, wantAddr: bool, host: Host, allocOk: bool)
      returns (st: PalStatus, client: PalSocket?, peer: Option<SocketAddr>)
      requires Valid()
      modifies host
      ensures var c := OcallAccept(fd, AcceptFlags(options));
              var r := host.answer(|old(host.calls)|, c);
        && |host.calls| > |old(host.calls)| && host.calls[..|old(host.calls)| + 1] == old(host.calls) + [c]
        && (r.ret < 0 ==> st == Fail(Unix(r.ret)) && host.calls == old(host.calls) + [c])
        && (r.ret >= 0 && !allocOk ==>
              st == Fail(NoMem) && host.calls == old(host.calls) + [c, OcallClose(r.ret)])
        && (r.ret >= 0 && allocOk && wantAddr && VerifyIpAddr(domain, r.sa, r.salen).Fail? ==>
              st == Fail(Denied) && host.calls == old(host.calls) + [c, OcallClose(r.ret)])
        && (st.Ok? <==> r.ret >= 0 && allocOk && (wantAddr ==> VerifyIpAddr(domain, r.sa, r.salen).Ok?))
        && (st.Ok? ==>
              && host.calls == old(host.calls) + [c]
              && client != null && fresh(client) && client.Valid()
              && client.fdReadable && client.fdWritable
              && client.fd == r.ret && client.domain == domain
              && client.ops == ops && client.hdrOps == hdrOps
              && client.Cache() == FreshCache(IsNonblock(options), DEFAULT_RECV_BUF_SIZE, DEFAULT_SEND_BUF_SIZE)
              && peer == (if wantAddr then Some(r.sa.converted) else None))
        && (st.Fail? ==> client == null)
    {
      var flags := AcceptFlags(options);
      var r := host.Call(OcallAccept(fd, flags));
      if r.ret < 0 {
        return Fail(Unix(r.ret)), null, None;
      }
      client := CreateSockHandle(r.ret, domain, hdrOps, ops, IsNonblock(options), allocOk);
      if client == null {
        var _ := host.Call(OcallClose(r.ret));
        return Fail(NoMem), null, None;
      }
      peer := None;
      if wantAddr {
        var v := VerifyIpAddr(client.domain, r.sa, r.salen);
        if v.Fail? {
          var _ := client.Close(host);
          return v, null, None;
        }
        peer := Some(r.sa.converted);
      }
      st := Ok;
    }

    /** `connect`: an address of another domain, other than the disconnect
      address, is INVAL without a host call; a host failure is returned; if
      the caller wants the local address it must be well formed, or the
      result is DENIED. */
    method Connect(addr: SocketAddr, wantLocal: bool, host: Host)
      returns (st: PalStatus, local: Option<SocketAddr>)
      modifies host
      ensures !(addr.DisconnectAddr? || InDomain(addr, domain)) ==>
        st == Fail(Inval) && local == None && host.calls == old(host.calls)
      ensures addr.DisconnectAddr? || InDomain(addr, domain) ==>
        var r := host.answer(|old(host.calls)|, OcallConnect(fd, addr));
        && host.calls == old(host.calls) + [OcallConnect(fd, addr)]
        && st == (if r.ret < 0 then Fail(Unix(r.ret))
                  else if wantLocal then VerifyIpAddr(domain, r.sa, r.salen)
                  else Ok)
        && local == (if st.Ok? && wantLocal then Some(r.sa.converted) else None)
    {
      if !addr.DisconnectAddr? && !InDomain(addr, domain) {
        return Fail(Inval), None;
      }
      var r := host.Call(OcallConnect(fd, addr));
      if r.ret < 0 {
        return Fail(Unix(r.ret)), None;
      }
      local := None;
      if wantLocal {
        var v := VerifyIpAddr(domain, r.sa, r.salen);
        if v.Fail? {
          return v, None;
        }
        local := Some(r.sa.converted);
      }
      st := Ok;
    }

    /** `send`: a destination of another domain is INVAL without a host
      call; otherwise the host's byte count, or its error. */
    method Send(iov: seq<IoVec>, dest: Option<SocketAddr>, host: Host) returns (st: PalStatus, size: nat)
      modifies host
      ensures dest.Some? && !InDomain(dest.value, domain) ==>
        st == Fail(Inval) && size == 0 && host.calls == old(host.calls)
      ensures !(dest.Some? && !InDomain(dest.value, domain)) ==>
        var r := host.answer(|old(host.calls)|, OcallSend(fd, iov, dest));
        && host.calls == old(host.calls) + [OcallSend(fd, iov, dest)]
        && st == UnixToPal(r.ret)
        && (st.Ok? ==> size == r.ret)
    {
      size := 0;
      if dest.Some? && !InDomain(dest.value, domain) {
        return Fail(Inval), 0;
      }
      var r := host.Call(OcallSend(fd, iov, dest));
      if r.ret < 0 {
        return Fail(Unix(r.ret)), 0;
      }
      size := r.ret;
      st := Ok;
    }

    /** `recv`: the host's byte count, or its error; if the caller wants the
      source address it must be well formed for the handle's domain, or the
      result is DENIED. */
    method Recv(iov: seq<IoVec>, wantAddr: bool, host: Host)
      returns (st: PalStatus, size: nat, source: Option<SocketAddr>)
      modifies host
      ensures var r := host.answer(|old(host.calls)|, OcallRecv(fd, iov, wantAddr));
        && host.calls == old(host.calls) + [OcallRecv(fd, iov, wantAddr)]
        && st == (if r.ret < 0 then Fail(Unix(r.ret))
                  else if wantAddr then VerifyIpAddr(domain, r.sa, r.salen)
                  else Ok)
        && (st.Ok? ==> size == r.ret && source == (if wantAddr then Some(r.sa.converted) else None))
    {
      size, source := 0, None;
      var r := host.Call(OcallRecv(fd, iov, wantAddr));
      if r.ret < 0 {
        return Fail(Unix(r.ret)), 0, None;
      }
      var n: nat := r.ret;
      if wantAddr {
        var v := VerifyIpAddr(domain, r.sa, r.salen);
        if v.Fail? {
          return v, 0, None;
        }
        source := Some(r.sa.converted);
      }
      size := n;
      st := Ok;
    }

    // -------------------------------------------------------------------
    // Dispatch through the socket-ops table

    /** `_DkSocketBind`. */
    method DkSocketBind(addr: SocketAddr, host: Host) returns (st: PalStatus, bound: SocketAddr)
      modifies host
      ensures !InDomain(addr, domain) ==> st == Fail(Inval) && bound == addr && host.calls == old(host.calls)
      ensures InDomain(addr, domain) ==>
        var r := host.answer(|old(host.calls)|, OcallBind(fd, addr));
        && host.calls == old(host.calls) + [OcallBind(fd, addr)]
        && st == UnixToPal(r.ret)
        && bound == (if r.ret >= 0 && addr.port == 0 then addr.(port := r.port) else addr)
    {
      if !Provides(ops, OpBind) {
        return Fail(Inval), addr;
      }
      st, bound := Bind(addr, host);
    }

    /** `_DkSocketListen`: INVAL without a host call on a UDP socket. */
    method DkSocketListen(backlog: nat, host: Host) returns (st: PalStatus)
      modifies host
      ensures ops == UdpSockOps ==> st == Fail(Inval) && host.calls == old(host.calls)
      ensures ops == TcpSockOps ==>
        host.calls == old(host.calls) + [OcallListen(fd, backlog)]
        && st == UnixToPal(host.answer(|old(host.calls)|, OcallListen(fd, backlog)).ret)
    {
      if !Provides(ops, OpListen) {
        return Fail(Inval);
      }
      st := TcpListen(backlog, host);
    }

    /** `_DkSocketAccept`: INVAL without a host call on a UDP socket. */
    method DkSocketAccept(options: StreamOptions, wantAddr: bool, host: Host, allocOk: bool)
      returns (st: PalStatus, client: PalSocket?, peer: Option<SocketAddr>)
      requires Valid()
      modifies host
      ensures ops == UdpSockOps ==> st == Fail(Inval) && client == null && host.calls == old(host.calls)
      ensures ops == TcpSockOps ==>
        var c := OcallAccept(fd, AcceptFlags(options));
        var r := host.answer(|old(host.calls)|, c);
        && |host.calls| > |old(host.calls)| && host.calls[..|old(host.calls)| + 1] == old(host.calls) + [c]
        && (r.ret < 0 ==> st == Fail(Unix(r.ret)) && host.calls == old(host.calls) + [c])
        && (r.ret >= 0 && !allocOk ==>
              st == Fail(NoMem) && host.calls == old(host.calls) + [c, OcallClose(r.ret)])
        && (r.ret >= 0 && allocOk && wantAddr && VerifyIpAddr(domain, r.sa, r.salen).Fail? ==>
              st == Fail(Denied) && host.calls == old(host.calls) + [c, OcallClose(r.ret)])
        && (st.Ok? <==> r.ret >= 0 && allocOk && (wantAddr ==> VerifyIpAddr(domain, r.sa, r.salen).Ok?))
        && (st.Ok? ==>
              && host.calls == old(host.calls) + [c]
              && client != null && client.fd == r.ret && client.hdrOps == hdrOps
              && client.fdReadable && client.fdWritable
              && client.Cache() == FreshCache(IsNonblock(options), DEFAULT_RECV_BUF_SIZE, DEFAULT_SEND_BUF_SIZE)
              && peer == (if wantAddr then Some(r.sa.converted) else None))
      ensures st.Ok? ==>
        && client != null && fresh(client) && client.Valid()
        && client.domain == domain && client.ops == ops
      ensures st.Fail? ==> client == null
    {
      if !Provides(ops, OpAccept) {
        return Fail(Inval), null, None;
      }
      st, client, peer := TcpAccept(options, wantAddr, host, allocOk);
    }

    /** `_DkSocketConnect`. */
    method DkSocketConnect(addr: SocketAddr, wantLocal: bool, host: Host)
      returns (st: PalStatus, local: Option<SocketAddr>)
      modifies host
      ensures !(addr.DisconnectAddr? || InDomain(addr, domain)) ==>
        st == Fail(Inval) && local == None && host.calls == old(host.calls)
      ensures addr.DisconnectAddr? || InDomain(addr, domain) ==>
        var r := host.answer(|old(host.calls)|, OcallConnect(fd, addr));
        && host.calls == old(host.calls) + [OcallConnect(fd, addr)]
        && st == (if r.ret < 0 then Fail(Unix(r.ret))
                  else if wantLocal then VerifyIpAddr(domain, r.sa, r.salen)
                  else Ok)
        && local == (if st.Ok? && wantLocal then Some(r.sa.converted) else None)
    {
      if !Provides(ops, OpConnect) {
        return Fail(Inval), None;
      }
      st, local := Connect(addr, wantLocal, host);
    }

    /** `_DkSocketSend`. */
    method DkSocketSend(iov: seq<IoVec>, dest: Option<SocketAddr>, host: Host) returns (st: PalStatus, size: nat)
      modifies host
      ensures dest.Some? && !InDomain(dest.value, domain) ==>
        st == Fail(Inval) && host.calls == old(host.calls)
      ensures !(dest.Some? && !InDomain(dest.value, domain)) ==>
        var r := host.answer(|old(host.calls)|, OcallSend(fd, iov, dest));
        host.calls == old(host.calls) + [OcallSend(fd, iov, dest)] && st == UnixToPal(r.ret)
        && (st.Ok? ==> size == r.ret)
    {
      st, size := Fail(Inval), 0;
      if Provides(ops, OpSend) {
        st, size := Send(iov, dest, host);
      }
    }

    /** `_DkSocketRecv`. */
    method DkSocketRecv(iov: seq<IoVec>, wantAddr: bool, host: Host)
      returns (st: PalStatus, size: nat, source: Option<SocketAddr>)
      modifies host
      ensures var r := host.answer(|old(host.calls)|, OcallRecv(fd, iov, wantAddr));
        && host.calls == old(host.calls) + [OcallRecv(fd, iov, wantAddr)]
        && st == (if r.ret < 0 then Fail(Unix(r.ret))
                  else if wantAddr then VerifyIpAddr(domain, r.sa, r.salen)
                  else Ok)
        && (st.Ok? ==> size == r.ret && source == (if wantAddr then Some(r.sa.converted) else None))
    {
      st, size, source := Fail(Inval), 0, None;
      if Provides(ops, OpRecv) {
        st, size, source := Recv(iov, wantAddr, host);
      }
    }

    // -------------------------------------------------------------------
    // Checkpointing

    /** `serialize_socket_handle`: the one byte that names the socket-ops
      table. */
    function Serialize(): (data: seq<char>)
      reads this
      ensures |data| == 1 && IsSerializedOps(data)
      ensures DeserializeOps(data).0 == ops
    {
      SerializeOps(ops)
    }

    /** `deserialize_socket_handle`: restore both operation tables from the
      serialised byte; nothing else changes. */
    method Deserialize(data: seq<char>)
      requires IsSerializedOps(data)
      modifies this
      ensures (ops, hdrOps) == DeserializeOps(data)
      ensures Valid()
      ensures Cache() == old(Cache())
    {
      if data[0] == 'a' {
        ops, hdrOps := TcpSockOps, TcpHandleOps;
      } else {
        ops, hdrOps := UdpSockOps, UdpHandleOps;
      }
    }
  }

  /** `create_sock_handle`: a fresh handle with the default cached options,
    or null when the allocation (`allocOk`) fails. */
  method CreateSockHandle(fd: int, domain: Domain, hdrOps: HandleOps, ops: SockOps,
                          nonblocking: bool, allocOk: bool)
    returns (h: PalSocket?)
    requires hdrOps == HandleOpsOf(ops)
    ensures allocOk <==> h != null
    ensures h != null ==>
      && fresh(h) && h.Valid()
      && h.fd == fd && h.domain == domain && h.hdrOps == hdrOps && h.ops == ops
      && h.fdReadable && h.fdWritable
      && h.Cache() == FreshCache(nonblocking, DEFAULT_RECV_BUF_SIZE, DEFAULT_SEND_BUF_SIZE)
  {
    if !allocOk {
      return null;
    }
    h := new PalSocket(fd, domain, hdrOps, ops, nonblocking);
  }

  /** `_DkSocketCreate`: ask the host for a socket of the PAL domain and
    type; a host failure is returned; if the handle cannot be allocated the
    descriptor is closed again and the result is NOMEM. */
  method DkSocketCreate(domain: Domain, typ: SocketType, options: StreamOptions, host: Host, allocOk: bool)
    returns (st: PalStatus, h: PalSocket?)
    modifies host
    ensures var args := CreateArgs(domain, typ, options);
            var c := OcallSocket(args.family, args.sockType, 0);
            var fd := host.answer(|old(host.calls)|, c).ret;
      && (fd < 0 ==> st == Fail(Unix(fd)) && host.calls == old(host.calls) + [c])
      && (fd >= 0 && !allocOk ==> st == Fail(NoMem) && host.calls == old(host.calls) + [c, OcallClose(fd)])
      && (st.Ok? <==> fd >= 0 && allocOk)
      && (st.Ok? ==>
            && host.calls == old(host.calls) + [c]
            && h != null && fresh(h) && h.Valid()
            && h.fdReadable && h.fdWritable
            && h.fd == fd && h.domain == domain
            && h.ops == args.sockOps && h.hdrOps == args.handleOps
            && h.Cache() == FreshCache(IsNonblock(options), DEFAULT_RECV_BUF_SIZE, DEFAULT_SEND_BUF_SIZE))
      && (st.Fail? ==> h == null)
  {
    var args := CreateArgs(domain, typ, options);
    var r := host.Call(OcallSocket(args.family, args.sockType, 0));
    if r.ret < 0 {
      return Fail(Unix(r.ret)), null;
    }
    h := CreateSockHandle(r.ret, domain, args.handleOps, args.sockOps, IsNonblock(options), allocOk);
    if h == null {
      var _ := host.Call(OcallClose(r.ret));
      return Fail(NoMem), null;
    }
    st := Ok;
  }
}
