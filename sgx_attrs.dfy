/** The reference definition of the SGX socket attribute setter
    (`attrsetbyhdl_common`, `attrsetbyhdl_tcp`, `attrsetbyhdl_udp`) and what
    it promises. The setter walks the cached socket options in a fixed order;
    for each one whose cached value differs from the requested one it issues
    one host call and commits the requested value only if that call
    succeeded. The first failure ends the walk. */
module SgxAttrSet {
  import opened PalTypes
  import opened SgxSockets

  /** The option values a PAL socket handle caches. */
  datatype SockCache = SockCache(
    nonblocking: bool,
    linger: U64,
    recvBufSize: U64,
    sendBufSize: U64,
    recvTimeoutUs: U64,
    sendTimeoutUs: U64,
    keepalive: bool,
    reuseaddr: bool,
    ipv6V6only: bool,
    tcpCork: bool,
    tcpNodelay: bool)

  /** The cached values of a handle `create_sock_handle` has just set up. */
  function FreshCache(nonblocking: bool, recvBufSize: U64, sendBufSize: U64): SockCache
  {
    SockCache(nonblocking, 0, recvBufSize, sendBufSize, 0, 0, false, false, false, false, false)
  }

  /** The cached fields, one name each. */
  datatype Field =
    | FNonblocking | FLinger | FRecvBuf | FSendBuf | FRecvTimeout | FSendTimeout
    | FKeepalive | FReuseaddr | FV6only | FCork | FNodelay

  /** The order in which `attrsetbyhdl_common` visits the fields. */
  const CommonFields: seq<Field> :=
    [FNonblocking, FLinger, FRecvBuf, FSendBuf, FRecvTimeout, FSendTimeout,
     FKeepalive, FReuseaddr, FV6only]

  /** The fields `attrsetbyhdl_tcp` visits after the common ones. */
  const TcpFields: seq<Field> := [FCork, FNodelay]

  datatype FieldVal = Flag(b: bool) | Num(n: U64)

  /** The cached value of one field. */
  function Get(c: SockCache, f: Field): FieldVal
  {
    match f
    case FNonblocking => Flag(c.nonblocking)
    case FLinger => Num(c.linger)
    case FRecvBuf => Num(c.recvBufSize)
    case FSendBuf => Num(c.sendBufSize)
    case FRecvTimeout => Num(c.recvTimeoutUs)
    case FSendTimeout => Num(c.sendTimeoutUs)
    case FKeepalive => Flag(c.keepalive)
    case FReuseaddr => Flag(c.reuseaddr)
    case FV6only => Flag(c.ipv6V6only)
    case FCork => Flag(c.tcpCork)
    case FNodelay => Flag(c.tcpNodelay)
  }

  /** The value a stream attribute requests for one field. */
  function Want(a: StreamAttr, f: Field): FieldVal
  {
    match f
    case FNonblocking => Flag(a.nonblocking)
    case FLinger => Num(a.socket.linger)
    case FRecvBuf => Num(a.socket.recvBufSize)
    case FSendBuf => Num(a.socket.sendBufSize)
    case FRecvTimeout => Num(a.socket.receiveTimeoutUs)
    case FSendTimeout => Num(a.socket.sendTimeoutUs)
    case FKeepalive => Flag(a.socket.keepalive)
    case FReuseaddr => Flag(a.socket.reuseaddr)
    case FV6only => Flag(a.socket.ipv6V6only)
    case FCork => Flag(a.socket.tcpCork)
    case FNodelay => Flag(a.socket.tcpNodelay)
  }

  /** The cache with field `f` set to what `a` requests, all else kept. */
  function Commit(c: SockCache, a: StreamAttr, f: Field): SockCache
  {
    match f
    case FNonblocking => c.(nonblocking := a.nonblocking)
    case FLinger => c.(linger := a.socket.linger)
    case FRecvBuf => c.(recvBufSize := a.socket.recvBufSize)
    case FSendBuf => c.(sendBufSize := a.socket.sendBufSize)
    case FRecvTimeout => c.(recvTimeoutUs := a.socket.receiveTimeoutUs)
    case FSendTimeout => c.(sendTimeoutUs := a.socket.sendTimeoutUs)
    case FKeepalive => c.(keepalive := a.socket.keepalive)
    case FReuseaddr => c.(reuseaddr := a.socket.reuseaddr)
    case FV6only => c.(ipv6V6only := a.socket.ipv6V6only)
    case FCork => c.(tcpCork := a.socket.tcpCork)
    case FNodelay => c.(tcpNodelay := a.socket.tcpNodelay)
  }

  /** Committing field `f` sets it to the requested value and keeps every
      other field. */
  lemma CommitGet(c: SockCache, a: StreamAttr, f: Field, g: Field)
    ensures Get(Commit(c, a, f), g) == if g == f then Want(a, f) else Get(c, g)
  {
  }

  /** Linger and the two buffer sizes go to the host as an `int`; a request
      above `INT_MAX` for them is INVAL. */
  predicate TooLarge(a: StreamAttr, f: Field)
  {
    match f
    case FLinger => a.socket.linger > INT_MAX
    case FRecvBuf => a.socket.recvBufSize > INT_MAX
    case FSendBuf => a.socket.sendBufSize > INT_MAX
    case _ => false
  }

  function BoolInt(b: bool): int
  {
    if b then 1 else 0
  }

  /** The host call that updates field `f` to what `a` requests. */
  function Request(fd: int, a: StreamAttr, f: Field): Ocall
  {
    match f
    case FNonblocking => OcallSetNonblock(fd, a.nonblocking)
    case FLinger =>
      OcallSetSockOpt(fd, SoLinger, LingerVal(if a.socket.linger != 0 then 1 else 0, a.socket.linger))
    case FRecvBuf => OcallSetSockOpt(fd, SoRcvBuf, IntVal(a.socket.recvBufSize))
    case FSendBuf => OcallSetSockOpt(fd, SoSndBuf, IntVal(a.socket.sendBufSize))
    case FRecvTimeout => OcallSetSockOpt(fd, SoRcvTimeo, TimevalVal(UsToTimeval(a.socket.receiveTimeoutUs)))
    case FSendTimeout => OcallSetSockOpt(fd, SoSndTimeo, TimevalVal(UsToTimeval(a.socket.sendTimeoutUs)))
    case FKeepalive => OcallSetSockOpt(fd, SoKeepAlive, IntVal(BoolInt(a.socket.keepalive)))
    case FReuseaddr => OcallSetSockOpt(fd, SoReuseAddr, IntVal(BoolInt(a.socket.reuseaddr)))
    case FV6only => OcallSetSockOpt(fd, Ipv6V6Only, IntVal(BoolInt(a.socket.ipv6V6only)))
    case FCork => OcallSetSockOpt(fd, TcpCork, IntVal(BoolInt(a.socket.tcpCork)))
    case FNodelay => OcallSetSockOpt(fd, TcpNoDelay, IntVal(BoolInt(a.socket.tcpNodelay)))
  }

  /** Each field has its own host call, so the call identifies the field. */
  lemma RequestInjective(fd: int, a: StreamAttr, f: Field, g: Field)
    requires Request(fd, a, f) == Request(fd, a, g)
    ensures f == g
  {
  }

  /** The state of a walk: the cache so far, the host calls issued so far,
      and the status (a walk stops at its first failure). */
  datatype SetRun = SetRun(cache: SockCache, issued: seq<Ocall>, status: PalStatus)

  /** The host's reply to the next call of a walk that started when the
      host had answered `base` calls. */
  function ReplyAt(answer: (nat, Ocall) -> Reply, base: nat, run: SetRun, c: Ocall): Reply
  {
    answer(base + |run.issued|, c)
  }

  /** One field of the walk. */
  function Step(fd: int, a: StreamAttr, f: Field, run: SetRun,
                answer: (nat, Ocall) -> Reply, base: nat): SetRun
  {
    if Get(run.cache, f) == Want(a, f) then run
    else if TooLarge(a, f) then run.(status := Fail(Inval))
    else
      var c := Request(fd, a, f);
      var r := ReplyAt(answer, base, run, c);
      if r.ret < 0 then SetRun(run.cache, run.issued + [c], Fail(Unix(r.ret)))
      else SetRun(Commit(run.cache, a, f), run.issued + [c], Ok)
  }

  /** The walk over a list of fields, stopping at the first failure. */
  function Run(fd: int, a: StreamAttr, fields: seq<Field>, run: SetRun,
               answer: (nat, Ocall) -> Reply, base: nat): SetRun
    decreases |fields|
  {
    if |fields| == 0 || run.status.Fail? then run
    else Run(fd, a, fields[1..], Step(fd, a, fields[0], run, answer, base), answer, base)
  }

  /** `attrsetbyhdl_common`: a non-socket attribute record is INVAL before
      anything is touched; otherwise the walk over the common fields. */
  function SetCommon(fd: int, c: SockCache, a: StreamAttr,
                     answer: (nat, Ocall) -> Reply, base: nat): (run: SetRun)
    ensures a.handleType != PalTypeSocket ==> run == SetRun(c, [], Fail(Inval))
  {
    if a.handleType != PalTypeSocket then SetRun(c, [], Fail(Inval))
    else Run(fd, a, CommonFields, SetRun(c, [], Ok), answer, base)
  }

  /** `attrsetbyhdl_tcp`: the common part, then, only if it succeeded, the
      two TCP fields. */
  function SetTcp(fd: int, c: SockCache, a: StreamAttr,
                  answer: (nat, Ocall) -> Reply, base: nat): SetRun
  {
    var common := SetCommon(fd, c, a, answer, base);
    if common.status.Fail? then common
    else Run(fd, a, TcpFields, common, answer, base)
  }

  /** `attrsetbyhdl_udp` is the common part alone. */
  function SetUdp(fd: int, c: SockCache, a: StreamAttr,
                  answer: (nat, Ocall) -> Reply, base: nat): SetRun
  {
    SetCommon(fd, c, a, answer, base)
  }

  // ---------------------------------------------------------------------
  // One step

  /** A step touches at most its own field, to the requested value, and only
      through a successful host call; it issues at most that one call, and
      only when the field differs. */
  lemma StepFacts(fd: int, a: StreamAttr, f: Field, run: SetRun,
                  answer: (nat, Ocall) -> Reply, base: nat)
    requires run.status.Ok?
    ensures var s := Step(fd, a, f, run, answer, base);
      && (forall g :: g != f ==> Get(s.cache, g) == Get(run.cache, g))
      && (s.status.Ok? ==> Get(s.cache, f) == Want(a, f))
      && (s.status.Fail? ==> s.cache == run.cache)
      && (s.issued == run.issued || s.issued == run.issued + [Request(fd, a, f)])
      && (s.issued != run.issued ==>
            Get(run.cache, f) != Want(a, f)
            && (s.status.Ok? <==> ReplyAt(answer, base, run, Request(fd, a, f)).ret >= 0))
      && (Get(s.cache, f) != Get(run.cache, f) ==> s.issued != run.issued && s.status.Ok?)
      && (Get(run.cache, f) != Want(a, f) && TooLarge(a, f) ==> s == run.(status := Fail(Inval)))
  {
    forall g | g != f ensures Get(Step(fd, a, f, run, answer, base).cache, g) == Get(run.cache, g) {
      CommitGet(run.cache, a, f, g);
    }
    CommitGet(run.cache, a, f, f);
  }

  // ---------------------------------------------------------------------
  // The walk

  /** A walk that ends in success started in success. */
  lemma RunOkStartedOk(fd: int, a: StreamAttr, fields: seq<Field>, run: SetRun,
                       answer: (nat, Ocall) -> Reply, base: nat)
    ensures Run(fd, a, fields, run, answer, base).status.Ok? ==> run.status.Ok?
  {
  }

  /** A field the walk does not visit keeps its cached value. */
  lemma {:induction false} RunKeepsUnvisited(fd: int, a: StreamAttr, fields: seq<Field>, run: SetRun,
                                             answer: (nat, Ocall) -> Reply, base: nat, g: Field)
    requires g !in fields
    ensures Get(Run(fd, a, fields, run, answer, base).cache, g) == Get(run.cache, g)
  {
    if |fields| > 0 && run.status.Ok? {
      var s := Step(fd, a, fields[0], run, answer, base);
      StepFacts(fd, a, fields[0], run, answer, base);
      RunKeepsUnvisited(fd, a, fields[1..], s, answer, base, g);
    }
  }

  /** The walk only ever appends to the record of host calls. */
  lemma {:induction false} RunExtendsIssued(fd: int, a: StreamAttr, fields: seq<Field>, run: SetRun,
                                            answer: (nat, Ocall) -> Reply, base: nat)
    ensures var r := Run(fd, a, fields, run, answer, base);
      && |run.issued| <= |r.issued| <= |run.issued| + |fields|
      && r.issued[..|run.issued|] == run.issued
  {
    if |fields| > 0 && run.status.Ok? {
      var s := Step(fd, a, fields[0], run, answer, base);
      StepFacts(fd, a, fields[0], run, answer, base);
      RunExtendsIssued(fd, a, fields[1..], s, answer, base);
      var r := Run(fd, a, fields[1..], s, answer, base);
      assert r.issued[..|run.issued|] == r.issued[..|s.issued|][..|run.issued|];
    }
  }

  /** Every host call the walk issues updates one visited field whose cached
      value differed from the request: nothing is issued for fields that
      already hold the requested value. */
  lemma {:induction false} RunIssuesOnlyForDiffering(fd: int, a: StreamAttr, fields: seq<Field>, run: SetRun,
                                                     answer: (nat, Ocall) -> Reply, base: nat)
    ensures var r := Run(fd, a, fields, run, answer, base);
      |run.issued| <= |r.issued| &&
      forall i :: |run.issued| <= i < |r.issued| ==>
        exists f :: f in fields && r.issued[i] == Request(fd, a, f) && Get(run.cache, f) != Want(a, f)
  {
    RunExtendsIssued(fd, a, fields, run, answer, base);
    if |fields| > 0 && run.status.Ok? {
      var f0 := fields[0];
      var s := Step(fd, a, f0, run, answer, base);
      StepFacts(fd, a, f0, run, answer, base);
      RunIssuesOnlyForDiffering(fd, a, fields[1..], s, answer, base);
      var r := Run(fd, a, fields[1..], s, answer, base);
      RunExtendsIssued(fd, a, fields[1..], s, answer, base);
      forall i | |run.issued| <= i < |r.issued|
        ensures exists f :: f in fields && r.issued[i] == Request(fd, a, f) && Get(run.cache, f) != Want(a, f)
      {
        if i < |s.issued| {
          assert r.issued[i] == s.issued[i] == Request(fd, a, f0);
          assert f0 in fields;
        } else {
          var f :| f in fields[1..] && r.issued[i] == Request(fd, a, f) && Get(s.cache, f) != Want(a, f);
          assert f in fields;
          assert f != f0;
        }
      }
    }
  }

  /** A cached field that the walk changes now holds the requested value,
      and the host call for it was issued and succeeded. */
  lemma {:induction false} RunChangesOnlyToRequested(fd: int, a: StreamAttr, fields: seq<Field>, run: SetRun,
                                                     answer: (nat, Ocall) -> Reply, base: nat, g: Field)
    requires run.status.Ok?
    ensures var r := Run(fd, a, fields, run, answer, base);
      Get(r.cache, g) != Get(run.cache, g) ==>
        && Get(r.cache, g) == Want(a, g)
        && exists i :: |run.issued| <= i < |r.issued| && r.issued[i] == Request(fd, a, g)
                       && answer(base + i, r.issued[i]).ret >= 0
  {
    var r := Run(fd, a, fields, run, answer, base);
    if |fields| > 0 {
      var f0 := fields[0];
      var s := Step(fd, a, f0, run, answer, base);
      StepFacts(fd, a, f0, run, answer, base);
      RunExtendsIssued(fd, a, fields[1..], s, answer, base);
      assert r == Run(fd, a, fields[1..], s, answer, base);
      if s.status.Ok? && Get(r.cache, g) != Get(run.cache, g) {
        RunChangesOnlyToRequested(fd, a, fields[1..], s, answer, base, g);
        if Get(r.cache, g) != Get(s.cache, g) {
          var i :| |s.issued| <= i < |r.issued| && r.issued[i] == Request(fd, a, g)
                   && answer(base + i, r.issued[i]).ret >= 0;
          assert |run.issued| <= i;
        } else {
          // the first step changed g, so g is f0 and its call succeeded
          assert g == f0;
          var i := |run.issued|;
          assert s.issued == run.issued + [Request(fd, a, g)];
          assert r.issued[..|s.issued|] == s.issued;
          assert r.issued[i] == s.issued[i] == Request(fd, a, g);
          assert answer(base + i, r.issued[i]).ret >= 0;
        }
      }
    }
  }

  /** A walk that ends in success leaves every visited field holding the
      requested value. */
  lemma {:induction false} RunSuccessCommitsAll(fd: int, a: StreamAttr, fields: seq<Field>, run: SetRun,
                                                answer: (nat, Ocall) -> Reply, base: nat)
    requires Run(fd, a, fields, run, answer, base).status.Ok?
    ensures forall f :: f in fields ==> Get(Run(fd, a, fields, run, answer, base).cache, f) == Want(a, f)
  {
    if |fields| > 0 {
      RunOkStartedOk(fd, a, fields, run, answer, base);
      var f0 := fields[0];
      var s := Step(fd, a, f0, run, answer, base);
      StepFacts(fd, a, f0, run, answer, base);
      var r := Run(fd, a, fields[1..], s, answer, base);
      assert Run(fd, a, fields, run, answer, base) == r;
      RunOkStartedOk(fd, a, fields[1..], s, answer, base);
      RunSuccessCommitsAll(fd, a, fields[1..], s, answer, base);
      forall f | f in fields ensures Get(r.cache, f) == Want(a, f) {
        if f !in fields[1..] {
          assert f == f0;
          RunKeepsUnvisited(fd, a, fields[1..], s, answer, base, f0);
        }
      }
    }
  }

  /** A walk over fields that all hold their requested values does nothing:
      no host call, no change, success. */
  lemma {:induction false} RunNoopWhenSatisfied(fd: int, a: StreamAttr, fields: seq<Field>, c: SockCache,
                                                answer: (nat, Ocall) -> Reply, base: nat)
    requires forall f :: f in fields ==> Get(c, f) == Want(a, f)
    ensures Run(fd, a, fields, SetRun(c, [], Ok), answer, base) == SetRun(c, [], Ok)
  {
    if |fields| > 0 {
      assert Step(fd, a, fields[0], SetRun(c, [], Ok), answer, base) == SetRun(c, [], Ok);
      RunNoopWhenSatisfied(fd, a, fields[1..], c, answer, base);
    }
  }

  predicate Distinct(fields: seq<Field>)
  {
    forall i, j :: 0 <= i < j < |fields| ==> fields[i] != fields[j]
  }

  /** The walk over `fields` from cache `c0` ended in cache `c` after it
      stopped at `fields[k]`: every field before `k` holds the requested
      value, and `fields[k]` and every field after it kept its value. */
  predicate StoppedAt(fields: seq<Field>, a: StreamAttr, c0: SockCache, c: SockCache, k: int)
  {
    && 0 <= k < |fields|
    && (forall i :: 0 <= i < k ==> Get(c, fields[i]) == Want(a, fields[i]))
    && (forall i :: k <= i < |fields| ==> Get(c, fields[i]) == Get(c0, fields[i]))
  }

  /** Stopping at `k` in the tail of a list is stopping at `k + 1` in the
      whole list, given that the head holds its requested value and the
      first step kept the tail's fields. */
  lemma StoppedAtCons(fields: seq<Field>, a: StreamAttr, c0: SockCache, cs: SockCache, c: SockCache, k: int)
    requires |fields| > 0 && StoppedAt(fields[1..], a, cs, c, k)
    requires Get(c, fields[0]) == Want(a, fields[0])
    requires forall i :: 1 <= i < |fields| ==> Get(cs, fields[i]) == Get(c0, fields[i])
    ensures StoppedAt(fields, a, c0, c, k + 1)
  {
    forall i | 1 <= i < |fields| ensures fields[i] == fields[1..][i - 1] { }
  }

  /** The first failure ends the walk: a walk that fails stopped at some
      field; every field before it holds the requested value, and it and
      every field after it keep the value they had. */
  lemma {:induction false} RunFailureIsPrefix(fd: int, a: StreamAttr, fields: seq<Field>, run: SetRun,
                                              answer: (nat, Ocall) -> Reply, base: nat)
    requires run.status.Ok? && Distinct(fields)
    requires Run(fd, a, fields, run, answer, base).status.Fail?
    ensures exists k :: StoppedAt(fields, a, run.cache, Run(fd, a, fields, run, answer, base).cache, k)
  {
    var r := Run(fd, a, fields, run, answer, base);
    var f0 := fields[0];
    var s := Step(fd, a, f0, run, answer, base);
    StepFacts(fd, a, f0, run, answer, base);
    assert r == Run(fd, a, fields[1..], s, answer, base);
    if s.status.Fail? {
      assert StoppedAt(fields, a, run.cache, r.cache, 0);
    } else {
      var rest := fields[1..];
      assert Distinct(rest) by {
        forall i, j | 0 <= i < j < |rest| ensures rest[i] != rest[j] {
          assert rest[i] == fields[i + 1] && rest[j] == fields[j + 1];
        }
      }
      assert f0 !in rest by {
        forall i | 0 <= i < |rest| ensures rest[i] != f0 {
          assert rest[i] == fields[i + 1];
        }
      }
      RunFailureIsPrefix(fd, a, rest, s, answer, base);
      var k :| StoppedAt(rest, a, s.cache, r.cache, k);
      RunKeepsUnvisited(fd, a, rest, s, answer, base, f0);
      forall i | 1 <= i < |fields| ensures Get(s.cache, fields[i]) == Get(run.cache, fields[i]) {
        assert fields[i] == rest[i - 1];
      }
      StoppedAtCons(fields, a, run.cache, s.cache, r.cache, k);
    }
  }

  /** Walking over `xs + ys` is walking over `xs`, then over `ys`. */
  lemma {:induction false} RunAppend(fd: int, a: StreamAttr, xs: seq<Field>, ys: seq<Field>, run: SetRun,
                                     answer: (nat, Ocall) -> Reply, base: nat)
    ensures Run(fd, a, xs + ys, run, answer, base)
         == Run(fd, a, ys, Run(fd, a, xs, run, answer, base), answer, base)
  {
    if |xs| == 0 {
      assert xs + ys == ys;
    } else if run.status.Fail? {
      assert Run(fd, a, ys, run, answer, base) == run;
    } else {
      assert (xs + ys)[1..] == xs[1..] + ys;
      RunAppend(fd, a, xs[1..], ys, Step(fd, a, xs[0], run, answer, base), answer, base);
    }
  }

  // ---------------------------------------------------------------------
  // The setters

  lemma CommonFieldsDistinct()
    ensures Distinct(CommonFields) && Distinct(CommonFields + TcpFields)
    ensures FCork !in CommonFields && FNodelay !in CommonFields
  {
  }

  /** `attrsetbyhdl_common` changes a cached field only to the requested
      value, through a host call for that field that succeeded, and never
      touches `tcp_cork` or `tcp_nodelay`. */
  lemma SetCommonChangesOnlyToRequested(fd: int, c: SockCache, a: StreamAttr,
                                        answer: (nat, Ocall) -> Reply, base: nat, g: Field)
    ensures var r := SetCommon(fd, c, a, answer, base);
      && Get(r.cache, FCork) == Get(c, FCork) && Get(r.cache, FNodelay) == Get(c, FNodelay)
      && (Get(r.cache, g) != Get(c, g) ==>
            Get(r.cache, g) == Want(a, g)
            && exists i :: 0 <= i < |r.issued| && r.issued[i] == Request(fd, a, g)
                           && answer(base + i, r.issued[i]).ret >= 0)
  {
    if a.handleType == PalTypeSocket {
      var init := SetRun(c, [], Ok);
      CommonFieldsDistinct();
      RunKeepsUnvisited(fd, a, CommonFields, init, answer, base, FCork);
      RunKeepsUnvisited(fd, a, CommonFields, init, answer, base, FNodelay);
      RunChangesOnlyToRequested(fd, a, CommonFields, init, answer, base, g);
    }
  }

  /** `attrsetbyhdl_common` issues a host call only for a common field whose
      cached value differs from the request. */
  lemma SetCommonIssuesOnlyForDiffering(fd: int, c: SockCache, a: StreamAttr,
                                        answer: (nat, Ocall) -> Reply, base: nat)
    ensures var r := SetCommon(fd, c, a, answer, base);
      forall i :: 0 <= i < |r.issued| ==>
        exists f :: f in CommonFields && r.issued[i] == Request(fd, a, f) && Get(c, f) != Want(a, f)
  {
    if a.handleType == PalTypeSocket {
      RunIssuesOnlyForDiffering(fd, a, CommonFields, SetRun(c, [], Ok), answer, base);
    }
  }

  /** When `attrsetbyhdl_common` succeeds every common field holds the
      requested value; when it fails on a socket attribute record, it
      stopped at one field: the fields before it hold the requested values
      and none from it on was touched. */
  lemma SetCommonOutcome(fd: int, c: SockCache, a: StreamAttr,
                         answer: (nat, Ocall) -> Reply, base: nat)
    ensures var r := SetCommon(fd, c, a, answer, base);
      && (r.status.Ok? ==> forall f :: f in CommonFields ==> Get(r.cache, f) == Want(a, f))
      && (r.status.Fail? && a.handleType == PalTypeSocket ==>
            exists k :: StoppedAt(CommonFields, a, c, r.cache, k))
  {
    var init := SetRun(c, [], Ok);
    if a.handleType == PalTypeSocket {
      if SetCommon(fd, c, a, answer, base).status.Ok? {
        RunSuccessCommitsAll(fd, a, CommonFields, init, answer, base);
      } else {
        CommonFieldsDistinct();
        RunFailureIsPrefix(fd, a, CommonFields, init, answer, base);
      }
    }
  }

  /** What `attrsetbyhdl_tcp` adds: if the common part fails, the result is
      that failure and `tcp_cork`/`tcp_nodelay` are untouched; otherwise the
      whole setter is one walk over the common fields followed by the TCP
      fields, and on success all of them hold the requested values. */
  lemma SetTcpSpec(fd: int, c: SockCache, a: StreamAttr,
                   answer: (nat, Ocall) -> Reply, base: nat)
    ensures var common := SetCommon(fd, c, a, answer, base);
            var r := SetTcp(fd, c, a, answer, base);
      && (common.status.Fail? ==>
            r == common && Get(r.cache, FCork) == Get(c, FCork) && Get(r.cache, FNodelay) == Get(c, FNodelay))
      && (a.handleType == PalTypeSocket ==>
            r == Run(fd, a, CommonFields + TcpFields, SetRun(c, [], Ok), answer, base))
      && (r.status.Ok? ==> forall f :: f in CommonFields + TcpFields ==> Get(r.cache, f) == Want(a, f))
  {
    SetCommonChangesOnlyToRequested(fd, c, a, answer, base, FCork);
    var init := SetRun(c, [], Ok);
    if a.handleType == PalTypeSocket {
      RunAppend(fd, a, CommonFields, TcpFields, init, answer, base);
      if SetTcp(fd, c, a, answer, base).status.Ok? {
        RunSuccessCommitsAll(fd, a, CommonFields + TcpFields, init, answer, base);
      }
    }
  }

  /** Applying the same request again after a successful TCP set issues no
      host call and succeeds, whatever the host would answer. */
  lemma SetTcpIdempotent(fd: int, c: SockCache, a: StreamAttr,
                         answer: (nat, Ocall) -> Reply, base: nat,
                         answer2: (nat, Ocall) -> Reply, base2: nat)
    requires SetTcp(fd, c, a, answer, base).status.Ok?
    ensures var c' := SetTcp(fd, c, a, answer, base).cache;
      SetTcp(fd, c', a, answer2, base2) == SetRun(c', [], Ok)
  {
    SetTcpSpec(fd, c, a, answer, base);
    var c' := SetTcp(fd, c, a, answer, base).cache;
    RunNoopWhenSatisfied(fd, a, CommonFields + TcpFields, c', answer2, base2);
    SetTcpSpec(fd, c', a, answer2, base2);
  }

  // ---------------------------------------------------------------------
  // Query against set

  /** The attribute record `attrquerybyhdl` fills in from a cache and the
      pending byte count. */
  function AttrOf(c: SockCache, pending: U64): (a: StreamAttr)
    ensures a.handleType == PalTypeSocket && a.pendingSize == pending
    ensures forall f :: Want(a, f) == Get(c, f)
  {
    StreamAttr(PalTypeSocket, c.nonblocking, pending,
      SocketAttr(c.linger, c.recvBufSize, c.sendBufSize, c.recvTimeoutUs, c.sendTimeoutUs,
                 c.reuseaddr, c.keepalive, c.tcpCork, c.tcpNodelay, c.ipv6V6only))
  }

  /** Setting back the attributes just queried changes nothing and asks the
      host for nothing, on TCP and on UDP sockets alike. */
  lemma SetQueriedIsNoop(fd: int, c: SockCache, pending: U64,
                         answer: (nat, Ocall) -> Reply, base: nat)
    ensures SetTcp(fd, c, AttrOf(c, pending), answer, base) == SetRun(c, [], Ok)
    ensures SetUdp(fd, c, AttrOf(c, pending), answer, base) == SetRun(c, [], Ok)
  {
    var a := AttrOf(c, pending);
    RunNoopWhenSatisfied(fd, a, CommonFields, c, answer, base);
    RunNoopWhenSatisfied(fd, a, TcpFields, c, answer, base);
  }

  /** A cache that holds every requested value reports the request back. */
  lemma AttrOfSatisfied(c: SockCache, a: StreamAttr, pending: U64)
    requires forall f :: f in CommonFields + TcpFields ==> Get(c, f) == Want(a, f)
    ensures AttrOf(c, pending).nonblocking == a.nonblocking
    ensures AttrOf(c, pending).socket == a.socket
  {
    var all := CommonFields + TcpFields;
    forall k | 0 <= k < |all| ensures Get(c, all[k]) == Want(a, all[k]) {
      assert all[k] in all;
    }
    assert c.nonblocking == a.nonblocking by { assert Get(c, all[0]) == Want(a, all[0]); }
    assert c.linger == a.socket.linger by { assert Get(c, all[1]) == Want(a, all[1]); }
    assert c.recvBufSize == a.socket.recvBufSize by { assert Get(c, all[2]) == Want(a, all[2]); }
    assert c.sendBufSize == a.socket.sendBufSize by { assert Get(c, all[3]) == Want(a, all[3]); }
    assert c.recvTimeoutUs == a.socket.receiveTimeoutUs by { assert Get(c, all[4]) == Want(a, all[4]); }
    assert c.sendTimeoutUs == a.socket.sendTimeoutUs by { assert Get(c, all[5]) == Want(a, all[5]); }
    assert c.keepalive == a.socket.keepalive by { assert Get(c, all[6]) == Want(a, all[6]); }
    assert c.reuseaddr == a.socket.reuseaddr by { assert Get(c, all[7]) == Want(a, all[7]); }
    assert c.ipv6V6only == a.socket.ipv6V6only by { assert Get(c, all[8]) == Want(a, all[8]); }
    assert c.tcpCork == a.socket.tcpCork by { assert Get(c, all[9]) == Want(a, all[9]); }
    assert c.tcpNodelay == a.socket.tcpNodelay by { assert Get(c, all[10]) == Want(a, all[10]); }
  }

  /** After a successful set, a query reports exactly the requested socket
      options and blocking mode. */
  lemma QueryAfterSet(fd: int, c: SockCache, a: StreamAttr, pending: U64,
                      answer: (nat, Ocall) -> Reply, base: nat)
    requires SetTcp(fd, c, a, answer, base).status.Ok?
    ensures var q := AttrOf(SetTcp(fd, c, a, answer, base).cache, pending);
      q.nonblocking == a.nonblocking && q.socket == a.socket
  {
    SetTcpSpec(fd, c, a, answer, base);
    AttrOfSatisfied(SetTcp(fd, c, a, answer, base).cache, a, pending);
  }
  /** A cache that holds every requested common option and the old
      `tcp_cork`/`tcp_nodelay` is reported back as the request with those
      two replaced by their old values. */
  lemma AttrOfCommonSatisfied(r: SockCache, c: SockCache, a: StreamAttr, pending: U64)
    requires forall f :: f in CommonFields ==> Get(r, f) == Want(a, f)
    requires Get(r, FCork) == Get(c, FCork) && Get(r, FNodelay) == Get(c, FNodelay)
    ensures AttrOf(r, pending).nonblocking == a.nonblocking
    ensures AttrOf(r, pending).socket == a.socket.(tcpCork := c.tcpCork, tcpNodelay := c.tcpNodelay)
  {
    var all := CommonFields;
    forall k | 0 <= k < |all| ensures Get(r, all[k]) == Want(a, all[k]) {
      assert all[k] in all;
    }
    assert r.nonblocking == a.nonblocking by { assert Get(r, all[0]) == Want(a, all[0]); }
    assert r.linger == a.socket.linger by { assert Get(r, all[1]) == Want(a, all[1]); }
    assert r.recvBufSize == a.socket.recvBufSize by { assert Get(r, all[2]) == Want(a, all[2]); }
    assert r.sendBufSize == a.socket.sendBufSize by { assert Get(r, all[3]) == Want(a, all[3]); }
    assert r.recvTimeoutUs == a.socket.receiveTimeoutUs by { assert Get(r, all[4]) == Want(a, all[4]); }
    assert r.sendTimeoutUs == a.socket.sendTimeoutUs by { assert Get(r, all[5]) == Want(a, all[5]); }
    assert r.keepalive == a.socket.keepalive by { assert Get(r, all[6]) == Want(a, all[6]); }
    assert r.reuseaddr == a.socket.reuseaddr by { assert Get(r, all[7]) == Want(a, all[7]); }
    assert r.ipv6V6only == a.socket.ipv6V6only by { assert Get(r, all[8]) == Want(a, all[8]); }
  }

  /** `attrsetbyhdl_udp` does not visit `tcp_cork` and `tcp_nodelay`: after a
      successful UDP set, a query reports the requested blocking mode and
      common options, while those two keep the values cached before, even
      if the request asked for others. */
  lemma QueryAfterSetUdp(fd: int, c: SockCache, a: StreamAttr, pending: U64,
                         answer: (nat, Ocall) -> Reply, base: nat)
    requires SetUdp(fd, c, a, answer, base).status.Ok?
    ensures var q := AttrOf(SetUdp(fd, c, a, answer, base).cache, pending);
      q.nonblocking == a.nonblocking
      && q.socket == a.socket.(tcpCork := c.tcpCork, tcpNodelay := c.tcpNodelay)
  {
    var init := SetRun(c, [], Ok);
    var r := Run(fd, a, CommonFields, init, answer, base);
    assert SetUdp(fd, c, a, answer, base) == r;
    RunSuccessCommitsAll(fd, a, CommonFields, init, answer, base);
    CommonFieldsDistinct();
    RunKeepsUnvisited(fd, a, CommonFields, init, answer, base, FCork);
    RunKeepsUnvisited(fd, a, CommonFields, init, answer, base, FNodelay);
    AttrOfCommonSatisfied(r.cache, c, a, pending);
  }
}
