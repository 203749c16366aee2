/** The library OS's generic socket file operations (`socket_fs_ops`): the
    part of a socket file handle that does not depend on the socket family.
    A handle has a backend table (none while checked out, the UNIX one or the
    IP one), a lock that exists or not, and an optional PAL handle. The PAL
    calls and the family backends are oracles passed in. */
module ShimSocketFs {
  import opened PalTypes
  import opened LinuxTypes

  /** The two `struct shim_sock_ops` tables, `sock_unix_ops` and
      `sock_ip_ops`. */
  datatype ShimSockOps = SockUnixOps | SockIpOps

  /** A reference to a PAL handle. */
  datatype PalRef = PalRef(id: nat)

  /** The errno values these operations return. `PalErrno(ret)` stands for
      `pal_to_unix_errno(ret)` of a failed PAL call: the translation table is
      not part of this model. */
  datatype Errno = EINVAL | ENOMEM | PalErrno(palRet: int)

  /** An `int` return value: 0 or a negated errno. */
  datatype ShimStatus = Done | Error(e: Errno)

  /** `pal_to_unix_errno` of a PAL return value: 0 stays success. */
  function PalToUnix(ret: int): (st: ShimStatus)
    ensures st == Done <==> ret >= 0
    ensures st != Done ==> st == Error(PalErrno(ret))
  {
    if ret < 0 then Error(PalErrno(ret)) else Done
  }

  /** The family backend a domain selects on check-in. */
  predicate SupportedDomain(domain: int)
  {
    domain == AF_UNIX || domain == AF_INET || domain == AF_INET6
  }

  function BackendFor(domain: int): (ops: ShimSockOps)
    requires SupportedDomain(domain)
    ensures ops == SockUnixOps <==> domain == AF_UNIX
    ensures ops == SockIpOps <==> domain == AF_INET || domain == AF_INET6
  {
    if domain == AF_UNIX then SockUnixOps else SockIpOps
  }

  // ---------------------------------------------------------------------
  // The calls the operations hand on

  /** What `close` tears down, in order. */
  datatype Teardown = DestroyLock | ObjectClose(pal: PalRef)

  /** A call of `do_recvmsg` or `do_sendmsg`: the buffers, whether an address
      is passed, and the flags. */
  datatype MsgCall = MsgCall(iov: seq<IoVec>, withAddr: bool, flags: nat)

  /** The PAL calls `setflags` makes. */
  datatype PalCall = QueryByHandle(h: PalRef) | SetByHandle(h: PalRef, attr: StreamAttr)

  /** What the attribute query hands back: its return value and the record. */
  datatype QueryReply = QueryReply(ret: int, attr: StreamAttr)

  /** The status `setflags` returns and the PAL calls it made. */
  datatype SetFlagsOutcome = SetFlagsOutcome(status: ShimStatus, calls: seq<PalCall>)

  // ---------------------------------------------------------------------
  // `struct stat`

  /** The fields of `struct stat`. */
  datatype Stat = Stat(
    dev: nat, ino: nat, mode: bv32, nlink: nat, uid: nat, gid: nat, rdev: nat,
    size: nat, blksize: nat, blocks: nat, atime: nat, mtime: nat, ctime: nat)

  const S_IFMT: bv32 := 0xF000     // octal 0170000
  const S_IFSOCK: bv32 := 0xC000   // octal 0140000
  /** `PERM_rwxrwxrwx`. */
  const PERM_RWXRWXRWX: bv32 := 0x1FF  // octal 0777
  /** `PAGE_SIZE` on x86-64. */
  const PAGE_SIZE: nat := 4096

  /** `O_NONBLOCK` of `asm/fcntl.h` on x86-64 (octal 04000). */
  const O_NONBLOCK: bv32 := 0x800

  /** `WITHIN_MASK(flags, mask)`: no bit outside `mask` is set. */
  predicate WithinMask(flags: bv32, mask: bv32)
  {
    flags & !mask == 0
  }

  /** The shim side of a socket file handle (`handle->info.sock`, the parts
      these operations use). */
  class ShimSock {
    const domain: int
    var ops: Option<ShimSockOps>
    var lockCreated: bool
    var palHandle: Option<PalRef>

    /** A handle's backend table, when it has one, is the one its domain
      selects. */
    ghost predicate Consistent()
      reads this
    {
      ops.Some? ==> SupportedDomain(domain) && ops.value == BackendFor(domain)
    }

    constructor (domain: int, ops: Option<ShimSockOps>, lockCreated: bool, palHandle: Option<PalRef>)
      ensures this.domain == domain && this.ops == ops
      ensures this.lockCreated == lockCreated && this.palHandle == palHandle
    {
      this.domain := domain;
      this.ops := ops;
      this.lockCreated := lockCreated;
      this.palHandle := palHandle;
    }

    /** `close`: destroy the lock if it was created and close the PAL
      handle if there is one, in that order; the result is always 0. */
    method Close() returns (r: int, teardown: seq<Teardown>)
      ensures r == 0
      ensures DestroyLock in teardown <==> lockCreated
      ensures forall p :: ObjectClose(p) in teardown <==> palHandle == Some(p)
      ensures |teardown| == (if lockCreated then 1 else 0) + (if palHandle.Some? then 1 else 0)
      ensures lockCreated ==> teardown[0] == DestroyLock
    {
      teardown := [];
      if lockCreated {
        teardown := teardown + [DestroyLock];
      }
      if palHandle.Some? {
        teardown := teardown + [ObjectClose(palHandle.value)];
      }
      r := 0;
    }

    /** `readv`: the caller's buffers go to `do_recvmsg` unchanged, with no
      address and no flags. */
    function Readv(recvmsg: MsgCall -> int, iov: seq<IoVec>): (r: int)
    {
      recvmsg(MsgCall(iov, false, 0))
    }

    /** `writev`: the caller's buffers go to `do_sendmsg` unchanged, with no
      address and no flags. */
    function Writev(sendmsg: MsgCall -> int, iov: seq<IoVec>): (r: int)
    {
      sendmsg(MsgCall(iov, false, 0))
    }

    /** `read` of `size` bytes into `buf` is `readv` of the one buffer. */
    function Read(recvmsg: MsgCall -> int, buf: nat, size: nat): (r: int)
      ensures r == Readv(recvmsg, [IoVec(buf, size)])
    {
      var iov := IoVec(buf, size);
      recvmsg(MsgCall([iov], false, 0))
    }

    /** `write` of `size` bytes from `buf` is `writev` of the one buffer. */
    function Write(sendmsg: MsgCall -> int, buf: nat, size: nat): (r: int)
      ensures r == Writev(sendmsg, [IoVec(buf, size)])
    {
      var iov := IoVec(buf, size);
      sendmsg(MsgCall([iov], false, 0))
    }

    /** `hstat`: a fixed record that does not depend on the handle: a socket
      with all permission bits, one link and a page-sized block, everything
      else zero. */
    method Hstat() returns (r: int, st: Stat)
      ensures r == 0
      ensures st.mode & S_IFMT == S_IFSOCK
      ensures st.mode & PERM_RWXRWXRWX == PERM_RWXRWXRWX
      ensures st.mode & !(S_IFMT | PERM_RWXRWXRWX) == 0
      ensures st.nlink == 1 && st.blksize == PAGE_SIZE
      ensures st.dev == 0 && st.ino == 0 && st.uid == 0 && st.gid == 0 && st.rdev == 0
      ensures st.size == 0 && st.blocks == 0 && st.atime == 0 && st.mtime == 0 && st.ctime == 0
    {
      st := Stat(0, 0, 0, 0, 0, 0, 0, 0, 0, 0, 0, 0, 0);
      st := st.(dev := 0, ino := 0);
      st := st.(mode := S_IFSOCK | PERM_RWXRWXRWX);
      st := st.(nlink := 1);
      st := st.(blksize := PAGE_SIZE);
      r := 0;
    }

    /** `setflags`: only `O_NONBLOCK` may be set, and a PAL handle must be
      attached, or the result is EINVAL without a PAL call. Otherwise the
      attributes are queried (a failure is returned, translated) and set
      back with the requested blocking mode only if it differs. */
    function SetFlags(flags: bv32, query: PalRef -> QueryReply, update: (PalRef, StreamAttr) -> int)
      : (out: SetFlagsOutcome)
      reads this
      ensures !WithinMask(flags, O_NONBLOCK) || palHandle.None? ==>
        out == SetFlagsOutcome(Error(EINVAL), [])
      ensures WithinMask(flags, O_NONBLOCK) && palHandle.Some? ==>
        var h := palHandle.value;
        var q := query(h);
        var nb := flags & O_NONBLOCK != 0;
        && 1 <= |out.calls| <= 2
        && out.calls[0] == QueryByHandle(h)
        && (q.ret < 0 ==> out == SetFlagsOutcome(Error(PalErrno(q.ret)), [QueryByHandle(h)]))
        && (|out.calls| == 2 <==> q.ret >= 0 && q.attr.nonblocking != nb)
        && (|out.calls| == 2 ==>
              && out.calls[1] == SetByHandle(h, q.attr.(nonblocking := nb))
              && out.status == PalToUnix(update(h, out.calls[1].attr)))
        && (q.ret >= 0 && q.attr.nonblocking == nb ==> out.status == Done)
    {
      if !WithinMask(flags, O_NONBLOCK) then SetFlagsOutcome(Error(EINVAL), [])
      else
        var nonblocking := flags & O_NONBLOCK != 0;
        match palHandle
        case None => SetFlagsOutcome(Error(EINVAL), [])
        case Some(h) =>
          var q := query(h);
          if q.ret < 0 then SetFlagsOutcome(PalToUnix(q.ret), [QueryByHandle(h)])
          else if q.attr.nonblocking != nonblocking then
            var attr := q.attr.(nonblocking := nonblocking);
            SetFlagsOutcome(PalToUnix(update(h, attr)), [QueryByHandle(h), SetByHandle(h, attr)])
          else SetFlagsOutcome(Done, [QueryByHandle(h)])
    }

    /** The blocking mode the PAL handle has after a `setflags` that
      succeeded: the one that was set, or, if nothing was set, the one the
      query reported. */
    function NonblockingAfter(flags: bv32, query: PalRef -> QueryReply, update: (PalRef, StreamAttr) -> int): bool
      requires WithinMask(flags, O_NONBLOCK) && palHandle.Some?
      reads this
    {
      var out := SetFlags(flags, query, update);
      if |out.calls| == 2 then out.calls[1].attr.nonblocking else query(palHandle.value).attr.nonblocking
    }

    /** `checkout`: detach the backend table and forget the lock; the domain
      and the PAL handle stay. */
    method Checkout() returns (r: int)
      modifies this
      ensures r == 0
      ensures ops == None && !lockCreated && palHandle == old(palHandle)
      ensures Consistent()
    {
      ops := None;
      lockCreated := false;
      r := 0;
    }

    /** `checkin`: reattach the backend table the domain selects (any other
      domain is a `BUG()`), then create the lock; failing to create it is
      ENOMEM. `lockOk` stands for whether lock creation succeeds. */
    method Checkin(lockOk: bool) returns (st: ShimStatus)
      requires SupportedDomain(domain)
      modifies this
      ensures ops == Some(BackendFor(domain))
      ensures lockCreated == lockOk
      ensures st == (if lockOk then Done else Error(ENOMEM))
      ensures palHandle == old(palHandle)
      ensures Consistent()
    {
      if domain == AF_UNIX {
        ops := Some(SockUnixOps);
      } else {
        ops := Some(SockIpOps);
      }
      lockCreated := lockOk;
      if !lockOk {
        return Error(ENOMEM);
      }
      st := Done;
    }

    /** A checkpoint round trip: `checkout` in the parent, `checkin` in the
      child. The handle comes back with the backend table its domain selects
      and the same PAL handle. */
    method Migrate(lockOk: bool) returns (st: ShimStatus)
      requires SupportedDomain(domain)
      modifies this
      ensures ops == Some(BackendFor(domain)) && Consistent()
      ensures palHandle == old(palHandle)
      ensures lockCreated == lockOk
      ensures st == (if lockOk then Done else Error(ENOMEM))
    {
      var _ := Checkout();
      st := Checkin(lockOk);
    }
  }

  /** `setflags` is idempotent: once a call has succeeded, the same call
    again, against a PAL handle whose query reports the blocking mode the
    first call left, makes only the query and succeeds. */
  lemma SetFlagsIdempotent(s: ShimSock, flags: bv32,
                           query1: PalRef -> QueryReply, update1: (PalRef, StreamAttr) -> int,
                           query2: PalRef -> QueryReply, update2: (PalRef, StreamAttr) -> int)
    requires WithinMask(flags, O_NONBLOCK) && s.palHandle.Some?
    requires s.SetFlags(flags, query1, update1).status == Done
    requires query2(s.palHandle.value).ret >= 0
    requires query2(s.palHandle.value).attr.nonblocking == s.NonblockingAfter(flags, query1, update1)
    ensures s.SetFlags(flags, query2, update2) == SetFlagsOutcome(Done, [QueryByHandle(s.palHandle.value)])
  {
    var h := s.palHandle.value;
    var nb := flags & O_NONBLOCK != 0;
    var out1 := s.SetFlags(flags, query1, update1);
    if |out1.calls| == 2 {
      assert out1.calls[1].attr.nonblocking == nb;
    } else {
      assert query1(h).attr.nonblocking == nb;
    }
  }
}
