/** The Linux constants the socket layers branch on, and the control-message
    macros of the ancillary-data layout described in cmsg(3), as the SGX host
    layer defines them. All arithmetic is `size_t` arithmetic, which wraps
    modulo 2^64. */
module LinuxTypes {

  const SIZE_T_BOUND: nat := 0x1_0000_0000_0000_0000
  type SizeT = x: nat | x < SIZE_T_BOUND
  const SIZE_MAX: nat := SIZE_T_BOUND - 1

  /** Address families. */
  const AF_UNIX: int := 1
  const AF_INET: int := 2
  const AF_INET6: int := 10

  /** Socket types and the flags that may be or-ed into a socket type. */
  const SOCK_STREAM: bv32 := 1
  const SOCK_DGRAM: bv32 := 2
  const SOCK_NONBLOCK: bv32 := 0x800      // octal 04000
  const SOCK_CLOEXEC: bv32 := 0x8_0000    // octal 02000000
  /** The low bits of a socket-type argument that hold the base type. This
      is the Linux kernel's `SOCK_TYPE_MASK` (`include/linux/net.h`); the SGX
      header does not define it, and it is used here only to state which
      bits of a socket-type argument are the type and which are flags. */
  const SOCK_TYPE_MASK: bv32 := 0xF

  const MSG_NOSIGNAL: bv32 := 0x4000

  /** The `how` argument of shutdown(2). */
  const SHUT_RD: int := 0
  const SHUT_WR: int := 1
  const SHUT_RDWR: int := 2

  const SCM_RIGHTS: int := 1

  const SIZEOF_SIZE_T: nat := 8
  const SIZEOF_INT: nat := 4
  /** `struct cmsghdr { size_t cmsg_len; int cmsg_level; int cmsg_type; }`
      has no padding on x86-64. */
  const SIZEOF_CMSGHDR: nat := SIZEOF_SIZE_T + SIZEOF_INT + SIZEOF_INT

  /** An address, as an unbounded number (pointer arithmetic on it does not
      wrap); `NULL` is 0. */
  type Ptr = nat
  const NULL: Ptr := 0

  /** `ALIGN_UP(x, 8)` in `size_t` arithmetic: add 7, then clear the low three
      bits. The sum wraps for the last seven values below 2^64. */
  function AlignUp8(x: SizeT): SizeT
  {
    var s := (x + SIZEOF_SIZE_T - 1) % SIZE_T_BOUND;
    s - s % SIZEOF_SIZE_T
  }

  /** `CMSG_ALIGN(len)`: the least multiple of `sizeof(size_t)` that is at
      least `len`, as long as that multiple is representable; otherwise the
      addition wraps and the macro yields 0. */
  function CmsgAlign(len: SizeT): (r: SizeT)
    ensures r % SIZEOF_SIZE_T == 0
    ensures len + SIZEOF_SIZE_T - 1 <= SIZE_MAX ==> len <= r < len + SIZEOF_SIZE_T
    ensures len + SIZEOF_SIZE_T - 1 > SIZE_MAX ==> r == 0
  {
    AlignUp8(len)
  }

  /** `CMSG_LEN(len)`: the value of `cmsg_len` for a message carrying `len`
      bytes of data. The header is already aligned, so this is the header
      size plus `len` whenever the sum does not wrap. */
  function CmsgLen(len: SizeT): (r: SizeT)
    ensures CmsgAlign(SIZEOF_CMSGHDR) == SIZEOF_CMSGHDR == 16
    ensures SIZEOF_CMSGHDR + len <= SIZE_MAX ==> r == SIZEOF_CMSGHDR + len
  {
    (CmsgAlign(SIZEOF_CMSGHDR) + len) % SIZE_T_BOUND
  }

  /** `CMSG_SPACE(len)`: the buffer space a message carrying `len` bytes of
      data occupies, padding included; always a multiple of
      `sizeof(size_t)`. */
  function CmsgSpace(len: SizeT): (r: SizeT)
    ensures r % SIZEOF_SIZE_T == 0
  {
    var sum := CmsgAlign(len) + CmsgAlign(SIZEOF_CMSGHDR);
    ModMultiple8(sum);
    sum % SIZE_T_BOUND
  }

  /** `CMSG_FIRSTHDR(mhdr)` of a message header whose control buffer is at
      `control` and is `controllen` bytes long. */
  function CmsgFirstHdr(control: Ptr, controllen: SizeT): (h: Ptr)
    ensures h == NULL || h == control
  {
    if controllen >= SIZEOF_CMSGHDR then control else NULL
  }

  /** `CMSG_DATA(cmsg)`: the first data byte, just past the header. */
  function CmsgData(cmsg: Ptr): (d: Ptr)
    ensures d > cmsg
    ensures d == cmsg + SIZEOF_CMSGHDR == cmsg + 16
  {
    cmsg + SIZEOF_CMSGHDR
  }

  /** When nothing wraps, `CMSG_SPACE(len)` covers `CMSG_LEN(len)` with less
      than one word of padding. */
  lemma CmsgSpaceCoversLen(len: SizeT)
    requires len + SIZEOF_CMSGHDR + SIZEOF_SIZE_T - 1 <= SIZE_MAX
    ensures CmsgLen(len) <= CmsgSpace(len) < CmsgLen(len) + SIZEOF_SIZE_T
  {
    assert CmsgAlign(SIZEOF_CMSGHDR) == SIZEOF_CMSGHDR;
  }

  /** Reducing a multiple of 8 modulo 2^64 leaves a multiple of 8. */
  lemma ModMultiple8(x: nat)
    requires x % 8 == 0
    ensures (x % SIZE_T_BOUND) % 8 == 0
  {
    var q := x / SIZE_T_BOUND;
    assert x == q * SIZE_T_BOUND + x % SIZE_T_BOUND;
    assert SIZE_T_BOUND == 8 * 0x2000_0000_0000_0000;
  }

  /** `CMSG_FIRSTHDR` yields NULL exactly when the control buffer is too short
      to hold one header (or is itself NULL); otherwise it is the buffer. */
  lemma FirstHdrNullIff(control: Ptr, controllen: SizeT)
    ensures (CmsgFirstHdr(control, controllen) == NULL) <==>
              (controllen < SIZEOF_CMSGHDR || control == NULL)
    ensures control != NULL && controllen >= SIZEOF_CMSGHDR ==>
              CmsgFirstHdr(control, controllen) == control
  {
  }

  /** The data of the first header starts exactly one header size after it,
      and `len` data bytes end where `CMSG_LEN(len)` says, so a message that
      `CMSG_LEN` describes stays inside a control buffer of that length. */
  lemma FirstHdrDataInsideBuffer(control: Ptr, controllen: SizeT, len: SizeT)
    requires control != NULL
    requires SIZEOF_CMSGHDR + len <= controllen
    ensures CmsgFirstHdr(control, controllen) == control
    ensures CmsgData(control) == control + SIZEOF_CMSGHDR
    ensures CmsgData(control) + len == control + CmsgLen(len) <= control + controllen
  {
  }

  /** The three families `checkin` and the PAL switch on are pairwise
      distinct, and the shutdown modes are 0, 1 and 2, so each switch over
      them is well defined. */
  lemma ConstantsDistinct()
    ensures AF_UNIX != AF_INET && AF_UNIX != AF_INET6 && AF_INET != AF_INET6
    ensures SHUT_RD == 0 && SHUT_WR == 1 && SHUT_RDWR == 2
    ensures SOCK_STREAM & SOCK_TYPE_MASK != SOCK_DGRAM & SOCK_TYPE_MASK
    ensures SOCK_NONBLOCK & SOCK_TYPE_MASK == 0 && SOCK_CLOEXEC & SOCK_TYPE_MASK == 0
    ensures SOCK_NONBLOCK & SOCK_CLOEXEC == 0
  {
  }
}
