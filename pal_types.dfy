/** Types shared by the SGX host layer and the library OS: fixed-width
    integers, the PAL error domain and the stream-attribute record
    (`PAL_STREAM_ATTR`) that both layers read and write. */
module PalTypes {

  const U64_BOUND: nat := 0x1_0000_0000_0000_0000
  /** `uint64_t` / `size_t` on x86-64. */
  type U64 = x: nat | x < U64_BOUND
  /** `uint16_t`, the width of a port number. */
  type U16 = x: nat | x < 0x1_0000

  /** `INT_MAX` of a 32-bit `int`. */
  const INT_MAX: nat := 0x7FFF_FFFF

  datatype Option<T> = None | Some(value: T)

  /** The PAL error codes this layer returns. `Unix(ret)` stands for
      `unix_to_pal_error(ret)` of a failed host call's return value: the
      translation table is not part of this model, so the error keeps the
      raw host value. */
  datatype PalError = Inval | Denied | NoMem | Unix(ret: int)

  /** An `int` PAL return value: 0, or a negated PAL error. */
  datatype PalStatus = Ok | Fail(err: PalError)

  /** A PAL return value that also hands back a value on success. */
  datatype PalResult<T> = Success(value: T) | Failure(err: PalError)

  /** `unix_to_pal_error(ret)` where `ret` is an ocall's return value:
      a non-negative value is success, a negative one a translated error. */
  function UnixToPal(ret: int): (st: PalStatus)
    ensures st.Ok? <==> ret >= 0
    ensures st.Fail? ==> st.err == Unix(ret)
  {
    if ret < 0 then Fail(Unix(ret)) else Ok
  }

  /** `struct pal_iovec` / `struct iovec` (the SGX code static-asserts they
      have the same layout): one buffer address and its length. */
  datatype IoVec = IoVec(base: nat, len: nat)

  /** The `handle_type` tag of a PAL handle. */
  datatype PalType = PalTypeSocket | PalTypeOther(id: nat)

  /** `attr->socket`: the socket-specific part of a stream attribute. */
  datatype SocketAttr = SocketAttr(
    linger: U64,
    recvBufSize: U64,
    sendBufSize: U64,
    receiveTimeoutUs: U64,
    sendTimeoutUs: U64,
    reuseaddr: bool,
    keepalive: bool,
    tcpCork: bool,
    tcpNodelay: bool,
    ipv6V6only: bool)

  /** `PAL_STREAM_ATTR`, restricted to the fields the socket code reads or
      writes; the others are zero in every record this layer produces. */
  datatype StreamAttr = StreamAttr(
    handleType: PalType,
    nonblocking: bool,
    pendingSize: U64,
    socket: SocketAttr)
}
