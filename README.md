# Gramine socket handles: the SGX host backend and the LibOS socket file operations

This project models two layers of Gramine's socket support and proves properties of them.

- **The SGX PAL socket backend** (`Pal/src/host/Linux-SGX/db_sockets.c`). A PAL socket
  handle holds a host descriptor, a domain (IPv4 or IPv6), two operation tables (TCP or
  UDP) and a cache of socket options. Everything the enclave asks of the untrusted host
  goes through an `ocall_*`. The model makes the host an oracle, the class
  `SgxSockets.Host`:
  - it keeps the list of calls issued so far;
  - the `k`-th call `c` gets the fixed answer `answer(k, c)`, so any sequence of host
    successes and failures is a possible run.

  For each operation the model states which host calls it issues, in which order, and
  what it returns for every host answer. That covers creation, bind, listen, accept,
  connect, send, recv, shutdown, close, the attribute query and the attribute setters,
  and checkpoint serialisation.

  The attribute setters `attrsetbyhdl_common`, `attrsetbyhdl_tcp` and `attrsetbyhdl_udp`
  are specified by a walk over an ordered list of option fields (`SgxAttrSet.Run`). At
  each field the walk works like this:
  - a field whose cached value already equals the request is skipped without a host call;
  - otherwise one `setsockopt` (or the nonblocking call) is issued;
  - the cache is updated only if that call succeeds;
  - the first failure ends the walk.

  The imperative methods of `SgxHandle.PalSocket` are proved equal to that walk. The
  lemmas about the walk then show:
  - only requested values are ever written;
  - calls are issued only for fields that differ;
  - a success commits every field;
  - a failure leaves a prefix committed;
  - setting back what was just queried issues nothing, through the TCP and the UDP setter;
  - on TCP, setting the same attributes twice issues nothing the second time, and a query
    after a successful set reports everything that was set;
  - on UDP, a query after a successful set reports the requested blocking mode and common
    options. The UDP setter never visits `tcp_cork` and `tcp_nodelay`: it succeeds and
    those two keep their old cached values, even if the request asked for others.
- **The control-message macros and constants of `linux_types.h`.** `CMSG_ALIGN`,
  `CMSG_SPACE` and `CMSG_LEN` are modelled in 64-bit `size_t` arithmetic, including
  wrap-around. `CMSG_FIRSTHDR` and `CMSG_DATA` are modelled on addresses as unbounded
  numbers.
- **The LibOS generic socket file operations** (`LibOS/shim/src/fs/socket/fs.c`),
  modelled as the class `ShimSocketFs.ShimSock`. These are close, read/write,
  readv/writev, hstat, setflags, checkout and checkin, with `do_recvmsg`/`do_sendmsg`,
  the PAL attribute calls and lock creation as oracles.

Files:
- `pal_types.dfy`: the shared PAL types.
- `linux_types.dfy`: the Linux constants and CMSG arithmetic.
- `sgx_sockets.dfy`: the pure helpers of the SGX backend and the host oracle.
- `sgx_attrs.dfy`: the specification of the attribute setters and its lemmas.
- `sgx_handle.dfy`: the PAL socket handle class and its operations.
- `shim_socket_fs.dfy`: the LibOS socket file operations.

`checkout` calls `clear_lock` (`fs.c:113`), which forgets the lock without destroying it.
`ShimSocketFs.ShimSock.Checkout` therefore sets `lockCreated` to false and adds nothing to
a teardown list.

## Model

| member | source | states |
|---|---|---|
| PalTypes.UnixToPal | Pal/src/host/Linux-SGX/db_sockets.c:220-224 | A host return value is success exactly when it is non-negative; a negative one fails with that value's translation. |
| LinuxTypes.CmsgAlign | Pal/src/host/Linux-SGX/linux_types.h:107 | The result is a multiple of 8. Without wrap-around it is the least multiple of 8 that is at least `len`; when `len + 7` wraps it is 0. |
| LinuxTypes.CmsgLen | Pal/src/host/Linux-SGX/linux_types.h:109 | The aligned header is 16 bytes, so `CMSG_LEN(len)` is `16 + len` whenever that does not wrap. |
| LinuxTypes.CmsgSpace | Pal/src/host/Linux-SGX/linux_types.h:108 | `CMSG_SPACE(len)` is always a multiple of 8, even after wrap-around. |
| LinuxTypes.CmsgFirstHdr | Pal/src/host/Linux-SGX/linux_types.h:103-106 | The first header is either NULL or the control buffer itself. |
| LinuxTypes.CmsgData | Pal/src/host/Linux-SGX/linux_types.h:101 | The data starts exactly `sizeof(struct cmsghdr)` = 16 bytes after the header. |
| LinuxTypes.CmsgSpaceCoversLen | Pal/src/host/Linux-SGX/linux_types.h:107-109 | When nothing wraps, that is when `len + 23` fits in `size_t`, `CMSG_LEN(len) <= CMSG_SPACE(len) < CMSG_LEN(len) + 8`. |
| LinuxTypes.FirstHdrNullIff | Pal/src/host/Linux-SGX/linux_types.h:103-106 | `CMSG_FIRSTHDR` is NULL if and only if the control buffer is NULL or shorter than one header; otherwise it is the buffer. |
| LinuxTypes.FirstHdrDataInsideBuffer | Pal/src/host/Linux-SGX/linux_types.h:101-109 | In a buffer of at least `16 + len` bytes, the data of the first header starts 16 bytes in and its `len` bytes end at `CMSG_LEN(len)`, inside the buffer. |
| LinuxTypes.ConstantsDistinct | Pal/src/host/Linux-SGX/linux_types.h:47-89 | The three address families are distinct and the shutdown modes are 0, 1 and 2. The stream and datagram types differ in the type bits, and the nonblocking and close-on-exec flags lie outside those bits and do not overlap. |
| SgxSockets.Provides | Pal/src/host/Linux-SGX/db_sockets.c:546-560 | The TCP table provides every socket operation; the UDP table provides all but listen and accept. |
| SgxSockets.SanitizeSize | Pal/src/host/Linux-SGX/db_sockets.c:24-30 | The result never exceeds 2^47. It equals the input exactly when the input is at most 2^47, and is 0 otherwise. |
| SgxSockets.PendingSize | Pal/src/host/Linux-SGX/db_sockets.c:300-301 | A failed FIONREAD reports 0, a sane count reports itself and an insane count reports 0. |
| SgxSockets.VerifyIpAddr | Pal/src/host/Linux-SGX/db_sockets.c:32-58 | A host address is accepted if and only if its family is the domain's and its length is exactly the size of the domain's structure. Every rejection, including a length too short for a family, is DENIED. |
| SgxSockets.CreateArgs | Pal/src/host/Linux-SGX/db_sockets.c:122-158 | socket(2) receives the domain's family and the matching stream or datagram type. Close-on-exec is always set, nonblocking is set exactly when requested, and no other bit is set. The operation tables match the type. |
| SgxSockets.AcceptFlags | Pal/src/host/Linux-SGX/db_sockets.c:232-233 | accept4(2) flags always contain close-on-exec, contain nonblocking exactly when requested, and nothing else. |
| SgxSockets.UsToTimeval | Pal/src/host/Linux-SGX/db_sockets.c:373-395 | The `timeval` built from a microsecond timeout denotes exactly that many microseconds, with fewer than 10^6 in the microsecond part. |
| SgxSockets.ShutdownHow | Pal/src/host/Linux-SGX/db_sockets.c:519-533 | Each known delete mode maps to its own shutdown direction (all to SHUT_RDWR, read to SHUT_RD, write to SHUT_WR), in both directions; an unknown mode is INVAL. |
| SgxSockets.DeserializeOps | Pal/src/host/Linux-SGX/db_sockets.c:589-602 | The deserialised handle-ops table always belongs to the deserialised socket-ops table. |
| SgxSockets.SerializeOps | Pal/src/host/Linux-SGX/db_sockets.c:577-587 | Serialising gives one byte, and deserialising it restores the same tables. |
| SgxSockets.SerializeOpsInjective | Pal/src/host/Linux-SGX/db_sockets.c:577-602 | TCP serialises to "a" and UDP to "b", so serialisation distinguishes the tables. |
| SgxAttrSet.CommitGet | Pal/src/host/Linux-SGX/db_sockets.c:326-422 | Committing one option sets that option to the requested value and keeps every other cached option. |
| SgxAttrSet.RequestInjective | Pal/src/host/Linux-SGX/db_sockets.c:326-449 | Each option block has its own host call, so the call identifies the option. |
| SgxAttrSet.SetCommon | Pal/src/host/Linux-SGX/db_sockets.c:320-324 | A non-socket attribute record is INVAL, with the cache untouched and no host call. |
| SgxAttrSet.StepFacts | Pal/src/host/Linux-SGX/db_sockets.c:326-422 | One option block touches only its own option, and only to the requested value. It issues its call only when the cached value differs, and commits exactly when that call succeeds. A differing linger or buffer size above `INT_MAX` is INVAL with no call and no change. |
| SgxAttrSet.RunOkStartedOk | Pal/src/host/Linux-SGX/db_sockets.c:320-425 | A walk that ends in success started in success. |
| SgxAttrSet.RunKeepsUnvisited | Pal/src/host/Linux-SGX/db_sockets.c:320-452 | An option the walk does not visit keeps its cached value. |
| SgxAttrSet.RunExtendsIssued | Pal/src/host/Linux-SGX/db_sockets.c:320-452 | The walk only appends host calls, at most one per visited option. |
| SgxAttrSet.RunIssuesOnlyForDiffering | Pal/src/host/Linux-SGX/db_sockets.c:326-449 | Every host call issued is the update of a visited option whose cached value differed from the request. |
| SgxAttrSet.RunChangesOnlyToRequested | Pal/src/host/Linux-SGX/db_sockets.c:326-449 | A cached option that changed now holds the requested value, and the host call that updated it was issued and succeeded. |
| SgxAttrSet.RunSuccessCommitsAll | Pal/src/host/Linux-SGX/db_sockets.c:320-452 | A walk that succeeds leaves every visited option holding the requested value. |
| SgxAttrSet.RunNoopWhenSatisfied | Pal/src/host/Linux-SGX/db_sockets.c:326-449 | When every option already holds its requested value, the walk issues no call and succeeds. |
| SgxAttrSet.RunFailureIsPrefix | Pal/src/host/Linux-SGX/db_sockets.c:320-425 | A failed walk stopped at some option `k`. Every option before `k` holds the requested value, and `k` and every later option keep their old values. |
| SgxAttrSet.RunAppend | Pal/src/host/Linux-SGX/db_sockets.c:427-452 | Walking over `xs + ys` is walking over `xs`, then, if that succeeded, over `ys`. |
| SgxAttrSet.CommonFieldsDistinct | Pal/src/host/Linux-SGX/db_sockets.c:320-452 | The common options are visited once each, and the two TCP options are not among them. |
| SgxAttrSet.SetCommonChangesOnlyToRequested | Pal/src/host/Linux-SGX/db_sockets.c:320-425 | The common setter changes an option only to the requested value, and never touches `tcp_cork` or `tcp_nodelay`. |
| SgxAttrSet.SetCommonIssuesOnlyForDiffering | Pal/src/host/Linux-SGX/db_sockets.c:320-425 | The common setter issues host calls only for common options whose cached value differed. |
| SgxAttrSet.SetCommonOutcome | Pal/src/host/Linux-SGX/db_sockets.c:320-425 | If the common setter succeeds, every common option holds the request; if it fails, it stopped at one option with the earlier ones committed and the later ones untouched. |
| SgxAttrSet.SetTcpSpec | Pal/src/host/Linux-SGX/db_sockets.c:427-452 | If the common part fails, the TCP setter returns that result and leaves the TCP options untouched. Otherwise it is the walk over the common and then the TCP options. When it succeeds, all of them hold the request. |
| SgxAttrSet.SetTcpIdempotent | Pal/src/host/Linux-SGX/db_sockets.c:427-452 | Repeating a successful TCP set with the same record issues no host call and changes nothing. |
| SgxAttrSet.AttrOf | Pal/src/host/Linux-SGX/db_sockets.c:292-315 | The queried record is a socket record with the given pending size, and requests exactly the cached value of every option. |
| SgxAttrSet.SetQueriedIsNoop | Pal/src/host/Linux-SGX/db_sockets.c:292-456 | Setting back the record just queried, through either the TCP or the UDP setter, issues no host call and succeeds. |
| SgxAttrSet.AttrOfSatisfied | Pal/src/host/Linux-SGX/db_sockets.c:292-315 | A cache that holds every requested value is reported back as the request: the same blocking mode and socket options. |
| SgxAttrSet.AttrOfCommonSatisfied | Pal/src/host/Linux-SGX/db_sockets.c:292-315 | A cache that holds every requested common option reports the request back, except that `tcp_cork` and `tcp_nodelay` show the values the cache had. |
| SgxAttrSet.QueryAfterSetUdp | Pal/src/host/Linux-SGX/db_sockets.c:292-456 | After a successful UDP set, a query reports the requested blocking mode and common options. `tcp_cork` and `tcp_nodelay` keep their old cached values whatever was requested. |
| SgxAttrSet.QueryAfterSet | Pal/src/host/Linux-SGX/db_sockets.c:292-452 | After a successful TCP set, a query reports exactly the blocking mode and socket options that were requested. |
| SgxHandle.PalSocket.constructor | Pal/src/host/Linux-SGX/db_sockets.c:99-117 | A new handle is readable and writable, has the given descriptor, domain and tables, and has the default buffer sizes, zero linger and timeouts, all flags off and the requested blocking mode. |
| SgxHandle.PalSocket.Close | Pal/src/host/Linux-SGX/db_sockets.c:177-184 | Closing issues exactly one host close of the descriptor and always succeeds. |
| SgxHandle.PalSocket.AttrQuery | Pal/src/host/Linux-SGX/db_sockets.c:292-315 | A query issues one FIONREAD and always succeeds. It reports the cached options and the sanitised pending size. |
| SgxHandle.PalSocket.UpdateNonblocking | Pal/src/host/Linux-SGX/db_sockets.c:326-332 | The blocking-mode block is exactly one step of the walk for that option. |
| SgxHandle.PalSocket.UpdateLinger | Pal/src/host/Linux-SGX/db_sockets.c:334-347 | The linger block is exactly one step of the walk. That step rejects a too-large value with INVAL without a call. |
| SgxHandle.PalSocket.UpdateRecvBufSize | Pal/src/host/Linux-SGX/db_sockets.c:349-359 | The receive-buffer block is exactly one step of the walk. That step rejects a value above `INT_MAX` with INVAL without a call. |
| SgxHandle.PalSocket.UpdateSendBufSize | Pal/src/host/Linux-SGX/db_sockets.c:361-371 | The send-buffer block is exactly one step of the walk. That step rejects a value above `INT_MAX` with INVAL without a call. |
| SgxHandle.PalSocket.UpdateRecvTimeout | Pal/src/host/Linux-SGX/db_sockets.c:373-383 | The receive-timeout block is exactly one step of the walk. |
| SgxHandle.PalSocket.UpdateSendTimeout | Pal/src/host/Linux-SGX/db_sockets.c:385-395 | The send-timeout block is exactly one step of the walk. |
| SgxHandle.PalSocket.UpdateKeepalive | Pal/src/host/Linux-SGX/db_sockets.c:397-404 | The keepalive block is exactly one step of the walk. |
| SgxHandle.PalSocket.UpdateReuseaddr | Pal/src/host/Linux-SGX/db_sockets.c:406-413 | The address-reuse block is exactly one step of the walk. |
| SgxHandle.PalSocket.UpdateV6only | Pal/src/host/Linux-SGX/db_sockets.c:415-422 | The IPv6-only block is exactly one step of the walk. |
| SgxHandle.PalSocket.UpdateTcpCork | Pal/src/host/Linux-SGX/db_sockets.c:433-440 | The `TCP_CORK` block is exactly one step of the walk. |
| SgxHandle.PalSocket.UpdateTcpNodelay | Pal/src/host/Linux-SGX/db_sockets.c:442-449 | The `TCP_NODELAY` block is exactly one step of the walk. |
| SgxHandle.PalSocket.AttrSetCommon | Pal/src/host/Linux-SGX/db_sockets.c:320-425 | The new cache, the host calls issued and the status are exactly those of the specification walk over the common options. The operation tables are unchanged. |
| SgxHandle.PalSocket.AttrSetTcp | Pal/src/host/Linux-SGX/db_sockets.c:427-452 | The new cache, the host calls and the status are exactly those of the TCP specification. |
| SgxHandle.PalSocket.AttrSetUdp | Pal/src/host/Linux-SGX/db_sockets.c:454-456 | The new cache, the host calls and the status are exactly those of the UDP specification, which is the common part alone. |
| SgxHandle.PalSocket.AttrSet | Pal/src/host/Linux-SGX/db_sockets.c:562-574 | The handle's table selects the TCP or the UDP setter, with its full result. |
| SgxHandle.PalSocket.DeleteTcp | Pal/src/host/Linux-SGX/db_sockets.c:519-538 | An unknown mode is INVAL with no host call. Otherwise one shutdown of the mapped direction is issued and its translated result returned. |
| SgxHandle.PalSocket.DeleteUdp | Pal/src/host/Linux-SGX/db_sockets.c:540-544 | Deleting a UDP socket succeeds. |
| SgxHandle.PalSocket.Delete | Pal/src/host/Linux-SGX/db_sockets.c:562-574 | UDP succeeds with no host call. TCP is INVAL with no call for an unknown mode, or one shutdown otherwise. |
| SgxHandle.PalSocket.Bind | Pal/src/host/Linux-SGX/db_sockets.c:186-218 | An address of another domain is INVAL with no host call. Otherwise one bind is issued and its result translated. On success a port of 0 is replaced by the port the host chose, and any other address comes back unchanged. |
| SgxHandle.PalSocket.TcpListen | Pal/src/host/Linux-SGX/db_sockets.c:220-224 | One listen with the given backlog, whose result is translated. |
| SgxHandle.PalSocket.TcpAccept | Pal/src/host/Linux-SGX/db_sockets.c:226-263 | One accept4 with the derived flags is issued. Host failure is returned as is. An allocation failure closes the new descriptor and returns NOMEM; a malformed peer address closes it and returns DENIED. Success happens exactly when none of these occur, and yields a fresh, readable and writable handle with the new descriptor, the same domain and tables, a fresh cache and the peer address if asked. |
| SgxHandle.PalSocket.Connect | Pal/src/host/Linux-SGX/db_sockets.c:265-290 | An address that is neither the disconnect address nor of the handle's domain is INVAL with no host call. Otherwise one connect is issued; the status and the local address follow the host's answer and the address check. |
| SgxHandle.PalSocket.Send | Pal/src/host/Linux-SGX/db_sockets.c:458-486 | A destination of another domain is INVAL with no host call. Otherwise one send is issued; on success the size is the number of bytes the host reports. |
| SgxHandle.PalSocket.Recv | Pal/src/host/Linux-SGX/db_sockets.c:488-517 | One receive is issued. A host failure is returned; otherwise the source address is checked when asked for. On success the size and the source address are the host's. |
| SgxHandle.PalSocket.DkSocketBind | Pal/src/host/Linux-SGX/db_sockets.c:604-610 | Dispatching bind has the same result as the backend bind. |
| SgxHandle.PalSocket.DkSocketListen | Pal/src/host/Linux-SGX/db_sockets.c:612-617 | A UDP socket is INVAL with no host call; a TCP socket listens. |
| SgxHandle.PalSocket.DkSocketAccept | Pal/src/host/Linux-SGX/db_sockets.c:619-625 | A UDP socket is INVAL with no host call. A TCP socket has the full result of the backend accept. That covers the host failure, and NOMEM or DENIED each with its close of the new descriptor. On success it covers the host calls issued, and the new handle's descriptor, readability and writability, table and fresh cache, and the peer address. |
| SgxHandle.PalSocket.DkSocketConnect | Pal/src/host/Linux-SGX/db_sockets.c:627-633 | Dispatching connect has the full result of the backend connect. |
| SgxHandle.PalSocket.DkSocketSend | Pal/src/host/Linux-SGX/db_sockets.c:635-641 | Dispatching send has the result of the backend send. |
| SgxHandle.PalSocket.DkSocketRecv | Pal/src/host/Linux-SGX/db_sockets.c:643-649 | Dispatching recv has the full result of the backend recv. |
| SgxHandle.PalSocket.Serialize | Pal/src/host/Linux-SGX/db_sockets.c:577-587 | The checkpoint of a handle is one byte, and deserialising it restores the handle's socket-ops table. |
| SgxHandle.PalSocket.Deserialize | Pal/src/host/Linux-SGX/db_sockets.c:589-602 | Restoring sets both tables from the byte, leaves them consistent and keeps the cached options. |
| SgxHandle.CreateSockHandle | Pal/src/host/Linux-SGX/db_sockets.c:60-120 | Given operation tables that belong together, allocation failure gives null. Otherwise a fresh, consistent, readable and writable handle with the given descriptor, domain, tables and blocking mode and the default cache. |
| SgxHandle.DkSocketCreate | Pal/src/host/Linux-SGX/db_sockets.c:122-175 | One socket(2) with the derived arguments is issued, and a host failure is returned translated. An allocation failure closes the new descriptor and returns NOMEM. Success gives a fresh, readable and writable handle of the requested domain and type, with the tables matching the type and nonblocking as requested. |
| ShimSocketFs.PalToUnix | LibOS/shim/src/fs/socket/fs.c:94-101 | A PAL result is success exactly when it is non-negative; a failure keeps its translation. |
| ShimSocketFs.BackendFor | LibOS/shim/src/fs/socket/fs.c:120-130 | AF_UNIX selects the UNIX backend, and exactly AF_INET and AF_INET6 select the IP backend. |
| ShimSocketFs.ShimSock.Close | LibOS/shim/src/fs/socket/fs.c:16-26 | Close returns 0. It destroys the lock exactly when one was created, and does so first. It closes the PAL handle exactly when there is one, and does nothing else. |
| ShimSocketFs.ShimSock.Read | LibOS/shim/src/fs/socket/fs.c:28-35 | `read` behaves exactly like `readv` of the one buffer. |
| ShimSocketFs.ShimSock.Write | LibOS/shim/src/fs/socket/fs.c:37-44 | `write` behaves exactly like `writev` of the one buffer. |
| ShimSocketFs.ShimSock.Hstat | LibOS/shim/src/fs/socket/fs.c:58-74 | The status record is a socket type with all nine permission bits and no other mode bit. It has one link and a page-sized block, and every other field is zero. |
| ShimSocketFs.ShimSock.SetFlags | LibOS/shim/src/fs/socket/fs.c:76-107 | Any flag other than `O_NONBLOCK`, or a missing PAL handle, gives EINVAL with no PAL call. Otherwise the attributes are queried first, and a failed query is returned translated. The attributes are set back only if the blocking mode differs; the set changes only the blocking mode, and its result is returned. A query that already matches gives 0. |
| ShimSocketFs.ShimSock.Checkout | LibOS/shim/src/fs/socket/fs.c:109-115 | Checkout detaches the backend and forgets the lock. The PAL handle stays, and the handle stays consistent. |
| ShimSocketFs.ShimSock.Checkin | LibOS/shim/src/fs/socket/fs.c:117-135 | Checkin attaches the backend the domain selects and keeps the PAL handle. The lock exists exactly when its creation succeeded, and a failure is ENOMEM. |
| ShimSocketFs.ShimSock.Migrate | LibOS/shim/src/fs/socket/fs.c:109-135 | Checkout followed by checkin restores the domain's backend and keeps the PAL handle. The lock exists again exactly when its creation succeeds, and the result is 0, or ENOMEM when creation fails. |
| ShimSocketFs.SetFlagsIdempotent | LibOS/shim/src/fs/socket/fs.c:76-107 | If a `setflags` succeeded and the PAL handle now reports the blocking mode it left, the same call again makes only the query and returns 0. |

## Left out

- Host calls (`ocall_*`) are the oracle `SgxSockets.Host`. Their bodies, and the PAL calls of the LibOS layer, are not part of this model.
- `unix_to_pal_error` and `pal_to_unix_errno` are not modelled as tables: a failure carries the raw code (`Unix(ret)`, `PalErrno(ret)`). The model assumes that a non-negative value means success.
- `pal_to_linux_sockaddr` and `linux_to_pal_sockaddr` are not modelled. A host call carries the PAL address. A host-filled address is its family plus the PAL address the conversion would give, so byte order and the address bytes are not checked.
- SgxHandle.PalSocket.TcpAccept: the assertion that the peer address has the handle's domain (`db_sockets.c:258`) is not proved, because the address conversion is not modelled.
- `pal_stream_options_t` is a set of options, since the numeric value of `PAL_OPTION_NONBLOCK` is defined in `pal.h`, which is not part of this model.
- Memory allocation (`calloc` in `create_sock_handle`) and lock creation (`create_lock` in `checkin`) are the boolean parameters `allocOk` and `lockOk`.
- Locking, concurrency and atomics are left out. The atomic loads of `pal_handle` are plain reads.
- `destroy_lock` and `DkObjectClose` in LibOS `close` are not executed; they are returned as an ordered teardown list.
- `clear_lock` in `checkout` is modelled as forgetting the lock.
- `BUG()` in `checkin` (unknown domain) and in `deserialize_socket_handle` (unknown byte) is a precondition, because it is unreachable for well-formed handles.
- `do_recvmsg` and `do_sendmsg`, the bodies behind LibOS readv/writev, are function oracles. ShimSocketFs.ShimSock.Readv and ShimSocketFs.ShimSock.Writev have no row: their contract is only to forward the caller's buffers, with no address and no flags, to those oracles.
- The address-length truncation of `do_recvmsg` declared in `shim_socket.h` belongs to the family backends, which are not part of this model.
- `CMSG_FIRSTHDR` and `CMSG_DATA` work on addresses modelled as unbounded numbers, so a wrap of the pointer addition in `CMSG_DATA` is not modelled.
- `__cmsg_nxthdr` is not part of this model, and `CMSG_NXTHDR` is therefore left out.
- The disabled `getsockopt` code, logging, the thin dispatchers of `Pal/src/db_sockets.c` and `vdso.h` are not part of this model.
- The option blocks of `attrsetbyhdl_common` and `attrsetbyhdl_tcp` are written inline in the source. Here each is a method of its own (`UpdateLinger` and so on) with the same statements.
- `SgxAttrSet.Step`, `Run`, `SetTcp` and `SetUdp` are specification functions without an ensures of their own. Their properties are the lemmas listed above.
