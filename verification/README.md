# Easysetup HTTP socket layer, modelled in Dafny

The device's local provisioning ("easysetup") HTTP server runs over a small
transport layer. It keeps one connection handle, `HTTP_CONN_H`. The handle
holds a listening descriptor `listen_sock` and an accepted client descriptor
`accept_sock`. Each of them is either a real descriptor or the sentinel
`CONN_HANDLE_UNINITIALIZED`. The layer has these operations:

- `http_initialize_connection` opens the listener on port 8888 with backlog 1.
- `http_accept_connection` takes one client.
- `http_try_configure_connection` applies five best-effort TCP tunings to the client.
- `http_send_data` and `http_recv_data` move bytes.
- `http_cleanup_accepted_connection` and `http_cleanup_all_connection` tear down.

The model has four modules.

- `Kernel` (kernel.dfy) is the operating system as an abstract oracle. Each
  call (socket, setsockopt, bind, listen, accept, send, recv, close) is
  recorded in a ghost log. Socket, bind, listen, accept, send and recv records
  carry the kernel's answer; setsockopt and close records carry none, because
  the code never acts on a setsockopt answer and ignores close's. A ghost set holds the open
  descriptors. `Apply` and `Replay` compute that set from the log.
  `ClosesOnlyOpen` says that every close in a log names a descriptor that is
  open at that point. The class `Os` holds the oracle's contracts. Any
  socket-level call may fail, and a descriptor handed out is never one that is
  already open. The HTTP layer is verified against these contracts only; the
  method bodies are just one kernel that meets them.
- `HttpConn` (http_conn.dfy) has the handle as a value and one function per
  operation. Each function takes the kernel's answers as parameters and returns
  a `Step`: the new handle, the calls made in order, and the result. The
  sentinel is −1. `Owns(h, open)` is the ownership invariant: the open
  descriptors are exactly the ones the handle holds (none, one or two), and,
  when it holds both, they are distinct.
- `HttpSession` (http_session.dfy) states properties across operations.
  - The lifecycle is idle, listening, connected, plus a client without a
    listener, which the code permits.
  - Each operation does a known thing to the open descriptors.
  - Leaks happen when the caller breaks the lifecycle.
  - `SessionSafety` is proved by induction over any run of operations. The run
    must initialize only an idle handle and accept only while no client is
    held. Such a run never closes a descriptor twice, never closes one it does
    not hold, and ends holding exactly the open descriptors, so nothing leaks.
- `HttpSocket` (http_socket.dfy) has the C functions as methods.
  - A handle passed by pointer is a `ConnHandle?`, and NULL is `null`.
  - A handle passed by value is a `Handle`.
  - Each method's postcondition ties the new handle, the kernel's log and its
    open set to the `HttpConn` function of the same operation. The kernel
    answers the method received come back in ghost out-parameters.

Two facts about the code shape the model:
- `http_try_configure_connection` requests five client tunings
  (iot_easysetup_http_socket.c:104-132): keepalive, idle 10, interval 5,
  count 3 and no-delay.
- `http_accept_connection` does not check `listen_sock` before calling
  `accept` on it (iot_easysetup_http_socket.c:201). The model accepts on
  whatever the field holds, including the sentinel.

## Model

| member | source | states |
|---|---|---|
| HttpConn.IsInitialized | src/easysetup/http/tcp/iot_easysetup_http_socket.c:23-30 | a handle is initialized exactly when it holds two descriptors, the listener and then the client |
| HttpSession.TransferOnlyWhenConnected | src/easysetup/http/tcp/iot_easysetup_http_socket.c:23-30 | the handle is initialized exactly when neither descriptor is the sentinel (the Connected phase); only then do send, recv and the tunings reach the kernel |
| HttpConn.CleanupAll | src/easysetup/http/tcp/iot_easysetup_http_socket.c:32-50 | both fields end at the sentinel; it closes each non-sentinel descriptor once, the listener before the client, and never closes the sentinel |
| HttpSession.CleanupAllIdempotent | src/easysetup/http/tcp/iot_easysetup_http_socket.c:32-50 | a second cleanup makes no call and leaves the handle as it is |
| HttpSession.CleanupAllReleasesAll | src/easysetup/http/tcp/iot_easysetup_http_socket.c:38-49 | on a handle that owns the open descriptors, it closes only open descriptors, none twice, and leaves nothing open |
| HttpSocket.CleanupAllConnection | src/easysetup/http/tcp/iot_easysetup_http_socket.c:32-50 | NULL changes nothing; otherwise the handle, the kernel log and the open set are exactly as CleanupAll says |
| HttpConn.CleanupAccepted | src/easysetup/http/tcp/iot_easysetup_http_socket.c:52-62 | the client field ends at the sentinel and the listener is unchanged; the client is closed only when it is not the sentinel |
| HttpSession.CleanupAcceptedIdempotent | src/easysetup/http/tcp/iot_easysetup_http_socket.c:52-62 | a second client cleanup makes no call and changes nothing |
| HttpSession.CleanupAcceptedReleasesClient | src/easysetup/http/tcp/iot_easysetup_http_socket.c:57-61 | on an owning handle it closes only the open client and keeps the ownership invariant (the listener is still held and open) |
| HttpSocket.CleanupAcceptedConnection | src/easysetup/http/tcp/iot_easysetup_http_socket.c:52-62 | NULL changes nothing; otherwise the handle, log and open set are as CleanupAccepted says |
| HttpConn.Send | src/easysetup/http/tcp/iot_easysetup_http_socket.c:64-77 | -1 with no call when the handle is not initialized or there is no buffer; otherwise one send on the client descriptor, whose answer is returned unchanged; the handle is unchanged |
| HttpSocket.SendData | src/easysetup/http/tcp/iot_easysetup_http_socket.c:64-77 | behaves as Send for whatever the kernel answers, opens and closes nothing, and returns -1 or at most the requested length |
| HttpConn.RecvWindow | src/easysetup/http/tcp/iot_easysetup_http_socket.c:90 | the requested length ends exactly one byte before `rx_buffer_size` when `received_len < rx_buffer_size`; otherwise the size_t subtraction wraps: `received_len + n + 1 == rx_buffer_size + 2^32`, so the request reaches past the buffer's end |
| HttpConn.Recv | src/easysetup/http/tcp/iot_easysetup_http_socket.c:79-92 | -1 with no call when the handle is not initialized or there is no buffer; otherwise one recv at offset `received_len` for RecvWindow bytes, whose answer is returned unchanged |
| HttpSocket.RecvData | src/easysetup/http/tcp/iot_easysetup_http_socket.c:79-92 | behaves as Recv; writes only the bytes it reports, inside `[received_len, rx_buffer_size - 1)`, so the last byte is never touched |
| HttpConn.Configure | src/easysetup/http/tcp/iot_easysetup_http_socket.c:94-136 | no call when the handle is not initialized; otherwise exactly the five tunings on the client descriptor, in order and with their levels and values, whatever each one answers; the handle is unchanged |
| HttpSocket.TryConfigureConnection | src/easysetup/http/tcp/iot_easysetup_http_socket.c:94-136 | appends to the log exactly the calls Configure lists and leaves the open set alone |
| HttpSession.TransfersKeepDescriptors | src/easysetup/http/tcp/iot_easysetup_http_socket.c:64-136 | send, recv and tuning neither open nor close any descriptor |
| HttpConn.Initialize | src/easysetup/http/tcp/iot_easysetup_http_socket.c:138-188 | never InvalidArgs for a real handle; ConnectFail exactly when socket, bind or listen fails, and then both fields are the sentinel; a failing SO_REUSEADDR is not fatal; on success the listener holds the new descriptor and the client is the sentinel |
| HttpSession.InitializeClosesWhatItOpens | src/easysetup/http/tcp/iot_easysetup_http_socket.c:157-187 | every failure path closes the socket it created, so the open set is unchanged on failure and gains only the listener on success; nothing is closed twice |
| HttpSession.InitializeOnLiveHandleLeaks | src/easysetup/http/tcp/iot_easysetup_http_socket.c:154-155 | resetting the fields without closing them loses a listener the handle already held: it stays open but the handle no longer names it |
| HttpSocket.InitializeConnection | src/easysetup/http/tcp/iot_easysetup_http_socket.c:138-188 | NULL gives InvalidArgs and changes nothing; otherwise the handle, result, log and open set are as Initialize says for the answers received, and the new socket was not already open |
| HttpConn.Accept | src/easysetup/http/tcp/iot_easysetup_http_socket.c:190-207 | one accept on whatever the listener field holds; ConnectFail exactly when accept fails, and then the handle is unchanged; on success the client field holds the new descriptor and the listener is unchanged |
| HttpSession.AcceptOnConnectedHandleLeaks | src/easysetup/http/tcp/iot_easysetup_http_socket.c:205 | an accept that succeeds while a client is held overwrites it; the old client stays open but the handle no longer names it |
| HttpSocket.AcceptConnection | src/easysetup/http/tcp/iot_easysetup_http_socket.c:190-207 | NULL gives InvalidArgs and changes nothing; otherwise the handle, result, log and open set are as Accept says, and an accepted descriptor was not already open |
| HttpSession.OperationsFollowLifecycle | src/easysetup/http/tcp/iot_easysetup_http_socket.c:32-207 | every operation (initialize, accept, both cleanups, tuning, send and recv, for any kernel answer) moves the handle's phase as the lifecycle table NextPhase says |
| HttpSession.StepKeepsOwnership | src/easysetup/http/tcp/iot_easysetup_http_socket.c:32-207 | one operation that respects the lifecycle keeps the ownership invariant and closes only open descriptors |
| HttpSession.SessionSafety | src/easysetup/http/tcp/iot_easysetup_http_socket.c:32-207 | any run that respects the lifecycle, from an owning handle, never closes a descriptor twice or one it does not hold, and ends owning exactly the open descriptors |
| HttpSession.SessionEndsClean | src/easysetup/http/tcp/iot_easysetup_http_socket.c:32-50 | from an idle handle with nothing open, any such run followed by a full cleanup leaves nothing open and the handle idle |

## Left out

- The kernel's real socket semantics: addresses, ports in use, error numbers, TCP state. Each call is an oracle that may fail. The model assumes exactly these things of it:
  - A descriptor from socket or accept is never negative and not already open.
  - send and recv answer -1 or a count between 0 and the requested length.
  - recv writes only the bytes it reports, at the offset it was given.
  - Only socket and accept open a descriptor, and only close closes one.

  SendData's bound on its result rests on the second point. RecvData's bound and its write frame rest on the second and third. Accept on the sentinel listener is not forced to fail.
- Address and byte-order setup (`htonl`, `htons`, `INADDR_ANY`, `AF_INET`, `SOCK_STREAM`). The bind call records only the port.
- The answer to `SO_REUSEADDR` and to the five tunings. The code only logs these answers, so they do not appear in the log.
- Logging and diagnostics (`IOT_INFO`, `IOT_ERROR`, `IOT_ES_DUMP`, `errno`). They do not affect control flow.
- Blocking in accept and recv, and unblocking them by closing a socket from another context. Both are concurrency concerns.
- The bytes sent and received. This layer never inspects them. The model only tracks which buffer positions recv may write.
- TCP keepalive timing and Nagle's algorithm. The model records which options and values are requested.
- The sentinel's value. It is defined in a header that is not part of this model. It is taken to be −1, and any negative value gives the same results.
- The values of `iot_error_t`. They are modelled as three named constructors.
- The width of `size_t`. It is taken to be 32 bits, as on the embedded targets. On a 64-bit host the wrap in RecvWindow happens the same way, at 2^64.
- HttpSocket.SendData: does not model the conversion of send's `ssize_t` answer to `int` (`len` at :66). An answer above 2^31 − 1 would not survive that conversion.
- HttpSocket.RecvData: does not model the conversion of recv's `ssize_t` answer to `int` (`len` at :81), for the same reason.
- src/include/caps/iot_caps_helper_tvocMeasurement.h: a static capability table with no behaviour.
