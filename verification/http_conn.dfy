/**
 The connection handle of the easysetup HTTP server and, as functions, what
 each operation on it does: the handle it leaves, the system calls it makes
 (in order, with the answers it got) and what it returns.

 The operations depend on the kernel only through its answers, so each
 function takes those answers as parameters. The methods in HttpSocket are
 proved to behave as these functions say, for whatever the kernel answers.
 */
module HttpConn {
  import opened Kernel

  /** The sentinel for "no descriptor". Its value lives in a header that is
      not part of this model; any negative value works, because descriptors
      are never negative. */
  const Uninitialized: int := -1

  /** The fixed port the listener binds to, and the listen backlog. */
  const HttpPort: int := 8888
  const ListenBacklog: int := 1

  /** The width of size_t: 32 bits on the embedded targets. */
  const SizeModulus: int := 0x1_0000_0000
  type SizeT = n: int | 0 <= n < SizeModulus

  /** HTTP_CONN_H: the listening descriptor and the accepted client's. */
  datatype Handle = Handle(listenSock: int, acceptSock: int)

  /** A handle with both descriptors at the sentinel. */
  const Unset := Handle(Uninitialized, Uninitialized)

  /** The iot_error_t values these operations return. */
  datatype IotError = ErrorNone | ErrorInvalidArgs | ErrorConnectFail

  /** What an operation did: the handle it leaves, the calls it made, and
      what it returns. */
  datatype Step<R> = Step(h: Handle, calls: seq<Call>, result: R)

  /** The descriptors a handle holds, listener first. */
  function Live(h: Handle): seq<int>
  {
    (if h.listenSock != Uninitialized then [h.listenSock] else []) +
    (if h.acceptSock != Uninitialized then [h.acceptSock] else [])
  }

  /** is_http_conn_handle_initialized: neither descriptor is the sentinel,
      that is, the handle holds both a listener and a client. */
  function IsInitialized(h: Handle): (b: bool)
    ensures b <==> |Live(h)| == 2
    ensures b ==> Live(h) == [h.listenSock, h.acceptSock]
  {
    h.acceptSock != Uninitialized && h.listenSock != Uninitialized
  }

  /** The same descriptors, as a set. */
  function Descriptors(h: Handle): (ds: set<int>)
    ensures forall fd :: fd in ds <==> fd in Live(h)
  {
    (if h.listenSock != Uninitialized then {h.listenSock} else {}) +
    (if h.acceptSock != Uninitialized then {h.acceptSock} else {})
  }

  /** The ownership invariant: the open descriptors are exactly those the
      handle holds (nothing leaked), and the two are not one descriptor. */
  ghost predicate Owns(h: Handle, open: set<int>)
  {
    open == Descriptors(h) &&
    (IsInitialized(h) ==> h.listenSock != h.acceptSock)
  }

  /** http_cleanup_all_connection on a non-NULL handle: closes the listener,
      then the client, each only when it is not the sentinel. */
  function CleanupAll(h: Handle): (s: Step<()>)
    ensures s.h == Unset
    ensures |s.calls| == |Live(h)|
    ensures forall i :: 0 <= i < |s.calls| ==> s.calls[i] == Call.Close(Live(h)[i])
    ensures Call.Close(Uninitialized) !in s.calls
  {
    var afterListen :=
      if h.listenSock != Uninitialized then [Call.Close(h.listenSock)] else [];
    var afterAccept :=
      if h.acceptSock != Uninitialized then [Call.Close(h.acceptSock)] else [];
    Step(Unset, afterListen + afterAccept, ())
  }

  /** http_cleanup_accepted_connection on a non-NULL handle: closes the
      client only when it is not the sentinel; the listener is kept. */
  function CleanupAccepted(h: Handle): (s: Step<()>)
    ensures s.h == Handle(h.listenSock, Uninitialized)
    ensures s.calls == if h.acceptSock == Uninitialized then [] else [Call.Close(h.acceptSock)]
    ensures Call.Close(Uninitialized) !in s.calls
  {
    if h.acceptSock != Uninitialized then
      Step(Handle(h.listenSock, Uninitialized), [Call.Close(h.acceptSock)], ())
    else
      Step(h, [], ())
  }

  /** http_send_data: -1 without a call when the handle is not initialized
      or there is no buffer; otherwise send's answer, unchanged. */
  function Send(h: Handle, hasBuffer: bool, len: SizeT, reply: int): (s: Step<int>)
    ensures s.h == h
    ensures !IsInitialized(h) || !hasBuffer ==> s.result == -1 && s.calls == []
    ensures IsInitialized(h) && hasBuffer ==>
              s.calls == [Call.Send(h.acceptSock, len, reply)] && s.result == reply
  {
    if !IsInitialized(h) then Step(h, [], -1)
    else if !hasBuffer then Step(h, [], -1)
    else Step(h, [Call.Send(h.acceptSock, len, reply)], reply)
  }

  /** The length http_recv_data asks recv for, `rx_buffer_size - received_len - 1`
      computed in size_t. When something is left to receive it ends one byte
      short of the buffer's end; otherwise the subtraction wraps by one
      SizeModulus and the request runs past the end. */
  function RecvWindow(size: SizeT, received: SizeT): (n: SizeT)
    ensures received < size ==> received + n + 1 == size
    ensures size <= received ==> received + n + 1 == size + SizeModulus
  {
    (size - received - 1) % SizeModulus
  }

  /** http_recv_data: -1 without a call when the handle is not initialized
      or there is no buffer; otherwise recv's answer for the window that
      starts at `received` and stops short of the last byte. */
  function Recv(h: Handle, hasBuffer: bool, size: SizeT, received: SizeT, reply: int): (s: Step<int>)
    ensures s.h == h
    ensures !IsInitialized(h) || !hasBuffer ==> s.result == -1 && s.calls == []
    ensures IsInitialized(h) && hasBuffer ==>
              s.calls == [Call.Recv(h.acceptSock, received, RecvWindow(size, received), reply)] &&
              s.result == reply
  {
    if !IsInitialized(h) then Step(h, [], -1)
    else if !hasBuffer then Step(h, [], -1)
    else Step(h, [Call.Recv(h.acceptSock, received, RecvWindow(size, received), reply)], reply)
  }

  /** The five client tunings, in the order they are requested. */
  const TunedOptions: seq<SockOpt> := [KeepAlive, KeepIdle, KeepInterval, KeepCount, NoDelay]

  /** The value requested for each tuning: keepalive on, 10 s idle before the
      first probe, 5 s between probes, 3 probes, Nagle's algorithm off. */
  function TunedValue(opt: SockOpt): int
  {
    match opt
    case KeepAlive => 1
    case KeepIdle => 10
    case KeepInterval => 5
    case KeepCount => 3
    case NoDelay => 1
    case ReuseAddr => 1
  }

  function LevelOf(opt: SockOpt): Level
  {
    if opt == KeepAlive || opt == ReuseAddr then SolSocket else IpprotoTcp
  }

  /** http_try_configure_connection: nothing when the handle is not
      initialized; otherwise all five tunings on the client descriptor, in
      order. Their answers are only logged, so they do not appear here. */
  function Configure(h: Handle): (s: Step<()>)
    ensures s.h == h
    ensures !IsInitialized(h) ==> s.calls == []
    ensures IsInitialized(h) ==>
              |s.calls| == |TunedOptions| &&
              forall i :: 0 <= i < |s.calls| ==>
                s.calls[i] == Call.SetSockOpt(h.acceptSock, LevelOf(TunedOptions[i]),
                                              TunedOptions[i], TunedValue(TunedOptions[i]))
  {
    if !IsInitialized(h) then Step(h, [], ())
    else
      var fd := h.acceptSock;
      Step(h, [Call.SetSockOpt(fd, SolSocket, KeepAlive, 1),
               Call.SetSockOpt(fd, IpprotoTcp, KeepIdle, 10),
               Call.SetSockOpt(fd, IpprotoTcp, KeepInterval, 5),
               Call.SetSockOpt(fd, IpprotoTcp, KeepCount, 3),
               Call.SetSockOpt(fd, IpprotoTcp, NoDelay, 1)], ())
  }

  /** The kernel's answers to http_initialize_connection's calls. An answer
      to a call that is never made is ignored. */
  datatype InitReplies = InitReplies(socket: int, bind: int, listen: int)

  /** http_initialize_connection on a non-NULL handle. Both descriptors are
      reset to the sentinel first. A negative socket answer, or a non-zero
      bind or listen answer, fails with ErrorConnectFail after closing the
      new socket; a failing SO_REUSEADDR is not fatal. */
  function Initialize(rep: InitReplies): (s: Step<IotError>)
    ensures s.result != ErrorInvalidArgs
    ensures s.result == ErrorConnectFail <==> rep.socket < 0 || rep.bind != 0 || rep.listen != 0
    ensures s.result == ErrorConnectFail ==> s.h == Unset
    ensures s.result == ErrorNone ==> s.h == Handle(rep.socket, Uninitialized) && rep.socket >= 0
    ensures s.calls != [] && s.calls[0] == Call.Socket(rep.socket)
  {
    var fd := rep.socket;
    if fd < 0 then
      Step(Unset, [Call.Socket(fd)], ErrorConnectFail)
    else
      var prepared := [Call.Socket(fd), Call.SetSockOpt(fd, SolSocket, ReuseAddr, 1),
                       Call.Bind(fd, HttpPort, rep.bind)];
      if rep.bind != 0 then
        Step(Unset, prepared + [Call.Close(fd)], ErrorConnectFail)
      else if rep.listen != 0 then
        Step(Unset, prepared + [Call.Listen(fd, ListenBacklog, rep.listen), Call.Close(fd)], ErrorConnectFail)
      else
        Step(Handle(fd, Uninitialized), prepared + [Call.Listen(fd, ListenBacklog, rep.listen)], ErrorNone)
  }

  /** http_accept_connection on a non-NULL handle: accepts on whatever the
      listener field holds (it is not checked); a negative answer fails with
      ErrorConnectFail and changes nothing, otherwise the new descriptor
      replaces the client field. */
  function Accept(h: Handle, reply: int): (s: Step<IotError>)
    ensures s.calls == [Call.Accept(h.listenSock, reply)]
    ensures s.result != ErrorInvalidArgs
    ensures s.result == ErrorConnectFail <==> reply < 0
    ensures s.result == ErrorConnectFail ==> s.h == h
    ensures s.result == ErrorNone ==> s.h == Handle(h.listenSock, reply)
  {
    if reply < 0 then Step(h, [Call.Accept(h.listenSock, reply)], ErrorConnectFail)
    else Step(Handle(h.listenSock, reply), [Call.Accept(h.listenSock, reply)], ErrorNone)
  }
}
