/**
 The functions of src/easysetup/http/tcp/iot_easysetup_http_socket.c as
 methods. A handle that the C code takes by pointer is a ConnHandle? (NULL
 is `null`) whose fields the methods update; a handle taken by value is a
 Handle. Each method is proved to do what the matching HttpConn function
 says, for whatever the kernel answers; the answers it got come back in
 ghost out-parameters.
 */
module HttpSocket {
  import opened Kernel
  import opened HttpConn

  /** HTTP_CONN_H as the caller's object. */
  class ConnHandle {
    var listenSock: int
    var acceptSock: int

    /** The handle's value, as passed to the by-value operations. */
    function Value(): Handle
      reads this
    {
      Handle(listenSock, acceptSock)
    }
  }

  /** http_cleanup_all_connection */
  method CleanupAllConnection(handle: ConnHandle?, os: Os)
    requires os.Valid()
    modifies handle, os
    ensures os.Valid()
    ensures handle == null ==> os.log == old(os.log) && os.open == old(os.open)
    ensures handle != null ==>
              var s := CleanupAll(old(handle.Value()));
              handle.Value() == s.h &&
              os.log == old(os.log) + s.calls &&
              os.open == Replay(old(os.open), s.calls)
  {
    if handle == null {
      return;
    }
    ghost var open0 := os.open;
    ghost var calls: seq<Call> := [];

    if handle.listenSock != Uninitialized {
      os.Close(handle.listenSock);
      ReplaySnoc(open0, calls, Call.Close(handle.listenSock));
      calls := calls + [Call.Close(handle.listenSock)];
      handle.listenSock := Uninitialized;
    }

    if handle.acceptSock != Uninitialized {
      os.Close(handle.acceptSock);
      ReplaySnoc(open0, calls, Call.Close(handle.acceptSock));
      calls := calls + [Call.Close(handle.acceptSock)];
      handle.acceptSock := Uninitialized;
    }
    assert calls == CleanupAll(old(handle.Value())).calls;
  }

  /** http_cleanup_accepted_connection */
  method CleanupAcceptedConnection(handle: ConnHandle?, os: Os)
    requires os.Valid()
    modifies handle, os
    ensures os.Valid()
    ensures handle == null ==> os.log == old(os.log) && os.open == old(os.open)
    ensures handle != null ==>
              var s := CleanupAccepted(old(handle.Value()));
              handle.Value() == s.h &&
              os.log == old(os.log) + s.calls &&
              os.open == Replay(old(os.open), s.calls)
  {
    if handle == null {
      return;
    }
    if handle.acceptSock != Uninitialized {
      os.Close(handle.acceptSock);
      ReplaySnoc(old(os.open), [], Call.Close(handle.acceptSock));
      handle.acceptSock := Uninitialized;
    }
  }

  /** http_send_data: the handle is taken by value and never changed. */
  method SendData(handle: Handle, tx: array?<bv8>, txLen: SizeT, os: Os) returns (len: int, ghost reply: int)
    requires os.Valid()
    requires IsInitialized(handle) && tx != null ==> txLen <= tx.Length
    modifies os
    ensures os.Valid()
    ensures var s := HttpConn.Send(handle, tx != null, txLen, reply);
            len == s.result && os.log == old(os.log) + s.calls && os.open == old(os.open)
    ensures len == -1 || 0 <= len <= txLen
  {
    reply := -1;
    if !IsInitialized(handle) {
      return -1, reply;
    }
    if tx == null {
      return -1, reply;
    }
    len := os.Send(handle.acceptSock, tx, txLen);
    reply := len;
  }

  /** http_recv_data: the handle is taken by value and never changed. The
      caller must leave at least one byte of room (`received_len <
      rx_buffer_size`), otherwise the length computed in size_t wraps. */
  method RecvData(handle: Handle, rx: array?<bv8>, size: SizeT, received: SizeT, os: Os)
    returns (len: int, ghost reply: int)
    requires os.Valid()
    requires IsInitialized(handle) && rx != null ==> received < size <= rx.Length
    modifies os, rx
    ensures os.Valid()
    ensures var s := HttpConn.Recv(handle, rx != null, size, received, reply);
            len == s.result && os.log == old(os.log) + s.calls && os.open == old(os.open)
    ensures len == -1 || (IsInitialized(handle) && rx != null && 0 <= len && received + len + 1 <= size)
    ensures rx != null ==>
              forall i :: 0 <= i < rx.Length && !(received <= i < received + len) ==> rx[i] == old(rx[i])
  {
    reply := -1;
    if !IsInitialized(handle) {
      return -1, reply;
    }
    if rx == null {
      return -1, reply;
    }
    len := os.Recv(handle.acceptSock, rx, received, RecvWindow(size, received));
    reply := len;
  }

  /** http_try_configure_connection: five best-effort tunings of the client
      descriptor; a failing one is only logged and the next is still tried. */
  method TryConfigureConnection(handle: Handle, os: Os)
    requires os.Valid()
    modifies os
    ensures os.Valid()
    ensures os.log == old(os.log) + Configure(handle).calls && os.open == old(os.open)
  {
    if !IsInitialized(handle) {
      return;
    }
    var keepAlive := 1;
    var ret := os.SetSockOpt(handle.acceptSock, SolSocket, KeepAlive, keepAlive);

    var idle := 10;
    ret := os.SetSockOpt(handle.acceptSock, IpprotoTcp, KeepIdle, idle);

    var interval := 5;
    ret := os.SetSockOpt(handle.acceptSock, IpprotoTcp, KeepInterval, interval);

    var maxProbes := 3;
    ret := os.SetSockOpt(handle.acceptSock, IpprotoTcp, KeepCount, maxProbes);

    var noDelay := 1;
    ret := os.SetSockOpt(handle.acceptSock, IpprotoTcp, NoDelay, noDelay);
  }

  /** http_initialize_connection */
  method InitializeConnection(handle: ConnHandle?, os: Os) returns (err: IotError, ghost rep: InitReplies)
    requires os.Valid()
    modifies handle, os
    ensures os.Valid()
    ensures handle == null ==> err == ErrorInvalidArgs && os.log == old(os.log) && os.open == old(os.open)
    ensures handle != null ==>
              var s := Initialize(rep);
              handle.Value() == s.h && err == s.result &&
              os.log == old(os.log) + s.calls &&
              os.open == Replay(old(os.open), s.calls)
    ensures handle != null && rep.socket >= 0 ==> rep.socket !in old(os.open)
  {
    rep := InitReplies(0, 0, 0);
    if handle == null {
      return ErrorInvalidArgs, rep;
    }

    handle.listenSock := Uninitialized;
    handle.acceptSock := Uninitialized;

    ghost var open0 := os.open;
    var listenSock := os.Socket();
    ReplaySnoc(open0, [], Call.Socket(listenSock));
    ghost var calls := [Call.Socket(listenSock)];
    if listenSock < 0 {
      rep := InitReplies(listenSock, 0, 0);
      return ErrorConnectFail, rep;
    }

    var ret := os.SetSockOpt(listenSock, SolSocket, ReuseAddr, 1);
    ReplaySnoc(open0, calls, Call.SetSockOpt(listenSock, SolSocket, ReuseAddr, 1));
    calls := calls + [Call.SetSockOpt(listenSock, SolSocket, ReuseAddr, 1)];

    ret := os.Bind(listenSock, HttpPort);
    ReplaySnoc(open0, calls, Call.Bind(listenSock, HttpPort, ret));
    calls := calls + [Call.Bind(listenSock, HttpPort, ret)];
    assert calls == [Call.Socket(listenSock), Call.SetSockOpt(listenSock, SolSocket, ReuseAddr, 1),
                     Call.Bind(listenSock, HttpPort, ret)];
    if ret != 0 {
      os.Close(listenSock);
      ReplaySnoc(open0, calls, Call.Close(listenSock));
      rep := InitReplies(listenSock, ret, 0);
      assert calls + [Call.Close(listenSock)] == Initialize(rep).calls;
      return ErrorConnectFail, rep;
    }

    ret := os.Listen(listenSock, ListenBacklog);
    ReplaySnoc(open0, calls, Call.Listen(listenSock, ListenBacklog, ret));
    calls := calls + [Call.Listen(listenSock, ListenBacklog, ret)];
    if ret != 0 {
      os.Close(listenSock);
      ReplaySnoc(open0, calls, Call.Close(listenSock));
      rep := InitReplies(listenSock, 0, ret);
      assert calls + [Call.Close(listenSock)] == Initialize(rep).calls;
      return ErrorConnectFail, rep;
    }

    handle.listenSock := listenSock;
    rep := InitReplies(listenSock, 0, 0);
    assert calls == Initialize(rep).calls;
    return ErrorNone, rep;
  }

  /** http_accept_connection: accepts on the listener field without checking it. */
  method AcceptConnection(handle: ConnHandle?, os: Os) returns (err: IotError, ghost reply: int)
    requires os.Valid()
    modifies handle, os
    ensures os.Valid()
    ensures handle == null ==> err == ErrorInvalidArgs && os.log == old(os.log) && os.open == old(os.open)
    ensures handle != null ==>
              var s := HttpConn.Accept(old(handle.Value()), reply);
              handle.Value() == s.h && err == s.result &&
              os.log == old(os.log) + s.calls &&
              os.open == Replay(old(os.open), s.calls)
    ensures handle != null && reply >= 0 ==> reply !in old(os.open)
  {
    reply := -1;
    if handle == null {
      return ErrorInvalidArgs, reply;
    }

    var sock := os.Accept(handle.listenSock);
    ReplaySnoc(old(os.open), [], Call.Accept(handle.listenSock, sock));
    reply := sock;
    if sock < 0 {
      return ErrorConnectFail, reply;
    }
    handle.acceptSock := sock;
    return ErrorNone, reply;
  }
}
