/**
 Properties of the connection handle across operations: the lifecycle
 (idle, listening, connected), what each operation does to the kernel's open
 descriptors, and, for any run of operations that follows the lifecycle, that
 no descriptor leaks and none is closed twice.
 */
module HttpSession {
  import opened Kernel
  import opened HttpConn

  /** The lifecycle state a handle is in. ClientOnly is a client descriptor
      without a listener: accept is not refused on a sentinel listener. */
  datatype Phase = Idle | Listening | Connected | ClientOnly

  function PhaseOf(h: Handle): Phase
  {
    if h.listenSock == Uninitialized then
      (if h.acceptSock == Uninitialized then Idle else ClientOnly)
    else
      (if h.acceptSock == Uninitialized then Listening else Connected)
  }

  /** What happened to a handle. */
  datatype Event = Initialized(ok: bool) | Accepted(ok: bool) | ClientDropped | AllDropped | Used

  /** The lifecycle: initialization leads to Listening or back to Idle, a
      successful accept adds a client, dropping the client returns to the
      listener's state, dropping all returns to Idle, and sending, receiving
      or tuning changes nothing. */
  function NextPhase(p: Phase, e: Event): Phase
  {
    match e
    case Initialized(ok) => if ok then Listening else Idle
    case Accepted(ok) =>
      if !ok then p
      else if p == Idle || p == ClientOnly then ClientOnly
      else Connected
    case ClientDropped =>
      if p == Connected then Listening else if p == ClientOnly then Idle else p
    case AllDropped => Idle
    case Used => p
  }

  /** A handle is initialized exactly in the Connected phase, and send,
      receive and tuning reach the kernel exactly then. */
  lemma TransferOnlyWhenConnected(h: Handle, len: SizeT, size: SizeT, received: SizeT, reply: int)
    ensures IsInitialized(h) <==> PhaseOf(h) == Connected
    ensures HttpConn.Send(h, true, len, reply).calls != [] <==> PhaseOf(h) == Connected
    ensures HttpConn.Recv(h, true, size, received, reply).calls != [] <==> PhaseOf(h) == Connected
    ensures Configure(h).calls != [] <==> PhaseOf(h) == Connected
  {
  }

  /** Every operation moves the handle as the lifecycle says. */
  lemma OperationsFollowLifecycle(h: Handle, rep: InitReplies, reply: int,
                                  hasBuffer: bool, len: SizeT, size: SizeT, received: SizeT)
    ensures var s := Initialize(rep); PhaseOf(s.h) == NextPhase(PhaseOf(h), Initialized(s.result == ErrorNone))
    ensures var s := HttpConn.Accept(h, reply); PhaseOf(s.h) == NextPhase(PhaseOf(h), Accepted(s.result == ErrorNone))
    ensures PhaseOf(CleanupAccepted(h).h) == NextPhase(PhaseOf(h), ClientDropped)
    ensures PhaseOf(CleanupAll(h).h) == NextPhase(PhaseOf(h), AllDropped)
    ensures PhaseOf(Configure(h).h) == NextPhase(PhaseOf(h), Used)
    ensures PhaseOf(HttpConn.Send(h, hasBuffer, len, reply).h) == NextPhase(PhaseOf(h), Used)
    ensures PhaseOf(HttpConn.Recv(h, hasBuffer, size, received, reply).h) == NextPhase(PhaseOf(h), Used)
  {
  }

  /** A second http_cleanup_all_connection makes no call and changes nothing. */
  lemma CleanupAllIdempotent(h: Handle)
    ensures var s := CleanupAll(h); CleanupAll(s.h) == Step(s.h, [], ())
  {
  }

  /** A second http_cleanup_accepted_connection makes no call and changes nothing. */
  lemma CleanupAcceptedIdempotent(h: Handle)
    ensures var s := CleanupAccepted(h); CleanupAccepted(s.h) == Step(s.h, [], ())
  {
  }

  /** Closing the only open descriptor leaves nothing open. */
  lemma CloseLast(open: set<int>, x: int)
    requires open == {x}
    ensures ClosesOnlyOpen(open, [Call.Close(x)]) && Replay(open, [Call.Close(x)]) == {}
  {
    assert [Call.Close(x)][..0] == [];
  }

  /** Closing two distinct open descriptors, one after the other, leaves
      nothing open. */
  lemma CloseBoth(open: set<int>, x: int, y: int)
    requires open == {x, y} && x != y
    ensures var cs := [Call.Close(x), Call.Close(y)];
            ClosesOnlyOpen(open, cs) && Replay(open, cs) == {}
  {
    var cs := [Call.Close(x), Call.Close(y)];
    assert cs[..1] == [Call.Close(x)];
    CloseLast(open - {y}, x);
    assert [Call.Close(x)][..0] == [];
    assert Replay(open, [Call.Close(x)]) == {y};
  }

  /** On an owning handle, cleaning up everything closes each descriptor
      exactly once and leaves nothing open. */
  lemma CleanupAllReleasesAll(h: Handle, open: set<int>)
    requires Owns(h, open)
    ensures var s := CleanupAll(h); ClosesOnlyOpen(open, s.calls) && Replay(open, s.calls) == {}
  {
    var s := CleanupAll(h);
    var l, a := h.listenSock, h.acceptSock;
    if l != Uninitialized && a != Uninitialized {
      assert s.calls == [Call.Close(l), Call.Close(a)];
      assert open == {l, a};
      CloseBoth(open, l, a);
    } else if l != Uninitialized {
      assert s.calls == [Call.Close(l)];
      CloseLast(open, l);
    } else if a != Uninitialized {
      assert s.calls == [Call.Close(a)];
      CloseLast(open, a);
    } else {
      assert s.calls == [];
    }
  }

  /** On an owning handle, dropping the client closes it once and leaves the
      listener, and only it, open. */
  lemma CleanupAcceptedReleasesClient(h: Handle, open: set<int>)
    requires Owns(h, open)
    ensures var s := CleanupAccepted(h);
            ClosesOnlyOpen(open, s.calls) && Owns(s.h, Replay(open, s.calls))
  {
    var a := h.acceptSock;
    if a != Uninitialized {
      assert CleanupAccepted(h).calls == [Call.Close(a)];
      assert [Call.Close(a)][..0] == [];
      assert a in open;
    }
  }

  /** Initialization closes the socket it created whenever it fails, so the
      open descriptors are unchanged on failure and grow by the listener on
      success. */
  lemma InitializeClosesWhatItOpens(open: set<int>, rep: InitReplies)
    requires rep.socket >= 0 ==> rep.socket !in open
    ensures var s := Initialize(rep);
            ClosesOnlyOpen(open, s.calls) &&
            Replay(open, s.calls) == if s.result == ErrorNone then open + {rep.socket} else open
  {
    var s := Initialize(rep);
    var fd := rep.socket;
    if fd >= 0 {
      var c0, c1, c2 := Call.Socket(fd), Call.SetSockOpt(fd, SolSocket, ReuseAddr, 1), Call.Bind(fd, HttpPort, rep.bind);
      var p := [c0, c1, c2];
      assert [c0] == [] + [c0] && [c0, c1] == [c0] + [c1] && p == [c0, c1] + [c2];
      ReplaySnoc(open, [], c0);
      ReplaySnoc(open, [c0], c1);
      ReplaySnoc(open, [c0, c1], c2);
      assert ClosesOnlyOpen(open, [c0]);
      assert ClosesOnlyOpen(open, [c0, c1]);
      assert ClosesOnlyOpen(open, p);
      if rep.bind != 0 {
        assert s.calls == p + [Call.Close(fd)];
        ReplaySnoc(open, p, Call.Close(fd));
        assert s.calls[..|s.calls| - 1] == p;
      } else if rep.listen != 0 {
        var c3 := Call.Listen(fd, ListenBacklog, rep.listen);
        assert s.calls == (p + [c3]) + [Call.Close(fd)];
        assert (p + [c3])[..|p|] == p;
        ReplaySnoc(open, p, c3);
        ReplaySnoc(open, p + [c3], Call.Close(fd));
        assert s.calls[..|s.calls| - 1] == p + [c3];
      } else {
        assert s.calls == p + [Call.Listen(fd, ListenBacklog, rep.listen)];
        ReplaySnoc(open, p, Call.Listen(fd, ListenBacklog, rep.listen));
        assert s.calls[..|s.calls| - 1] == p;
      }
    } else {
      assert s.calls[..0] == [];
    }
  }

  /** Send, receive and tuning neither open nor close a descriptor. */
  lemma TransfersKeepDescriptors(h: Handle, open: set<int>, hasBuffer: bool,
                                 len: SizeT, size: SizeT, received: SizeT, reply: int)
    ensures var c := HttpConn.Send(h, hasBuffer, len, reply).calls; ClosesOnlyOpen(open, c) && Replay(open, c) == open
    ensures var c := HttpConn.Recv(h, hasBuffer, size, received, reply).calls; ClosesOnlyOpen(open, c) && Replay(open, c) == open
    ensures var c := Configure(h).calls; ClosesOnlyOpen(open, c) && Replay(open, c) == open
  {
    var c := HttpConn.Send(h, hasBuffer, len, reply).calls;
    if c != [] { assert c[..0] == []; }
    c := HttpConn.Recv(h, hasBuffer, size, received, reply).calls;
    if c != [] { assert c[..0] == []; }
    c := Configure(h).calls;
    if c != [] {
      NoOpenOrClose(open, c);
    }
  }

  /** A run of tuning calls leaves the open descriptors alone. */
  lemma {:induction false} NoOpenOrClose(open: set<int>, calls: seq<Call>)
    requires forall i :: 0 <= i < |calls| ==> calls[i].SetSockOpt?
    ensures ClosesOnlyOpen(open, calls) && Replay(open, calls) == open
    decreases |calls|
  {
    if calls != [] {
      NoOpenOrClose(open, calls[..|calls| - 1]);
    }
  }

  /** Initialization forgets a listener the handle already held: the old
      descriptor stays open but the handle no longer names it. */
  lemma InitializeOnLiveHandleLeaks(h: Handle, open: set<int>, rep: InitReplies)
    requires Owns(h, open) && h.listenSock != Uninitialized
    requires rep.socket >= 0 ==> rep.socket !in open
    ensures var s := Initialize(rep);
            h.listenSock in Replay(open, s.calls) && h.listenSock !in Descriptors(s.h)
  {
    InitializeClosesWhatItOpens(open, rep);
  }

  /** An accept that succeeds while a client is held overwrites it: the old
      client stays open but the handle no longer names it. */
  lemma AcceptOnConnectedHandleLeaks(h: Handle, open: set<int>, reply: int)
    requires Owns(h, open) && h.acceptSock != Uninitialized
    requires reply >= 0 && reply !in open
    ensures var s := HttpConn.Accept(h, reply);
            h.acceptSock in Replay(open, s.calls) && h.acceptSock !in Descriptors(s.h)
  {
  }

  /** One operation of a session, with the kernel's answers it gets. */
  datatype Op =
    | InitializeOp(rep: InitReplies)
    | AcceptOp(reply: int)
    | ConfigureOp
    | SendOp(hasBuffer: bool, len: SizeT, reply: int)
    | RecvOp(hasBuffer: bool, size: SizeT, received: SizeT, reply: int)
    | CleanupAcceptedOp
    | CleanupAllOp

  /** The handle an operation leaves and the calls it makes. */
  function Effect(h: Handle, op: Op): Step<()>
  {
    match op
    case InitializeOp(rep) => var s := Initialize(rep); Step(s.h, s.calls, ())
    case AcceptOp(reply) => var s := HttpConn.Accept(h, reply); Step(s.h, s.calls, ())
    case ConfigureOp => Configure(h)
    case SendOp(b, len, reply) => var s := HttpConn.Send(h, b, len, reply); Step(s.h, s.calls, ())
    case RecvOp(b, size, received, reply) => var s := HttpConn.Recv(h, b, size, received, reply); Step(s.h, s.calls, ())
    case CleanupAcceptedOp => CleanupAccepted(h)
    case CleanupAllOp => CleanupAll(h)
  }

  /** A run of operations: the final handle and every call made, in order. */
  function Run(h: Handle, ops: seq<Op>): Step<()>
  {
    if ops == [] then Step(h, [], ())
    else
      var before := Run(h, ops[..|ops| - 1]);
      var last := Effect(before.h, ops[|ops| - 1]);
      Step(last.h, before.calls + last.calls, ())
  }

  /** What the caller must respect: initialize only an idle handle and
      accept only when no client is held. And what the kernel promises:
      a descriptor it hands out is not already open. */
  ghost predicate Admissible(h: Handle, open: set<int>, op: Op)
  {
    match op
    case InitializeOp(rep) => h == Unset && (rep.socket >= 0 ==> rep.socket !in open)
    case AcceptOp(reply) => h.acceptSock == Uninitialized && (reply >= 0 ==> reply !in open)
    case _ => true
  }

  ghost predicate AdmissibleRun(h: Handle, open: set<int>, ops: seq<Op>)
  {
    ops == [] ||
    (AdmissibleRun(h, open, ops[..|ops| - 1]) &&
     var before := Run(h, ops[..|ops| - 1]);
     Admissible(before.h, Replay(open, before.calls), ops[|ops| - 1]))
  }

  /** One admissible operation keeps the ownership invariant and closes
      only open descriptors. */
  lemma StepKeepsOwnership(h: Handle, open: set<int>, op: Op)
    requires Owns(h, open) && Admissible(h, open, op)
    ensures var s := Effect(h, op);
            ClosesOnlyOpen(open, s.calls) && Owns(s.h, Replay(open, s.calls))
  {
    match op
    case InitializeOp(rep) =>
      InitializeClosesWhatItOpens(open, rep);
    case AcceptOp(reply) =>
      var s := HttpConn.Accept(h, reply);
      assert s.calls[..0] == [];
    case ConfigureOp =>
      TransfersKeepDescriptors(h, open, false, 0, 0, 0, 0);
    case SendOp(b, len, reply) =>
      TransfersKeepDescriptors(h, open, b, len, 0, 0, reply);
    case RecvOp(b, size, received, reply) =>
      TransfersKeepDescriptors(h, open, b, 0, size, received, reply);
    case CleanupAcceptedOp =>
      CleanupAcceptedReleasesClient(h, open);
    case CleanupAllOp =>
      CleanupAllReleasesAll(h, open);
  }

  /** Any run that follows the lifecycle, started from a handle that owns the
      open descriptors, never closes a descriptor twice or one it does not
      hold, and ends owning exactly the open descriptors: nothing leaks. */
  lemma {:induction false} SessionSafety(h: Handle, open: set<int>, ops: seq<Op>)
    requires Owns(h, open) && AdmissibleRun(h, open, ops)
    ensures var r := Run(h, ops);
            ClosesOnlyOpen(open, r.calls) && Owns(r.h, Replay(open, r.calls))
    decreases |ops|
  {
    if ops != [] {
      var init := ops[..|ops| - 1];
      var before := Run(h, init);
      var mid := Replay(open, before.calls);
      SessionSafety(h, open, init);
      var last := Effect(before.h, ops[|ops| - 1]);
      StepKeepsOwnership(before.h, mid, ops[|ops| - 1]);
      ClosesOnlyOpenAppend(open, before.calls, last.calls);
      ReplayAppend(open, before.calls, last.calls);
    }
  }

  /** From an idle handle with nothing open, every admissible run leaves the
      open descriptors equal to those the handle holds; a final cleanup then
      leaves nothing open. */
  lemma SessionEndsClean(ops: seq<Op>)
    requires AdmissibleRun(Unset, {}, ops)
    ensures var r := Run(Unset, ops + [CleanupAllOp]);
            ClosesOnlyOpen({}, r.calls) && Replay({}, r.calls) == {} && r.h == Unset
  {
    var all := ops + [CleanupAllOp];
    assert all[..|all| - 1] == ops;
    SessionSafety(Unset, {}, all);
  }
}
