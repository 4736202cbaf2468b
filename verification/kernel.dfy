/**
 The operating-system calls the easysetup HTTP socket layer sits on (socket,
 setsockopt, bind, listen, accept, send, recv, close), as an abstract oracle.

 Every call is recorded, with the answer it got, in a log. The set of open
 descriptors is ghost state: it grows when socket or accept hand out a
 descriptor and shrinks on close. Apply and Replay give that set as a function
 of the log, so the properties "closes what it opened" and "never closes twice"
 can be stated about the calls an operation makes.
 */
module Kernel {

  /** The protocol level a socket option belongs to. */
  datatype Level = SolSocket | IpprotoTcp

  /** The socket options the layer requests. */
  datatype SockOpt = ReuseAddr | KeepAlive | KeepIdle | KeepInterval | KeepCount | NoDelay

  /** One system call together with the answer the kernel gave. A setsockopt
      answer only ever reaches a log message, so it is not recorded. */
  datatype Call =
    | Socket(sock: int)
    | SetSockOpt(fd: int, level: Level, opt: SockOpt, value: int)
    | Bind(fd: int, port: int, ret: int)
    | Listen(fd: int, backlog: int, ret: int)
    | Accept(fd: int, sock: int)
    | Send(fd: int, len: nat, ret: int)
    | Recv(fd: int, offset: nat, len: nat, ret: int)
    | Close(fd: int)

  /** The open descriptors after one call: socket and accept add the
      descriptor they return when it is not negative, close removes its
      argument, every other call leaves the set alone. */
  function Apply(open: set<int>, c: Call): (open': set<int>)
    ensures !c.Close? ==> open <= open'
    ensures !c.Socket? && !c.Accept? ==> open' <= open
  {
    match c
    case Socket(sock) => if sock >= 0 then open + {sock} else open
    case Accept(_, sock) => if sock >= 0 then open + {sock} else open
    case Close(fd) => open - {fd}
    case _ => open
  }

  /** The open descriptors after a sequence of calls, starting from `open`. */
  function Replay(open: set<int>, calls: seq<Call>): set<int>
  {
    if calls == [] then open
    else Apply(Replay(open, calls[..|calls| - 1]), calls[|calls| - 1])
  }

  /** Every close in `calls` names a descriptor that is open at that point:
      nothing is closed twice and nothing foreign is closed. */
  ghost predicate ClosesOnlyOpen(open: set<int>, calls: seq<Call>)
  {
    calls == [] ||
    (ClosesOnlyOpen(open, calls[..|calls| - 1]) &&
     (calls[|calls| - 1].Close? ==> calls[|calls| - 1].fd in Replay(open, calls[..|calls| - 1])))
  }

  lemma ReplaySnoc(open: set<int>, calls: seq<Call>, c: Call)
    ensures Replay(open, calls + [c]) == Apply(Replay(open, calls), c)
  {
  }

  /** Replaying a concatenation is replaying its halves one after the other. */
  lemma {:induction false} ReplayAppend(open: set<int>, a: seq<Call>, b: seq<Call>)
    ensures Replay(open, a + b) == Replay(Replay(open, a), b)
    decreases |b|
  {
    if b == [] {
      assert a + b == a;
    } else {
      var b' := b[..|b| - 1];
      var c := b[|b| - 1];
      assert a + b == (a + b') + [c];
      assert b == b' + [c];
      ReplaySnoc(open, a + b', c);
      ReplayAppend(open, a, b');
      ReplaySnoc(Replay(open, a), b', c);
    }
  }

  /** No double close across a concatenation follows from no double close in
      each half, the second half starting from where the first left off. */
  lemma {:induction false} ClosesOnlyOpenAppend(open: set<int>, a: seq<Call>, b: seq<Call>)
    requires ClosesOnlyOpen(open, a)
    requires ClosesOnlyOpen(Replay(open, a), b)
    ensures ClosesOnlyOpen(open, a + b)
    decreases |b|
  {
    if b == [] {
      assert a + b == a;
    } else {
      var b' := b[..|b| - 1];
      var c := b[|b| - 1];
      assert a + b == (a + b') + [c];
      assert b == b' + [c];
      assert (a + b)[..|a + b| - 1] == a + b';
      ClosesOnlyOpenAppend(open, a, b');
      ReplayAppend(open, a, b');
    }
  }

  /** The kernel: a ghost set of open descriptors and a ghost log of every call
      made. The HTTP layer is verified against the CONTRACTS of these methods,
      which let every call fail; the bodies are one kernel that meets them. */
  class Os {
    ghost var open: set<int>
    ghost var log: seq<Call>
    var next: int

    /** Descriptors are never negative, and `next` is above every open one. */
    ghost predicate Valid()
      reads this
    {
      0 <= next && forall fd :: fd in open ==> 0 <= fd < next
    }

    constructor ()
      ensures Valid() && open == {} && log == []
    {
      next := 0;
      open := {};
      log := [];
    }

    /** socket(): a fresh descriptor, or a negative value on failure. */
    method Socket() returns (sock: int)
      requires Valid()
      modifies this
      ensures Valid()
      ensures sock >= 0 ==> sock !in old(open)
      ensures log == old(log) + [Call.Socket(sock)]
      ensures open == Apply(old(open), Call.Socket(sock))
    {
      sock := next;
      next := next + 1;
      open := open + {sock};
      log := log + [Call.Socket(sock)];
    }

    /** setsockopt(): 0 on success, anything else on failure. */
    method SetSockOpt(fd: int, level: Level, opt: SockOpt, value: int) returns (ret: int)
      requires Valid()
      modifies this
      ensures Valid()
      ensures log == old(log) + [Call.SetSockOpt(fd, level, opt, value)]
      ensures open == old(open)
    {
      ret := 0;
      log := log + [Call.SetSockOpt(fd, level, opt, value)];
    }

    /** bind(): 0 on success. */
    method Bind(fd: int, port: int) returns (ret: int)
      requires Valid()
      modifies this
      ensures Valid()
      ensures log == old(log) + [Call.Bind(fd, port, ret)]
      ensures open == old(open)
    {
      ret := 0;
      log := log + [Call.Bind(fd, port, ret)];
    }

    /** listen(): 0 on success. */
    method Listen(fd: int, backlog: int) returns (ret: int)
      requires Valid()
      modifies this
      ensures Valid()
      ensures log == old(log) + [Call.Listen(fd, backlog, ret)]
      ensures open == old(open)
    {
      ret := 0;
      log := log + [Call.Listen(fd, backlog, ret)];
    }

    /** accept(): a fresh descriptor for the client, or a negative value. */
    method Accept(fd: int) returns (sock: int)
      requires Valid()
      modifies this
      ensures Valid()
      ensures sock >= 0 ==> sock !in old(open)
      ensures log == old(log) + [Call.Accept(fd, sock)]
      ensures open == Apply(old(open), Call.Accept(fd, sock))
    {
      sock := next;
      next := next + 1;
      open := open + {sock};
      log := log + [Call.Accept(fd, sock)];
    }

    /** send(): the number of bytes taken, at most `len`, or -1. */
    method Send(fd: int, buf: array<bv8>, len: nat) returns (ret: int)
      requires Valid()
      requires len <= buf.Length
      modifies this
      ensures Valid()
      ensures ret == -1 || 0 <= ret <= len
      ensures log == old(log) + [Call.Send(fd, len, ret)]
      ensures open == old(open)
    {
      ret := len;
      log := log + [Call.Send(fd, len, ret)];
    }

    /** recv(): the number of bytes stored at `buf[offset..]`, at most `len`,
        0 when the peer has closed, or -1; nothing outside the bytes it
        reports is written. */
    method Recv(fd: int, buf: array<bv8>, offset: nat, len: nat) returns (ret: int)
      requires Valid()
      requires offset + len <= buf.Length
      modifies this, buf
      ensures Valid()
      ensures ret == -1 || 0 <= ret <= len
      ensures forall i :: 0 <= i < buf.Length && !(offset <= i < offset + ret) ==> buf[i] == old(buf[i])
      ensures log == old(log) + [Call.Recv(fd, offset, len, ret)]
      ensures open == old(open)
    {
      ret := 0;
      log := log + [Call.Recv(fd, offset, len, ret)];
    }

    /** close(): the descriptor is no longer open. Closing a descriptor that
        is not open is not refused here; the HTTP layer is proved not to. */
    method Close(fd: int)
      requires Valid()
      modifies this
      ensures Valid()
      ensures log == old(log) + [Call.Close(fd)]
      ensures open == Apply(old(open), Call.Close(fd))
    {
      open := open - {fd};
      log := log + [Call.Close(fd)];
    }
  }
}
