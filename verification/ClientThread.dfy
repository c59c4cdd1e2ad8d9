/** The control skeleton of cxl_relay_client_thread (cxl_relay/cxl_tlp_relay_client.c): three
    nested loops that connect, spawn a reader, receive replies, and start over. What it does is
    recorded as a trace of events, and the traces it can produce are characterised. */
module ClientThread {
  import opened Bytes
  import opened Packets
  import opened NamedPipe
  import opened CommLib
  import opened RelayThreads
  import R = Relay

  datatype Event =
    | Trying(connected: int)  // about to call CXL_Connect, with connected_to_server as it stands
    | ConnectFailed | ConnectOk
    | StopSeen                // the second loop's head finds the stop flag up
    | ClearFlag | Spawn       // stop_request_read_thread = 0; spawn_host_request_read_thread
    | Whole | Enqueue         // a reply of full size, put into the reply pipe
    | Bad | CloseSocket | NewSocket
    | RaiseFlag               // stop_request_read_thread = 1
    | Returned

  /** Where a trace has got to. Outside and Dropped: at the outer loop's head or in front of it,
      the latter after a lost connection; then the way to a running reader, a reply in hand,
      the steps of giving a connection up, and those of leaving on the stop flag. */
  datatype Phase =
    | Outside | Attempt | Linked | Cleared | Reading | InHand
    | Broken | Shut | Renewed | Dropped
    | Stopping | Closing | Leaving | Over | Wrong

  function Watch(p: Phase, e: Event): Phase {
    match e
    case Trying(connected) => if (p.Outside? || p.Dropped?) && connected < 0 then Attempt else Wrong
    case ConnectFailed => if p.Attempt? then Outside else Wrong
    case ConnectOk => if p.Attempt? then Linked else Wrong
    case StopSeen => if p.Linked? || p.Reading? then Stopping else Wrong
    case ClearFlag => if p.Linked? then Cleared else Wrong
    case Spawn => if p.Cleared? then Reading else Wrong
    case Whole => if p.Reading? then InHand else Wrong
    case Enqueue => if p.InHand? then Reading else Wrong
    case Bad => if p.Reading? then Broken else Wrong
    case CloseSocket => if p.Broken? then Shut else if p.Stopping? || p.Dropped? then Closing else Wrong
    case NewSocket => if p.Shut? then Renewed else Wrong
    case RaiseFlag => if p.Renewed? then Dropped else if p.Closing? then Leaving else Wrong
    case Returned => if p.Outside? || p.Dropped? || p.Leaving? then Over else Wrong
  }

  function Watched(t: seq<Event>): Phase {
    if t == [] then Outside else Watch(Watched(t[..|t| - 1]), t[|t| - 1])
  }

  function Count(t: seq<Event>, e: Event): nat {
    if t == [] then 0 else Count(t[..|t| - 1], e) + if t[|t| - 1] == e then 1 else 0
  }

  /** The stop flag was seen directly after a successful connect, before any reader. */
  predicate StoppedAtConnect(t: seq<Event>) {
    exists i :: 0 <= i < |t| - 1 && t[i] == ConnectOk && t[i + 1] == StopSeen
  }

  /** One reader per successful connect, in every trace that is not wrong: a reader is missing if
      and only if the trace ends between the connect and the spawn, or the stop flag was seen
      just there. */
  lemma {:induction false} ReadersPerConnect(t: seq<Event>)
    requires !Watched(t).Wrong?
    ensures var missing := Watched(t).Linked? || Watched(t).Cleared? || StoppedAtConnect(t);
            Count(t, ConnectOk) == Count(t, Spawn) + if missing then 1 else 0
    ensures StoppedAtConnect(t) ==> Watched(t) in {Stopping, Closing, Leaving, Over}
    ensures t != [] ==> (Watched(t).Linked? <==> t[|t| - 1] == ConnectOk)
  {
    if t != [] {
      var r, e := t[..|t| - 1], t[|t| - 1];
      ReadersPerConnect(r);
      if StoppedAtConnect(r) {
        var i :| 0 <= i < |r| - 1 && r[i] == ConnectOk && r[i + 1] == StopSeen;
        assert t[i] == ConnectOk && t[i + 1] == StopSeen;
      } else if e.StopSeen? && Watched(r).Linked? {
        assert t[|t| - 2] == ConnectOk && t[|t| - 2 + 1] == StopSeen;
      }
    }
  }

  /** It does happen: stopped at its first connect the thread returns without ever having had
      a reader. */
  lemma StoppedBeforeAnyReader() returns (t: seq<Event>)
    ensures Watched(t).Over? && StoppedAtConnect(t) && Count(t, ConnectOk) == 1 && Count(t, Spawn) == 0
  {
    t := StopAfterConnect();
    var i :| 0 <= i < |t| - 1 && t[i] == ConnectOk && t[i + 1] == StopSeen;
    for n := 0 to 3
      invariant Watched(t) == [Stopping, Closing, Leaving, Over][n] && Count(t, Spawn) == 0
      invariant i < |t| - 1 && t[i] == ConnectOk && t[i + 1] == StopSeen
    {
      var e := [CloseSocket, RaiseFlag, Returned][n];
      Logged(t, e, Spawn);
      t := t + [e];
    }
    ReadersPerConnect(t);
  }

  lemma StopAfterConnect() returns (t: seq<Event>)
    ensures Watched(t).Stopping? && StoppedAtConnect(t) && Count(t, Spawn) == 0
  {
    t := [];
    for n := 0 to 3
      invariant |t| == n && Watched(t) == [Outside, Attempt, Linked, Stopping][n] && Count(t, Spawn) == 0
      invariant n >= 2 ==> t[1] == ConnectOk
      invariant n >= 3 ==> t[2] == StopSeen
    {
      var e := [Trying(-1), ConnectOk, StopSeen][n];
      Logged(t, e, Spawn);
      t := t + [e];
    }
    assert t[1] == ConnectOk && t[1 + 1] == StopSeen;
  }

  lemma Logged(t: seq<Event>, e: Event, f: Event)
    ensures Watched(t + [e]) == Watch(Watched(t), e)
    ensures Count(t + [e], f) == Count(t, f) + if e == f then 1 else 0
  {
    assert (t + [e])[..|t|] == t;
  }

  // ---- The environment

  /** What comes of an attempt to connect: nothing, or a connection with the bytes that will
      arrive on it and the kernel's answers to recv() and send(). */
  datatype Attempt = Refused | Accepted(incoming: seq<byte>, recvAnswers: Answers, sendAnswers: Answers)

  /** Replies that arrive whole, in a row, on the connection. */
  function Replies(a: Attempt): nat {
    match a
    case Refused => 0
    case Accepted(incoming, answers, _) => WholeRecords(answers, 0, |incoming|)
  }

  /** Behind them nothing comes, not even an error. */
  predicate StaysUp(a: Attempt) {
    match a
    case Refused => false
    case Accepted(incoming, answers, _) => |incoming| == RECORD * Replies(a) && answers(Replies(a)) >= 1
  }

  function Front(a: Attempt): seq<byte> {
    match a
    case Refused => []
    case Accepted(incoming, _, _) => incoming[..RECORD * Replies(a)]
  }

  /** What attempts come to: what they bring, how many connections are made, and how often the
      thread looks at the stop flag: before each attempt; and on a connection, before the reader
      is spawned, before each receive, and after the loss. */
  datatype Score = Score(delivered: seq<byte>, links: nat, looks: nat)

  function Next(sc: Score, a: Attempt): Score {
    match a
    case Refused => sc.(looks := sc.looks + 1)
    case Accepted(_, _, _) => Score(sc.delivered + Front(a), sc.links + 1, sc.looks + Replies(a) + 4)
  }

  function Expected(network: nat -> Attempt, n: nat): Score {
    if n == 0 then Score([], 0, 0) else Next(Expected(network, n - 1), network(n - 1))
  }

  /** None of the first n attempts has brought a connection that is still up. */
  ghost predicate AllLost(network: nat -> Attempt, n: nat) {
    forall k: nat :: k < n ==> !StaysUp(network(k))
  }

  /** How often the trace shows a try, a connection, a reply put into the pipe. */
  datatype Tally = Tally(tried: nat, linked: nat, enqueued: nat)

  function Tallied(t: seq<Event>): Tally {
    Tally(Count(t, Trying(-1)), Count(t, ConnectOk), Count(t, Enqueue))
  }

  function Add(t: Tally, e: Event): Tally {
    match e
    case Trying(connected) => if connected == -1 then t.(tried := t.tried + 1) else t
    case ConnectOk => t.(linked := t.linked + 1)
    case Enqueue => t.(enqueued := t.enqueued + 1)
    case _ => t
  }

  /** Where a run of the thread is left: it has made as many attempts as it was followed for; it
      waits for ever in CXL_Recv; it has returned. */
  datatype Ending = OutOfAttempts | Waiting | Stopped

  class Client {
    const requests: Pipe
    const replies: Pipe
    const network: nat -> Attempt  // what comes of the k-th attempt
    const stopAt: int              // the look at the stop flag that first finds it up; never if negative
    var looks: nat
    var attempts: nat
    var connectedToServer: int
    var stopRequestReadThread: bool
    ghost var trace: seq<Event>
    ghost var phase: Phase
    ghost var tally: Tally

    constructor (requests: Pipe, replies: Pipe, network: nat -> Attempt, stopAt: int)
      requires requests != replies
      ensures trace == [] && looks == 0 && attempts == 0 && Tracked()
      ensures this.requests == requests && this.replies == replies
      ensures this.network == network && this.stopAt == stopAt
    {
      this.requests, this.replies, this.network, this.stopAt := requests, replies, network, stopAt;
      looks, attempts, connectedToServer, stopRequestReadThread, trace := 0, 0, -1, false, [];
      phase, tally := Outside, Tally(0, 0, 0);
    }

    /** phase and tally say where the trace has got to and what it counts. */
    ghost predicate Tracked()
      reads this
    {
      phase == Watched(trace) && tally == Tallied(trace)
    }

    /** The stop flag has been found up. */
    predicate Seen()
      reads this
    {
      0 <= stopAt < looks
    }

    ghost method Log(e: Event)
      requires Tracked()
      modifies this`trace, this`phase, this`tally
      ensures Tracked()
      ensures trace == old(trace) + [e] && phase == Watch(old(phase), e) && tally == Add(old(tally), e)
    {
      Logged(trace, e, Trying(-1));
      Logged(trace, e, ConnectOk);
      Logged(trace, e, Enqueue);
      trace, phase, tally := trace + [e], Watch(phase, e), Add(tally, e);
    }

    /** A look at cxl_client_stopflag, which somebody else may raise at any time and nobody
        clears. */
    method StopFlag() returns (up: bool)
      modifies this`looks
      ensures looks == old(looks) + 1 && up == Seen()
    {
      up := 0 <= stopAt <= looks;
      looks := looks + 1;
    }

    /** One attempt to connect. */
    method Connect()
      requires Tracked()
      requires (phase.Outside? || phase.Dropped?) && connectedToServer == -1
      modifies this`trace, this`phase, this`tally, this`connectedToServer, this`attempts
      ensures Tracked()
      ensures attempts == old(attempts) + 1
      ensures connectedToServer == if network(old(attempts)).Accepted? then 0 else -1
      ensures if connectedToServer < 0 then phase.Outside? else phase.Linked?
      ensures var was := old(tally);
              tally == Tally(was.tried + 1, was.linked + if connectedToServer < 0 then 0 else 1, was.enqueued)
    {
      Log(Trying(connectedToServer));
      connectedToServer := if network(attempts).Accepted? then 0 else -1;
      attempts := attempts + 1;
      if connectedToServer == -1 {
        Log(ConnectFailed);
      } else {
        Log(ConnectOk);
      }
    }

    /** The connection just made. */
    method Connection() returns (ep: Endpoint)
      requires requests != replies && attempts > 0 && network(attempts - 1).Accepted?
      ensures ep.Valid() && ep.output == replies && fresh(ep) && fresh(ep.socket) && fresh(ep.recvBuffer)
      ensures Attached(ep, network(attempts - 1))
    {
      var a := network(attempts - 1);
      var socket := new Socket(a.incoming, a.sendAnswers, a.recvAnswers);
      ep := new Endpoint(requests, replies, socket);
    }

    method SpawnReader()
      requires Tracked()
      requires phase.Linked?
      modifies this`trace, this`phase, this`tally, this`stopRequestReadThread
      ensures Tracked()
      ensures phase.Reading? && !stopRequestReadThread && tally == old(tally)
    {
      stopRequestReadThread := false;
      Log(ClearFlag);
      Log(Spawn);
    }

    /** A receive that is not a whole record, after which the socket has been closed: give the
        connection up. */
    method Lose()
      requires Tracked()
      requires phase.Reading?
      modifies this`trace, this`phase, this`tally, this`stopRequestReadThread, this`connectedToServer
      ensures Tracked()
      ensures phase.Dropped? && stopRequestReadThread && connectedToServer == -1
      ensures tally == old(tally)
    {
      DropSocket();
      connectedToServer := -1;
      stopRequestReadThread := true;
      Log(RaiseFlag);
    }

    method DropSocket()
      requires Tracked()
      requires phase.Reading?
      modifies this`trace, this`phase, this`tally
      ensures Tracked()
      ensures phase.Renewed? && tally == old(tally)
    {
      Log(Bad);
      Log(CloseSocket);
      Log(NewSocket);
    }

    /** The exit on the stop flag. */
    method Leave()
      requires Tracked()
      requires phase.Stopping? || phase.Dropped?
      modifies this`trace, this`phase, this`tally, this`stopRequestReadThread
      ensures Tracked()
      ensures phase.Over? && stopRequestReadThread && tally == old(tally)
      ensures trace == old(trace) + [CloseSocket, RaiseFlag, Returned]
    {
      Log(CloseSocket);
      stopRequestReadThread := true;
      Finish();
    }

    ghost method Finish()
      requires Tracked()
      requires phase.Closing?
      modifies this`trace, this`phase, this`tally
      ensures Tracked()
      ensures phase.Over? && tally == old(tally)
      ensures trace == old(trace) + [RaiseFlag, Returned]
    {
      Log(RaiseFlag);
      Log(Returned);
    }

    /** One receive that returns on a connection: a whole record goes into the reply pipe, anything
        else closes the socket and gives the connection up. */
    method Receive(ep: Endpoint)
      requires Tracked()
      requires phase.Reading? && connectedToServer >= 0 && ep.Valid() && !ep.socket.Waits()
      modifies this`trace, this`phase, this`tally, this`stopRequestReadThread, this`connectedToServer
      modifies ep`totalReceived, ep.output, ep.socket`incoming, ep.socket`recvCalls, ep.socket`closed, ep.recvBuffer
      ensures Tracked() && ep.socket.recvCalls == old(ep.socket.recvCalls) + 1
      ensures connectedToServer >= 0 <==>
              ep.socket.recvAnswers(old(ep.socket.recvCalls)) >= RECORD && |old(ep.socket.incoming)| >= RECORD
      ensures connectedToServer >= 0 ==>
                && phase.Reading? && ep.socket.incoming == old(ep.socket.incoming)[RECORD..]
                && ep.output.bytes == old(ep.output.bytes) + old(ep.socket.incoming)[..RECORD]
                && tally == Add(old(tally), Enqueue)
      ensures connectedToServer < 0 ==>
                && connectedToServer == -1 && phase.Dropped? && stopRequestReadThread && ep.socket.closed
                && ep.output.bytes == old(ep.output.bytes) && tally == old(tally)
    {
      var open := ep.ReceiveOne();
      if open {
        Log(Whole);
        Log(Enqueue);
      } else {
        Lose();
      }
    }

    /** The reply loop, entered with a reader running. It looks at the stop flag before each
        receive and ends when that is up, on a receive that is not a whole record, or waiting for
        ever when nothing arrives any more. Until then it enqueues every whole record that comes
        in a row; and to any hop h that receives from the connection it is a run of receiver's
        acts. */
    method ReplyLoop(ep: Endpoint, ghost h: R.Hop) returns (blocked: bool, ghost acts: seq<R.Act>, ghost done: nat)
      requires Tracked() && ep.Valid() && phase.Reading? && connectedToServer >= 0 && ep.Receives(h)
      modifies this`trace, this`phase, this`tally
      modifies this`stopRequestReadThread, this`connectedToServer, this`looks
      modifies ep`totalReceived, ep.output, ep.socket`incoming, ep.socket`recvCalls, ep.socket`closed, ep.recvBuffer
      ensures Tracked() && tally == old(tally).(enqueued := old(tally).enqueued + done)
      ensures var n := WholeRecords(ep.socket.recvAnswers, old(ep.socket.recvCalls), |old(ep.socket.incoming)|);
              && Came(old(ep.socket.incoming), n, done, old(ep.output.bytes), ep.output.bytes)
              && (blocked || connectedToServer < 0 ==>
                    Ended(old(ep.socket.incoming), ep.socket.recvAnswers, old(ep.socket.recvCalls), n, done, blocked))
      ensures blocked ==> phase.Reading? && connectedToServer >= 0 && ep.socket.Waits()
      ensures connectedToServer < 0 ==>
                !blocked && connectedToServer == -1 && phase.Dropped? && stopRequestReadThread && ep.socket.closed
      ensures !blocked && connectedToServer >= 0 ==> phase.Reading?
      ensures Seen() <==> !blocked && connectedToServer >= 0
      ensures looks == old(looks) + done + 1 && (done > 0 ==> !(0 <= stopAt < looks - 1))
      ensures R.HopRuns(h, acts) && R.AllByReceiver(acts)
      ensures var g := R.HopAfter(h, acts);
              && g.Tcp? && g.output == ep.output.bytes
              && (if connectedToServer >= 0 then g.receiver.Receiving? else g.receiver.Closed?)
    {
      ghost var all, before, call := ep.socket.incoming, ep.output.bytes, ep.socket.recvCalls;
      ghost var n := WholeRecords(ep.socket.recvAnswers, call, |all|);
      blocked, done := RepliesFrom(ep, all, before, call, n, tally, looks);
      acts := ReplyActs(h, all, ep.socket.recvAnswers, call, n, done, connectedToServer < 0);
    }

    method RepliesFrom(ep: Endpoint, ghost all: seq<byte>, ghost before: seq<byte>,
                       ghost call: nat, ghost n: nat, ghost was: Tally, ghost from: nat)
      returns (blocked: bool, ghost done: nat)
      requires Tracked() && ep.Valid() && phase.Reading? && connectedToServer >= 0
      requires all == ep.socket.incoming && before == ep.output.bytes && call == ep.socket.recvCalls
      requires was == tally && from == looks && InARow(ep.socket.recvAnswers, call, |all|, n)
      modifies this`trace, this`phase, this`tally
      modifies this`stopRequestReadThread, this`connectedToServer, this`looks
      modifies ep`totalReceived, ep.output, ep.socket`incoming, ep.socket`recvCalls, ep.socket`closed, ep.recvBuffer
      ensures Tracked() && tally == was.(enqueued := was.enqueued + done)
      ensures Came(all, n, done, before, ep.output.bytes)
      ensures blocked ==> phase.Reading? && connectedToServer >= 0 && ep.socket.Waits()
      ensures connectedToServer < 0 ==>
                !blocked && connectedToServer == -1 && phase.Dropped? && stopRequestReadThread && ep.socket.closed
      ensures blocked || connectedToServer < 0 ==> Ended(all, ep.socket.recvAnswers, call, n, done, blocked)
      ensures !blocked && connectedToServer >= 0 ==> phase.Reading?
      ensures Seen() <==> !blocked && connectedToServer >= 0
      ensures looks == from + done + 1 && (done > 0 ==> !(0 <= stopAt < looks - 1))
    {
      MovingFrom(all, n, before);
      blocked, done := false, 0;
      var stop := StopFlag();
      while !stop
        invariant Tracked() && Replying(ep, all, before, call, n, was, done)
        invariant looks == from + done + 1 && stop == Seen() && (done > 0 ==> !(0 <= stopAt < looks - 1))
        decreases |all| - RECORD * done, !stop
      {
        if ep.socket.Waits() {
          MovingEnds(all, ep.socket.recvAnswers, call, n, done, ep.socket.incoming, before, ep.output.bytes);
          blocked := true;
          return;
        }
        ReplyOnce(ep, all, before, call, n, was, done);
        if connectedToServer < 0 {
          return;
        }
        done := done + 1;
        stop := StopFlag();
      }
    }

    /** The reply loop's head, with done replies enqueued. */
    ghost predicate Replying(ep: Endpoint, all: seq<byte>, before: seq<byte>, call: nat, n: nat,
                             was: Tally, done: nat)
      reads this, ep, ep.output, ep.socket
    {
      && phase.Reading? && connectedToServer >= 0 && tally == was.(enqueued := was.enqueued + done)
      && ep.socket.recvCalls == call + done
      && Moving(all, n, done, ep.socket.incoming, before, ep.output.bytes)
    }

    method ReplyOnce(ep: Endpoint, ghost all: seq<byte>, ghost before: seq<byte>, ghost call: nat, ghost n: nat,
                     ghost was: Tally, ghost done: nat)
      requires Tracked()
      requires ep.Valid() && Replying(ep, all, before, call, n, was, done) && !ep.socket.Waits()
      requires InARow(ep.socket.recvAnswers, call, |all|, n)
      modifies this`trace, this`phase, this`tally, this`stopRequestReadThread, this`connectedToServer
      modifies ep`totalReceived, ep.output, ep.socket`incoming, ep.socket`recvCalls, ep.socket`closed, ep.recvBuffer
      ensures Tracked()
      ensures connectedToServer >= 0 ==> Replying(ep, all, before, call, n, was, done + 1)
      ensures connectedToServer < 0 ==>
                && connectedToServer == -1 && phase.Dropped? && stopRequestReadThread && ep.socket.closed
                && tally == was.(enqueued := was.enqueued + done)
                && Came(all, n, done, before, ep.output.bytes)
                && Ended(all, ep.socket.recvAnswers, call, n, done, false)
    {
      ghost var incoming, now := ep.socket.incoming, ep.output.bytes;
      Receive(ep);
      if connectedToServer >= 0 {
        MovingOn(all, ep.socket.recvAnswers, call, n, done, incoming, before, now);
      } else {
        MovingEnds(all, ep.socket.recvAnswers, call, n, done, incoming, before, now);
      }
    }

    /** The second loop, from a successful connect until the connection is lost or the thread
        stops. Only its head is the place where the flag may come before the reader. */
    method ConnectedLoop(ep: Endpoint, ghost a: Attempt) returns (blocked: bool)
      requires Tracked()
      requires phase.Linked? && connectedToServer >= 0 && ep.Valid() && Attached(ep, a) && !Seen()
      modifies this`trace, this`phase, this`tally, this`stopRequestReadThread, this`connectedToServer, this`looks
      modifies ep`totalReceived, ep.output, ep.socket`incoming, ep.socket`recvCalls, ep.socket`closed, ep.recvBuffer
      ensures Tracked()
      ensures Brought(a, old(tally), tally, old(ep.output.bytes), ep.output.bytes)
      ensures blocked || connectedToServer < 0 ==>
                && tally.enqueued == old(tally).enqueued + Replies(a) && blocked == StaysUp(a)
                && !Seen() && looks == old(looks) + Replies(a) + 2
      ensures blocked ==> phase.Reading? && ep.socket.Waits()
      ensures !blocked && connectedToServer < 0 ==>
                connectedToServer == -1 && phase.Dropped? && stopRequestReadThread
      ensures !blocked && connectedToServer >= 0 ==> phase.Stopping? && Seen() && stopAt >= looks - 2
    {
      blocked := false;
      ghost var was, before := tally, ep.output.bytes;
      var stop := StopFlag();
      while !stop
        invariant Tracked()
        invariant connectedToServer >= 0 && stop == Seen()
        invariant if stop then phase.Linked? || phase.Reading?
                  else phase.Linked? && Attached(ep, a) && tally == was && looks == old(looks) + 1
        invariant stop ==> stopAt >= looks - 2
        invariant Brought(a, was, tally, before, ep.output.bytes)
        decreases !stop
      {
        if connectedToServer >= 0 {
          SpawnReader();
        }
        ghost var h := R.Tcp([], ep.recvBuffer[..], R.Reading, 0, false, ep.socket.incoming,
                             ep.recvBuffer[..], R.Receiving, ep.totalReceived, ep.output.bytes);
        ghost var acts: seq<R.Act>;
        ghost var done: nat;
        blocked, acts, done := ReplyLoop(ep, h);
        if blocked {
          return;
        }
        if connectedToServer < 0 {
          return;
        }
        stop := StopFlag();
      }
      Log(StopSeen);
    }

    /** The outer loop's head, or the place in front of it: nothing is connected, and the attempts
        have brought what they could, sc. */
    ghost predicate AtHead(before: seq<byte>, sc: Score)
      reads this, replies
    {
      && connectedToServer == -1 && (phase.Outside? || phase.Dropped?)
      && tally.tried == attempts && tally.linked == sc.links
      && replies.bytes == before + sc.delivered && Grown(before, replies.bytes, tally.enqueued)
    }

    /** The thread waits for ever, or has returned, during or after the attempt that has taken it
        from sc to next. */
    ghost predicate Left(before: seq<byte>, sc: Score, next: Score, ending: Ending)
      reads this, replies
    {
      && tally.tried == attempts && tally.linked == next.links
      && Grown(before, replies.bytes, tally.enqueued)
      && match ending
         case OutOfAttempts => false
         case Waiting =>
           phase.Reading? && !Seen() && replies.bytes == before + next.delivered && looks + 1 == next.looks
         case Stopped =>
           && phase.Over? && Seen() && stopAt >= looks - 3
           && before + sc.delivered <= replies.bytes <= before + next.delivered
    }

    /** The outer loop's head, in the terms of what the network makes of the attempts so far. */
    ghost predicate Between(before: seq<byte>)
      reads this, replies
    {
      AtHead(before, Expected(network, attempts)) && AllLost(network, attempts)
    }

    /** The thread's end, in these terms. */
    ghost predicate Gone(before: seq<byte>, ending: Ending)
      reads this, replies
    {
      var last := if attempts > 0 then attempts - 1 else 0;
      && Left(before, Expected(network, last), Expected(network, attempts), ending)
      && AllLost(network, last) && (ending.Waiting? ==> attempts > 0 && StaysUp(network(last)))
    }

    /** The outer loop, whose head always finds connected_to_server negative. */
    method Connections(bound: nat) returns (ending: Ending)
      requires Tracked()
      requires trace == [] && requests != replies && attempts == 0 && looks == 0
      modifies this, replies
      ensures Tracked() && attempts <= bound
      ensures if ending.OutOfAttempts? then
                attempts == bound && Between(old(replies.bytes)) && !Seen()
                && looks == Expected(network, attempts).looks + 1
              else Gone(old(replies.bytes), ending)
    {
      ghost var before := replies.bytes;
      connectedToServer := -1;
      assert before + [] == before;
      var stop := StopFlag();
      while !stop
        invariant Tracked() && Between(before) && attempts <= bound
        invariant stop == Seen() && (stop ==> stopAt >= looks - 3)
        invariant !stop ==> looks == Expected(network, attempts).looks + 1
        decreases bound - attempts, !stop
      {
        if attempts == bound {
          return OutOfAttempts;
        }
        var over: bool;
        over, ending := Round(before);
        if over {
          return;
        }
        stop := StopFlag();
      }
      ReturnFromHead(before);
      ending := Stopped;
    }

    ghost method ReturnFromHead(before: seq<byte>)
      requires Tracked() && Between(before) && Seen() && stopAt >= looks - 3
      modifies this`trace, this`phase, this`tally
      ensures Tracked() && Gone(before, Stopped)
    {
      Log(Returned);
      LastExpected(network, attempts, before);
    }

    /** A round, in the same terms. */
    method Round(ghost before: seq<byte>) returns (over: bool, ending: Ending)
      requires Tracked() && Between(before) && requests != replies && !Seen()
      requires looks == Expected(network, attempts).looks + 1
      modifies this`trace, this`phase, this`tally
      modifies this`stopRequestReadThread, this`connectedToServer, this`looks, this`attempts, replies
      ensures Tracked() && attempts == old(attempts) + 1
      ensures if over then Gone(before, ending)
              else Between(before) && !Seen() && looks == Expected(network, attempts).looks
    {
      ghost var sc := Expected(network, attempts);
      over, ending := TryOnce(before, sc);
      assert Expected(network, attempts) == Next(sc, network(attempts - 1));
    }

    /** One round of the outer loop; not over means that the loop's head comes next. */
    method TryOnce(ghost before: seq<byte>, ghost sc: Score) returns (over: bool, ending: Ending)
      requires Tracked()
      requires AtHead(before, sc) && requests != replies && !Seen() && looks == sc.looks + 1
      modifies this`trace, this`phase, this`tally
      modifies this`stopRequestReadThread, this`connectedToServer, this`looks, this`attempts, replies
      ensures Tracked() && attempts == old(attempts) + 1
      ensures var next := Next(sc, network(attempts - 1));
              && (!over ==> AtHead(before, next) && !Seen() && looks == next.looks && !StaysUp(network(attempts - 1)))
              && (over ==> Left(before, sc, next, ending))
              && (over && ending.Waiting? ==> StaysUp(network(attempts - 1)))
    {
      ghost var was, bytes := tally, replies.bytes;
      Connect();
      if connectedToServer < 0 {
        over, ending := false, Stopped;
      } else {
        over, ending := OnConnection();
        BroughtOn(network(attempts - 1), was.(tried := was.tried + 1, linked := was.linked + 1), tally,
                  before, sc.delivered, replies.bytes);
      }
    }

    /** From a successful connect to the end of the round. */
    method OnConnection() returns (over: bool, ending: Ending)
      requires Tracked()
      requires phase.Linked? && connectedToServer >= 0 && !Seen() && requests != replies
      requires attempts > 0 && network(attempts - 1).Accepted?
      modifies this`trace, this`phase, this`tally
      modifies this`stopRequestReadThread, this`connectedToServer, this`looks, replies
      ensures Tracked()
      ensures var a := network(attempts - 1);
              && Brought(a, old(tally), tally, old(replies.bytes), replies.bytes)
              && (!over ==>
                    && tally.enqueued == old(tally).enqueued + Replies(a) && !StaysUp(a) && !Seen()
                    && phase.Dropped? && connectedToServer == -1 && looks == old(looks) + Replies(a) + 3)
              && (over ==> !ending.OutOfAttempts?)
              && (over && ending.Waiting? ==>
                    && tally.enqueued == old(tally).enqueued + Replies(a) && StaysUp(a) && !Seen()
                    && phase.Reading? && looks == old(looks) + Replies(a) + 2)
              && (over && ending.Stopped? ==> phase.Over? && Seen() && stopAt >= looks - 3)
    {
      var ep := Connection();
      var blocked := ConnectedLoop(ep, network(attempts - 1));
      if blocked {
        return true, Waiting;
      }
      var stop := StopFlag();
      if stop {
        Leave();
        return true, Stopped;
      }
      over, ending := false, Stopped;
    }

    /** The whole thread, followed for that many attempts to connect. It makes them all unless it
        comes to wait for ever on a connection that stays up, or finds the stop flag up; that it
        does within three looks of the flag's going up. All replies that arrive whole and in a
        row on each connection have gone into the reply pipe, except that on the last one the
        stop flag may cut them short. Its trace is never wrong, so the readers are as
        ReadersPerConnect says. */
    method Run(bound: nat) returns (ending: Ending)
      requires Tracked()
      requires trace == [] && requests != replies && attempts == 0 && looks == 0
      modifies this, replies
      ensures Tracked()
      ensures !Watched(trace).Wrong? && attempts <= bound
      ensures tally.tried == attempts && tally.linked == Expected(network, attempts).links
      ensures Count(trace, ConnectOk) == Count(trace, Spawn) + if StoppedAtConnect(trace) then 1 else 0
      ensures Grown(old(replies.bytes), replies.bytes, tally.enqueued)
      ensures ending.OutOfAttempts? ==>
                && attempts == bound && AllLost(network, bound) && !Seen()
                && (phase.Outside? || phase.Dropped?)
                && replies.bytes == old(replies.bytes) + Expected(network, attempts).delivered
                && looks == Expected(network, attempts).looks + 1
      ensures ending.Waiting? ==>
                && attempts > 0 && AllLost(network, attempts - 1) && StaysUp(network(attempts - 1)) && !Seen()
                && phase.Reading?
                && replies.bytes == old(replies.bytes) + Expected(network, attempts).delivered
                && looks + 1 == Expected(network, attempts).looks
      ensures ending.Stopped? ==>
                && phase.Over? && Seen() && stopAt >= looks - 3
                && (attempts > 0 ==> AllLost(network, attempts - 1))
                && replies.bytes <= old(replies.bytes) + Expected(network, attempts).delivered
                && (attempts > 0 ==> old(replies.bytes) + Expected(network, attempts - 1).delivered <= replies.bytes)
    {
      ending := Connections(bound);
      ReadersPerConnect(trace);
    }
  }

  /** now is was with that many whole records behind it. */
  predicate Grown(was: seq<byte>, now: seq<byte>, records: int) {
    was <= now && |now| == |was| + RECORD * records
  }

  ghost predicate Attached(ep: Endpoint, a: Attempt)
    reads ep.socket
  {
    && a.Accepted? && ep.socket.incoming == a.incoming && ep.socket.recvAnswers == a.recvAnswers
    && ep.socket.recvCalls == 0 && !ep.socket.closed
  }

  /** On the connection of attempt a replies have been enqueued, as now says. */
  predicate Brought(a: Attempt, was: Tally, now: Tally, before: seq<byte>, after: seq<byte>) {
    && now == was.(enqueued := now.enqueued) && was.enqueued <= now.enqueued <= was.enqueued + Replies(a)
    && a.Accepted? && after == before + a.incoming[..RECORD * (now.enqueued - was.enqueued)]
  }

  lemma BroughtOn(a: Attempt, was: Tally, now: Tally, before: seq<byte>, delivered: seq<byte>, after: seq<byte>)
    requires Brought(a, was, now, before + delivered, after) && Grown(before, before + delivered, was.enqueued)
    ensures Grown(before, after, now.enqueued)
    ensures before + delivered <= after <= before + (delivered + Front(a))
    ensures now.enqueued == was.enqueued + Replies(a) ==> after == before + (delivered + Front(a))
  {
    var k := now.enqueued - was.enqueued;
    PrefixBehind(before, delivered, a.incoming[..RECORD * k], Front(a));
  }

  lemma PrefixBehind(before: seq<byte>, delivered: seq<byte>, part: seq<byte>, front: seq<byte>)
    requires part <= front
    ensures before + delivered <= before + delivered + part <= before + (delivered + front)
    ensures part == front ==> before + delivered + part == before + (delivered + front)
  {
    assert before + (delivered + front) == before + delivered + front;
    assert front == part + front[|part|..];
    assert before + delivered + front == before + delivered + part + front[|part|..];
  }

  lemma LastExpected(network: nat -> Attempt, n: nat, before: seq<byte>)
    requires AllLost(network, n)
    ensures var last := if n > 0 then n - 1 else 0;
            && AllLost(network, last)
            && before + Expected(network, last).delivered <= before + Expected(network, n).delivered
  {
    if n > 0 {
      PrefixBehind(before, Expected(network, n - 1).delivered, [], Front(network(n - 1)));
    }
  }

  /** A hop's acts for so many whole records received in a row. */
  lemma {:induction false} WholeReplies(h: R.Hop, done: nat) returns (acts: seq<R.Act>)
    requires h.Tcp? && h.receiver.Receiving? && RECORD * done <= |h.wire|
    ensures R.HopRuns(h, acts) && R.AllByReceiver(acts)
    ensures var g := R.HopAfter(h, acts);
            && g.Tcp? && g.receiver.Receiving? && g.wire == h.wire[RECORD * done..]
            && g.output == h.output + h.wire[..RECORD * done]
    decreases done
  {
    if done == 0 {
      acts := [];
      assert h.output + h.wire[..0] == h.output;
    } else {
      var turn := [R.Recv(RECORD), R.NoteReceived, R.Forward];
      var g := WholeTurn(h);
      acts := WholeReplies(g, done - 1);
      R.HopRunsBoth(h, turn, acts);
      acts := turn + acts;
      TwoParts(h.output, h.wire, RECORD, RECORD * done);
    }
  }

  lemma WholeTurn(h: R.Hop) returns (g: R.Hop)
    requires h.Tcp? && h.receiver.Receiving? && RECORD <= |h.wire|
    ensures var turn := [R.Recv(RECORD), R.NoteReceived, R.Forward];
            R.HopRuns(h, turn) && R.AllByReceiver(turn) && R.HopAfter(h, turn) == g
    ensures g.Tcp? && g.receiver.Receiving? && g.wire == h.wire[RECORD..] && g.output == h.output + h.wire[..RECORD]
  {
    var r := R.Acted(h, R.Recv(RECORD));
    R.TwoActs(h, R.Recv(RECORD), R.NoteReceived);
    R.HopRunsOn(h, [R.Recv(RECORD), R.NoteReceived], R.Forward);
    assert [R.Recv(RECORD), R.NoteReceived] + [R.Forward] == [R.Recv(RECORD), R.NoteReceived, R.Forward];
    g := R.Acted(R.Acted(r, R.NoteReceived), R.Forward);
    assert r.recvBuffer == h.wire[..RECORD];
  }

  lemma TwoParts(a: seq<byte>, b: seq<byte>, i: nat, j: nat)
    requires i <= j <= |b|
    ensures a + b[..i] + b[i..][..j - i] == a + b[..j] && b[i..][j - i..] == b[j..]
  {
    assert b[i..][..j - i] == b[i..j];
    assert b[..i] + b[i..j] == b[..j];
  }

  /** The acts of the reply loop, for a hop that receives what the loop does. */
  lemma ReplyActs(h: R.Hop, all: seq<byte>, answers: Answers, call: nat, n: nat, done: nat, lost: bool)
    returns (acts: seq<R.Act>)
    requires h.Tcp? && h.receiver.Receiving? && h.wire == all && done <= n && InARow(answers, call, |all|, n)
    requires lost ==> Ended(all, answers, call, n, done, false)
    ensures R.HopRuns(h, acts) && R.AllByReceiver(acts)
    ensures var g := R.HopAfter(h, acts);
            && g.Tcp? && g.output == h.output + all[..RECORD * done]
            && (if lost then g.receiver.Closed? else g.receiver.Receiving?)
  {
    acts := WholeReplies(h, done);
    if lost {
      acts := BadReply(h, acts, answers(call + done));
    }
  }

  /** And for a bad receive behind them. */
  lemma BadReply(h: R.Hop, acts: seq<R.Act>, answer: int) returns (more: seq<R.Act>)
    requires R.HopRuns(h, acts) && R.AllByReceiver(acts)
    requires var g := R.HopAfter(h, acts);
             && g.Tcp? && g.receiver.Receiving?
             && (answer < RECORD || |g.wire| < RECORD) && !(g.wire == [] && answer >= 1)
    ensures R.HopRuns(h, more) && R.AllByReceiver(more)
    ensures var z := R.HopAfter(h, more);
            z.Tcp? && z.receiver.Closed? && z.output == R.HopAfter(h, acts).output
  {
    var g := R.HopAfter(h, acts);
    var a := if answer < 1 then R.RecvFails else R.Recv(Received(answer, |g.wire|));
    R.TwoActs(g, a, R.Close);
    R.HopRunsBoth(h, acts, [a, R.Close]);
    more := acts + [a, R.Close];
  }

  /** Spawn, ConnectOk and RaiseFlag in every trace that is not wrong: once a reader has been
      spawned, the flag that stops it is raised before the next connect is even tried and
      before the thread returns. */
  lemma FlagBeforeReconnect(t: seq<Event>, i: nat, j: nat)
    requires !Watched(t).Wrong? && i < j < |t|
    requires t[i] == Spawn && (t[j].Trying? || t[j] == ConnectOk || t[j] == Returned)
    ensures exists k :: i < k < j && t[k] == RaiseFlag
  {
    PrefixNotWrong(t, j + 1);
    PrefixNotWrong(t, j);
    PrefixNotWrong(t, i + 1);
    assert t[..j + 1][..j] == t[..j] && t[..i + 1][..i] == t[..i];
    if forall k :: i < k < j ==> t[k] != RaiseFlag {
      StaysIn(t, i, j);
    }
  }

  /** What comes right before each event of a trace that is not wrong: a try with nothing connected
      before its outcome; a connect, then the cleared flag, before a reader; a whole record before
      each that is enqueued; and for a lost connection the close, the new socket and the raised
      flag in this order, for the exit on the stop flag the close, the raised flag and the return. */
  lemma Neighbours(t: seq<Event>, i: nat)
    requires !Watched(t).Wrong? && i < |t|
    ensures match t[i]
            case Trying(connected) => connected < 0 && (i == 0 || t[i - 1].ConnectFailed? || t[i - 1].RaiseFlag?)
            case ConnectFailed => i > 0 && t[i - 1].Trying?
            case ConnectOk => i > 0 && t[i - 1].Trying?
            case ClearFlag => i > 0 && t[i - 1].ConnectOk?
            case Spawn => i > 0 && t[i - 1].ClearFlag?
            case Whole => i > 0 && (t[i - 1].Spawn? || t[i - 1].Enqueue?)
            case Enqueue => i > 0 && t[i - 1].Whole?
            case Bad => i > 0 && (t[i - 1].Spawn? || t[i - 1].Enqueue?)
            case StopSeen => i > 0 && (t[i - 1].ConnectOk? || t[i - 1].Spawn? || t[i - 1].Enqueue?)
            case CloseSocket => i > 0 && (t[i - 1].Bad? || t[i - 1].StopSeen? || t[i - 1].RaiseFlag?)
            case NewSocket => i > 0 && t[i - 1].CloseSocket?
            case RaiseFlag => i > 0 && (t[i - 1].NewSocket? || t[i - 1].CloseSocket?)
            case Returned => i == 0 || t[i - 1].ConnectFailed? || t[i - 1].RaiseFlag?
  {
    PrefixNotWrong(t, i + 1);
    assert t[..i + 1][..i] == t[..i];
    if i > 0 {
      PrefixNotWrong(t, i);
      assert t[..i][..i - 1] == t[..i - 1];
    }
  }

  lemma {:induction false} PrefixNotWrong(t: seq<Event>, n: nat)
    requires !Watched(t).Wrong? && n <= |t|
    ensures !Watched(t[..n]).Wrong?
  {
    if n == |t| {
      assert t[..n] == t;
    } else {
      PrefixNotWrong(t[..|t| - 1], n);
      assert t[..|t| - 1][..n] == t[..n];
    }
  }

  /** Without a raised flag a trace does not get out of the phases in which a reader runs. */
  lemma {:induction false} StaysIn(t: seq<Event>, i: nat, j: nat)
    requires !Watched(t).Wrong? && i < j <= |t| && t[i] == Spawn
    requires forall k :: i < k < j ==> t[k] != RaiseFlag
    ensures Watched(t[..j]) in {Reading, InHand, Broken, Shut, Renewed, Stopping, Closing}
  {
    PrefixNotWrong(t, j);
    assert t[..j][..j - 1] == t[..j - 1];
    if i + 1 < j {
      StaysIn(t, i, j - 1);
    }
  }
}
