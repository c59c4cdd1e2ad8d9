/** When a host that waits can still be answered: exactly as long as its transaction is not lost
    in the sense of Reconnect. For every state in which it is not, a schedule is given that brings
    the reply, over a new connection if the old ones are of no use. */
module Recovery {
  import opened Packets
  import opened Reconnect
  import C = Channel

  /** The host waits, and its transaction, at u or d, is not lost. */
  ghost predicate Hopeful(s: State, u: C.Place, d: C.Place) {
    && Inv(s, u, d) && ControlOk(s) && ReadersOk(s) && TrafficOk(s)
    && !Lost(s, u, d) && |s.asked| == |s.got| + 1 && !s.device.Finished?
  }

  /** In t the host has the answer to the request it has sent in s; or, if that was the stop
      packet, the device has finished. */
  predicate Through(s: State, t: State) {
    && t.asked == s.asked
    && if IsStop(Request(s)) then t.device.Finished? && t.got == s.got else t.got == s.got + [Reply(Request(s))]
  }

  /** Some way of going on gets the host's request through. */
  ghost predicate Answerable(s: State) {
    exists es :: Runs(s, es) && Through(s, After(s, es))
  }

  lemma AnswerableBefore(s: State, e: Event)
    requires Can(s, e) && SameWait(s, Next(s, e)) && Answerable(Next(s, e))
    ensures Answerable(s)
  {
    var es :| Runs(Next(s, e), es) && Through(Next(s, e), After(Next(s, e), es));
    RunsCons(s, e, es);
  }

  predicate SameWait(s: State, t: State) {
    t.asked == s.asked && t.got == s.got
  }

  lemma StaysWaiting(s: State, e: Event)
    requires Can(s, e) && !e.Ask? && !e.Collect?
    ensures SameWait(s, Next(s, e))
  {
  }

  // ---- How far it is to the reply

  function Stage(s: State, u: C.Place, d: C.Place): nat {
    if !u.Nowhere? then 16 - C.Rank(u) else if s.device.Answering? then 8 else 7 - C.Rank(d)
  }

  /** The newest worker has not read its pipe yet, and will send on sock. */
  predicate NewWorker(ch: C.Channel, sock: int) {
    ch.workers != [] &&
    var k := ch.workers[|ch.workers| - 1];
    k.pc.Starting? || (k.sock == sock && (k.pc.Checking? || k.pc.Reading?))
  }

  function WorkerDistance(ch: C.Channel): nat
    requires ch.workers != []
  {
    match ch.workers[|ch.workers| - 1].pc
    case Starting => 3
    case Checking => 2
    case _ => 1
  }

  /** To a reader that reads the request: a new one, on a new connection unless the present one
      is still good. */
  function ReaderDistance(s: State): nat {
    var good := C.Carries(s.up, s.client.sock);
    match s.client.pc
    case Receiving =>
      if good && NewWorker(s.up, s.client.sock) then WorkerDistance(s.up)
      else if s.down.receiver.Bad? then 8 else 9
    case Connected => if good then 4 else 10
    case Connecting => 5
    case Flagging => 6
    case Dropped => 7
  }

  function SendDistance(s: State, w: nat): nat {
    if !C.InSend(s.up, w) || s.up.workers[w].sock in s.linked then 0
    else if s.client.pc.Connecting? then 1 else 2
  }

  /** To the server thread reading connection sock. */
  function ServeDistance(s: State, sock: int): nat {
    match s.server.pc
    case Serving => if s.server.sock == sock then 1 else if s.up.receiver.Bad? then 5 else 6
    case Accepted => if s.server.sock == sock then 2 else 7
    case Accepting => 3
    case Leaving => 4
  }

  /** The server has not closed the client's connection, nor spent its replier, and can send. */
  predicate Usable(s: State) {
    && C.Socket(s.up, s.client.sock) && !s.up.streams[s.client.sock].done && C.Working(s.down, s.client.sock)
    && (s.server.pc.Serving? && s.server.sock == s.client.sock ==> NewWorker(s.down, s.client.sock))
  }

  /** To a replier that reads the reply. */
  function ReplierDistance(s: State): nat {
    match s.client.pc
    case Receiving =>
      if s.down.receiver.Bad? then 14
      else if !Usable(s) then 15
      else if s.server.pc.Serving? && s.server.sock == s.client.sock then WorkerDistance(s.down)
      else ServeDistance(s, s.client.sock) + 2
    case Connected => if Usable(s) then 10 else 16
    case Connecting => 11
    case Flagging => 12
    case Dropped => 13
  }

  function Distance(s: State, u: C.Place, d: C.Place): nat {
    if u.AtInput? then ReaderDistance(s)
    else if u.With? then SendDistance(s, u.w)
    else if u.OnWire? then ServeDistance(s, u.sock)
    else if d.AtInput? then ReplierDistance(s)
    else if d.OnWire? && s.client.pc.Connected? then 1
    else 0
  }

  /** e brings the reply nearer. */
  predicate Nearer(s: State, u: C.Place, d: C.Place, e: Event) {
    && Can(s, e) && !e.Ask? && !e.Collect? && !Loses(s, u, d, e) && !Next(s, e).device.Finished?
    && var t, v, f := Next(s, e), NextUp(s, u, e), NextDown(s, d, e);
       Stage(t, v, f) < Stage(s, u, d)
       || (Stage(t, v, f) == Stage(s, u, d) && Distance(t, v, f) < Distance(s, u, d))
  }

  lemma StaysHopeful(s: State, u: C.Place, d: C.Place, e: Event)
    requires Hopeful(s, u, d) && Nearer(s, u, d, e)
    ensures Hopeful(Next(s, e), NextUp(s, u, e), NextDown(s, d, e)) && SameWait(s, Next(s, e))
  {
    StaysWaiting(s, e);
    StepControl(s, e);
    StaysFound(s, u, d, e);
  }

  // ---- One step nearer

  /** Towards a new connection, when nothing is on its way on the old one. */
  function Reconnecting(s: State): Event {
    match s.client.pc
    case Receiving => if s.down.receiver.Bad? then Down(C.Hangup) else Down(C.RecvFails)
    case Connected => SpawnReader
    case Connecting => Connect(true)
    case Flagging => StopReaders
    case Dropped => Resocket
  }

  lemma Reconnects(s: State, u: C.Place, d: C.Place)
    requires Hopeful(s, u, d) && !u.With? && (d.Nowhere? || d.AtInput?)
    ensures Can(s, Reconnecting(s)) && !Loses(s, u, d, Reconnecting(s))
    ensures NextUp(s, u, Reconnecting(s)) == u && NextDown(s, d, Reconnecting(s)) == d
  {
    if s.client.pc.Receiving? {
      GivesUp(s, u, d);
    }
  }

  lemma GivesUp(s: State, u: C.Place, d: C.Place)
    requires Hopeful(s, u, d) && !u.With? && (d.Nowhere? || d.AtInput?) && s.client.pc.Receiving?
    ensures Can(s, Reconnecting(s)) && !Loses(s, u, d, Reconnecting(s))
    ensures NextUp(s, u, Reconnecting(s)) == u && NextDown(s, d, Reconnecting(s)) == d
  {
  }

  function WorkerStep(ch: C.Channel, sock: int): C.Act
    requires ch.workers != []
  {
    var w := |ch.workers| - 1;
    match ch.workers[w].pc
    case Starting => C.Begin(w, sock)
    case Checking => C.Proceed(w)
    case _ => C.Read(w)
  }

  lemma NewReaderReads(s: State, u: C.Place, d: C.Place)
    requires Hopeful(s, u, d) && u.AtInput? && s.client.pc.Receiving?
    requires C.Carries(s.up, s.client.sock) && NewWorker(s.up, s.client.sock)
    ensures Nearer(s, u, d, Up(WorkerStep(s.up, s.client.sock)))
  {
  }

  lemma RequestWaits(s: State, u: C.Place, d: C.Place) returns (e: Event)
    requires Hopeful(s, u, d) && u.AtInput?
    ensures Nearer(s, u, d, e)
  {
    if s.client.pc.Receiving? && C.Carries(s.up, s.client.sock) && NewWorker(s.up, s.client.sock) {
      e := Up(WorkerStep(s.up, s.client.sock));
      NewReaderReads(s, u, d);
    } else {
      e := Reconnecting(s);
      Reconnects(s, u, d);
      ReaderNearer(s);
    }
  }

  lemma ReaderNearer(s: State)
    requires ControlOk(s) && ReadersOk(s) && TrafficOk(s) && Can(s, Reconnecting(s))
    requires !(s.client.pc.Receiving? && C.Carries(s.up, s.client.sock) && NewWorker(s.up, s.client.sock))
    ensures ReaderDistance(Next(s, Reconnecting(s))) < ReaderDistance(s)
  {
    if s.client.pc.Connecting? {
      FreshConnection(s);
    }
  }

  /** A connection just made has not been touched by the server. */
  lemma FreshConnection(s: State)
    requires ControlOk(s) && ReadersOk(s) && TrafficOk(s) && s.client.pc.Connecting?
    ensures s.client.sock !in s.linked && s.server.sock != s.client.sock
    ensures C.Carries(s.up, s.client.sock) && C.Working(s.down, s.client.sock)
  {
  }

  lemma RequestWithReader(s: State, u: C.Place, d: C.Place) returns (e: Event)
    requires Hopeful(s, u, d) && u.With?
    ensures Nearer(s, u, d, e)
  {
    var k := s.up.workers[u.w];
    if k.sock in s.linked {
      e := Up(C.Send(u.w, RECORD - k.pc.count));
    } else {
      assert k.sock == s.client.sock;
      e := Reconnecting(s);
    }
  }

  /** Towards the server thread reading sock. */
  function Accepting(s: State, sock: nat): Event {
    match s.server.pc
    case Serving => if s.up.receiver.Bad? then Up(C.Hangup) else Up(C.RecvFails)
    case Accepted => SpawnReplier
    case Accepting => Accept(sock)
    case Leaving => StopRepliers
  }

  lemma Accepts(s: State, u: C.Place, d: C.Place, sock: nat)
    requires Hopeful(s, u, d) && (u.Nowhere? || u == C.OnWire(sock)) && !d.With?
    requires sock in s.linked && C.Socket(s.up, sock) && !s.up.streams[sock].done
    requires !(s.server.pc.Serving? && s.server.sock == sock)
    ensures var e := Accepting(s, sock);
            && Can(s, e) && !e.Ask? && !e.Collect? && !Loses(s, u, d, e)
            && NextUp(s, u, e) == u && NextDown(s, d, e) == d
  {
  }

  lemma AcceptNearer(s: State, sock: nat)
    requires ControlOk(s) && TrafficOk(s) && Can(s, Accepting(s, sock))
    requires !(s.server.pc.Serving? && s.server.sock == sock)
    ensures var t := Next(s, Accepting(s, sock));
            && ServeDistance(t, sock) < ServeDistance(s, sock)
            && t.client == s.client && t.down.receiver == s.down.receiver && t.device == s.device
            && (sock == s.client.sock && Usable(s) ==> Usable(t))
            && (t.server.pc.Serving? && t.server.sock == sock ==>
                  ServeDistance(s, sock) == 2 && t.down.workers != [] && WorkerDistance(t.down) == 3)
  {
  }

  lemma RequestOnWire(s: State, u: C.Place, d: C.Place) returns (e: Event)
    requires Hopeful(s, u, d) && u.OnWire?
    ensures Nearer(s, u, d, e)
  {
    assert C.StreamIs(s.up, Request(s), u, u.sock);
    if s.server.pc.Serving? && s.server.sock == u.sock {
      e := Up(C.Recv(RECORD));
    } else {
      e := Accepting(s, u.sock);
      Accepts(s, u, d, u.sock);
      AcceptNearer(s, u.sock);
    }
  }

  lemma RequestReceived(s: State, u: C.Place, d: C.Place)
    requires Hopeful(s, u, d) && u.AtReceiver?
    ensures Nearer(s, u, d, Up(C.Deliver))
  {
  }

  lemma RequestServed(s: State, u: C.Place, d: C.Place)
    requires Hopeful(s, u, d) && u.AtOutput? && !IsStop(Request(s))
    ensures Nearer(s, u, d, Serve)
  {
  }

  lemma RequestAnswered(s: State, u: C.Place, d: C.Place)
    requires Hopeful(s, u, d) && s.device.Answering?
    ensures Nearer(s, u, d, Respond)
  {
  }

  lemma NewReplierReads(s: State, u: C.Place, d: C.Place)
    requires Hopeful(s, u, d) && d.AtInput? && s.client.pc.Receiving? && !s.down.receiver.Bad? && Usable(s)
    requires s.server.pc.Serving? && s.server.sock == s.client.sock
    ensures Nearer(s, u, d, Down(WorkerStep(s.down, s.client.sock)))
  {
  }

  lemma ReplierNearer(s: State)
    requires ControlOk(s) && ReadersOk(s) && TrafficOk(s) && Can(s, Reconnecting(s))
    requires !s.client.pc.Receiving? || s.down.receiver.Bad? || !Usable(s)
    ensures ReplierDistance(Next(s, Reconnecting(s))) < ReplierDistance(s)
  {
    if s.client.pc.Connecting? {
      FreshConnection(s);
    }
  }

  lemma ReplyWaits(s: State, u: C.Place, d: C.Place) returns (e: Event)
    requires Hopeful(s, u, d) && d.AtInput?
    ensures Nearer(s, u, d, e)
  {
    if !s.client.pc.Receiving? || s.down.receiver.Bad? || !Usable(s) {
      e := Reconnecting(s);
      Reconnects(s, u, d);
      ReplierNearer(s);
    } else if s.server.pc.Serving? && s.server.sock == s.client.sock {
      e := Down(WorkerStep(s.down, s.client.sock));
      NewReplierReads(s, u, d);
    } else {
      e := Accepting(s, s.client.sock);
      Accepts(s, u, d, s.client.sock);
      AcceptNearer(s, s.client.sock);
    }
  }

  lemma ReplyWithReplier(s: State, u: C.Place, d: C.Place) returns (e: Event)
    requires Hopeful(s, u, d) && d.With?
    ensures Nearer(s, u, d, e)
  {
    e := Down(C.Send(d.w, RECORD - s.down.workers[d.w].pc.count));
  }

  lemma ReplyConnected(s: State, u: C.Place, d: C.Place)
    requires Hopeful(s, u, d) && d.OnWire? && s.client.pc.Connected?
    ensures Nearer(s, u, d, SpawnReader)
  {
  }

  lemma ReplyArrives(s: State, u: C.Place, d: C.Place)
    requires Hopeful(s, u, d) && d.OnWire? && !s.client.pc.Connected?
    ensures Nearer(s, u, d, Down(C.Recv(RECORD)))
  {
    assert C.StreamIs(s.down, Reply(Request(s)), d, d.sock);
  }

  lemma ReplyReceived(s: State, u: C.Place, d: C.Place)
    requires Hopeful(s, u, d) && d.AtReceiver?
    ensures Nearer(s, u, d, Down(C.Deliver))
  {
  }

  /** One step from the end. */
  predicate AtEnd(s: State, u: C.Place, d: C.Place) {
    d.AtOutput? || (u.AtOutput? && IsStop(Request(s)))
  }

  lemma OneStepUp(s: State, u: C.Place, d: C.Place) returns (e: Event)
    requires Hopeful(s, u, d) && !u.Nowhere? && !AtEnd(s, u, d)
    ensures Nearer(s, u, d, e)
  {
    if u.AtInput? {
      e := RequestWaits(s, u, d);
    } else if u.With? {
      e := RequestWithReader(s, u, d);
    } else if u.OnWire? {
      e := RequestOnWire(s, u, d);
    } else if u.AtReceiver? {
      e := Up(C.Deliver);
      RequestReceived(s, u, d);
    } else {
      e := Serve;
      RequestServed(s, u, d);
    }
  }

  lemma OneStepDown(s: State, u: C.Place, d: C.Place) returns (e: Event)
    requires Hopeful(s, u, d) && !d.Nowhere? && !AtEnd(s, u, d)
    ensures Nearer(s, u, d, e)
  {
    if d.AtInput? {
      e := ReplyWaits(s, u, d);
    } else if d.With? {
      e := ReplyWithReplier(s, u, d);
    } else if d.OnWire? && s.client.pc.Connected? {
      e := SpawnReader;
      ReplyConnected(s, u, d);
    } else if d.OnWire? {
      e := Down(C.Recv(RECORD));
      ReplyArrives(s, u, d);
    } else {
      e := Down(C.Deliver);
      ReplyReceived(s, u, d);
    }
  }

  lemma OneStep(s: State, u: C.Place, d: C.Place) returns (e: Event)
    requires Hopeful(s, u, d) && !AtEnd(s, u, d)
    ensures Nearer(s, u, d, e)
  {
    if !u.Nowhere? {
      e := OneStepUp(s, u, d);
    } else if !d.Nowhere? {
      e := OneStepDown(s, u, d);
    } else {
      e := Respond;
      RequestAnswered(s, u, d);
    }
  }

  lemma LastStep(s: State, u: C.Place, d: C.Place) returns (e: Event)
    requires Hopeful(s, u, d) && AtEnd(s, u, d)
    ensures Can(s, e) && Through(s, Next(s, e))
  {
    e := if d.AtOutput? then Collect else Serve;
  }

  lemma ThroughInOne(s: State, e: Event)
    requires Can(s, e) && Through(s, Next(s, e))
    ensures Answerable(s)
  {
    var es := [e];
    assert es[1..] == [] && Runs(Next(s, e), es[1..]);
    assert Runs(s, es) && After(s, es) == Next(s, e);
  }

  lemma {:induction false} HopefulIsAnswerable(s: State, u: C.Place, d: C.Place)
    requires Hopeful(s, u, d)
    ensures Answerable(s)
    decreases Stage(s, u, d), Distance(s, u, d)
  {
    if AtEnd(s, u, d) {
      var e := LastStep(s, u, d);
      ThroughInOne(s, e);
    } else {
      var e := OneStep(s, u, d);
      StaysHopeful(s, u, d, e);
      HopefulIsAnswerable(Next(s, e), NextUp(s, u, e), NextDown(s, d, e));
      AnswerableBefore(s, e);
    }
  }

  /** Whatever happens, nothing comes of the host's request any more. */
  ghost predicate Never(s: State) {
    forall es :: Runs(s, es) ==> After(s, es).got == s.got && !After(s, es).device.Finished?
  }

  lemma LostIsNever(s: State, u: C.Place, d: C.Place)
    requires Inv(s, u, d) && Lost(s, u, d) && ControlOk(s) && ReadersOk(s) && TrafficOk(s)
    ensures Never(s)
  {
    forall es | Runs(s, es)
      ensures After(s, es).got == s.got && !After(s, es).device.Finished?
    {
      LostForEver(s, u, d, es);
    }
  }

  lemma NeverIsNotAnswerable(s: State)
    requires Never(s)
    ensures !Answerable(s)
  {
    forall es | Runs(s, es)
      ensures !Through(s, After(s, es))
    {
      assert After(s, es).got == s.got && !After(s, es).device.Finished?;
    }
  }

  lemma FoundIsAnswerable(s: State, u: C.Place, d: C.Place)
    requires Inv(s, u, d) && !Lost(s, u, d) && ControlOk(s) && ReadersOk(s) && TrafficOk(s)
    requires |s.asked| == |s.got| + 1
    ensures Answerable(s)
  {
    if s.device.Finished? {
      assert Runs(s, []) && Through(s, After(s, []));
    } else {
      HopefulIsAnswerable(s, u, d);
    }
  }

  /** For a waiting host in any reachable state, after any number of connection losses: some way
      of going on brings it the answer to its request, or the stop packet to the device, if and
      only if neither request nor reply is lost; and if one is, no way of going on brings it
      anything. */
  lemma AnswerableUnlessLost(s: State, es: seq<Event>)
    requires Start(s) && Runs(s, es) && |After(s, es).asked| == |After(s, es).got| + 1
    ensures var t := After(s, es);
            (Answerable(t) <==> !Abandoned(t)) && (Never(t) <==> Abandoned(t))
  {
    var t := After(s, es);
    var u, d := RunOk(s, es);
    NotAlsoLost(t, u, d);
    if Lost(t, u, d) {
      LostIsNever(t, u, d);
    } else {
      FoundIsAnswerable(t, u, d);
    }
    if Never(t) {
      NeverIsNotAnswerable(t);
    }
  }
}
