/** A hop of Relay in TCP mode is what one worker and the receiver of Channel do on one
    connection: every act of the hop is an act of the channel. So what is proved of the thread
    bodies against Relay is proved against Channel and Reconnect as well. */
module Connection {
  import opened Bytes
  import opened Packets
  import opened Framing
  import R = Relay
  import C = Channel
  import N = Reconnect

  /** The sending end of h is worker w of ch, sending on sock. */
  predicate Speaks(h: R.Hop, ch: C.Channel, w: nat, sock: nat) {
    && h.Tcp? && w < |ch.workers| && ch.workers[w].sock == sock && C.Socket(ch, sock)
    && h.input == Joined(ch.input) && h.sendBuffer == ch.sendBuffer
    && h.wire == ch.streams[sock].bytes && h.broken == ch.streams[sock].failed
    && match h.sender
       case Reading => ch.workers[w].pc.Reading?
       case Sending(count) => ch.workers[w].pc == C.Sending(count)
       case _ => ch.workers[w].pc.Checking?
  }

  /** The receiving end of h is the receiver of ch, receiving from sock. */
  predicate Hears(h: R.Hop, ch: C.Channel, sock: nat) {
    && h.Tcp? && C.Socket(ch, sock)
    && h.output == Joined(ch.output) && h.recvBuffer == ch.recvBuffer && h.wire == ch.streams[sock].bytes
    && match h.receiver
       case Receiving => ch.receiver == C.On(sock)
       case Received => ch.receiver == C.Full(sock)
       case Counted => ch.receiver == C.Full(sock)
       case Short => ch.receiver == C.Bad(sock)
       case Closed => ch.receiver == C.Off && ch.streams[sock].done
  }

  /** What the hop's act is in the channel; counting is nothing there. */
  function AsActs(a: R.Act, w: nat): seq<C.Act> {
    match a
    case Fetch => [C.Read(w)]
    case Send(n) => [C.Send(w, n)]
    case SendNothing => [C.SendDone(w)]
    case SendFails => [C.SendFails(w, true)]
    case NoteSent => [C.Proceed(w)]
    case Recv(n) => [C.Recv(n)]
    case RecvFails => [C.RecvFails]
    case NoteReceived => []
    case Forward => [C.Deliver]
    case Close => [C.Hangup]
  }

  function Nexts(ch: C.Channel, bs: seq<C.Act>): C.Channel
    requires bs == [] || (|bs| == 1 && C.Can(ch, bs[0]))
  {
    if bs == [] then ch else C.Next(ch, bs[0])
  }

  lemma FetchAgrees(h: R.Hop, ch: C.Channel, w: nat, sock: nat)
    requires Speaks(h, ch, w, sock) && R.CanAct(h, R.Fetch)
    ensures C.Can(ch, C.Read(w)) && Speaks(R.Acted(h, R.Fetch), C.Next(ch, C.Read(w)), w, sock)
  {
    assert ch.input != [];
    assert h.input[..RECORD] == ch.input[0] && h.input[RECORD..] == Joined(ch.input[1..]);
    assert Overlay(h.input[..RECORD], h.sendBuffer) == ch.input[0];
  }

  /** One act of the sending thread is one act of the worker. */
  lemma SenderAgrees(h: R.Hop, ch: C.Channel, w: nat, sock: nat, a: R.Act)
    requires Speaks(h, ch, w, sock) && R.CanAct(h, a) && !R.ByReceiver(a)
    ensures var bs := AsActs(a, w);
            && |bs| == 1 && C.Can(ch, bs[0]) && Speaks(R.Acted(h, a), Nexts(ch, bs), w, sock)
            && forall c :: Hears(h, ch, c) && c == sock ==> Hears(R.Acted(h, a), Nexts(ch, bs), c)
  {
    if a.Fetch? {
      FetchAgrees(h, ch, w, sock);
    }
  }

  /** One act of the receiving thread is one act of the receiver, or none. */
  lemma ReceiverAgrees(h: R.Hop, ch: C.Channel, sock: nat, a: R.Act, w: nat)
    requires Hears(h, ch, sock) && R.CanAct(h, a) && R.ByReceiver(a)
    ensures var bs := AsActs(a, w);
            && (bs == [] || (|bs| == 1 && C.Can(ch, bs[0]))) && Hears(R.Acted(h, a), Nexts(ch, bs), sock)
            && (Speaks(h, ch, w, sock) ==> Speaks(R.Acted(h, a), Nexts(ch, bs), w, sock))
  {
    if a.Forward? {
      JoinedAppend(ch.output, ch.recvBuffer);
    }
  }

  // ---- Threads of client and server, as events of the whole system

  /** Worker w's acts, or a receiver's, in the direction from client to server. */
  function Ups(acts: seq<R.Act>, w: nat): seq<N.Event> {
    if acts == [] then [] else AsUps(acts[0], w) + Ups(acts[1..], w)
  }

  function AsUps(a: R.Act, w: nat): seq<N.Event> {
    if AsActs(a, w) == [] then [] else [N.Up(AsActs(a, w)[0])]
  }

  function Downs(acts: seq<R.Act>, w: nat): seq<N.Event> {
    if acts == [] then [] else AsDowns(acts[0], w) + Downs(acts[1..], w)
  }

  function AsDowns(a: R.Act, w: nat): seq<N.Event> {
    if AsActs(a, w) == [] then [] else [N.Down(AsActs(a, w)[0])]
  }

  lemma Prepended(s: N.State, ms: seq<N.Event>, more: seq<N.Event>)
    requires |ms| <= 1 && N.Runs(s, ms) && N.Runs(N.After(s, ms), more)
    ensures N.Runs(s, ms + more) && N.After(s, ms + more) == N.After(N.After(s, ms), more)
  {
    if ms == [] {
      assert ms + more == more;
    } else {
      OneEvent(s, ms[0]);
      assert ms == [ms[0]];
      N.RunsCons(s, ms[0], more);
    }
  }

  lemma OneEvent(s: N.State, e: N.Event)
    requires N.Can(s, e)
    ensures N.Runs(s, [e]) && N.After(s, [e]) == N.Next(s, e)
  {
    assert [e][1..] == [];
  }

  lemma SenderEvent(s: N.State, h: R.Hop, w: nat, sock: nat, a: R.Act)
    requires Speaks(h, s.up, w, sock) && R.CanAct(h, a) && !R.ByReceiver(a)
    requires N.ClientMaySend(s, sock) && !s.client.stopReaders
    ensures N.Runs(s, AsUps(a, w))
    ensures var t := N.After(s, AsUps(a, w));
            Speaks(R.Acted(h, a), t.up, w, sock) && N.ClientMaySend(t, sock) && !t.client.stopReaders
  {
    SenderAgrees(h, s.up, w, sock, a);
    OneEvent(s, N.Up(AsActs(a, w)[0]));
  }

  /** What a reader on a connection that is up does, turn by turn as in Endpoint.SendTurn, are
      events of the system. */
  lemma {:induction false} ReaderEvents(s: N.State, h: R.Hop, w: nat, sock: nat, acts: seq<R.Act>)
    requires Speaks(h, s.up, w, sock) && R.HopRuns(h, acts) && R.AllBySender(acts)
    requires N.ClientMaySend(s, sock) && !s.client.stopReaders
    ensures N.Runs(s, Ups(acts, w))
    ensures Speaks(R.HopAfter(h, acts), N.After(s, Ups(acts, w)).up, w, sock)
    decreases |acts|
  {
    if acts != [] {
      SenderEvent(s, h, w, sock, acts[0]);
      ReaderEvents(N.After(s, AsUps(acts[0], w)), R.Acted(h, acts[0]), w, sock, acts[1..]);
      Prepended(s, AsUps(acts[0], w), Ups(acts[1..], w));
    }
  }

  lemma ReceiverEvent(s: N.State, h: R.Hop, sock: nat, a: R.Act)
    requires Hears(h, s.down, sock) && R.CanAct(h, a) && R.ByReceiver(a)
    requires s.client.pc.Receiving? || h.receiver.Closed?
    ensures N.Runs(s, AsDowns(a, 0))
    ensures var t := N.After(s, AsDowns(a, 0));
            Hears(R.Acted(h, a), t.down, sock) && (t.client.pc.Receiving? || R.Acted(h, a).receiver.Closed?)
  {
    ReceiverAgrees(h, s.down, sock, a, 0);
    if AsActs(a, 0) != [] {
      OneEvent(s, N.Down(AsActs(a, 0)[0]));
    }
  }

  /** What the client thread's reply loop does on a connection, as Client.ReplyLoop lists it, are
      events of the system. */
  lemma {:induction false} ReplyLoopEvents(s: N.State, h: R.Hop, sock: nat, acts: seq<R.Act>)
    requires Hears(h, s.down, sock) && R.HopRuns(h, acts) && R.AllByReceiver(acts)
    requires s.client.pc.Receiving? || h.receiver.Closed?
    ensures N.Runs(s, Downs(acts, 0))
    ensures Hears(R.HopAfter(h, acts), N.After(s, Downs(acts, 0)).down, sock)
    decreases |acts|
  {
    if acts != [] {
      ReceiverEvent(s, h, sock, acts[0]);
      ReplyLoopEvents(N.After(s, AsDowns(acts[0], 0)), R.Acted(h, acts[0]), sock, acts[1..]);
      Prepended(s, AsDowns(acts[0], 0), Downs(acts[1..], 0));
    }
  }

  lemma ReplierEvent(s: N.State, h: R.Hop, w: nat, sock: nat, a: R.Act)
    requires Speaks(h, s.down, w, sock) && R.CanAct(h, a) && !R.ByReceiver(a)
    requires N.ServerMaySend(s, sock) && !s.server.stopRepliers
    ensures N.Runs(s, AsDowns(a, w))
    ensures var t := N.After(s, AsDowns(a, w));
            Speaks(R.Acted(h, a), t.down, w, sock) && N.ServerMaySend(t, sock) && !t.server.stopRepliers
  {
    SenderAgrees(h, s.down, w, sock, a);
    OneEvent(s, N.Down(AsActs(a, w)[0]));
  }

  /** What a replier on a connection that is up does. */
  lemma {:induction false} ReplierEvents(s: N.State, h: R.Hop, w: nat, sock: nat, acts: seq<R.Act>)
    requires Speaks(h, s.down, w, sock) && R.HopRuns(h, acts) && R.AllBySender(acts)
    requires N.ServerMaySend(s, sock) && !s.server.stopRepliers
    ensures N.Runs(s, Downs(acts, w))
    ensures Speaks(R.HopAfter(h, acts), N.After(s, Downs(acts, w)).down, w, sock)
    decreases |acts|
  {
    if acts != [] {
      ReplierEvent(s, h, w, sock, acts[0]);
      ReplierEvents(N.After(s, AsDowns(acts[0], w)), R.Acted(h, acts[0]), w, sock, acts[1..]);
      Prepended(s, AsDowns(acts[0], w), Downs(acts[1..], w));
    }
  }

  lemma ServerEvent(s: N.State, h: R.Hop, sock: nat, a: R.Act)
    requires Hears(h, s.up, sock) && R.CanAct(h, a) && R.ByReceiver(a)
    requires s.server.pc.Serving? || h.receiver.Closed?
    ensures N.Runs(s, AsUps(a, 0))
    ensures var t := N.After(s, AsUps(a, 0));
            Hears(R.Acted(h, a), t.up, sock) && (t.server.pc.Serving? || R.Acted(h, a).receiver.Closed?)
  {
    ReceiverAgrees(h, s.up, sock, a, 0);
    if AsActs(a, 0) != [] {
      OneEvent(s, N.Up(AsActs(a, 0)[0]));
    }
  }

  /** What the server thread's receive loop does on a connection. */
  lemma {:induction false} ServerLoopEvents(s: N.State, h: R.Hop, sock: nat, acts: seq<R.Act>)
    requires Hears(h, s.up, sock) && R.HopRuns(h, acts) && R.AllByReceiver(acts)
    requires s.server.pc.Serving? || h.receiver.Closed?
    ensures N.Runs(s, Ups(acts, 0))
    ensures Hears(R.HopAfter(h, acts), N.After(s, Ups(acts, 0)).up, sock)
    decreases |acts|
  {
    if acts != [] {
      ServerEvent(s, h, sock, acts[0]);
      ServerLoopEvents(N.After(s, AsUps(acts[0], 0)), R.Acted(h, acts[0]), sock, acts[1..]);
      Prepended(s, AsUps(acts[0], 0), Ups(acts[1..], 0));
    }
  }
}
