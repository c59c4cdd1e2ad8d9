/** The client thread of Reconnect and the traces of ClientThread are the same thing: the code's
    control flow is exactly the machine's. */
module ClientMachine {
  import opened Packets
  import opened ClientThread
  import C = Channel
  import N = Reconnect

  /** Where the trace is when the system is in state s. (Leaving on the stop flag is not part of
      the system.) */
  predicate At(p: Phase, s: N.State) {
    match p
    case Outside => s.client.pc.Connecting?
    case Dropped => s.client.pc.Connecting?
    case Linked => s.client.pc.Connected?
    case Reading => s.client.pc.Receiving? && s.down.receiver.On?
    case InHand => s.client.pc.Receiving? && s.down.receiver.Full?
    case Broken => s.client.pc.Receiving? && s.down.receiver.Bad?
    case Shut => s.client.pc.Dropped?
    case Renewed => s.client.pc.Flagging?
    case _ => false
  }

  /** What the client thread records of an event: nothing if it is not its own. */
  function TraceOf(m: N.Event): seq<Event> {
    match m
    case Connect(ok) => [Trying(-1), if ok then ConnectOk else ConnectFailed]
    case SpawnReader => [ClearFlag, Spawn]
    case Resocket => [NewSocket]
    case StopReaders => [RaiseFlag]
    case Down(a) =>
      if a.Recv? then [if a.size == RECORD then Whole else Bad]
      else if a.RecvFails? then [Bad]
      else if a.Deliver? then [Enqueue]
      else if a.Hangup? then [CloseSocket]
      else []
    case _ => []
  }

  function WatchAll(p: Phase, t: seq<Event>): Phase
    decreases |t|
  {
    if t == [] then p else WatchAll(Watch(p, t[0]), t[1..])
  }

  /** For a receive: that many bytes have arrived. */
  predicate Arrived(s: N.State, m: N.Event) {
    m.Down? && m.down.Recv? && !s.down.receiver.Off? ==>
      && C.Socket(s.down, s.down.receiver.sock)
      && 1 <= m.down.size <= |s.down.streams[s.down.receiver.sock].bytes| && m.down.size <= RECORD
  }

  predicate GoesOn(p: Phase) {
    !p.Wrong? && !p.Closing?
  }

  lemma WatchTwo(p: Phase, e: Event, f: Event)
    ensures WatchAll(p, [e, f]) == Watch(Watch(p, e), f)
  {
    assert [e, f][1..] == [f] && [f][1..] == [];
    assert WatchAll(Watch(p, e), [f]) == WatchAll(Watch(Watch(p, e), f), []);
  }

  lemma WatchOne(p: Phase, e: Event)
    ensures WatchAll(p, [e]) == Watch(p, e)
  {
    assert [e][1..] == [];
  }

  /** The client thread of the system can make a step exactly where the code's control flow
      allows it and, for a receive, the bytes are there; and then they are together again. */
  lemma ClientExactly(s: N.State, p: Phase, m: N.Event)
    requires N.ControlOk(s) && At(p, s) && TraceOf(m) != []
    ensures N.Can(s, m) <==> GoesOn(WatchAll(p, TraceOf(m))) && Arrived(s, m)
    ensures N.Can(s, m) ==> At(WatchAll(p, TraceOf(m)), N.Next(s, m))
  {
    var t := TraceOf(m);
    if |t| == 2 {
      WatchTwo(p, t[0], t[1]);
      ConnectExactly(s, p, m);
    } else {
      WatchOne(p, t[0]);
      if m.Down? {
        ReceiveExactly(s, p, m);
      }
    }
  }

  lemma ConnectExactly(s: N.State, p: Phase, m: N.Event)
    requires N.ControlOk(s) && At(p, s) && (m.Connect? || m.SpawnReader?)
    ensures var q := Watch(Watch(p, TraceOf(m)[0]), TraceOf(m)[1]);
            (N.Can(s, m) <==> GoesOn(q)) && (N.Can(s, m) ==> At(q, N.Next(s, m)))
  {
  }

  lemma ReceiveExactly(s: N.State, p: Phase, m: N.Event)
    requires N.ControlOk(s) && At(p, s) && m.Down? && TraceOf(m) != []
    ensures var q := Watch(p, TraceOf(m)[0]);
            (N.Can(s, m) <==> GoesOn(q) && Arrived(s, m)) && (N.Can(s, m) ==> At(q, N.Next(s, m)))
  {
  }

  lemma OthersKeep(s: N.State, p: Phase, m: N.Event)
    requires At(p, s) && N.Can(s, m) && TraceOf(m) == []
    ensures At(p, N.Next(s, m))
  {
  }

  /** The client thread's trace of a run of the system. */
  function Trace(ms: seq<N.Event>): seq<Event> {
    if ms == [] then [] else TraceOf(ms[0]) + Trace(ms[1..])
  }

  lemma {:induction false} WatchedOn(t: seq<Event>, u: seq<Event>)
    ensures Watched(t + u) == WatchAll(Watched(t), u)
    decreases |u|
  {
    if u == [] {
      assert t + u == t;
    } else {
      Logged(t, u[0], u[0]);
      WatchedOn(t + [u[0]], u[1..]);
      assert t + u == t + [u[0]] + u[1..];
    }
  }

  lemma {:induction false} WatchAllOn(p: Phase, t: seq<Event>, u: seq<Event>)
    ensures WatchAll(p, t + u) == WatchAll(WatchAll(p, t), u)
    decreases |t|
  {
    if t == [] {
      assert t + u == u;
    } else {
      WatchAllOn(Watch(p, t[0]), t[1..], u);
      assert (t + u)[1..] == t[1..] + u;
    }
  }

  lemma {:induction false} RunFollows(s: N.State, p: Phase, ms: seq<N.Event>)
    requires N.ControlOk(s) && N.ReadersOk(s) && N.TrafficOk(s) && At(p, s) && N.Runs(s, ms)
    ensures At(WatchAll(p, Trace(ms)), N.After(s, ms))
    decreases |ms|
  {
    if ms != [] {
      var m := ms[0];
      N.StepControl(s, m);
      if TraceOf(m) == [] {
        OthersKeep(s, p, m);
        RunFollows(N.Next(s, m), p, ms[1..]);
        assert Trace(ms) == Trace(ms[1..]);
      } else {
        ClientExactly(s, p, m);
        RunFollows(N.Next(s, m), WatchAll(p, TraceOf(m)), ms[1..]);
        WatchAllOn(p, TraceOf(m), Trace(ms[1..]));
      }
    }
  }

  lemma Balanced(t: seq<Event>, s: N.State)
    requires At(Watched(t), s)
    ensures !Watched(t).Wrong?
    ensures Count(t, ConnectOk) == Count(t, Spawn) + if s.client.pc.Connected? then 1 else 0
  {
    ReadersPerConnect(t);
  }

  lemma WatchedAll(t: seq<Event>)
    ensures Watched(t) == WatchAll(Outside, t)
  {
    WatchedOn([], t);
    assert [] + t == t;
  }

  /** Every run of the system leaves a legal trace of the client thread: so in it a reader's stop
      flag is raised before the next connect, and spawns equal connects but for the one about
      to be spawned. */
  lemma TraceIsLegal(s: N.State, ms: seq<N.Event>)
    requires N.Start(s) && N.Runs(s, ms)
    ensures At(Watched(Trace(ms)), N.After(s, ms)) && !Watched(Trace(ms)).Wrong?
    ensures Count(Trace(ms), ConnectOk) ==
            Count(Trace(ms), Spawn) + if N.After(s, ms).client.pc.Connected? then 1 else 0
  {
    N.StartControl(s);
    RunFollows(s, Outside, ms);
    WatchedAll(Trace(ms));
    Balanced(Trace(ms), N.After(s, ms));
  }
}
