/** What both relay modes are meant to be: one FIFO from the host to the device and one back.
    A FIFO may be cut, which loses a tail of what is under way and everything after it. */
module Pipeline {
  import opened Packets

  datatype Fifo = Fifo(input: seq<Image>, flight: seq<Image>, output: seq<Image>, cut: bool)

  datatype Move = Stay | Take | Put | Cut(keep: nat)

  predicate CanMove(f: Fifo, m: Move) {
    match m
    case Stay => true
    case Take => f.input != []
    case Put => f.flight != []
    case Cut(keep) => keep <= |f.flight|
  }

  function Moved(f: Fifo, m: Move): Fifo
    requires CanMove(f, m)
  {
    match m
    case Stay => f
    case Take => f.(input := f.input[1..], flight := if f.cut then f.flight else f.flight + [f.input[0]])
    case Put => f.(flight := f.flight[1..], output := f.output + [f.flight[0]])
    case Cut(keep) => f.(flight := f.flight[..keep], cut := true)
  }

  datatype Device = Listening | Answering(request: Image) | Finished

  /** asked: requests the host has enqueued; served: requests the device has read;
      answered: replies the device has enqueued; got: replies the host has dequeued. */
  datatype State = State(asked: seq<Image>, up: Fifo, served: seq<Image>, device: Device,
                         answered: seq<Image>, down: Fifo, got: seq<Image>)

  datatype Event = Ask(request: Image) | Up(up: Move) | Serve | Respond | Down(down: Move) | Collect

  const EMPTY_FIFO := Fifo([], [], [], false)
  const INITIAL := State([], EMPTY_FIFO, [], Listening, [], EMPTY_FIFO, [])

  predicate Can(s: State, e: Event) {
    match e
    case Ask(_) => true
    case Up(m) => CanMove(s.up, m)
    case Serve => s.device.Listening? && s.up.output != []
    case Respond => s.device.Answering?
    case Down(m) => CanMove(s.down, m)
    case Collect => s.down.output != []
  }

  function Next(s: State, e: Event): State
    requires Can(s, e)
  {
    match e
    case Ask(r) => s.(asked := s.asked + [r], up := s.up.(input := s.up.input + [r]))
    case Up(m) => s.(up := Moved(s.up, m))
    case Serve =>
      var r := s.up.output[0];
      s.(up := s.up.(output := s.up.output[1..]), served := s.served + [r],
         device := if IsStop(r) then Finished else Answering(r))
    case Respond =>
      var reply := Reply(s.device.request);
      s.(answered := s.answered + [reply], device := Listening,
         down := s.down.(input := s.down.input + [reply]))
    case Down(m) => s.(down := Moved(s.down, m))
    case Collect => s.(down := s.down.(output := s.down.output[1..]), got := s.got + [s.down.output[0]])
  }

  predicate Runs(s: State, es: seq<Event>)
    decreases |es|
  {
    es == [] || (Can(s, es[0]) && Runs(Next(s, es[0]), es[1..]))
  }

  function After(s: State, es: seq<Event>): State
    requires Runs(s, es)
    decreases |es|
  {
    if es == [] then s else After(Next(s, es[0]), es[1..])
  }

  /** What has been taken out of f's input, when entered is all that was ever put in. */
  function Taken(entered: seq<Image>, f: Fifo): seq<Image>
    requires |f.input| <= |entered|
  {
    entered[..|entered| - |f.input|]
  }

  /** popped has left f at the output: what comes through is a prefix of what was taken in, in
      order and without gaps, and nothing of it is missing unless f has been cut. */
  predicate Flow(entered: seq<Image>, f: Fifo, popped: seq<Image>) {
    && |f.input| <= |entered|
    && entered == Taken(entered, f) + f.input
    && popped + f.output + f.flight <= Taken(entered, f)
    && (!f.cut ==> popped + f.output + f.flight == Taken(entered, f))
  }

  predicate Served(s: State) {
    && |s.answered| <= |s.served|
    && (forall k :: 0 <= k < |s.answered| ==> s.answered[k] == Reply(s.served[k]) && !IsStop(s.served[k]))
    && match s.device
       case Listening => |s.served| == |s.answered|
       case Answering(r) => |s.served| == |s.answered| + 1 && s.served[|s.answered|] == r && !IsStop(r)
       case Finished => |s.served| == |s.answered| + 1 && IsStop(s.served[|s.answered|])
  }

  predicate Ordered(s: State) {
    Flow(s.asked, s.up, s.served) && Served(s) && Flow(s.answered, s.down, s.got)
  }

  lemma FlowTaken(entered: seq<Image>, f: Fifo, popped: seq<Image>)
    requires Flow(entered, f, popped) && CanMove(f, Take)
    ensures Flow(entered, Moved(f, Take), popped)
  {
    var g := Moved(f, Take);
    assert Taken(entered, g) == Taken(entered, f) + [f.input[0]];
    if !f.cut {
      assert popped + f.output + (f.flight + [f.input[0]]) == popped + f.output + f.flight + [f.input[0]];
    }
  }

  lemma FlowMoved(entered: seq<Image>, f: Fifo, popped: seq<Image>, m: Move)
    requires Flow(entered, f, popped) && CanMove(f, m)
    ensures Flow(entered, Moved(f, m), popped)
  {
    var g := Moved(f, m);
    if m.Take? {
      FlowTaken(entered, f, popped);
    } else {
      assert Taken(entered, g) == Taken(entered, f);
      if m.Put? {
        assert popped + g.output + g.flight == popped + f.output + f.flight;
      } else {
        assert popped + g.output + g.flight <= popped + f.output + f.flight;
      }
    }
  }

  lemma FlowPushed(entered: seq<Image>, f: Fifo, popped: seq<Image>, x: Image)
    requires Flow(entered, f, popped)
    ensures Flow(entered + [x], f.(input := f.input + [x]), popped)
  {
    var g := f.(input := f.input + [x]);
    assert Taken(entered + [x], g) == Taken(entered, f);
    assert entered + [x] == Taken(entered, f) + g.input;
  }

  lemma FlowPopped(entered: seq<Image>, f: Fifo, popped: seq<Image>)
    requires Flow(entered, f, popped) && f.output != []
    ensures Flow(entered, f.(output := f.output[1..]), popped + [f.output[0]])
  {
    assert popped + [f.output[0]] + f.output[1..] == popped + f.output;
  }

  lemma ServeServed(s: State)
    requires Served(s) && Can(s, Serve)
    ensures Served(Next(s, Serve))
  {
  }

  lemma RespondServed(s: State)
    requires Served(s) && Can(s, Respond)
    ensures Served(Next(s, Respond))
  {
  }

  lemma StopIsNotAnswered(s: State, k: nat)
    requires Served(s) && k < |s.served| && IsStop(s.served[k])
    ensures |s.answered| <= k
  {
  }

  lemma StepOrdered(s: State, e: Event)
    requires Ordered(s) && Can(s, e)
    ensures Ordered(Next(s, e))
  {
    if e.Ask? {
      FlowPushed(s.asked, s.up, s.served, e.request);
    } else if e.Up? {
      FlowMoved(s.asked, s.up, s.served, e.up);
    } else if e.Serve? {
      FlowPopped(s.asked, s.up, s.served);
      ServeServed(s);
    } else if e.Respond? {
      FlowPushed(s.answered, s.down, s.got, Reply(s.device.request));
      RespondServed(s);
    } else if e.Down? {
      FlowMoved(s.answered, s.down, s.got, e.down);
    } else {
      FlowPopped(s.answered, s.down, s.got);
    }
  }

  lemma {:induction false} RunOrdered(s: State, es: seq<Event>)
    requires Ordered(s) && Runs(s, es)
    ensures Ordered(After(s, es))
    decreases |es|
  {
    if es != [] {
      StepOrdered(s, es[0]);
      RunOrdered(Next(s, es[0]), es[1..]);
    }
  }

  /** Pipelined order: however many requests are under way and wherever the FIFOs are cut,
      the k-th reply the host dequeues answers its k-th request, and no request in front of
      it was the stop packet. The device, too, sees the requests in the order asked. */
  lemma RepliesInOrder(es: seq<Event>)
    requires Runs(INITIAL, es)
    ensures var s := After(INITIAL, es);
            && |s.got| <= |s.served| <= |s.asked|
            && s.served == s.asked[..|s.served|]
            && forall k :: 0 <= k < |s.got| ==> s.got[k] == Reply(s.asked[k]) && !IsStop(s.asked[k])
  {
    RunOrdered(INITIAL, es);
    OrderedReplies(After(INITIAL, es));
  }

  lemma OrderedReplies(s: State)
    requires Ordered(s)
    ensures |s.got| <= |s.answered| <= |s.served| <= |s.asked|
    ensures s.served == s.asked[..|s.served|]
    ensures forall k :: 0 <= k < |s.got| ==> s.got[k] == Reply(s.asked[k]) && !IsStop(s.asked[k])
  {
    assert s.got <= s.got + s.down.output + s.down.flight;
    assert s.served <= s.served + s.up.output + s.up.flight;
    assert s.got <= s.answered && s.served <= s.asked;
  }

  /** Requests and replies somewhere between the host's write and the host's read. */
  function Live(s: State): nat {
    |s.up.input| + |s.up.flight| + |s.up.output| + (if s.device.Listening? then 0 else 1)
    + |s.down.input| + |s.down.flight| + |s.down.output|
  }

  /** Conservation: nothing is ever made up, and without a cut nothing is lost, everywhere
      and at all times. (A finished device keeps the stop packet.) */
  lemma Conservation(es: seq<Event>)
    requires Runs(INITIAL, es)
    ensures var s := After(INITIAL, es);
            && |s.got| + Live(s) <= |s.asked|
            && (!s.up.cut && !s.down.cut ==> |s.got| + Live(s) == |s.asked|)
  {
    RunOrdered(INITIAL, es);
  }

  /** The host's rule in dml_debug.c and testhost.c: a request only when every reply is in. */
  predicate Synchronous(s: State, es: seq<Event>)
    requires Runs(s, es)
    decreases |es|
  {
    es == [] || ((es[0].Ask? ==> |s.got| == |s.asked|) && Synchronous(Next(s, es[0]), es[1..]))
  }

  lemma {:induction false} SynchronousKeeps(s: State, es: seq<Event>)
    requires Ordered(s) && Runs(s, es) && Synchronous(s, es) && |s.asked| <= |s.got| + 1
    ensures |After(s, es).asked| <= |After(s, es).got| + 1
    decreases |es|
  {
    if es != [] {
      StepOrdered(s, es[0]);
      SynchronousKeeps(Next(s, es[0]), es[1..]);
    }
  }

  /** With the synchronous host at most one transaction is live at any time, and a reply
      ready for the host is the answer to the request it sent last. */
  lemma OneTransaction(es: seq<Event>)
    requires Runs(INITIAL, es) && Synchronous(INITIAL, es)
    ensures var s := After(INITIAL, es);
            && |s.got| <= |s.asked| <= |s.got| + 1
            && Live(s) <= 1
            && (s.down.output != [] ==> |s.asked| == |s.got| + 1 && s.down.output[0] == Reply(s.asked[|s.got|]))
  {
    var s := After(INITIAL, es);
    RunOrdered(INITIAL, es);
    SynchronousKeeps(INITIAL, es);
    OrderedReplies(s);
    if s.down.output != [] {
      StepOrdered(s, Collect);
      OrderedReplies(Next(s, Collect));
    }
  }
}
