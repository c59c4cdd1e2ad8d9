/** A whole deployment: host, one hop to the device, the device, one hop back. Both hops copy
    in local mode (cxl_server_fifo_access_thread, cxl_rtl_to_host_reply_thread); both are one
    TCP connection otherwise. Every claim here is about all interleavings of all threads. */
module Deployment {
  import opened Bytes
  import opened Packets
  import opened Framing
  import P = Pipeline
  import R = Relay

  /** dpiBuffer and hostBuffer are the records that simics_dpi_request and the host read into. */
  datatype State = State(asked: seq<Image>, up: R.Hop, served: seq<Image>, dpiBuffer: Image, device: P.Device,
                         answered: seq<Image>, down: R.Hop, hostBuffer: Image, got: seq<Image>)

  datatype Event = Ask(request: Image) | Up(up: R.Act) | Serve | Respond | Down(down: R.Act) | Collect

  /** A record cleared by memset. */
  function Blank(): Image {
    Zeros(RECORD)
  }

  predicate Can(s: State, e: Event) {
    match e
    case Ask(_) => true
    case Up(a) => R.CanAct(s.up, a)
    case Serve => s.device.Listening? && s.up.output != []
    case Respond => s.device.Answering?
    case Down(a) => R.CanAct(s.down, a)
    case Collect => s.down.output != []
  }

  function Next(s: State, e: Event): State
    requires Can(s, e)
  {
    match e
    case Ask(r) => s.(asked := s.asked + [r], up := s.up.(input := s.up.input + r))
    case Up(a) => s.(up := R.Acted(s.up, a))
    case Serve =>
      var n := ReadSize(s.up.output);
      var r := Overlay(s.up.output[..n], Blank());  // memset, then read
      s.(dpiBuffer := r, up := s.up.(output := s.up.output[n..]), served := s.served + [r],
         device := if IsStop(r) then P.Finished else P.Answering(r))
    case Respond =>
      var reply := Reply(s.device.request);
      s.(answered := s.answered + [reply], device := P.Listening,
         down := s.down.(input := s.down.input + reply))
    case Down(a) => s.(down := R.Acted(s.down, a))
    case Collect =>
      var n := ReadSize(s.down.output);
      var r := Overlay(s.down.output[..n], s.hostBuffer);
      s.(hostBuffer := r, down := s.down.(output := s.down.output[n..]), got := s.got + [r])
  }

  predicate Runs(s: State, es: seq<Event>)
    decreases |es|
  {
    es == [] || (Can(s, es[0]) && Runs(Next(s, es[0]), es[1..]))
  }

  function After(s: State, es: seq<Event>): State
    requires Runs(s, es)
    decreases |es|
  {
    if es == [] then s else After(Next(s, es[0]), es[1..])
  }

  predicate Idle(h: R.Hop) {
    && h.input == [] && h.output == []
    && (if h.Copy? then !h.loaded
        else h.sender.Reading? && h.sent == 0 && !h.broken && h.wire == []
             && h.receiver.Receiving? && h.received == 0)
  }

  /** Everything empty, except for the buffers, which may hold anything. */
  predicate Start(s: State) {
    && s.asked == s.served == s.answered == s.got == []
    && Idle(s.up) && Idle(s.down) && s.device.Listening?
  }

  predicate Local(s: State) {
    s.up.Copy? && s.down.Copy?
  }

  // ---- Refinement of the pipeline

  predicate Ok(s: State) {
    R.HopOk(s.up) && R.HopOk(s.down) && R.Tallied(s.up) && R.Tallied(s.down)
  }

  function AsPipeline(s: State): P.State
    requires Ok(s)
  {
    P.State(s.asked, R.AsFifo(s.up), s.served, s.device, s.answered, R.AsFifo(s.down), s.got)
  }

  function AsEvent(s: State, e: Event): P.Event
    requires Ok(s) && Can(s, e)
  {
    match e
    case Ask(r) => P.Ask(r)
    case Up(a) => P.Up(R.AsMove(s.up, a))
    case Serve => P.Serve
    case Respond => P.Respond
    case Down(a) => P.Down(R.AsMove(s.down, a))
    case Collect => P.Collect
  }

  lemma PushRefines(h: R.Hop, x: Image)
    requires R.HopOk(h) && R.Tallied(h)
    ensures var g := h.(input := h.input + x);
            R.HopOk(g) && R.Tallied(g) && R.AsFifo(g) == R.AsFifo(h).(input := Chunks(h.input) + [x])
  {
    ChunksAppend(h.input, x);
    ChunksOne(x);
    var g := h.(input := h.input + x);
    if h.Tcp? {
      assert R.Held(g) + g.wire + R.Unsent(g) == R.Held(h) + h.wire + R.Unsent(h);
      assert g.wire + R.Unsent(g) == h.wire + R.Unsent(h);
    }
  }

  /** Any pipe read at the far end takes out exactly one record, the oldest. */
  lemma PopRefines(h: R.Hop, buffer: Image)
    requires R.HopOk(h) && R.Tallied(h) && h.output != []
    ensures ReadSize(h.output) == RECORD
    ensures var g := h.(output := h.output[RECORD..]);
            R.HopOk(g) && R.Tallied(g) && R.AsFifo(g) == R.AsFifo(h).(output := Chunks(h.output)[1..])
    ensures Overlay(h.output[..RECORD], buffer) == Chunks(h.output)[0]
  {
    var g := h.(output := h.output[RECORD..]);
    assert Overlay(h.output[..RECORD], buffer) == h.output[..RECORD];
    if h.Tcp? {
      assert R.Held(g) + g.wire + R.Unsent(g) == R.Held(h) + h.wire + R.Unsent(h);
      assert g.wire + R.Unsent(g) == h.wire + R.Unsent(h);
    }
  }

  lemma StepRefines(s: State, e: Event)
    requires Ok(s) && Can(s, e)
    ensures Ok(Next(s, e))
    ensures P.Can(AsPipeline(s), AsEvent(s, e))
    ensures AsPipeline(Next(s, e)) == P.Next(AsPipeline(s), AsEvent(s, e))
  {
    if e.Ask? {
      PushRefines(s.up, e.request);
    } else if e.Up? {
      R.HopRefines(s.up, e.up);
      R.ActTallied(s.up, e.up);
    } else if e.Serve? {
      PopRefines(s.up, Blank());
    } else if e.Respond? {
      PushRefines(s.down, Reply(s.device.request));
    } else if e.Down? {
      R.HopRefines(s.down, e.down);
      R.ActTallied(s.down, e.down);
    } else {
      PopRefines(s.down, s.hostBuffer);
    }
  }

  function AsRun(s: State, es: seq<Event>): seq<P.Event>
    requires Ok(s) && Runs(s, es)
    decreases |es|
  {
    if es == [] then [] else StepRefines(s, es[0]); [AsEvent(s, es[0])] + AsRun(Next(s, es[0]), es[1..])
  }

  lemma {:induction false} RunRefines(s: State, es: seq<Event>)
    requires Ok(s) && Runs(s, es)
    ensures Ok(After(s, es))
    ensures P.Runs(AsPipeline(s), AsRun(s, es))
    ensures AsPipeline(After(s, es)) == P.After(AsPipeline(s), AsRun(s, es))
    decreases |es|
  {
    if es != [] {
      StepRefines(s, es[0]);
      RunRefines(Next(s, es[0]), es[1..]);
      assert AsRun(s, es)[1..] == AsRun(Next(s, es[0]), es[1..]);
    }
  }

  /** Trace refinement, for either mode: whatever the threads, the kernel and the network do,
      the deployment behaves as some run of the pipeline. */
  lemma Refinement(s: State, es: seq<Event>)
    requires Start(s) && Runs(s, es)
    ensures Ok(s) && Ok(After(s, es))
    ensures AsPipeline(s) == P.INITIAL
    ensures P.Runs(P.INITIAL, AsRun(s, es)) && AsPipeline(After(s, es)) == P.After(P.INITIAL, AsRun(s, es))
  {
    RunRefines(s, es);
  }

  // ---- What the refinement gives

  /** Both modes, any number of requests under way, every interleaving and every chunking, short
      receives and failing calls included: the k-th reply the host dequeues is the device's
      answer to its k-th request; the device sees a prefix of the requests; and every record
      that has come out of a hop, in either direction, is one that its sender took in, in
      order, never a mixture of two. */
  lemma InOrder(s: State, es: seq<Event>)
    requires Start(s) && Runs(s, es)
    ensures var t := After(s, es);
            && Ok(t)
            && |t.got| <= |t.served| <= |t.asked|
            && (forall k :: 0 <= k < |t.got| ==> t.got[k] == Reply(t.asked[k]) && !IsStop(t.asked[k]))
            && |t.up.input| / RECORD <= |t.asked| && |t.down.input| / RECORD <= |t.answered|
            && t.served + Chunks(t.up.output) <= t.asked[..|t.asked| - |t.up.input| / RECORD]
            && t.got + Chunks(t.down.output) <= t.answered[..|t.answered| - |t.down.input| / RECORD]
  {
    Refinement(s, es);
    var t := After(s, es);
    P.RepliesInOrder(AsRun(s, es));
    P.RunOrdered(P.INITIAL, AsRun(s, es));
    assert t.served + Chunks(t.up.output) <= t.served + Chunks(t.up.output) + R.AsFifo(t.up).flight;
    assert t.got + Chunks(t.down.output) <= t.got + Chunks(t.down.output) + R.AsFifo(t.down).flight;
  }

  predicate NoFault(e: Event) {
    (e.Up? ==> R.Faultless(e.up)) && (e.Down? ==> R.Faultless(e.down))
  }

  predicate Uncut(s: State)
    requires Ok(s)
  {
    !R.AsFifo(s.up).cut && !R.AsFifo(s.down).cut
  }

  /** Steps without a fault do not cut, and no step of a local deployment has one. */
  lemma StepStaysUncut(s: State, e: Event)
    requires Ok(s) && Can(s, e) && Uncut(s) && NoFault(e)
    ensures Ok(Next(s, e)) && Uncut(Next(s, e))
  {
    StepRefines(s, e);
    if e.Up? {
      R.OnlyFaultsCut(s.up, e.up);
    } else if e.Down? {
      R.OnlyFaultsCut(s.down, e.down);
    }
  }

  lemma {:induction false} FaultlessStaysUncut(s: State, es: seq<Event>)
    requires Ok(s) && Runs(s, es) && Uncut(s) && (Local(s) || forall i :: 0 <= i < |es| ==> NoFault(es[i]))
    ensures Ok(After(s, es)) && Uncut(After(s, es))
    decreases |es|
  {
    if es != [] {
      assert NoFault(es[0]);
      StepStaysUncut(s, es[0]);
      if Local(s) {
        StepLocal(s, es[0]);
      }
      FaultlessStaysUncut(Next(s, es[0]), es[1..]);
    }
  }

  lemma NeverCut(s: State, es: seq<Event>)
    requires Start(s) && Runs(s, es)
    requires Local(s) || forall i :: 0 <= i < |es| ==> NoFault(es[i])
    ensures Ok(After(s, es)) && Uncut(After(s, es))
  {
    FaultlessStaysUncut(s, es);
  }

  lemma StepLocal(s: State, e: Event)
    requires Local(s) && Can(s, e)
    ensures Local(Next(s, e))
  {
  }

  /** A run without faults loses nothing: host, pipes, buffers, wires and device together hold
      every request that has no reply yet. In local mode no run has a fault. */
  lemma Lossless(s: State, es: seq<Event>)
    requires Start(s) && Runs(s, es)
    requires Local(s) || forall i :: 0 <= i < |es| ==> NoFault(es[i])
    ensures var t := After(s, es);
            && Ok(t) && |t.asked| == |t.got| + P.Live(AsPipeline(t))
            && t.asked == t.served + Chunks(t.up.output) + R.AsFifo(t.up).flight + Chunks(t.up.input)
            && t.answered == t.got + Chunks(t.down.output) + R.AsFifo(t.down).flight + Chunks(t.down.input)
  {
    NeverCut(s, es);
    Refinement(s, es);
    P.Conservation(AsRun(s, es));
    P.RunOrdered(P.INITIAL, AsRun(s, es));
  }

  /** The host's rule: a request only when every reply is in. */
  predicate Synchronous(s: State, es: seq<Event>)
    requires Runs(s, es)
    decreases |es|
  {
    es == [] || ((es[0].Ask? ==> |s.got| == |s.asked|) && Synchronous(Next(s, es[0]), es[1..]))
  }

  lemma {:induction false} SynchronousRefines(s: State, es: seq<Event>)
    requires Ok(s) && Runs(s, es) && Synchronous(s, es)
    ensures P.Runs(AsPipeline(s), AsRun(s, es)) && P.Synchronous(AsPipeline(s), AsRun(s, es))
    decreases |es|
  {
    RunRefines(s, es);
    if es != [] {
      StepRefines(s, es[0]);
      SynchronousRefines(Next(s, es[0]), es[1..]);
      assert AsRun(s, es)[1..] == AsRun(Next(s, es[0]), es[1..]);
    }
  }

  /** Reply matching without checking: with the synchronous host one transaction at most is
      live anywhere, and what the host dequeues next carries the number, type, origin, address
      and size of the request it has just sent. */
  lemma ReplyMatches(s: State, es: seq<Event>)
    requires Start(s) && Runs(s, es) && Synchronous(s, es)
    ensures var t := After(s, es);
            && Ok(t) && P.Live(AsPipeline(t)) <= 1
            && (Can(t, Collect) ==>
                  && |t.asked| == |t.got| + 1
                  && var request, reply := Decode(t.asked[|t.got|]), Decode(Next(t, Collect).hostBuffer);
                     && reply.number == request.number && reply.kind == request.kind
                     && reply.simType == request.simType && reply.address == request.address
                     && reply.size == request.size)
  {
    Refinement(s, es);
    SynchronousRefines(s, es);
    P.OneTransaction(AsRun(s, es));
    var t := After(s, es);
    if Can(t, Collect) {
      PopRefines(t.down, t.hostBuffer);
      ReplyIdentifiesRequest(t.asked[|t.got|]);
    }
  }

  /** The counters printed at both ends of a connection, over every run. */
  lemma Counters(s: State, es: seq<Event>)
    requires Start(s) && Runs(s, es)
    ensures var t := After(s, es); forall h :: h in {t.up, t.down} && h.Tcp? ==> R.CountersOk(h)
  {
    Refinement(s, es);
    var t := After(s, es);
    forall h | h in {t.up, t.down} && h.Tcp?
      ensures R.CountersOk(h)
    {
      R.CountersAgree(h);
    }
  }

  /** Every pipe holds whole records at all times, so the reads whose results nobody looks at
      fill their buffers completely. */
  lemma PipesStayAligned(s: State, es: seq<Event>)
    requires Start(s) && Runs(s, es)
    ensures var t := After(s, es);
            && Aligned(t.up.input) && Aligned(t.up.output) && Aligned(t.down.input) && Aligned(t.down.output)
            && forall h :: h in {t.up, t.down} && R.CanAct(h, R.Fetch) ==>
                 var g := R.Acted(h, R.Fetch);
                 (if g.Copy? then g.buffer else g.sendBuffer) == h.input[..RECORD]
  {
    Refinement(s, es);
    var t := After(s, es);
    forall h | h in {t.up, t.down} && R.CanAct(h, R.Fetch)
      ensures var g := R.Acted(h, R.Fetch);
              (if g.Copy? then g.buffer else g.sendBuffer) == h.input[..RECORD]
    {
      R.FetchIsWhole(h, if h.Copy? then h.buffer else h.sendBuffer);
    }
  }
}
