/** testhost against the echo device in either mode, with every call succeeding and no receive
    coming back short: the closed system always makes progress and always ends the way main()
    expects. */
module ClosedRun {
  import opened Bytes
  import opened Packets
  import opened Framing
  import P = Pipeline
  import R = Relay
  import D = Deployment

  /** The host's whole script: the requests, each awaited, then the stop packet. */
  datatype Script = Script(requests: seq<Image>, stop: Image)

  predicate WellFormed(c: Script) {
    IsStop(c.stop) && forall i :: 0 <= i < |c.requests| ==> !IsStop(c.requests[i])
  }

  /** The i-th record main() fills in (cxl_relay/testhost.c:90-102). */
  function TestPacket(i: nat): Packet
    requires i + 1 < 0x1_0000_0000
  {
    Packet(i + 1, 1, 1, 0, i % 2, 4, Digits(0xfacefeed, 4) + Zeros(PAYLOAD - 4))
  }

  /** The script of main() for any number n of transactions; the stop packet is the last
      record with its number cleared. */
  function TestHost(n: uint32): Script
    requires n < 0xffff_ffff
  {
    Script(seq(n, i requires 0 <= i < n => Encode(TestPacket(i))),
           Encode(if n == 0 then Packet(0, 0, 0, 0, 0, 0, Zeros(PAYLOAD))
                  else TestPacket(n - 1).(number := 0)))
  }

  /** The records main() sends, field by field: n requests, reads and writes in turn, starting with
      a read, and the last of them once more with its number cleared. */
  lemma TestHostRecords(n: uint32)
    requires n < 0xffff_ffff
    ensures var c := TestHost(n);
            && |c.requests| == n
            && (forall i :: 0 <= i < n ==> IsTestRecord(Decode(c.requests[i]), i + 1, i % 2))
            && Decode(c.stop) == if n == 0 then Packet(0, 0, 0, 0, 0, 0, Zeros(PAYLOAD))
                                 else Decode(c.requests[n - 1]).(number := 0)
  {
    var c := TestHost(n);
    forall i | 0 <= i < n
      ensures Decode(c.requests[i]) == TestPacket(i) && IsTestRecord(TestPacket(i), i + 1, i % 2)
    {
      EncodeDecode(TestPacket(i));
      TestPacketFields(i);
    }
    EncodeDecode(if n == 0 then Packet(0, 0, 0, 0, 0, 0, Zeros(PAYLOAD)) else TestPacket(n - 1).(number := 0));
  }

  /** A 4-byte access at address 0, from origin 1 and of type 1, carrying the test word. */
  predicate IsTestRecord(p: Packet, number: nat, r0w1: nat) {
    && p.number == number && p.kind == 1 && p.simType == 1 && p.address == 0 && p.r0w1 == r0w1 && p.size == 4
    && Value(p.data[..4]) == 0xfacefeed && p.data[4..] == Zeros(PAYLOAD - 4)
  }

  /** Its answer: the counting pattern for a read, the test word for a write. */
  predicate IsTestReply(p: Packet, number: nat, r0w1: nat) {
    && p.number == number && p.kind == 1 && p.simType == 1 && p.address == 0 && p.r0w1 == 0 && p.size == 4
    && (if r0w1 == 0 then forall k :: 0 <= k < 4 ==> p.data[k] == (number + k) % 256
        else Value(p.data[..4]) == 0xfacefeed)
    && p.data[4..] == Zeros(PAYLOAD - 4)
  }

  lemma TestPacketFields(i: nat)
    requires i + 1 < 0x1_0000_0000
    ensures IsTestRecord(TestPacket(i), i + 1, i % 2)
  {
    var p := TestPacket(i);
    assert p.data[..4] == Digits(0xfacefeed, 4) && p.data[4..] == Zeros(PAYLOAD - 4);
    FieldWidths();
    SmallDigits(0xfacefeed, 4);
  }

  lemma TestAnswer(i: nat)
    requires i + 1 < 0x1_0000_0000
    ensures IsTestReply(Answer(TestPacket(i)), i + 1, i % 2)
  {
    TestPacketFields(i);
    var p, a := TestPacket(i), Answer(TestPacket(i));
    forall k | 0 <= k < PAYLOAD
      ensures a.data[k] == AnswerByte(p, k)
    {
    }
    assert a.data[4..] == Zeros(PAYLOAD - 4);
    if i % 2 == 1 {
      assert a.data[..4] == p.data[..4];
    }
  }

  lemma TestHostWellFormed(n: uint32)
    requires n < 0xffff_ffff
    ensures WellFormed(TestHost(n)) && |TestHost(n).requests| == n
  {
    var c := TestHost(n);
    forall i | 0 <= i < n
      ensures !IsStop(c.requests[i])
    {
      EncodeDecode(TestPacket(i));
    }
    EncodeDecode(if n == 0 then Packet(0, 0, 0, 0, 0, 0, Zeros(PAYLOAD))
                 else TestPacket(n - 1).(number := 0));
  }

  /** The host's program counter is the number of requests sent and replies received. */
  predicate HostMay(c: Script, s: D.State, e: D.Event) {
    && (e.Ask? ==>
          && |s.asked| == |s.got|
          && (if |s.asked| < |c.requests| then e.request == c.requests[|s.asked|]
              else |s.asked| == |c.requests| && e.request == c.stop))
    && (e.Collect? ==> |s.asked| == |s.got| + 1 && |s.got| < |c.requests|)
  }

  /** A step without a fault; in local mode that is every step. */
  predicate Can(c: Script, s: D.State, e: D.Event) {
    D.Can(s, e) && HostMay(c, s, e) && D.NoFault(e)
  }

  predicate Runs(c: Script, s: D.State, es: seq<D.Event>)
    decreases |es|
  {
    es == [] || (Can(c, s, es[0]) && Runs(c, D.Next(s, es[0]), es[1..]))
  }

  lemma {:induction false} AlsoRuns(c: Script, s: D.State, es: seq<D.Event>)
    requires Runs(c, s, es)
    ensures D.Runs(s, es) && forall i :: 0 <= i < |es| ==> D.NoFault(es[i])
    decreases |es|
  {
    if es != [] {
      AlsoRuns(c, D.Next(s, es[0]), es[1..]);
      assert forall i :: 0 < i < |es| ==> es[i] == es[1..][i - 1];
    }
  }

  ghost predicate Stuck(c: Script, s: D.State) {
    forall e :: !Can(c, s, e)
  }

  /** The threads of a hop are blocked in their reads, with nothing on the wire between them. */
  predicate AtRest(h: R.Hop) {
    if h.Copy? then !h.loaded else h.sender.Reading? && h.wire == [] && h.receiver.Receiving? && !h.broken
  }

  /** Host done, device finished on packet 0, all four pipes empty, all relay threads blocked
      in their reads, and every request answered. */
  predicate Final(c: Script, s: D.State) {
    && s.asked == c.requests + [c.stop] && |s.got| == |c.requests|
    && (forall i :: 0 <= i < |s.got| ==> s.got[i] == Reply(c.requests[i]))
    && s.device.Finished?
    && s.up.input == s.up.output == s.down.input == s.down.output == []
    && AtRest(s.up) && AtRest(s.down)
  }

  /** The host has asked the script up to here, one request at a time. */
  predicate OnScript(c: Script, s: D.State) {
    && |s.got| <= |c.requests|
    && |s.asked| <= |s.got| + 1
    && |s.asked| <= |c.requests| + 1
    && s.asked == (c.requests + [c.stop])[..|s.asked|]
  }

  predicate Follows(c: Script, s: D.State) {
    D.Ok(s) && D.Uncut(s) && P.Ordered(D.AsPipeline(s)) && OnScript(c, s)
  }

  lemma StepOnScript(c: Script, s: D.State, e: D.Event)
    requires OnScript(c, s) && Can(c, s, e)
    ensures OnScript(c, D.Next(s, e))
  {
    if e.Ask? {
      assert s.asked + [e.request] == (c.requests + [c.stop])[..|s.asked| + 1];
    }
  }

  lemma StepFollows(c: Script, s: D.State, e: D.Event)
    requires Follows(c, s) && Can(c, s, e)
    ensures Follows(c, D.Next(s, e))
  {
    D.StepRefines(s, e);
    D.StepStaysUncut(s, e);
    P.StepOrdered(D.AsPipeline(s), D.AsEvent(s, e));
    StepOnScript(c, s, e);
  }

  lemma StartFollows(c: Script, s: D.State)
    requires D.Start(s)
    ensures Follows(c, s) && Steps(s) == 0
  {
    D.Refinement(s, []);
  }

  // ---- The ranking measure

  /** The most steps a hop makes for so many records. For each: a read and a write in local mode;
      in TCP mode a read, a send for every byte, the empty send, the note, a receive, the note,
      a write. */
  function Cost(h: R.Hop, records: nat): nat {
    if h.Copy? then 2 * records else RECORD * records + 6 * records
  }

  /** Work a hop has done when entered records have been written to its input pipe and left read
      from its output pipe: each record counts once for every act it has been through, and once
      for every byte that send() has accepted of it. */
  function Work(h: R.Hop, entered: int, left: int): int
    requires R.HopOk(h)
  {
    var taken, put := entered - |h.input| / RECORD, left + |h.output| / RECORD;
    if h.Copy? then
      taken + taken - if h.loaded then 1 else 0
    else
      RECORD * taken + 3 * taken - |R.Unsent(h)|
      - (if h.sender.Sending? then 2 else if h.sender.Sent? then 1 else 0)
      + 3 * put + (if h.receiver.Received? then 1 else if h.receiver.Counted? then 2 else 0)
  }

  lemma ActWorks(h: R.Hop, a: R.Act, entered: int, left: int)
    requires R.HopOk(h) && R.CanAct(h, a) && R.Faultless(a) && !R.AsFifo(h).cut
    ensures var g := R.Acted(h, a);
            && R.HopOk(g) && g.Copy? == h.Copy?
            && Work(g, entered, left) >= Work(h, entered, left) + 1
            && (h.Copy? ==> Work(g, entered, left) == Work(h, entered, left) + 1)
  {
    R.HopKeepsOk(h, a);
    if a.Fetch? {
      R.FetchIsWhole(h, if h.Copy? then h.buffer else h.sendBuffer);
    }
  }

  /** Nothing is in a hop's input or between its threads. */
  predicate Drained(h: R.Hop) {
    h.input == [] && AtRest(h)
  }

  /** A hop's work is done exactly when everything that has entered it is at its far end. */
  lemma WorkBounded(h: R.Hop, entered: seq<Image>, left: seq<Image>)
    requires R.HopOk(h) && !R.AsFifo(h).cut && P.Flow(entered, R.AsFifo(h), left)
    ensures Work(h, |entered|, |left|) <= Cost(h, |entered|)
    ensures Work(h, |entered|, |left|) == Cost(h, |entered|) <==> Drained(h)
    ensures Drained(h) ==> |left| + |Chunks(h.output)| == |entered|
  {
    var f := R.AsFifo(h);
    assert |left + f.output + f.flight| == |entered| - |f.input|;
    if h.Tcp? {
      TcpFlight(h);
    }
  }

  lemma TcpFlight(h: R.Hop)
    requires R.HopOk(h) && h.Tcp? && !R.AsFifo(h).cut
    ensures var n := |R.AsFifo(h).flight|;
            && (h.receiver.Received? || h.receiver.Counted? ==> n >= 1)
            && (n == 0 && h.sender.Reading? && h.receiver.Receiving? <==> AtRest(h))
            && RECORD * n == |R.Held(h)| + |h.wire| + |R.Unsent(h)|
  {
  }

  /** Steps made so far, where a step of sending counts once for every byte it sends. */
  function Steps(s: D.State): int
    requires D.Ok(s)
  {
    |s.asked| + Work(s.up, |s.asked|, |s.served|) + |s.served|
    + |s.answered| + Work(s.down, |s.answered|, |s.got|) + |s.got|
  }

  /** The end of the measure, for this script and mode. */
  function Bound(c: Script, s: D.State): nat {
    var n := |c.requests|;
    4 * n + 2 + Cost(s.up, n + 1) + Cost(s.down, n)
  }

  /** The hops work only by their own acts. */
  lemma PushWorks(h: R.Hop, x: Image, entered: int, left: int)
    requires R.HopOk(h) && R.Tallied(h)
    ensures var g := h.(input := h.input + x);
            R.HopOk(g) && Work(g, entered + 1, left) == Work(h, entered, left)
  {
    D.PushRefines(h, x);
  }

  lemma PopWorks(h: R.Hop, buffer: Image, entered: int, left: int)
    requires R.HopOk(h) && R.Tallied(h) && h.output != []
    ensures ReadSize(h.output) == RECORD
    ensures var g := h.(output := h.output[RECORD..]);
            R.HopOk(g) && Work(g, entered, left + 1) == Work(h, entered, left)
  {
    D.PopRefines(h, buffer);
  }

  lemma HostStepCounts(s: D.State, e: D.Event)
    requires D.Ok(s) && D.Can(s, e) && !e.Up? && !e.Down? && D.Ok(D.Next(s, e))
    ensures Steps(D.Next(s, e)) == Steps(s) + 1
  {
    match e
    case Ask(r) => PushWorks(s.up, r, |s.asked|, |s.served|);
    case Serve => PopWorks(s.up, D.Blank(), |s.asked|, |s.served|);
    case Respond => PushWorks(s.down, Reply(s.device.request), |s.answered|, |s.got|);
    case Collect => PopWorks(s.down, s.hostBuffer, |s.answered|, |s.got|);
  }

  lemma StepCounts(s: D.State, e: D.Event)
    requires D.Ok(s) && D.Uncut(s) && D.Can(s, e) && D.NoFault(e)
    ensures var t := D.Next(s, e);
            D.Ok(t) && Steps(t) >= Steps(s) + 1 && (D.Local(s) ==> Steps(t) == Steps(s) + 1)
  {
    D.StepRefines(s, e);
    if e.Up? {
      ActWorks(s.up, e.up, |s.asked|, |s.served|);
    } else if e.Down? {
      ActWorks(s.down, e.down, |s.answered|, |s.got|);
    } else {
      HostStepCounts(s, e);
    }
  }

  lemma SameBound(c: Script, s: D.State, e: D.Event)
    requires D.Can(s, e)
    ensures Bound(c, D.Next(s, e)) == Bound(c, s) && (D.Local(s) ==> D.Local(D.Next(s, e)))
  {
  }

  /** Host, pipes, threads and device: where they all are when nothing is under way. */
  predicate Quiet(s: D.State) {
    Drained(s.up) && Drained(s.down) && s.up.output == s.down.output == [] && !s.device.Answering?
  }

  /** The device has finished exactly when it has served the stop packet at the script's end. */
  lemma FinishedMeansStop(c: Script, s: D.State)
    requires WellFormed(c) && Follows(c, s)
    ensures |s.answered| <= |c.requests|
    ensures s.device.Finished? <==> |s.served| == |c.requests| + 1
    ensures s.device.Finished? ==> |s.asked| == |s.served| && |s.got| == |s.answered| == |c.requests|
  {
    var p := D.AsPipeline(s);
    P.OrderedReplies(p);
    var n := |c.requests|;
    assert s.served == (c.requests + [c.stop])[..|s.served|];
    StopPosition(c, s.served);
    if |s.served| > n {
      P.StopIsNotAnswered(p, n);
    }
  }

  lemma StopPosition(c: Script, served: seq<Image>)
    requires WellFormed(c) && |served| <= |c.requests| + 1 && served == (c.requests + [c.stop])[..|served|]
    ensures forall k :: 0 <= k < |served| ==> (IsStop(served[k]) <==> k == |c.requests|)
  {
    assert forall k :: 0 <= k < |served| ==> served[k] == (c.requests + [c.stop])[k];
  }

  lemma QuietIsFinalOrAsks(c: Script, s: D.State)
    requires WellFormed(c) && Follows(c, s) && Quiet(s)
    ensures Final(c, s) || (exists r :: Can(c, s, D.Ask(r)))
  {
    P.OrderedReplies(D.AsPipeline(s));
    FinishedMeansStop(c, s);
    var p := D.AsPipeline(s);
    assert s.served + p.up.output + p.up.flight == s.served;
    assert s.got + p.down.output + p.down.flight == s.got;
    if s.device.Finished? {
      assert (c.requests + [c.stop])[..|s.asked|] == c.requests + [c.stop];
    } else {
      var r := if |s.asked| < |c.requests| then c.requests[|s.asked|] else c.stop;
      assert Can(c, s, D.Ask(r));
    }
  }

  /** A hop with something to do can do it, and without a fault. */
  lemma HopMoves(h: R.Hop) returns (a: R.Act)
    requires R.HopOk(h) && !R.AsFifo(h).cut && !Drained(h)
    ensures R.CanAct(h, a) && R.Faultless(a)
  {
    if h.Copy? {
      a := if h.loaded then R.Forward else R.Fetch;
    } else if h.receiver.Received? {
      a := R.NoteReceived;
    } else if h.receiver.Counted? {
      a := R.Forward;
    } else if h.sender.Sending? {
      a := if h.sender.count == RECORD then R.SendNothing else R.Send(RECORD - h.sender.count);
    } else if h.sender.Sent? {
      a := R.NoteSent;
    } else {
      a := if h.input != [] then R.Fetch else R.Recv(RECORD);
    }
  }

  /** No deadlock: unless everything is over, some thread can move. */
  lemma NotStuck(c: Script, s: D.State)
    requires WellFormed(c) && Follows(c, s) && !Final(c, s)
    ensures !Stuck(c, s)
  {
    if !Drained(s.up) {
      var a := HopMoves(s.up);
      assert Can(c, s, D.Up(a));
    } else if !Drained(s.down) {
      var a := HopMoves(s.down);
      assert Can(c, s, D.Down(a));
    } else if Quiet(s) {
      QuietIsFinalOrAsks(c, s);
      var r :| Can(c, s, D.Ask(r));
    } else if s.device.Answering? {
      assert Can(c, s, D.Respond);
    } else if s.up.output != [] {
      OutputServable(c, s);
      assert Can(c, s, D.Serve);
    } else {
      OutputCollectable(c, s);
      assert Can(c, s, D.Collect);
    }
  }

  lemma OutputServable(c: Script, s: D.State)
    requires WellFormed(c) && Follows(c, s) && s.up.output != [] && !s.device.Answering?
    ensures s.device.Listening?
  {
    FinishedMeansStop(c, s);
    var p := D.AsPipeline(s);
    assert |s.served + p.up.output + p.up.flight| <= |s.asked|;
    assert |p.up.output| >= 1;
  }

  lemma OutputCollectable(c: Script, s: D.State)
    requires WellFormed(c) && Follows(c, s) && s.down.output != []
    ensures |s.asked| == |s.got| + 1 && |s.got| < |c.requests|
  {
    P.OrderedReplies(D.AsPipeline(s));
    FinishedMeansStop(c, s);
    var p := D.AsPipeline(s);
    assert |s.got + p.down.output + p.down.flight| <= |s.answered|;
    assert |p.down.output| >= 1;
  }

  /** Everything asked has been served and everything answered got, and nothing is between. */
  predicate Done(c: Script, s: D.State) {
    && Drained(s.up) && Drained(s.down)
    && |s.asked| == |s.served| == |c.requests| + 1 && |s.answered| == |s.got| == |c.requests|
  }

  lemma DoneIsFinal(c: Script, s: D.State)
    requires WellFormed(c) && Follows(c, s)
    ensures Done(c, s) <==> Final(c, s)
  {
    P.OrderedReplies(D.AsPipeline(s));
    FinishedMeansStop(c, s);
    if Done(c, s) {
      WorkBounded(s.up, s.asked, s.served);
      WorkBounded(s.down, s.answered, s.got);
      QuietIsFinalOrAsks(c, s);
    }
  }

  lemma StepsBounded(c: Script, s: D.State)
    requires WellFormed(c) && Follows(c, s)
    ensures Steps(s) <= Bound(c, s)
    ensures Steps(s) == Bound(c, s) <==> Final(c, s)
  {
    P.OrderedReplies(D.AsPipeline(s));
    FinishedMeansStop(c, s);
    WorkBounded(s.up, s.asked, s.served);
    WorkBounded(s.down, s.answered, s.got);
    DoneIsFinal(c, s);
    CostGrows(s.up, |s.asked|, |c.requests| + 1);
    CostGrows(s.down, |s.answered|, |c.requests|);
  }

  lemma CostGrows(h: R.Hop, m: nat, n: nat)
    requires m <= n
    ensures Cost(h, m) <= Cost(h, n)
    ensures Cost(h, m) == Cost(h, n) ==> m == n
  {
  }

  lemma {:induction false} RunFollows(c: Script, s: D.State, es: seq<D.Event>)
    requires WellFormed(c) && Follows(c, s) && Runs(c, s, es)
    ensures D.Runs(s, es) && Follows(c, D.After(s, es)) && Bound(c, D.After(s, es)) == Bound(c, s)
    ensures Steps(D.After(s, es)) >= Steps(s) + |es|
    ensures D.Local(s) ==> Steps(D.After(s, es)) == Steps(s) + |es|
    decreases |es|
  {
    AlsoRuns(c, s, es);
    if es != [] {
      StepFollows(c, s, es[0]);
      StepCounts(s, es[0]);
      SameBound(c, s, es[0]);
      RunFollows(c, D.Next(s, es[0]), es[1..]);
    }
  }

  /** Where everything is over nothing moves any more. */
  lemma FinalIsStuck(c: Script, s: D.State)
    requires WellFormed(c) && Follows(c, s) && Final(c, s)
    ensures Stuck(c, s)
  {
    forall e
      ensures !Can(c, s, e)
    {
      if Can(c, s, e) {
        StepFollows(c, s, e);
        StepCounts(s, e);
        SameBound(c, s, e);
        StepsBounded(c, s);
        StepsBounded(c, D.Next(s, e));
        assert false;
      }
    }
  }

  /** Progress, in local mode and in TCP mode: for any number of requests, under every schedule
      and every chunking without a fault, no run is longer than Bound, and a run can only stop,
      and must stop, where everything is over. In local mode, where Bound is 8 N + 4, every run
      that has stopped has made exactly so many steps. */
  lemma EveryRunCompletes(c: Script, s: D.State, es: seq<D.Event>)
    requires WellFormed(c) && D.Start(s) && Runs(c, s, es)
    ensures D.Runs(s, es) && |es| <= Bound(c, s)
    ensures Stuck(c, D.After(s, es)) <==> Final(c, D.After(s, es))
    ensures D.Local(s) ==>
              Bound(c, s) == 8 * |c.requests| + 4 && (Final(c, D.After(s, es)) <==> |es| == 8 * |c.requests| + 4)
    ensures s.up.Tcp? && s.down.Tcp? ==> Bound(c, s) == 592 * |c.requests| + 296
  {
    StartFollows(c, s);
    RunFollows(c, s, es);
    var t := D.After(s, es);
    StepsBounded(c, t);
    if Final(c, t) {
      FinalIsStuck(c, t);
    } else {
      NotStuck(c, t);
    }
  }

  /** The same for main() itself, whose N is 10 in the source. */
  lemma TestHostCompletes(n: uint32, s: D.State, es: seq<D.Event>)
    requires n < 0xffff_ffff && D.Start(s) && Runs(TestHost(n), s, es)
    ensures D.Runs(s, es) && |es| <= Bound(TestHost(n), s) && (D.Local(s) ==> Bound(TestHost(n), s) == 8 * n + 4)
    ensures Stuck(TestHost(n), D.After(s, es)) <==> Final(TestHost(n), D.After(s, es))
  {
    TestHostWellFormed(n);
    EveryRunCompletes(TestHost(n), s, es);
  }
}
