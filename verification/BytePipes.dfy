/** The same system with pipes that hold bytes, as they do: any number of readers and repliers
    read whatever the pipe has, into buffers with stale contents, and receivers append bytes. It
    makes exactly the runs of Reconnect, whose pipes hold records. */
module BytePipes {
  import opened Bytes
  import opened Packets
  import opened Framing
  import P = Pipeline
  import C = Channel
  import N = Reconnect

  /** The four pipes, the host's reply record, and everything else; the pipes of core stay
      empty. */
  datatype State = State(requestClient: seq<byte>, requestServer: seq<byte>,
                         replyServer: seq<byte>, replyClient: seq<byte>,
                         hostBuffer: Image, core: N.State)

  predicate Can(b: State, e: N.Event) {
    if e.Serve? then b.core.device.Listening? && b.requestServer != []
    else if e.Collect? then |b.core.asked| > |b.core.got| && b.replyClient != []
    else if e.Up? && e.up.Read? then C.At(b.core.up, e.up.w, C.Reading) && b.requestClient != []
    else if e.Down? && e.down.Read? then C.At(b.core.down, e.down.w, C.Reading) && b.replyServer != []
    else N.Can(b.core, e)
  }

  /** A worker reads up to a record into the buffer that all workers share. */
  function Reads(ch: C.Channel, w: nat, pipe: seq<byte>): C.Channel
    requires C.At(ch, w, C.Reading)
  {
    C.Go(ch, w, C.Sending(0)).(sendBuffer := Overlay(pipe[..ReadSize(pipe)], ch.sendBuffer))
  }

  function Rest(pipe: seq<byte>): seq<byte> {
    pipe[ReadSize(pipe)..]
  }

  function Next(b: State, e: N.Event): State
    requires Can(b, e)
  {
    var s := b.core;
    match e
    case Ask(r) => b.(requestClient := b.requestClient + r, core := s.(asked := s.asked + [r]))
    case Serve =>
      var r := Overlay(b.requestServer[..ReadSize(b.requestServer)], Zeros(RECORD));
      b.(requestServer := Rest(b.requestServer),
         core := s.(served := s.served + [r], device := if IsStop(r) then P.Finished else P.Answering(r)))
    case Respond =>
      b.(replyServer := b.replyServer + Reply(s.device.request), core := s.(device := P.Listening))
    case Collect =>
      var r := Overlay(b.replyClient[..ReadSize(b.replyClient)], b.hostBuffer);
      b.(replyClient := Rest(b.replyClient), hostBuffer := r, core := s.(got := s.got + [r]))
    case Up(a) =>
      if a.Read? then
        b.(requestClient := Rest(b.requestClient), core := s.(up := Reads(s.up, a.w, b.requestClient)))
      else if a.Deliver? then
        b.(requestServer := b.requestServer + s.up.recvBuffer, core := Bare(N.Next(s, e)))
      else
        b.(core := N.Next(s, e))
    case Down(a) =>
      if a.Read? then
        b.(replyServer := Rest(b.replyServer), core := s.(down := Reads(s.down, a.w, b.replyServer)))
      else if a.Deliver? then
        b.(replyClient := b.replyClient + s.down.recvBuffer, core := Bare(N.Next(s, e)))
      else
        b.(core := N.Next(s, e))
    case _ => b.(core := N.Next(s, e))
  }

  predicate Runs(b: State, es: seq<N.Event>)
    decreases |es|
  {
    es == [] || (Can(b, es[0]) && Runs(Next(b, es[0]), es[1..]))
  }

  function After(b: State, es: seq<N.Event>): State
    requires Runs(b, es)
    decreases |es|
  {
    if es == [] then b else After(Next(b, es[0]), es[1..])
  }

  // ---- As records

  function WithPipes(ch: C.Channel, input: seq<Image>, output: seq<Image>): C.Channel {
    ch.(input := input, output := output)
  }

  /** s without what is in its pipes. */
  function Bare(s: N.State): N.State {
    s.(up := WithPipes(s.up, [], []), down := WithPipes(s.down, [], []))
  }

  function AsRecords(b: State): N.State {
    b.core.(up := WithPipes(b.core.up, Chunks(b.requestClient), Chunks(b.requestServer)),
            down := WithPipes(b.core.down, Chunks(b.replyServer), Chunks(b.replyClient)))
  }

  predicate Ok(b: State) {
    && b.core == Bare(b.core)
    && Aligned(b.requestClient) && Aligned(b.requestServer) && Aligned(b.replyServer) && Aligned(b.replyClient)
  }

  lemma NotEmpty(pipe: seq<byte>)
    requires Aligned(pipe)
    ensures pipe != [] <==> Chunks(pipe) != []
  {
  }

  lemma SameCanUp(b: State, a: C.Act)
    requires Ok(b)
    ensures Can(b, N.Up(a)) <==> N.Can(AsRecords(b), N.Up(a))
  {
    NotEmpty(b.requestClient);
  }

  lemma SameCanDown(b: State, a: C.Act)
    requires Ok(b)
    ensures Can(b, N.Down(a)) <==> N.Can(AsRecords(b), N.Down(a))
  {
    NotEmpty(b.replyServer);
  }

  lemma SameCan(b: State, e: N.Event)
    requires Ok(b)
    ensures Can(b, e) <==> N.Can(AsRecords(b), e)
  {
    NotEmpty(b.requestServer);
    NotEmpty(b.replyClient);
    if e.Up? {
      SameCanUp(b, e.up);
    } else if e.Down? {
      SameCanDown(b, e.down);
    }
  }

  /** A read of an aligned pipe gets its oldest record, whole, whatever the buffer held. */
  lemma ReadsOldest(pipe: seq<byte>, stale: Image)
    requires Aligned(pipe) && pipe != []
    ensures Overlay(pipe[..ReadSize(pipe)], stale) == Chunks(pipe)[0]
    ensures Aligned(Rest(pipe)) && Chunks(Rest(pipe)) == Chunks(pipe)[1..]
  {
    assert pipe[..RECORD] + stale[RECORD..] == pipe[..RECORD];
  }

  lemma Appended(pipe: seq<byte>, x: Image)
    requires Aligned(pipe)
    ensures Aligned(pipe + x) && Chunks(pipe + x) == Chunks(pipe) + [x]
  {
    ChunksAppend(pipe, x);
    ChunksOne(x);
  }

  lemma HostStep(b: State, e: N.Event)
    requires Ok(b) && Can(b, e) && N.Can(AsRecords(b), e) && !N.ByRelay(e)
    ensures Ok(Next(b, e)) && AsRecords(Next(b, e)) == N.Next(AsRecords(b), e)
  {
    match e
    case Ask(r) => Appended(b.requestClient, r);
    case Serve => ReadsOldest(b.requestServer, Zeros(RECORD));
    case Respond => Appended(b.replyServer, Reply(b.core.device.request));
    case Collect => ReadsOldest(b.replyClient, b.hostBuffer);
  }

  lemma PipeStep(b: State, e: N.Event)
    requires Ok(b) && Can(b, e) && N.Can(AsRecords(b), e)
    requires (e.Up? && (e.up.Read? || e.up.Deliver?)) || (e.Down? && (e.down.Read? || e.down.Deliver?))
    ensures Ok(Next(b, e)) && AsRecords(Next(b, e)) == N.Next(AsRecords(b), e)
  {
    if e.Up? && e.up.Read? {
      ReadsOldest(b.requestClient, b.core.up.sendBuffer);
    } else if e.Up? {
      Appended(b.requestServer, b.core.up.recvBuffer);
    } else if e.down.Read? {
      ReadsOldest(b.replyServer, b.core.down.sendBuffer);
    } else {
      Appended(b.replyClient, b.core.down.recvBuffer);
    }
  }

  lemma UpStep(b: State, e: N.Event)
    requires Ok(b) && Can(b, e) && N.Can(AsRecords(b), e) && e.Up? && !e.up.Read? && !e.up.Deliver?
    ensures Ok(Next(b, e)) && AsRecords(Next(b, e)) == N.Next(AsRecords(b), e)
  {
  }

  lemma DownStep(b: State, e: N.Event)
    requires Ok(b) && Can(b, e) && N.Can(AsRecords(b), e) && e.Down? && !e.down.Read? && !e.down.Deliver?
    ensures Ok(Next(b, e)) && AsRecords(Next(b, e)) == N.Next(AsRecords(b), e)
  {
  }

  lemma ControlStep(b: State, e: N.Event)
    requires Ok(b) && Can(b, e) && N.Can(AsRecords(b), e) && N.ByRelay(e) && !e.Up? && !e.Down?
    ensures Ok(Next(b, e)) && AsRecords(Next(b, e)) == N.Next(AsRecords(b), e)
  {
  }

  lemma SameStep(b: State, e: N.Event)
    requires Ok(b) && Can(b, e)
    ensures N.Can(AsRecords(b), e)
    ensures Ok(Next(b, e)) && AsRecords(Next(b, e)) == N.Next(AsRecords(b), e)
  {
    SameCan(b, e);
    if !N.ByRelay(e) {
      HostStep(b, e);
    } else if (e.Up? && (e.up.Read? || e.up.Deliver?)) || (e.Down? && (e.down.Read? || e.down.Deliver?)) {
      PipeStep(b, e);
    } else if e.Up? {
      UpStep(b, e);
    } else if e.Down? {
      DownStep(b, e);
    } else {
      ControlStep(b, e);
    }
  }

  /** The system with byte pipes and the one with record pipes make the same runs; its pipes are
      aligned in every state, however many workers read them. */
  lemma {:induction false} SameRuns(b: State, es: seq<N.Event>)
    requires Ok(b)
    ensures Runs(b, es) <==> N.Runs(AsRecords(b), es)
    ensures Runs(b, es) ==> Ok(After(b, es)) && AsRecords(After(b, es)) == N.After(AsRecords(b), es)
    decreases |es|
  {
    if es != [] {
      SameCan(b, es[0]);
      if Can(b, es[0]) {
        SameStep(b, es[0]);
        SameRuns(Next(b, es[0]), es[1..]);
      }
    }
  }
}
