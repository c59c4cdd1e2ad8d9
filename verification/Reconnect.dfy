/** TCP mode across any number of connection losses, with the synchronous host. The client
    thread connects, spawns a reader, receives replies until a receive fails, opens a new
    socket and starts over; the server thread accepts, spawns a replier, receives requests
    until a receive fails, and accepts again. Old readers and repliers live on, blocked on
    their pipes, with the sockets of closed connections. Pipes are sequences of whole
    records here; BytePipes shows that with pipes of bytes the runs are the same. */
module Reconnect {
  import opened Bytes
  import opened Packets
  import P = Pipeline
  import C = Channel

  /** Before connect(); before spawning; in the reply loop; before the new socket; before
      the stop flag is raised. */
  datatype ClientPc = Connecting | Connected | Receiving | Dropped | Flagging

  datatype ServerPc = Accepting | Accepted | Serving | Leaving

  datatype Client = Client(pc: ClientPc, sock: nat, stopReaders: bool)

  datatype Server = Server(pc: ServerPc, sock: int, stopRepliers: bool)

  /** linked: sockets whose connect() has succeeded. */
  datatype State = State(asked: seq<Image>, up: C.Channel, served: seq<Image>, device: P.Device,
                         down: C.Channel, got: seq<Image>,
                         linked: set<nat>, client: Client, server: Server)

  datatype Event =
    | Ask(request: Image) | Serve | Respond | Collect
    | Connect(ok: bool) | SpawnReader | Resocket | StopReaders
    | Accept(sock: nat) | SpawnReplier | StopRepliers
    | Up(up: C.Act)      // readers, and the server thread's receives
    | Down(down: C.Act)  // repliers, and the client thread's receives

  function Number(r: Image): uint32 {
    Field32(r, 0)
  }

  /** A send on sock can succeed, if none has failed: connected, and not closed by its own side. */
  predicate ClientMaySend(s: State, sock: int) {
    sock in s.linked && C.Socket(s.down, sock) && !s.down.streams[sock].done
  }

  predicate ServerMaySend(s: State, sock: int) {
    sock in s.linked && C.Socket(s.up, sock) && !s.up.streams[sock].done
  }

  predicate MayUp(s: State, a: C.Act) {
    match a
    case Begin(w, socket) => socket == s.client.sock
    case Proceed(w) => !s.client.stopReaders
    case Quit(w) => s.client.stopReaders
    case Read(w) => true
    case Send(w, n) => w < |s.up.workers| && ClientMaySend(s, s.up.workers[w].sock)
    case SendDone(w) => w < |s.up.workers| && ClientMaySend(s, s.up.workers[w].sock)
    case SendFails(w, connected) => w < |s.up.workers| && (connected <==> s.up.workers[w].sock in s.linked)
    case Recv(n) => s.server.pc.Serving?
    case RecvFails => s.server.pc.Serving?
    case Deliver => s.server.pc.Serving?
    case Hangup => s.server.pc.Serving?
    case _ => false
  }

  predicate MayDown(s: State, a: C.Act) {
    match a
    case Begin(w, socket) => socket == s.server.sock
    case Proceed(w) => !s.server.stopRepliers
    case Quit(w) => s.server.stopRepliers
    case Read(w) => true
    case Send(w, n) => w < |s.down.workers| && ServerMaySend(s, s.down.workers[w].sock)
    case SendDone(w) => w < |s.down.workers| && ServerMaySend(s, s.down.workers[w].sock)
    case SendFails(w, connected) => w < |s.down.workers| && (connected <==> s.down.workers[w].sock in s.linked)
    case Recv(n) => s.client.pc.Receiving?
    case RecvFails => s.client.pc.Receiving?
    case Deliver => s.client.pc.Receiving?
    case Hangup => s.client.pc.Receiving?
    case _ => false
  }

  /** The host numbers its requests upwards and waits for each reply (cxl_relay/dml_debug.c); at
      any time it may end with the stop packet (cxl_relay/testhost.c). */
  predicate MayAsk(s: State, r: Image) {
    |s.asked| == |s.got| && (IsStop(r) || forall i :: 0 <= i < |s.asked| ==> Number(s.asked[i]) < Number(r))
  }

  predicate Can(s: State, e: Event) {
    match e
    case Ask(r) => MayAsk(s, r)
    case Serve => s.device.Listening? && s.up.output != []
    case Respond => s.device.Answering?
    case Collect => |s.asked| > |s.got| && s.down.output != []
    case Connect(ok) => s.client.pc.Connecting?
    case SpawnReader => s.client.pc.Connected? && C.Can(s.down, C.Open(s.client.sock))
    case Resocket => s.client.pc.Dropped?
    case StopReaders => s.client.pc.Flagging?
    case Accept(sock) => s.server.pc.Accepting? && sock in s.linked && C.Can(s.up, C.Open(sock))
    case SpawnReplier => s.server.pc.Accepted? && s.server.sock >= 0 && C.Can(s.up, C.Open(s.server.sock))
    case StopRepliers => s.server.pc.Leaving?
    case Up(a) => MayUp(s, a) && C.Can(s.up, a)
    case Down(a) => MayDown(s, a) && C.Can(s.down, a)
  }

  function Next(s: State, e: Event): State
    requires Can(s, e)
  {
    match e
    case Ask(r) => s.(asked := s.asked + [r], up := s.up.(input := s.up.input + [r]))
    case Serve =>
      var r := s.up.output[0];
      s.(up := s.up.(output := s.up.output[1..]), served := s.served + [r],
         device := if IsStop(r) then P.Finished else P.Answering(r))
    case Respond =>
      s.(device := P.Listening, down := s.down.(input := s.down.input + [Reply(s.device.request)]))
    case Collect =>
      s.(down := s.down.(output := s.down.output[1..]), got := s.got + [s.down.output[0]])
    case Connect(ok) =>
      if ok then s.(linked := s.linked + {s.client.sock}, client := s.client.(pc := Connected)) else s
    case SpawnReader =>
      s.(client := s.client.(pc := Receiving, stopReaders := false),
         up := C.Next(s.up, C.Spawn), down := C.Next(s.down, C.Open(s.client.sock)))
    case Resocket =>
      s.(client := s.client.(pc := Flagging, sock := |s.up.streams|),
         up := C.Next(s.up, C.NewSocket), down := C.Next(s.down, C.NewSocket))
    case StopReaders => s.(client := s.client.(pc := Connecting, stopReaders := true))
    case Accept(sock) => s.(server := s.server.(pc := Accepted, sock := sock))
    case SpawnReplier =>
      s.(server := s.server.(pc := Serving, stopRepliers := false),
         up := C.Next(s.up, C.Open(s.server.sock)), down := C.Next(s.down, C.Spawn))
    case StopRepliers => s.(server := s.server.(pc := Accepting, stopRepliers := true))
    case Up(a) =>
      s.(up := C.Next(s.up, a), server := if a.Hangup? then s.server.(pc := Leaving, sock := -1) else s.server)
    case Down(a) =>
      s.(down := C.Next(s.down, a), client := if a.Hangup? then s.client.(pc := Dropped) else s.client)
  }

  predicate Runs(s: State, es: seq<Event>)
    decreases |es|
  {
    es == [] || (Can(s, es[0]) && Runs(Next(s, es[0]), es[1..]))
  }

  function After(s: State, es: seq<Event>): State
    requires Runs(s, es)
    decreases |es|
  {
    if es == [] then s else After(Next(s, es[0]), es[1..])
  }

  lemma RunsCons(s: State, e: Event, rest: seq<Event>)
    requires Can(s, e) && Runs(Next(s, e), rest)
    ensures Runs(s, [e] + rest) && After(s, [e] + rest) == After(Next(s, e), rest)
  {
    assert ([e] + rest)[1..] == rest;
  }

  predicate Fresh(ch: C.Channel) {
    && ch.input == [] && ch.output == [] && ch.workers == []
    && ch.streams == [C.Stream([], false, false)] && ch.receiver.Off?
  }

  predicate Start(s: State) {
    && s.asked == [] && s.served == [] && s.got == [] && s.device.Listening? && s.linked == {}
    && Fresh(s.up) && Fresh(s.down)
    && s.client.pc.Connecting? && s.client.sock == 0
    && s.server.pc.Accepting? && s.server.sock == -1
  }

  // ---- The control state of the two main threads

  predicate ControlOk(s: State) {
    && |s.up.streams| == |s.down.streams| == s.client.sock + 1
    && (s.client.pc.Receiving? <==> !s.down.receiver.Off?)
    && (s.client.pc.Receiving? ==> s.down.receiver.sock == s.client.sock && !s.client.stopReaders)
    && -1 <= s.server.sock < |s.up.streams|
    && (s.server.pc.Accepting? || s.server.pc.Leaving? ==> s.server.sock == -1)
    && (s.server.pc.Serving? <==> !s.up.receiver.Off?)
    && (s.server.pc.Serving? ==>
          s.server.sock >= 0 && s.up.receiver.sock == s.server.sock && !s.server.stopRepliers)
    && (s.server.pc.Accepted? ==> s.server.sock >= 0 && !s.up.streams[s.server.sock].done)
    && (forall c :: 0 <= c < |s.down.streams| ==> (s.down.streams[c].done <==> ClientClosed(s, c)))
  }

  /** The client has closed each of its sockets before it made the next one. */
  predicate ClientClosed(s: State, sock: nat) {
    sock < s.client.sock || (sock == s.client.sock && s.client.pc.Dropped?)
  }

  /** One reader per successful connect, no more and no fewer; and no new connection is tried
      while the flag that stops the old reader is down, nor accepted while the one that stops
      the old replier is. */
  ghost predicate ReadersOk(s: State) {
    && |s.up.workers| + (if s.client.pc.Connected? then 1 else 0) == |s.linked|
    && (forall c: nat :: c in s.linked <==> HasConnected(s, c))
    && (s.client.pc.Connecting? ==> s.client.stopReaders || s.up.workers == [])
    && (s.server.pc.Accepting? ==> s.server.stopRepliers || s.down.workers == [])
  }

  /** The client has connected each of its sockets before it made the next one. */
  predicate HasConnected(s: State, sock: nat) {
    sock < s.client.sock || (sock == s.client.sock && !s.client.pc.Connecting? && !s.client.pc.Flagging?)
  }

  predicate Used(s: C.Stream) {
    s.bytes != [] || s.failed
  }

  /** Nothing happens on a socket that is not connected. */
  predicate TrafficOk(s: State) {
    && (forall c: nat :: c < |s.up.streams| && (s.up.streams[c].done || Used(s.up.streams[c])) ==> c in s.linked)
    && (forall c: nat :: c < |s.down.streams| && Used(s.down.streams[c]) ==> c in s.linked)
    && (s.server.sock >= 0 ==> s.server.sock in s.linked)
    && (forall w :: 0 <= w < |s.down.workers| ==> s.down.workers[w].sock == -1 || s.down.workers[w].sock in s.linked)
  }

  lemma UpControl(s: State, e: Event)
    requires ControlOk(s) && Can(s, e) && e.Up?
    ensures ControlOk(Next(s, e))
  {
  }

  lemma UpReaders(s: State, e: Event)
    requires ReadersOk(s) && Can(s, e) && e.Up?
    ensures ReadersOk(Next(s, e))
  {
    assert |Next(s, e).up.workers| == |s.up.workers|;
    assert e.up.Hangup? ==> s.server.pc.Serving?;
  }

  lemma DownControl(s: State, e: Event)
    requires ControlOk(s) && Can(s, e) && e.Down?
    ensures ControlOk(Next(s, e))
  {
  }

  lemma DownReaders(s: State, e: Event)
    requires ControlOk(s) && ReadersOk(s) && Can(s, e) && e.Down?
    ensures ReadersOk(Next(s, e))
  {
    assert |Next(s, e).down.workers| == |s.down.workers|;
  }

  lemma ClientControl(s: State, e: Event)
    requires ControlOk(s) && Can(s, e) && (e.Connect? || e.SpawnReader? || e.Resocket? || e.StopReaders?)
    ensures ControlOk(Next(s, e))
  {
  }

  lemma ConnectReaders(s: State, e: Event)
    requires ControlOk(s) && ReadersOk(s) && Can(s, e) && e.Connect?
    ensures ReadersOk(Next(s, e))
  {
    assert s.client.sock !in s.linked;
  }

  lemma ClientReaders(s: State, e: Event)
    requires ControlOk(s) && ReadersOk(s) && Can(s, e) && (e.SpawnReader? || e.Resocket? || e.StopReaders?)
    ensures ReadersOk(Next(s, e))
  {
  }

  lemma ServerControl(s: State, e: Event)
    requires ControlOk(s) && ReadersOk(s) && Can(s, e) && (e.Accept? || e.SpawnReplier? || e.StopRepliers?)
    ensures ControlOk(Next(s, e)) && ReadersOk(Next(s, e))
  {
  }

  /** Two states with the same connections, workers and program counters. */
  predicate SameRelay(s: State, t: State) {
    && t.up == s.up.(input := t.up.input, output := t.up.output)
    && t.down == s.down.(input := t.down.input, output := t.down.output)
    && t.linked == s.linked && t.client == s.client && t.server == s.server
  }

  lemma HostFrame(s: State, e: Event)
    requires Can(s, e) && !ByRelay(e)
    ensures SameRelay(s, Next(s, e))
  {
  }

  lemma SameControl(s: State, t: State)
    requires ControlOk(s) && ReadersOk(s) && TrafficOk(s) && SameRelay(s, t)
    ensures ControlOk(t) && ReadersOk(t) && TrafficOk(t)
  {
  }

  lemma UpTraffic(s: State, e: Event)
    requires ControlOk(s) && TrafficOk(s) && Can(s, e) && e.Up?
    ensures TrafficOk(Next(s, e))
  {
    if e.up.Send? || e.up.Recv? || e.up.SendFails? {
      UpStreams(s, e);
    } else if e.up.Hangup? {
      UpHangup(s, e);
    } else {
      UpWorkers(s, e);
    }
  }

  lemma UpStreams(s: State, e: Event)
    requires TrafficOk(s) && Can(s, e) && e.Up? && (e.up.Send? || e.up.Recv? || e.up.SendFails?)
    ensures TrafficOk(Next(s, e))
  {
  }

  lemma UpHangup(s: State, e: Event)
    requires ControlOk(s) && TrafficOk(s) && Can(s, e) && e.Up? && e.up.Hangup?
    ensures TrafficOk(Next(s, e))
  {
  }

  lemma UpWorkers(s: State, e: Event)
    requires TrafficOk(s) && Can(s, e) && e.Up?
    requires !(e.up.Send? || e.up.Recv? || e.up.SendFails? || e.up.Hangup?)
    ensures TrafficOk(Next(s, e))
  {
    assert Next(s, e).up.streams == s.up.streams;
  }

  lemma DownTraffic(s: State, e: Event)
    requires TrafficOk(s) && Can(s, e) && e.Down?
    ensures TrafficOk(Next(s, e))
  {
    if e.down.Send? || e.down.Recv? || e.down.SendFails? || e.down.Hangup? {
      DownStreams(s, e);
    } else {
      DownWorkers(s, e);
    }
  }

  lemma DownStreams(s: State, e: Event)
    requires TrafficOk(s) && Can(s, e) && e.Down?
    requires e.down.Send? || e.down.Recv? || e.down.SendFails? || e.down.Hangup?
    ensures TrafficOk(Next(s, e))
  {
  }

  lemma DownWorkers(s: State, e: Event)
    requires TrafficOk(s) && Can(s, e) && e.Down?
    requires !(e.down.Send? || e.down.Recv? || e.down.SendFails? || e.down.Hangup?)
    ensures TrafficOk(Next(s, e))
  {
    assert Next(s, e).down.streams == s.down.streams;
  }

  lemma ClientTraffic(s: State, e: Event)
    requires TrafficOk(s) && Can(s, e) && (e.Connect? || e.SpawnReader? || e.Resocket? || e.StopReaders?)
    ensures TrafficOk(Next(s, e))
  {
  }

  lemma ServerTraffic(s: State, e: Event)
    requires TrafficOk(s) && Can(s, e) && (e.Accept? || e.SpawnReplier? || e.StopRepliers?)
    ensures TrafficOk(Next(s, e))
  {
  }

  lemma StepControl(s: State, e: Event)
    requires ControlOk(s) && ReadersOk(s) && TrafficOk(s) && Can(s, e)
    ensures ControlOk(Next(s, e)) && ReadersOk(Next(s, e)) && TrafficOk(Next(s, e))
  {
    if e.Up? {
      UpControl(s, e);
      UpReaders(s, e);
      UpTraffic(s, e);
    } else if e.Down? {
      DownControl(s, e);
      DownReaders(s, e);
      DownTraffic(s, e);
    } else if !ByRelay(e) {
      HostFrame(s, e);
      SameControl(s, Next(s, e));
    } else if e.Accept? || e.SpawnReplier? || e.StopRepliers? {
      ServerControl(s, e);
      ServerTraffic(s, e);
    } else {
      ClientControl(s, e);
      ClientTraffic(s, e);
      if e.Connect? {
        ConnectReaders(s, e);
      } else {
        ClientReaders(s, e);
      }
    }
  }

  lemma {:induction false} RunControl(s: State, es: seq<Event>)
    requires ControlOk(s) && ReadersOk(s) && TrafficOk(s) && Runs(s, es)
    ensures var t := After(s, es); ControlOk(t) && ReadersOk(t) && TrafficOk(t)
    decreases |es|
  {
    if es != [] {
      StepControl(s, es[0]);
      RunControl(Next(s, es[0]), es[1..]);
    }
  }

  /** Over all runs: exactly one reader has been spawned per successful connect (but for the
      one about to be), the flags stopping the old reader and replier are up whenever a connect
      or an accept is tried and down while a connection is served, the server's socket variable
      holds a socket only between accept and close, and a connected client or accepted connection
      can always spawn its thread. */
  lemma OneReaderPerConnection(s: State, es: seq<Event>)
    requires Start(s) && Runs(s, es)
    ensures var t := After(s, es);
            && |t.up.workers| + (if t.client.pc.Connected? then 1 else 0) == |t.linked|
            && (t.client.pc.Connecting? ==> t.client.stopReaders || t.up.workers == [])
            && (t.server.pc.Accepting? ==> t.server.stopRepliers || t.down.workers == [])
            && (t.client.pc.Receiving? ==> !t.client.stopReaders) && (t.server.pc.Serving? ==> !t.server.stopRepliers)
            && (t.server.sock == -1 <==> t.server.pc.Accepting? || t.server.pc.Leaving?)
            && (t.client.pc.Connected? ==> Can(t, SpawnReader))
            && (t.server.pc.Accepted? ==> Can(t, SpawnReplier))
  {
    RunControl(s, es);
  }

  // ---- What the stop flags do

  /** The reads that worker w of a channel makes. */
  function Reads(acts: seq<C.Act>, w: nat): nat {
    if acts == [] then 0 else (if acts[0] == C.Read(w) then 1 else 0) + Reads(acts[1..], w)
  }

  function UpActs(es: seq<Event>): seq<C.Act> {
    if es == [] then [] else (if es[0].Up? then [es[0].up] else []) + UpActs(es[1..])
  }

  function DownActs(es: seq<Event>): seq<C.Act> {
    if es == [] then [] else (if es[0].Down? then [es[0].down] else []) + DownActs(es[1..])
  }

  /** At its loop head, where it looks at its stop flag, or returned. */
  predicate AtLoopHead(ch: C.Channel, w: nat) {
    C.At(ch, w, C.Checking) || C.At(ch, w, C.Exited)
  }

  /** Once the flag that stops readers is up, and until the next reader is spawned, a reader takes
      no record from the pipe but one that it was already waiting for; and one that is at its
      loop head stays there or returns. So what waits in the pipe is left for the next reader. */
  lemma {:induction false} StoppedReader(s: State, es: seq<Event>, w: nat)
    requires s.client.stopReaders && w < |s.up.workers| && Runs(s, es)
    requires forall i :: 0 <= i < |es| ==> !es[i].SpawnReader?
    ensures After(s, es).client.stopReaders && w < |After(s, es).up.workers|
    ensures Reads(UpActs(es), w) <= if s.up.workers[w].pc.Reading? then 1 else 0
    ensures AtLoopHead(s.up, w) ==> AtLoopHead(After(s, es).up, w)
    decreases |es|
  {
    if es != [] {
      var e := es[0];
      assert !e.SpawnReader?;
      ReaderStopping(s, e, w);
      forall i | 0 <= i < |es[1..]|
        ensures !es[1..][i].SpawnReader?
      {
        assert es[1..][i] == es[i + 1];
      }
      StoppedReader(Next(s, e), es[1..], w);
      if e.Up? {
        assert UpActs(es)[0] == e.up && UpActs(es)[1..] == UpActs(es[1..]);
      } else {
        assert UpActs(es) == UpActs(es[1..]);
      }
    }
  }

  lemma ReaderStopping(s: State, e: Event, w: nat)
    requires s.client.stopReaders && w < |s.up.workers| && Can(s, e) && !e.SpawnReader?
    ensures Next(s, e).client.stopReaders && w < |Next(s, e).up.workers|
    ensures e == Up(C.Read(w)) ==> s.up.workers[w].pc.Reading?
    ensures Next(s, e).up.workers[w].pc.Reading? ==> s.up.workers[w].pc.Reading? && e != Up(C.Read(w))
    ensures AtLoopHead(s.up, w) ==> AtLoopHead(Next(s, e).up, w)
  {
  }

  /** The same for repliers and their flag. */
  lemma {:induction false} StoppedReplier(s: State, es: seq<Event>, w: nat)
    requires s.server.stopRepliers && w < |s.down.workers| && Runs(s, es)
    requires forall i :: 0 <= i < |es| ==> !es[i].SpawnReplier?
    ensures After(s, es).server.stopRepliers && w < |After(s, es).down.workers|
    ensures Reads(DownActs(es), w) <= if s.down.workers[w].pc.Reading? then 1 else 0
    ensures AtLoopHead(s.down, w) ==> AtLoopHead(After(s, es).down, w)
    decreases |es|
  {
    if es != [] {
      var e := es[0];
      assert !e.SpawnReplier?;
      ReplierStopping(s, e, w);
      forall i | 0 <= i < |es[1..]|
        ensures !es[1..][i].SpawnReplier?
      {
        assert es[1..][i] == es[i + 1];
      }
      StoppedReplier(Next(s, e), es[1..], w);
      if e.Down? {
        assert DownActs(es)[0] == e.down && DownActs(es)[1..] == DownActs(es[1..]);
      } else {
        assert DownActs(es) == DownActs(es[1..]);
      }
    }
  }

  lemma ReplierStopping(s: State, e: Event, w: nat)
    requires s.server.stopRepliers && w < |s.down.workers| && Can(s, e) && !e.SpawnReplier?
    ensures Next(s, e).server.stopRepliers && w < |Next(s, e).down.workers|
    ensures e == Down(C.Read(w)) ==> s.down.workers[w].pc.Reading?
    ensures Next(s, e).down.workers[w].pc.Reading? ==> s.down.workers[w].pc.Reading? && e != Down(C.Read(w))
    ensures AtLoopHead(s.down, w) ==> AtLoopHead(Next(s, e).down, w)
  {
  }

  /** At the loop head the flag decides alone: up, and the worker can only return; down, and it can
      only go on. */
  lemma FlagDecides(s: State, w: nat)
    ensures C.At(s.up, w, C.Checking) ==>
              && (Can(s, Up(C.Quit(w))) <==> s.client.stopReaders)
              && (Can(s, Up(C.Proceed(w))) <==> !s.client.stopReaders)
    ensures C.At(s.down, w, C.Checking) ==>
              && (Can(s, Down(C.Quit(w))) <==> s.server.stopRepliers)
              && (Can(s, Down(C.Proceed(w))) <==> !s.server.stopRepliers)
  {
  }

  // ---- Which sockets the workers use

  /** Reader w is spawned for the client's socket w. It may start late and find a later one in the
      client's variable, but never an earlier one. */
  predicate SocketsOk(s: State) {
    && |s.up.workers| == s.client.sock + (if s.client.pc.Receiving? || s.client.pc.Dropped? then 1 else 0)
    && forall w :: 0 <= w < |s.up.workers| ==>
         s.up.workers[w].pc.Starting? || w <= s.up.workers[w].sock <= s.client.sock
  }

  lemma StepSockets(s: State, e: Event)
    requires ControlOk(s) && SocketsOk(s) && Can(s, e)
    ensures SocketsOk(Next(s, e))
  {
    if e.Up? {
      UpSockets(s, e);
    } else if e.Down? {
      DownSockets(s, e);
    }
  }

  lemma UpSockets(s: State, e: Event)
    requires SocketsOk(s) && Can(s, e) && e.Up?
    ensures SocketsOk(Next(s, e))
  {
    assert |Next(s, e).up.workers| == |s.up.workers|;
  }

  lemma DownSockets(s: State, e: Event)
    requires ControlOk(s) && SocketsOk(s) && Can(s, e) && e.Down?
    ensures SocketsOk(Next(s, e))
  {
    assert Next(s, e).up == s.up;
  }

  lemma {:induction false} RunSockets(s: State, es: seq<Event>)
    requires ControlOk(s) && ReadersOk(s) && TrafficOk(s) && SocketsOk(s) && Runs(s, es)
    ensures SocketsOk(After(s, es))
    decreases |es|
  {
    if es != [] {
      StepControl(s, es[0]);
      StepSockets(s, es[0]);
      RunSockets(Next(s, es[0]), es[1..]);
    }
  }

  /** In every reachable state each started reader holds its own connection's socket or a later
      one, and each started replier a connected socket or none. */
  lemma WorkersSockets(s: State, es: seq<Event>)
    requires Start(s) && Runs(s, es)
    ensures var t := After(s, es);
            && (forall w :: 0 <= w < |t.up.workers| ==>
                  t.up.workers[w].pc.Starting? || w <= t.up.workers[w].sock <= t.client.sock)
            && (forall w :: 0 <= w < |t.down.workers| ==>
                  t.down.workers[w].sock == -1 || t.down.workers[w].sock in t.linked)
  {
    RunControl(s, es);
    RunSockets(s, es);
  }

  /** A connected socket on which a send has failed accepts nothing any more. */
  lemma {:induction false} StaysFailed(s: State, es: seq<Event>, sock: nat)
    requires Runs(s, es)
    ensures C.Socket(s.up, sock) && s.up.streams[sock].failed ==>
              C.Socket(After(s, es).up, sock) && After(s, es).up.streams[sock].failed
    ensures C.Socket(s.down, sock) && s.down.streams[sock].failed ==>
              C.Socket(After(s, es).down, sock) && After(s, es).down.streams[sock].failed
    decreases |es|
  {
    if es != [] {
      StepFailed(s, es[0], sock);
      StaysFailed(Next(s, es[0]), es[1..], sock);
    }
  }

  lemma StepFailed(s: State, e: Event, sock: nat)
    requires Can(s, e)
    ensures C.Socket(s.up, sock) && s.up.streams[sock].failed ==>
              C.Socket(Next(s, e).up, sock) && Next(s, e).up.streams[sock].failed
    ensures C.Socket(s.down, sock) && s.down.streams[sock].failed ==>
              C.Socket(Next(s, e).down, sock) && Next(s, e).down.streams[sock].failed
  {
  }

  /** So after a reader's send has failed on a connected socket, no reader's send on that socket
      ever succeeds again. */
  lemma FailedForGood(s: State, w: nat, connected: bool, es: seq<Event>, v: nat, n: nat)
    requires Can(s, Up(C.SendFails(w, connected))) && s.up.workers[w].sock in s.linked
    requires Runs(Next(s, Up(C.SendFails(w, connected))), es)
    ensures var t := After(Next(s, Up(C.SendFails(w, connected))), es);
            v < |t.up.workers| && t.up.workers[v].sock == s.up.workers[w].sock ==>
              !Can(t, Up(C.Send(v, n))) && !Can(t, Up(C.SendDone(v)))
  {
    var sock := s.up.workers[w].sock;
    var t := Next(s, Up(C.SendFails(w, connected)));
    assert t.up.streams[sock].failed;
    StaysFailed(t, es, sock);
  }

  // ---- Where the one transaction is

  function Request(s: State): Image {
    if s.asked == [] then Zeros(RECORD) else s.asked[|s.asked| - 1]
  }

  predicate Histories(s: State) {
    && |s.got| <= |s.served| <= |s.asked| <= |s.got| + 1
    && s.served <= s.asked
    && (forall k :: 0 <= k < |s.got| ==> s.got[k] == Reply(s.asked[k]) && !IsStop(s.asked[k]))
    && (forall i, k :: 0 <= i < k < |s.asked| ==> Before(s.asked[i], s.asked[k]))
  }

  /** The host sends q after r: under a higher number, or as the stop packet. */
  predicate Before(r: Image, q: Image) {
    !IsStop(r) && (IsStop(q) || Number(r) < Number(q))
  }

  /** The request, or its reply, is at exactly one place: up the way at u, in the device, or
      down the way at d. Nothing else is under way anywhere. */
  predicate Single(s: State, u: C.Place, d: C.Place) {
    C.Is(s.up, Request(s), u) && C.Is(s.down, Reply(Request(s)), d) && Ends(s, u, d)
  }

  /** What host and device have seen fits with the places. */
  predicate Ends(s: State, u: C.Place, d: C.Place) {
    && (u.Nowhere? || d.Nowhere?)
    && (match s.device
        case Listening => |s.served| == if u.Nowhere? then |s.asked| else |s.got|
        case Answering(r) => r == Request(s) && !IsStop(r) && Idle(s, u, d)
        case Finished => IsStop(Request(s)) && Idle(s, u, d))
    && (u.Nowhere? && d.Nowhere? && s.device.Listening? ==> |s.asked| == |s.got|)
    && (!u.Nowhere? || !d.Nowhere? ==> |s.asked| == |s.got| + 1)
    && (!d.Nowhere? ==> !IsStop(Request(s)))
  }

  /** The device has the host's last request, and nothing is on its way. */
  predicate Idle(s: State, u: C.Place, d: C.Place) {
    u.Nowhere? && d.Nowhere? && |s.served| == |s.asked| == |s.got| + 1
  }

  predicate Inv(s: State, u: C.Place, d: C.Place) {
    Histories(s) && Single(s, u, d)
  }

  lemma AskHistories(s: State, r: Image)
    requires Histories(s) && Can(s, Ask(r))
    ensures Histories(Next(s, Ask(r)))
  {
  }

  lemma AskStep(s: State, u: C.Place, d: C.Place, r: Image)
    requires Inv(s, u, d) && Can(s, Ask(r))
    ensures Inv(Next(s, Ask(r)), NextUp(s, u, Ask(r)), NextDown(s, d, Ask(r)))
    ensures u.Nowhere? && d.Nowhere?
  {
    AskHistories(s, r);
    C.Enter(s.up, Request(s), r);
    C.Rename(s.down, Reply(Request(s)), Reply(r));
    assert Request(Next(s, Ask(r))) == r;
  }

  lemma ServeStep(s: State, u: C.Place, d: C.Place)
    requires Inv(s, u, d) && Can(s, Serve)
    ensures Inv(Next(s, Serve), NextUp(s, u, Serve), NextDown(s, d, Serve))
    ensures u.AtOutput? && d.Nowhere?
  {
    C.Leave(s.up, Request(s), u);
  }

  lemma RespondEnds(s: State, u: C.Place, d: C.Place)
    requires Histories(s) && Ends(s, u, d) && Can(s, Respond)
    ensures u.Nowhere? && d.Nowhere?
    ensures var t := Next(s, Respond); Histories(t) && Ends(t, u, C.AtInput) && t.up == s.up && Request(t) == Request(s)
  {
  }

  lemma RespondStep(s: State, u: C.Place, d: C.Place)
    requires Inv(s, u, d) && Can(s, Respond)
    ensures Inv(Next(s, Respond), NextUp(s, u, Respond), NextDown(s, d, Respond))
    ensures u.Nowhere? && d.Nowhere?
  {
    RespondEnds(s, u, d);
    C.Enter(s.down, Reply(Request(s)), Reply(Request(s)));
  }

  lemma CollectEnds(s: State, u: C.Place, d: C.Place)
    requires Histories(s) && Ends(s, u, d) && d.AtOutput? && Can(s, Collect) && s.down.output == [Reply(Request(s))]
    ensures u.Nowhere?
    ensures var t := Next(s, Collect);
            Histories(t) && Ends(t, u, C.Nowhere) && t.up == s.up && Request(t) == Request(s)
  {
  }

  lemma CollectStep(s: State, u: C.Place, d: C.Place)
    requires Inv(s, u, d) && Can(s, Collect)
    ensures Inv(Next(s, Collect), NextUp(s, u, Collect), NextDown(s, d, Collect))
    ensures u.Nowhere? && d.AtOutput?
  {
    C.Leave(s.down, Reply(Request(s)), d);
    CollectEnds(s, u, d);
  }

  /** What a thread of the relay does to the two channels. */
  function UpAct(s: State, e: Event): C.Act
    requires Can(s, e) && MovesUp(e)
  {
    match e
    case SpawnReader => C.Spawn
    case Resocket => C.NewSocket
    case SpawnReplier => C.Open(s.server.sock)
    case Up(a) => a
  }

  function DownAct(s: State, e: Event): C.Act
    requires Can(s, e) && MovesDown(e)
  {
    match e
    case SpawnReader => C.Open(s.client.sock)
    case Resocket => C.NewSocket
    case SpawnReplier => C.Spawn
    case Down(a) => a
  }

  predicate MovesUp(e: Event) {
    e.SpawnReader? || e.Resocket? || e.SpawnReplier? || e.Up?
  }

  predicate MovesDown(e: Event) {
    e.SpawnReader? || e.Resocket? || e.SpawnReplier? || e.Down?
  }

  predicate ByRelay(e: Event) {
    !e.Ask? && !e.Serve? && !e.Respond? && !e.Collect?
  }

  lemma RelayEffect(s: State, e: Event)
    requires Can(s, e) && ByRelay(e)
    ensures MovesUp(e) ==> C.Can(s.up, UpAct(s, e))
    ensures MovesDown(e) ==> C.Can(s.down, DownAct(s, e))
    ensures Next(s, e).up == if MovesUp(e) then C.Next(s.up, UpAct(s, e)) else s.up
    ensures Next(s, e).down == if MovesDown(e) then C.Next(s.down, DownAct(s, e)) else s.down
    ensures SameEnds(s, Next(s, e))
  {
  }

  predicate SameEnds(s: State, t: State) {
    t.asked == s.asked && t.served == s.served && t.device == s.device && t.got == s.got
  }

  lemma EndsKept(s: State, u: C.Place, d: C.Place, t: State, v: C.Place, f: C.Place)
    requires Histories(s) && Ends(s, u, d) && SameEnds(s, t)
    requires (u.Nowhere? <==> v.Nowhere?) && (d.Nowhere? <==> f.Nowhere?)
    ensures Histories(t) && Ends(t, v, f) && Request(t) == Request(s)
  {
  }

  // ---- What each step does to the one transaction

  /** The places after e. */
  function NextUp(s: State, u: C.Place, e: Event): C.Place
    requires Can(s, e)
  {
    if e.Ask? then C.AtInput else if e.Serve? then C.Nowhere
    else if MovesUp(e) then RelayEffect(s, e); C.Goes(s.up, u, UpAct(s, e)) else u
  }

  function NextDown(s: State, d: C.Place, e: Event): C.Place
    requires Can(s, e)
  {
    if e.Respond? then C.AtInput else if e.Collect? then C.Nowhere
    else if MovesDown(e) then RelayEffect(s, e); C.Goes(s.down, d, DownAct(s, e)) else d
  }

  lemma RelayUp(s: State, u: C.Place, x: Image, e: Event)
    requires C.Is(s.up, x, u) && Can(s, e) && ByRelay(e)
    ensures C.Is(Next(s, e).up, x, NextUp(s, u, e)) && (u.Nowhere? <==> NextUp(s, u, e).Nowhere?)
  {
    RelayEffect(s, e);
    if MovesUp(e) {
      C.Step(s.up, x, u, UpAct(s, e));
    }
  }

  lemma RelayDown(s: State, d: C.Place, x: Image, e: Event)
    requires C.Is(s.down, x, d) && Can(s, e) && ByRelay(e)
    ensures C.Is(Next(s, e).down, x, NextDown(s, d, e)) && (d.Nowhere? <==> NextDown(s, d, e).Nowhere?)
  {
    RelayEffect(s, e);
    if MovesDown(e) {
      C.Step(s.down, x, d, DownAct(s, e));
    }
  }

  lemma RelayStep(s: State, u: C.Place, d: C.Place, e: Event)
    requires Inv(s, u, d) && Can(s, e) && ByRelay(e)
    ensures Inv(Next(s, e), NextUp(s, u, e), NextDown(s, d, e))
  {
    RelayEffect(s, e);
    RelayUp(s, u, Request(s), e);
    RelayDown(s, d, Reply(Request(s)), e);
    EndsKept(s, u, d, Next(s, e), NextUp(s, u, e), NextDown(s, d, e));
  }

  lemma HostStep(s: State, u: C.Place, d: C.Place, e: Event)
    requires Inv(s, u, d) && Can(s, e) && !ByRelay(e)
    ensures Inv(Next(s, e), NextUp(s, u, e), NextDown(s, d, e)) && AtAnEnd(u) && AtAnEnd(d)
  {
    match e
    case Ask(r) => AskStep(s, u, d, r);
    case Serve => ServeStep(s, u, d);
    case Respond => RespondStep(s, u, d);
    case Collect => CollectStep(s, u, d);
  }

  /** Host and device only take what has arrived and only add what is on its way. */
  predicate AtAnEnd(p: C.Place) {
    p.Nowhere? || p.AtInput? || p.AtOutput?
  }

  /** Every step of every thread keeps the one transaction single. */
  lemma Step(s: State, u: C.Place, d: C.Place, e: Event)
    requires Inv(s, u, d) && Can(s, e)
    ensures Inv(Next(s, e), NextUp(s, u, e), NextDown(s, d, e))
  {
    if ByRelay(e) {
      RelayStep(s, u, d, e);
    } else {
      HostStep(s, u, d, e);
    }
  }

  lemma {:induction false} RunInv(s: State, u: C.Place, d: C.Place, es: seq<Event>)
    returns (v: C.Place, f: C.Place)
    requires Inv(s, u, d) && Runs(s, es)
    ensures Inv(After(s, es), v, f)
    decreases |es|
  {
    v, f := u, d;
    if es != [] {
      Step(s, u, d, es[0]);
      v, f := RunInv(Next(s, es[0]), NextUp(s, u, es[0]), NextDown(s, d, es[0]), es[1..]);
    }
  }

  lemma StartInv(s: State)
    requires Start(s)
    ensures Inv(s, C.Nowhere, C.Nowhere)
  {
    C.FreshIsEmpty(s.up, Request(s));
    C.FreshIsEmpty(s.down, Reply(Request(s)));
  }

  /** At most once, over any number of connection losses and any schedule: the device sees each
      request number at most once and in the order asked, and nothing after the stop packet; the
      host gets at most one reply to each request, and it is the device's answer to that very
      request. */
  lemma AtMostOnce(s: State, es: seq<Event>)
    requires Start(s) && Runs(s, es)
    ensures var t := After(s, es);
            && t.served <= t.asked
            && (forall i, k :: 0 <= i < k < |t.served| ==> Before(t.served[i], t.served[k]))
            && |t.got| <= |t.served| && |t.asked| <= |t.got| + 1
            && (forall k :: 0 <= k < |t.got| ==> t.got[k] == Reply(t.asked[k]) && !IsStop(t.asked[k]))
  {
    StartInv(s);
    var u, d := RunInv(s, C.Nowhere, C.Nowhere, es);
    Increasing(After(s, es));
  }

  lemma Increasing(s: State)
    requires Histories(s)
    ensures forall i, k :: 0 <= i < k < |s.served| ==> Before(s.served[i], s.served[k])
  {
    forall i, k | 0 <= i < k < |s.served|
      ensures Before(s.served[i], s.served[k])
    {
      assert Before(s.asked[i], s.asked[k]);
    }
  }

  // ---- Losses

  /** The record at p is held by a worker whose own side has closed the connection. */
  predicate CutOff(ch: C.Channel, back: C.Channel, p: C.Place) {
    p.With? && C.InSend(ch, p.w) && Closed(back, ch.workers[p.w].sock)
  }

  predicate Closed(back: C.Channel, sock: int) {
    C.Socket(back, sock) && back.streams[sock].done
  }

  /** The request at u or the reply at d is lost: nobody reads the connection it is on, or
      nothing can be sent on it any more. */
  predicate Lost(s: State, u: C.Place, d: C.Place) {
    || C.Gone(u) || CutOff(s.up, s.down, u)
    || C.Gone(d) || CutOff(s.down, s.up, d)
  }

  /** Exactly the steps through which the transaction at u or d is lost. */
  predicate Loses(s: State, u: C.Place, d: C.Place, e: Event)
    requires Can(s, e)
  {
    match e
    case Up(a) =>
      || C.Loses(s.up, u, a)
      || (a.Read? && Closed(s.down, s.up.workers[a.w].sock))
      || (a.Hangup? && d.With? && C.InSend(s.down, d.w) && s.down.workers[d.w].sock == s.up.receiver.sock)
    case Down(a) =>
      || C.Loses(s.down, d, a)
      || (a.Read? && Closed(s.up, s.down.workers[a.w].sock))
      || (a.Hangup? && u.With? && C.InSend(s.up, u.w) && s.up.workers[u.w].sock == s.down.receiver.sock)
    case _ => false
  }

  /** How one channel's acts change whether its record can still be sent. */
  lemma OwnCutOff(ch: C.Channel, back: C.Channel, x: Image, p: C.Place, a: C.Act)
    requires C.Is(ch, x, p) && C.Can(ch, a)
    requires a.Send? ==> !Closed(back, ch.workers[a.w].sock)
    ensures var q, was := C.Goes(ch, p, a), C.Gone(p) || CutOff(ch, back, p);
            C.Gone(q) || CutOff(C.Next(ch, a), back, q) <==>
            was || C.Loses(ch, p, a) || (a.Read? && Closed(back, ch.workers[a.w].sock))
  {
    C.Step(ch, x, p, a);
    if a.Send? {
      C.SendStep(ch, x, p, a);
    }
  }

  /** What the other direction's acts do to it: closing is all that matters. */
  lemma OtherCutOff(ch: C.Channel, back: C.Channel, p: C.Place, a: C.Act)
    requires C.Can(back, a) && |ch.streams| == |back.streams|
    requires forall w :: 0 <= w < |ch.workers| ==> -1 <= ch.workers[w].sock < |ch.streams|
    ensures CutOff(ch, C.Next(back, a), p) <==>
            || CutOff(ch, back, p)
            || (a.Hangup? && p.With? && C.InSend(ch, p.w) && ch.workers[p.w].sock == back.receiver.sock)
  {
  }

  lemma UpLoses(s: State, u: C.Place, d: C.Place, e: Event)
    requires Inv(s, u, d) && |s.up.streams| == |s.down.streams| && Can(s, e) && e.Up?
    ensures Lost(Next(s, e), NextUp(s, u, e), NextDown(s, d, e)) <==> Lost(s, u, d) || Loses(s, u, d, e)
  {
    OwnCutOff(s.up, s.down, Request(s), u, e.up);
    OtherCutOff(s.down, s.up, d, e.up);
  }

  lemma DownLoses(s: State, u: C.Place, d: C.Place, e: Event)
    requires Inv(s, u, d) && |s.up.streams| == |s.down.streams| && Can(s, e) && e.Down?
    ensures Lost(Next(s, e), NextUp(s, u, e), NextDown(s, d, e)) <==> Lost(s, u, d) || Loses(s, u, d, e)
  {
    OwnCutOff(s.down, s.up, Reply(Request(s)), d, e.down);
    OtherCutOff(s.up, s.down, u, e.down);
  }

  /** Connecting, accepting and spawning. */
  lemma ControlLoses(s: State, u: C.Place, d: C.Place, e: Event)
    requires C.WorkersIdle(s.up, u) && C.WorkersIdle(s.down, d) && |s.up.streams| == |s.down.streams|
    requires Can(s, e) && ByRelay(e) && !e.Up? && !e.Down?
    ensures NextUp(s, u, e) == u && NextDown(s, d, e) == d
    ensures Lost(Next(s, e), u, d) <==> Lost(s, u, d)
  {
  }

  lemma HostLoses(s: State, u: C.Place, d: C.Place, e: Event)
    requires AtAnEnd(u) && AtAnEnd(d) && Can(s, e) && !ByRelay(e)
    ensures !Lost(s, u, d) && !Lost(Next(s, e), NextUp(s, u, e), NextDown(s, d, e))
  {
  }

  /** The transaction is lost after a step if and only if it was before, or the step is one of
      Loses: a bad receive of it, the failing of its own send or of another's on the same
      connection, the closing of the socket it was being sent on, or a read by a worker on whose
      connection a send has failed before or which either side has given up. */
  lemma StepLoses(s: State, u: C.Place, d: C.Place, e: Event)
    requires Inv(s, u, d) && |s.up.streams| == |s.down.streams| && Can(s, e)
    ensures Lost(Next(s, e), NextUp(s, u, e), NextDown(s, d, e)) <==> Lost(s, u, d) || Loses(s, u, d, e)
  {
    if e.Up? {
      UpLoses(s, u, d, e);
    } else if e.Down? {
      DownLoses(s, u, d, e);
    } else if ByRelay(e) {
      ControlLoses(s, u, d, e);
    } else {
      HostStep(s, u, d, e);
      HostLoses(s, u, d, e);
    }
  }

  /** The request or its reply is lost. */
  ghost predicate Abandoned(s: State) {
    exists u, d :: Inv(s, u, d) && Lost(s, u, d)
  }

  /** A transaction is in one place only, so it cannot be both lost and not lost. */
  lemma NotAlsoLost(s: State, u: C.Place, d: C.Place)
    requires Inv(s, u, d)
    ensures Abandoned(s) <==> Lost(s, u, d)
  {
    forall v, f | Inv(s, v, f) && Lost(s, v, f)
      ensures Lost(s, u, d)
    {
      if !Lost(s, u, d) && !u.Nowhere? {
        C.OnlyPlace(s.up, Request(s), u, v);
      } else if !Lost(s, u, d) && !d.Nowhere? {
        C.OnlyPlace(s.down, Reply(Request(s)), d, f);
      }
    }
  }

  lemma LostKeeps(s: State, u: C.Place, d: C.Place, e: Event)
    requires Inv(s, u, d) && Lost(s, u, d) && Can(s, e)
    ensures |s.asked| == |s.got| + 1 && Next(s, e).asked == s.asked && Next(s, e).got == s.got
  {
    if !ByRelay(e) {
      HostStep(s, u, d, e);
      HostLoses(s, u, d, e);
    }
  }

  lemma {:induction false} LostForEver(s: State, u: C.Place, d: C.Place, es: seq<Event>)
    requires Inv(s, u, d) && Lost(s, u, d) && ControlOk(s) && ReadersOk(s) && TrafficOk(s) && Runs(s, es)
    ensures After(s, es).asked == s.asked && After(s, es).got == s.got && Abandoned(After(s, es))
    ensures !After(s, es).device.Finished?
    decreases |es|
  {
    if es != [] {
      StepControl(s, es[0]);
      Step(s, u, d, es[0]);
      StepLoses(s, u, d, es[0]);
      LostKeeps(s, u, d, es[0]);
      LostForEver(Next(s, es[0]), NextUp(s, u, es[0]), NextDown(s, d, es[0]), es[1..]);
    }
  }

  lemma StartControl(s: State)
    requires Start(s)
    ensures ControlOk(s) && ReadersOk(s) && TrafficOk(s)
  {
  }

  lemma RunOk(s: State, es: seq<Event>) returns (u: C.Place, d: C.Place)
    requires Start(s) && Runs(s, es)
    ensures var t := After(s, es); Inv(t, u, d) && ControlOk(t) && ReadersOk(t) && TrafficOk(t)
  {
    StartInv(s);
    StartControl(s);
    u, d := RunInv(s, C.Nowhere, C.Nowhere, es);
    RunControl(s, es);
  }

  /** A loss is final: once the request or its reply is lost, the host waits forever, and no
      reconnect ever brings it a reply to anything; if it is the stop packet that is lost, the
      device never finishes. */
  lemma LossIsFinal(s: State, es: seq<Event>, fs: seq<Event>)
    requires Start(s) && Runs(s, es) && Runs(After(s, es), fs)
    ensures var t, z := After(s, es), After(After(s, es), fs);
            Abandoned(t) ==>
              && |t.asked| == |t.got| + 1
              && z.asked == t.asked && z.got == t.got && Abandoned(z) && !z.device.Finished?
  {
    var t := After(s, es);
    var u, d := RunOk(s, es);
    NotAlsoLost(t, u, d);
    if Lost(t, u, d) {
      LostForEver(t, u, d, fs);
    }
  }

  /** A reader blocked in its pipe read may take the request out of the pipe, whatever has become
      of its connection and its stop flag. It loses the request there and then if and only if a
      send on its connection has failed before or either side has given it up; so a reader left
      over from any earlier connection of the client always does. */
  lemma ReaderTakesRequest(s: State, es: seq<Event>, w: nat)
    requires Start(s) && Runs(s, es) && C.At(After(s, es).up, w, C.Reading) && After(s, es).up.input != []
    ensures var t := After(s, es); var sock := t.up.workers[w].sock;
            && Can(t, Up(C.Read(w)))
            && (Abandoned(Next(t, Up(C.Read(w)))) <==> !C.Carries(t.up, sock) || Closed(t.down, sock))
            && (sock < t.client.sock ==> Abandoned(Next(t, Up(C.Read(w)))))
  {
    var t := After(s, es);
    var u, d := RunOk(s, es);
    ReaderLoses(t, u, d, w);
    if t.up.workers[w].sock < t.client.sock {
      LeftOver(t, t.up.workers[w].sock);
    }
  }

  lemma ReaderLoses(s: State, u: C.Place, d: C.Place, w: nat)
    requires Inv(s, u, d) && |s.up.streams| == |s.down.streams| && Can(s, Up(C.Read(w)))
    ensures var sock := s.up.workers[w].sock;
            Abandoned(Next(s, Up(C.Read(w)))) <==> !C.Carries(s.up, sock) || Closed(s.down, sock)
  {
    var e := Up(C.Read(w));
    ReadLoses(s, u, d, w);
    Step(s, u, d, e);
    StepLoses(s, u, d, e);
    NotAlsoLost(Next(s, e), NextUp(s, u, e), NextDown(s, d, e));
  }

  lemma ReadLoses(s: State, u: C.Place, d: C.Place, w: nat)
    requires Inv(s, u, d) && Can(s, Up(C.Read(w)))
    ensures var sock := s.up.workers[w].sock;
            !Lost(s, u, d) && (Loses(s, u, d, Up(C.Read(w))) <==> !C.Carries(s.up, sock) || Closed(s.down, sock))
  {
    C.ReadStep(s.up, Request(s), u, C.Read(w));
  }

  lemma LeftOver(s: State, sock: int)
    requires ControlOk(s) && sock < s.client.sock
    ensures !C.Carries(s.up, sock) || Closed(s.down, sock)
  {
  }

  // ---- Runs without a fault

  predicate NoFault(e: Event) {
    (e.Up? ==> !C.Fault(e.up)) && (e.Down? ==> !C.Fault(e.down))
  }

  predicate Healthy(s: State) {
    && C.Healthy(s.up) && C.Healthy(s.down)
    && C.Socket(s.up, s.client.sock)
    && (s.server.pc.Accepting? || C.Socket(s.down, s.server.sock))
    && (s.server.pc.Accepting? ==> s.down.workers == []) && !s.server.pc.Leaving?
    && |s.up.streams| == |s.down.streams|
  }

  lemma UpHealthy(s: State, u: C.Place, e: Event)
    requires Healthy(s) && Can(s, e) && NoFault(e) && MovesUp(e)
    ensures C.Healthy(Next(s, e).up) && C.Can(s.up, UpAct(s, e)) && !C.Loses(s.up, u, UpAct(s, e))
  {
    C.StaysHealthy(s.up, u, UpAct(s, e));
  }

  lemma DownHealthy(s: State, d: C.Place, e: Event)
    requires Healthy(s) && Can(s, e) && NoFault(e) && MovesDown(e)
    ensures C.Healthy(Next(s, e).down) && C.Can(s.down, DownAct(s, e)) && !C.Loses(s.down, d, DownAct(s, e))
  {
    C.StaysHealthy(s.down, d, DownAct(s, e));
  }

  lemma ServerHealthy(s: State, e: Event)
    requires Healthy(s) && Can(s, e) && NoFault(e)
    ensures var t := Next(s, e);
            && C.Socket(t.up, t.client.sock) && |t.up.streams| == |t.down.streams|
            && (t.server.pc.Accepting? || C.Socket(t.down, t.server.sock))
            && (t.server.pc.Accepting? ==> t.down.workers == []) && !t.server.pc.Leaving?
  {
  }

  lemma OtherHealthy(s: State, e: Event)
    requires C.Healthy(s.up) && C.Healthy(s.down) && Can(s, e)
    ensures !MovesUp(e) ==> C.Healthy(Next(s, e).up)
    ensures !MovesDown(e) ==> C.Healthy(Next(s, e).down)
  {
  }

  lemma StepHealthy(s: State, u: C.Place, d: C.Place, e: Event)
    requires Healthy(s) && Can(s, e) && NoFault(e)
    ensures Healthy(Next(s, e)) && !Loses(s, u, d, e)
  {
    if MovesUp(e) {
      UpHealthy(s, u, e);
    }
    if MovesDown(e) {
      DownHealthy(s, d, e);
    }
    ServerHealthy(s, e);
    OtherHealthy(s, e);
  }

  lemma StaysFound(s: State, u: C.Place, d: C.Place, e: Event)
    requires Inv(s, u, d) && !Lost(s, u, d) && |s.up.streams| == |s.down.streams| && Can(s, e) && !Loses(s, u, d, e)
    ensures var v, f := NextUp(s, u, e), NextDown(s, d, e); Inv(Next(s, e), v, f) && !Lost(Next(s, e), v, f)
  {
    Step(s, u, d, e);
    StepLoses(s, u, d, e);
  }

  predicate FaultFree(es: seq<Event>) {
    es == [] || (NoFault(es[0]) && FaultFree(es[1..]))
  }

  lemma {:induction false} IsFaultFree(es: seq<Event>)
    requires forall i :: 0 <= i < |es| ==> NoFault(es[i])
    ensures FaultFree(es)
  {
    if es != [] {
      IsFaultFree(es[1..]);
    }
  }

  lemma {:induction false} RunHealthy(s: State, u: C.Place, d: C.Place, es: seq<Event>)
    returns (v: C.Place, f: C.Place)
    requires Inv(s, u, d) && !Lost(s, u, d) && Healthy(s) && Runs(s, es) && FaultFree(es)
    ensures Inv(After(s, es), v, f) && !Lost(After(s, es), v, f)
    decreases |es|
  {
    v, f := u, d;
    if es != [] {
      StepHealthy(s, u, d, es[0]);
      StaysFound(s, u, d, es[0]);
      v, f := RunHealthy(Next(s, es[0]), NextUp(s, u, es[0]), NextDown(s, d, es[0]), es[1..]);
    }
  }

  /** Only faults lose anything: as long as no send or receive has failed or come back short
      and no end has closed, the request the host waits for or its reply is on its way. */
  lemma NoLossWithoutFault(s: State, es: seq<Event>)
    requires Start(s) && Runs(s, es) && forall i :: 0 <= i < |es| ==> NoFault(es[i])
    ensures !Abandoned(After(s, es))
    ensures exists u, d :: Inv(After(s, es), u, d) && !Lost(After(s, es), u, d)
  {
    StartInv(s);
    IsFaultFree(es);
    var v, f := RunHealthy(s, C.Nowhere, C.Nowhere, es);
    NotAlsoLost(After(s, es), v, f);
  }
}
