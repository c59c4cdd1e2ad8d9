/** One direction of TCP mode over any number of connections. Worker threads (the readers on
    the client side, the repliers on the server side) are spawned one per connection, are
    never joined, and all share one static buffer; each remembers the socket it was started
    with. One receiver thread reads one connection after the other. */
module Channel {
  import opened Bytes
  import opened Packets

  /** A worker's program counter: not yet started; at the loop head, where it looks at its stop
      flag; blocked in the pipe read; in CXL_Send after count accepted bytes; returned. */
  datatype WorkerPc = Starting | Checking | Reading | Sending(count: nat) | Exited

  /** sock is -1 before the worker has read its parameter, and if it found -1 there. */
  datatype Worker = Worker(sock: int, pc: WorkerPc)

  /** One direction of one connection. done: its receiving end will never read again; failed: a
      send on it has failed while it was connected, and every later one does. */
  datatype Stream = Stream(bytes: seq<byte>, done: bool, failed: bool)

  datatype Receiver = Off | On(sock: nat) | Full(sock: nat) | Bad(sock: nat)

  datatype Channel = Channel(input: seq<Image>, workers: seq<Worker>, sendBuffer: Image,
                             streams: seq<Stream>,
                             receiver: Receiver, recvBuffer: Image, output: seq<Image>)

  datatype Act =
    | Spawn | Begin(w: nat, socket: int) | Proceed(w: nat) | Quit(w: nat)
    | Read(w: nat) | Send(w: nat, accepted: nat) | SendDone(w: nat)
    | SendFails(w: nat, connected: bool)  // send() returns -1, on a connected socket or another
    | NewSocket | Open(sock: nat) | Recv(size: nat) | RecvFails | Deliver | Hangup

  predicate At(ch: Channel, w: nat, pc: WorkerPc) {
    w < |ch.workers| && ch.workers[w].pc == pc
  }

  predicate InSend(ch: Channel, w: nat) {
    w < |ch.workers| && ch.workers[w].pc.Sending?
  }

  predicate Socket(ch: Channel, sock: int) {
    0 <= sock < |ch.streams|
  }

  /** A send on sock may succeed, as far as the sends before it go. */
  predicate Working(ch: Channel, sock: int) {
    Socket(ch, sock) && !ch.streams[sock].failed
  }

  predicate Can(ch: Channel, a: Act) {
    match a
    case Spawn => true
    case Begin(w, socket) => At(ch, w, Starting) && (socket == -1 || Socket(ch, socket))
    case Proceed(w) => At(ch, w, Checking)
    case Quit(w) => At(ch, w, Checking)
    case Read(w) => At(ch, w, Reading) && ch.input != []
    case Send(w, n) =>
      InSend(ch, w) && Working(ch, ch.workers[w].sock) && 1 <= n <= RECORD - ch.workers[w].pc.count
    case SendDone(w) => At(ch, w, Sending(RECORD)) && Working(ch, ch.workers[w].sock)
    case SendFails(w, connected) => InSend(ch, w) && (connected ==> Socket(ch, ch.workers[w].sock))
    case NewSocket => true
    case Open(sock) => ch.receiver.Off? && Socket(ch, sock) && !ch.streams[sock].done
    case Recv(n) =>
      ch.receiver.On? && Socket(ch, ch.receiver.sock) && 1 <= n <= |ch.streams[ch.receiver.sock].bytes| && n <= RECORD
    case RecvFails => ch.receiver.On?
    case Deliver => ch.receiver.Full?
    case Hangup => ch.receiver.Bad? && Socket(ch, ch.receiver.sock)
  }

  function Go(ch: Channel, w: nat, pc: WorkerPc): Channel
    requires w < |ch.workers|
  {
    ch.(workers := ch.workers[w := ch.workers[w].(pc := pc)])
  }

  function Rewire(ch: Channel, sock: nat, s: Stream): Channel
    requires sock < |ch.streams|
  {
    ch.(streams := ch.streams[sock := s])
  }

  function Next(ch: Channel, a: Act): Channel
    requires Can(ch, a)
  {
    match a
    case Spawn => ch.(workers := ch.workers + [Worker(-1, Starting)])
    case Begin(w, socket) => ch.(workers := ch.workers[w := Worker(socket, Checking)])
    case Proceed(w) => Go(ch, w, Reading)
    case Quit(w) => Go(ch, w, Exited)
    case Read(w) => Go(ch, w, Sending(0)).(sendBuffer := ch.input[0], input := ch.input[1..])
    case Send(w, n) =>
      var sock, count := ch.workers[w].sock, ch.workers[w].pc.count;
      var s := ch.streams[sock];
      Rewire(Go(ch, w, Sending(count + n)), sock, s.(bytes := s.bytes + ch.sendBuffer[count..count + n]))
    case SendDone(w) => Go(ch, w, Checking)
    case SendFails(w, connected) =>
      var sock := ch.workers[w].sock;
      if connected then Rewire(Go(ch, w, Checking), sock, ch.streams[sock].(failed := true)) else Go(ch, w, Checking)
    case NewSocket => ch.(streams := ch.streams + [Stream([], false, false)])
    case Open(sock) => ch.(receiver := On(sock))
    case Recv(n) =>
      var sock := ch.receiver.sock;
      var s := ch.streams[sock];
      Rewire(ch, sock, s.(bytes := s.bytes[n..])).(
        recvBuffer := s.bytes[..n] + ch.recvBuffer[n..],
        receiver := if n == RECORD then Full(sock) else Bad(sock))
    case RecvFails => ch.(receiver := Bad(ch.receiver.sock))
    case Deliver => ch.(output := ch.output + [ch.recvBuffer], receiver := On(ch.receiver.sock))
    case Hangup =>
      var sock := ch.receiver.sock;
      Rewire(ch, sock, ch.streams[sock].(done := true)).(receiver := Off)
  }

  // ---- Where the one record is

  /** The place of the one record under way: nowhere, in the input pipe, with worker w in the
      middle of CXL_Send, complete on a stream that will still be read, in the receiver's
      buffer, in the output pipe; or lost for good, with worker w perhaps still sending what
      nobody will read, or with no worker. */
  datatype Place = Nowhere | AtInput | With(w: nat) | OnWire(sock: nat) | AtReceiver | AtOutput
                 | Doomed(w: nat) | Lost

  /** What has been sent on sock can still arrive: its receiving end is open, and the receiver has not
      had the bad receive after which all it does is close. */
  predicate StillRead(ch: Channel, sock: int) {
    Socket(ch, sock) && !ch.streams[sock].done && ch.receiver != Bad(sock)
  }

  /** What is sent on sock from now on can still arrive. */
  predicate Carries(ch: Channel, sock: int) {
    StillRead(ch, sock) && Working(ch, sock)
  }

  predicate Is(ch: Channel, x: Image, p: Place) {
    && (ch.input == if p.AtInput? then [x] else [])
    && (ch.output == if p.AtOutput? then [x] else [])
    && (ch.receiver.Full? <==> p.AtReceiver?)
    && (p.AtReceiver? ==> ch.recvBuffer == x)
    && (ch.receiver.Off? || (Socket(ch, ch.receiver.sock) && !ch.streams[ch.receiver.sock].done))
    && WorkersIdle(ch, p)
    && (p.With? || p.Doomed? ==> InSend(ch, p.w) && ch.workers[p.w].pc.count < RECORD)
    && (p.With? ==> ch.sendBuffer == x && Carries(ch, ch.workers[p.w].sock))
    && (p.OnWire? ==> StillRead(ch, p.sock))
    && forall c :: 0 <= c < |ch.streams| ==> StreamIs(ch, x, p, c)
  }

  /** Nobody but the worker that has the record is in the middle of a send. */
  predicate WorkersIdle(ch: Channel, p: Place) {
    forall w :: 0 <= w < |ch.workers| ==>
      && -1 <= ch.workers[w].sock < |ch.streams|
      && (ch.workers[w].pc.Sending? ==>
            && ch.workers[w].pc.count <= RECORD
            && (ch.workers[w].pc.count < RECORD ==> p == With(w) || p == Doomed(w)))
  }

  predicate StreamIs(ch: Channel, x: Image, p: Place, c: nat)
    requires c < |ch.streams|
  {
    var s := ch.streams[c];
    match p
    case With(w) =>
      w < |ch.workers| && ch.workers[w].pc.Sending? && ch.workers[w].pc.count <= RECORD
      && s.bytes == (if ch.workers[w].sock == c then x[..ch.workers[w].pc.count] else [])
    case OnWire(sock) => s.bytes == if sock == c then x else []
    case Doomed(w) =>
      w < |ch.workers| && ch.workers[w].pc.Sending? && ch.workers[w].pc.count <= RECORD
      && (StillRead(ch, c) ==>
            |s.bytes| + (if ch.workers[w].sock == c && !s.failed then RECORD - ch.workers[w].pc.count else 0) < RECORD)
    case Lost => StillRead(ch, c) ==> |s.bytes| < RECORD
    case _ => s.bytes == []
  }

  // ---- How it moves

  /** The record is on its way to the receiver, over the connection that is being read. */
  predicate Coming(ch: Channel, p: Place) {
    && !ch.receiver.Off?
    && (p == OnWire(ch.receiver.sock) || (p.With? && InSend(ch, p.w) && ch.workers[p.w].sock == ch.receiver.sock))
  }

  /** The record is with a worker that sends on the same socket as w. */
  predicate Beside(ch: Channel, p: Place, w: nat)
    requires w < |ch.workers|
  {
    p.With? && InSend(ch, p.w) && ch.workers[p.w].sock == ch.workers[w].sock
  }

  /** Its place once the connection being read has had a bad receive. */
  function Severed(ch: Channel, p: Place): Place {
    if !Coming(ch, p) then p else if p.With? then Doomed(p.w) else Lost
  }

  /** The place after a. */
  function Goes(ch: Channel, p: Place, a: Act): Place
    requires Can(ch, a)
  {
    match a
    case Read(w) => if Carries(ch, ch.workers[w].sock) then With(w) else Doomed(w)
    case Send(w, n) =>
      if ch.workers[w].pc.count + n < RECORD then p else if p.With? then OnWire(ch.workers[w].sock) else Lost
    case SendFails(w, connected) =>
      if p == With(w) || p == Doomed(w) then Lost
      else if connected && Beside(ch, p, w) then Doomed(p.w)
      else p
    case Recv(n) => if n == RECORD then AtReceiver else Severed(ch, p)
    case RecvFails => Severed(ch, p)
    case Deliver => AtOutput
    case _ => p
  }

  predicate Gone(p: Place) {
    p.Doomed? || p.Lost?
  }

  /** Exactly the acts through which a record at p is lost: a read by a worker whose connection
      is not read any more or has failed, the failing of its own send or of another's on the
      same connection, a short or failing receive of it. */
  predicate Loses(ch: Channel, p: Place, a: Act)
    requires Can(ch, a)
  {
    match a
    case Read(w) => !Carries(ch, ch.workers[w].sock)
    case SendFails(w, connected) => p == With(w) || (connected && Beside(ch, p, w))
    case Recv(n) => n < RECORD && Coming(ch, p)
    case RecvFails => Coming(ch, p)
    case _ => false
  }

  /** The order in which a record passes through the places. */
  function Rank(p: Place): nat {
    match p
    case Nowhere => 0
    case AtInput => 1
    case With(_) => 2
    case OnWire(_) => 3
    case AtReceiver => 4
    case AtOutput => 5
    case Doomed(_) => 6
    case Lost => 7
  }

  /** Steps of workers through which nothing moves. */
  lemma BeginStep(ch: Channel, x: Image, p: Place, a: Act)
    requires Is(ch, x, p) && Can(ch, a) && a.Begin?
    ensures Is(Next(ch, a), x, p)
  {
    var dh := Next(ch, a);
    forall c | 0 <= c < |dh.streams|
      ensures StreamIs(dh, x, p, c)
    {
      assert StreamIs(ch, x, p, c);
    }
  }

  lemma QuietStep(ch: Channel, x: Image, p: Place, a: Act)
    requires Is(ch, x, p) && Can(ch, a) && (a.Proceed? || a.Quit?)
    ensures Is(Next(ch, a), x, p)
  {
    var dh := Next(ch, a);
    forall c | 0 <= c < |dh.streams|
      ensures StreamIs(dh, x, p, c)
    {
      assert StreamIs(ch, x, p, c);
    }
  }

  lemma SendDoneStep(ch: Channel, x: Image, p: Place, a: Act)
    requires Is(ch, x, p) && Can(ch, a) && a.SendDone?
    ensures Is(Next(ch, a), x, p)
  {
    var dh := Next(ch, a);
    forall c | 0 <= c < |dh.streams|
      ensures StreamIs(dh, x, p, c)
    {
      assert StreamIs(ch, x, p, c);
    }
  }

  lemma OpenStep(ch: Channel, x: Image, p: Place, a: Act)
    requires Is(ch, x, p) && Can(ch, a) && a.Open?
    ensures Is(Next(ch, a), x, p)
  {
    var dh := Next(ch, a);
    forall c | 0 <= c < |dh.streams|
      ensures StreamIs(dh, x, p, c)
    {
      assert StreamIs(ch, x, p, c);
    }
  }

  lemma GrowStep(ch: Channel, x: Image, p: Place, a: Act)
    requires Is(ch, x, p) && Can(ch, a) && (a.Spawn? || a.NewSocket?)
    ensures Is(Next(ch, a), x, p)
  {
    var dh := Next(ch, a);
    forall c | 0 <= c < |dh.streams|
      ensures StreamIs(dh, x, p, c)
    {
      if c < |ch.streams| {
        assert StreamIs(ch, x, p, c);
      }
    }
  }

  /** Reading the pipe hands the record to the worker. */
  lemma ReadStep(ch: Channel, x: Image, p: Place, a: Act)
    requires Is(ch, x, p) && Can(ch, a) && a.Read?
    ensures p.AtInput? && Is(Next(ch, a), x, Goes(ch, p, a))
  {
    var dh, q := Next(ch, a), Goes(ch, p, a);
    forall c | 0 <= c < |dh.streams|
      ensures StreamIs(dh, x, q, c)
    {
      assert StreamIs(ch, x, p, c);
    }
  }

  lemma SendStep(ch: Channel, x: Image, p: Place, a: Act)
    requires Is(ch, x, p) && Can(ch, a) && a.Send?
    ensures p == With(a.w) || p == Doomed(a.w)
    ensures Is(Next(ch, a), x, Goes(ch, p, a))
  {
    if ch.workers[a.w].pc.count + a.accepted < RECORD {
      SendPart(ch, x, p, a);
    } else {
      SendRest(ch, x, p, a);
    }
  }

  lemma SendPart(ch: Channel, x: Image, p: Place, a: Act)
    requires Is(ch, x, p) && Can(ch, a) && a.Send? && ch.workers[a.w].pc.count + a.accepted < RECORD
    ensures Is(Next(ch, a), x, p)
  {
    var dh, count := Next(ch, a), ch.workers[a.w].pc.count;
    assert x[..count] + x[count..count + a.accepted] == x[..count + a.accepted];
    forall c | 0 <= c < |dh.streams|
      ensures StreamIs(dh, x, p, c)
    {
      assert StreamIs(ch, x, p, c);
    }
  }

  lemma SendRest(ch: Channel, x: Image, p: Place, a: Act)
    requires Is(ch, x, p) && Can(ch, a) && a.Send? && ch.workers[a.w].pc.count + a.accepted == RECORD
    ensures Is(Next(ch, a), x, Goes(ch, p, a))
  {
    var dh, q, count := Next(ch, a), Goes(ch, p, a), ch.workers[a.w].pc.count;
    assert x[..count] + x[count..RECORD] == x;
    forall c | 0 <= c < |dh.streams|
      ensures StreamIs(dh, x, q, c)
    {
      assert StreamIs(ch, x, p, c);
    }
  }

  /** A failing send loses the record that it sends, unless its last byte had been accepted
      before; it loses the record that another worker sends on the same connection; and it
      leaves a connection on which nothing can be sent any more. */
  lemma SendFailsStep(ch: Channel, x: Image, p: Place, a: Act)
    requires Is(ch, x, p) && Can(ch, a) && a.SendFails?
    ensures Is(Next(ch, a), x, Goes(ch, p, a))
    ensures a.connected ==> !Working(Next(ch, a), ch.workers[a.w].sock)
    ensures Gone(Goes(ch, p, a)) && !Gone(p) <==>
            || (p == With(a.w) && ch.workers[a.w].pc.count < RECORD)
            || (p != With(a.w) && a.connected && Beside(ch, p, a.w))
  {
    var dh, q := Next(ch, a), Goes(ch, p, a);
    forall c | 0 <= c < |dh.streams|
      ensures StreamIs(dh, x, q, c)
    {
      assert StreamIs(ch, x, p, c);
    }
  }

  /** A receive gets the whole record, or what it got a part of is lost. */
  lemma RecvStep(ch: Channel, x: Image, p: Place, a: Act)
    requires Is(ch, x, p) && Can(ch, a) && a.Recv?
    ensures Is(Next(ch, a), x, Goes(ch, p, a))
    ensures a.size == RECORD ==> p == OnWire(ch.receiver.sock)
    ensures a.size < RECORD ==> Coming(ch, p) || Gone(p)
  {
    var dh, q := Next(ch, a), Goes(ch, p, a);
    assert StreamIs(ch, x, p, ch.receiver.sock);
    if a.size == RECORD {
      assert dh.recvBuffer == x;
    }
    forall c | 0 <= c < |dh.streams|
      ensures StreamIs(dh, x, q, c)
    {
      assert StreamIs(ch, x, p, c);
    }
  }

  lemma RecvFailsStep(ch: Channel, x: Image, p: Place, a: Act)
    requires Is(ch, x, p) && Can(ch, a) && a.RecvFails?
    ensures Is(Next(ch, a), x, Goes(ch, p, a))
  {
    var dh, q := Next(ch, a), Goes(ch, p, a);
    forall c | 0 <= c < |dh.streams|
      ensures StreamIs(dh, x, q, c)
    {
      assert StreamIs(ch, x, p, c);
    }
  }

  /** Closing loses nothing any more: the bad receive before it has. */
  lemma HangupStep(ch: Channel, x: Image, p: Place, a: Act)
    requires Is(ch, x, p) && Can(ch, a) && a.Hangup?
    ensures Is(Next(ch, a), x, p) && !Coming(ch, p)
  {
    var dh := Next(ch, a);
    forall c | 0 <= c < |dh.streams|
      ensures StreamIs(dh, x, p, c)
    {
      assert StreamIs(ch, x, p, c);
    }
  }

  lemma DeliverStep(ch: Channel, x: Image, p: Place, a: Act)
    requires Is(ch, x, p) && Can(ch, a) && a.Deliver?
    ensures p.AtReceiver? && Is(Next(ch, a), x, AtOutput)
  {
    var dh := Next(ch, a);
    forall c | 0 <= c < |dh.streams|
      ensures StreamIs(dh, x, AtOutput, c)
    {
      assert StreamIs(ch, x, p, c);
    }
  }

  lemma StaysSomewhere(ch: Channel, x: Image, p: Place, a: Act)
    requires Is(ch, x, p) && Can(ch, a)
    ensures Is(Next(ch, a), x, Goes(ch, p, a))
  {
    if a.Read? {
      ReadStep(ch, x, p, a);
    } else if a.Send? {
      SendStep(ch, x, p, a);
    } else if a.SendFails? {
      SendFailsStep(ch, x, p, a);
    } else if a.Recv? {
      RecvStep(ch, x, p, a);
    } else if a.RecvFails? {
      RecvFailsStep(ch, x, p, a);
    } else if a.Hangup? {
      HangupStep(ch, x, p, a);
    } else if a.Deliver? {
      DeliverStep(ch, x, p, a);
    } else if a.Open? {
      OpenStep(ch, x, p, a);
    } else if a.Spawn? || a.NewSocket? {
      GrowStep(ch, x, p, a);
    } else if a.Begin? {
      BeginStep(ch, x, p, a);
    } else if a.SendDone? {
      SendDoneStep(ch, x, p, a);
    } else {
      QuietStep(ch, x, p, a);
    }
  }

  lemma GoesForward(ch: Channel, x: Image, p: Place, a: Act)
    requires Is(ch, x, p) && Can(ch, a)
    ensures var q := Goes(ch, p, a);
            && Rank(p) <= Rank(q) && (Rank(p) == Rank(q) ==> p == q)
            && (p.Nowhere? <==> q.Nowhere?) && (p.AtOutput? ==> q.AtOutput?)
            && (Gone(q) <==> Gone(p) || Loses(ch, p, a))
  {
    if a.Send? {
      SendStep(ch, x, p, a);
    } else if a.Recv? {
      RecvStep(ch, x, p, a);
    }
  }

  /** However many connections, workers and leftovers there are: the record stays in one place,
      it moves forward only, a lost one never reappears, and exactly the acts of Loses lose it. */
  lemma Step(ch: Channel, x: Image, p: Place, a: Act)
    requires Is(ch, x, p) && Can(ch, a)
    ensures var q := Goes(ch, p, a);
            && Is(Next(ch, a), x, q)
            && Rank(p) <= Rank(q) && (Rank(p) == Rank(q) ==> p == q)
            && (p.Nowhere? <==> q.Nowhere?) && (p.AtOutput? ==> q.AtOutput?)
            && (Gone(q) <==> Gone(p) || Loses(ch, p, a))
  {
    StaysSomewhere(ch, x, p, a);
    GoesForward(ch, x, p, a);
  }

  /** The pipes at either end: a record comes in, a record goes out. */
  lemma Enter(ch: Channel, stale: Image, x: Image)
    requires Is(ch, stale, Nowhere)
    ensures Is(ch.(input := ch.input + [x]), x, AtInput)
  {
    var dh := ch.(input := ch.input + [x]);
    forall c | 0 <= c < |dh.streams|
      ensures StreamIs(dh, x, AtInput, c)
    {
      assert StreamIs(ch, stale, Nowhere, c);
    }
  }

  lemma Leave(ch: Channel, x: Image, p: Place)
    requires Is(ch, x, p) && ch.output != []
    ensures p.AtOutput? && ch.output == [x] && Is(ch.(output := ch.output[1..]), x, Nowhere)
  {
    var dh := ch.(output := ch.output[1..]);
    forall c | 0 <= c < |dh.streams|
      ensures StreamIs(dh, x, Nowhere, c)
    {
      assert StreamIs(ch, x, p, c);
    }
  }

  /** With nothing under way it does not matter what it would be. */
  lemma Rename(ch: Channel, stale: Image, x: Image)
    requires Is(ch, stale, Nowhere)
    ensures Is(ch, x, Nowhere)
  {
    forall c | 0 <= c < |ch.streams|
      ensures StreamIs(ch, x, Nowhere, c)
    {
      assert StreamIs(ch, stale, Nowhere, c);
    }
  }

  lemma FreshIsEmpty(ch: Channel, x: Image)
    requires ch.input == [] && ch.output == [] && ch.workers == [] && ch.receiver.Off?
    requires ch.streams == [Stream([], false, false)]
    ensures Is(ch, x, Nowhere)
  {
  }

  /** A record that is somewhere is nowhere else, and not lost. */
  lemma OnlyPlace(ch: Channel, x: Image, p: Place, q: Place)
    requires Is(ch, x, p) && !Gone(p) && !p.Nowhere? && Is(ch, x, q)
    ensures p == q
  {
    if p.With? {
      assert StreamIs(ch, x, p, ch.workers[p.w].sock) && StreamIs(ch, x, q, ch.workers[p.w].sock);
    } else if p.OnWire? {
      assert StreamIs(ch, x, p, p.sock) && StreamIs(ch, x, q, p.sock);
    }
  }

  // ---- While nothing goes wrong

  /** No connection has failed, been closed or is about to be, and every worker that has started has
      one. */
  predicate Healthy(ch: Channel) {
    && (forall c :: 0 <= c < |ch.streams| ==> !ch.streams[c].done && !ch.streams[c].failed)
    && (forall w :: 0 <= w < |ch.workers| ==> ch.workers[w].pc.Starting? || Socket(ch, ch.workers[w].sock))
    && !ch.receiver.Bad?
  }

  /** A failing or short call, or a closed end. */
  predicate Fault(a: Act) {
    a.SendFails? || a.RecvFails? || a.Hangup? || (a.Recv? && a.size < RECORD)
  }

  lemma StaysHealthy(ch: Channel, p: Place, a: Act)
    requires Healthy(ch) && Can(ch, a) && !Fault(a) && (a.Begin? ==> Socket(ch, a.socket))
    ensures Healthy(Next(ch, a)) && !Loses(ch, p, a)
  {
  }
}
