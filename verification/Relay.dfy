/** The relay as it runs: pipes and sockets are byte strings, every thread has its program
    counter and its static buffer. One Hop is one direction; in local mode it is one thread
    copying records from pipe to pipe, in TCP mode a sending thread, a byte stream cut at
    arbitrary places, and a receiving thread. */
module Relay {
  import opened Bytes
  import opened Packets
  import opened Framing
  import opened Pipeline

  /** host_request_read_thread and cxl_rtl_to_host_reply_thread: blocked in the pipe read;
      inside CXL_Send with count bytes accepted; CXL_Send has returned 1; it has returned -1. */
  datatype Sender = Reading | Sending(count: nat) | Sent | Failed

  /** cxl_tcp_server_thread and the reply loop of cxl_relay_client_thread: blocked in CXL_Recv;
      holding a whole record; the record counted; a short or failed receive; socket closed. */
  datatype Receiver = Receiving | Received | Counted | Short | Closed

  datatype Hop =
    | Copy(input: seq<byte>, buffer: Image, loaded: bool, output: seq<byte>)
    | Tcp(input: seq<byte>, sendBuffer: Image, sender: Sender, sent: nat, broken: bool,
          wire: seq<byte>,
          recvBuffer: Image, receiver: Receiver, received: nat, output: seq<byte>)

  datatype Act =
    | Fetch                // blocking pipe read into the static buffer
    | Send(accepted: nat)  // send() accepts some bytes
    | SendNothing          // the final zero-length send() returns 0
    | SendFails            // send() returns -1, and does so ever after
    | NoteSent             // the counter, or the failure message, and back to the loop head
    | Recv(size: nat)      // recv() returns some bytes
    | RecvFails            // recv() returns 0 or -1
    | NoteReceived
    | Forward              // pipe write out of the static buffer
    | Close

  /** An act of the receiving thread in TCP mode. */
  predicate ByReceiver(a: Act) {
    a.Recv? || a.RecvFails? || a.NoteReceived? || a.Forward? || a.Close?
  }

  predicate AllByReceiver(acts: seq<Act>) {
    forall i :: 0 <= i < |acts| ==> ByReceiver(acts[i])
  }

  predicate AllBySender(acts: seq<Act>) {
    forall i :: 0 <= i < |acts| ==> !ByReceiver(acts[i])
  }

  predicate CanAct(h: Hop, a: Act) {
    if h.Copy? then
      (a.Fetch? && !h.loaded && h.input != []) || (a.Forward? && h.loaded)
    else
      match a
      case Fetch => h.sender.Reading? && h.input != []
      case Send(n) => h.sender.Sending? && !h.broken && 1 <= n <= RECORD - h.sender.count
      case SendNothing => h.sender == Sending(RECORD) && !h.broken
      case SendFails => h.sender.Sending?
      case NoteSent => h.sender.Sent? || h.sender.Failed?
      case Recv(n) => h.receiver.Receiving? && 1 <= n <= ReadSize(h.wire)
      case RecvFails => h.receiver.Receiving?
      case NoteReceived => h.receiver.Received?
      case Forward => h.receiver.Counted?
      case Close => h.receiver.Short?
  }

  function Acted(h: Hop, a: Act): Hop
    requires CanAct(h, a)
  {
    var n := ReadSize(h.input);
    if h.Copy? then
      if a.Fetch? then
        h.(buffer := Overlay(h.input[..n], h.buffer), input := h.input[n..], loaded := true)
      else
        h.(output := h.output + h.buffer, loaded := false)
    else
      match a
      case Fetch =>
        h.(sendBuffer := Overlay(h.input[..n], h.sendBuffer), input := h.input[n..], sender := Sending(0))
      case Send(n) =>
        var count := h.sender.count;
        h.(wire := h.wire + h.sendBuffer[count..count + n], sender := Sending(count + n))
      case SendNothing => h.(sender := Sent)
      case SendFails => h.(sender := Failed, broken := true)
      case NoteSent => h.(sender := Reading, sent := if h.sender.Sent? then h.sent + 1 else h.sent)
      case Recv(n) =>
        h.(recvBuffer := Overlay(h.wire[..n], h.recvBuffer), wire := h.wire[n..],
           receiver := if n == RECORD then Received else Short)
      case RecvFails => h.(receiver := Short)
      case NoteReceived => h.(receiver := Counted, received := h.received + 1)
      case Forward => h.(output := h.output + h.recvBuffer, receiver := Receiving)
      case Close => h.(receiver := Closed)
  }

  predicate HopRuns(h: Hop, acts: seq<Act>)
    decreases |acts|
  {
    acts == [] || (CanAct(h, acts[0]) && HopRuns(Acted(h, acts[0]), acts[1..]))
  }

  function HopAfter(h: Hop, acts: seq<Act>): Hop
    requires HopRuns(h, acts)
    decreases |acts|
  {
    if acts == [] then h else HopAfter(Acted(h, acts[0]), acts[1..])
  }

  lemma {:induction false} HopRunsOn(h: Hop, acts: seq<Act>, a: Act)
    requires HopRuns(h, acts) && CanAct(HopAfter(h, acts), a)
    ensures HopRuns(h, acts + [a]) && HopAfter(h, acts + [a]) == Acted(HopAfter(h, acts), a)
    decreases |acts|
  {
    if acts == [] {
      assert acts + [a] == [a];
      assert HopRuns(Acted(h, a), [a][1..]);
    } else {
      HopRunsOn(Acted(h, acts[0]), acts[1..], a);
      assert (acts + [a])[1..] == acts[1..] + [a];
    }
  }

  lemma {:induction false} HopRunsBoth(h: Hop, first: seq<Act>, second: seq<Act>)
    requires HopRuns(h, first) && HopRuns(HopAfter(h, first), second)
    ensures HopRuns(h, first + second) && HopAfter(h, first + second) == HopAfter(HopAfter(h, first), second)
    decreases |first|
  {
    if first == [] {
      assert first + second == second;
    } else {
      HopRunsBoth(Acted(h, first[0]), first[1..], second);
      assert (first + second)[1..] == first[1..] + second;
    }
  }

  lemma TwoActs(h: Hop, a: Act, b: Act)
    requires CanAct(h, a) && CanAct(Acted(h, a), b)
    ensures HopRuns(h, [a, b]) && HopAfter(h, [a, b]) == Acted(Acted(h, a), b)
  {
    assert [a, b][1..] == [b] && [b][1..] == [];
    var g := Acted(h, a);
    assert HopRuns(g, [b]) && HopAfter(g, [b]) == HopAfter(Acted(g, b), []);
  }

  // ---- What a hop has under way

  predicate Deaf(h: Hop)
    requires h.Tcp?
  {
    h.receiver.Short? || h.receiver.Closed?
  }

  /** Bytes of the current record that send() has still to accept. */
  function Unsent(h: Hop): seq<byte>
    requires h.Tcp? && (h.sender.Sending? ==> h.sender.count <= RECORD)
  {
    if h.sender.Sending? && !h.broken then h.sendBuffer[h.sender.count..] else []
  }

  /** The record the receiver holds between its recv() and its pipe write. */
  function Held(h: Hop): seq<byte>
    requires h.Tcp?
  {
    if h.receiver.Received? || h.receiver.Counted? then h.recvBuffer else []
  }

  /** Alignment: pipes hold whole records, and so do receiver, wire and sender together for
      as long as no send has failed. */
  predicate HopOk(h: Hop) {
    && Aligned(h.input) && Aligned(h.output)
    && (h.Tcp? ==>
          && (h.sender.Sending? ==> h.sender.count <= RECORD)
          && (h.broken ==> h.sender != Sent && (h.sender.Sending? ==> h.sender.count == 0))
          && (!h.broken ==> h.sender != Failed)
          && (!h.broken && !Deaf(h) ==> Aligned(h.wire + Unsent(h))))
  }

  /** The FIFO a hop implements: records are under way from the read that takes them out of
      the input pipe to the write that puts them into the output pipe. */
  function AsFifo(h: Hop): Fifo
    requires HopOk(h)
  {
    if h.Copy? then
      Fifo(Chunks(h.input), if h.loaded then [h.buffer] else [], Chunks(h.output), false)
    else
      Fifo(Chunks(h.input), if Deaf(h) then [] else Chunks(Held(h) + h.wire + Unsent(h)),
           Chunks(h.output), h.broken || Deaf(h))
  }

  function AsMove(h: Hop, a: Act): Move
    requires HopOk(h) && CanAct(h, a)
  {
    match a
    case Fetch => Take
    case Forward => Put
    case SendFails => Cut(if Deaf(h) then 0 else |Chunks(Held(h) + h.wire)|)
    case Recv(n) => if n == RECORD then Stay else Cut(0)
    case RecvFails => Cut(0)
    case _ => Stay
  }

  /** A faultless act: no failing call and no short receive. */
  predicate Faultless(a: Act) {
    !a.SendFails? && !a.RecvFails? && (a.Recv? ==> a.size == RECORD)
  }

  /** Every pipe read returns a whole record and leaves nothing of the old buffer, which is
      why the threads may ignore what the read returns. */
  lemma FetchIsWhole(h: Hop, stale: Image)
    requires HopOk(h) && CanAct(h, Fetch)
    ensures ReadSize(h.input) == RECORD
    ensures Overlay(h.input[..ReadSize(h.input)], stale) == h.input[..RECORD] == AsFifo(h).input[0]
  {
    assert h.input[..RECORD] == Overlay(h.input[..RECORD], stale);
  }

  lemma SenderKeepsOk(h: Hop, a: Act)
    requires HopOk(h) && CanAct(h, a) && h.Tcp? && !ByReceiver(a)
    ensures HopOk(Acted(h, a))
  {
    if a.Send? {
      var g, count := Acted(h, a), h.sender.count;
      assert h.sendBuffer[count..] ==
             h.sendBuffer[count..count + a.accepted] + h.sendBuffer[count + a.accepted..];
      assert g.wire + Unsent(g) == h.wire + Unsent(h);
    }
  }

  lemma ReceiverKeepsOk(h: Hop, a: Act)
    requires HopOk(h) && CanAct(h, a) && h.Tcp? && ByReceiver(a)
    ensures HopOk(Acted(h, a))
  {
  }

  lemma HopKeepsOk(h: Hop, a: Act)
    requires HopOk(h) && CanAct(h, a)
    ensures HopOk(Acted(h, a))
  {
    if h.Tcp? && ByReceiver(a) {
      ReceiverKeepsOk(h, a);
    } else if h.Tcp? {
      SenderKeepsOk(h, a);
    }
  }

  lemma FetchRefines(h: Hop)
    requires HopOk(h) && CanAct(h, Fetch)
    ensures HopOk(Acted(h, Fetch))
    ensures CanMove(AsFifo(h), Take) && AsFifo(Acted(h, Fetch)) == Moved(AsFifo(h), Take)
  {
    HopKeepsOk(h, Fetch);
    var g := Acted(h, Fetch);
    if h.Copy? {
      FetchIsWhole(h, h.buffer);
    } else {
      FetchIsWhole(h, h.sendBuffer);
      if !h.broken && !Deaf(h) {
        assert Unsent(g) == h.input[..RECORD];
        ChunksAppend(Held(h) + h.wire, h.input[..RECORD]);
        ChunksOne(h.input[..RECORD]);
        assert Held(h) + h.wire + [] == Held(h) + h.wire;
      }
    }
  }

  lemma ForwardRefines(h: Hop)
    requires HopOk(h) && CanAct(h, Forward)
    ensures HopOk(Acted(h, Forward))
    ensures CanMove(AsFifo(h), Put) && AsFifo(Acted(h, Forward)) == Moved(AsFifo(h), Put)
  {
    HopKeepsOk(h, Forward);
    var record := if h.Copy? then h.buffer else h.recvBuffer;
    ChunksAppend(h.output, record);
    ChunksOne(record);
    if h.Tcp? {
      ChunksAppend(record, h.wire + Unsent(h));
      assert record + h.wire + Unsent(h) == record + (h.wire + Unsent(h));
      assert [] + h.wire + Unsent(h) == h.wire + Unsent(h);
    }
  }

  lemma SendRefines(h: Hop, n: nat)
    requires HopOk(h) && CanAct(h, Send(n))
    ensures HopOk(Acted(h, Send(n))) && AsFifo(Acted(h, Send(n))) == AsFifo(h)
  {
    HopKeepsOk(h, Send(n));
    var g := Acted(h, Send(n));
    var count := h.sender.count;
    assert h.sendBuffer[count..] == h.sendBuffer[count..count + n] + h.sendBuffer[count + n..];
    assert Held(g) + g.wire + Unsent(g) == Held(h) + h.wire + Unsent(h);
  }

  lemma SendFailsRefines(h: Hop)
    requires HopOk(h) && CanAct(h, SendFails)
    ensures HopOk(Acted(h, SendFails))
    ensures CanMove(AsFifo(h), AsMove(h, SendFails))
    ensures AsFifo(Acted(h, SendFails)) == Moved(AsFifo(h), AsMove(h, SendFails))
  {
    HopKeepsOk(h, SendFails);
    var g := Acted(h, SendFails);
    ChunksPrefix(Held(h) + h.wire, Unsent(h));
    assert Held(g) + g.wire + Unsent(g) == Held(h) + h.wire;
  }

  lemma RecvRefines(h: Hop, n: nat)
    requires HopOk(h) && CanAct(h, Recv(n))
    ensures HopOk(Acted(h, Recv(n)))
    ensures CanMove(AsFifo(h), AsMove(h, Recv(n)))
    ensures AsFifo(Acted(h, Recv(n))) == Moved(AsFifo(h), AsMove(h, Recv(n)))
  {
    HopKeepsOk(h, Recv(n));
    var g := Acted(h, Recv(n));
    if n == RECORD {
      assert g.recvBuffer == h.wire[..RECORD];
      assert Held(g) + g.wire + Unsent(g) == Held(h) + h.wire + Unsent(h);
    }
  }

  /** TCP mode refines local mode's FIFO: in either mode every act of a hop is the FIFO's own
      step or changes nothing that the FIFO shows. */
  lemma HopRefines(h: Hop, a: Act)
    requires HopOk(h) && CanAct(h, a)
    ensures HopOk(Acted(h, a))
    ensures CanMove(AsFifo(h), AsMove(h, a)) && AsFifo(Acted(h, a)) == Moved(AsFifo(h), AsMove(h, a))
  {
    if a.Fetch? {
      FetchRefines(h);
    } else if a.Forward? {
      ForwardRefines(h);
    } else if a.Send? {
      SendRefines(h, a.accepted);
    } else if a.SendFails? {
      SendFailsRefines(h);
    } else if a.Recv? {
      RecvRefines(h, a.size);
    } else {
      HopKeepsOk(h, a);
    }
  }

  /** Only a failing call or a short receive cuts the FIFO. */
  lemma OnlyFaultsCut(h: Hop, a: Act)
    requires HopOk(h) && CanAct(h, a)
    ensures AsMove(h, a).Cut? <==> !Faultless(a)
  {
  }

  // ---- The counters of one connection

  /** Bytes of records that CXL_Send has accepted, as far as the counter does not show them. */
  function Uncounted(h: Hop): nat
    requires h.Tcp?
  {
    match h.sender
    case Sending(count) => count
    case Sent => RECORD
    case _ => 0
  }

  /** Bytes sent are bytes received plus bytes on the wire. A failed send leaves up to one
      record uncounted; a failed receive may have used up bytes for nothing. */
  predicate Tallied(h: Hop) {
    h.Tcp? ==>
      var counted := RECORD * h.sent + if h.broken then 0 else Uncounted(h);
      var used := RECORD * h.received + (if h.receiver.Received? then RECORD else 0) + |h.wire|;
      && used <= counted + (if h.broken then RECORD else 0)
      && (!Deaf(h) ==> counted <= used)
  }

  lemma ActTallied(h: Hop, a: Act)
    requires HopOk(h) && Tallied(h) && CanAct(h, a)
    ensures Tallied(Acted(h, a))
  {
  }

  /** What the counters of sender and receiver say about each other. No more is ever counted
      received than sent, but for one record, and then its send is not counted yet or failed
      after its last byte. Until a receive goes wrong nothing is counted sent that has not been
      received and is not on the wire. When sender and receiver are idle without a fault, the
      difference is exactly what lies on the wire. */
  predicate CountersOk(h: Hop)
    requires h.Tcp?
  {
    && h.received <= h.sent + 1
    && (h.received == h.sent + 1 ==> h.broken || h.sender.Sent? || h.sender == Sending(RECORD))
    && (!Deaf(h) ==> h.sent <= h.received + |Chunks(h.wire)| + if h.receiver.Received? then 1 else 0)
    && (h.sender.Reading? && h.receiver.Receiving? && !h.broken ==>
          Aligned(h.wire) && h.sent - h.received == |Chunks(h.wire)|)
  }

  lemma CountersAgree(h: Hop)
    requires h.Tcp? && HopOk(h) && Tallied(h)
    ensures CountersOk(h)
  {
  }

  // ---- A socket that recovers

  /** Why a socket on which send() has failed must go on failing: if it accepted records again
      after k bytes of x, the receiver would take a mixture of x and the next record y for a
      whole record, count it and pass it on. */
  lemma RecoveredSocketMixes(h: Hop, x: Image, y: Image, k: nat) returns (failing: seq<Act>, mixing: seq<Act>)
    requires h.Tcp? && h.sender.Reading? && h.receiver.Receiving? && !h.broken && h.wire == [] && h.input == x + y
    requires 0 < k < RECORD
    ensures HopRuns(h, failing) && HopAfter(h, failing).Tcp?
    ensures var g := HopAfter(h, failing).(broken := false);
            && HopRuns(g, mixing) && HopAfter(g, mixing).Tcp?
            && HopAfter(g, mixing).output == h.output + (x[..k] + y[..RECORD - k])
            && HopAfter(g, mixing).received == h.received + 1
  {
    var f := Acted(Acted(h, Fetch), Send(k));
    assert f.wire == x[..k] && f.input == y;
    TwoActs(h, Fetch, Send(k));
    TwoActs(f, SendFails, NoteSent);
    HopRunsBoth(h, [Fetch, Send(k)], [SendFails, NoteSent]);
    failing := [Fetch, Send(k)] + [SendFails, NoteSent];
    var g := HopAfter(h, failing).(broken := false);
    mixing := MixtureComes(g, x, y, k);
  }

  lemma MixtureComes(g: Hop, x: Image, y: Image, k: nat) returns (mixing: seq<Act>)
    requires 0 < k < RECORD
    requires g.Tcp? && g.sender.Reading? && g.receiver.Receiving? && !g.broken && g.wire == x[..k] && g.input == y
    ensures HopRuns(g, mixing)
    ensures var z := HopAfter(g, mixing);
            z.Tcp? && z.output == g.output + (x[..k] + y[..RECORD - k]) && z.received == g.received + 1
  {
    var m := Acted(Acted(g, Fetch), Send(RECORD));
    assert m.wire == x[..k] + y;
    var r := Acted(m, Recv(RECORD));
    assert r.recvBuffer == x[..k] + y[..RECORD - k];
    TwoActs(g, Fetch, Send(RECORD));
    TwoActs(m, Recv(RECORD), NoteReceived);
    HopRunsBoth(g, [Fetch, Send(RECORD)], [Recv(RECORD), NoteReceived]);
    mixing := [Fetch, Send(RECORD)] + [Recv(RECORD), NoteReceived];
    HopRunsOn(g, mixing, Forward);
    mixing := mixing + [Forward];
  }
}
