/** The thread bodies of the relay, over real pipes, sockets and static buffers. Each turn of a
    loop is proved to be the corresponding acts of the relay's state machine; each loop is run
    until the call it would block in. */
module RelayThreads {
  import opened Bytes
  import opened Packets
  import opened Framing
  import opened NamedPipe
  import opened CommLib
  import R = Relay

  /** Local mode: cxl_server_fifo_access_thread, and cxl_rtl_to_host_reply_thread without
      network, are this one thread between different pipes. */
  class Copier {
    const input: Pipe
    const output: Pipe
    const buffer: array<byte>
    var total: nat

    ghost predicate Valid() {
      buffer.Length == RECORD && input != output
    }

    ghost function AsHop(): R.Hop
      reads this, input, output, buffer
      requires Valid()
    {
      R.Copy(input.bytes, buffer[..], false, output.bytes)
    }

    constructor (input: Pipe, output: Pipe)
      requires input != output
      ensures Valid() && this.input == input && this.output == output && total == 0 && fresh(buffer)
    {
      this.input, this.output, total := input, output, 0;
      buffer := new byte[RECORD](_ => 0);
    }

    method Turn()
      requires Valid() && input.bytes != []
      modifies this`total, input, output, buffer
      ensures R.HopRuns(old(AsHop()), [R.Fetch, R.Forward])
      ensures AsHop() == R.HopAfter(old(AsHop()), [R.Fetch, R.Forward])
      ensures total == old(total) + 1
      ensures var n := ReadSize(old(input.bytes));
              && input.bytes == old(input.bytes)[n..]
              && output.bytes == old(output.bytes) + Overlay(old(input.bytes)[..n], old(buffer[..]))
    {
      ghost var h := AsHop();
      R.TwoActs(h, R.Fetch, R.Forward);
      var retval := input.Read(buffer);
      var success := output.Write(buffer, true);
      if success {
        total := total + 1;
      }
    }

    /** Until the pipe read blocks: every byte has moved on, in order, and was counted. */
    method Run()
      requires Valid() && Aligned(input.bytes)
      modifies this`total, input, output, buffer
      ensures input.bytes == [] && output.bytes == old(output.bytes) + old(input.bytes)
      ensures total == old(total) + |old(input.bytes)| / RECORD
    {
      ghost var all, done := input.bytes, 0;
      while input.bytes != []
        invariant 0 <= done <= |all| && done % RECORD == 0
        invariant input.bytes == all[done..] && output.bytes == old(output.bytes) + all[..done]
        invariant total == old(total) + done / RECORD
        decreases |input.bytes|
      {
        WholeRecord(all[done..], buffer[..]);
        Turn();
        Advance(all, done);
        done := done + RECORD;
      }
      assert all[..done] == all;
    }
  }

  lemma Advance(all: seq<byte>, done: nat)
    requires done + RECORD <= |all|
    ensures all[done..][RECORD..] == all[done + RECORD..]
    ensures all[..done] + all[done..][..RECORD] == all[..done + RECORD]
    ensures all[done..][..RECORD] == all[done..done + RECORD]
  {
    assert all[done..][..RECORD] == all[done..done + RECORD];
    assert all[..done] + all[done..done + RECORD] == all[..done + RECORD];
  }

  /** One side of a TCP connection. On the client it reads request_client_pipe and writes
      reply_client_pipe (host_request_read_thread; the reply loop of cxl_relay_client_thread);
      on the server it reads reply_server_pipe and writes request_server_pipe
      (cxl_rtl_to_host_reply_thread; the receive loop of cxl_tcp_server_thread). */
  class Endpoint {
    const input: Pipe
    const output: Pipe
    const socket: Socket
    const sendBuffer: array<byte>
    const recvBuffer: array<byte>
    var totalSent: nat
    var totalReceived: nat

    ghost predicate Valid() {
      && sendBuffer.Length == RECORD && recvBuffer.Length == RECORD
      && sendBuffer != recvBuffer && input != output
    }

    constructor (input: Pipe, output: Pipe, socket: Socket)
      requires input != output
      ensures Valid() && this.input == input && this.output == output && this.socket == socket
      ensures totalSent == 0 && totalReceived == 0 && fresh(sendBuffer) && fresh(recvBuffer)
    {
      this.input, this.output, this.socket := input, output, socket;
      totalSent, totalReceived := 0, 0;
      var b1, b2 := new byte[RECORD](_ => 0), new byte[RECORD](_ => 0);
      sendBuffer, recvBuffer := b1, b2;
    }

    /** h is a hop whose sending end is this endpoint's sending thread at its loop head. */
    ghost predicate Sends(h: R.Hop)
      reads this, input, socket, sendBuffer
      requires Valid()
    {
      && h.Tcp? && h.sender.Reading? && h.input == input.bytes && h.sendBuffer == sendBuffer[..]
      && h.broken == socket.failed && h.sent == totalSent
    }

    /** h is a hop whose receiving end is this endpoint's receiving thread at its loop head. */
    ghost predicate Receives(h: R.Hop)
      reads this, output, socket, recvBuffer
      requires Valid()
    {
      && h.Tcp? && h.receiver.Receiving? && h.wire == socket.incoming && h.recvBuffer == recvBuffer[..]
      && h.output == output.bytes && h.received == totalReceived
    }

    /** One turn of the sending thread: a record out of the pipe, CXL_Send, the counter. */
    method SendTurn(ghost h: R.Hop) returns (ghost acts: seq<R.Act>)
      requires Valid() && Sends(h) && input.bytes != []
      modifies this`totalSent, input, socket`sent, socket`failed, socket`sendCalls, sendBuffer
      ensures input.bytes == old(input.bytes)[ReadSize(old(input.bytes))..]
      ensures sendBuffer[..] == Overlay(old(input.bytes)[..ReadSize(old(input.bytes))], old(sendBuffer[..]))
      ensures var o := old(socket.Outcome());
              && o.accepted <= RECORD && socket.sent == old(socket.sent) + sendBuffer[..o.accepted]
              && socket.failed == !o.ok && (o.ok ==> o.accepted == RECORD)
              && socket.sendCalls == old(socket.sendCalls) + o.calls
              && totalSent == old(totalSent) + if o.ok then 1 else 0
      ensures R.HopRuns(h, acts) && Sends(R.HopAfter(h, acts)) && R.AllBySender(acts)
      ensures R.HopAfter(h, acts).wire == h.wire + socket.sent[|old(socket.sent)|..]
    {
      var retval := input.Read(sendBuffer);
      ghost var g := R.Acted(h, R.Fetch);
      ghost var sends: seq<R.Act>;
      var success: int;
      success, sends := socket.CxlSend(sendBuffer, g);
      R.HopRunsOn(g, sends, R.NoteSent);
      acts := [R.Fetch] + (sends + [R.NoteSent]);
      assert acts[1..] == sends + [R.NoteSent];
      if success == 1 {
        totalSent := totalSent + 1;
      }
    }

    /** The sending thread until its pipe read blocks. It does not stop when a send fails: it
        goes on taking records and losing them. The socket accepts and the counter counts what
        SendsAll says: all records up to the first failing call, and part of one more. */
    method SendThread()
      requires Valid() && Aligned(input.bytes)
      modifies this`totalSent, input, socket`sent, socket`failed, socket`sendCalls, sendBuffer
      ensures input.bytes == []
      ensures var r := SendsAll(old(socket.failed), socket.sendAnswers, old(socket.sendCalls),
                                |old(input.bytes)| / RECORD);
              && r.accepted <= |old(input.bytes)| && (!r.failed ==> r.accepted == |old(input.bytes)|)
              && socket.sent == old(socket.sent) + old(input.bytes)[..r.accepted]
              && totalSent == old(totalSent) + r.counted && socket.failed == r.failed
    {
      ghost var all, before, counted := input.bytes, socket.sent, totalSent;
      ghost var done: nat, left: nat := 0, |all| / RECORD;
      ghost var r := SendsAll(socket.failed, socket.sendAnswers, socket.sendCalls, left);
      while input.bytes != []
        invariant SendingOn(r, before, counted, all, done, left)
        decreases left
      {
        SendNext(r, before, counted, all, done, left);
        done, left := done + RECORD, left - 1;
      }
    }

    /** The sending thread's loop head: done bytes of all have been taken from the pipe, left
        records are still in it, and r is what becomes of all. */
    ghost predicate SendingOn(r: Sendings, before: seq<byte>, counted: nat, all: seq<byte>, done: nat, left: nat)
      reads this, input, socket
    {
      && done + RECORD * left == |all| && input.bytes == all[done..]
      && Part(r, before, counted, all, done, socket.failed, socket.sent, totalSent,
              SendsAll(socket.failed, socket.sendAnswers, socket.sendCalls, left))
    }

    method SendNext(ghost r: Sendings, ghost before: seq<byte>, ghost counted: nat, ghost all: seq<byte>,
                    ghost done: nat, ghost left: nat)
      requires Valid() && SendingOn(r, before, counted, all, done, left) && input.bytes != []
      modifies this`totalSent, input, socket`sent, socket`failed, socket`sendCalls, sendBuffer
      ensures left > 0 && SendingOn(r, before, counted, all, done + RECORD, left - 1)
    {
      ghost var was, sent, total, call, o := socket.failed, socket.sent, totalSent, socket.sendCalls, socket.Outcome();
      NextRecord(all, done, left);
      SendsOne(was, socket.sendAnswers, call, left);
      ghost var rest := SendsAll(was, socket.sendAnswers, call, left);
      ghost var next := SendsAll(was || !o.ok, socket.sendAnswers, call + o.calls, left - 1);
      SendOne(all[done..]);
      PartOn(r, before, counted, all, done, was, sent, total, rest, o, next);
    }

    /** A turn of the sending thread on an aligned pipe. */
    method SendOne(ghost bytes: seq<byte>)
      requires Valid() && Aligned(bytes) && bytes != [] && input.bytes == bytes
      modifies this`totalSent, input, socket`sent, socket`failed, socket`sendCalls, sendBuffer
      ensures |bytes| >= RECORD && input.bytes == bytes[RECORD..]
      ensures var o := old(socket.Outcome());
              && o.accepted <= RECORD && socket.sent == old(socket.sent) + bytes[..RECORD][..o.accepted]
              && socket.failed == !o.ok && (o.ok ==> o.accepted == RECORD)
              && socket.sendCalls == old(socket.sendCalls) + o.calls
              && totalSent == old(totalSent) + if o.ok then 1 else 0
    {
      WholeRecord(bytes, sendBuffer[..]);
      ghost var h := R.Tcp(bytes, sendBuffer[..], R.Reading, totalSent, socket.failed, [],
                           sendBuffer[..], R.Receiving, 0, []);
      ghost var acts := SendTurn(h);
    }

    /** One turn of the receiving thread, when its receive returns: a whole record is counted and
        goes into the pipe, anything less closes the connection. */
    method ReceiveTurn(ghost h: R.Hop) returns (open: bool, ghost acts: seq<R.Act>)
      requires Valid() && Receives(h) && !socket.Waits()
      modifies this`totalReceived, output, socket`incoming, socket`recvCalls, socket`closed, recvBuffer
      ensures socket.recvCalls == old(socket.recvCalls) + 1
      ensures var answer, available := socket.recvAnswers(old(socket.recvCalls)), |old(socket.incoming)|;
              && (open <==> answer >= RECORD && available >= RECORD)
              && acts == (if open then [R.Recv(RECORD), R.NoteReceived, R.Forward] else
                          [if answer < 1 then R.RecvFails else R.Recv(Received(answer, available)), R.Close])
              && socket.incoming == old(socket.incoming)[if answer < 1 then 0 else Received(answer, available)..]
      ensures open ==>
                && socket.incoming == old(socket.incoming)[RECORD..]
                && output.bytes == old(output.bytes) + old(socket.incoming)[..RECORD]
                && totalReceived == old(totalReceived) + 1 && socket.closed == old(socket.closed)
      ensures !open ==> socket.closed && output.bytes == old(output.bytes) && totalReceived == old(totalReceived)
      ensures open ==> R.HopRuns(h, acts) && Receives(R.HopAfter(h, acts))
      ensures !open ==>
                && R.HopRuns(h, acts)
                && var g := R.HopAfter(h, acts); g.Tcp? && g.receiver.Closed? && g.output == output.bytes
    {
      var ret := socket.CxlRecv(recvBuffer, h);
      ghost var a := if ret > 0 then R.Recv(ret) else R.RecvFails;
      ghost var g := R.Acted(h, a);
      if ret == RECORD {
        totalReceived := totalReceived + 1;
        var p := output.Write(recvBuffer, true);
        R.TwoActs(g, R.NoteReceived, R.Forward);
        acts := [a] + [R.NoteReceived, R.Forward];
        assert acts[1..] == [R.NoteReceived, R.Forward];
        open := true;
      } else {
        socket.Close();
        R.TwoActs(h, a, R.Close);
        acts := [a, R.Close];
        open := false;
      }
    }

    /** A turn of the receiving thread, by its effect. */
    method ReceiveOne() returns (open: bool)
      requires Valid() && !socket.Waits()
      modifies this`totalReceived, output, socket`incoming, socket`recvCalls, socket`closed, recvBuffer
      ensures socket.recvCalls == old(socket.recvCalls) + 1
      ensures open <==> socket.recvAnswers(old(socket.recvCalls)) >= RECORD && |old(socket.incoming)| >= RECORD
      ensures open ==>
                && socket.incoming == old(socket.incoming)[RECORD..]
                && output.bytes == old(output.bytes) + old(socket.incoming)[..RECORD]
                && totalReceived == old(totalReceived) + 1 && socket.closed == old(socket.closed)
      ensures !open ==> socket.closed && output.bytes == old(output.bytes) && totalReceived == old(totalReceived)
    {
      ghost var h := R.Tcp([], recvBuffer[..], R.Reading, 0, false, socket.incoming,
                           recvBuffer[..], R.Receiving, totalReceived, output.bytes);
      ghost var acts: seq<R.Act>;
      open, acts := ReceiveTurn(h);
    }

    /** The receive loop: what it forwards is all the whole records that come in a row at the front
        of the stream, never a byte of what came with a short receive. It ends with the
        connection closed, or waiting for ever because everything has been forwarded. */
    method ReceiveLoop() returns (waiting: bool)
      requires Valid() && !socket.closed
      modifies this`totalReceived, output, socket`incoming, socket`recvCalls, socket`closed, recvBuffer
      ensures var available := |old(socket.incoming)|;
              var k := WholeRecords(socket.recvAnswers, old(socket.recvCalls), available);
              && totalReceived == old(totalReceived) + k
              && output.bytes == old(output.bytes) + old(socket.incoming)[..RECORD * k]
              && (waiting <==> available == RECORD * k && socket.recvAnswers(old(socket.recvCalls) + k) >= 1)
              && (waiting ==> socket.Waits()) && socket.closed == !waiting
    {
      ghost var all, before, call, done := socket.incoming, output.bytes, socket.recvCalls, 0;
      ghost var n := WholeRecords(socket.recvAnswers, call, |all|);
      MovingFrom(all, n, before);
      while !socket.Waits()
        invariant done >= 0 && Moving(all, n, done, socket.incoming, before, output.bytes)
        invariant totalReceived == old(totalReceived) + done && socket.recvCalls == call + done
        invariant !socket.closed
        decreases |socket.incoming|
      {
        ghost var incoming, now := socket.incoming, output.bytes;
        var open := ReceiveOne();
        if !open {
          MovingEnds(all, socket.recvAnswers, call, n, done, incoming, before, now);
          return false;
        }
        MovingOn(all, socket.recvAnswers, call, n, done, incoming, before, now);
        done := done + 1;
      }
      MovingEnds(all, socket.recvAnswers, call, n, done, socket.incoming, before, output.bytes);
      waiting := true;
    }
  }

  /** Of all that arrived, done records have been moved on. */
  ghost predicate Taken(all: seq<byte>, done: nat, incoming: seq<byte>, was: seq<byte>, now: seq<byte>) {
    && RECORD * done <= |all|
    && incoming == all[RECORD * done..] && now == was + all[..RECORD * done]
  }

  /** Of the n records that come in a row, done have been moved on. */
  ghost predicate Came(all: seq<byte>, n: nat, done: nat, was: seq<byte>, now: seq<byte>) {
    done <= n && RECORD * n <= |all| && now == was + all[..RECORD * done]
  }

  /** They are all that come, and behind them recv() waits for ever, or else fails or falls short. */
  predicate Ended(all: seq<byte>, answers: Answers, call: nat, n: nat, done: nat, waiting: bool) {
    done == n && (waiting <==> |all| == RECORD * done && answers(call + done) >= 1)
  }

  /** done of the n records have been moved on, and the others still come. */
  ghost predicate Moving(all: seq<byte>, n: nat, done: nat, incoming: seq<byte>, before: seq<byte>, now: seq<byte>) {
    done <= n && RECORD * n <= |all| && Taken(all, done, incoming, before, now)
  }

  lemma MovingFrom(all: seq<byte>, n: nat, before: seq<byte>)
    requires RECORD * n <= |all|
    ensures Moving(all, n, 0, all, before, before)
  {
    assert all[0..] == all && before + all[..0] == before;
  }

  lemma MovingOn(all: seq<byte>, answers: Answers, call: nat, n: nat, done: nat,
                 incoming: seq<byte>, before: seq<byte>, now: seq<byte>)
    requires InARow(answers, call, |all|, n) && Moving(all, n, done, incoming, before, now)
    requires answers(call + done) >= RECORD && |incoming| >= RECORD
    ensures Moving(all, n, done + 1, incoming[RECORD..], before, now + incoming[..RECORD])
  {
    Advance(all, RECORD * done);
  }

  lemma MovingEnds(all: seq<byte>, answers: Answers, call: nat, n: nat, done: nat,
                   incoming: seq<byte>, before: seq<byte>, now: seq<byte>)
    requires InARow(answers, call, |all|, n) && Moving(all, n, done, incoming, before, now)
    requires answers(call + done) < RECORD || |incoming| < RECORD
    ensures Came(all, n, done, before, now)
    ensures Ended(all, answers, call, n, done, incoming == [] && answers(call + done) >= 1)
  {
  }

  lemma NextRecord(all: seq<byte>, done: nat, left: nat)
    requires done + RECORD * left == |all| && all[done..] != []
    ensures left > 0 && Aligned(all[done..]) && all[done..][RECORD..] == all[done + RECORD..]
    ensures all[done..][..RECORD] == all[done..done + RECORD]
  {
  }

  /** What becomes of sending records one after the other. */
  datatype Sendings = Sendings(failed: bool, accepted: nat, counted: nat)

  function SendsAll(failed: bool, answers: Answers, call: nat, records: nat): Sendings
    decreases records
  {
    if failed || records == 0 then Sendings(failed, 0, 0)
    else
      var o := Sends(answers, call, RECORD);
      var rest := SendsAll(!o.ok, answers, call + o.calls, records - 1);
      Sendings(rest.failed, o.accepted + rest.accepted, (if o.ok then 1 else 0) + rest.counted)
  }

  /** Nothing is accepted after the first failure, and what is counted is whole. */
  lemma {:induction false} SendsAllWhole(failed: bool, answers: Answers, call: nat, records: nat)
    ensures var r := SendsAll(failed, answers, call, records);
            && r.counted <= records && RECORD * r.counted <= r.accepted <= RECORD * records
            && r.accepted <= RECORD * r.counted + RECORD
            && (!r.failed ==> !failed && r.counted == records && r.accepted == RECORD * records)
            && (failed ==> r == Sendings(true, 0, 0))
    decreases records
  {
    if !failed && records > 0 {
      SendsUntilNothing(answers, call, RECORD);
      var o := Sends(answers, call, RECORD);
      SendsAllWhole(!o.ok, answers, call + o.calls, records - 1);
    }
  }

  lemma SendsOne(failed: bool, answers: Answers, call: nat, records: nat)
    requires records > 0
    ensures var o := if failed then Sending(false, 0, 1) else Sends(answers, call, RECORD);
            var r := SendsAll(failed || !o.ok, answers, call + o.calls, records - 1);
            SendsAll(failed, answers, call, records) ==
            Sendings(r.failed, o.accepted + r.accepted, (if o.ok then 1 else 0) + r.counted)
  {
  }

  /** In the middle of SendThread: done bytes taken from the pipe; rest is what becomes of the
      others, r of all. */
  predicate Part(r: Sendings, before: seq<byte>, counted: nat, all: seq<byte>, done: nat,
                 failed: bool, sent: seq<byte>, total: nat, rest: Sendings) {
    && r.accepted >= rest.accepted && r.counted >= rest.counted && r.failed == rest.failed
    && r.accepted - rest.accepted <= done <= |all| && (!failed ==> r.accepted - rest.accepted == done)
    && (failed ==> rest == Sendings(true, 0, 0))
    && sent == before + all[..r.accepted - rest.accepted] && total == counted + (r.counted - rest.counted)
  }

  lemma PartOn(r: Sendings, before: seq<byte>, counted: nat, all: seq<byte>, done: nat, failed: bool,
               sent: seq<byte>, total: nat, rest: Sendings, o: Sending, next: Sendings)
    requires Part(r, before, counted, all, done, failed, sent, total, rest)
    requires done + RECORD <= |all| && o.accepted <= RECORD && (o.ok ==> o.accepted == RECORD)
    requires failed ==> !o.ok && o.accepted == 0
    requires rest == Sendings(next.failed, o.accepted + next.accepted, (if o.ok then 1 else 0) + next.counted)
    requires !o.ok ==> next == Sendings(true, 0, 0)
    ensures Part(r, before, counted, all, done + RECORD, failed || !o.ok,
                 sent + all[done..done + RECORD][..o.accepted], total + if o.ok then 1 else 0, next)
  {
    var k := r.accepted - rest.accepted;
    if o.accepted > 0 {
      assert all[done..done + RECORD][..o.accepted] == all[done..done + o.accepted];
      assert all[..k] + all[k..k + o.accepted] == all[..k + o.accepted];
    } else {
      assert all[done..done + RECORD][..0] == [];
    }
  }
}
