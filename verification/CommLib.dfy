/** CXL_Send and CXL_Recv (cxl_relay/cxlcommlib.c) over a socket that accepts and returns as
    many bytes as it likes, and that, once it has failed, goes on failing. What the kernel will
    answer is given, call by call; the results are exact in terms of these answers. Each function
    is also proved to do nothing but steps that the relay's state machine has. */
module CommLib {
  import opened Bytes
  import opened Packets
  import opened Framing
  import R = Relay

  /** The kernel's answer to the k-th call of send() or recv() on a socket: up to so many bytes; if
      less than one, the call fails, or finds the end of the stream. */
  type Answers = nat -> int

  function Min(a: int, b: int): int {
    if a < b then a else b
  }

  /** What becomes of sending left bytes from this call of send() on: whether all calls succeed,
      the last one with nothing left to send; how many bytes are accepted, in how many calls. */
  datatype Sending = Sending(ok: bool, accepted: nat, calls: nat)

  function Sends(answers: Answers, call: nat, left: nat): Sending
    decreases left
  {
    if answers(call) < 1 then Sending(false, 0, 1)
    else if left == 0 then Sending(true, 0, 1)
    else
      var n := Min(answers(call), left);
      After(n, 1, Sends(answers, call + 1, left - n))
  }

  function After(accepted: nat, calls: nat, rest: Sending): Sending {
    Sending(rest.ok, accepted + rest.accepted, calls + rest.calls)
  }

  /** Every call from the one up to the other is answered by so much at least. */
  ghost predicate AtLeast(answers: Answers, from: nat, to: int, m: int) {
    forall k: nat :: from <= k < to ==> answers(k) >= m
  }

  /** Bytes offered to be taken in n calls. */
  function Offered(answers: Answers, call: nat, n: nat): int
    decreases n
  {
    if n == 0 then 0 else answers(call) + Offered(answers, call + 1, n - 1)
  }

  lemma {:induction false} OfferedPositive(answers: Answers, call: nat, n: nat)
    requires AtLeast(answers, call, call + n, 1)
    ensures Offered(answers, call, n) >= n
    decreases n
  {
    if n > 0 {
      OfferedPositive(answers, call + 1, n - 1);
    }
  }

  /** Sending calls send() until a call fails or there was nothing left to send: it goes well if
      and only if enough calls in a row succeed, one more than it takes to get rid of all bytes. */
  lemma {:induction false} SendsUntilNothing(answers: Answers, call: nat, left: nat)
    ensures var o := Sends(answers, call, left);
            && o.calls >= 1 && AtLeast(answers, call, call + o.calls - 1, 1)
            && (o.ok <==> answers(call + o.calls - 1) >= 1)
            && o.accepted == Min(left, Offered(answers, call, o.calls - 1))
            && (o.ok ==> o.accepted == left)
            && (o.calls >= 2 ==> Offered(answers, call, o.calls - 2) < left)
    decreases left
  {
    if answers(call) >= 1 && left > 0 {
      var n := Min(answers(call), left);
      SendsUntilNothing(answers, call + 1, left - n);
      var r := Sends(answers, call + 1, left - n);
      OfferedPositive(answers, call + 1, r.calls - 1);
      assert r.calls >= 2 ==> n == answers(call);
    }
  }

  /** What a call of recv() for a whole record returns when it does not wait. */
  function Received(answer: int, available: nat): int {
    if answer < 0 then -1 else if answer == 0 then 0 else Min(Min(answer, available), RECORD)
  }

  /** So many whole records come in a row, and not one more. */
  ghost predicate InARow(answers: Answers, call: nat, available: nat, k: nat) {
    && RECORD * k <= available && AtLeast(answers, call, call + k, RECORD)
    && (answers(call + k) < RECORD || available - RECORD * k < RECORD)
  }

  /** How many whole records come in a row from this call of recv() on: as long as the answers and
      the bytes suffice, and not one fewer. */
  function WholeRecords(answers: Answers, call: nat, available: nat): (k: nat)
    ensures InARow(answers, call, available, k)
    decreases available
  {
    if answers(call) < RECORD || available < RECORD then 0
    else 1 + WholeRecords(answers, call + 1, available - RECORD)
  }

  /** In the middle of CxlSend: count bytes accepted in the calls before call, which has then
      returned ret; in all it will be o. */
  predicate Underway(o: Sending, answers: Answers, start: nat, call: nat, count: nat, ret: int) {
    && start <= call && count <= RECORD
    && ret == (if answers(call) < 1 then -1 else Min(answers(call), RECORD - count))
    && o == After(count, call - start, Sends(answers, call, RECORD - count))
  }

  lemma UnderwayOn(o: Sending, answers: Answers, start: nat, call: nat, count: nat, ret: int)
    requires Underway(o, answers, start, call, count, ret) && ret >= 1
    ensures count + ret <= RECORD
    ensures o == After(count + ret, call + 1 - start, Sends(answers, call + 1, RECORD - (count + ret)))
  {
  }

  lemma UnderwayDone(o: Sending, answers: Answers, start: nat, call: nat, count: nat, ret: int)
    requires Underway(o, answers, start, call, count, ret) && ret < 1
    ensures o == Sending(ret == 0, count, call + 1 - start)
  {
  }

  class Socket {
    const sendAnswers: Answers
    const recvAnswers: Answers
    var sendCalls: nat
    var recvCalls: nat
    var sent: seq<byte>      // accepted by send() so far
    var failed: bool         // send() has returned -1
    var incoming: seq<byte>  // arrived and not yet received
    var closed: bool

    constructor (incoming: seq<byte>, sendAnswers: Answers, recvAnswers: Answers)
      ensures sent == [] && !failed && this.incoming == incoming && !closed
      ensures this.sendAnswers == sendAnswers && this.recvAnswers == recvAnswers
      ensures sendCalls == 0 && recvCalls == 0
    {
      this.sendAnswers, this.recvAnswers, sendCalls, recvCalls := sendAnswers, recvAnswers, 0, 0;
      this.incoming, sent, failed, closed := incoming, [], false, false;
    }

    /** recv() would wait for ever: nothing has arrived, and no error or end of stream comes. */
    predicate Waits()
      reads this
    {
      incoming == [] && recvAnswers(recvCalls) >= 1
    }

    /** What becomes of sending a record now. */
    function Outcome(): Sending
      reads this
    {
      if failed then Sending(false, 0, 1) else Sends(sendAnswers, sendCalls, RECORD)
    }

    /** send(): at least one byte of a nonempty buffer, 0 for an empty one, or -1. */
    method Send(buf: array<byte>, from: nat) returns (ret: int)
      requires from <= buf.Length
      modifies this`sent, this`failed, this`sendCalls
      ensures sendCalls == old(sendCalls) + 1
      ensures failed == (old(failed) || sendAnswers(old(sendCalls)) < 1)
      ensures ret == if failed then -1 else Min(sendAnswers(old(sendCalls)), buf.Length - from)
      ensures sent == old(sent) + if ret > 0 then buf[from..from + ret] else []
    {
      var answer := sendAnswers(sendCalls);
      sendCalls := sendCalls + 1;
      if failed || answer < 1 {
        failed := true;
        return -1;
      }
      ret := Min(answer, buf.Length - from);
      sent := sent + buf[from..from + ret];
    }

    /** recv() of a record's size, when it does not wait: some of what has arrived, 0 at the end
        of the stream, or -1. */
    method Recv(buf: array<byte>) returns (ret: int)
      requires buf.Length == RECORD && !Waits()
      modifies this`incoming, this`recvCalls, buf
      ensures recvCalls == old(recvCalls) + 1
      ensures ret == Received(recvAnswers(old(recvCalls)), |old(incoming)|)
      ensures ret > 0 ==> incoming == old(incoming)[ret..] && buf[..] == old(incoming)[..ret] + old(buf[ret..])
      ensures ret <= 0 ==> incoming == old(incoming) && buf[..] == old(buf[..])
    {
      ret := Received(recvAnswers(recvCalls), |incoming|);
      recvCalls := recvCalls + 1;
      if ret <= 0 {
        return;
      }
      forall i | 0 <= i < ret {
        buf[i] := incoming[i];
      }
      incoming := incoming[ret..];
    }

    /** CXL_Send: the loop goes on until send() has nothing left to take, so it ends well only
        on a zero-length send. The socket accepts a prefix of the record, all of it exactly
        once and in order if the result is 1; and to any hop h that is about to send this
        record it looks like the acts listed. */
    method CxlSend(buf: array<byte>, ghost h: R.Hop) returns (ret: int, ghost acts: seq<R.Act>)
      requires buf.Length == RECORD
      requires h.Tcp? && h.sender == R.Sending(0) && h.sendBuffer == buf[..] && h.broken == failed
      modifies this`sent, this`failed, this`sendCalls
      ensures var o := old(Outcome());
              && o.accepted <= RECORD && sent == old(sent) + buf[..o.accepted]
              && ret == (if o.ok then 1 else -1) && failed == !o.ok
              && (o.ok ==> o.accepted == RECORD)
              && sendCalls == old(sendCalls) + o.calls
      ensures R.HopRuns(h, acts) && R.AllBySender(acts)
      ensures R.HopAfter(h, acts) ==
              h.(wire := h.wire + sent[|old(sent)|..],
                 sender := if ret == 1 then R.Sent else R.Failed, broken := failed)
    {
      ghost var o := Outcome();
      ghost var sizes: seq<nat>;
      ret, sizes := SendLoop(buf);
      acts := AsSends(h, sizes, o.ok);
      Tail(old(sent), h.sendBuffer[..o.accepted]);
    }

    /** Its body. */
    method SendLoop(buf: array<byte>) returns (result: int, ghost sizes: seq<nat>)
      requires buf.Length == RECORD
      modifies this`sent, this`failed, this`sendCalls
      ensures var o := old(Outcome());
              && o.accepted <= RECORD && sent == old(sent) + buf[..o.accepted]
              && result == (if o.ok then 1 else -1) && failed == !o.ok
              && (o.ok ==> o.accepted == RECORD)
              && sendCalls == old(sendCalls) + o.calls
              && Accept(sizes, o.accepted) && (old(failed) ==> sizes == [])
    {
      ghost var o, start, was, before := Outcome(), sendCalls, failed, sent;
      var count := 0;
      sizes := [];
      assert before + buf[..0] == before;
      var ret := SendNext(buf, count, o, start, was, before);
      while ret >= 1
        invariant Sofar(o, start, was, before, buf[..], count, ret)
        invariant Accept(sizes, count) && (was ==> sizes == []) && count <= RECORD && ret <= RECORD - count
        decreases RECORD - count, ret
      {
        AcceptOn(sizes, count, ret);
        sizes := sizes + [ret];
        Step(o, start, was, before, buf[..], count, ret);
        count := count + ret;
        ret := SendNext(buf, count, o, start, was, before);
      }
      Done(o, start, was, before, buf[..], count, ret);
      result := if ret == 0 then 1 else -1;
    }

    lemma Done(o: Sending, start: nat, was: bool, before: seq<byte>, bytes: Image, count: nat, ret: int)
      requires Sofar(o, start, was, before, bytes, count, ret) && ret < 1
      ensures o.accepted == count && sent == before + bytes[..o.accepted]
      ensures (ret == 0 <==> o.ok) && failed == !o.ok && (o.ok ==> o.accepted == RECORD)
      ensures sendCalls == start + o.calls
    {
      if !was {
        UnderwayDone(o, sendAnswers, start, sendCalls - 1, count, ret);
      }
    }

    lemma Step(o: Sending, start: nat, was: bool, before: seq<byte>, bytes: Image, count: nat, ret: int)
      requires Sofar(o, start, was, before, bytes, count, ret) && ret >= 1
      ensures !was && !failed && count + ret <= RECORD && start <= sendCalls && sent == before + bytes[..count + ret]
      ensures o == After(count + ret, sendCalls - start, Sends(sendAnswers, sendCalls, RECORD - (count + ret)))
    {
      UnderwayOn(o, sendAnswers, start, sendCalls - 1, count, ret);
    }

    /** The loop's state: o is what will become of the record, bytes; count bytes of it had been
        accepted before send() has last returned ret. */
    ghost predicate Sofar(o: Sending, start: nat, was: bool, before: seq<byte>, bytes: Image, count: nat, ret: int)
      reads this
    {
      && count <= RECORD && -1 <= ret <= RECORD - count && failed == (ret == -1) && start < sendCalls
      && sent == before + bytes[..count + if ret >= 1 then ret else 0]
      && (if was then failed && count == 0 && o == Sending(false, 0, 1) && sendCalls == start + 1
          else Underway(o, sendAnswers, start, sendCalls - 1, count, ret))
    }

    /** The next call of send() in CXL_Send's loop. */
    method SendNext(buf: array<byte>, count: nat, ghost o: Sending, ghost start: nat, ghost was: bool,
                    ghost before: seq<byte>)
      returns (ret: int)
      requires buf.Length == RECORD && count <= RECORD && failed == was && start <= sendCalls
      requires sent == before + buf[..count]
      requires if was then count == 0 && o == Sending(false, 0, 1) && sendCalls == start
               else o == After(count, sendCalls - start, Sends(sendAnswers, sendCalls, RECORD - count))
      modifies this`sent, this`failed, this`sendCalls
      ensures Sofar(o, start, was, before, buf[..], count, ret)
    {
      ret := Send(buf, count);
      if ret >= 1 {
        Longer(before, buf[..], count, ret);
      }
    }

    /** CXL_Recv as every caller uses it: a single recv(). A hop that is receiving from this
        stream sees one act. */
    method CxlRecv(buf: array<byte>, ghost h: R.Hop) returns (ret: int)
      requires buf.Length == RECORD && !Waits()
      requires h.Tcp? && h.receiver.Receiving? && h.wire == incoming && h.recvBuffer == buf[..]
      modifies this`incoming, this`recvCalls, buf
      ensures recvCalls == old(recvCalls) + 1
      ensures ret == Received(recvAnswers(old(recvCalls)), |old(incoming)|)
      ensures ret <= 0 ==> incoming == old(incoming) && buf[..] == old(buf[..])
      ensures ret > 0 ==> buf[..] == Overlay(old(incoming)[..ret], old(buf[..])) && incoming == old(incoming)[ret..]
      ensures var a := if ret > 0 then R.Recv(ret) else R.RecvFails;
              && R.CanAct(h, a)
              && R.Acted(h, a) == h.(wire := incoming, recvBuffer := buf[..],
                                     receiver := if ret == RECORD then R.Received else R.Short)
    {
      ret := Recv(buf);
    }

    method Close()
      modifies this`closed
      ensures closed
    {
      closed := true;
    }
  }

  function Total(sizes: seq<nat>): nat {
    if sizes == [] then 0 else sizes[0] + Total(sizes[1..])
  }

  /** Sends of these sizes, each of at least a byte, make up so many bytes. */
  predicate Accept(sizes: seq<nat>, count: nat) {
    Total(sizes) == count && forall i :: 0 <= i < |sizes| ==> sizes[i] >= 1
  }

  lemma AcceptOn(sizes: seq<nat>, count: nat, n: nat)
    requires Accept(sizes, count) && n >= 1
    ensures Accept(sizes + [n], count + n)
  {
    TotalOn(sizes, n);
  }

  lemma {:induction false} TotalOn(sizes: seq<nat>, n: nat)
    ensures Total(sizes + [n]) == Total(sizes) + n
  {
    if sizes == [] {
      assert sizes + [n] == [n];
    } else {
      TotalOn(sizes[1..], n);
      assert (sizes + [n])[1..] == sizes[1..] + [n];
    }
  }

  /** A hop's acts for sends of these sizes, and the final one. */
  lemma AsSends(h: R.Hop, sizes: seq<nat>, ok: bool) returns (acts: seq<R.Act>)
    requires h.Tcp? && h.sender == R.Sending(0) && (h.broken ==> sizes == [] && !ok)
    requires Accept(sizes, Total(sizes)) && Total(sizes) <= RECORD && (ok ==> Total(sizes) == RECORD)
    ensures R.HopRuns(h, acts) && R.AllBySender(acts)
    ensures R.HopAfter(h, acts) ==
            h.(wire := h.wire + h.sendBuffer[..Total(sizes)],
               sender := if ok then R.Sent else R.Failed, broken := !ok)
  {
    NothingSent(h);
    acts := SendsOn(h, [], 0, sizes);
    if ok {
      LastSend(h, acts);
      acts := acts + [R.SendNothing];
    } else {
      FailedSend(h, acts, Total(sizes));
      acts := acts + [R.SendFails];
    }
  }

  lemma {:induction false} SendsOn(h: R.Hop, acts: seq<R.Act>, count: nat, sizes: seq<nat>)
    returns (more: seq<R.Act>)
    requires Partly(h, acts, count) && R.AllBySender(acts) && (h.broken ==> sizes == [])
    requires forall i :: 0 <= i < |sizes| ==> sizes[i] >= 1
    requires count + Total(sizes) <= RECORD
    ensures Partly(h, more, count + Total(sizes)) && R.AllBySender(more)
    decreases |sizes|
  {
    more := acts;
    if sizes != [] {
      SomeSent(h, acts, count, sizes[0]);
      more := SendsOn(h, acts + [R.Send(sizes[0])], count + sizes[0], sizes[1..]);
    }
  }

  /** After these acts of h, count bytes of its record are on the wire. */
  ghost predicate Partly(h: R.Hop, acts: seq<R.Act>, count: nat) {
    && h.Tcp? && count <= RECORD
    && R.HopRuns(h, acts)
    && R.HopAfter(h, acts) == h.(wire := h.wire + h.sendBuffer[..count], sender := R.Sending(count))
  }

  lemma NothingSent(h: R.Hop)
    requires h.Tcp? && h.sender == R.Sending(0)
    ensures Partly(h, [], 0)
  {
    assert h.wire + [] == h.wire;
  }

  lemma SomeSent(h: R.Hop, acts: seq<R.Act>, count: nat, n: nat)
    requires Partly(h, acts, count) && !h.broken && 1 <= n <= RECORD - count
    ensures Partly(h, acts + [R.Send(n)], count + n)
  {
    R.HopRunsOn(h, acts, R.Send(n));
    Longer(h.wire, h.sendBuffer, count, n);
  }

  lemma LastSend(h: R.Hop, acts: seq<R.Act>)
    requires Partly(h, acts, RECORD) && !h.broken
    ensures R.HopRuns(h, acts + [R.SendNothing])
    ensures R.HopAfter(h, acts + [R.SendNothing]) == h.(wire := h.wire + h.sendBuffer[..RECORD], sender := R.Sent)
  {
    R.HopRunsOn(h, acts, R.SendNothing);
  }

  lemma FailedSend(h: R.Hop, acts: seq<R.Act>, count: nat)
    requires Partly(h, acts, count)
    ensures R.HopRuns(h, acts + [R.SendFails])
    ensures R.HopAfter(h, acts + [R.SendFails]) ==
            h.(wire := h.wire + h.sendBuffer[..count], sender := R.Failed, broken := true)
  {
    R.HopRunsOn(h, acts, R.SendFails);
  }

  lemma Longer(a: seq<byte>, b: seq<byte>, i: nat, n: nat)
    requires i + n <= |b|
    ensures a + b[..i] + b[i..i + n] == a + b[..i + n]
  {
    assert b[..i] + b[i..i + n] == b[..i + n];
  }

  lemma Tail(a: seq<byte>, b: seq<byte>)
    ensures (a + b)[|a|..] == b && a + b + [] == a + b
  {
  }
}
