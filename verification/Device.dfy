/** The device side: the DPI bridge (cxl_relay/dpi_sv.c) with its two static buffers, and the
    SystemVerilog loop (cxl_relay/dpi_sv.sv) that reuses one request and one reply record. */
module Device {
  import opened Bytes
  import opened Packets
  import opened Framing
  import opened NamedPipe

  /** Records whose payload fits: what host and forwarder send. */
  predicate Fits(p: Packet) {
    p.size <= PAYLOAD
  }

  class Dpi {
    const requestPipe: Pipe
    const replyPipe: Pipe
    const requestBuffer: Transaction
    const replyBuffer: Transaction

    ghost predicate Valid() {
      && requestPipe != replyPipe && requestBuffer != replyBuffer
      && requestBuffer.Valid() && replyBuffer.Valid() && requestBuffer.data != replyBuffer.data
    }

    /** t is none of the bridge's own records. */
    ghost predicate Outside(t: Transaction) {
      && t.Valid() && t != requestBuffer && t != replyBuffer
      && t.data != requestBuffer.data && t.data != replyBuffer.data
    }

    constructor (requestPipe: Pipe, replyPipe: Pipe)
      requires requestPipe != replyPipe
      ensures Valid() && this.requestPipe == requestPipe && this.replyPipe == replyPipe
      ensures fresh(requestBuffer) && fresh(requestBuffer.data) && fresh(replyBuffer) && fresh(replyBuffer.data)
    {
      this.requestPipe, this.replyPipe := requestPipe, replyPipe;
      requestBuffer := new Transaction();
      replyBuffer := new Transaction();
    }

    /** simics_dpi_request: the next request, field by field; beyond its size the caller's data
        stays as it was. */
    method Request(to: Transaction) returns (ret: int)
      requires Valid() && Outside(to) && requestPipe.bytes != [] && Aligned(requestPipe.bytes)
      requires Fits(Decode(requestPipe.bytes[..RECORD]))
      modifies requestPipe, requestBuffer, requestBuffer.data, to, to.data
      ensures ret == 1 && requestPipe.bytes == old(requestPipe.bytes)[RECORD..]
      ensures var p := Decode(old(requestPipe.bytes)[..RECORD]);
              to.Contents() == p.(data := p.data[..p.size] + old(to.data[..])[p.size..])
    {
      WholeRecord(requestPipe.bytes, Encode(Packet(0, 0, 0, 0, 0, 0, Zeros(PAYLOAD))));
      requestBuffer.Clear();
      var retval := requestPipe.Receive(requestBuffer);
      ghost var p := requestBuffer.Contents();
      if retval > 0 {
        to.number := requestBuffer.number;
        to.kind := requestBuffer.kind;
        to.simType := requestBuffer.simType;
        to.address := requestBuffer.address;
        to.r0w1 := requestBuffer.r0w1;
        to.size := requestBuffer.size;
        to.CopyData(requestBuffer, requestBuffer.size);
        return 1;
      }
      return -1;
    }

    /** simics_dpi_response: the reply starts out all zero, gets every field but r0w1, and as
        many data bytes as its size says. */
    method Response(from: Transaction) returns (ret: int)
      requires Valid() && Outside(from) && Fits(from.Contents())
      modifies replyPipe, replyBuffer, replyBuffer.data
      ensures ret == 1
      ensures var p := from.Contents();
              replyPipe.bytes == old(replyPipe.bytes)
                + Encode(p.(r0w1 := 0, data := p.data[..p.size] + Zeros(PAYLOAD)[p.size..]))
    {
      replyBuffer.Clear();
      replyBuffer.number := from.number;
      replyBuffer.kind := from.kind;
      replyBuffer.simType := from.simType;
      replyBuffer.address := from.address;
      replyBuffer.simType := from.simType;
      replyBuffer.size := from.size;
      replyBuffer.CopyData(from, from.size);
      var ok := replyPipe.Send(replyBuffer, true);
      if !ok {
        return -1;
      }
      return 1;
    }
  }

  /** What the device has answered once it has read all of requests: nothing after a stop. */
  function Replies(requests: seq<Image>): seq<Image> {
    if requests == [] || IsStop(requests[0]) then [] else [Reply(requests[0])] + Replies(requests[1..])
  }

  /** What the device leaves unread: whatever follows the stop packet. */
  function Unread(requests: seq<Image>): seq<Image> {
    if requests == [] then [] else if IsStop(requests[0]) then requests[1..] else Unread(requests[1..])
  }

  predicate AllFit(requests: seq<Image>) {
    forall i :: 0 <= i < |requests| ==> Fits(Decode(requests[i]))
  }

  class Module {
    const dpi: Dpi
    const req: Transaction
    const rsp: Transaction
    var finished: bool

    ghost predicate Valid() {
      dpi.Valid() && dpi.Outside(req) && dpi.Outside(rsp) && req != rsp && req.data != rsp.data
    }

    ghost function Repr(): set<object> {
      {dpi.requestPipe, dpi.replyPipe, dpi.requestBuffer, dpi.requestBuffer.data, dpi.replyBuffer,
       dpi.replyBuffer.data, req, req.data, rsp, rsp.data, this}
    }

    constructor (dpi: Dpi)
      requires dpi.Valid()
      ensures Valid() && this.dpi == dpi && !finished
      ensures fresh(req) && fresh(req.data) && fresh(rsp) && fresh(rsp.data)
    {
      this.dpi := dpi;
      req := new Transaction();
      rsp := new Transaction();
      finished := false;
    }

    /** Filling in the reply data for a request. */
    method FillReply()
      requires Valid() && req.size <= PAYLOAD
      modifies rsp.data
      ensures forall k :: 0 <= k < req.size ==>
                rsp.data[k] == if req.r0w1 == 0 then (req.number + k) % 256 else req.data[k]
    {
      var i := 0;
      while i < req.size
        invariant 0 <= i <= req.size
        invariant forall k :: 0 <= k < i ==>
                    rsp.data[k] == if req.r0w1 == 0 then (req.number + k) % 256 else req.data[k]
      {
        if req.r0w1 == 0 {
          rsp.data[i] := (req.number + i) % 256;
        } else {
          rsp.data[i] := req.data[i];
        }
        i := i + 1;
      }
    }

    /** One turn of the forever loop: one request in, and its reply out unless it is the stop
        packet, whatever req, rsp and the bridge's buffers held before. */
    method Turn()
      requires Valid() && !finished && dpi.requestPipe.bytes != [] && Aligned(dpi.requestPipe.bytes)
      requires Fits(Decode(dpi.requestPipe.bytes[..RECORD]))
      modifies Repr()
      ensures dpi.requestPipe.bytes == old(dpi.requestPipe.bytes)[RECORD..]
      ensures var r := old(dpi.requestPipe.bytes)[..RECORD];
              && finished == IsStop(r)
              && dpi.replyPipe.bytes == old(dpi.replyPipe.bytes) + if IsStop(r) then [] else Reply(r)
    {
      ghost var r: Image := dpi.requestPipe.bytes[..RECORD];
      var ret := dpi.Request(req);
      if ret >= 0 && req.number > 0 {
        rsp.number := req.number;
        rsp.kind := req.kind;
        rsp.simType := req.simType;
        rsp.address := req.address;
        rsp.r0w1 := req.r0w1;
        rsp.size := req.size;
        FillReply();
        ghost var p := rsp.Contents();
        ReplyData(Decode(r), p.data);
        ret := dpi.Response(rsp);
      } else {
        finished := true;
      }
    }

    /** run(): until the stop packet, or until the next request read blocks. */
    method Run()
      requires Valid() && !finished && Aligned(dpi.requestPipe.bytes) && AllFit(Chunks(dpi.requestPipe.bytes))
      modifies Repr()
      ensures Aligned(dpi.requestPipe.bytes)
      ensures Chunks(dpi.requestPipe.bytes) == Unread(Chunks(old(dpi.requestPipe.bytes)))
      ensures dpi.replyPipe.bytes == old(dpi.replyPipe.bytes) + Joined(Replies(Chunks(old(dpi.requestPipe.bytes))))
      ensures finished <==> exists r :: r in Chunks(old(dpi.requestPipe.bytes)) && IsStop(r)
    {
      ghost var all := Chunks(dpi.requestPipe.bytes);
      ghost var done, out := Loop(all);
      LastTurn(all, done, dpi.requestPipe.bytes, finished, out);
    }

    /** run() with one request in its pipe. */
    method RunOnce(ghost img: Image)
      requires Valid() && !finished && dpi.requestPipe.bytes == img && dpi.replyPipe.bytes == [] && Fits(Decode(img))
      modifies Repr()
      ensures dpi.requestPipe.bytes == [] && dpi.replyPipe.bytes == if IsStop(img) then [] else Reply(img)
      ensures finished == IsStop(img)
    {
      OneRecord(img);
      Run();
      AllRead(dpi.requestPipe.bytes);
    }

    method Loop(ghost all: seq<Image>) returns (ghost done: nat, ghost out: seq<byte>)
      requires Valid() && !finished && AllFit(all) && SoFar(all, 0, dpi.requestPipe.bytes, false, [])
      modifies Repr()
      ensures SoFar(all, done, dpi.requestPipe.bytes, finished, out)
      ensures dpi.replyPipe.bytes == old(dpi.replyPipe.bytes) + out
      ensures finished || dpi.requestPipe.bytes == []
    {
      done, out := 0, [];
      while !finished && dpi.requestPipe.bytes != []
        invariant SoFar(all, done, dpi.requestPipe.bytes, finished, out)
        invariant dpi.replyPipe.bytes == old(dpi.replyPipe.bytes) + out
        decreases |all| - done
      {
        ghost var reply := NextTurn(all, done, out);
        done, out := done + 1, out + reply;
      }
    }

    /** A turn, as progress of the loop. */
    method NextTurn(ghost all: seq<Image>, ghost done: nat, ghost out: seq<byte>) returns (ghost reply: seq<byte>)
      requires Valid() && !finished && AllFit(all) && SoFar(all, done, dpi.requestPipe.bytes, false, out)
      requires dpi.requestPipe.bytes != []
      modifies Repr()
      ensures done < |all| && SoFar(all, done + 1, dpi.requestPipe.bytes, finished, out + reply)
      ensures dpi.replyPipe.bytes == old(dpi.replyPipe.bytes) + reply
    {
      OneRead(all, done, dpi.requestPipe.bytes, out);
      reply := if IsStop(all[done]) then [] else Reply(all[done]);
      Turn();
    }
  }

  lemma AllRead(b: seq<byte>)
    requires Aligned(b) && Chunks(b) == []
    ensures b == []
  {
  }

  /** A pipe with just this request in it, seen by the device. */
  lemma OneRecord(img: Image)
    ensures Chunks(img) == [img]
    ensures Unread([img]) == [] && Joined(Replies([img])) == if IsStop(img) then [] else Reply(img)
  {
    ChunksOne(img);
    if !IsStop(img) {
      assert Replies([img]) == [Reply(img)] + Replies([]);
      JoinedAppend([], Reply(img));
      assert [] + [Reply(img)] == [Reply(img)];
    }
  }

  /** The loop's progress: done of all requests read, rest still in the pipe, out written. */
  ghost predicate SoFar(all: seq<Image>, done: nat, rest: seq<byte>, finished: bool, out: seq<byte>) {
    && done <= |all| && Aligned(rest) && Chunks(rest) == all[done..]
    && out == Joined(Replies(all[..done]))
    && (forall i :: 0 <= i < done && (i < done - 1 || !finished) ==> !IsStop(all[i]))
    && (finished ==> done > 0 && IsStop(all[done - 1]))
  }

  lemma OneRead(all: seq<Image>, done: nat, rest: seq<byte>, out: seq<byte>)
    requires SoFar(all, done, rest, false, out) && rest != []
    ensures |rest| >= RECORD && done < |all| && all[done] == rest[..RECORD]
    ensures var r := all[done];
            SoFar(all, done + 1, rest[RECORD..], IsStop(r), out + if IsStop(r) then [] else Reply(r))
    ensures AllFit(all) ==> Fits(Decode(rest[..RECORD]))
  {
    WholeRecord(rest, all[done]);
    OneMoreReply(all, done);
    assert all[done..][1..] == all[done + 1..];
  }

  lemma LastTurn(all: seq<Image>, done: nat, rest: seq<byte>, finished: bool, out: seq<byte>)
    requires SoFar(all, done, rest, finished, out) && (finished || rest == [])
    ensures out == Joined(Replies(all)) && Chunks(rest) == Unread(all)
    ensures finished <==> exists r :: r in all && IsStop(r)
  {
    RepliesStop(all, done);
    if finished {
      assert all[done - 1] in all;
    }
  }

  /** The reply data does not depend on what any of the reused records held. */
  lemma ReplyData(p: Packet, filled: Payload)
    requires Fits(p)
    requires forall k :: 0 <= k < p.size ==> filled[k] == if p.r0w1 == 0 then (p.number + k) % 256 else p.data[k]
    ensures filled[..p.size] + Zeros(PAYLOAD)[p.size..] == Answer(p).data
  {
    var got := filled[..p.size] + Zeros(PAYLOAD)[p.size..];
    forall k | 0 <= k < PAYLOAD
      ensures got[k] == Answer(p).data[k]
    {
      assert Answer(p).data[k] == AnswerByte(p, k);
    }
  }

  lemma {:induction false} RepliesGrow(requests: seq<Image>, r: Image)
    requires forall i :: 0 <= i < |requests| ==> !IsStop(requests[i])
    ensures Replies(requests + [r]) == Replies(requests) + if IsStop(r) then [] else [Reply(r)]
  {
    if requests == [] {
      assert requests + [r] == [r];
    } else {
      RepliesGrow(requests[1..], r);
      assert (requests + [r])[1..] == requests[1..] + [r];
    }
  }

  /** One more request read by the device: its reply follows those already written. */
  lemma OneMoreReply(requests: seq<Image>, n: nat)
    requires n < |requests| && forall i :: 0 <= i < n ==> !IsStop(requests[i])
    ensures Joined(Replies(requests[..n + 1])) ==
            Joined(Replies(requests[..n])) + if IsStop(requests[n]) then [] else Reply(requests[n])
  {
    assert requests[..n + 1] == requests[..n] + [requests[n]];
    RepliesGrow(requests[..n], requests[n]);
    if IsStop(requests[n]) {
      assert Replies(requests[..n]) + [] == Replies(requests[..n]);
    } else {
      JoinedAppend(Replies(requests[..n]), Reply(requests[n]));
    }
  }

  /** After the first stop packet, or at the end, the whole input has had its effect: every request
      before it has been answered, each with its own reply, and those behind it stay unread. */
  lemma RepliesStop(requests: seq<Image>, n: nat)
    requires n <= |requests|
    requires forall i :: 0 <= i < n - 1 ==> !IsStop(requests[i])
    requires n == |requests| || (n > 0 && IsStop(requests[n - 1]))
    ensures Replies(requests[..n]) == Replies(requests)
    ensures Unread(requests) == requests[n..]
    ensures |Replies(requests)| == if n > 0 && IsStop(requests[n - 1]) then n - 1 else n
    ensures forall k :: 0 <= k < |Replies(requests)| ==> Replies(requests)[k] == Reply(requests[k])
  {
    StopsThere(requests, n);
    RepliesEach(requests, n);
  }

  lemma {:induction false} StopsThere(requests: seq<Image>, n: nat)
    requires n <= |requests|
    requires forall i :: 0 <= i < n - 1 ==> !IsStop(requests[i])
    requires n == |requests| || (n > 0 && IsStop(requests[n - 1]))
    ensures Replies(requests[..n]) == Replies(requests)
    ensures Unread(requests) == requests[n..]
  {
    if n == |requests| {
      assert requests[..n] == requests;
    }
    if requests != [] && !IsStop(requests[0]) {
      StopsThere(requests[1..], n - 1);
      assert requests[..n][1..] == requests[1..][..n - 1];
    }
  }

  lemma {:induction false} RepliesEach(requests: seq<Image>, n: nat)
    requires n <= |requests|
    requires forall i :: 0 <= i < n - 1 ==> !IsStop(requests[i])
    requires n == |requests| || (n > 0 && IsStop(requests[n - 1]))
    ensures |Replies(requests)| == if n > 0 && IsStop(requests[n - 1]) then n - 1 else n
    ensures forall k :: 0 <= k < |Replies(requests)| ==> Replies(requests)[k] == Reply(requests[k])
  {
    if requests != [] && !IsStop(requests[0]) {
      RepliesEach(requests[1..], n - 1);
      var rest := Replies(requests[1..]);
      assert Replies(requests) == [Reply(requests[0])] + rest;
    }
  }
}
