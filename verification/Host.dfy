/** The host end: send-then-wait over the whole local deployment, packet numbering
    (cxl_relay/dml_debug.c), the test host (cxl_relay/testhost.c) and the Simics forwarder
    (modules/forward-receiver/forward-receiver.c). While the host waits in its pipe read the
    relay threads and the device run until they block; ClosedRun shows that every other
    schedule ends the same way. */
module Host {
  import opened Bytes
  import opened Packets
  import opened Framing
  import opened NamedPipe
  import opened RelayThreads
  import opened Lanes
  import C = ClosedRun
  import D = Device

  class LocalSystem {
    const requestClient: Pipe
    const requestServer: Pipe
    const replyServer: Pipe
    const replyClient: Pipe
    const up: Copier
    const down: Copier
    const device: D.Module
    /** Every request the device has read. */
    ghost var served: seq<Image>

    ghost predicate Valid() {
      && requestClient != requestServer && requestClient != replyServer && requestClient != replyClient
      && requestServer != replyServer && requestServer != replyClient && replyServer != replyClient
      && up.Valid() && up.input == requestClient && up.output == requestServer
      && down.Valid() && down.input == replyServer && down.output == replyClient
      && device.Valid() && device.dpi.requestPipe == requestServer && device.dpi.replyPipe == replyServer
    }

    ghost function Repr(): set<object> {
      {this, requestClient, requestServer, replyServer, replyClient, up, up.buffer, down, down.buffer} + device.Repr()
    }

    /** t is none of the system's own records. */
    ghost predicate Outside(t: Transaction) {
      t.Valid() && t !in Repr() && t.data !in Repr()
    }

    /** Nothing under way. */
    ghost predicate Quiet()
      reads requestClient, requestServer, replyServer, replyClient, device
    {
      && requestClient.bytes == requestServer.bytes == replyServer.bytes == replyClient.bytes == []
      && !device.finished
    }

    constructor ()
      ensures Valid() && Quiet() && served == [] && fresh(Repr())
    {
      var p1 := new Pipe();
      var p2 := new Pipe();
      var p3 := new Pipe();
      var p4 := new Pipe();
      requestClient, requestServer, replyServer, replyClient := p1, p2, p3, p4;
      up := new Copier(p1, p2);
      down := new Copier(p3, p4);
      var dpi := new D.Dpi(p2, p3);
      device := new D.Module(dpi);
      served := [];
    }

    /** The request goes out and everything else runs until it blocks. */
    method Post(request: Transaction)
      requires Valid() && Quiet() && Outside(request) && D.Fits(request.Contents())
      modifies Repr()
      ensures requestClient.bytes == requestServer.bytes == replyServer.bytes == []
      ensures var img := Encode(request.Contents());
              && served == old(served) + [img]
              && device.finished == IsStop(img)
              && replyClient.bytes == if IsStop(img) then [] else Reply(img)
    {
      ghost var img := Encode(request.Contents());
      EncodeDecode(request.Contents());
      Forth(request);
      served := served + [img];
      ServeOne(img);
      Back();
    }

    /** The host's write and the request thread. */
    method Forth(request: Transaction)
      requires Valid() && request.Valid() && requestClient.bytes == requestServer.bytes == []
      modifies requestClient, requestServer, up, up.buffer
      ensures requestClient.bytes == [] && requestServer.bytes == Encode(request.Contents())
      ensures replyServer.bytes == old(replyServer.bytes) && replyClient.bytes == old(replyClient.bytes)
      ensures device.finished == old(device.finished)
    {
      var p := requestClient.Send(request, true);
      up.Run();
    }

    /** The reply thread. */
    method Back()
      requires Valid() && replyClient.bytes == [] && Aligned(replyServer.bytes)
      modifies replyServer, replyClient, down, down.buffer
      ensures replyServer.bytes == [] && replyClient.bytes == old(replyServer.bytes)
      ensures requestClient.bytes == old(requestClient.bytes) && requestServer.bytes == old(requestServer.bytes)
      ensures device.finished == old(device.finished)
    {
      down.Run();
    }

    /** The device with one request in its pipe. */
    method ServeOne(ghost img: Image)
      requires Valid() && !device.finished && requestServer.bytes == img && replyServer.bytes == []
      requires D.Fits(Decode(img))
      modifies device.Repr()
      ensures requestServer.bytes == [] && replyServer.bytes == if IsStop(img) then [] else Reply(img)
      ensures device.finished == IsStop(img)
      ensures requestClient.bytes == old(requestClient.bytes) && replyClient.bytes == old(replyClient.bytes)
    {
      device.RunOnce(img);
    }

    /** Enqueue, wait, dequeue: whatever was in any of the reused buffers, the reply is the
        device's answer to this request, and the system is quiet again. */
    method Exchange(request: Transaction, reply: Transaction) returns (ret: int)
      requires Valid() && Quiet() && Outside(request) && Outside(reply)
      requires request != reply && request.data != reply.data
      requires D.Fits(request.Contents()) && request.number != 0
      modifies Repr(), reply, reply.data
      ensures ret == RECORD && Quiet()
      ensures reply.Contents() == Answer(request.Contents())
      ensures served == old(served) + [Encode(request.Contents())]
      ensures request.Contents() == old(request.Contents())
    {
      ghost var img := Encode(request.Contents());
      EncodeDecode(request.Contents());
      Post(request);
      WholeRecord(replyClient.bytes, Encode(reply.Contents()));
      assert replyClient.bytes[..RECORD] == Reply(img);
      EncodeDecode(Answer(Decode(img)));
      ret := replyClient.Receive(reply);
    }
  }

  // ---- dml_debug.c

  const INT_MAX := 0x7fff_ffff

  predicate Increasing(requests: seq<Image>, below: int) {
    && (forall i :: 0 <= i < |requests| ==> 0 < Field32(requests[i], 0) < below)
    && (forall i, j :: 0 <= i < j < |requests| ==> Field32(requests[i], 0) < Field32(requests[j], 0))
  }

  class Cosim {
    const system: LocalSystem
    var simicsPacketNo: int
    var numTransactions: int

    ghost predicate Valid() {
      system.Valid() && this !in system.Repr()
    }

    /** The numbers that have reached the device are nonzero, increasing, and used up. */
    ghost predicate Disciplined()
      reads this, system
    {
      0 < simicsPacketNo <= INT_MAX && Increasing(system.served, simicsPacketNo)
    }

    constructor (system: LocalSystem)
      requires system.Valid() && system.served == []
      ensures Valid() && this.system == system && Disciplined() && simicsPacketNo == 1
      ensures fresh(this)
    {
      this.system, simicsPacketNo, numTransactions := system, 1, 0;
    }

    /** simics_send_access_to_cosim, for the first 2^31 - 2 calls. The number is used up on
        every path; the time-end path and a pipe that cannot be opened send nothing. */
    method SendAccess(send: Transaction, reply: Transaction, pipeOpens: bool, timeEnd: bool) returns (ret: int)
      requires Valid() && Disciplined() && simicsPacketNo < INT_MAX && system.Quiet()
      requires system.Outside(send) && system.Outside(reply) && send != reply && send.data != reply.data
      requires D.Fits(send.Contents())
      modifies this, system.Repr(), send`number, reply, reply.data
      ensures Disciplined() && simicsPacketNo == old(simicsPacketNo) + 1 && system.Quiet()
      ensures send.Contents() == old(send.Contents()).(number := old(simicsPacketNo))
      ensures numTransactions == old(numTransactions) + if pipeOpens && !timeEnd then 1 else 0
      ensures var sent := pipeOpens && !timeEnd;
              && (sent ==> ret == RECORD && reply.Contents() == Answer(send.Contents())
                           && system.served == old(system.served) + [Encode(send.Contents())])
              && (!sent ==> ret == (if timeEnd then 0 else -1) && reply.Contents() == old(reply.Contents())
                            && system.served == old(system.served))
    {
      send.number := simicsPacketNo;
      simicsPacketNo := simicsPacketNo + 1;
      if timeEnd {
        return 0;
      }
      if !pipeOpens {
        return -1;
      }
      ghost var p := send.Contents();
      EncodeDecode(p);
      ret := system.Exchange(send, reply);
      numTransactions := numTransactions + 1;
    }
  }

  // ---- testhost.c

  /** main() for any number of transactions: the device gets the script, record for record: 4-byte
      reads and writes of address 0 in turn, numbered from 1, and a stop packet; the host gets
      the device's answer to each, the counting pattern or the written word; and at the end the
      device has finished and all pipes are empty. */
  method TestHost(system: LocalSystem, n: uint32) returns (replies: seq<Packet>)
    requires system.Valid() && system.Quiet() && n < 0xffff_ffff
    modifies system.Repr()
    ensures system.served == old(system.served) + C.TestHost(n).requests + [C.TestHost(n).stop]
    ensures |replies| == n && forall i :: 0 <= i < n ==> replies[i] == Answer(C.TestPacket(i))
    ensures TestRecords(old(system.served), system.served, n) && TestReplies(replies, n)
    ensures system.device.finished
    ensures system.requestClient.bytes == system.requestServer.bytes == []
    ensures system.replyServer.bytes == system.replyClient.bytes == []
  {
    var testPkt := new Transaction();
    var tlpData := new Transaction();
    replies := Transactions(system, testPkt, tlpData, n);
    Finish(system, testPkt, n);
    ScriptRecords(old(system.served), n);
    ScriptReplies(replies, n);
  }

  /** What the test host adds to the records the device has read. */
  ghost predicate TestRecords(before: seq<Image>, served: seq<Image>, n: uint32) {
    var from := |before|;
    && |served| == from + n + 1 && served[..from] == before
    && (forall i :: 0 <= i < n ==> C.IsTestRecord(Decode(served[from + i]), i + 1, i % 2))
    && Decode(served[from + n]) == if n == 0 then Packet(0, 0, 0, 0, 0, 0, Zeros(PAYLOAD))
                                   else Decode(served[from + n - 1]).(number := 0)
  }

  /** What it gets. */
  ghost predicate TestReplies(replies: seq<Packet>, n: uint32) {
    |replies| == n && forall i :: 0 <= i < n ==> C.IsTestReply(replies[i], i + 1, i % 2)
  }

  lemma ScriptRecords(before: seq<Image>, n: uint32)
    requires n < 0xffff_ffff
    ensures TestRecords(before, before + C.TestHost(n).requests + [C.TestHost(n).stop], n)
  {
    C.TestHostRecords(n);
    RecordsBehind(before, C.TestHost(n).requests, C.TestHost(n).stop, n);
  }

  lemma RecordsBehind(before: seq<Image>, requests: seq<Image>, stop: Image, n: uint32)
    requires |requests| == n && forall i :: 0 <= i < n ==> C.IsTestRecord(Decode(requests[i]), i + 1, i % 2)
    requires Decode(stop) == if n == 0 then Packet(0, 0, 0, 0, 0, 0, Zeros(PAYLOAD))
                             else Decode(requests[n - 1]).(number := 0)
    ensures TestRecords(before, before + requests + [stop], n)
  {
    var served := before + requests + [stop];
    assert served[..|before|] == before && served[|before| + n] == stop;
    assert forall i :: 0 <= i < n ==> served[|before| + i] == requests[i];
  }

  lemma ScriptReplies(replies: seq<Packet>, n: uint32)
    requires n < 0xffff_ffff && |replies| == n
    requires forall i :: 0 <= i < n ==> replies[i] == Answer(C.TestPacket(i))
    ensures TestReplies(replies, n)
  {
    forall i | 0 <= i < n
      ensures C.IsTestReply(replies[i], i + 1, i % 2)
    {
      C.TestAnswer(i);
    }
  }

  /** The stop packet after n transactions. */
  method Finish(system: LocalSystem, testPkt: Transaction, n: uint32)
    requires system.Valid() && system.Quiet() && system.Outside(testPkt) && n < 0xffff_ffff
    requires testPkt.Contents() == Before(n)
    modifies system.Repr(), testPkt
    ensures system.served == old(system.served) + [C.TestHost(n).stop] && system.device.finished
    ensures system.requestClient.bytes == system.requestServer.bytes == []
    ensures system.replyServer.bytes == system.replyClient.bytes == []
  {
    testPkt.number := 0;
    StopRecord(n);
    system.Post(testPkt);
  }

  lemma StopRecord(n: uint32)
    requires n < 0xffff_ffff
    ensures C.TestHost(n).stop == Encode(Before(n).(number := 0)) && IsStop(C.TestHost(n).stop)
    ensures D.Fits(Before(n))
  {
    EncodeDecode(Before(n).(number := 0));
  }

  /** The record as the loop finds it after i transactions. */
  function Before(i: nat): Packet
    requires i < 0x1_0000_0000
  {
    if i == 0 then Packet(0, 0, 0, 0, 0, 0, Zeros(PAYLOAD)) else C.TestPacket(i - 1)
  }

  method Transactions(system: LocalSystem, testPkt: Transaction, tlpData: Transaction, n: uint32)
    returns (replies: seq<Packet>)
    requires system.Valid() && system.Quiet() && system.Outside(testPkt) && system.Outside(tlpData)
    requires testPkt != tlpData && testPkt.data != tlpData.data && n < 0xffff_ffff
    requires testPkt.Contents() == Before(0)
    modifies system.Repr(), testPkt, testPkt.data, tlpData, tlpData.data
    ensures system.Quiet() && testPkt.Contents() == Before(n)
    ensures system.served == old(system.served) + C.TestHost(n).requests
    ensures |replies| == n && forall i :: 0 <= i < n ==> replies[i] == Answer(C.TestPacket(i))
  {
    replies := [];
    ghost var script := C.TestHost(n).requests;
    var i := 0;
    while i < n
      invariant 0 <= i <= n && |replies| == i
      invariant system.Quiet() && testPkt.Contents() == Before(i)
      invariant system.served == old(system.served) + script[..i]
      invariant AllAnswers(replies)
    {
      var reply := Transact(system, testPkt, tlpData, i);
      OneMoreAnswer(replies, reply);
      replies := replies + [reply];
      OneMoreRequest(old(system.served), n, i);
      i := i + 1;
    }
    assert script[..n] == script;
  }

  ghost predicate AllAnswers(replies: seq<Packet>) {
    |replies| < 0xffff_ffff && forall i :: 0 <= i < |replies| ==> replies[i] == Answer(C.TestPacket(i))
  }

  lemma OneMoreAnswer(replies: seq<Packet>, reply: Packet)
    requires AllAnswers(replies) && |replies| + 1 < 0xffff_ffff && reply == Answer(C.TestPacket(|replies|))
    ensures AllAnswers(replies + [reply])
  {
  }

  lemma OneMoreRequest(start: seq<Image>, n: uint32, i: nat)
    requires n < 0xffff_ffff && i < n
    ensures var script := C.TestHost(n).requests;
            start + script[..i] + [Encode(C.TestPacket(i))] == start + script[..i + 1]
  {
    var script := C.TestHost(n).requests;
    assert script[i] == Encode(C.TestPacket(i));
    OneMore(start, script, i);
  }

  lemma OneMore(start: seq<Image>, all: seq<Image>, i: nat)
    requires i < |all|
    ensures start + all[..i] + [all[i]] == start + all[..i + 1]
  {
    assert all[..i] + [all[i]] == all[..i + 1];
  }

  /** The body of main()'s loop; the record still holds the transaction before. */
  method Transact(system: LocalSystem, testPkt: Transaction, tlpData: Transaction, i: nat) returns (reply: Packet)
    requires system.Valid() && system.Quiet() && system.Outside(testPkt) && system.Outside(tlpData)
    requires testPkt != tlpData && testPkt.data != tlpData.data && i + 1 < 0x1_0000_0000
    requires testPkt.Contents() == Before(i)
    modifies system.Repr(), testPkt, testPkt.data, tlpData, tlpData.data
    ensures system.Quiet() && testPkt.Contents() == C.TestPacket(i) && reply == Answer(C.TestPacket(i))
    ensures system.served == old(system.served) + [Encode(C.TestPacket(i))]
  {
    testPkt.number := i + 1;
    testPkt.kind := 1;
    testPkt.simType := 1;
    testPkt.r0w1 := i % 2;
    testPkt.size := 4;
    StoreWord(testPkt, 0xfacefeed);
    SameTail(old(testPkt.data[..]), 4);
    assert testPkt.Contents() == C.TestPacket(i);
    var retval := system.Exchange(testPkt, tlpData);
    reply := Packet(tlpData.number, tlpData.kind, tlpData.simType, tlpData.address,
                    tlpData.r0w1, tlpData.size, tlpData.data[..]);
  }

  /** Behind the word it stores the test host's payload stays zero. */
  lemma SameTail(data: seq<byte>, n: nat)
    requires n <= PAYLOAD
    requires data == Zeros(PAYLOAD) || exists w: seq<byte> :: |w| == n && data == w + Zeros(PAYLOAD - n)
    ensures data[n..] == Zeros(PAYLOAD - n)
  {
  }

  /** *(unsigned *) t->data = v */
  method StoreWord(t: Transaction, v: uint32)
    requires t.Valid()
    modifies t.data
    ensures t.data[..] == Digits(v, 4) + old(t.data[4..])
  {
    var bytes := Digits(v, 4);
    forall i | 0 <= i < 4 {
      t.data[i] := bytes[i];
    }
  }

  // ---- forward-receiver.c

  /** The attributes of one forwarder object. */
  class Forwarder {
    var dummyReturnValue: uint64
    var useRtl: bool
    var memAccessType: bool

    constructor ()
      ensures dummyReturnValue == DEFAULT_WORD && !useRtl && !memAccessType
    {
      dummyReturnValue, useRtl, memAccessType := DEFAULT_WORD, false, false;
    }

    ghost function Kind(): uint32
      reads this
    {
      if memAccessType then 2 else 1
    }
  }

  /** The module: its two packets and its packet counter serve all forwarder objects. */
  class ForwardReceiver {
    const cosim: Cosim
    const sendPkt: Transaction
    const replyPkt: Transaction

    ghost predicate Valid() {
      && cosim.Valid() && cosim.system.Outside(sendPkt) && cosim.system.Outside(replyPkt)
      && sendPkt != replyPkt && sendPkt.data != replyPkt.data
    }

    /** Between accesses: any number of them, by any forwarders, leave this true. */
    ghost predicate Ready()
      reads cosim, cosim.system, cosim.system.requestClient, cosim.system.requestServer
      reads cosim.system.replyServer, cosim.system.replyClient, cosim.system.device
    {
      cosim.Disciplined() && cosim.system.Quiet()
    }

    ghost function Repr(): set<object> {
      cosim.system.Repr() + {cosim, sendPkt, sendPkt.data, replyPkt, replyPkt.data}
    }

    constructor (cosim: Cosim)
      requires cosim.Valid()
      ensures Valid() && this.cosim == cosim
    {
      this.cosim := cosim;
      sendPkt := new Transaction();
      replyPkt := new Transaction();
    }

    /** A read of size bytes at addr. Without RTL it sees the lane of the dummy word. With RTL and
        an open pipe, exactly one more record reaches the device, a read of this address, of type
        2 if the forwarder is set to memory access and 1 otherwise, from origin 1, with no
        payload, under the next packet number; and the value is the device's counting pattern
        under that number. If the pipe cannot be opened it is zero. */
    method IssueRead(dev: Forwarder, addr: uint64, size: uint32, pipeOpens: bool) returns (value: nat)
      requires Valid() && Ready() && 1 <= size <= 8 && cosim.simicsPacketNo < INT_MAX && dev !in Repr()
      modifies Repr()
      ensures Ready()
      ensures var a := addr % 8;
              && (!dev.useRtl ==> value == Value(Digits(dev.dummyReturnValue, 8)[a..Min(8, a + size)]))
              && (dev.useRtl && pipeOpens ==>
                    value == Value(Pattern(old(cosim.simicsPacketNo), size, a, Min(8, a + size) - a)))
              && (dev.useRtl && !pipeOpens ==> value == 0)
      ensures value < Pow256(size)
      ensures !(dev.useRtl && pipeOpens) ==> cosim.system.served == old(cosim.system.served)
      ensures dev.useRtl && pipeOpens ==>
                var n := |old(cosim.system.served)|;
                && |cosim.system.served| == n + 1 && cosim.system.served[..n] == old(cosim.system.served)
                && var p := Decode(cosim.system.served[n]);
                   && p.number == old(cosim.simicsPacketNo) && p.kind == (if dev.memAccessType then 2 else 1)
                   && p.simType == 1 && p.address == addr && p.r0w1 == 0 && p.size == size
                   && p.data == Zeros(PAYLOAD)
    {
      WordOfDigits(dev.dummyReturnValue);
      ExtractIsLane(Digits(dev.dummyReturnValue, 8), addr, size);
      if dev.useRtl {
        ghost var number := cosim.simicsPacketNo;
        value := ReadThroughRtl(dev, addr, size, pipeOpens);
        RtlReadIsLane(replyPkt.Contents().data, addr, size);
        EchoRead(number, dev.Kind(), addr, size);
        RtlReadOfZeros(addr, size);
        EncodeDecode(ReadRequest(number, dev.Kind(), addr, size));
      } else {
        value := Extract(dev.dummyReturnValue, addr, size);
      }
    }

    /** Both packets are cleared and the request filled in. */
    method Prepare(dev: Forwarder, addr: uint64, size: uint32, r0w1: uint32)
      requires Valid() && dev !in Repr()
      modifies sendPkt, sendPkt.data, replyPkt, replyPkt.data
      ensures sendPkt.Contents() == Packet(0, dev.Kind(), 1, addr, r0w1, size, Zeros(PAYLOAD))
      ensures replyPkt.Contents() == Packet(0, 0, 0, 0, 0, 0, Zeros(PAYLOAD))
    {
      sendPkt.Clear();
      replyPkt.Clear();
      sendPkt.kind := if !dev.memAccessType then 1 else 2;
      sendPkt.simType := 1;
      sendPkt.address := addr;
      sendPkt.r0w1 := r0w1;
      sendPkt.size := size;
    }

    method ReadThroughRtl(dev: Forwarder, addr: uint64, size: uint32, pipeOpens: bool) returns (value: nat)
      requires Valid() && Ready() && 1 <= size <= 8 && cosim.simicsPacketNo < INT_MAX && dev !in Repr()
      modifies Repr()
      ensures Ready()
      ensures value == RtlRead(replyPkt.Contents().data, addr, size)
      ensures replyPkt.Contents().data ==
              if pipeOpens then Answer(ReadRequest(old(cosim.simicsPacketNo), dev.Kind(), addr, size)).data
              else Zeros(PAYLOAD)
      ensures cosim.system.served == old(cosim.system.served) +
                if pipeOpens then [Encode(ReadRequest(old(cosim.simicsPacketNo), dev.Kind(), addr, size))] else []
    {
      Prepare(dev, addr, size, 0);
      var ret := cosim.SendAccess(sendPkt, replyPkt, pipeOpens, false);
      value := RtlRead(replyPkt.data[..], addr, size);
    }

    method PrepareWrite(dev: Forwarder, addr: uint64, size: uint32, value: uint64)
      requires Valid() && dev !in Repr()
      modifies sendPkt, sendPkt.data, replyPkt, replyPkt.data
      ensures sendPkt.Contents() == WriteRequest(0, dev.Kind(), addr, size, value)
    {
      Prepare(dev, addr, size, 1);
      SameTail(sendPkt.data[..], 8);
      StoreLong(sendPkt, value);
    }

    method WriteThroughRtl(dev: Forwarder, addr: uint64, size: uint32, value: uint64, pipeOpens: bool)
      requires Valid() && Ready() && 1 <= size <= 8 && cosim.simicsPacketNo < INT_MAX && dev !in Repr()
      modifies Repr()
      ensures Ready()
      ensures var request := WriteRequest(old(cosim.simicsPacketNo), dev.Kind(), addr, size, value);
              cosim.system.served == old(cosim.system.served) + if pipeOpens then [Encode(request)] else []
    {
      PrepareWrite(dev, addr, size, value);
      var ret := cosim.SendAccess(sendPkt, replyPkt, pipeOpens, false);
    }

    /** A write of size bytes at addr: with RTL and an open pipe, exactly one more record reaches
        the device; it is a write to this address, of type 2 if the forwarder is set to memory
        access and 1 otherwise, from origin 1, under the next packet number. Its payload is the
        whole value, so that the first size bytes are the value modulo 256^size. */
    method IssueWrite(dev: Forwarder, addr: uint64, size: uint32, value: uint64, pipeOpens: bool)
      requires Valid() && Ready() && 1 <= size <= 8 && cosim.simicsPacketNo < INT_MAX && dev !in Repr()
      modifies Repr()
      ensures Ready()
      ensures !(dev.useRtl && pipeOpens) ==> cosim.system.served == old(cosim.system.served)
      ensures dev.useRtl && pipeOpens ==>
                var n := |old(cosim.system.served)|;
                && |cosim.system.served| == n + 1 && cosim.system.served[..n] == old(cosim.system.served)
                && var p := Decode(cosim.system.served[n]);
                   && p.number == old(cosim.simicsPacketNo) && p.kind == (if dev.memAccessType then 2 else 1)
                   && p.simType == 1 && p.address == addr && p.r0w1 == 1 && p.size == size
                   && Value(p.data[..8]) == value && p.data[8..] == Zeros(PAYLOAD - 8)
                   && Value(p.data[..size]) == value % Pow256(size)
    {
      if dev.useRtl {
        ghost var number := cosim.simicsPacketNo;
        WriteThroughRtl(dev, addr, size, value, pipeOpens);
        WriteFidelity(number, dev.Kind(), addr, size, value);
      }
    }
  }

  /** The echo device keeps nothing: whatever accesses there were before, writes to the same
      place among them, a read through it returns the counting pattern of its own number. */
  lemma EchoForgets(before: seq<Image>, number: uint32, kind: uint32, addr: uint64, size: uint32)
    requires 1 <= size <= 8 && number != 0
    requires forall i :: 0 <= i < |before| ==> !IsStop(before[i])
    ensures var replies := D.Replies(before + [Encode(ReadRequest(number, kind, addr, size))]);
            && |replies| == |before| + 1
            && var a := addr % 8;
               RtlRead(Decode(replies[|before|]).data, addr, size) ==
               Value(Pattern(number, size, a, Min(8, a + size) - a))
  {
    var p := ReadRequest(number, kind, addr, size);
    EncodeDecode(p);
    EncodeDecode(Answer(p));
    D.RepliesGrow(before, Encode(p));
    OneReplyEach(before);
    EchoRead(number, kind, addr, size);
  }

  lemma {:induction false} OneReplyEach(requests: seq<Image>)
    requires forall i :: 0 <= i < |requests| ==> !IsStop(requests[i])
    ensures |D.Replies(requests)| == |requests|
  {
    if requests != [] {
      OneReplyEach(requests[1..]);
    }
  }

  lemma RtlReadOfZeros(addr: nat, size: nat)
    requires 1 <= size <= 8
    ensures RtlRead(Zeros(PAYLOAD), addr, size) == 0
  {
    RtlReadIsLane(Zeros(PAYLOAD), addr, size);
    ValueOfZeros(Zeros(PAYLOAD)[addr % 8..Min(8, addr % 8 + size)]);
  }

  /** memcpy(&t->data[0], &v, sizeof(uint64)) */
  method StoreLong(t: Transaction, v: uint64)
    requires t.Valid()
    modifies t.data
    ensures t.data[..] == Digits(v, 8) + old(t.data[8..])
  {
    var bytes := Digits(v, 8);
    forall i | 0 <= i < 8 {
      t.data[i] := bytes[i];
    }
  }
}
