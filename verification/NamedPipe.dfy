/** The FIFOs of cxl_relay/named_pipe.c and the records that are written to and read from them.
    A write of one record is atomic; a read waits until there is something. */
module NamedPipe {
  import opened Bytes
  import opened Packets
  import opened Framing

  /** A simics_transaction_t in memory, changed field by field and reused. */
  class Transaction {
    var number: uint32
    var kind: uint32
    var simType: uint32
    var address: uint64
    var r0w1: uint32
    var size: uint32
    const data: array<byte>

    ghost predicate Valid() {
      data.Length == PAYLOAD
    }

    /** The record's value. */
    ghost function Contents(): Packet
      reads this, data
      requires Valid()
    {
      Packet(number, kind, simType, address, r0w1, size, data[..])
    }

    /** Static storage: all zero. */
    constructor ()
      ensures Valid() && fresh(data)
      ensures Contents() == Packet(0, 0, 0, 0, 0, 0, Zeros(PAYLOAD))
    {
      number, kind, simType, address, r0w1, size := 0, 0, 0, 0, 0, 0;
      data := new byte[PAYLOAD](_ => 0);
    }

    /** memset(t, 0, sizeof *t) */
    method Clear()
      requires Valid()
      modifies this, data
      ensures Contents() == Packet(0, 0, 0, 0, 0, 0, Zeros(PAYLOAD))
    {
      number, kind, simType, address, r0w1, size := 0, 0, 0, 0, 0, 0;
      forall i | 0 <= i < data.Length {
        data[i] := 0;
      }
    }

    /** memcpy(data, from.data, n) */
    method CopyData(from: Transaction, n: nat)
      requires Valid() && from.Valid() && n <= PAYLOAD && from.data != data
      modifies data
      ensures data[..] == from.data[..n] + old(data[n..])
    {
      forall i | 0 <= i < n {
        data[i] := from.data[i];
      }
    }

    /** The bytes of img land in the record. */
    method Load(img: Image)
      requires Valid()
      modifies this, data
      ensures Contents() == Decode(img)
    {
      var p := Decode(img);
      number, kind, simType, address := p.number, p.kind, p.simType, p.address;
      r0w1, size := p.r0w1, p.size;
      forall i | 0 <= i < data.Length {
        data[i] := p.data[i];
      }
      assert data[..] == p.data;
    }
  }

  class Pipe {
    /** What has been written and not yet read. */
    var bytes: seq<byte>

    constructor ()
      ensures bytes == []
    {
      bytes := [];
    }

    /** write(pipe, buf, sizeof(simics_transaction_t)): all of the record, or nothing of it if the
        system call fails. */
    method Write(buf: array<byte>, succeeds: bool) returns (ok: bool)
      requires buf.Length == RECORD
      modifies this
      ensures ok == succeeds && bytes == old(bytes) + if succeeds then buf[..] else []
    {
      if !succeeds {
        return false;
      }
      bytes := bytes + buf[..];
      return true;
    }

    /** read(pipe, buf, sizeof(simics_transaction_t)), once there is something to read. What
        the pipe could not fill keeps its old contents. */
    method Read(buf: array<byte>) returns (size: int)
      requires buf.Length == RECORD && bytes != []
      modifies this, buf
      ensures size == ReadSize(old(bytes)) && bytes == old(bytes)[size..]
      ensures buf[..] == Overlay(old(bytes)[..size], old(buf[..]))
    {
      size := ReadSize(bytes);
      forall i | 0 <= i < size {
        buf[i] := bytes[i];
      }
      bytes := bytes[size..];
    }

    method Send(t: Transaction, succeeds: bool) returns (ok: bool)
      requires t.Valid()
      modifies this
      ensures ok == succeeds && bytes == old(bytes) + if succeeds then Encode(t.Contents()) else []
    {
      if !succeeds {
        return false;
      }
      ghost var p := t.Contents();
      bytes := bytes + Encode(Packet(t.number, t.kind, t.simType, t.address, t.r0w1, t.size, t.data[..]));
      return true;
    }

    method Receive(t: Transaction) returns (size: int)
      requires t.Valid() && bytes != []
      modifies this, t, t.data
      ensures size == ReadSize(old(bytes)) && bytes == old(bytes)[size..]
      ensures t.Contents() == Decode(Overlay(old(bytes)[..size], Encode(old(t.Contents()))))
    {
      size := ReadSize(bytes);
      var was := Encode(Packet(t.number, t.kind, t.simType, t.address, t.r0w1, t.size, t.data[..]));
      t.Load(Overlay(bytes[..size], was));
      bytes := bytes[size..];
    }
  }

  /** An aligned pipe that is not empty gives up exactly its first record, whatever was in the
      buffer. */
  lemma WholeRecord(bytes: seq<byte>, stale: Image)
    requires Aligned(bytes) && bytes != []
    ensures ReadSize(bytes) == RECORD && Aligned(bytes[RECORD..])
    ensures Overlay(bytes[..RECORD], stale) == bytes[..RECORD] == Chunks(bytes)[0]
    ensures Chunks(bytes[RECORD..]) == Chunks(bytes)[1..]
  {
    assert bytes[..RECORD] + stale[RECORD..] == bytes[..RECORD];
  }
}
