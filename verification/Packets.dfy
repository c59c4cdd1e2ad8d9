/** The transaction record (cxl_relay/cxl_tlp_fifo.h), its image in memory, and the
    answer the echo device gives to it. */
module Packets {
  import opened Bytes

  /** sizeof(simics_transaction_t) on x86-64: 12 bytes of fields, 4 of padding, 8, 4, 4, 256. */
  const RECORD := 288
  const PAYLOAD := 256

  type Payload = d: seq<byte> | |d| == PAYLOAD witness seq(PAYLOAD, _ => 0)
  type Image = b: seq<byte> | |b| == RECORD witness seq(RECORD, _ => 0)

  datatype Packet = Packet(number: uint32, kind: uint32, simType: uint32, address: uint64,
                           r0w1: uint32, size: uint32, data: Payload)

  /** A 32-bit field of a record image. */
  function Field32(img: Image, at: nat): uint32
    requires at + 4 <= RECORD
  {
    FieldWidths();
    Value(img[at..at + 4])
  }

  function Field64(img: Image, at: nat): uint64
    requires at + 8 <= RECORD
  {
    FieldWidths();
    Value(img[at..at + 8])
  }

  /** The record as it lies in memory, with padding bytes zero. */
  function Encode(p: Packet): Image {
    Digits(p.number, 4) + Digits(p.kind, 4) + Digits(p.simType, 4) + [0, 0, 0, 0]
    + Digits(p.address, 8) + Digits(p.r0w1, 4) + Digits(p.size, 4) + p.data
  }

  /** The fields of a record image; the padding is ignored. */
  function Decode(img: Image): Packet {
    Packet(Field32(img, 0), Field32(img, 4), Field32(img, 8), Field64(img, 16),
           Field32(img, 24), Field32(img, 28), img[32..])
  }

  /** The record as the compiler lays the struct out: where each field of any record lies in its
      image, and four bytes of padding. */
  lemma Layout(p: Packet)
    ensures var img := Encode(p);
            && Value(img[0..4]) == p.number && Value(img[4..8]) == p.kind && Value(img[8..12]) == p.simType
            && img[12..16] == Zeros(4) && Value(img[16..24]) == p.address
            && Value(img[24..28]) == p.r0w1 && Value(img[28..32]) == p.size && img[32..] == p.data
    ensures IsStop(Encode(p)) <==> p.number == 0
  {
    FieldWidths();
    var img := Encode(p);
    assert img[0..4] == Digits(p.number, 4);
    assert img[4..8] == Digits(p.kind, 4);
    assert img[8..12] == Digits(p.simType, 4);
    assert img[16..24] == Digits(p.address, 8);
    assert img[24..28] == Digits(p.r0w1, 4);
    assert img[28..32] == Digits(p.size, 4);
    SmallDigits(p.number, 4);
    SmallDigits(p.kind, 4);
    SmallDigits(p.simType, 4);
    SmallDigits(p.address, 8);
    SmallDigits(p.r0w1, 4);
    SmallDigits(p.size, 4);
  }

  /** And where decoding finds the fields in any image. */
  lemma DecodedLayout(img: Image)
    ensures var p := Decode(img);
            && p.number == Value(img[0..4]) && p.kind == Value(img[4..8]) && p.simType == Value(img[8..12])
            && p.address == Value(img[16..24]) && p.r0w1 == Value(img[24..28]) && p.size == Value(img[28..32])
            && p.data == img[32..]
    ensures IsStop(img) <==> Decode(img).number == 0
  {
  }

  lemma SmallDigits(v: nat, n: nat)
    requires v < Pow256(n)
    ensures Value(Digits(v, n)) == v
  {
    ValueOfDigits(v, n);
  }

  /** Every record survives the trip through its image. */
  lemma EncodeDecode(p: Packet)
    ensures Decode(Encode(p)) == p
  {
    Layout(p);
    DecodedLayout(Encode(p));
  }

  lemma Seam(s: seq<byte>, i: nat, j: nat, k: nat)
    requires i <= j <= k <= |s|
    ensures s[i..j] + s[j..k] == s[i..k]
  {
  }

  lemma Regroup(a: seq<byte>, b: seq<byte>, c: seq<byte>, d: seq<byte>, e: seq<byte>)
    ensures a + b + c + d + e == a + (b + c + d + e)
  {
  }

  /** Decoding an image and encoding it again changes nothing but the padding, which becomes
      zero, as it is in every buffer of the program (all are static or cleared by memset). */
  lemma DecodeEncode(img: Image)
    ensures Encode(Decode(img)) == img[..12] + [0, 0, 0, 0] + img[16..]
  {
    FieldsBack(img);
    Seam(img, 0, 4, 8);
    Seam(img, 0, 8, 12);
    Seam(img, 16, 24, 28);
    Seam(img, 16, 28, 32);
    Seam(img, 16, 32, RECORD);
    Regroup(img[0..12] + [0, 0, 0, 0], img[16..24], img[24..28], img[28..32], img[32..RECORD]);
  }

  lemma FieldsBack(img: Image)
    ensures var p := Decode(img);
            Encode(p) == img[0..4] + img[4..8] + img[8..12] + [0, 0, 0, 0]
                         + img[16..24] + img[24..28] + img[28..32] + img[32..RECORD]
  {
    DigitsOfValue(img[0..4]);
    DigitsOfValue(img[4..8]);
    DigitsOfValue(img[8..12]);
    DigitsOfValue(img[16..24]);
    DigitsOfValue(img[24..28]);
    DigitsOfValue(img[28..32]);
  }

  /** The device ends the simulation on packet number 0 (cxl_relay/dpi_sv.sv:47, 68). */
  predicate IsStop(img: Image) {
    Field32(img, 0) == 0
  }

  /** What the host is promised in reply to p: the request's identity, r0w1 cleared,
      a counting pattern for a read, the request's own data for a write, zeros behind. */
  function Answer(p: Packet): Packet {
    p.(r0w1 := 0, data := seq(PAYLOAD, i requires 0 <= i < PAYLOAD => AnswerByte(p, i)))
  }

  function AnswerByte(p: Packet, i: nat): byte
    requires i < PAYLOAD
  {
    if i >= p.size then 0 else if p.r0w1 == 0 then (p.number + i) % 256 else p.data[i]
  }

  /** The device's reply to a request image. */
  function Reply(img: Image): Image {
    Encode(Answer(Decode(img)))
  }

  /** A reply can be told to belong to its request by number, type, origin, address and size,
      although no code compares them; its data is the counting pattern or the request's own,
      and zeros behind. */
  lemma ReplyIdentifiesRequest(img: Image)
    ensures var reply, request := Decode(Reply(img)), Decode(img);
            && reply.number == request.number && reply.kind == request.kind
            && reply.simType == request.simType && reply.address == request.address
            && reply.size == request.size && reply.r0w1 == 0
            && forall i :: 0 <= i < PAYLOAD ==>
                 reply.data[i] == if i >= request.size then 0
                                  else if request.r0w1 == 0 then (request.number + i) % 256 else request.data[i]
    ensures IsStop(Reply(img)) == IsStop(img)
  {
    EncodeDecode(Answer(Decode(img)));
  }
}
