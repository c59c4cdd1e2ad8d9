/** The 64-bit lane arithmetic of issue() (modules/forward-receiver/forward-receiver.c): C's
    unsigned shifts and masks, and what they mean for bytes. */
module Lanes {
  import opened Bytes
  import opened Packets

  function Pow2(n: nat): (p: nat)
    ensures p > 0
  {
    if n == 0 then 1 else 2 * Pow2(n - 1)
  }

  /** x >> n for unsigned x. */
  function Shr(x: nat, n: nat): nat {
    QuotientNatural(x, Pow2(n));
    x / Pow2(n)
  }

  lemma QuotientNatural(x: nat, d: nat)
    requires d > 0
    ensures x / d >= 0
  {
  }

  /** x & y, bit by bit. */
  function And(x: nat, y: nat): nat {
    if x == 0 then 0 else (if x % 2 == 1 && y % 2 == 1 then 1 else 0) + 2 * And(x / 2, y / 2)
  }

  const ONES: uint64 := 0xffff_ffff_ffff_ffff

  /** What issue() makes of a 64-bit word for a read of size bytes at addr. */
  function Extract(word: uint64, addr: nat, size: nat): nat
    requires 1 <= size <= 8
  {
    var mask := Shr(ONES, 64 - size * 8);
    var align := And(addr, 7);
    And(Shr(word, align * 8), mask)
  }

  // ---- Shifts and masks as arithmetic

  lemma {:induction false} AndMask(x: nat, n: nat)
    ensures And(x, Pow2(n) - 1) == x % Pow2(n)
    decreases n
  {
    if n == 0 {
      AndZero(x);
    } else if x != 0 {
      AndMask(x / 2, n - 1);
      HalfStep(x, Pow2(n - 1));
      HalfMask(Pow2(n - 1));
    }
  }

  lemma HalfMask(p: nat)
    requires p > 0
    ensures (2 * p - 1) % 2 == 1 && (2 * p - 1) / 2 == p - 1
  {
  }

  lemma HalfStep(x: nat, p: nat)
    requires p > 0
    ensures x % (2 * p) == x % 2 + 2 * (x / 2 % p)
  {
    var q, r := x / 2 / p, x / 2 % p;
    assert x / 2 == q * p + r;
    MulAssoc(2, q, p);
    MulAssoc(q, 2, p);
    DivModUnique(x, 2 * p, q, x % 2 + 2 * r);
  }

  lemma MulAssoc(a: int, b: int, c: int)
    ensures a * b * c == a * (b * c)
  {
  }

  lemma {:induction false} AndZero(x: nat)
    ensures And(x, 0) == 0
  {
    if x != 0 {
      AndZero(x / 2);
    }
  }

  lemma {:induction false} Pow2OfBytes(k: nat)
    ensures Pow2(8 * k) == Pow256(k)
  {
    if k > 0 {
      Pow2OfBytes(k - 1);
      Pow2Add(8, 8 * (k - 1));
      assert Pow2(8) == 256 by {
        assert Pow2(4) == 16;
      }
    }
  }

  lemma {:induction false} Pow2Add(m: nat, n: nat)
    ensures Pow2(m + n) == Pow2(m) * Pow2(n)
  {
    if m > 0 {
      Pow2Add(m - 1, n);
      MulAssoc(2, Pow2(m - 1), Pow2(n));
    }
  }

  /** 0xffffffffffffffff >> (64 - 8 size) has exactly the 8 size lowest bits set. */
  lemma MaskValue(size: nat)
    requires 1 <= size <= 8
    ensures Shr(ONES, 64 - size * 8) == Pow2(8 * size) - 1
  {
    var hi, lo := Pow2(8 * size), Pow2(64 - 8 * size);
    Pow2Add(8 * size, 64 - 8 * size);
    Pow2OfBytes(8);
    FieldWidths();
    assert ONES == hi * lo - 1;
    assert (hi - 1) * lo + (lo - 1) == hi * lo - 1;
    DivModUnique(ONES, lo, hi - 1, lo - 1);
  }

  lemma ShrIsDivision(x: nat, k: nat)
    ensures Shr(x, k * 8) == x / Pow256(k)
  {
    Pow2OfBytes(k);
  }

  lemma MaskIsRemainder(x: nat, size: nat)
    requires 1 <= size <= 8
    ensures And(x, Shr(ONES, 64 - size * 8)) == x % Pow256(size)
  {
    MaskValue(size);
    AndMask(x, 8 * size);
    Pow2OfBytes(size);
  }

  lemma AlignIsRemainder(addr: nat)
    ensures And(addr, 7) == addr % 8
  {
    AndMask(addr, 3);
    assert Pow2(3) == 8;
  }

  lemma ExtractIsArithmetic(word: uint64, addr: nat, size: nat)
    requires 1 <= size <= 8
    ensures Extract(word, addr, size) == word / Pow256(addr % 8) % Pow256(size)
  {
    AlignIsRemainder(addr);
    ShrIsDivision(word, addr % 8);
    MaskIsRemainder(Shr(word, addr % 8 * 8), size);
  }

  function Min(a: int, b: int): int {
    if a < b then a else b
  }

  /** Lane extraction: a read sees the bytes of its lane from its own offset on, as many as it
      asked for or the lane still has, zero-extended. */
  lemma ExtractIsLane(lane: seq<byte>, addr: nat, size: nat)
    requires |lane| == 8 && 1 <= size <= 8
    ensures Value(lane) < 0x1_0000_0000_0000_0000
    ensures var a := addr % 8; Extract(Value(lane), addr, size) == Value(lane[a..Min(8, a + size)])
    ensures Extract(Value(lane), addr, size) < Pow256(size)
  {
    FieldWidths();
    var a := addr % 8;
    ExtractIsArithmetic(Value(lane), addr, size);
    DropIsDivision(lane, a);
    if a + size <= 8 {
      TakeIsRemainder(lane[a..], size);
      assert lane[a..][..size] == lane[a..a + size];
    } else {
      PowMonotone(8 - a, size);
      assert lane[a..] == lane[a..8];
      DivModUnique(Value(lane[a..]), Pow256(size), 0, Value(lane[a..]));
    }
  }

  lemma {:induction false} PowMonotone(m: nat, n: nat)
    requires m <= n
    ensures Pow256(m) <= Pow256(n)
  {
    if m < n {
      PowMonotone(m, n - 1);
    }
  }

  // ---- Reads without RTL: the dummy word, repeated over the whole address space

  function StreamByte(word: uint64, addr: nat): byte {
    Digits(word, 8)[addr % 8]
  }

  /** Byte-by-byte contents of the address range, read from the repeating dummy word. */
  function Stream(word: uint64, addr: nat, n: nat): seq<byte> {
    seq<byte>(n, i requires 0 <= i < n => StreamByte(word, addr + i))
  }

  /** The bytes one access delivers (SIM_set_transaction_value_le). */
  function Access(word: uint64, addr: nat, size: nat): seq<byte>
    requires 1 <= size <= 8
  {
    Digits(Extract(word, addr, size), size)
  }

  lemma {:induction false} DigitsOfPadded(bs: seq<byte>, n: nat)
    requires |bs| <= n
    ensures Digits(Value(bs), n) == bs + Zeros(n - |bs|)
    decreases n
  {
    if bs == [] {
      DigitsOfZero(n);
    } else {
      DivModUnique(Value(bs), 256, Value(bs[1..]), bs[0]);
      DigitsOfPadded(bs[1..], n - 1);
      assert bs == [bs[0]] + bs[1..];
    }
  }

  lemma {:induction false} DigitsOfZero(n: nat)
    ensures Digits(0, n) == Zeros(n)
  {
    if n > 0 {
      DigitsOfZero(n - 1);
    }
  }

  lemma AccessOfLane(lane: seq<byte>, addr: nat, size: nat)
    requires |lane| == 8 && 1 <= size <= 8
    ensures Value(lane) < 0x1_0000_0000_0000_0000
    ensures var a := addr % 8;
            Access(Value(lane), addr, size) == lane[a..Min(8, a + size)] + Zeros(size - (Min(8, a + size) - a))
  {
    ExtractIsLane(lane, addr, size);
    DigitsOfPadded(lane[addr % 8..Min(8, addr % 8 + size)], size);
  }

  /** An access delivers its lane's bytes and then zeros: past the end of the lane it does not
      go on to the next word. */
  lemma AccessBytes(word: uint64, addr: nat, size: nat)
    requires 1 <= size <= 8
    ensures forall i :: 0 <= i < size ==>
              Access(word, addr, size)[i] == if addr % 8 + i < 8 then StreamByte(word, addr + i) else 0
  {
    var lane := Digits(word, 8);
    WordOfDigits(word);
    AccessOfLane(lane, addr, size);
    forall i | 0 <= i < size
      ensures Access(word, addr, size)[i] == if addr % 8 + i < 8 then StreamByte(word, addr + i) else 0
    {
      SameLane(addr, i);
    }
  }

  lemma WordOfDigits(word: uint64)
    ensures Value(Digits(word, 8)) == word
  {
    FieldWidths();
    ValueOfDigits(word, 8);
  }

  lemma SameLane(addr: nat, i: nat)
    ensures addr % 8 + i < 8 ==> (addr + i) % 8 == addr % 8 + i
  {
  }

  /** Every byte of the access that lies beyond the end of its lane is zero in the stream. */
  predicate ZeroBeyondLane(word: uint64, addr: nat, size: nat) {
    forall k :: addr - addr % 8 + 8 <= k < addr + size ==> StreamByte(word, k) == 0
  }

  /** A single access agrees with the byte stream exactly when every byte it would need from
      beyond its lane is zero; so it always does when it stays inside the lane. */
  lemma AccessAgrees(word: uint64, addr: nat, size: nat)
    requires 1 <= size <= 8
    ensures Access(word, addr, size) == Stream(word, addr, size) <==> ZeroBeyondLane(word, addr, size)
  {
    if ZeroBeyondLane(word, addr, size) {
      AgreesWhenZero(word, addr, size);
    } else {
      var k :| addr - addr % 8 + 8 <= k < addr + size && StreamByte(word, k) != 0;
      DiffersBeyondLane(word, addr, size, k - addr);
    }
  }

  lemma DiffersBeyondLane(word: uint64, addr: nat, size: nat, i: nat)
    requires 1 <= size <= 8 && addr % 8 + i >= 8 && i < size && StreamByte(word, addr + i) != 0
    ensures Access(word, addr, size) != Stream(word, addr, size)
  {
    AccessBytes(word, addr, size);
    assert Access(word, addr, size)[i] == 0;
    assert Stream(word, addr, size)[i] == StreamByte(word, addr + i);
  }

  lemma AgreesWhenZero(word: uint64, addr: nat, size: nat)
    requires 1 <= size <= 8 && ZeroBeyondLane(word, addr, size)
    ensures Access(word, addr, size) == Stream(word, addr, size)
  {
    AccessBytes(word, addr, size);
    forall i | 0 <= i < size
      ensures Access(word, addr, size)[i] == Stream(word, addr, size)[i]
    {
      if addr % 8 + i >= 8 {
        assert StreamByte(word, addr + i) == 0;
      }
    }
  }

  /** dummy_return_value as init_object() sets it. */
  const DEFAULT_WORD: uint64 := 0xfedc_ba98_7654_3210

  /** Its bytes, over the whole address space: 0x10, 0x32, and so on to 0xfe in each lane. */
  lemma DefaultBytes(word: uint64, addr: nat)
    requires word == DEFAULT_WORD
    ensures StreamByte(word, addr) == 0x10 + 0x22 * (addr % 8)
  {
    var lane := DefaultLane();
    DefaultValue();
    DigitsOfValue(lane);
    LaneBytes(addr % 8);
  }

  lemma LaneBytes(k: nat)
    requires k < 8
    ensures DefaultLane()[k] == 0x10 + 0x22 * k
  {
  }

  function DefaultLane(): seq<byte> {
    [0x10, 0x32, 0x54, 0x76, 0x98, 0xba, 0xdc, 0xfe]
  }

  lemma DefaultValue()
    ensures Value(DefaultLane()) == DEFAULT_WORD
  {
    var lane := DefaultLane();
    assert Value(lane[8..]) == 0;
    assert lane[7..][1..] == lane[8..] && Value(lane[7..]) == 0xfe;
    assert lane[6..][1..] == lane[7..] && Value(lane[6..]) == 0xfedc;
    assert lane[5..][1..] == lane[6..] && Value(lane[5..]) == 0xfe_dcba;
    assert lane[4..][1..] == lane[5..] && Value(lane[4..]) == 0xfedc_ba98;
    assert lane[3..][1..] == lane[4..] && Value(lane[3..]) == 0xfe_dcba_9876;
    assert lane[2..][1..] == lane[3..] && Value(lane[2..]) == 0xfedc_ba98_7654;
    assert lane[1..][1..] == lane[2..] && Value(lane[1..]) == 0xfe_dcba_9876_5432;
  }

  /** Unless its lowest byte is zero, as that of the default word is not, no access that leaves
      its lane agrees with the stream. */
  lemma LeavingTheLane(word: uint64, addr: nat, size: nat)
    requires 1 <= size <= 8 && word % 256 != 0
    ensures Access(word, addr, size) == Stream(word, addr, size) <==> addr % 8 + size <= 8
  {
    AccessAgrees(word, addr, size);
    BeyondLane(word, addr, size);
  }

  lemma BeyondLane(word: uint64, addr: nat, size: nat)
    requires 1 <= size <= 8 && word % 256 != 0
    ensures ZeroBeyondLane(word, addr, size) <==> addr % 8 + size <= 8
  {
    var next := addr - addr % 8 + 8;
    LowestByte(word, next);
    assert addr % 8 + size <= 8 <==> addr + size <= next;
  }

  lemma LowestByte(word: uint64, addr: nat)
    requires addr % 8 == 0
    ensures StreamByte(word, addr) == word % 256
  {
  }

  function Sum(sizes: seq<nat>): nat {
    if sizes == [] then 0 else sizes[0] + Sum(sizes[1..])
  }

  /** Accesses one behind the other from addr on, each of 1 to 8 bytes inside one lane. */
  predicate InLanes(addr: nat, sizes: seq<nat>)
    decreases |sizes|
  {
    sizes == [] || (1 <= sizes[0] && addr % 8 + sizes[0] <= 8 && InLanes(addr + sizes[0], sizes[1..]))
  }

  function Accesses(word: uint64, addr: nat, sizes: seq<nat>): seq<byte>
    requires InLanes(addr, sizes)
    decreases |sizes|
  {
    if sizes == [] then [] else Access(word, addr, sizes[0]) + Accesses(word, addr + sizes[0], sizes[1..])
  }

  /** Split-read consistency: however a range is cut into accesses that stay inside their lanes,
      the bytes read are the same. */
  lemma {:induction false} SplitReads(word: uint64, addr: nat, sizes: seq<nat>)
    requires InLanes(addr, sizes)
    ensures Accesses(word, addr, sizes) == Stream(word, addr, Sum(sizes))
    decreases |sizes|
  {
    if sizes != [] {
      AccessAgrees(word, addr, sizes[0]);
      SplitReads(word, addr + sizes[0], sizes[1..]);
      var n, m := sizes[0], Sum(sizes[1..]);
      assert Stream(word, addr, n + m) == Stream(word, addr, n) + Stream(word, addr + n, m);
    }
  }

  // ---- Reads through the RTL: the first eight bytes of the reply

  function RtlRead(reply: Payload, addr: nat, size: nat): nat
    requires 1 <= size <= 8
  {
    FieldWidths();
    Extract(Value(reply[..8]), addr, size)
  }

  /** The RTL path meets the same specification as the dummy path, on the reply's bytes. */
  lemma RtlReadIsLane(reply: Payload, addr: nat, size: nat)
    requires 1 <= size <= 8
    ensures var a := addr % 8; RtlRead(reply, addr, size) == Value(reply[a..Min(8, a + size)])
    ensures RtlRead(reply, addr, size) < Pow256(size)
  {
    ExtractIsLane(reply[..8], addr, size);
    var a := addr % 8;
    SliceOfSlice(reply, 8, a, Min(8, a + size));
  }

  lemma SliceOfSlice(s: seq<byte>, n: nat, i: nat, j: nat)
    requires i <= j <= n <= |s|
    ensures s[..n][i..j] == s[i..j]
  {
  }

  /** The reply carries the addressed bytes from byte 0 on, but the read looks for them from
      byte addr & 7 on: it delivers the payload of every reply only at aligned addresses. */
  lemma RtlReadNeedsAlignment(addr: nat, size: nat)
    requires 1 <= size <= 8
    ensures (forall reply: Payload :: RtlRead(reply, addr, size) == Value(reply[..size])) <==> addr % 8 == 0
  {
    forall reply: Payload | addr % 8 == 0
      ensures RtlRead(reply, addr, size) == Value(reply[..size])
    {
      RtlReadIsLane(reply, addr, size);
      assert reply[0..size] == reply[..size];
    }
    if addr % 8 != 0 {
      var reply: Payload := [1] + Zeros(PAYLOAD - 1);
      RtlReadIsLane(reply, addr, size);
      var a := addr % 8;
      ValueOfZeros(reply[a..Min(8, a + size)]);
      ValueOfZeros(reply[..size][1..]);
      assert RtlRead(reply, addr, size) == 0 && Value(reply[..size]) == 1;
    }
  }

  lemma {:induction false} ValueOfZeros(bs: seq<byte>)
    requires forall i :: 0 <= i < |bs| ==> bs[i] == 0
    ensures Value(bs) == 0
  {
    if bs != [] {
      ValueOfZeros(bs[1..]);
    }
  }

  // ---- Requests

  function ReadRequest(number: uint32, kind: uint32, addr: uint64, size: uint32): Packet {
    Packet(number, kind, 1, addr, 0, size, Zeros(PAYLOAD))
  }

  /** The value goes to byte 0 of the payload whatever the address. */
  function WriteRequest(number: uint32, kind: uint32, addr: uint64, size: uint32, value: uint64): Packet {
    Packet(number, kind, 1, addr, 1, size, Digits(value, 8) + Zeros(PAYLOAD - 8))
  }

  /** Write fidelity: in the record that leaves the host, and so in the one the device decodes,
      the first size bytes are the value modulo 256^size, at the right address and of the
      right type. */
  lemma WriteFidelity(number: uint32, kind: uint32, addr: uint64, size: uint32, value: uint64)
    requires 1 <= size <= 8
    ensures var p := Decode(Encode(WriteRequest(number, kind, addr, size, value)));
            && p.number == number && p.kind == kind && p.simType == 1 && p.address == addr
            && p.r0w1 == 1 && p.size == size && Value(p.data[..size]) == value % Pow256(size)
            && Value(p.data[..8]) == value && p.data[8..] == Zeros(PAYLOAD - 8)
  {
    var p := WriteRequest(number, kind, addr, size, value);
    EncodeDecode(p);
    PayloadOfWrite(number, kind, addr, size, value);
    assert p.data[..8] == Digits(value, 8) && p.data[8..] == Zeros(PAYLOAD - 8);
    WordOfDigits(value);
  }

  lemma PayloadOfWrite(number: uint32, kind: uint32, addr: uint64, size: uint32, value: uint64)
    requires 1 <= size <= 8
    ensures Value(WriteRequest(number, kind, addr, size, value).data[..size]) == value % Pow256(size)
  {
    assert WriteRequest(number, kind, addr, size, value).data[..size] == Digits(value, 8)[..size];
    DigitsPrefix(value, 8, size);
    ValueOfDigits(value, size);
  }

  lemma {:induction false} DigitsPrefix(v: nat, n: nat, k: nat)
    requires k <= n
    ensures Digits(v, n)[..k] == Digits(v, k)
  {
    if k > 0 {
      DigitsPrefix(v / 256, n - 1, k - 1);
      assert Digits(v, n)[..k] == [v % 256] + Digits(v / 256, n - 1)[..k - 1];
    }
  }

  /** n bytes of the device's counting pattern from byte at on; it ends after size bytes. */
  function Pattern(number: uint32, size: nat, at: nat, n: nat): seq<byte> {
    seq<byte>(n, i requires 0 <= i < n => PatternByte(number, size, at + i))
  }

  function PatternByte(number: uint32, size: nat, i: nat): byte {
    if i < size then (number + i) % 256 else 0
  }

  /** What a read through the echo device returns: the counting pattern from byte addr & 7 on,
      cut off at the access size. */
  lemma EchoRead(number: uint32, kind: uint32, addr: uint64, size: uint32)
    requires 1 <= size <= 8
    ensures var a := addr % 8;
            RtlRead(Answer(ReadRequest(number, kind, addr, size)).data, addr, size) ==
            Value(Pattern(number, size, a, Min(8, a + size) - a))
  {
    var data, a := Answer(ReadRequest(number, kind, addr, size)).data, addr % 8;
    RtlReadIsLane(data, addr, size);
    EchoIsPattern(number, kind, addr, size, a, Min(8, a + size) - a);
  }

  lemma EchoIsPattern(number: uint32, kind: uint32, addr: uint64, size: uint32, at: nat, n: nat)
    requires at + n <= PAYLOAD
    ensures Answer(ReadRequest(number, kind, addr, size)).data[at..at + n] == Pattern(number, size, at, n)
  {
    var p := ReadRequest(number, kind, addr, size);
    var got, want := Answer(p).data[at..at + n], Pattern(number, size, at, n);
    forall i | 0 <= i < n
      ensures got[i] == want[i]
    {
      assert got[i] == AnswerByte(p, at + i);
    }
  }

  // ---- A write and then a read, on a device that stores

  /** What a device keeps that puts the payload's bytes at the address and the ones behind it. */
  type Memory = nat -> byte

  function Stored(mem: Memory, p: Packet): Memory
    requires p.size <= PAYLOAD
  {
    (k: nat) => if p.address <= k < p.address + p.size then p.data[k - p.address] else mem(k)
  }

  /** Its reply to a read: the bytes from the address on, from byte 0 of the payload. */
  function Loaded(mem: Memory, p: Packet): Packet {
    p.(data := seq<byte>(PAYLOAD, i requires 0 <= i < PAYLOAD => LoadedByte(mem, p, i)))
  }

  function LoadedByte(mem: Memory, p: Packet, i: nat): byte {
    if i < p.size then mem(p.address + i) else 0
  }

  /** What issue() makes of the reply to a read that follows a write of value to the same place. */
  function ReadBack(mem: Memory, number: uint32, kind: uint32, addr: uint64, size: uint32, value: uint64): nat
    requires 1 <= size <= 8 && number + 1 < 0x1_0000_0000
  {
    var written := Stored(mem, WriteRequest(number, kind, addr, size, value));
    RtlRead(Loaded(written, ReadRequest(number + 1, kind, addr, size)).data, addr, size)
  }

  /** Two accesses to one place: with a device that returns what was written from byte 0 on, the
      read sees the written value without its addr & 7 lowest bytes; so it sees the value
      itself if and only if the address is a multiple of 8 or the value is zero. */
  lemma WriteThenRead(mem: Memory, number: uint32, kind: uint32, addr: uint64, size: uint32, value: uint64)
    requires 1 <= size <= 8 && number + 1 < 0x1_0000_0000
    ensures var v := value % Pow256(size);
            && ReadBack(mem, number, kind, addr, size, value) == v / Pow256(addr % 8)
            && (ReadBack(mem, number, kind, addr, size, value) == v <==> addr % 8 == 0 || v == 0)
  {
    var v := value % Pow256(size);
    LoadedWord(mem, number, kind, addr, size, value);
    FieldWidths();
    ExtractIsArithmetic(v, addr, size);
    QuotientSmaller(v, Pow256(addr % 8));
    DivModUnique(v / Pow256(addr % 8), Pow256(size), 0, v / Pow256(addr % 8));
    if addr % 8 > 0 {
      PowMonotone(1, addr % 8);
    }
  }

  /** The word in front of the reply is the written value, zero-extended. */
  lemma LoadedWord(mem: Memory, number: uint32, kind: uint32, addr: uint64, size: uint32, value: uint64)
    requires 1 <= size <= 8 && number + 1 < 0x1_0000_0000
    ensures var written := Stored(mem, WriteRequest(number, kind, addr, size, value));
            Value(Loaded(written, ReadRequest(number + 1, kind, addr, size)).data[..8]) == value % Pow256(size)
  {
    var p := WriteRequest(number, kind, addr, size, value);
    var data := Loaded(Stored(mem, p), ReadRequest(number + 1, kind, addr, size)).data;
    assert data[..8] == p.data[..size] + Zeros(8 - size);
    PayloadOfWrite(number, kind, addr, size, value);
    ValuePadded(p.data[..size], 8 - size);
  }

  lemma {:induction false} ValuePadded(bs: seq<byte>, n: nat)
    ensures Value(bs + Zeros(n)) == Value(bs)
  {
    if bs == [] {
      assert bs + Zeros(n) == Zeros(n);
      ValueOfZeros(Zeros(n));
    } else {
      ValuePadded(bs[1..], n);
      assert (bs + Zeros(n))[1..] == bs[1..] + Zeros(n);
    }
  }

  lemma QuotientSmaller(v: nat, d: nat)
    requires d > 0
    ensures 0 <= v / d <= v
    ensures d >= 2 ==> (v / d == v <==> v == 0)
  {
    QuotientNatural(v, d);
    ProductLarger(v / d, d);
  }

  lemma {:induction false} ProductLarger(q: nat, d: nat)
    requires d > 0
    ensures q * d >= q && (d >= 2 && q > 0 ==> q * d > q)
  {
    if d > 1 {
      ProductLarger(q, d - 1);
      assert q * d == q * (d - 1) + q;
    }
  }
}
