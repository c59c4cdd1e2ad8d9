/** Little-endian integers as byte strings, the form in which every field of a
    transaction record lies in memory, in a pipe and on the wire (x86-64). */
module Bytes {

  type byte = x: int | 0 <= x < 256
  type uint32 = x: int | 0 <= x < 0x1_0000_0000
  type uint64 = x: int | 0 <= x < 0x1_0000_0000_0000_0000

  function Pow256(n: nat): (p: nat)
    ensures p > 0
  {
    if n == 0 then 1 else 256 * Pow256(n - 1)
  }

  /** The unsigned integer whose little-endian bytes are bs. */
  function Value(bs: seq<byte>): (v: nat)
    ensures v < Pow256(|bs|)
  {
    if bs == [] then 0 else bs[0] + 256 * Value(bs[1..])
  }

  /** The n low-order bytes of v, least significant first (a memcpy out of an integer). */
  function Digits(v: nat, n: nat): (bs: seq<byte>)
    ensures |bs| == n
  {
    if n == 0 then [] else [v % 256] + Digits(v / 256, n - 1)
  }

  function Zeros(n: nat): (z: seq<byte>)
    ensures |z| == n && forall i :: 0 <= i < n ==> z[i] == 0
  {
    seq(n, i => 0)
  }

  /** Division by d is the only way to split v into a multiple of d and a smaller rest. */
  lemma DivModUnique(v: int, d: int, q: int, r: int)
    requires d > 0 && 0 <= r < d && v == q * d + r
    ensures v / d == q && v % d == r
  {
    assert (q - v / d) * d == v % d - r by {
      assert (q - v / d) * d == q * d - v / d * d;
    }
    NonzeroMultiple(q - v / d, d);
  }

  /** A nonzero multiple of d is at least d in size. */
  lemma NonzeroMultiple(e: int, d: int)
    requires d > 0
    ensures e == 0 || e * d >= d || e * d <= -d
  {
    if e >= 1 {
      assert (e - 1) * d >= 0;
    } else if e <= -1 {
      assert (-e - 1) * d >= 0;
    }
  }

  /** Dividing first by 256 and then by p is dividing by 256 * p. */
  lemma DivModStep(v: nat, p: nat)
    requires p > 0
    ensures v / (256 * p) == v / 256 / p
    ensures v % (256 * p) == v % 256 + 256 * (v / 256 % p)
  {
    var q := v / 256 / p;
    var r := v / 256 % p;
    assert v == 256 * (v / 256) + v % 256;
    assert v / 256 == q * p + r;
    assert v == q * (256 * p) + (v % 256 + 256 * r) by {
      assert 256 * (q * p + r) == q * (256 * p) + 256 * r;
    }
    DivModUnique(v, 256 * p, q, v % 256 + 256 * r);
  }

  /** Writing v into n bytes keeps v modulo 256^n. */
  lemma {:induction false} ValueOfDigits(v: nat, n: nat)
    ensures Value(Digits(v, n)) == v % Pow256(n)
  {
    if n > 0 {
      ValueOfDigits(v / 256, n - 1);
      assert Digits(v, n)[1..] == Digits(v / 256, n - 1);
      DivModStep(v, Pow256(n - 1));
    }
  }

  /** Reading bytes as an integer and writing them back gives the same bytes. */
  lemma {:induction false} DigitsOfValue(bs: seq<byte>)
    ensures Digits(Value(bs), |bs|) == bs
  {
    if bs != [] {
      DigitsOfValue(bs[1..]);
      DivModUnique(Value(bs), 256, Value(bs[1..]), bs[0]);
    }
  }

  /** A right shift by k bytes drops the k lowest bytes. */
  lemma {:induction false} DropIsDivision(bs: seq<byte>, k: nat)
    requires k <= |bs|
    ensures Value(bs[k..]) == Value(bs) / Pow256(k)
  {
    if k == 0 {
      assert bs[0..] == bs;
    } else {
      DropIsDivision(bs[1..], k - 1);
      assert bs[1..][k - 1..] == bs[k..];
      DivModUnique(Value(bs), 256, Value(bs[1..]), bs[0]);
      DivModStep(Value(bs), Pow256(k - 1));
    }
  }

  /** Keeping k bytes is reduction modulo 256^k. */
  lemma {:induction false} TakeIsRemainder(bs: seq<byte>, k: nat)
    requires k <= |bs|
    ensures Value(bs[..k]) == Value(bs) % Pow256(k)
  {
    if k > 0 {
      TakeIsRemainder(bs[1..], k - 1);
      assert bs[..k][1..] == bs[1..][..k - 1];
      DivModUnique(Value(bs), 256, Value(bs[1..]), bs[0]);
      DivModStep(Value(bs), Pow256(k - 1));
    }
  }

  /** Byte k of a byte string is digit k, base 256, of its value. */
  lemma ByteOfValue(bs: seq<byte>, k: nat)
    requires k < |bs|
    ensures bs[k] == Value(bs) / Pow256(k) % 256
  {
    DropIsDivision(bs, k);
    DivModUnique(Value(bs[k..]), 256, Value(bs[k..][1..]), bs[k]);
  }

  /** The integer types of the record are exactly four and eight bytes wide. */
  lemma FieldWidths()
    ensures Pow256(4) == 0x1_0000_0000
    ensures Pow256(8) == 0x1_0000_0000_0000_0000
  {
    assert Pow256(1) == 256;
    assert Pow256(2) == 0x1_0000;
    assert Pow256(3) == 0x100_0000;
    assert Pow256(5) == 0x100_0000_0000;
    assert Pow256(6) == 0x1_0000_0000_0000;
    assert Pow256(7) == 0x100_0000_0000_0000;
  }
}
