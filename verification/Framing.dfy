/** Cutting a byte string into records: pipes and TCP streams carry bytes, the program
    means records. */
module Framing {
  import opened Bytes
  import opened Packets

  /** The whole records at the front of b; an incomplete tail is not a record. */
  function Chunks(b: seq<byte>): (c: seq<Image>)
    ensures |c| == |b| / RECORD
  {
    if |b| < RECORD then [] else [b[..RECORD]] + Chunks(b[RECORD..])
  }

  /** The records written one after the other. */
  function Joined(c: seq<Image>): (b: seq<byte>)
    ensures |b| == RECORD * |c|
  {
    if c == [] then [] else c[0] + Joined(c[1..])
  }

  predicate Aligned(b: seq<byte>) {
    |b| % RECORD == 0
  }

  /** What read() of one record returns from a pipe holding b. */
  function ReadSize(b: seq<byte>): (n: nat)
    ensures n <= |b| && n <= RECORD
  {
    if |b| < RECORD then |b| else RECORD
  }

  /** A buffer after the first |chunk| bytes have been overwritten. */
  function Overlay(chunk: seq<byte>, buf: Image): Image
    requires |chunk| <= RECORD
  {
    chunk + buf[|chunk|..]
  }

  lemma {:induction false} ChunksAppend(a: seq<byte>, b: seq<byte>)
    requires Aligned(a)
    ensures Chunks(a + b) == Chunks(a) + Chunks(b)
  {
    if |a| < RECORD {
      assert a + b == b;
    } else {
      assert (a + b)[..RECORD] == a[..RECORD];
      assert (a + b)[RECORD..] == a[RECORD..] + b;
      ChunksAppend(a[RECORD..], b);
    }
  }

  lemma ChunksOne(img: Image)
    ensures Chunks(img) == [img]
  {
    assert img[..RECORD] == img;
  }

  /** More bytes behind never change the records in front. */
  lemma {:induction false} ChunksPrefix(a: seq<byte>, b: seq<byte>)
    ensures Chunks(a) <= Chunks(a + b)
  {
    if |a| >= RECORD {
      assert (a + b)[..RECORD] == a[..RECORD];
      assert (a + b)[RECORD..] == a[RECORD..] + b;
      ChunksPrefix(a[RECORD..], b);
    }
  }

  /** Cutting undoes joining, and joining undoes cutting exactly for aligned strings. */
  lemma {:induction false} ChunksJoined(c: seq<Image>)
    ensures Chunks(Joined(c)) == c
  {
    if c != [] {
      ChunksJoined(c[1..]);
      assert Joined(c)[..RECORD] == c[0];
      assert Joined(c)[RECORD..] == Joined(c[1..]);
    }
  }

  lemma {:induction false} JoinedAppend(c: seq<Image>, x: Image)
    ensures Joined(c + [x]) == Joined(c) + x
  {
    if c == [] {
      assert c + [x] == [x];
    } else {
      JoinedAppend(c[1..], x);
      assert (c + [x])[1..] == c[1..] + [x];
    }
  }

  lemma {:induction false} JoinedChunks(b: seq<byte>)
    ensures Joined(Chunks(b)) == b[..|b| / RECORD * RECORD]
    ensures Joined(Chunks(b)) == b <==> Aligned(b)
  {
    if |b| >= RECORD {
      JoinedChunks(b[RECORD..]);
      var whole := |b| / RECORD * RECORD;
      assert b[RECORD..][..whole - RECORD] == b[RECORD..whole];
      assert b[..whole] == b[..RECORD] + b[RECORD..whole];
    }
  }
}
