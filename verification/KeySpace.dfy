/** How push, pull and tombstone discard split the 64-bit key space: by partition, and within each partition by
    worker. All arithmetic is on unsigned 64-bit words that wrap. */
module KeySpace {
  import opened Base
  import opened Framing

  const MAX64: U64 := 0xffff_ffff_ffff_ffff

  function Wrap(x: int): U64 { x % 0x1_0000_0000_0000_0000 }

  function Pow2(n: nat): (p: nat)
    ensures p > 0
  {
    if n == 0 then 1 else 2 * Pow2(n - 1)
  }

  lemma {:induction false} Pow2Add(m: nat, n: nat)
    ensures Pow2(m + n) == Pow2(m) * Pow2(n)
    decreases n
  {
    if n > 0 { Pow2Add(m, n - 1); }
  }

  lemma Pow2Word()
    ensures Pow2(64) == TWO64
  {
    Pow2Add(8, 8);
    assert Pow2(16) == 0x1_0000;
    Pow2Add(16, 16);
    assert Pow2(32) == TWO32;
    Pow2Add(32, 32);
  }

  function Quot(a: nat, m: nat): nat
    requires m > 0
  {
    a / m
  }

  function Rem(a: nat, m: nat): (r: nat)
    requires m > 0
    ensures r < m
  {
    a % m
  }

  lemma QuotRem(a: nat, m: nat)
    requires m > 0
    ensures a == Quot(a, m) * m + Rem(a, m)
  {
  }

  lemma QuotPositive(a: nat, m: nat)
    requires 0 < m <= a
    ensures Quot(a, m) >= 1
  {
    DivStep(a, m);
  }

  /** A ring of `bits` partition bits worked on by `workers`. */
  datatype Split = Split(bits: nat, workers: nat)

  ghost predicate Proper(c: Split) { 1 <= c.bits <= 63 && 1 <= c.workers < TWO64 }

  /** Keys per partition, and partitions. */
  function Size(c: Split): nat
    requires c.bits <= 64
  {
    Pow2(64 - c.bits)
  }

  function Count(c: Split): nat { Pow2(c.bits) }

  function Piece(c: Split): nat
    requires 1 <= c.bits <= 63 && c.workers > 0
  {
    Quot(Size(c), c.workers)
  }

  function RangeBegin(c: Split, p: nat, w: nat): U64
    requires 1 <= c.bits <= 63 && c.workers > 0
  {
    Wrap(Wrap(p * Size(c)) + Wrap(Piece(c) * w))
  }

  function RangeEnd(c: Split, p: nat, w: nat): U64
    requires 1 <= c.bits <= 63 && c.workers > 0
  {
    if w != c.workers - 1 then Wrap(Wrap(p * Size(c)) + Wrap(Piece(c) * (w + 1)) - 1)
    else if p != Count(c) - 1 then Wrap(Wrap((p + 1) * Size(c)) - 1)
    else MAX64
  }

  ghost predicate InRange(c: Split, p: nat, w: nat, k: U64)
    requires 1 <= c.bits <= 63 && c.workers > 0
  {
    p < Count(c) && w < c.workers && RangeBegin(c, p, w) <= k <= RangeEnd(c, p, w)
  }

  // ---------------------------------------------------------------- no wraparound

  lemma MulMono(a: nat, b: nat, m: nat)
    requires a <= b
    ensures a * m <= b * m
  {
    assert b * m == a * m + (b - a) * m;
  }

  lemma Sizes(c: Split)
    requires Proper(c)
    ensures Count(c) * Size(c) == TWO64 && Count(c) >= 2 && Size(c) >= 2
  {
    Pow2Word();
    Pow2Add(c.bits, 64 - c.bits);
    assert Pow2(c.bits) == 2 * Pow2(c.bits - 1);
    assert Pow2(64 - c.bits) == 2 * Pow2(63 - c.bits);
  }

  /** The pieces of one partition fit in it. */
  lemma PieceFits(c: Split, w: nat)
    requires Proper(c) && w <= c.workers
    ensures 0 <= Piece(c) * w <= Size(c)
  {
    var piece := Piece(c);
    QuotRem(Size(c), c.workers);
    MulMono(w, c.workers, piece);
  }

  lemma PartitionFits(c: Split, p: nat)
    requires Proper(c) && p < Count(c)
    ensures p * Size(c) + Size(c) == (p + 1) * Size(c) <= TWO64
  {
    Sizes(c);
    MulMono(p + 1, Count(c), Size(c));
  }

  /** Without wrapping: where a worker's share of a partition ends, exclusively. */
  function PlainEnd(c: Split, p: nat, w: nat): int
    requires 1 <= c.bits <= 63 && c.workers > 0
  {
    if w != c.workers - 1 then p * Size(c) + Piece(c) * (w + 1) else (p + 1) * Size(c)
  }

  lemma PieceStep(c: Split, w: nat)
    requires Proper(c)
    ensures Piece(c) * (w + 1) == Piece(c) * w + Piece(c)
  {
  }

  lemma PlainSum(a: nat, b: nat)
    requires a + b < TWO64
    ensures Wrap(Wrap(a) + Wrap(b)) == a + b
  {
  }

  lemma PlainLast(a: nat, b: nat)
    requires a < TWO64 && b < TWO64 && 0 < a + b <= TWO64
    ensures Wrap(Wrap(a) + Wrap(b) - 1) == a + b - 1
  {
  }

  lemma BeginPlain(c: Split, p: nat, w: nat)
    requires Proper(c) && c.workers <= Size(c) && p < Count(c) && w < c.workers
    ensures RangeBegin(c, p, w) == p * Size(c) + Piece(c) * w
  {
    PartitionFits(c, p);
    LastPiece(c, w);
    PieceFits(c, w);
    PlainSum(p * Size(c), Piece(c) * w);
  }

  lemma InnerPiece(c: Split, w: nat)
    requires Proper(c) && c.workers <= Size(c) && w + 1 < c.workers
    ensures 0 < Piece(c) * (w + 1) < Size(c)
  {
    LastPiece(c, w + 1);
    PieceAtLeastOne(c);
    PieceFits(c, w);
    PieceStep(c, w);
  }

  lemma InnerEnd(c: Split, p: nat, w: nat)
    requires Proper(c) && c.workers <= Size(c) && p < Count(c) && w + 1 < c.workers
    ensures RangeEnd(c, p, w) + 1 == p * Size(c) + Piece(c) * (w + 1) <= (p + 1) * Size(c)
  {
    InnerPiece(c, w);
    PartitionFits(c, p);
    PlainLast(p * Size(c), Piece(c) * (w + 1));
  }

  lemma OuterEnd(c: Split, p: nat)
    requires Proper(c) && p < Count(c)
    ensures RangeEnd(c, p, c.workers - 1) + 1 == (p + 1) * Size(c)
  {
    if p == Count(c) - 1 {
      Sizes(c);
    } else {
      PartitionFits(c, p);
      PartitionFits(c, p + 1);
      PlainLast((p + 1) * Size(c), 0);
    }
  }

  /** With no more workers than keys in a partition, no bound wraps. */
  lemma NoWraparound(c: Split, p: nat, w: nat)
    requires Proper(c) && c.workers <= Size(c) && p < Count(c) && w < c.workers
    ensures RangeBegin(c, p, w) == p * Size(c) + Piece(c) * w
    ensures RangeEnd(c, p, w) + 1 == PlainEnd(c, p, w) <= (p + 1) * Size(c)
  {
    BeginPlain(c, p, w);
    if w != c.workers - 1 {
      InnerEnd(c, p, w);
    } else {
      OuterEnd(c, p);
    }
  }

  lemma PieceAtLeastOne(c: Split)
    requires Proper(c) && c.workers <= Size(c)
    ensures Piece(c) >= 1
  {
    QuotPositive(Size(c), c.workers);
  }

  lemma LastPiece(c: Split, w: nat)
    requires Proper(c) && c.workers <= Size(c) && w < c.workers
    ensures Piece(c) * w < Size(c)
  {
    PieceAtLeastOne(c);
    PieceFits(c, w + 1);
    PieceStep(c, w);
  }

  // ---------------------------------------------------------------- the tiling

  /** The one share a key belongs to. */
  function PartitionOf(c: Split, k: U64): nat
    requires 1 <= c.bits <= 63
  {
    Quot(k, Size(c))
  }

  function WorkerOf(c: Split, k: U64): nat
    requires 1 <= c.bits <= 63 && c.workers > 0 && Piece(c) > 0
  {
    Min(Quot(Rem(k, Size(c)), Piece(c)), c.workers - 1)
  }

  lemma AtOrBelow(piece: nat, w: nat, o: nat)
    requires piece > 0
    ensures piece * w <= o <==> w <= Quot(o, piece)
  {
    var q := Quot(o, piece);
    QuotRem(o, piece);
    if w <= q {
      MulMono(w, q, piece);
    } else {
      MulMono(q + 1, w, piece);
    }
  }

  /** Being in a worker's share of the partition, by the offset in it. */
  lemma ShareOf(piece: nat, workers: nat, w: nat, o: nat)
    requires piece > 0 && w < workers
    ensures (piece * w <= o && (w != workers - 1 ==> o < piece * (w + 1))) <==> w == Min(Quot(o, piece), workers - 1)
  {
    AtOrBelow(piece, w, o);
    AtOrBelow(piece, w + 1, o);
  }

  lemma PartitionIs(c: Split, p: nat, k: U64)
    requires Proper(c) && p < Count(c)
    ensures p * Size(c) <= k < (p + 1) * Size(c) <==> p == PartitionOf(c, k)
    ensures p == PartitionOf(c, k) ==> Rem(k, Size(c)) == k - p * Size(c)
  {
    var size := Size(c);
    PartitionFits(c, p);
    if p * size <= k < (p + 1) * size {
      DivUnique(k, size, p, k - p * size);
    }
    QuotRem(k, size);
  }

  /** Key-space tiling: with no more workers than keys in a partition, a key lies in the range of exactly one
      partition and worker. */
  lemma ExactlyOneRange(c: Split, p: nat, w: nat, k: U64)
    requires Proper(c) && c.workers <= Size(c) && p < Count(c) && w < c.workers
    ensures Piece(c) > 0
    ensures InRange(c, p, w, k) <==> p == PartitionOf(c, k) && w == WorkerOf(c, k)
  {
    PieceAtLeastOne(c);
    NoWraparound(c, p, w);
    PartitionIs(c, p, k);
    PieceFits(c, w);
    if p == PartitionOf(c, k) {
      ShareOf(Piece(c), c.workers, w, Rem(k, Size(c)));
    }
  }

  /** And that partition and worker exist. */
  lemma SomeRange(c: Split, k: U64)
    requires Proper(c) && c.workers <= Size(c)
    ensures Piece(c) > 0
    ensures PartitionOf(c, k) < Count(c) && WorkerOf(c, k) < c.workers
            && InRange(c, PartitionOf(c, k), WorkerOf(c, k), k)
  {
    PieceAtLeastOne(c);
    Sizes(c);
    var q := Quot(k, Size(c));
    QuotRem(k, Size(c));
    if q >= Count(c) { MulMono(Count(c), q, Size(c)); }
    ExactlyOneRange(c, q, WorkerOf(c, k), k);
  }

  ghost predicate InSomeRange(c: Split, k: U64)
    requires 1 <= c.bits <= 63 && c.workers > 0
  {
    exists p: nat, w: nat :: InRange(c, p, w, k)
  }

  ghost predicate Tiles(c: Split)
    requires 1 <= c.bits <= 63 && c.workers > 0
  {
    && (forall k: U64 :: InSomeRange(c, k))
    && (forall k: U64, p: nat, w: nat, p': nat, w': nat ::
          InRange(c, p, w, k) && InRange(c, p', w', k) ==> p == p' && w == w')
  }

  /** The exact condition for the ranges to tile the key space: no more workers than keys in a partition. Otherwise
      the first worker's range of the first partition wraps round to the whole key space. */
  lemma TilesExactlyWhen(c: Split)
    requires Proper(c)
    ensures Tiles(c) <==> c.workers <= Size(c)
  {
    if c.workers <= Size(c) {
      forall k: U64 ensures InSomeRange(c, k) { SomeRange(c, k); }
      forall k: U64, p: nat, w: nat, p': nat, w': nat | InRange(c, p, w, k) && InRange(c, p', w', k)
        ensures p == p' && w == w'
      {
        ExactlyOneRange(c, p, w, k);
        ExactlyOneRange(c, p', w', k);
      }
    } else {
      TooManyWorkers(c);
      assert InRange(c, 0, 0, MAX64) && InRange(c, Count(c) - 1, c.workers - 1, MAX64);
    }
  }

  lemma TooManyWorkers(c: Split)
    requires Proper(c) && c.workers > Size(c)
    ensures InRange(c, 0, 0, MAX64) && InRange(c, Count(c) - 1, c.workers - 1, MAX64) && c.workers > 1
  {
    Sizes(c);
    DivUnique(Size(c), c.workers, 0, Size(c));
    assert Piece(c) == 0;
    assert 0 * Size(c) == 0 && Piece(c) * 1 == 0;
    assert Wrap(-1) == MAX64;
  }

  // ---------------------------------------------------------------- each worker's walk over the partitions

  /** Where a worker starts. */
  function FirstPartition(count: nat, workers: nat, w: nat): nat
    requires workers > 0
  {
    Quot(count, workers) * w
  }

  lemma FirstIsPartition(count: nat, workers: nat, w: nat)
    requires count > 0 && w < workers
    ensures FirstPartition(count, workers, w) < count
  {
    var q := Quot(count, workers);
    QuotRem(count, workers);
    if q > 0 {
      assert q * workers == q * w + q * (workers - w);
      MulAtLeast(workers - w, q);
    }
  }

  /** The workers start evenly spread, each elsewhere exactly when there are no more workers than partitions. */
  lemma FirstsSpread(count: nat, workers: nat, w: nat, v: nat)
    requires w < v < workers
    ensures FirstPartition(count, workers, 0) == 0
    ensures FirstPartition(count, workers, v) - FirstPartition(count, workers, w) == count / workers * (v - w)
    ensures FirstPartition(count, workers, w) != FirstPartition(count, workers, v) <==> workers <= count
  {
    var q := Quot(count, workers);
    QuotRem(count, workers);
    assert q * v == q * w + q * (v - w);
    if q > 0 { MulAtLeast(v - w, q); }
  }

  /** The partitions in walking order: from the first one on, wrapping round. */
  ghost function Walk(count: nat, first: nat): seq<nat>
    requires first < count
  {
    seq(count, i => if first + i < count then first + i else first + i - count)
  }

  /** Every partition occurs in a walk exactly once. */
  lemma WalkVisitsOnce(count: nat, first: nat, p: nat)
    requires first < count && p < count
    ensures exists i :: 0 <= i < count && Walk(count, first)[i] == p
    ensures forall i, j :: 0 <= i < j < count ==> Walk(count, first)[i] != Walk(count, first)[j]
  {
    var i := if p >= first then p - first else p - first + count;
    assert Walk(count, first)[i] == p;
  }

  /** The single wrapping loop of push replication and of the expired-deletions pass. */
  method WrappingLoop(count: nat, workers: nat, w: nat) returns (visited: seq<nat>)
    requires count > 0 && w < workers
    ensures FirstPartition(count, workers, w) < count
    ensures visited == Walk(count, FirstPartition(count, workers, w))
  {
    FirstIsPartition(count, workers, w);
    var first := count / workers * w;
    var partition := first;
    visited := [];
    while true
      invariant partition < count && |visited| < count
      invariant partition == Walk(count, first)[|visited|]
      invariant visited == Walk(count, first)[..|visited|]
      decreases count - |visited|
    {
      visited := visited + [partition];
      partition := partition + 1;
      if partition > count - 1 { partition := 0; }
      if partition == first { break; }
    }
  }

  /** The two loops of pull replication and of the local-removals pass. */
  method TwoLoops(count: nat, workers: nat, w: nat) returns (visited: seq<nat>)
    requires count > 0 && w < workers
    ensures FirstPartition(count, workers, w) < count
    ensures visited == Walk(count, FirstPartition(count, workers, w))
  {
    FirstIsPartition(count, workers, w);
    var first := count / workers * w;
    visited := [];
    var p := first;
    while p < count
      invariant first <= p <= count && |visited| == p - first
      invariant visited == Walk(count, first)[..|visited|]
    {
      visited := visited + [p];
      p := p + 1;
    }
    p := 0;
    while p < first
      invariant 0 <= p <= first && |visited| == count - first + p
      invariant visited == Walk(count, first)[..|visited|]
    {
      visited := visited + [p];
      p := p + 1;
    }
  }
}
