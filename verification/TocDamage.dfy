/** The TOC reader on damaged bytes, for any entry size and any set of corrupt chunks, in terms of the logical
    bytes. */
module TocDamage {
  import opened Base
  import opened Framing
  import opened TocFile

  /** p is the framed stream d from `at` on, except that the chunks marked bad, from c on, fail their checksum. */
  ghost predicate Damaged(h: Hash, interval: nat, d: Bytes, at: nat, p: Bytes, bad: seq<bool>, c: nat)
    requires interval > 0 && at <= |d| && c <= |bad|
    decreases |d| - at
  {
    if |d| < at + interval then p == d[at..] && c == |bad|
    else
      && c < |bad| && |p| >= interval + 4 && ChunkFails(h, interval, p) == bad[c]
      && (!bad[c] ==> p[..interval] == d[at..at + interval])
      && Damaged(h, interval, d, at + interval, p[interval + 4..], bad, c + 1)
  }

  ghost predicate ChunkFails(h: Hash, interval: nat, p: Bytes)
    requires |p| >= interval + 4
  {
    Get32(p[interval..interval + 4]) != h(p[..interval])
  }

  function CountBad(bad: seq<bool>): nat
  {
    if bad == [] then 0 else (if bad[0] then 1 else 0) + CountBad(bad[1..])
  }

  // ---------------------------------------------------------------- where the reader is

  /** How far the reader is into an entry when a chunk starts, and whether it has given that entry up and resumes with
      the next one, as it does after a corrupt chunk and after the header. */
  datatype Mark = Mark(o: nat, resuming: bool)

  function CarryOf(d: Bytes, at: nat, m: Mark): Bytes
    requires at <= |d| && (m.resuming || m.o <= at)
  {
    if m.resuming then [] else d[at - m.o..at]
  }

  function SkipOf(size: nat, m: Mark): nat
    requires m.o < size
  {
    if m.resuming then size - m.o else 0
  }

  /** The first position not yet read. */
  function From(size: nat, at: nat, m: Mark): (p: nat)
    requires m.o < size && (m.resuming || m.o <= at)
    ensures at < p + size && p <= at + size
  {
    if m.resuming then at + size - m.o else at - m.o
  }

  /** The header is skipped. */
  function Start(size: nat): Mark
    requires size >= HEADER_SIZE
  {
    Mark(size - HEADER_SIZE, true)
  }

  /** The mark one chunk on. After a corrupt chunk met while resuming, the source adds what it should subtract. */
  function After(size: nat, interval: nat, m: Mark, corrupt: bool): Mark
    requires m.o < size
  {
    Mark(((if corrupt && m.resuming then size - m.o else m.o) + interval) % size, corrupt)
  }

  lemma AfterOk(size: nat, interval: nat, at: nat, m: Mark, corrupt: bool)
    requires m.o < size <= interval
    ensures After(size, interval, m, corrupt).o < size <= at + interval
  {
  }

  /** What the reader finds from chunk c on, in terms of the logical bytes alone: an intact chunk completes the
      entries from the first unread position on; a corrupt one only moves the mark; the last, partial chunk may hold
      the terminator, or be shorter than what is to be skipped. */
  ghost function Expect(size: nat, interval: nat, bad: seq<bool>, d: Bytes, c: nat, at: nat, m: Mark): Scan
    requires m.o < size <= interval && (m.resuming || m.o <= at)
    decreases |bad| - c
  {
    AfterOk(size, interval, at, m, true); AfterOk(size, interval, at, m, false);
    if c >= |bad| || at + interval > |d| then Tail(size, d, at, m)
    else if bad[c] then WithBad(Expect(size, interval, bad, d, c + 1, at + interval, After(size, interval, m, true)))
    else WithSlots(Live(Slots(size, d[From(size, at, m)..at + interval])),
                   Expect(size, interval, bad, d, c + 1, at + interval, After(size, interval, m, false)))
  }

  ghost function Tail(size: nat, d: Bytes, at: nat, m: Mark): Scan
    requires m.o < size && (m.resuming || m.o <= at)
  {
    if From(size, at, m) > |d| then Panic
    else
      var s := d[From(size, at, m)..];
      Scan(Live(Slots(size, StripTerm(s))), 0, EndsInTerm(s))
  }

  // ---------------------------------------------------------------- the reader does just that

  /** What is in hand in an intact stretch [at, hi): everything from the first unread position on. */
  lemma InHandIs(size: nat, d: Bytes, at: nat, hi: nat, m: Mark)
    requires m.o < size && (m.resuming || m.o <= at) && at <= hi <= |d| && From(size, at, m) <= hi
    ensures SkipOf(size, m) <= hi - at
    ensures InHand(d[at..hi], CarryOf(d, at, m), SkipOf(size, m)) == d[From(size, at, m)..hi]
  {
    var skip := SkipOf(size, m);
    if m.resuming {
      SliceOfSlice(d, at, hi - at, skip, hi - at);
      assert d[at..hi][skip..] == d[at..hi][skip..hi - at];
    } else {
      assert d[at - m.o..at] + d[at..hi] == d[at - m.o..hi];
    }
  }

  lemma ModMinus(a: nat, m: nat)
    requires 0 < m <= a
    ensures (a - m) % m == a % m
  {
    DivStep(a, m);
  }

  /** What is carried over from an intact chunk is what the next mark says. */
  lemma CarryNext(size: nat, interval: nat, d: Bytes, at: nat, m: Mark)
    requires m.o < size <= interval && (m.resuming || m.o <= at) && at + interval <= |d|
    ensures From(size, at, m) <= at + interval
    ensures var next := After(size, interval, m, false);
            next.o < size && Rest(size, d[From(size, at, m)..at + interval]) == CarryOf(d, at + interval, next)
  {
    var hi := at + interval;
    var s := d[From(size, at, m)..hi];
    RestLength(size, s);
    RestIsSuffix(size, s);
    if m.resuming { ModMinus(m.o + interval, size); }
    var o := |s| % size;
    SliceOfSlice(d, From(size, at, m), |s|, |s| - o, |s|);
    assert s[|s| - o..] == s[|s| - o..|s|];
  }

  /** One intact round, with what is in hand and what is carried over as given. */
  lemma IntactHand(h: Hash, size: nat, interval: nat, p: Bytes, carry: Bytes, skip: nat, hand: Bytes, carry': Bytes)
    requires size > 0 && |p| >= interval + 4 && !ChunkFails(h, interval, p) && skip <= interval
    requires InHand(p[..interval], carry, skip) == hand && Rest(size, hand) == carry'
    ensures ReadFrom(h, size, interval, p, carry, skip) ==
            WithSlots(Live(Slots(size, hand)), ReadFrom(h, size, interval, p[interval + 4..], carry', 0))
  {
    IntactRound(h, size, interval, p, carry, skip);
  }

  lemma ReadIntact(h: Hash, size: nat, interval: nat, d: Bytes, p: Bytes, at: nat, m: Mark, next: Mark)
    requires m.o < size <= interval && (m.resuming || m.o <= at) && at + interval <= |d|
    requires |p| >= interval + 4 && !ChunkFails(h, interval, p) && p[..interval] == d[at..at + interval]
    requires From(size, at, m) <= at + interval && next.o < size
    requires Rest(size, d[From(size, at, m)..at + interval]) == CarryOf(d, at + interval, next)
    ensures ReadFrom(h, size, interval, p, CarryOf(d, at, m), SkipOf(size, m)) ==
            WithSlots(Live(Slots(size, d[From(size, at, m)..at + interval])),
                      ReadFrom(h, size, interval, p[interval + 4..], CarryOf(d, at + interval, next), 0))
  {
    InHandIs(size, d, at, at + interval, m);
    IntactHand(h, size, interval, p, CarryOf(d, at, m), SkipOf(size, m), d[From(size, at, m)..at + interval],
               CarryOf(d, at + interval, next));
  }

  /** The source's skip after a corrupt chunk is what the next mark says. */
  lemma SkipNext(size: nat, interval: nat, m: Mark)
    requires m.o < size
    ensures After(size, interval, m, true).o < size
    ensures SkipAfter(size, interval, if m.resuming then 0 else m.o, SkipOf(size, m)) ==
            SkipOf(size, After(size, interval, m, true))
  {
    var x := if m.resuming then size - m.o else m.o;
    assert SkipOf(size, m) + (if m.resuming then 0 else m.o) + interval == x + interval;
  }

  lemma ReadCorrupt(h: Hash, size: nat, interval: nat, d: Bytes, p: Bytes, at: nat, m: Mark, next: Mark)
    requires m.o < size && (m.resuming || m.o <= at) && at <= |d|
    requires |p| >= interval + 4 && ChunkFails(h, interval, p)
    requires next == After(size, interval, m, true) && next.o < size
    ensures ReadFrom(h, size, interval, p, CarryOf(d, at, m), SkipOf(size, m)) ==
            WithBad(ReadFrom(h, size, interval, p[interval + 4..], [], SkipOf(size, next)))
  {
    SkipNext(size, interval, m);
    CorruptRound(h, size, interval, p, CarryOf(d, at, m), SkipOf(size, m));
  }

  lemma ReadTail(h: Hash, size: nat, interval: nat, d: Bytes, at: nat, m: Mark)
    requires m.o < size && (m.resuming || m.o <= at) && at <= |d| < at + interval
    ensures ReadFrom(h, size, interval, d[at..], CarryOf(d, at, m), SkipOf(size, m)) == Tail(size, d, at, m)
  {
    if From(size, at, m) <= |d| {
      InHandIs(size, d, at, |d|, m);
      assert d[at..|d|] == d[at..] && d[From(size, at, m)..|d|] == d[From(size, at, m)..];
    }
  }

  ghost predicate Reads(h: Hash, size: nat, interval: nat, d: Bytes, p: Bytes, bad: seq<bool>, c: nat, at: nat, m: Mark)
    requires m.o < size <= interval && (m.resuming || m.o <= at) && at <= |d|
  {
    ReadFrom(h, size, interval, p, CarryOf(d, at, m), SkipOf(size, m)) == Expect(size, interval, bad, d, c, at, m)
  }

  lemma ReadStep(h: Hash, size: nat, interval: nat, d: Bytes, p: Bytes, bad: seq<bool>, c: nat, at: nat, m: Mark)
    requires m.o < size <= interval && (m.resuming || m.o <= at) && at + interval <= |d| && c < |bad|
    requires |p| >= interval + 4 && ChunkFails(h, interval, p) == bad[c]
    requires !bad[c] ==> p[..interval] == d[at..at + interval]
    requires After(size, interval, m, bad[c]).o < size
    requires Reads(h, size, interval, d, p[interval + 4..], bad, c + 1, at + interval, After(size, interval, m, bad[c]))
    ensures Reads(h, size, interval, d, p, bad, c, at, m)
  {
    var next := After(size, interval, m, bad[c]);
    if bad[c] {
      ReadCorrupt(h, size, interval, d, p, at, m, next);
    } else {
      CarryNext(size, interval, d, at, m);
      ReadIntact(h, size, interval, d, p, at, m, next);
    }
  }

  /** The chunk at `at` settled by what the reader does with the rest. */
  lemma ReadMore(h: Hash, size: nat, interval: nat, d: Bytes, p: Bytes, bad: seq<bool>, c: nat, at: nat, m: Mark)
    returns (next: Mark)
    requires m.o < size <= interval && (m.resuming || m.o <= at) && at + interval <= |d| && c < |bad|
    requires |p| >= interval + 4 && ChunkFails(h, interval, p) == bad[c]
    requires !bad[c] ==> p[..interval] == d[at..at + interval]
    ensures next.o < size <= at + interval
    ensures Reads(h, size, interval, d, p[interval + 4..], bad, c + 1, at + interval, next) ==>
            Reads(h, size, interval, d, p, bad, c, at, m)
  {
    AfterOk(size, interval, at, m, bad[c]);
    next := After(size, interval, m, bad[c]);
    if Reads(h, size, interval, d, p[interval + 4..], bad, c + 1, at + interval, next) {
      ReadStep(h, size, interval, d, p, bad, c, at, m);
    }
  }

  lemma ReadLast(h: Hash, size: nat, interval: nat, d: Bytes, p: Bytes, bad: seq<bool>, c: nat, at: nat, m: Mark)
    requires m.o < size <= interval && (m.resuming || m.o <= at) && at <= |d| < at + interval && c <= |bad|
    requires Damaged(h, interval, d, at, p, bad, c)
    ensures Reads(h, size, interval, d, p, bad, c, at, m)
  {
    ReadTail(h, size, interval, d, at, m);
  }

  /** The reader on any damaged stream. */
  lemma {:induction false} ReadDamaged(h: Hash, size: nat, interval: nat, d: Bytes, p: Bytes, bad: seq<bool>, c: nat,
                                       at: nat, m: Mark)
    requires m.o < size <= interval && (m.resuming || m.o <= at) && at <= |d| && c <= |bad|
    requires Damaged(h, interval, d, at, p, bad, c)
    ensures Reads(h, size, interval, d, p, bad, c, at, m)
    decreases |bad| - c
  {
    if |d| < at + interval {
      ReadLast(h, size, interval, d, p, bad, c, at, m);
    } else {
      var next := ReadMore(h, size, interval, d, p, bad, c, at, m);
      ReadDamaged(h, size, interval, d, p[interval + 4..], bad, c + 1, at + interval, next);
    }
  }

  lemma {:induction false} DamagedCount(h: Hash, interval: nat, d: Bytes, at: nat, p: Bytes, bad: seq<bool>, c: nat)
    requires interval > 0 && at <= |d| && c <= |bad| && Damaged(h, interval, d, at, p, bad, c)
    ensures |bad| - c == (|d| - at) / interval
    decreases |d| - at
  {
    if at + interval <= |d| {
      DamagedCount(h, interval, d, at + interval, p[interval + 4..], bad, c + 1);
      DivStep(|d| - at, interval);
    } else {
      DivUnique(|d| - at, interval, 0, |d| - at);
    }
  }
}
