/** Reading back a cleanly closed TOC file: exactly when it gives the entries written and no error. */
module TocRoundTrip {
  import opened Base
  import opened Framing
  import opened TocFile

  ghost predicate Written(fmt: Format, interval: nat, slots: seq<Slot>)
  {
    && FormatOk(fmt) && HEADER_SIZE <= interval < TWO32
    && (forall i :: 0 <= i < |slots| ==> |slots[i]| == fmt.size)
  }

  /** What a caller can check beforehand: the interval leaves room for the terminator past the last whole
      slot, or the last chunk is longer than that remainder. */
  predicate TerminatorFits(size: nat, interval: nat, n: nat)
    requires size > 0 && interval > 0
  {
    interval % size >= TRAILER_SIZE || (HEADER_SIZE + n * size) % interval > interval % size
  }

  lemma ModPlusSelf(a: nat, m: nat)
    requires m > 0
    ensures (a + m) % m == a % m
  {
    DivStep(a + m, m);
  }

  /** The bytes in hand when the last chunk of n slots is read. */
  lemma LastLenOf(size: nat, interval: nat, n: nat)
    requires size > 0 && interval >= HEADER_SIZE
    ensures var r := (HEADER_SIZE + n * size) % interval;
            LastLen(size, interval, (interval - HEADER_SIZE) % size, HEADER_SIZE + n * size) ==
              (interval - r) % size + r
  {
    var total := HEADER_SIZE + n * size;
    var r := total % interval;
    ModAtMost(total, interval);
    ModAdd(interval - HEADER_SIZE, total - r, size);
    assert interval - HEADER_SIZE + (total - r) == (interval - r) + n * size;
    MultipleVanishes(interval - r, n, size);
  }

  lemma MultipleVanishes(a: nat, n: nat, m: nat)
    requires m > 0
    ensures (a + n * m) % m == a % m
  {
    assert a + n * m == (a / m + n) * m + a % m;
    DivUnique(a + n * m, m, a / m + n, a % m);
  }

  /** (i - r) mod e + r is at least 8 exactly under TerminatorFits. */
  lemma FitsExactly(e: nat, i: nat, r: nat)
    requires e >= TRAILER_SIZE && r < i
    ensures (i - r) % e + r >= TRAILER_SIZE <==> i % e >= TRAILER_SIZE || r > i % e
  {
    var m, q := i % e, i / e;
    var last := (i - r) % e + r;
    if r <= m {
      assert i - r == q * e + (m - r);
      DivUnique(i - r, e, q, m - r);
      assert last == m;
    } else {
      ModAdd(i - r, r, e);
      assert last % e == m;
      ModAtMost(last, e);
      if last < TRAILER_SIZE { DivUnique(last, e, 0, last); }
    }
  }

  /** The first chunk: the header is skipped, the rest carried over. */
  lemma FirstRead(h: Hash, size: nat, interval: nat, head: Bytes, s: Bytes, t: Bytes)
    requires size > 0 && |head| == HEADER_SIZE && |head + s| == interval
    ensures ReadFrom(h, size, interval, Frame(h, interval, head + s + t), [], HEADER_SIZE) ==
            WithSlots(Live(Slots(size, s)), ReadFrom(h, size, interval, Frame(h, interval, t), Rest(size, s), 0))
  {
    var d := head + s + t;
    FirstChunk(h, interval, d);
    assert d[..interval] == head + s && d[interval..] == t;
    assert (head + s)[HEADER_SIZE..] == s;
  }

  /** The body cut where the first chunk ends. */
  lemma ReadParts(h: Hash, size: nat, interval: nat, head: Bytes, s: Bytes, t: Bytes, n: nat)
    requires size >= TRAILER_SIZE && |head| == HEADER_SIZE && |s| == interval - HEADER_SIZE
    requires |t| == HEADER_SIZE + n * size && EndsInTerm(s + t)
    ensures ReadFrom(h, size, interval, Frame(h, interval, head + s + t), [], HEADER_SIZE)
            == CleanResult(size, s + t, TerminatorFits(size, interval, n))
  {
    RestLength(size, s);
    FirstRead(h, size, interval, head, s, t);
    ReadClean(h, size, interval, t, Rest(size, s));
    FoundParts(size, interval, s, t, n);
    CleanJoin(size, s, t, TerminatorFits(size, interval, n));
  }

  lemma FoundParts(size: nat, interval: nat, s: Bytes, t: Bytes, n: nat)
    requires size >= TRAILER_SIZE && |s| == interval - HEADER_SIZE
    requires |t| == HEADER_SIZE + n * size && EndsInTerm(s + t)
    ensures Found(size, interval, Rest(size, s), t) <==> TerminatorFits(size, interval, n)
    ensures EndsInTerm(Rest(size, s) + t)
  {
    LongEnough(size, n, t);
    SameEnding(size, s, t);
    FoundByLength(size, interval, Rest(size, s), t);
    FoundLength(size, interval, s, t, n);
  }

  lemma LongEnough(size: nat, n: nat, t: Bytes)
    requires |t| == HEADER_SIZE + n * size
    ensures |t| >= TRAILER_SIZE
  {
    assert n * size >= 0;
  }

  lemma FoundLength(size: nat, interval: nat, s: Bytes, t: Bytes, n: nat)
    requires size >= TRAILER_SIZE && |s| == interval - HEADER_SIZE && |t| == HEADER_SIZE + n * size
    ensures LastLen(size, interval, |Rest(size, s)|, |t|) >= TRAILER_SIZE <==> TerminatorFits(size, interval, n)
  {
    RestLength(size, s);
    FitsByLength(size, interval, n);
  }

  lemma FoundByLength(size: nat, interval: nat, c: Bytes, t: Bytes)
    requires size > 0 && interval > 0 && EndsInTerm(c + t)
    ensures Found(size, interval, c, t) <==> LastLen(size, interval, |c|, |t|) >= TRAILER_SIZE
  {
  }

  /** The chunked read of the whole file comes to the slots of everything after the header. */
  lemma ReadWritten(h: Hash, fmt: Format, interval: nat, slots: seq<Slot>)
    requires Written(fmt, interval, slots)
    ensures ReadFrom(h, fmt.size, interval, Write(h, fmt, interval, slots), [], HEADER_SIZE)
            == CleanResult(fmt.size, Flatten(slots) + TermBlock(interval), TerminatorFits(fmt.size, interval, |slots|))
  {
    var body := Flatten(slots) + TermBlock(interval);
    SlotsOfFlatten(fmt.size, slots);
    BodyEndsInTerm(slots, interval);
    CutBody(h, fmt.size, interval, Header(fmt, interval), Flatten(slots), TermBlock(interval), |slots|);
  }

  lemma CutBody(h: Hash, size: nat, interval: nat, head: Bytes, x: Bytes, y: Bytes, n: nat)
    requires size >= TRAILER_SIZE && |head| == HEADER_SIZE <= interval
    requires |x| == n * size && |y| == interval && EndsInTerm(x + y)
    ensures ReadFrom(h, size, interval, Frame(h, interval, head + x + y), [], HEADER_SIZE)
            == CleanResult(size, x + y, TerminatorFits(size, interval, n))
  {
    var body := x + y;
    var s, t := body[..interval - HEADER_SIZE], body[interval - HEADER_SIZE..];
    assert body == s + t;
    ConcatAssoc(head, x, y);
    ConcatAssoc(head, s, t);
    ReadParts(h, size, interval, head, s, t, n);
  }

  lemma BodyEndsInTerm(slots: seq<Slot>, interval: nat)
    requires interval >= TRAILER_SIZE
    ensures EndsInTerm(Flatten(slots) + TermBlock(interval))
    ensures StripTerm(Flatten(slots) + TermBlock(interval)) == Flatten(slots) + Zeros(interval - TRAILER_SIZE)
  {
    var zeros := Flatten(slots) + Zeros(interval - TRAILER_SIZE);
    assert Flatten(slots) + TermBlock(interval) == zeros + TERM;
    TailOfConcat(zeros, TERM, TRAILER_SIZE);
    assert TERM[|TERM| - TRAILER_SIZE..] == TERM && zeros + TERM[..0] == zeros;
  }

  lemma FitsByLength(size: nat, interval: nat, n: nat)
    requires size >= TRAILER_SIZE && interval >= HEADER_SIZE
    ensures LastLen(size, interval, (interval - HEADER_SIZE) % size, HEADER_SIZE + n * size) >= TRAILER_SIZE
            <==> TerminatorFits(size, interval, n)
  {
    LastLenOf(size, interval, n);
    FitsExactly(size, interval, (HEADER_SIZE + n * size) % interval);
  }

  /** Slots and then zeros: only slots are live. */
  lemma SlotsThenZeros(size: nat, slots: seq<Slot>, n: nat)
    requires size >= 8 && forall i :: 0 <= i < |slots| ==> |slots[i]| == size
    ensures Live(Slots(size, Flatten(slots) + Zeros(n))) == Live(slots)
  {
    SlotsOfFlatten(size, slots);
    LiveSlotsConcat(size, Flatten(slots), Zeros(n));
    assert [] + Zeros(n) == Zeros(n);
    ZerosAreFiller(size, n);
  }

  /** The header the writer puts down is the one the reader accepts. */
  lemma HeaderAccepted(h: Hash, fmt: Format, interval: nat, slots: seq<Slot>)
    requires Written(fmt, interval, slots)
    ensures var p := Write(h, fmt, interval, slots);
            |p| >= HEADER_SIZE && p[..28] == fmt.magic && Get32(p[28..32]) == interval
  {
    var d := Logical(fmt, interval, slots);
    FirstChunk(h, interval, d);
    var p := Write(h, fmt, interval, slots);
    assert p[..HEADER_SIZE] == d[..HEADER_SIZE] == Header(fmt, interval);
    assert p[..28] == p[..HEADER_SIZE][..28] == fmt.magic;
    assert p[28..32] == p[..HEADER_SIZE][28..32] == PutBE(interval, 4);
    GetPut32(interval);
  }

  lemma CleanWhenFits(size: nat, interval: nat, slots: seq<Slot>)
    requires size >= 8 && interval >= TRAILER_SIZE
    requires forall i :: 0 <= i < |slots| ==> |slots[i]| == size
    ensures CleanResult(size, Flatten(slots) + TermBlock(interval), true) == Scan(Live(slots), 0, true)
  {
    BodyEndsInTerm(slots, interval);
    SlotsThenZeros(size, slots, interval - TRAILER_SIZE);
  }

  lemma CleanWhenMissed(size: nat, interval: nat, slots: seq<Slot>)
    requires size >= 8 && interval >= TRAILER_SIZE
    requires forall i :: 0 <= i < |slots| ==> |slots[i]| == size
    ensures CleanResult(size, Flatten(slots) + TermBlock(interval), false) ==
            Scan(Live(slots) + Live(Slots(size, TermBlock(interval))), 0, false)
  {
    SlotsOfFlatten(size, slots);
    LiveSlotsConcat(size, Flatten(slots), TermBlock(interval));
    assert [] + TermBlock(interval) == TermBlock(interval);
  }

  /** A cleanly closed file always reads without a checksum error; what else is found depends only on
      whether the terminator fits. */
  lemma ReadOutcome(h: Hash, fmt: Format, interval: nat, slots: seq<Slot>)
    requires Written(fmt, interval, slots)
    ensures ReadToc(h, fmt, Write(h, fmt, interval, slots)) ==
            if TerminatorFits(fmt.size, interval, |slots|) then Outcome.Read(Live(slots), 0, true)
            else Outcome.Read(Live(slots) + Live(Slots(fmt.size, TermBlock(interval))), 0, false)
  {
    HeaderAccepted(h, fmt, interval, slots);
    ReadWritten(h, fmt, interval, slots);
    if TerminatorFits(fmt.size, interval, |slots|) {
      CleanWhenFits(fmt.size, interval, slots);
    } else {
      CleanWhenMissed(fmt.size, interval, slots);
    }
  }

  /** TOC round trip, with its exact condition: a cleanly closed file reads back as the entries written that have an
      offset, in order and without an error, exactly when the terminator fits. */
  lemma RoundTrip(h: Hash, fmt: Format, interval: nat, slots: seq<Slot>)
    requires Written(fmt, interval, slots)
    ensures TerminatorFits(fmt.size, interval, |slots|) <==>
            ReadToc(h, fmt, Write(h, fmt, interval, slots)) == Outcome.Read(Live(slots), 0, true)
  {
    ReadOutcome(h, fmt, interval, slots);
  }

  /** Both stores: whenever the interval leaves room for the terminator past the last whole entry, any number of
      entries reads back. */
  lemma BothStoresReadBack(h: Hash, fmt: Format, interval: nat, slots: seq<Slot>)
    requires (fmt == VALUE_TOC || fmt == GROUP_TOC) && Written(fmt, interval, slots)
    requires interval % fmt.size >= TRAILER_SIZE && forall i :: 0 <= i < |slots| ==> IsLive(slots[i])
    ensures ReadToc(h, fmt, Write(h, fmt, interval, slots)) == Outcome.Read(slots, 0, true)
  {
    RoundTrip(h, fmt, interval, slots);
    LiveAll(slots);
  }

  // ---------------------------------------------------------------- the phantom entry

  lemma {:induction false} GetNonzero(s: Bytes, i: nat)
    requires i < |s| && s[i] != 0
    ensures GetBE(s) != 0
  {
    if i < |s| - 1 { GetNonzero(s[..|s| - 1], i); }
  }

  lemma {:induction false} ZeroMultiple(size: nat, n: nat)
    requires size > 0
    ensures Rest(size, Zeros(n * size)) == []
    decreases n
  {
    if n > 0 {
      assert n * size == (n - 1) * size + size;
      assert Zeros(n * size)[size..] == Zeros((n - 1) * size);
      ZeroMultiple(size, n - 1);
    }
  }

  /** The slot that holds the first bytes of the terminator when m bytes lie past it. */
  function TermSlot(size: nat, m: nat): Slot
    requires size >= TRAILER_SIZE && m < TRAILER_SIZE
  {
    Zeros(size - TRAILER_SIZE + m) + TERM[..TRAILER_SIZE - m]
  }

  lemma TermSlotIsLive(size: nat, m: nat)
    requires size >= 24 && m < TRAILER_SIZE
    ensures |TermSlot(size, m)| == size
    ensures IsLive(TermSlot(size, m)) <==> m < 4
  {
    var slot := TermSlot(size, m);
    if m < 4 {
      assert slot[size - 8..size - 4][m] == slot[size - 8 + m] == TERM[0] == 84;
      GetNonzero(slot[size - 8..size - 4], m);
    } else {
      ZeroSlotIsFiller(slot);
    }
  }

  lemma TermBlockShape(size: nat, q: nat, m: nat)
    requires size >= TRAILER_SIZE && m < TRAILER_SIZE && q >= 1
    ensures TermBlock(q * size + m) == Zeros((q - 1) * size) + (TermSlot(size, m) + TERM[TRAILER_SIZE - m..])
  {
    assert q * size == (q - 1) * size + size;
    assert TERM == TERM[..TRAILER_SIZE - m] + TERM[TRAILER_SIZE - m..];
  }

  /** When the terminator is missed, its bytes are taken for an entry exactly when fewer than 4 of them lie
      past the last whole slot. */
  lemma PhantomEntry(size: nat, interval: nat)
    requires size >= 24 && interval >= size && interval % size < TRAILER_SIZE
    ensures Live(Slots(size, TermBlock(interval))) ==
            if interval % size < 4 then [TermSlot(size, interval % size)] else []
  {
    var m, q := interval % size, interval / size;
    assert q >= 1;
    assert interval == q * size + m;
    TermBlockShape(size, q, m);
    TermBlockSlots(size, q - 1, m);
  }

  lemma TermBlockSlots(size: nat, q: nat, m: nat)
    requires size >= 24 && m < TRAILER_SIZE
    ensures Live(Slots(size, Zeros(q * size) + (TermSlot(size, m) + TERM[TRAILER_SIZE - m..]))) ==
            if m < 4 then [TermSlot(size, m)] else []
  {
    var slot, tail := TermSlot(size, m), TERM[TRAILER_SIZE - m..];
    TermSlotIsLive(size, m);
    OneSlot(size, slot, tail);
    ZerosAreFiller(size, q * size);
    ZeroMultiple(size, q);
    LiveSlotsConcat(size, Zeros(q * size), slot + tail);
    assert [] + (slot + tail) == slot + tail;
  }

  lemma OneSlot(size: nat, slot: Slot, tail: Bytes)
    requires size > 0 && |slot| == size && |tail| < size
    ensures Live(Slots(size, slot + tail)) == if IsLive(slot) then [slot] else []
  {
    assert (slot + tail)[..size] == slot && (slot + tail)[size..] == tail;
    assert Slots(size, slot + tail) == [slot] + Slots(size, tail) == [slot];
    var one := [slot];
    assert one[1..] == [];
    assert Filter(one, IsLive) == if IsLive(slot) then [slot] + Filter(one[1..], IsLive) else Filter(one[1..], IsLive);
  }

  // ---------------------------------------------------------------- the entry count

  /** valueTOCStat's arithmetic on the size of the file. */
  function TocStat(size: nat, interval: nat, fileSize: nat): int
    requires size > 0
  {
    (fileSize - fileSize / (interval + 4) * 4 - HEADER_SIZE - interval) / size
  }

  /** The count computed from the file size alone is the number of entries written. */
  lemma StatCountsEntries(h: Hash, fmt: Format, interval: nat, slots: seq<Slot>)
    requires FormatOk(fmt) && interval >= HEADER_SIZE
    requires forall i :: 0 <= i < |slots| ==> |slots[i]| == fmt.size
    ensures TocStat(fmt.size, interval, |Write(h, fmt, interval, slots)|) == |slots|
  {
    var d := Logical(fmt, interval, slots);
    SlotsOfFlatten(fmt.size, slots);
    FrameLength(h, interval, d);
    StatArithmetic(fmt.size, interval, |slots|);
  }

  lemma StatArithmetic(size: nat, interval: nat, n: nat)
    requires size > 0 && interval > 0
    ensures var d := HEADER_SIZE + n * size + interval;
            TocStat(size, interval, d + 4 * (d / interval)) == n
  {
    var d := HEADER_SIZE + n * size + interval;
    var q, r := d / interval, d % interval;
    assert d + 4 * q == q * (interval + 4) + r;
    DivUnique(d + 4 * q, interval + 4, q, r);
    DivUnique(n * size, size, n, 0);
  }

  // ---------------------------------------------------------------- the header

  /** Which files are read at all: exactly those that begin with the 32 bytes a writer of this format puts there, for
      some interval of at least 32. */
  lemma AcceptsExactly(h: Hash, fmt: Format, p: Bytes)
    requires FormatOk(fmt)
    ensures ReadToc(h, fmt, p) != HeaderError <==>
            exists i: nat :: HEADER_SIZE <= i < TWO32 && |p| >= HEADER_SIZE && p[..HEADER_SIZE] == Header(fmt, i)
  {
    if ReadToc(h, fmt, p) != HeaderError {
      PutGet(p[28..32]);
      assert p[..HEADER_SIZE] == p[..28] + p[28..32] == Header(fmt, Get32(p[28..32]));
    }
    if i: nat :| HEADER_SIZE <= i < TWO32 && |p| >= HEADER_SIZE && p[..HEADER_SIZE] == Header(fmt, i) {
      GetPut32(i);
      assert p[..28] == p[..HEADER_SIZE][..28] == fmt.magic;
      assert p[28..32] == p[..HEADER_SIZE][28..32] == PutBE(i, 4);
    }
  }

  /** So neither store reads the other's TOC files. */
  lemma OtherFormatRejected(h: Hash, interval: nat, slots: seq<Slot>)
    requires Written(VALUE_TOC, interval, slots)
    ensures ReadToc(h, GROUP_TOC, Write(h, VALUE_TOC, interval, slots)) == HeaderError
  {
    var p := Write(h, VALUE_TOC, interval, slots);
    assert VALUE_TOC.magic[0] == 'V' as int && GROUP_TOC.magic[0] == 'G' as int;
    FirstBytes(h, VALUE_TOC, interval, slots);
    assert p[..28][0] == p[0] == VALUE_TOC.magic[0];
  }

  /** A written file begins with its header. */
  lemma FirstBytes(h: Hash, fmt: Format, interval: nat, slots: seq<Slot>)
    requires Written(fmt, interval, slots)
    ensures var p := Write(h, fmt, interval, slots); |p| >= 28 && p[0] == fmt.magic[0]
  {
    var d := Logical(fmt, interval, slots);
    FirstChunk(h, interval, d);
  }
}
