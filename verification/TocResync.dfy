/** Resynchronisation: which entries of a damaged TOC the reader returns, and when it loses its place. */
module TocResync {
  import opened Base
  import opened Framing
  import opened TocFile
  import opened TocRoundTrip
  import opened TocDamage

  // ---------------------------------------------------------------- positions

  /** Where the j-th slot starts. */
  function Pos(size: nat, j: nat): nat { 32 + size * j }

  predicate Bad(bad: seq<bool>, c: int) { 0 <= c < |bad| && bad[c] }

  /** The slot at position a is lost when it touches a corrupt chunk or starts exactly where the chunk after a corrupt
      one starts. */
  predicate Keep(size: nat, interval: nat, bad: seq<bool>, a: nat)
    requires interval > 0 && size > 0
  {
    && !Bad(bad, a / interval) && !Bad(bad, (a + size - 1) / interval)
    && !(a % interval == 0 && Bad(bad, a / interval - 1))
  }

  ghost function Keeper(size: nat, interval: nat, bad: seq<bool>): iset<nat>
    requires interval > 0 && size > 0
  {
    iset a: nat | Keep(size, interval, bad, a)
  }

  lemma ChunkIs(interval: nat, c: nat, a: nat)
    requires interval > 0 && c * interval <= a < c * interval + interval
    ensures a / interval == c && a % interval == a - c * interval
  {
    DivUnique(a, interval, c, a - c * interval);
  }

  /** Every slot an intact chunk completes is kept. */
  lemma IntactKeeps(size: nat, interval: nat, bad: seq<bool>, c: nat, at: nat, a: nat, resuming: bool)
    requires 0 < size <= interval && at == c * interval && !Bad(bad, c)
    requires !resuming ==> c > 0 && !Bad(bad, c - 1)
    requires (if resuming then at < a else at - size < a) && a + size <= at + interval
    ensures Keep(size, interval, bad, a)
  {
    if a >= at {
      ChunkIs(interval, c, a);
      ChunkIs(interval, c, a + size - 1);
    } else {
      assert (c - 1) * interval == at - interval;
      ChunkIs(interval, c - 1, a);
      ChunkIs(interval, c, a + size - 1);
    }
  }

  /** No slot that a corrupt chunk touches, or that starts right after it, is kept. */
  lemma CorruptLoses(size: nat, interval: nat, bad: seq<bool>, c: nat, at: nat, a: nat)
    requires 0 < size <= interval && at == c * interval && Bad(bad, c)
    requires at - size < a <= at + interval
    ensures !Keep(size, interval, bad, a)
  {
    if a == at + interval {
      assert (c + 1) * interval == at + interval;
      ChunkIs(interval, c + 1, a);
    } else if a >= at {
      ChunkIs(interval, c, a);
    } else {
      ChunkIs(interval, c, a + size - 1);
    }
  }

  // ---------------------------------------------------------------- the kept slots

  /** The kept ones of the slots from the j-th to before the k-th. */
  ghost function Kept(keep: iset<nat>, size: nat, all: seq<Slot>, j: nat, k: nat): seq<Slot>
    decreases k - j
  {
    if j >= k || j >= |all| then []
    else (if Pos(size, j) in keep then [all[j]] else []) + Kept(keep, size, all, j + 1, k)
  }

  lemma {:induction false} KeptSplit(keep: iset<nat>, size: nat, all: seq<Slot>, i: nat, j: nat, k: nat)
    requires i <= j <= k
    ensures Kept(keep, size, all, i, k) == Kept(keep, size, all, i, j) + Kept(keep, size, all, j, k)
    decreases j - i
  {
    if i < j && i < |all| {
      KeptSplit(keep, size, all, i + 1, j, k);
    }
  }

  lemma {:induction false} KeptAll(keep: iset<nat>, size: nat, all: seq<Slot>, j: nat, k: nat)
    requires j <= k <= |all| && forall i: nat :: j <= i < k ==> Pos(size, i) in keep
    ensures Kept(keep, size, all, j, k) == all[j..k]
    decreases k - j
  {
    if j < k {
      KeptAll(keep, size, all, j + 1, k);
      assert Pos(size, j) in keep;
      assert all[j..k] == [all[j]] + all[j + 1..k];
    }
  }

  lemma {:induction false} KeptNone(keep: iset<nat>, size: nat, all: seq<Slot>, j: nat, k: nat)
    requires forall i: nat :: j <= i < k ==> Pos(size, i) !in keep
    ensures Kept(keep, size, all, j, k) == []
    decreases k - j
  {
    if j < k && j < |all| {
      assert Pos(size, j) !in keep;
      KeptNone(keep, size, all, j + 1, k);
    }
  }

  // ---------------------------------------------------------------- slots of a stretch

  lemma {:induction false} SlotsCount(size: nat, s: Bytes)
    requires size > 0
    ensures |Slots(size, s)| == |s| / size
    decreases |s|
  {
    if |s| >= size {
      SlotsCount(size, s[size..]);
      DivStep(|s|, size);
    } else {
      DivUnique(|s|, size, 0, |s|);
    }
  }

  lemma WholeFront(size: nat, front: Bytes, j: nat)
    requires size > 0 && |front| == j * size
    ensures |Slots(size, front)| == j && Rest(size, front) == []
  {
    SlotsCount(size, front);
    RestLength(size, front);
    DivUnique(|front|, size, j, 0);
  }

  lemma MiddleSlots(size: nat, front: Bytes, mid: Bytes, back: Bytes, j: nat)
    requires size > 0 && |front| == j * size
    ensures var all, n := Slots(size, front + (mid + back)), |Slots(size, mid)|;
            j + n <= |all| && Slots(size, mid) == all[j..j + n]
  {
    WholeFront(size, front, j);
    SlotsConcat(size, front, mid + back);
    SlotsConcat(size, mid, back);
    assert [] + (mid + back) == mid + back;
  }

  /** The slots of [from, hi) are those of everything after the header, from the j-th on. */
  lemma StretchSlots(size: nat, d: Bytes, j: nat, from: nat, hi: nat)
    requires size > 0 && from == Pos(size, j) <= hi <= |d| && from >= 32
    ensures var all, n := Slots(size, d[32..]), |Slots(size, d[from..hi])|;
            n == (hi - from) / size && j + n <= |all| && Slots(size, d[from..hi]) == all[j..j + n]
  {
    assert d[32..] == d[32..from] + (d[from..hi] + d[hi..]);
    assert |d[32..from]| == j * size;
    MiddleSlots(size, d[32..from], d[from..hi], d[hi..], j);
    SlotsCount(size, d[from..hi]);
  }

  // ---------------------------------------------------------------- from one chunk to the next

  lemma PosOrder(size: nat, i: nat, k: nat)
    requires i <= k
    ensures Pos(size, i) + size * (k - i) == Pos(size, k) && Pos(size, i) <= Pos(size, k)
  {
    assert size * k == size * i + size * (k - i);
    assert size * (k - i) >= 0;
  }

  lemma PosAfter(size: nat, i: nat, k: int)
    requires size > 0 && Pos(size, i) < 32 + size * k
    ensures k > i
  {
    assert size * k - size * i == size * (k - i);
  }

  lemma ModSplit(a: nat, m: nat)
    requires m > 0
    ensures a == m * (a / m) + a % m && 0 <= a % m < m && a / m >= 0
  {
  }

  /** An intact chunk takes whole slots and stays on slot boundaries. */
  lemma IntactMove(size: nat, interval: nat, at: nat, m: Mark, j: nat, n: nat)
    requires m.o < size <= interval && (m.resuming || m.o <= at) && From(size, at, m) == Pos(size, j)
    requires n == (at + interval - From(size, at, m)) / size
    ensures After(size, interval, m, false).o < size
    ensures From(size, at + interval, After(size, interval, m, false)) == Pos(size, j + n)
  {
    var len := at + interval - From(size, at, m);
    ModSplit(len, size);
    if m.resuming { ModMinus(m.o + interval, size); }
    PosOrder(size, j, j + n);
  }

  /** After a corrupt chunk met while resuming, the reader is on a slot boundary again exactly when this holds. */
  predicate Realigns(size: nat, at: nat)
    requires size > 0
  {
    (2 * at - 64) % size == 0
  }

  /** A corrupt chunk after an intact one: the reader resumes on the next slot boundary. */
  lemma FirstCorruptMove(size: nat, interval: nat, at: nat, m: Mark, j: nat) returns (k: nat)
    requires m.o < size <= interval && !m.resuming && m.o <= at && From(size, at, m) == Pos(size, j)
    ensures After(size, interval, m, true).o < size
    ensures From(size, at + interval, After(size, interval, m, true)) == Pos(size, k)
  {
    ModSplit(m.o + interval, size);
    var q := (m.o + interval) / size;
    k := j + q + 1;
    PosOrder(size, j, j + q);
    PosOrder(size, j + q, k);
  }

  /** A corrupt chunk met while resuming. */
  lemma NextCorruptMove(size: nat, interval: nat, at: nat, m: Mark, j: nat) returns (k: nat)
    requires m.o < size <= interval && m.resuming && From(size, at, m) == Pos(size, j) && Realigns(size, at)
    ensures After(size, interval, m, true).o < size
    ensures From(size, at + interval, After(size, interval, m, true)) == Pos(size, k)
  {
    var x := size - m.o + interval;
    ModSplit(x, size);
    var q, r := x / size, (2 * at - 64) / size;
    assert 2 * at - 64 == size * r;
    var i := r + 1 + q - j;
    assert size * i == size * r + size + size * q - size * j;
    assert From(size, at + interval, After(size, interval, m, true)) == 32 + size * i;
    PosAfter(size, j, i);
    k := i;
  }

  /** Either way the slots passed over are lost. */
  lemma PassedOver(size: nat, interval: nat, bad: seq<bool>, c: nat, at: nat, j: nat, k: nat, all: seq<Slot>)
    requires 0 < size <= interval && at == c * interval && Bad(bad, c)
    requires at < Pos(size, j) + size <= at + size + size && at + interval < Pos(size, k) <= at + interval + size
    ensures j <= k && Kept(Keeper(size, interval, bad), size, all, j, k) == []
  {
    PosAfter(size, j, k);
    forall i: nat | j <= i < k ensures Pos(size, i) !in Keeper(size, interval, bad) {
      PosOrder(size, j, i);
      PosOrder(size, i + 1, k);
      PosOrder(size, i, i + 1);
      CorruptLoses(size, interval, bad, c, at, Pos(size, i));
    }
    KeptNone(Keeper(size, interval, bad), size, all, j, k);
  }

  lemma OneTaken(size: nat, interval: nat, bad: seq<bool>, c: nat, at: nat, resuming: bool, j: nat, i: nat, k: nat)
    requires 0 < size <= interval && at == c * interval && !Bad(bad, c) && (!resuming ==> c > 0 && !Bad(bad, c - 1))
    requires (if resuming then at < Pos(size, j) else at - size < Pos(size, j)) && Pos(size, k) <= at + interval
    requires j <= i < k
    ensures Pos(size, i) in Keeper(size, interval, bad)
  {
    PosOrder(size, j, i);
    PosOrder(size, i, i + 1);
    PosOrder(size, i + 1, k);
    IntactKeeps(size, interval, bad, c, at, Pos(size, i), resuming);
  }

  /** The slots an intact chunk completes are kept. */
  lemma TakenAll(size: nat, interval: nat, bad: seq<bool>, c: nat, at: nat, resuming: bool, j: nat, n: nat,
                 all: seq<Slot>)
    requires 0 < size <= interval && at == c * interval && !Bad(bad, c) && (!resuming ==> c > 0 && !Bad(bad, c - 1))
    requires (if resuming then at < Pos(size, j) else at - size < Pos(size, j)) && Pos(size, j + n) <= at + interval
    requires j + n <= |all|
    ensures Kept(Keeper(size, interval, bad), size, all, j, j + n) == all[j..j + n]
  {
    forall i: nat | j <= i < j + n ensures Pos(size, i) in Keeper(size, interval, bad) {
      OneTaken(size, interval, bad, c, at, resuming, j, i, j + n);
    }
    KeptAll(Keeper(size, interval, bad), size, all, j, j + n);
  }

  // ---------------------------------------------------------------- up to any chunk

  /** The reader's mark when chunk c starts. */
  function MarkAt(size: nat, interval: nat, bad: seq<bool>, c: nat): (m: Mark)
    requires HEADER_SIZE <= size <= interval && c <= |bad|
    ensures m.o < size && m.resuming == (c == 0 || bad[c - 1])
  {
    if c == 0 then Start(size)
    else
      AfterOk(size, interval, 0, MarkAt(size, interval, bad, c - 1), bad[c - 1]);
      After(size, interval, MarkAt(size, interval, bad, c - 1), bad[c - 1])
  }

  /** Chunk i is corrupt and met while resuming. */
  predicate Twice(bad: seq<bool>, i: nat) { i < |bad| && bad[i] && (i == 0 || bad[i - 1]) }

  predicate StaysAligned(size: nat, interval: nat, bad: seq<bool>, i: nat)
    requires size > 0
  {
    Twice(bad, i) ==> Realigns(size, i * interval)
  }

  /** Up to chunk c, every corrupt chunk met while resuming leaves the reader on a slot boundary. */
  ghost predicate Aligned(size: nat, interval: nat, bad: seq<bool>, c: nat)
    requires size > 0
  {
    forall i: nat :: i < c ==> StaysAligned(size, interval, bad, i)
  }

  ghost function Prepend(ss: seq<Slot>, n: nat, r: Scan): Scan
  {
    match r case Panic => Panic case Scan(t, b, e) => Scan(ss + t, n + b, e)
  }

  lemma PrependSlots(ss: seq<Slot>, n: nat, tt: seq<Slot>, r: Scan)
    ensures Prepend(ss, n, WithSlots(tt, r)) == Prepend(ss + tt, n, r)
    ensures Prepend(ss, n, WithBad(r)) == Prepend(ss, n + 1, r)
  {
    if r.Scan? { ConcatAssoc(ss, tt, r.slots); }
  }

  lemma {:induction false} CountSnoc(bad: seq<bool>, b: bool)
    ensures CountBad(bad + [b]) == CountBad(bad) + (if b then 1 else 0)
  {
    if bad != [] {
      CountSnoc(bad[1..], b);
      assert (bad + [b])[1..] == bad[1..] + [b];
    } else {
      assert (bad + [b])[1..] == [];
    }
  }

  /** What the reader has returned, and what it still will, when chunk c starts. */
  ghost predicate UpTo(size: nat, interval: nat, bad: seq<bool>, d: Bytes, c: nat, at: nat, j: nat)
    requires HEADER_SIZE <= size <= interval && c <= |bad| && HEADER_SIZE <= |d|
  {
    var m := MarkAt(size, interval, bad, c);
    && (m.resuming || m.o <= at) && From(size, at, m) == Pos(size, j)
    && Expect(size, interval, bad, d, 0, 0, Start(size)) ==
       Prepend(Live(Kept(Keeper(size, interval, bad), size, Slots(size, d[32..]), 0, j)), CountBad(bad[..c]),
               Expect(size, interval, bad, d, c, at, m))
  }

  lemma KeptMore(keep: iset<nat>, size: nat, all: seq<Slot>, j: nat, k: nat)
    requires j <= k
    ensures Live(Kept(keep, size, all, 0, k)) == Live(Kept(keep, size, all, 0, j)) + Live(Kept(keep, size, all, j, k))
  {
    KeptSplit(keep, size, all, 0, j, k);
    FilterConcat(Kept(keep, size, all, 0, j), Kept(keep, size, all, j, k), IsLive);
  }

  /** One chunk of Expect. */
  lemma ExpectStep(size: nat, interval: nat, bad: seq<bool>, d: Bytes, c: nat, at: nat, m: Mark, next: Mark)
    requires m.o < size <= interval && (m.resuming || m.o <= at) && c < |bad| && at + interval <= |d|
    requires next == After(size, interval, m, bad[c]) && next.o < size
    ensures From(size, at, m) <= at + interval
    ensures Expect(size, interval, bad, d, c, at, m) ==
            if bad[c] then WithBad(Expect(size, interval, bad, d, c + 1, at + interval, next))
            else WithSlots(Live(Slots(size, d[From(size, at, m)..at + interval])),
                           Expect(size, interval, bad, d, c + 1, at + interval, next))
  {
  }

  /** The slots an intact chunk hands out, by their numbers. */
  lemma IntactTakes(size: nat, interval: nat, bad: seq<bool>, d: Bytes, c: nat, at: nat, m: Mark, next: Mark, j: nat)
    returns (k: nat)
    requires HEADER_SIZE <= size <= interval && at == c * interval && at + interval <= |d| && !Bad(bad, c)
    requires m.o < size && (m.resuming || m.o <= at) && (!m.resuming ==> c > 0 && !Bad(bad, c - 1))
    requires From(size, at, m) == Pos(size, j) && next == After(size, interval, m, false) && next.o < size
    ensures j <= k && From(size, at + interval, next) == Pos(size, k)
    ensures From(size, at, m) <= at + interval
    ensures Slots(size, d[From(size, at, m)..at + interval]) ==
            Kept(Keeper(size, interval, bad), size, Slots(size, d[32..]), j, k)
  {
    var from := From(size, at, m);
    StretchSlots(size, d, j, from, at + interval);
    var n := (at + interval - from) / size;
    k := j + n;
    IntactMove(size, interval, at, m, j, n);
    TakenAll(size, interval, bad, c, at, m.resuming, j, n, Slots(size, d[32..]));
  }

  /** The slots a corrupt chunk passes over, by their numbers. */
  lemma CorruptSkips(size: nat, interval: nat, bad: seq<bool>, c: nat, at: nat, m: Mark, next: Mark, j: nat,
                     all: seq<Slot>)
    returns (k: nat)
    requires HEADER_SIZE <= size <= interval && at == c * interval && Bad(bad, c)
    requires m.o < size && (m.resuming || m.o <= at) && (m.resuming ==> Realigns(size, at))
    requires From(size, at, m) == Pos(size, j) && next == After(size, interval, m, true) && next.o < size
    ensures j <= k && From(size, at + interval, next) == Pos(size, k)
    ensures Kept(Keeper(size, interval, bad), size, all, j, k) == []
  {
    if m.resuming {
      k := NextCorruptMove(size, interval, at, m, j);
    } else {
      k := FirstCorruptMove(size, interval, at, m, j);
    }
    PassedOver(size, interval, bad, c, at, j, k, all);
  }

  /** The bookkeeping of one chunk more. */
  lemma OneMore(size: nat, keep: iset<nat>, all: seq<Slot>, bad: seq<bool>, c: nat, j: nat, k: nat, here: Scan,
                rest: Scan)
    requires j <= k && c < |bad|
    requires if bad[c] then Kept(keep, size, all, j, k) == [] && here == WithBad(rest)
             else here == WithSlots(Live(Kept(keep, size, all, j, k)), rest)
    ensures Prepend(Live(Kept(keep, size, all, 0, j)), CountBad(bad[..c]), here) ==
            Prepend(Live(Kept(keep, size, all, 0, k)), CountBad(bad[..c + 1]), rest)
  {
    KeptMore(keep, size, all, j, k);
    assert bad[..c + 1] == bad[..c] + [bad[c]];
    CountSnoc(bad[..c], bad[c]);
    PrependSlots(Live(Kept(keep, size, all, 0, j)), CountBad(bad[..c]), Live(Kept(keep, size, all, j, k)), rest);
    assert Live([]) == [];
  }

  lemma MarkNext(size: nat, interval: nat, bad: seq<bool>, c: nat)
    requires HEADER_SIZE <= size <= interval && c < |bad|
    ensures MarkAt(size, interval, bad, c + 1) == After(size, interval, MarkAt(size, interval, bad, c), bad[c])
  {
  }

  /** What one chunk does to the marks, and to Expect. */
  lemma ChunkMoves(size: nat, interval: nat, bad: seq<bool>, d: Bytes, c: nat, at: nat, end: nat, j: nat)
    returns (k: nat, here: Scan, rest: Scan)
    requires HEADER_SIZE <= size <= interval && c < |bad| && at == c * interval && at + interval == end <= |d|
    requires var m := MarkAt(size, interval, bad, c); (m.resuming || m.o <= at) && From(size, at, m) == Pos(size, j)
    requires Twice(bad, c) ==> Realigns(size, at)
    ensures here == Expect(size, interval, bad, d, c, at, MarkAt(size, interval, bad, c))
    ensures var next := MarkAt(size, interval, bad, c + 1);
            && (next.resuming || next.o <= end) && From(size, end, next) == Pos(size, k)
            && rest == Expect(size, interval, bad, d, c + 1, end, next)
    ensures var kept := Kept(Keeper(size, interval, bad), size, Slots(size, d[32..]), j, k);
            j <= k && if bad[c] then kept == [] && here == WithBad(rest) else here == WithSlots(Live(kept), rest)
  {
    var m, next := MarkAt(size, interval, bad, c), MarkAt(size, interval, bad, c + 1);
    MarkNext(size, interval, bad, c);
    ExpectStep(size, interval, bad, d, c, at, m, next);
    here := Expect(size, interval, bad, d, c, at, m);
    rest := Expect(size, interval, bad, d, c + 1, end, next);
    if bad[c] {
      k := CorruptSkips(size, interval, bad, c, at, m, next, j, Slots(size, d[32..]));
    } else {
      k := IntactTakes(size, interval, bad, d, c, at, m, next, j);
    }
  }

  lemma ChunkUpTo(size: nat, interval: nat, bad: seq<bool>, d: Bytes, c: nat, at: nat, end: nat,
                  j: nat) returns (k: nat)
    requires HEADER_SIZE <= size <= interval && c < |bad| && at == c * interval && at + interval == end <= |d|
    requires UpTo(size, interval, bad, d, c, at, j) && (Twice(bad, c) ==> Realigns(size, at))
    ensures UpTo(size, interval, bad, d, c + 1, end, k)
  {
    var here, rest;
    k, here, rest := ChunkMoves(size, interval, bad, d, c, at, end, j);
    OneMore(size, Keeper(size, interval, bad), Slots(size, d[32..]), bad, c, j, k, here, rest);
  }

  lemma StartUpTo(size: nat, interval: nat, bad: seq<bool>, d: Bytes)
    requires HEADER_SIZE <= size <= interval && HEADER_SIZE <= |d|
    ensures UpTo(size, interval, bad, d, 0, 0, 0)
  {
    assert bad[..0] == [];
    assert Pos(size, 0) == 32;
    var r := Expect(size, interval, bad, d, 0, 0, Start(size));
    assert Prepend([], 0, r) == r by { if r.Scan? { assert [] + r.slots == r.slots; } }
  }

  lemma AlignedBefore(size: nat, interval: nat, bad: seq<bool>, c: nat)
    requires size > 0 && c > 0 && Aligned(size, interval, bad, c)
    ensures Aligned(size, interval, bad, c - 1)
    ensures Twice(bad, c - 1) ==> Realigns(size, (c - 1) * interval)
  {
    assert StaysAligned(size, interval, bad, c - 1);
  }

  /** Up to any chunk the reader returns exactly the kept slots, as long as it stays on slot boundaries. */
  lemma {:induction false} ReadsUpTo(size: nat, interval: nat, bad: seq<bool>, d: Bytes, c: nat,
                                     at: nat) returns (j: nat)
    requires HEADER_SIZE <= size <= interval && c <= |bad| && at == c * interval && at <= |d| && HEADER_SIZE <= |d|
    requires Aligned(size, interval, bad, c)
    ensures UpTo(size, interval, bad, d, c, at, j)
    decreases c
  {
    if c == 0 {
      StartUpTo(size, interval, bad, d);
      j := 0;
    } else {
      PrevAt(c, interval, at);
      AlignedBefore(size, interval, bad, c);
      j := ReadsUpTo(size, interval, bad, d, c - 1, at - interval);
      j := ChunkUpTo(size, interval, bad, d, c - 1, at - interval, at, j);
    }
  }

  lemma PrevAt(c: nat, interval: nat, at: nat)
    requires c > 0 && at == c * interval
    ensures at >= interval && at - interval == (c - 1) * interval
  {
    assert c * interval == (c - 1) * interval + interval;
    assert (c - 1) * interval >= 0;
  }

  // ---------------------------------------------------------------- the end of the file

  /** A damaged copy p of the closed TOC of es, its header bytes intact. */
  ghost predicate DamagedCopy(h: Hash, fmt: Format, interval: nat, es: seq<Slot>, p: Bytes, bad: seq<bool>)
    requires interval >= HEADER_SIZE
  {
    && Damaged(h, interval, Logical(fmt, interval, es), 0, p, bad, 0)
    && |p| >= HEADER_SIZE && p[..HEADER_SIZE] == Header(fmt, interval)
  }

  /** A TOC whose entries are no longer than the header-sized minimum allows and no longer than an interval. */
  ghost predicate Framed(fmt: Format, interval: nat, es: seq<Slot>)
  {
    Written(fmt, interval, es) && HEADER_SIZE <= fmt.size <= interval
  }

  /** The bytes past the last chunk boundary. */
  function Remainder(size: nat, interval: nat, n: nat): nat
    requires interval > 0
  {
    (HEADER_SIZE + n * size) % interval
  }

  /** The last full chunk is corrupt and the reader is to skip more than what follows it. */
  predicate Crashes(size: nat, interval: nat, n: nat, lastBad: bool)
    requires size > 0 && interval > 0
  {
    lastBad && Remainder(size, interval, n) <= interval % size
  }

  /** The terminator is still whole in what is in hand at the end. */
  predicate Terminated(size: nat, interval: nat, n: nat, lastBad: bool)
    requires size > 0 && interval > 0
  {
    var r, m := Remainder(size, interval, n), interval % size;
    if lastBad then r > m && (m >= TRAILER_SIZE || r > m + size) else m >= TRAILER_SIZE || r > m
  }

  /** What is in hand at the end is determined by its remainders. */
  lemma LastExact(size: nat, interval: nat, r: nat, o: nat, k: nat)
    requires size >= TRAILER_SIZE && o < size && r + o == size * k + interval % size
    ensures var m := interval % size;
            && (r + o < size <==> r <= m)
            && (r + o >= TRAILER_SIZE <==> m >= TRAILER_SIZE || r > m)
            && (r + o >= size + TRAILER_SIZE <==> r > m && (m >= TRAILER_SIZE || r > m + size))
  {
    var m := interval % size;
    if k == 0 {
    } else if k == 1 {
      assert size * k == size;
    } else {
      assert size * k == size * (k - 2) + 2 * size;
      assert size * (k - 2) >= 0;
    }
  }

  lemma NegMultiple(a: nat, b: nat, i: int, m: nat)
    requires m > 0 && a == b + m * i
    ensures a % m == b % m
  {
    if i >= 0 {
      MultipleVanishes(b, i, m);
      assert b + i * m == a;
    } else {
      MultipleVanishes(a, -i, m);
      assert a + (-i) * m == b;
    }
  }

  lemma EndGap(size: nat, interval: nat, n: nat, at: nat, r: nat, o: nat, i: nat)
    requires size > 0 && at + r == HEADER_SIZE + n * size + interval && at + size - o == Pos(size, i)
    ensures (r + o) % size == interval % size
  {
    assert size * (n + 1 - i) == size * n + size - size * i;
    NegMultiple(r + o, interval, n + 1 - i, size);
  }

  /** The last full chunk and what follows it. */
  lemma EndChunk(size: nat, interval: nat, n: nat, total: nat, chunks: nat, end: nat)
    requires interval > 0 && total == HEADER_SIZE + n * size + interval && chunks == total / interval
    requires end == chunks * interval
    ensures chunks > 0 && end <= total < end + interval && total - end == Remainder(size, interval, n)
  {
    DivStep(total, interval);
    assert total == chunks * interval + total % interval;
    ModPlusSelf(HEADER_SIZE + n * size, interval);
  }

  /** The reader's place when the last full chunk has been read. */
  lemma EndPlace(size: nat, interval: nat, n: nat, end: nat, r: nat, m: Mark, j: nat)
    requires HEADER_SIZE <= size <= interval && end + r == HEADER_SIZE + n * size + interval
    requires r == Remainder(size, interval, n)
    requires m.o < size && (m.resuming || m.o <= end) && From(size, end, m) == Pos(size, j)
    ensures From(size, end, m) > end + r <==> Crashes(size, interval, n, m.resuming)
    ensures From(size, end, m) + TRAILER_SIZE <= end + r <==> Terminated(size, interval, n, m.resuming)
  {
    PosOrder(size, j, j + 1);
    EndGap(size, interval, n, end, r, m.o, if m.resuming then j else j + 1);
    ModSplit(r + m.o, size);
    LastExact(size, interval, r, m.o, (r + m.o) / size);
  }

  // ---------------------------------------------------------------- in terms of the entries written

  lemma HeadAndBody(head: Bytes, x: Bytes, y: Bytes)
    requires |head| == 32 && EndsInTerm(x + y)
    ensures (head + x + y)[32..] == x + y && EndsInTerm(head + x + y)
  {
    ConcatAssoc(head, x, y);
    TailOfConcat(head, x + y, TRAILER_SIZE);
  }

  lemma LogicalShape(fmt: Format, interval: nat, es: seq<Slot>)
    requires Framed(fmt, interval, es)
    ensures var d := Logical(fmt, interval, es);
            && |d| == HEADER_SIZE + |es| * fmt.size + interval && EndsInTerm(d)
            && d[32..] == Flatten(es) + TermBlock(interval)
  {
    SlotsOfFlatten(fmt.size, es);
    BodyEndsInTerm(es, interval);
    HeadAndBody(Header(fmt, interval), Flatten(es), TermBlock(interval));
  }

  /** The slots after the header: the entries, then those of the terminator block. */
  lemma SlotsAre(size: nat, interval: nat, es: seq<Slot>)
    requires size > 0 && interval >= TRAILER_SIZE && forall i :: 0 <= i < |es| ==> |es[i]| == size
    ensures Slots(size, Flatten(es) + TermBlock(interval)) == es + Slots(size, TermBlock(interval))
  {
    SlotsOfFlatten(size, es);
    SlotsConcat(size, Flatten(es), TermBlock(interval));
    assert [] + TermBlock(interval) == TermBlock(interval);
  }

  lemma {:induction false} KeptPrefix(keep: iset<nat>, size: nat, es: seq<Slot>, more: seq<Slot>, j: nat, n: nat)
    requires n <= |es|
    ensures Kept(keep, size, es + more, j, n) == Kept(keep, size, es, j, n)
    decreases n - j
  {
    if j < n { KeptPrefix(keep, size, es, more, j + 1, n); }
  }

  lemma {:induction false} KeptBeyond(keep: iset<nat>, size: nat, all: seq<Slot>, j: nat, k: nat)
    requires j <= |all| <= k
    ensures Kept(keep, size, all, j, k) == Kept(keep, size, all, j, |all|)
    decreases |all| - j
  {
    if j < |all| { KeptBeyond(keep, size, all, j + 1, k); }
  }

  lemma {:induction false} FillerKept(keep: iset<nat>, size: nat, all: seq<Slot>, j: nat, k: nat)
    requires forall i: nat :: j <= i < k && i < |all| ==> !IsLive(all[i])
    ensures Live(Kept(keep, size, all, j, k)) == []
    decreases k - j
  {
    if j < k && j < |all| {
      FillerKept(keep, size, all, j + 1, k);
      var here := if Pos(size, j) in keep then [all[j]] else [];
      FilterConcat(here, Kept(keep, size, all, j + 1, k), IsLive);
    }
  }

  lemma {:induction false} SlotOf(size: nat, s: Bytes, i: nat, at: nat)
    requires size > 0 && i < |Slots(size, s)| && at == size * i
    ensures at + size <= |s| && Slots(size, s)[i] == s[at..at + size]
    decreases i
  {
    if i > 0 {
      assert size * i == size * (i - 1) + size;
      SlotOf(size, s[size..], i - 1, at - size);
      assert s[size..] == s[size..size + (|s| - size)];
      SliceOfSlice(s, size, |s| - size, at - size, at);
    }
  }

  /** The i-th slot is the bytes at its position. */
  lemma SlotBytes(size: nat, d: Bytes, i: nat)
    requires size > 0 && |d| >= 32 && i < |Slots(size, d[32..])|
    ensures Pos(size, i) + size <= |d| && Slots(size, d[32..])[i] == d[Pos(size, i)..Pos(size, i) + size]
  {
    var at := size * i;
    SlotOf(size, d[32..], i, at);
    assert d[32..][at..at + size] == d[32 + at..32 + at + size];
  }

  /** Below the terminator everything from a on is zero. */
  ghost predicate ZeroFrom(d: Bytes, a: nat)
  {
    forall k :: a <= k < |d| - TRAILER_SIZE ==> d[k] == 0
  }

  lemma ZerosBelow(fmt: Format, interval: nat, es: seq<Slot>)
    requires Framed(fmt, interval, es)
    ensures ZeroFrom(Logical(fmt, interval, es), Pos(fmt.size, |es|))
  {
    var front := Header(fmt, interval) + Flatten(es);
    SlotsOfFlatten(fmt.size, es);
    assert |front| == Pos(fmt.size, |es|);
    forall k | |front| <= k < |front| + interval - TRAILER_SIZE ensures (front + TermBlock(interval))[k] == 0 {
      assert (front + TermBlock(interval))[k] == TermBlock(interval)[k - |front|];
    }
  }

  lemma FillerAt(size: nat, d: Bytes, n: nat, i: nat, j: nat)
    requires size >= 8 && |d| >= 32 && n <= i < j && i < |Slots(size, d[32..])|
    requires ZeroFrom(d, Pos(size, n)) && Pos(size, j) + TRAILER_SIZE <= |d|
    ensures !IsLive(Slots(size, d[32..])[i])
  {
    SlotBytes(size, d, i);
    PosOrder(size, n, i);
    PosOrder(size, i, i + 1);
    PosOrder(size, i + 1, j);
    var slot := d[Pos(size, i)..Pos(size, i) + size];
    assert forall k :: 0 <= k < size ==> slot[k] == d[Pos(size, i) + k];
    ZeroSlotIsFiller(slot);
  }

  lemma ZeroTail(size: nat, s: Bytes)
    requires size >= 8 && forall i :: 0 <= i < |s| ==> s[i] == 0
    ensures Live(Slots(size, s)) == []
  {
    assert s == Zeros(|s|);
    ZerosAreFiller(size, |s|);
  }

  /** The slots of the terminator block that end up as entries: none when the terminator is found. */
  ghost function Phantoms(fmt: Format, interval: nat, es: seq<Slot>, bad: seq<bool>): seq<Slot>
    requires 0 < fmt.size && interval >= HEADER_SIZE && |bad| > 0
  {
    if Terminated(fmt.size, interval, |es|, bad[|bad| - 1]) then []
    else
      var all := es + Slots(fmt.size, TermBlock(interval));
      Live(Kept(Keeper(fmt.size, interval, bad), fmt.size, all, |es|, |all|))
  }

  /** With the terminator found, nothing past the entries is live, before the last boundary or after it. */
  lemma FoundSlots(size: nat, d: Bytes, n: nat, keep: iset<nat>, j: nat)
    requires size >= 8 && |d| >= 32 && EndsInTerm(d) && n <= j && ZeroFrom(d, Pos(size, n))
    requires Pos(size, j) + TRAILER_SIZE <= |d|
    ensures Live(Kept(keep, size, Slots(size, d[32..]), n, j)) == []
    ensures Live(Slots(size, StripTerm(d[Pos(size, j)..]))) == []
  {
    var all := Slots(size, d[32..]);
    forall i: nat | n <= i < j && i < |all| ensures !IsLive(all[i]) { FillerAt(size, d, n, i, j); }
    FillerKept(keep, size, all, n, j);
    PosOrder(size, n, j);
    SuffixEnds(d, Pos(size, j));
    ZeroTail(size, StripTerm(d[Pos(size, j)..]));
  }

  /** A suffix of d ends in the terminator exactly when it is long enough. */
  lemma SuffixEnds(d: Bytes, from: nat)
    requires EndsInTerm(d) && from <= |d|
    ensures EndsInTerm(d[from..]) <==> |d| - from >= TRAILER_SIZE
    ensures |d| - from >= TRAILER_SIZE ==> StripTerm(d[from..]) == d[from..|d| - TRAILER_SIZE]
  {
    assert d == d[..from] + d[from..];
    if |d| - from >= TRAILER_SIZE { TailOfConcat(d[..from], d[from..], TRAILER_SIZE); }
  }

  // ---------------------------------------------------------------- what the reader returns

  ghost function Whole(r: Scan): Outcome
  {
    match r case Panic => Crashed case Scan(ss, bad, term) => Outcome.Read(ss, bad, term)
  }

  lemma DamagedHeader(fmt: Format, interval: nat, p: Bytes)
    requires |fmt.magic| == 28 && HEADER_SIZE <= interval < TWO32
    requires |p| >= HEADER_SIZE && p[..HEADER_SIZE] == Header(fmt, interval)
    ensures p[..28] == fmt.magic && Get32(p[28..32]) == interval
  {
    assert p[..28] == p[..HEADER_SIZE][..28];
    assert p[28..32] == p[..HEADER_SIZE][28..32] == PutBE(interval, 4);
    GetPut32(interval);
  }

  /** On any damage that leaves the header, the reader does what Expect says. */
  lemma ReadsExpected(h: Hash, fmt: Format, interval: nat, es: seq<Slot>, p: Bytes, bad: seq<bool>)
    requires Framed(fmt, interval, es) && DamagedCopy(h, fmt, interval, es, p, bad)
    ensures ReadToc(h, fmt, p) ==
            Whole(Expect(fmt.size, interval, bad, Logical(fmt, interval, es), 0, 0, Start(fmt.size)))
  {
    var d := Logical(fmt, interval, es);
    ReadDamaged(h, fmt.size, interval, d, p, bad, 0, 0, Start(fmt.size));
    DamagedHeader(fmt, interval, p);
  }

  /** The last, partial chunk. */
  lemma TailIs(size: nat, interval: nat, d: Bytes, n: nat, end: nat, m: Mark, j: nat)
    requires HEADER_SIZE <= size <= interval && |d| == HEADER_SIZE + n * size + interval && EndsInTerm(d)
    requires end <= |d| < end + interval && |d| - end == Remainder(size, interval, n) && ZeroFrom(d, Pos(size, n))
    requires m.o < size && (m.resuming || m.o <= end) && From(size, end, m) == Pos(size, j)
    ensures n <= j
    ensures Tail(size, d, end, m) ==
            if Crashes(size, interval, n, m.resuming) then Panic
            else Scan([], 0, Terminated(size, interval, n, m.resuming))
    ensures !Crashes(size, interval, n, m.resuming) && !Terminated(size, interval, n, m.resuming) ==>
              |Slots(size, d[32..])| <= j
    ensures Terminated(size, interval, n, m.resuming) ==> Pos(size, j) + TRAILER_SIZE <= |d|
  {
    EndPlace(size, interval, n, end, |d| - end, m, j);
    PosOrder(size, j, j + 1);
    PosAfter(size, n, j + 1);
    if Pos(size, j) <= |d| {
      SuffixEnds(d, Pos(size, j));
      if Pos(size, j) + TRAILER_SIZE <= |d| {
        FoundSlots(size, d, n, iset{}, j);
      } else {
        ShortTail(size, d, j);
      }
    }
  }

  /** Fewer bytes than a terminator past a slot boundary: no slot is left. */
  lemma ShortTail(size: nat, d: Bytes, j: nat)
    requires size >= TRAILER_SIZE && |d| >= 32 && Pos(size, j) <= |d| < Pos(size, j) + TRAILER_SIZE
    ensures Live(Slots(size, StripTerm(d[Pos(size, j)..]))) == [] && |Slots(size, d[32..])| <= j
  {
    var r := |d| - Pos(size, j);
    SlotsCount(size, d[32..]);
    assert |d[32..]| == j * size + r;
    DivUnique(|d[32..]|, size, j, r);
  }

  /** All that is live among the kept slots: entries, and phantoms when the terminator is missed. */
  lemma KeptAre(fmt: Format, interval: nat, es: seq<Slot>, bad: seq<bool>, j: nat, terminated: bool)
    requires Framed(fmt, interval, es) && |bad| > 0 && |es| <= j
    requires terminated == Terminated(fmt.size, interval, |es|, bad[|bad| - 1])
    requires var d := Logical(fmt, interval, es);
             if terminated then Pos(fmt.size, j) + TRAILER_SIZE <= |d| else |Slots(fmt.size, d[32..])| <= j
    ensures var keep, all := Keeper(fmt.size, interval, bad), Slots(fmt.size, Logical(fmt, interval, es)[32..]);
            Live(Kept(keep, fmt.size, all, 0, j)) ==
              Live(Kept(keep, fmt.size, es, 0, |es|)) + Phantoms(fmt, interval, es, bad)
  {
    var d, size, n, keep := Logical(fmt, interval, es), fmt.size, |es|, Keeper(fmt.size, interval, bad);
    LogicalShape(fmt, interval, es);
    SlotsAre(size, interval, es);
    var all := es + Slots(size, TermBlock(interval));
    KeptMore(keep, size, all, n, j);
    KeptPrefix(keep, size, es, Slots(size, TermBlock(interval)), 0, n);
    if terminated {
      ZerosBelow(fmt, interval, es);
      FoundSlots(size, d, n, keep, j);
    } else {
      KeptBeyond(keep, size, all, n, j);
    }
  }

  /** The whole of Expect, with the number of the last slot boundary. */
  lemma ExpectEnd(size: nat, interval: nat, bad: seq<bool>, d: Bytes, n: nat) returns (j: nat)
    requires HEADER_SIZE <= size <= interval && |d| == HEADER_SIZE + n * size + interval && EndsInTerm(d)
    requires ZeroFrom(d, Pos(size, n)) && |bad| == |d| / interval && Aligned(size, interval, bad, |bad|)
    ensures |bad| > 0 && n <= j
    ensures var lastBad, keep := bad[|bad| - 1], Keeper(size, interval, bad);
            && (Crashes(size, interval, n, lastBad) ==>
                  Expect(size, interval, bad, d, 0, 0, Start(size)) == Panic)
            && (!Crashes(size, interval, n, lastBad) ==>
                  && Expect(size, interval, bad, d, 0, 0, Start(size)) ==
                     Scan(Live(Kept(keep, size, Slots(size, d[32..]), 0, j)), CountBad(bad),
                          Terminated(size, interval, n, lastBad))
                  && (if Terminated(size, interval, n, lastBad) then Pos(size, j) + TRAILER_SIZE <= |d|
                      else |Slots(size, d[32..])| <= j))
  {
    var chunks := |bad|;
    var end := chunks * interval;
    EndChunk(size, interval, n, |d|, chunks, end);
    j := ReadsUpTo(size, interval, bad, d, chunks, end);
    TailIs(size, interval, d, n, end, MarkAt(size, interval, bad, chunks), j);
    assert bad[..chunks] == bad;
  }

  /** What the reader returns of a damaged TOC while it keeps its place. */
  ghost function Returned(fmt: Format, interval: nat, es: seq<Slot>, bad: seq<bool>): Outcome
    requires 0 < fmt.size && interval >= HEADER_SIZE && |bad| > 0
  {
    var size, lastBad := fmt.size, bad[|bad| - 1];
    if Crashes(size, interval, |es|, lastBad) then Crashed
    else Outcome.Read(Live(Kept(Keeper(size, interval, bad), size, es, 0, |es|)) + Phantoms(fmt, interval, es, bad),
                      CountBad(bad), Terminated(size, interval, |es|, lastBad))
  }

  lemma ExpectReturned(fmt: Format, interval: nat, es: seq<Slot>, bad: seq<bool>)
    requires Framed(fmt, interval, es) && |bad| == |Logical(fmt, interval, es)| / interval
    requires Aligned(fmt.size, interval, bad, |bad|)
    ensures |bad| > 0
    ensures Whole(Expect(fmt.size, interval, bad, Logical(fmt, interval, es), 0, 0, Start(fmt.size))) ==
            Returned(fmt, interval, es, bad)
  {
    LogicalShape(fmt, interval, es);
    ZerosBelow(fmt, interval, es);
    var j := ExpectEnd(fmt.size, interval, bad, Logical(fmt, interval, es), |es|);
    var lastBad := bad[|bad| - 1];
    if !Crashes(fmt.size, interval, |es|, lastBad) {
      KeptAre(fmt, interval, es, bad, j, Terminated(fmt.size, interval, |es|, lastBad));
    }
  }

  /** Resynchronisation, exactly. Whatever chunks are corrupt, as long as every corrupt chunk met while resuming
      starts where the reader realigns: it crashes if and only if the last full chunk is corrupt and what follows is
      shorter than what it skips; otherwise it returns the written entries that neither touch a corrupt chunk nor
      start right after one, in order, then any phantoms, and counts the corrupt chunks. */
  lemma Resynchronises(h: Hash, fmt: Format, interval: nat, es: seq<Slot>, p: Bytes, bad: seq<bool>)
    requires Framed(fmt, interval, es) && DamagedCopy(h, fmt, interval, es, p, bad)
    requires Aligned(fmt.size, interval, bad, |bad|)
    ensures |bad| > 0 && ReadToc(h, fmt, p) == Returned(fmt, interval, es, bad)
  {
    DamagedCount(h, interval, Logical(fmt, interval, es), 0, p, bad, 0);
    ExpectReturned(fmt, interval, es, bad);
    ReadsExpected(h, fmt, interval, es, p, bad);
  }

  // ---------------------------------------------------------------- when the reader loses its place

  lemma Remainders(m: nat, q: int, r: nat, q': int, r': nat)
    requires r < m && r' < m && q * m + r == q' * m + r'
    ensures r == r'
  {
    assert (q - q') * m == q * m - q' * m;
    assert (q' - q) * m == q' * m - q * m;
    if q > q' {
      MulAtLeast(q - q', m);
    } else if q < q' {
      MulAtLeast(q' - q, m);
    }
  }

  lemma IntShift(a: int, k: int, m: nat)
    requires m > 0
    ensures (a + m * k) % m == a % m
  {
    var q, q' := a / m, (a + m * k) / m;
    assert q * m + a % m == a && q' * m + (a + m * k) % m == a + m * k;
    assert (q + k) * m == q * m + m * k;
    Remainders(m, q + k, a % m, q', (a + m * k) % m);
  }

  /** Position a is where a slot starts. */
  predicate OnPlace(size: nat, a: int)
    requires size > 0
  {
    (a - 32) % size == 0
  }

  /** s is a window of d that starts inside a slot. */
  ghost predicate OffAt(size: nat, d: Bytes, s: Slot, a: nat)
    requires size > 0
  {
    a + size <= |d| && s == d[a..a + size] && !OnPlace(size, a)
  }

  ghost predicate OffPlace(size: nat, d: Bytes, s: Slot)
    requires size > 0
  {
    exists a: nat :: OffAt(size, d, s, a)
  }

  ghost predicate AllOff(size: nat, d: Bytes, ss: seq<Slot>)
    requires size > 0
  {
    forall i :: 0 <= i < |ss| ==> OffPlace(size, d, ss[i])
  }

  lemma {:induction false} SlotsOff(size: nat, d: Bytes, from: nat, hi: nat)
    requires size > 0 && from <= hi <= |d| && !OnPlace(size, from)
    ensures AllOff(size, d, Slots(size, d[from..hi]))
    decreases hi - from
  {
    if hi - from >= size {
      IntShift(from - 32, 1, size);
      SlotsOff(size, d, from + size, hi);
      var s := d[from..hi];
      assert s[..size] == d[from..from + size] && s[size..] == d[from + size..hi];
      assert OffAt(size, d, s[..size], from);
    }
  }

  lemma {:induction false} LiveOff(size: nat, d: Bytes, ss: seq<Slot>)
    requires size > 0 && AllOff(size, d, ss)
    ensures AllOff(size, d, Live(ss))
  {
    if ss != [] { LiveOff(size, d, ss[1..]); }
  }

  /** An intact chunk, and a first corrupt one, move by whole slots. */
  lemma WholeShift(size: nat, interval: nat, at: nat, m: Mark, corrupt: bool)
    requires m.o < size <= interval && (m.resuming || m.o <= at) && !(corrupt && m.resuming)
    ensures After(size, interval, m, corrupt).o < size
    ensures OnPlace(size, From(size, at + interval, After(size, interval, m, corrupt))) <==>
              OnPlace(size, From(size, at, m))
  {
    var next := After(size, interval, m, corrupt);
    ModSplit(m.o + interval, size);
    var k := (m.o + interval) / size + (if corrupt then 1 else 0) - (if m.resuming then 1 else 0);
    assert size * k ==
           size * ((m.o + interval) / size) + (if corrupt then size else 0) - (if m.resuming then size else 0);
    assert From(size, at + interval, next) == From(size, at, m) + size * k;
    IntShift(From(size, at, m) - 32, k, size);
  }

  /** A corrupt chunk met while resuming: the reader keeps its place exactly where it realigns. */
  lemma PlaceExactly(size: nat, interval: nat, at: nat, m: Mark, j: nat)
    requires m.o < size <= interval && m.resuming && From(size, at, m) == Pos(size, j)
    ensures After(size, interval, m, true).o < size
    ensures OnPlace(size, From(size, at + interval, After(size, interval, m, true))) <==> Realigns(size, at)
  {
    var x := size - m.o + interval;
    ModSplit(x, size);
    var k := 1 + x / size - j;
    assert size * k == size + size * (x / size) - size * j;
    assert From(size, at + interval, After(size, interval, m, true)) - 32 == (2 * at - 64) + size * k;
    IntShift(2 * at - 64, k, size);
  }

  /** From chunk c on no corrupt chunk is met while resuming. */
  ghost predicate Quiet(bad: seq<bool>, c: nat)
  {
    forall i: nat :: c <= i ==> !Twice(bad, i)
  }

  ghost predicate OffScan(size: nat, d: Bytes, r: Scan)
    requires size > 0
  {
    r.Scan? ==> AllOff(size, d, r.slots)
  }

  lemma OffJoin(size: nat, d: Bytes, ss: seq<Slot>, r: Scan)
    requires size > 0 && AllOff(size, d, ss) && OffScan(size, d, r)
    ensures OffScan(size, d, WithSlots(ss, r)) && OffScan(size, d, WithBad(r))
  {
  }

  lemma TailOff(size: nat, d: Bytes, at: nat, m: Mark)
    requires m.o < size && (m.resuming || m.o <= at) && !OnPlace(size, From(size, at, m))
    ensures OffScan(size, d, Tail(size, d, at, m))
  {
    var from := From(size, at, m);
    if from <= |d| {
      var s := d[from..];
      var hi := if EndsInTerm(s) then |d| - TRAILER_SIZE else |d|;
      assert StripTerm(s) == d[from..hi];
      SlotsOff(size, d, from, hi);
      LiveOff(size, d, Slots(size, d[from..hi]));
    }
  }

  /** Once off its place and with no further corrupt chunk met while resuming, the reader returns only windows that
      start inside slots. */
  lemma {:induction false} StaysOff(size: nat, interval: nat, bad: seq<bool>, d: Bytes, c: nat, at: nat, m: Mark)
    requires m.o < size <= interval && (m.resuming || m.o <= at) && (m.resuming ==> c == 0 || Bad(bad, c - 1))
    requires !OnPlace(size, From(size, at, m)) && Quiet(bad, c)
    ensures OffScan(size, d, Expect(size, interval, bad, d, c, at, m))
    decreases |bad| - c
  {
    if c >= |bad| || at + interval > |d| {
      TailOff(size, d, at, m);
    } else {
      assert !Twice(bad, c);
      var next := After(size, interval, m, bad[c]);
      WholeShift(size, interval, at, m, bad[c]);
      StaysOff(size, interval, bad, d, c + 1, at + interval, next);
      ExpectStep(size, interval, bad, d, c, at, m, next);
      var from := From(size, at, m);
      SlotsOff(size, d, from, at + interval);
      LiveOff(size, d, Slots(size, d[from..at + interval]));
      OffJoin(size, d, Live(Slots(size, d[from..at + interval])),
              Expect(size, interval, bad, d, c + 1, at + interval, next));
    }
  }

  lemma Distribute(a: nat, b: nat, m: nat)
    ensures (a + b) * m == a * m + b * m && b * m >= 0
  {
  }

  lemma ChunkFits(interval: nat, total: nat, chunks: nat, c: nat)
    requires interval > 0 && chunks == total / interval && c < chunks
    ensures c * interval + interval <= total
  {
    ModSplit(total, interval);
    Distribute(c, 1, interval);
    Distribute(c + 1, chunks - (c + 1), interval);
  }

  lemma AfterLoss(size: nat, interval: nat, bad: seq<bool>, d: Bytes, c: nat, at: nat, m: Mark, next: Mark, j: nat)
    requires HEADER_SIZE <= size <= interval && c < |bad| && at + interval <= |d|
    requires m.o < size && m.resuming && From(size, at, m) == Pos(size, j)
    requires bad[c] && next == After(size, interval, m, true) && next.o < size
    requires !Realigns(size, at) && Quiet(bad, c + 1)
    ensures OffScan(size, d, Expect(size, interval, bad, d, c, at, m))
  {
    PlaceExactly(size, interval, at, m, j);
    StaysOff(size, interval, bad, d, c + 1, at + interval, next);
    ExpectStep(size, interval, bad, d, c, at, m, next);
    OffJoin(size, d, [], Expect(size, interval, bad, d, c + 1, at + interval, next));
  }

  /** Slots kept up to a point, then only windows that start inside slots; or a crash. */
  ghost predicate KeptThenOff(size: nat, d: Bytes, kept: seq<Slot>, back: seq<Slot>, r: Scan)
    requires size > 0
  {
    AllOff(size, d, back) && (r.Scan? ==> r.slots == kept + back)
  }

  lemma ExpectLoses(size: nat, interval: nat, bad: seq<bool>, d: Bytes, c: nat, at: nat,
                    j: nat) returns (back: seq<Slot>)
    requires HEADER_SIZE <= size <= interval && c < |bad| && at + interval <= |d|
    requires UpTo(size, interval, bad, d, c, at, j)
    requires Twice(bad, c) && !Realigns(size, at) && Quiet(bad, c + 1)
    ensures KeptThenOff(size, d, Live(Kept(Keeper(size, interval, bad), size, Slots(size, d[32..]), 0, j)), back,
                        Expect(size, interval, bad, d, 0, 0, Start(size)))
  {
    var m := MarkAt(size, interval, bad, c);
    MarkNext(size, interval, bad, c);
    AfterLoss(size, interval, bad, d, c, at, m, MarkAt(size, interval, bad, c + 1), j);
    var r := Expect(size, interval, bad, d, c, at, m);
    back := if r.Scan? then r.slots else [];
  }

  /** The reader loses its place at chunk c, the first that does not realign: what it returns is the kept slots up to
      there, and after that, if no corrupt chunk is met while resuming again, only windows that start inside slots. */
  lemma LosesPlace(h: Hash, fmt: Format, interval: nat, es: seq<Slot>, p: Bytes, bad: seq<bool>, c: nat)
    returns (j: nat, back: seq<Slot>)
    requires Framed(fmt, interval, es) && DamagedCopy(h, fmt, interval, es, p, bad)
    requires c < |bad| && Aligned(fmt.size, interval, bad, c) && Twice(bad, c) && !Realigns(fmt.size, c * interval)
    requires Quiet(bad, c + 1)
    ensures Pos(fmt.size, j) <= c * interval + fmt.size
    ensures var d := Logical(fmt, interval, es);
            && AllOff(fmt.size, d, back)
            && (ReadToc(h, fmt, p) == Crashed ||
                (ReadToc(h, fmt, p).Read? && ReadToc(h, fmt, p).slots ==
                   Live(Kept(Keeper(fmt.size, interval, bad), fmt.size, Slots(fmt.size, d[32..]), 0, j)) + back))
  {
    var d := Logical(fmt, interval, es);
    LogicalShape(fmt, interval, es);
    DamagedCount(h, interval, d, 0, p, bad, 0);
    ChunkFits(interval, |d|, |bad|, c);
    j := ReadsUpTo(fmt.size, interval, bad, d, c, c * interval);
    back := ExpectLoses(fmt.size, interval, bad, d, c, c * interval, j);
    ReadsExpected(h, fmt, interval, es, p, bad);
  }

  /** In a value TOC: exactly at multiples of 16. */
  lemma ValueRealigns(at: nat)
    ensures Realigns(32, at) <==> at % 16 == 0
  {
  }

  /** A group TOC whose first chunk is corrupt: with no two corrupt chunks in a row, nothing the reader returns starts
      where an entry does. */
  lemma GroupFirstChunk(h: Hash, interval: nat, es: seq<Slot>, p: Bytes, bad: seq<bool>)
    requires Framed(GROUP_TOC, interval, es) && DamagedCopy(h, GROUP_TOC, interval, es, p, bad)
    requires |bad| > 0 && bad[0] && forall i :: 0 < i < |bad| ==> !(bad[i] && bad[i - 1])
    ensures ReadToc(h, GROUP_TOC, p) == Crashed ||
            (ReadToc(h, GROUP_TOC, p).Read?
             && AllOff(48, Logical(GROUP_TOC, interval, es), ReadToc(h, GROUP_TOC, p).slots))
  {
    assert Quiet(bad, 1) && 0 * interval == 0;
    assert !Realigns(48, 0);
    var j, back := LosesPlace(h, GROUP_TOC, interval, es, p, bad, 0);
    PosAfter(48, j, 1);
    assert j == 0;
    assert Live([]) + back == back;
  }
}
