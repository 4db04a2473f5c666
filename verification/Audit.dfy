/** Auditing a value file: the corrupt ranges a checksum scan reports, and the test of a value against them. */
module Audit {
  import opened Base
  import opened Framing
  import opened TocFile
  import opened ValueFile

  const MAX32: nat := 0xffff_ffff

  datatype Range = Range(start: nat, stop: nat)

  ghost predicate In(x: nat, r: Range) { r.start <= x <= r.stop }

  ghost predicate InSome(x: nat, rs: seq<Range>) { exists i :: 0 <= i < |rs| && In(x, rs[i]) }

  predicate Fails(h: Hash, interval: nat, p: Bytes)
    requires |p| >= interval + 4
  {
    h(p[..interval]) != Get32(p[interval..interval + 4])
  }

  /** Reference: logical byte x of the file p lies in a chunk that fails its checksum, or past the last full chunk. */
  ghost predicate Suspect(h: Hash, interval: nat, p: Bytes, x: nat)
    decreases |p|
  {
    if |p| < interval + 4 then true
    else if x < interval then Fails(h, interval, p)
    else Suspect(h, interval, p[interval + 4..], x - interval)
  }

  ghost predicate SuspectByte(h: Hash, interval: nat, p: Bytes, x: nat) { Suspect(h, interval, p, x) }

  /** The ranges the scan reports for what is left of the file from logical position start on. */
  function Ranges(h: Hash, interval: nat, p: Bytes, start: nat): seq<Range>
    requires interval > 0
    decreases |p|
  {
    if |p| < interval + 4 then [Range(start, MAX32)]
    else
      (if Fails(h, interval, p) then [Range(start, start + interval - 1)] else []) +
      Ranges(h, interval, p[interval + 4..], start + interval)
  }

  /** The whole scan: a file without a readable header, or shorter than one chunk, is suspect from end to end. */
  function Report(h: Hash, p: Bytes): seq<Range>
  {
    if HeaderOk(p) && |p| >= HeaderInterval(p) + 4 then Ranges(h, HeaderInterval(p), p, 0) else [Range(0, MAX32)]
  }

  function HeaderInterval(p: Bytes): nat { if |p| >= HEADER_SIZE then Get32(p[28..32]) else 0 }

  predicate HeaderOk(p: Bytes)
  {
    |p| >= HEADER_SIZE && p[..28] == VALUE_MAGIC && HeaderInterval(p) >= HEADER_SIZE
  }

  // ---------------------------------------------------------------- the scan

  /** What is still to be reported after the ranges found so far. */
  ghost predicate Scanned(h: Hash, interval: nat, p: Bytes, pos: nat, start: nat, found: seq<Range>)
    requires interval > 0 && pos <= |p|
  {
    found + Ranges(h, interval, p[pos..], start) == Ranges(h, interval, p, 0)
  }

  lemma ScanStep(h: Hash, interval: nat, p: Bytes, pos: nat, start: nat, found: seq<Range>)
    requires interval > 0 && pos + interval + 4 <= |p| && Scanned(h, interval, p, pos, start, found)
    ensures var bad := Fails(h, interval, p[pos..pos + interval + 4]);
            Scanned(h, interval, p, pos + interval + 4, start + interval,
                    if bad then found + [Range(start, start + interval - 1)] else found)
  {
    var q, c := p[pos..], p[pos..pos + interval + 4];
    assert q == p[pos..pos + (|p| - pos)] && q[interval + 4..] == p[pos + interval + 4..];
    SliceOfSlice(p, pos, |p| - pos, interval, interval + 4);
    SliceOfSlice(p, pos, interval + 4, interval, interval + 4);
    assert q[..interval] == c[..interval];
    var bad := Fails(h, interval, q);
    var here := if bad then [Range(start, start + interval - 1)] else [];
    ConcatAssoc(found, here, Ranges(h, interval, q[interval + 4..], start + interval));
  }

  /** The loop's state in a file of at most 2^32 bytes. */
  ghost predicate InStep(h: Hash, interval: nat, p: Bytes, pos: nat, start: nat, stop: nat, found: seq<Range>)
    requires interval > 0 && pos <= |p|
  {
    |p| <= 0x1_0000_0000 ==>
      start <= pos && (pos > 0 ==> start < pos) && stop == (start + interval - 1) % 0x1_0000_0000 &&
      Scanned(h, interval, p, pos, start, found)
  }

  /** Below 2^32 nothing wraps. */
  lemma InRange32(start: nat, stop: nat, interval: nat)
    requires interval > 0 && start + interval < 0x1_0000_0000 && stop == (start + interval - 1) % 0x1_0000_0000
    ensures stop == start + interval - 1 && (stop + 1) % 0x1_0000_0000 == start + interval
  {
  }

  lemma StepInStep(h: Hash, interval: nat, p: Bytes, pos: nat, start: nat, stop: U32, found: seq<Range>)
    requires interval > 0 && pos + interval + 4 <= |p| && InStep(h, interval, p, pos, start, stop, found)
    ensures var bad := Fails(h, interval, p[pos..pos + interval + 4]);
            InStep(h, interval, p, pos + interval + 4, (stop + 1) % 0x1_0000_0000, (stop + interval) % 0x1_0000_0000,
                   if bad then found + [Range(start, stop)] else found)
  {
    if |p| <= 0x1_0000_0000 {
      InRange32(start, stop, interval);
      ScanStep(h, interval, p, pos, start, found);
    }
  }

  /** valueChecksumVerify. Start and stop are 32-bit; in a file of at most 2^32 bytes they never wrap. */
  method ChecksumVerify(h: Hash, p: Bytes) returns (found: seq<Range>)
    ensures |p| <= 0x1_0000_0000 ==> found == Report(h, p)
  {
    if !HeaderOk(p) || |p| < HeaderInterval(p) + 4 {
      return [Range(0, MAX32)];
    }
    var interval := HeaderInterval(p);
    var start: U32, stop: U32 := 0, interval - 1;
    var pos := 0;
    found := [];
    assert p[0..] == p;
    while true
      invariant 0 <= pos && pos + interval + 4 <= |p|
      invariant InStep(h, interval, p, pos, start, stop, found)
      decreases |p| - pos
    {
      StepInStep(h, interval, p, pos, start, stop, found);
      var buf := p[pos..pos + interval + 4];
      if Fails(h, interval, buf) {
        found := found + [Range(start, stop)];
      }
      start := (stop + 1) % 0x1_0000_0000;
      stop := (stop + interval) % 0x1_0000_0000;
      pos := pos + interval + 4;
      if |p| < pos + interval + 4 {
        found := found + [Range(start, MAX32)];
        break;
      }
    }
  }

  // ---------------------------------------------------------------- the test

  /** valueInCorruptRange tests the two end points of the value against each range. */
  predicate EndInside(offset: nat, end: nat, r: Range)
  {
    (r.start <= offset <= r.stop) || (r.start <= end <= r.stop)
  }

  method InCorruptRange(offset: U32, length: U32, rs: seq<Range>) returns (hit: bool)
    ensures offset + length <= 0x1_0000_0000 ==>
              (hit <==> offset != 0 && length != 0 &&
                        exists i :: 0 <= i < |rs| && EndInside(offset, offset + length - 1, rs[i]))
  {
    if offset == 0 || length == 0 { return false; }
    var end: U32 := (offset + length - 1) % 0x1_0000_0000;
    for i := 0 to |rs|
      invariant forall j :: 0 <= j < i ==> !EndInside(offset, end, rs[j])
    {
      if rs[i].start <= offset && offset <= rs[i].stop { return true; }
      if rs[i].start <= end && end <= rs[i].stop { return true; }
    }
    return false;
  }

  ghost predicate Hit(offset: nat, length: nat, rs: seq<Range>)
    requires length > 0
  {
    exists i :: 0 <= i < |rs| && EndInside(offset, offset + length - 1, rs[i])
  }

  lemma {:induction false} RangesAbove(h: Hash, interval: nat, p: Bytes, start: nat)
    requires interval > 0
    ensures forall i :: 0 <= i < |Ranges(h, interval, p, start)| ==> Ranges(h, interval, p, start)[i].start >= start
    decreases |p|
  {
    if |p| >= interval + 4 { RangesAbove(h, interval, p[interval + 4..], start + interval); }
  }

  lemma InSomeConcat(x: nat, a: seq<Range>, b: seq<Range>)
    ensures InSome(x, a + b) <==> InSome(x, a) || InSome(x, b)
  {
    if InSome(x, a) {
      var i :| 0 <= i < |a| && In(x, a[i]);
      assert (a + b)[i] == a[i];
    }
    if InSome(x, b) {
      var i :| 0 <= i < |b| && In(x, b[i]);
      assert (a + b)[|a| + i] == b[i];
    }
  }

  /** The reported ranges hold exactly the suspect bytes. */
  lemma {:induction false} RangesExact(h: Hash, interval: nat, p: Bytes, start: nat, x: nat)
    requires interval > 0 && start + x <= MAX32
    ensures InSome(start + x, Ranges(h, interval, p, start)) <==> Suspect(h, interval, p, x)
    decreases |p|
  {
    if |p| < interval + 4 {
      assert Ranges(h, interval, p, start)[0] == Range(start, MAX32);
    } else {
      var rest := Ranges(h, interval, p[interval + 4..], start + interval);
      var here := if Fails(h, interval, p) then [Range(start, start + interval - 1)] else [];
      InSomeConcat(start + x, here, rest);
      if x >= interval {
        RangesExact(h, interval, p[interval + 4..], start + interval, x - interval);
      } else {
        RangesAbove(h, interval, p[interval + 4..], start + interval);
        assert Fails(h, interval, p) ==> In(start + x, here[0]);
      }
    }
  }

  /** The whole report: every byte of a file with an unreadable header, or shorter than one chunk with its checksum, and
      the suspect bytes of any other. */
  lemma ReportExact(h: Hash, p: Bytes, x: nat)
    requires x <= MAX32
    ensures InSome(x, Report(h, p)) <==>
            if |p| < 32 || p[..28] != VALUE_MAGIC || Get32(p[28..32]) < 32 || |p| < Get32(p[28..32]) + 4 then true
            else Suspect(h, Get32(p[28..32]), p, x)
  {
    var whole := [Range(0, MAX32)];
    assert InSome(x, whole) by { assert In(x, whole[0]); }
    if HeaderOk(p) && |p| >= HeaderInterval(p) + 4 {
      RangesExact(h, HeaderInterval(p), p, 0, x);
      assert 0 + x == x;
    }
  }

  /** So every stored value of an unreadable file is hit. */
  lemma UnreadableIsHit(h: Hash, p: Bytes, offset: nat, length: nat)
    requires length > 0 && offset <= MAX32
    requires |p| < 32 || p[..28] != VALUE_MAGIC || Get32(p[28..32]) < 32 || |p| < Get32(p[28..32]) + 4
    ensures Hit(offset, length, Report(h, p))
  {
    assert Report(h, p) == [Range(0, MAX32)];
    assert EndInside(offset, offset + length - 1, Report(h, p)[0]);
  }

  /** One of the value's bytes is suspect. */
  ghost predicate TouchesSuspect(h: Hash, interval: nat, p: Bytes, offset: nat, length: nat)
  {
    exists x: nat :: offset <= x < offset + length && SuspectByte(h, interval, p, x)
  }

  /** The test is the suspicion of the two end points. */
  lemma HitIsEnds(h: Hash, interval: nat, p: Bytes, offset: nat, length: nat)
    requires interval > 0 && length > 0 && offset + length - 1 <= MAX32
    ensures Hit(offset, length, Ranges(h, interval, p, 0)) <==>
            SuspectByte(h, interval, p, offset) || SuspectByte(h, interval, p, offset + length - 1)
  {
    var rs, end := Ranges(h, interval, p, 0), offset + length - 1;
    RangesExact(h, interval, p, 0, offset);
    RangesExact(h, interval, p, 0, end);
    assert 0 + offset == offset && 0 + end == end;
    if Hit(offset, length, rs) {
      var i :| 0 <= i < |rs| && EndInside(offset, end, rs[i]);
      assert In(offset, rs[i]) || In(end, rs[i]);
    }
    if InSome(offset, rs) || InSome(end, rs) {
      var i :| 0 <= i < |rs| && (In(offset, rs[i]) || In(end, rs[i]));
      assert EndInside(offset, end, rs[i]);
    }
  }

  /** The bytes of one chunk are all suspect or none is. */
  lemma {:induction false} ChunkSuspect(h: Hash, interval: nat, p: Bytes, q: nat, r: nat, t: nat)
    requires r < interval && t < interval
    ensures q * interval + r >= 0 && q * interval + t >= 0
    ensures Suspect(h, interval, p, q * interval + r) <==> Suspect(h, interval, p, q * interval + t)
    decreases |p|
  {
    if q > 0 {
      MulStep(q, interval);
      if |p| >= interval + 4 { ChunkSuspect(h, interval, p[interval + 4..], q - 1, r, t); }
    }
  }

  lemma SameChunk(h: Hash, interval: nat, p: Bytes, x: nat, y: nat)
    requires interval > 0 && x / interval == y / interval
    ensures SuspectByte(h, interval, p, x) <==> SuspectByte(h, interval, p, y)
  {
    var q := x / interval;
    assert x == q * interval + x % interval && y == q * interval + y % interval;
    ChunkSuspect(h, interval, p, q, x % interval, y % interval);
  }

  /** The value lies in one chunk or in two neighbouring ones. */
  predicate SpansTwo(interval: nat, offset: nat, length: nat)
    requires interval > 0 && length > 0
  {
    (offset + length - 1) / interval <= offset / interval + 1
  }

  lemma DivMonotone(a: nat, b: nat, m: nat)
    requires m > 0 && a <= b
    ensures a / m <= b / m
  {
    var q, q' := a / m, b / m;
    assert a == q * m + a % m && b == q' * m + b % m;
    if q > q' {
      assert (q - q') * m == q * m - q' * m;
      MulAtLeast(q - q', m);
    }
  }

  /** Audit exactness: for a value that spans at most two chunks, the test is true exactly when one of its bytes is
      suspect. */
  lemma AuditExact(h: Hash, interval: nat, p: Bytes, offset: nat, length: nat)
    requires interval > 0 && length > 0 && offset + length - 1 <= MAX32 && SpansTwo(interval, offset, length)
    ensures Hit(offset, length, Ranges(h, interval, p, 0)) <==> TouchesSuspect(h, interval, p, offset, length)
  {
    var end := offset + length - 1;
    HitIsEnds(h, interval, p, offset, length);
    if TouchesSuspect(h, interval, p, offset, length) {
      var x: nat :| offset <= x < offset + length && SuspectByte(h, interval, p, x);
      DivMonotone(offset, x, interval);
      DivMonotone(x, end, interval);
      if x / interval == offset / interval {
        SameChunk(h, interval, p, x, offset);
      } else {
        SameChunk(h, interval, p, x, end);
      }
    }
  }

  /** In particular a value at most one byte longer than the interval. */
  lemma ShortValuesSpanTwo(interval: nat, offset: nat, length: nat)
    requires interval > 0 && 0 < length <= interval + 1
    ensures SpansTwo(interval, offset, length)
  {
    DivMonotone(offset + length - 1, offset + interval, interval);
    DivStep(offset + interval, interval);
  }

  // ---------------------------------------------------------------- a file whose damage the test misses

  /** The data of the i-th chunk: the header, then zeros. */
  function ChunkData(interval: nat, i: nat): (d: Bytes)
    requires interval >= HEADER_SIZE
    ensures |d| == interval
  {
    if i == 0 then FileHeader(interval) + Zeros(interval - HEADER_SIZE) else Zeros(interval)
  }

  /** The chunks from the i-th up to the n-th, all with their checksums except chunk c, whose checksum is one off. */
  function Spoiled(h: Hash, interval: nat, i: nat, n: nat, c: nat): Bytes
    requires interval >= HEADER_SIZE
    decreases n - i
  {
    if i >= n then []
    else
      var d := ChunkData(interval, i);
      d + PutBE(if i == c then (h(d) + 1) % 0x1_0000_0000 else h(d), 4) + Spoiled(h, interval, i + 1, n, c)
  }

  lemma SpoiledHead(h: Hash, interval: nat, i: nat, n: nat, c: nat)
    requires interval >= HEADER_SIZE && i < n
    ensures var p := Spoiled(h, interval, i, n, c);
            && |p| >= interval + 4 && p[..interval] == ChunkData(interval, i) && (Fails(h, interval, p) <==> i == c)
            && p[interval + 4..] == Spoiled(h, interval, i + 1, n, c)
  {
    var p, d := Spoiled(h, interval, i, n, c), ChunkData(interval, i);
    var sum := if i == c then (h(d) + 1) % 0x1_0000_0000 else h(d);
    GetPut32(sum);
    assert p[..interval] == d && p[interval..interval + 4] == PutBE(sum, 4);
  }

  lemma {:induction false} SpoiledSuspect(h: Hash, interval: nat, i: nat, n: nat, c: nat, q: nat, x: nat)
    requires interval >= HEADER_SIZE && q * interval <= x < q * interval + interval && i <= n
    ensures Suspect(h, interval, Spoiled(h, interval, i, n, c), x) <==> (i + q == c && c < n) || i + q >= n
    decreases n - i
  {
    if i < n {
      var p := Spoiled(h, interval, i, n, c);
      SpoiledHead(h, interval, i, n, c);
      if q > 0 {
        MulStep(q, interval);
        SpoiledSuspect(h, interval, i + 1, n, c, q - 1, x - interval);
        assert Suspect(h, interval, p, x) == Suspect(h, interval, p[interval + 4..], x - interval);
      } else {
        assert Suspect(h, interval, p, x) == Fails(h, interval, p);
      }
    }
  }

  lemma SpoiledByte(h: Hash, interval: nat, n: nat, c: nat, x: nat)
    requires interval >= HEADER_SIZE && c < n && x / interval < n
    ensures SuspectByte(h, interval, Spoiled(h, interval, 0, n, c), x) <==> x / interval == c
  {
    var q := x / interval;
    assert x == q * interval + x % interval;
    SpoiledSuspect(h, interval, 0, n, c, q, x);
  }

  /** A file whose header names this interval. */
  ghost predicate Framed(interval: nat, p: Bytes)
  {
    HeaderOk(p) && HeaderInterval(p) == interval && |p| >= interval + 4
  }

  lemma SpoiledFramed(h: Hash, interval: nat, n: nat, c: nat)
    requires HEADER_SIZE <= interval < TWO32 && n > 0
    ensures Framed(interval, Spoiled(h, interval, 0, n, c))
  {
    var p := Spoiled(h, interval, 0, n, c);
    SpoiledHead(h, interval, 0, n, c);
    assert p[..HEADER_SIZE] == p[..interval][..HEADER_SIZE] == FileHeader(interval);
    HeaderFields(interval, p);
  }

  lemma HeaderFields(interval: nat, p: Bytes)
    requires HEADER_SIZE <= interval < TWO32 && |p| >= HEADER_SIZE && p[..HEADER_SIZE] == FileHeader(interval)
    ensures HeaderOk(p) && HeaderInterval(p) == interval
  {
    assert p[..28] == p[..HEADER_SIZE][..28] == VALUE_MAGIC;
    assert p[28..32] == p[..HEADER_SIZE][28..32] == PutBE(interval, 4);
    GetPut32(interval);
  }

  /** The test agrees with suspicion on this file. */
  ghost predicate Agrees(h: Hash, interval: nat, p: Bytes, offset: nat, length: nat)
    requires length > 0
  {
    Hit(offset, length, Report(h, p)) <==> TouchesSuspect(h, interval, p, offset, length)
  }

  /** The first byte of the chunk after a value's first one, if the value goes beyond that chunk. */
  lemma MiddleByte(interval: nat, offset: nat, end: nat) returns (x: nat)
    requires interval > 0 && end / interval > offset / interval + 1
    ensures offset <= x <= end && x / interval == offset / interval + 1
  {
    var q := offset / interval;
    assert offset == q * interval + offset % interval;
    MulStep(q + 1, interval);
    x := (q + 1) * interval;
    DivUnique(x, interval, q + 1, 0);
    if x > end { DivMonotone(end, x, interval); }
  }

  /** A value over three chunks or more: damage only in chunk c, after its first, is missed. */
  lemma MiddleChunkMissed(h: Hash, interval: nat, offset: nat, length: nat, c: nat, n: nat, p: Bytes)
    requires HEADER_SIZE <= interval < TWO32 && length > 0 && offset + length - 1 <= MAX32
    requires c == offset / interval + 1 < (offset + length - 1) / interval == n - 1
    requires p == Spoiled(h, interval, 0, n, c)
    ensures Framed(interval, p) && !Hit(offset, length, Report(h, p)) && TouchesSuspect(h, interval, p, offset, length)
  {
    var end := offset + length - 1;
    SpoiledFramed(h, interval, n, c);
    HitIsEnds(h, interval, p, offset, length);
    SpoiledByte(h, interval, n, c, offset);
    SpoiledByte(h, interval, n, c, end);
    var x := MiddleByte(interval, offset, end);
    SpoiledByte(h, interval, n, c, x);
  }

  ghost predicate AlwaysAgrees(h: Hash, interval: nat, offset: nat, length: nat)
    requires length > 0
  {
    forall p :: Framed(interval, p) ==> Agrees(h, interval, p, offset, length)
  }

  lemma ShortIsRight(h: Hash, interval: nat, offset: nat, length: nat)
    requires HEADER_SIZE <= interval < TWO32 && length > 0 && offset + length - 1 <= MAX32
    requires SpansTwo(interval, offset, length)
    ensures AlwaysAgrees(h, interval, offset, length)
  {
    forall p | Framed(interval, p) ensures Agrees(h, interval, p, offset, length) {
      AuditExact(h, interval, p, offset, length);
    }
  }

  /** The number of the chunk that byte x lies in. */
  function ChunkOf(interval: nat, x: nat): nat
    requires interval > 0
  {
    x / interval
  }

  lemma OneDisagrees(h: Hash, interval: nat, p: Bytes, offset: nat, length: nat)
    requires length > 0 && Framed(interval, p) && !Agrees(h, interval, p, offset, length)
    ensures !AlwaysAgrees(h, interval, offset, length)
  {
  }

  lemma {:induction false} LongIsMissed(h: Hash, interval: nat, offset: nat, length: nat)
    requires HEADER_SIZE <= interval < TWO32 && length > 0 && offset + length - 1 <= MAX32
    requires !SpansTwo(interval, offset, length)
    ensures !AlwaysAgrees(h, interval, offset, length)
  {
    var first, last := ChunkOf(interval, offset), ChunkOf(interval, offset + length - 1);
    var c, n := first + 1, last + 1;
    MiddleChunkMissed(h, interval, offset, length, c, n, Spoiled(h, interval, 0, n, c));
    OneDisagrees(h, interval, Spoiled(h, interval, 0, n, c), offset, length);
  }

  /** The exact limit: the test is right about a value on every file with this interval if and only if the value spans
      at most two chunks. */
  lemma MissedExactlyWhen(h: Hash, interval: nat, offset: nat, length: nat)
    requires HEADER_SIZE <= interval < TWO32 && length > 0 && offset + length - 1 <= MAX32
    ensures SpansTwo(interval, offset, length) <==> AlwaysAgrees(h, interval, offset, length)
  {
    if SpansTwo(interval, offset, length) {
      ShortIsRight(h, interval, offset, length);
    } else {
      LongIsMissed(h, interval, offset, length);
    }
  }

  // ---------------------------------------------------------------- a clean file

  /** An undamaged closed file is suspect only past its last full chunk. */
  lemma {:induction false} CleanSuspect(h: Hash, interval: nat, d: Bytes, x: nat)
    requires interval > 0 && Suspect(h, interval, FrameOpen(h, interval, d), x) && x < |d|
    ensures x + interval >= |d|
    decreases |d|
  {
    if |d| > interval {
      var rest := FrameOpen(h, interval, d[interval..]);
      assert FrameOpen(h, interval, d) == d[..interval] + PutBE(h(d[..interval]), 4) + rest;
      FrameOpenHead(h, interval, d);
      if x >= interval {
        CleanSuspect(h, interval, d[interval..], x - interval);
      }
    }
  }

  lemma FrameOpenHead(h: Hash, interval: nat, d: Bytes)
    requires 0 < interval < |d|
    ensures var p := FrameOpen(h, interval, d);
            |p| >= interval + 4 && !Fails(h, interval, p) && p[interval + 4..] == FrameOpen(h, interval, d[interval..])
  {
    var p, sum := FrameOpen(h, interval, d), PutBE(h(d[..interval]), 4);
    GetPut32(h(d[..interval]));
    assert p[..interval] == d[..interval];
    assert p[interval..interval + 4] == sum;
  }

  /** The scan of a cleanly closed file hits no value stored in it, whatever its length. */
  lemma CleanFilePasses(h: Hash, interval: nat, blocks: seq<Bytes>, i: nat, off: nat, len: nat)
    requires HEADER_SIZE <= interval < TWO32 && |FileData(interval, blocks)| <= MAX32
    requires i < |blocks| && 0 < len && off + len <= |blocks[i]|
    ensures Report(h, FrameOpen(h, interval, FileData(interval, blocks))) ==
            Ranges(h, interval, FrameOpen(h, interval, FileData(interval, blocks)), 0)
    ensures !Hit(BlockOffset(blocks, i) + off, len, Report(h, FrameOpen(h, interval, FileData(interval, blocks))))
  {
    var d, at := FileData(interval, blocks), BlockOffset(blocks, i) + off;
    var p := FrameOpen(h, interval, d);
    CleanHeader(h, interval, blocks);
    BlockInside(blocks, i);
    assert at + len + interval <= |d|;
    assert forall x: nat :: at <= x < at + len ==> !Suspect(h, interval, p, x) by {
      forall x: nat | at <= x < at + len ensures !Suspect(h, interval, p, x) {
        if Suspect(h, interval, p, x) { CleanSuspect(h, interval, d, x); }
      }
    }
    NoneHit(h, interval, p, at, len);
  }

  lemma NoneHit(h: Hash, interval: nat, p: Bytes, offset: nat, length: nat)
    requires interval > 0 && length > 0 && offset + length - 1 <= MAX32
    requires forall x: nat :: offset <= x < offset + length ==> !Suspect(h, interval, p, x)
    ensures !Hit(offset, length, Ranges(h, interval, p, 0))
  {
    var rs, end := Ranges(h, interval, p, 0), offset + length - 1;
    RangesExact(h, interval, p, 0, offset);
    RangesExact(h, interval, p, 0, end);
    forall i | 0 <= i < |rs| ensures !EndInside(offset, end, rs[i]) {
      assert !In(offset, rs[i]) && !In(end, rs[i]);
    }
  }

  lemma CleanHeader(h: Hash, interval: nat, blocks: seq<Bytes>)
    requires HEADER_SIZE <= interval < TWO32
    ensures var p := FrameOpen(h, interval, FileData(interval, blocks));
            HeaderOk(p) && HeaderInterval(p) == interval && |p| >= interval + 4
  {
    var d := FileData(interval, blocks);
    FrameOpenHead(h, interval, d);
    var p := FrameOpen(h, interval, d);
    assert p[..HEADER_SIZE] == d[..HEADER_SIZE] == FileHeader(interval);
    HeaderFields(interval, p);
  }
}
