/** The TOC reader as it runs: one buffer with the carried-over bytes at its front, and one batch per worker. */
module TocReader {
  import opened Base
  import opened Framing
  import opened TocFile

  predicate ForWorker(workers: nat, k: nat, s: Slot) { workers > 0 && SlotKeyB(s) % workers == k }

  /** The slots that go to worker k, in order. */
  function Share(slots: seq<Slot>, workers: nat, k: nat): seq<Slot>
  {
    Filter(slots, s => ForWorker(workers, k, s))
  }

  lemma ShareSnoc(slots: seq<Slot>, s: Slot, workers: nat, k: nat)
    ensures Share(slots + [s], workers, k) ==
            if ForWorker(workers, k, s) then Share(slots, workers, k) + [s] else Share(slots, workers, k)
  {
    var p := s => ForWorker(workers, k, s);
    FilterConcat(slots, [s], p);
    var one := [s];
    assert one[1..] == [];
    assert Filter(one, p) == if p(s) then [s] + Filter(one[1..], p) else Filter(one[1..], p);
  }

  /** The batches being filled (None is the source's nil) and those already sent, per worker. */
  class Batcher {
    const workers: nat
    const batchSize: nat
    var batches: seq<Option<seq<Slot>>>
    var pending: seq<seq<seq<Slot>>>
    var count: nat
    ghost var emitted: seq<Slot>

    function Filling(k: nat): seq<Slot>
      requires k < |batches|
      reads this
    {
      if batches[k].Some? then batches[k].value else []
    }

    ghost predicate WorkerOk(k: nat)
      reads this
    {
      k < |batches| && k < |pending| ==>
        && Flatten(pending[k]) + Filling(k) == Share(emitted, workers, k)
        && |Filling(k)| < batchSize
        && forall i :: 0 <= i < |pending[k]| ==> |pending[k][i]| == batchSize
    }

    ghost predicate Valid()
      reads this
    {
      && workers > 0 && batchSize > 0 && |batches| == workers && |pending| == workers && count == |emitted|
      && forall k: nat :: WorkerOk(k)
    }

    constructor (workers: nat, batchSize: nat)
      requires workers > 0 && batchSize > 0
      ensures Valid() && emitted == [] && this.workers == workers && this.batchSize == batchSize
    {
      this.workers := workers;
      this.batchSize := batchSize;
      batches := seq(workers, k => if k == 0 then Some([]) else None);
      pending := seq(workers, _ => []);
      count := 0;
      emitted := [];
    }

    /** Hands one slot with a nonzero offset to its worker; a full batch is sent. */
    method Emit(s: Slot)
      requires Valid()
      modifies this
      ensures Valid() && emitted == old(emitted) + [s]
    {
      var k := SlotKeyB(s) % workers;
      var batch := if batches[k].Some? then batches[k].value else [];
      batch := batch + [s];
      assert WorkerOk(k);
      forall j: nat ensures Share(emitted + [s], workers, j) ==
                            if j == k then Share(emitted, workers, j) + [s] else Share(emitted, workers, j) {
        ShareSnoc(emitted, s, workers, j);
      }
      ghost var sent := Flatten(pending[k]);
      assert sent + batch == Share(emitted + [s], workers, k);
      assert forall j: nat :: old(WorkerOk(j));
      count := count + 1;
      emitted := emitted + [s];
      if |batch| >= batchSize {
        FlattenSnoc(pending[k], batch);
        pending := pending[k := pending[k] + [batch]];
        batches := batches[k := None];
        assert Flatten(pending[k]) + [] == Flatten(pending[k]);
      } else {
        batches := batches[k := Some(batch)];
      }
      forall j: nat ensures WorkerOk(j) { assert old(WorkerOk(j)); }
    }

    /** Sends every batch still being filled, which may be empty for worker 0. */
    method Finish() returns (sent: seq<seq<seq<Slot>>>)
      requires Valid()
      ensures |sent| == workers
      ensures forall k :: 0 <= k < workers ==> Flatten(sent[k]) == Share(emitted, workers, k)
      ensures forall k, i :: 0 <= k < workers && 0 <= i < |sent[k]| - 1 ==> |sent[k][i]| == batchSize
      ensures forall k, i :: 0 <= k < workers && 0 <= i < |sent[k]| ==> |sent[k][i]| <= batchSize
    {
      sent := pending;
      for i := 0 to workers
        invariant |sent| == workers
        invariant forall k :: 0 <= k < i ==>
                    sent[k] == pending[k] + (if batches[k].Some? then [batches[k].value] else [])
        invariant forall k :: i <= k < workers ==> sent[k] == pending[k]
      {
        if batches[i].Some? {
          sent := sent[i := sent[i] + [batches[i].value]];
        }
      }
      forall k | 0 <= k < workers
        ensures Flatten(sent[k]) == Share(emitted, workers, k)
        ensures forall i :: 0 <= i < |sent[k]| - 1 ==> |sent[k][i]| == batchSize
        ensures forall i :: 0 <= i < |sent[k]| ==> |sent[k][i]| <= batchSize
      {
        assert WorkerOk(k);
        if batches[k].Some? { FlattenSnoc(pending[k], batches[k].value); }
        assert Flatten(pending[k]) + [] == Flatten(pending[k]) && pending[k] + [] == pending[k];
      }
    }
  }

  /** The slots of the buffer's range [lo, hi), handed out one by one; the range shrinks to the rest. */
  method ParseSlots(buf: array<Byte>, from: nat, hi: nat, size: nat, out: Batcher) returns (lo: nat)
    requires size > 0 && from <= hi <= buf.Length && out.Valid()
    modifies out
    ensures out.Valid() && from <= lo <= hi
    ensures out.emitted == old(out.emitted) + Live(Slots(size, buf[from..hi]))
    ensures buf[lo..hi] == Rest(size, buf[from..hi])
  {
    lo := from;
    while hi - lo >= size
      invariant from <= lo <= hi && out.Valid()
      invariant out.emitted + Live(Slots(size, buf[lo..hi])) == old(out.emitted) + Live(Slots(size, buf[from..hi]))
      invariant Rest(size, buf[lo..hi]) == Rest(size, buf[from..hi])
    {
      var s := buf[lo..hi];
      var slot := buf[lo..lo + size];
      assert s[..size] == slot && s[size..] == buf[lo + size..hi];
      assert Slots(size, s) == [slot] + Slots(size, buf[lo + size..hi]);
      assert ([slot] + Slots(size, buf[lo + size..hi]))[1..] == Slots(size, buf[lo + size..hi]);
      if SlotOffset(slot) != 0 {
        ghost var was := out.emitted;
        out.Emit(slot);
        assert was + ([slot] + Live(Slots(size, buf[lo + size..hi]))) ==
                 out.emitted + Live(Slots(size, buf[lo + size..hi]));
      }
      lo := lo + size;
    }
  }

  /** Reads the next n bytes into the buffer after the carried-over ones. */
  method Load(buf: array<Byte>, rpos: nat, left: Bytes, n: nat)
    requires n <= |left| && rpos + n <= buf.Length
    modifies buf
    ensures buf[..rpos] == old(buf[..rpos]) && buf[rpos..rpos + n] == left[..n]
  {
    forall i | 0 <= i < n { buf[rpos + i] := left[i]; }
  }

  /** Where the bytes in hand start. */
  lemma InHandRange(buf: Bytes, rpos: nat, hi: nat, skip: nat)
    requires rpos <= hi <= |buf| && skip <= hi - rpos
    ensures var lo := if skip != 0 then rpos + skip else 0;
            buf[lo..hi] == InHand(buf[rpos..hi], buf[..rpos], skip)
  {
    if skip == 0 { assert buf[..rpos] + buf[rpos..hi] == buf[0..hi]; }
  }

  /** A full, intact chunk: its slots go out and the rest moves to the front of the buffer. */
  method TakeChunk(buf: array<Byte>, rpos: nat, hi: nat, skip: nat, size: nat, out: Batcher) returns (rest: nat)
    requires size > 0 && rpos <= hi <= buf.Length && skip <= hi - rpos && out.Valid()
    modifies buf, out
    ensures out.Valid() && rest <= buf.Length
    ensures var s := InHand(old(buf[rpos..hi]), old(buf[..rpos]), skip);
            out.emitted == old(out.emitted) + Live(Slots(size, s)) && buf[..rest] == Rest(size, s)
  {
    InHandRange(buf[..], rpos, hi, skip);
    assert buf[..][rpos..hi] == buf[rpos..hi] && buf[..][..rpos] == buf[..rpos];
    var from := if skip != 0 then rpos + skip else 0;
    assert buf[..][from..hi] == buf[from..hi];
    var lo := ParseSlots(buf, from, hi, size, out);
    rest := CarryOver(buf, lo, hi);
  }

  /** What was left over goes to the front of the buffer. */
  method CarryOver(buf: array<Byte>, lo: nat, hi: nat) returns (rest: nat)
    requires lo <= hi <= buf.Length
    modifies buf
    ensures rest == hi - lo && buf[..rest] == old(buf[lo..hi])
  {
    rest := hi - lo;
    forall i | 0 <= i < rest { buf[i] := buf[lo + i]; }
  }

  lemma StripRange(v: Bytes, from: nat, hi: nat)
    requires from <= hi <= |v|
    ensures var ends := hi - from >= TRAILER_SIZE && v[hi - TRAILER_SIZE..hi] == TERM;
            && (EndsInTerm(v[from..hi]) <==> ends)
            && StripTerm(v[from..hi]) == v[from..if ends then hi - TRAILER_SIZE else hi]
  {
    var s := v[from..hi];
    if |s| >= TRAILER_SIZE {
      SliceOfSlice(v, from, |s|, |s| - TRAILER_SIZE, |s|);
      SliceOfSlice(v, from, |s|, 0, |s| - TRAILER_SIZE);
      assert s[|s| - TRAILER_SIZE..] == s[|s| - TRAILER_SIZE..|s|];
    }
  }

  /** The last, short chunk: the terminator is stripped if it is there whole, then the slots go out. */
  method TakeLast(buf: array<Byte>, from: nat, hi: nat, size: nat, out: Batcher) returns (terminated: bool)
    requires size > 0 && from <= hi <= buf.Length && out.Valid()
    modifies out
    ensures out.Valid()
    ensures out.emitted == old(out.emitted) + Live(Slots(size, StripTerm(buf[from..hi])))
    ensures terminated == EndsInTerm(buf[from..hi])
  {
    StripRange(buf[..], from, hi);
    assert buf[..][from..hi] == buf[from..hi];
    terminated := hi - from >= TRAILER_SIZE && buf[hi - TRAILER_SIZE..hi] == TERM;
    var end := if terminated then hi - TRAILER_SIZE else hi;
    assert terminated ==> buf[..][hi - TRAILER_SIZE..hi] == buf[hi - TRAILER_SIZE..hi];
    assert buf[..][from..end] == buf[from..end];
    var _ := ParseSlots(buf, from, end, size, out);
  }

  /** What is left after the last full chunk. */
  method ReadTail(h: Hash, size: nat, interval: nat, left: Bytes, buf: array<Byte>, rpos: nat, skip: nat, bad: nat,
                  out: Batcher)
      returns (crash: bool, terminated: bool)
    requires size > 0 && |left| < interval + 4 && rpos < size && buf.Length == interval + 4 + size && out.Valid()
    modifies buf, out
    ensures out.Valid()
    ensures After(old(out.emitted), bad, ReadFrom(h, size, interval, left, old(buf[..rpos]), skip)) ==
            if crash then Panic else Scan(out.emitted, bad, terminated)
  {
    crash, terminated := skip > |left|, false;
    if !crash {
      Load(buf, rpos, left, |left|);
      assert left[..|left|] == left;
      var hi := rpos + |left|;
      InHandRange(buf[..], rpos, hi, skip);
      var from := if skip != 0 then rpos + skip else 0;
      assert buf[..][rpos..hi] == left && buf[..][..rpos] == old(buf[..rpos]) && buf[..][from..hi] == buf[from..hi];
      terminated := TakeLast(buf, from, hi, size, out);
    }
  }

  /** The result of the read loop after what was already emitted and counted. */
  function After(emitted: seq<Slot>, bad: nat, r: Scan): Scan
  {
    match r case Panic => Panic case Scan(t, b, e) => Scan(emitted + t, bad + b, e)
  }

  lemma AfterSlots(emitted: seq<Slot>, bad: nat, ss: seq<Slot>, r: Scan)
    ensures After(emitted, bad, WithSlots(ss, r)) == After(emitted + ss, bad, r)
  {
    if r.Scan? { assert emitted + (ss + r.slots) == emitted + ss + r.slots; }
  }

  lemma AfterBad(emitted: seq<Slot>, bad: nat, r: Scan)
    ensures After(emitted, bad, WithBad(r)) == After(emitted, bad + 1, r)
  {
  }

  lemma CrashRound(h: Hash, size: nat, interval: nat, p: Bytes, carry: Bytes, skip: nat)
    requires size > 0 && |p| >= interval + 4 && Get32(p[interval..interval + 4]) == h(p[..interval]) && skip > interval
    ensures ReadFrom(h, size, interval, p, carry, skip) == Panic
  {
  }

  /** What one full chunk does to the result of the read loop. */
  lemma RoundResult(h: Hash, size: nat, interval: nat, p: Bytes, carry: Bytes, skip: nat, was: seq<Slot>, bad: nat)
    requires size > 0 && |p| >= interval + 4
    ensures var r, next := After(was, bad, ReadFrom(h, size, interval, p, carry, skip)), p[interval + 4..];
            if Get32(p[interval..interval + 4]) != h(p[..interval]) then
              r == After(was, bad + 1, ReadFrom(h, size, interval, next, [], SkipAfter(size, interval, |carry|, skip)))
            else if skip > interval then r == Panic
            else
              var s := InHand(p[..interval], carry, skip);
              r == After(was + Live(Slots(size, s)), bad, ReadFrom(h, size, interval, next, Rest(size, s), 0))
  {
    var next := p[interval + 4..];
    if Get32(p[interval..interval + 4]) != h(p[..interval]) {
      CorruptRound(h, size, interval, p, carry, skip);
      AfterBad(was, bad, ReadFrom(h, size, interval, next, [], SkipAfter(size, interval, |carry|, skip)));
    } else if skip > interval {
      CrashRound(h, size, interval, p, carry, skip);
    } else {
      var s := InHand(p[..interval], carry, skip);
      IntactRound(h, size, interval, p, carry, skip);
      AfterSlots(was, bad, Live(Slots(size, s)), ReadFrom(h, size, interval, next, Rest(size, s), 0));
    }
  }

  /** One full chunk of the loop: a corrupt one sets what to skip, an intact one hands its slots out. */
  method ReadChunk(h: Hash, size: nat, interval: nat, left: Bytes, buf: array<Byte>, rpos: nat, skip: nat, bad: nat,
                   out: Batcher)
      returns (crash: bool, rpos': nat, skip': nat, bad': nat)
    requires size > 0 && |left| >= interval + 4 && rpos < size && buf.Length == interval + 4 + size && out.Valid()
    requires skip != 0 ==> rpos == 0
    modifies buf, out
    ensures out.Valid() && rpos' < size && (skip' != 0 ==> rpos' == 0)
    ensures var r := After(old(out.emitted), bad, ReadFrom(h, size, interval, left, old(buf[..rpos]), skip));
            && (crash ==> r == Panic)
            && (!crash ==>
                  r == After(out.emitted, bad', ReadFrom(h, size, interval, left[interval + 4..], buf[..rpos'], skip')))
  {
    ghost var was, carry := out.emitted, buf[..rpos];
    Load(buf, rpos, left, interval + 4);
    var hi := rpos + interval;
    SliceOfSlice(buf[..], rpos, interval + 4, 0, interval);
    SliceOfSlice(buf[..], rpos, interval + 4, interval, interval + 4);
    assert buf[rpos..hi] == left[..interval] && buf[hi..hi + 4] == left[interval..interval + 4];
    crash, rpos', skip', bad' := false, 0, 0, bad;
    RoundResult(h, size, interval, left, carry, skip, was, bad);
    if Get32(buf[hi..hi + 4]) != h(buf[rpos..hi]) {
      skip', bad' := SkipAfter(size, interval, rpos, skip), bad + 1;
      assert buf[..0] == [];
    } else if skip > interval {
      crash := true;
    } else {
      ghost var s := InHand(left[..interval], carry, skip);
      RestLength(size, s);
      rpos' := TakeChunk(buf, rpos, hi, skip, size, out);
    }
  }

  /** The read loop. */
  method ReadLoop(h: Hash, size: nat, interval: nat, p: Bytes, out: Batcher)
      returns (crash: bool, bad: nat, terminated: bool)
    requires size > 0 && out.Valid() && out.emitted == []
    modifies out
    ensures out.Valid()
    ensures var r := ReadFrom(h, size, interval, p, [], HEADER_SIZE);
            if crash then r == Panic else r == Scan(out.emitted, bad, terminated)
  {
    var buf := new Byte[interval + 4 + size](_ => 0);
    var left, rpos: nat, skip: nat := p, 0, HEADER_SIZE;
    bad, terminated := 0, false;
    ghost var result := ReadFrom(h, size, interval, p, [], HEADER_SIZE);
    assert buf[..0] == [];
    AfterNothing(result);
    while |left| >= interval + 4
      invariant out.Valid() && fresh(buf) && buf.Length == interval + 4 + size
      invariant rpos < size && (skip != 0 ==> rpos == 0)
      invariant result == After(out.emitted, bad, ReadFrom(h, size, interval, left, buf[..rpos], skip))
    {
      crash, rpos, skip, bad := ReadChunk(h, size, interval, left, buf, rpos, skip, bad, out);
      if crash { return; }
      left := left[interval + 4..];
    }
    crash, terminated := ReadTail(h, size, interval, left, buf, rpos, skip, bad, out);
  }

  lemma AfterNothing(r: Scan)
    ensures After([], 0, r) == r
  {
    if r.Scan? { assert [] + r.slots == r.slots; }
  }

  datatype Status = BadHeader | Crash | Completed

  /** valueReadTOCEntriesBatched without cancellation: entries per worker in batches, the number of entries,
      the number of checksum errors, and whether the terminator was missing. */
  method ReadTocEntriesBatched(h: Hash, fmt: Format, p: Bytes, workers: nat, batchSize: nat)
      returns (status: Status, pending: seq<seq<seq<Slot>>>, count: nat, checksumErrors: nat, noTerminator: bool)
    requires FormatOk(fmt) && workers > 0 && batchSize > 0
    ensures status.BadHeader? <==> ReadToc(h, fmt, p).HeaderError?
    ensures status.Crash? <==> ReadToc(h, fmt, p).Crashed?
    ensures status.Completed? ==>
              var r := ReadToc(h, fmt, p);
              && r.Read? && count == |r.slots| && checksumErrors == r.checksumErrors && noTerminator == !r.terminated
              && |pending| == workers
              && (forall k :: 0 <= k < workers ==> Flatten(pending[k]) == Share(r.slots, workers, k))
              && (forall k, i :: 0 <= k < workers && 0 <= i < |pending[k]| ==> |pending[k][i]| <= batchSize)
  {
    pending, count, checksumErrors, noTerminator := [], 0, 0, false;
    if |p| < HEADER_SIZE || p[..28] != fmt.magic || Get32(p[28..32]) < HEADER_SIZE {
      status := BadHeader;
      return;
    }
    var out := new Batcher(workers, batchSize);
    var crash, bad, terminated := ReadLoop(h, fmt.size, Get32(p[28..32]), p, out);
    if crash {
      status := Crash;
    } else {
      status, count, checksumErrors, noTerminator := Completed, out.count, bad, !terminated;
      pending := out.Finish();
    }
  }
}
