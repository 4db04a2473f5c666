/** A value file: how blocks of values become checksummed bytes on disk, and how a location finds its value again.
    The parallel checksummers and the re-queueing writer keep fill order (module ParallelWriter), so here a full
    buffer goes to disk when it is handed over. */
module ValueFile {
  import opened Base
  import opened Framing
  import opened TocFile

  const VALUE_MAGIC: Bytes := Ascii("VALUESTORE v0               ")

  function FileHeader(interval: nat): (r: Bytes)
    ensures |r| == HEADER_SIZE
  {
    VALUE_MAGIC + PutBE(interval, 4)
  }

  // ---------------------------------------------------------------- framing in pieces

  /** n bytes are whole chunks. */
  ghost predicate Whole(interval: nat, n: nat)
    decreases n
  {
    n == 0 || (0 < interval <= n && Whole(interval, n - interval))
  }

  /** One full chunk and its checksum. */
  function Chunk(h: Hash, c: Bytes): Bytes { c + PutBE(h(c), 4) }

  lemma FrameUnfold(h: Hash, interval: nat, c: Bytes, d: Bytes)
    requires interval > 0 && |c| == interval
    ensures Frame(h, interval, c + d) == Chunk(h, c) + Frame(h, interval, d)
    ensures d != [] ==> FrameOpen(h, interval, c + d) == Chunk(h, c) + FrameOpen(h, interval, d)
  {
    assert (c + d)[..interval] == c && (c + d)[interval..] == d;
  }

  lemma {:induction false} FrameConcat(h: Hash, interval: nat, a: Bytes, b: Bytes)
    requires interval > 0 && Whole(interval, |a|)
    ensures Frame(h, interval, a + b) == Frame(h, interval, a) + Frame(h, interval, b)
    ensures b != [] ==> FrameOpen(h, interval, a + b) == Frame(h, interval, a) + FrameOpen(h, interval, b)
    decreases |a|
  {
    if a == [] {
      assert a + b == b;
    } else {
      var c, d := a[..interval], a[interval..];
      assert a == c + d;
      FrameConcat(h, interval, d, b);
      FrameUnfold(h, interval, c, d);
      FrameUnfold(h, interval, c, d + b);
      ConcatAssoc(c, d, b);
      ConcatAssoc(Chunk(h, c), Frame(h, interval, d), Frame(h, interval, b));
      ConcatAssoc(Chunk(h, c), Frame(h, interval, d), FrameOpen(h, interval, b));
    }
  }

  lemma FrameChunk(h: Hash, interval: nat, a: Bytes, c: Bytes)
    requires interval > 0 && Whole(interval, |a|) && |c| == interval
    ensures Frame(h, interval, a + c) == Frame(h, interval, a) + Chunk(h, c)
    ensures Whole(interval, |a + c|)
  {
    FrameConcat(h, interval, a, c);
    assert c[..interval] == c && c[interval..] == [];
    assert Frame(h, interval, c) == Chunk(h, c) + Frame(h, interval, []);
    assert |a + c| - interval == |a|;
  }

  lemma FrameOpenChunk(h: Hash, interval: nat, c: Bytes, b: Bytes)
    requires interval > 0 && |c| == interval && 0 < |b| <= interval
    ensures FrameOpen(h, interval, c + b) == Chunk(h, c) + b
  {
    assert (c + b)[..interval] == c && (c + b)[interval..] == b;
  }

  /** The 32-bit offset follows the logical length. */
  function Advance(offset: U32, n: nat): U32 { (offset + n) % 0x1_0000_0000 }

  lemma AdvanceFollows(length: nat, n: nat)
    ensures Advance(length % 0x1_0000_0000, n) == (length + n) % 0x1_0000_0000
  {
  }

  lemma PrefixGrows(a: Bytes, values: Bytes, from: nat, n: nat)
    requires from + n <= |values|
    ensures a + values[..from] + values[from..from + n] == a + values[..from + n]
  {
    assert values[..from] + values[from..from + n] == values[..from + n];
  }

  // ---------------------------------------------------------------- the writer

  /** valueStoreFile while it is written: the current buffer, how much of it is filled, the bytes on disk and the
      32-bit logical offset. `data` is everything written so far, `full` the part of it in full buffers. */
  class Writer {
    const h: Hash
    const interval: nat
    var buf: array<Byte>
    var offset: nat
    var writerOffset: U32
    var disk: Bytes
    ghost var data: Bytes
    ghost var full: Bytes

    ghost predicate Valid()
      reads this, buf
    {
      && interval >= HEADER_SIZE && buf.Length == interval + 4 && offset <= interval
      && Whole(interval, |full|) && data == full + buf[..offset]
      && disk == Frame(h, interval, full)
      && writerOffset == |data| % 0x1_0000_0000
    }

    /** createValueReadWriteFile: the header goes into the first buffer. */
    constructor (h: Hash, interval: nat)
      requires HEADER_SIZE <= interval < TWO32
      ensures Valid() && fresh(buf) && this.h == h && this.interval == interval
      ensures data == FileHeader(interval)
    {
      this.h := h;
      this.interval := interval;
      buf := new Byte[interval + 4](_ => 0);
      offset := HEADER_SIZE;
      writerOffset := HEADER_SIZE;
      disk := [];
      data := FileHeader(interval);
      full := [];
      new;
      var head := FileHeader(interval);
      forall k | 0 <= k < HEADER_SIZE { buf[k] := head[k]; }
      assert buf[..HEADER_SIZE] == head;
    }

    /** The source's copy: n bytes from `from` on go into the current buffer. */
    method Copy(values: Bytes, from: nat, n: nat)
      requires from + n <= |values| && offset + n <= buf.Length
      modifies buf, this`offset
      ensures offset == old(offset) + n
      ensures buf[..offset] == old(buf[..offset]) + values[from..from + n]
    {
      forall k | 0 <= k < n { buf[offset + k] := values[from + k]; }
      offset := offset + n;
    }

    /** A full buffer: checksummed, written, empty again. */
    method HandOver()
      requires interval >= HEADER_SIZE && buf.Length == interval + 4 && offset == interval
      requires Whole(interval, |full|) && data == full + buf[..offset] && disk == Frame(h, interval, full)
      modifies this`disk, this`offset, this`full
      ensures offset == 0 && Whole(interval, |full|) && data == full + buf[..offset] && disk == Frame(h, interval, full)
    {
      FrameChunk(h, interval, full, buf[..interval]);
      disk := disk + (buf[..interval] + PutBE(h(buf[..interval]), 4));
      full := full + buf[..interval];
      offset := 0;
      assert full + [] == full && buf[..0] == [];
    }

    /** One round of write's loop: n bytes into the buffer, which is handed over when full. */
    method Put(values: Bytes, from: nat, n: nat)
      requires Valid() && from + n <= |values| && offset + n <= interval
      modifies this, buf
      ensures Valid() && buf == old(buf) && data == old(data) + values[from..from + n]
      ensures offset == if old(offset) + n == interval then 0 else old(offset) + n
    {
      AdvanceFollows(|data|, n);
      ConcatAssoc(full, buf[..offset], values[from..from + n]);
      data := data + values[from..from + n];
      Copy(values, from, n);
      writerOffset := Advance(writerOffset, n);
      if offset >= interval {
        HandOver();
      }
    }

    /** What write's loop has done when `left` bytes are still to come. */
    ghost predicate Wrote(before: Bytes, values: Bytes, left: nat)
      requires left <= |values|
      reads this
    {
      data == before + values[..|values| - left]
    }

    /** write: appends a block's values and returns the file offset the block gets. */
    method Write(values: Bytes) returns (fileOffset: U32)
      requires Valid()
      modifies this, buf
      ensures Valid() && buf == old(buf)
      ensures data == old(data) + values
      ensures fileOffset == old(|data|) % 0x1_0000_0000
    {
      fileOffset := writerOffset;
      var left := |values|;
      while left > 0
        invariant Valid() && buf == old(buf) && 0 <= left <= |values|
        invariant Wrote(old(data), values, left)
        decreases left, offset
      {
        var n := Min(interval - offset, left);
        var from := |values| - left;
        Put(values, from, n);
        PrefixGrows(old(data), values, from, n);
        left := left - n;
      }
      assert values[..|values|] == values;
    }

    /** One round of closeWriting's loop: as much of the terminator block as fits, then a checksum unless it was the
        end, then to disk. */
    method TermRound(term: Bytes, left: nat) returns (rest: nat)
      requires buf.Length == interval + 4 && offset <= interval == |term| && left <= |term|
      modifies buf, this`offset, this`disk
      ensures rest == left - Min(interval - old(offset), left) && offset == 0
      ensures disk == old(disk) + Sealed(h, old(buf[..offset]) + term[interval - left..interval - rest], rest > 0)
    {
      var n := Min(interval - offset, left);
      rest := left - n;
      Copy(term, interval - left, n);
      if rest > 0 {
        var sum := PutBE(h(buf[..offset]), 4);
        Copy(sum, 0, 4);
        assert sum[0..4] == sum;
      }
      disk := disk + buf[..offset];
      offset := 0;
    }

    /** closeWriting: a full interval of zeros ending in the terminator follows, its last chunk without a checksum. */
    method CloseWriting()
      requires Valid()
      modifies this, buf
      ensures data == old(data) + TermBlock(interval)
      ensures disk == FrameOpen(h, interval, data)
    {
      var term := TermBlock(interval);
      ghost var front := buf[..offset];
      CloseTail(h, interval, full, front, term);
      ConcatAssoc(full, front, term);
      data := data + term;
      WriteTerm(term);
    }

    /** closeWriting's loop. */
    method WriteTerm(term: Bytes)
      requires buf.Length == interval + 4 && offset <= interval == |term|
      modifies buf, this`offset, this`disk
      ensures disk == ClosedTail(h, interval, old(disk), old(buf[..offset]), term)
    {
      var left := |term|;
      ghost var front, was := buf[..offset], disk;
      while left > 0
        invariant buf == old(buf) && buf.Length == interval + 4 && offset <= interval && 0 <= left <= interval
        invariant TermState(h, interval, was, front, term, disk, buf[..offset], left)
        decreases left, offset
      {
        ghost var before, had, at := disk, buf[..offset], left;
        left := TermRound(term, left);
        TermStep(h, interval, was, front, term, before, had, at,
                 Sealed(h, had + term[interval - at..interval - left], left > 0), left);
        assert buf[..offset] == [];
      }
    }
  }

  /** How far closeWriting is: nothing written yet, one of two chunks, or all. */
  ghost predicate TermState(h: Hash, interval: nat, was: Bytes, front: Bytes, term: Bytes, disk: Bytes, had: Bytes,
                            left: nat)
    requires |front| <= interval == |term|
  {
    || (left == interval && had == front && disk == was)
    || (0 < left == |front| && had == [] && disk == was + Chunk(h, front + term[..interval - |front|]))
    || (left == 0 && disk == ClosedTail(h, interval, was, front, term))
  }

  lemma FirstTerm(h: Hash, interval: nat, was: Bytes, front: Bytes, term: Bytes, out: Bytes)
    requires |front| <= interval == |term|
    requires out == Sealed(h, front + term[0..interval - |front|], |front| > 0)
    ensures TermState(h, interval, was, front, term, was + out, [], |front|)
  {
    assert term[0..interval - |front|] == term[..interval - |front|];
    assert front == [] ==> term[..interval] == term;
  }

  lemma LastTerm(h: Hash, interval: nat, was: Bytes, front: Bytes, term: Bytes, out: Bytes)
    requires 0 < |front| <= interval == |term|
    requires out == Sealed(h, [] + term[interval - |front|..interval], false)
    ensures was + Chunk(h, front + term[..interval - |front|]) + out == ClosedTail(h, interval, was, front, term)
  {
    assert out == term[interval - |front|..];
  }

  lemma TermStep(h: Hash, interval: nat, was: Bytes, front: Bytes, term: Bytes, disk: Bytes, had: Bytes, left: nat,
                 out: Bytes, rest: nat)
    requires |front| <= interval == |term| && 0 < left <= interval && |had| <= interval
    requires TermState(h, interval, was, front, term, disk, had, left)
    requires rest == left - Min(interval - |had|, left)
    requires out == Sealed(h, had + term[interval - left..interval - rest], rest > 0)
    ensures TermState(h, interval, was, front, term, disk + out, [], rest) && (rest < left || |had| > 0)
  {
    if left == interval && had == front && disk == was {
      FirstTerm(h, interval, was, front, term, out);
    } else {
      LastTerm(h, interval, was, front, term, out);
    }
  }

  /** A buffer as it goes to disk, with or without its checksum. */
  function Sealed(h: Hash, c: Bytes, checksum: bool): Bytes { if checksum then Chunk(h, c) else c }

  /** disk, then what is left of the last blocks and the terminator block: one chunk, or two of which the first has a
      checksum. */
  function ClosedTail(h: Hash, interval: nat, disk: Bytes, front: Bytes, term: Bytes): Bytes
    requires |front| <= interval == |term|
  {
    var cut := interval - |front|;
    if front == [] then disk + (front + term) else disk + Chunk(h, front + term[..cut]) + term[cut..]
  }

  /** The last chunks of a closed file. */
  lemma CloseTail(h: Hash, interval: nat, full: Bytes, front: Bytes, term: Bytes)
    requires interval > 0 && Whole(interval, |full|) && |front| <= interval && |term| == interval
    ensures FrameOpen(h, interval, full + (front + term)) ==
              ClosedTail(h, interval, Frame(h, interval, full), front, term)
  {
    var cut := interval - |front|;
    FrameConcat(h, interval, full, front + term);
    if front == [] {
      assert front + term == term;
    } else {
      assert front + term == (front + term[..cut]) + term[cut..];
      FrameOpenChunk(h, interval, front + term[..cut], term[cut..]);
      ConcatAssoc(Frame(h, interval, full), Chunk(h, front + term[..cut]), term[cut..]);
    }
  }

  // ---------------------------------------------------------------- reading back

  /** The logical bytes of a closed file that holds these blocks. */
  function FileData(interval: nat, blocks: seq<Bytes>): Bytes
    requires interval >= HEADER_SIZE
  {
    FileHeader(interval) + Flatten(blocks) + TermBlock(interval)
  }

  /** The file offset the i-th block gets when no offset wraps. */
  function BlockOffset(blocks: seq<Bytes>, i: nat): nat
    requires i <= |blocks|
  {
    HEADER_SIZE + |Flatten(blocks[..i])|
  }

  lemma BlockInside(blocks: seq<Bytes>, i: nat)
    requires i < |blocks|
    ensures Flatten(blocks) == Flatten(blocks[..i]) + blocks[i] + Flatten(blocks[i + 1..])
  {
    assert blocks == blocks[..i] + blocks[i..];
    FlattenConcat(blocks[..i], blocks[i..]);
    assert blocks[i..][1..] == blocks[i + 1..];
    ConcatAssoc(Flatten(blocks[..i]), blocks[i], Flatten(blocks[i + 1..]));
  }

  lemma MiddleSlice(a: Bytes, b: Bytes, c: Bytes, off: nat, len: nat)
    requires off + len <= |b|
    ensures (a + b + c)[|a| + off..|a| + off + len] == b[off..off + len]
  {
  }

  lemma Regroup(head: Bytes, x: Bytes, b: Bytes, y: Bytes, term: Bytes)
    ensures head + (x + b + y) + term == head + x + b + (y + term)
  {
  }

  lemma BlockBytes(interval: nat, blocks: seq<Bytes>, i: nat, off: nat, len: nat)
    requires interval >= HEADER_SIZE && i < |blocks| && off + len <= |blocks[i]|
    ensures var d, at := FileData(interval, blocks), BlockOffset(blocks, i) + off;
            at + len <= |d| && d[at..at + len] == blocks[i][off..off + len]
  {
    var head, term := FileHeader(interval), TermBlock(interval);
    var x, b, y := Flatten(blocks[..i]), blocks[i], Flatten(blocks[i + 1..]);
    BlockInside(blocks, i);
    Regroup(head, x, b, y, term);
    MiddleSlice(head + x, b, y + term, off, len);
  }

  /** Value file round trip: dropping the checksum bytes gives header, blocks and terminator block; the offset of a
      block plus an offset and a length in it selects exactly the bytes written there; and the physical length is
      that of the logical bytes plus 4 for every interval but the last. */
  lemma ClosedFileReads(h: Hash, interval: nat, blocks: seq<Bytes>, i: nat, off: nat, len: nat)
    requires interval >= HEADER_SIZE && i < |blocks| && off + len <= |blocks[i]|
    ensures var d, p := FileData(interval, blocks), FrameOpen(h, interval, FileData(interval, blocks));
            Unframe(interval, p) == d && |p| == |d| + 4 * ((|d| - 1) / interval)
    ensures var p, at := FrameOpen(h, interval, FileData(interval, blocks)), BlockOffset(blocks, i) + off;
            at + len <= |Unframe(interval, p)| && Unframe(interval, p)[at..at + len] == blocks[i][off..off + len]
  {
    UnframeFrameOpen(h, interval, FileData(interval, blocks));
    FrameOpenLength(h, interval, FileData(interval, blocks));
    BlockBytes(interval, blocks, i, off, len);
  }

  lemma ChunkThenRest(h: Hash, interval: nat, d: Bytes, j: nat)
    requires 0 < interval < |d|
    ensures var p, rest := FrameOpen(h, interval, d), FrameOpen(h, interval, d[interval..]);
            && |p| == interval + 4 + |rest|
            && (j < interval ==> p[j] == d[j])
            && (j < |rest| ==> p[interval + 4 + j] == rest[j])
  {
  }

  /** Where a seeking reader finds logical byte k: past one checksum for each of the q full intervals before it. */
  lemma {:induction false} BytePosition(h: Hash, interval: nat, d: Bytes, k: nat, q: nat)
    requires q * interval <= k < |d| && k - q * interval < interval
    ensures var p := FrameOpen(h, interval, d); k + 4 * q < |p| && p[k + 4 * q] == d[k]
    decreases q
  {
    if q == 0 {
      if |d| > interval { ChunkThenRest(h, interval, d, k); }
    } else {
      MulStep(q, interval);
      BytePosition(h, interval, d[interval..], k - interval, q - 1);
      ChunkThenRest(h, interval, d, k - interval + 4 * (q - 1));
    }
  }

  lemma MulStep(q: nat, interval: nat)
    requires q > 0
    ensures q * interval == (q - 1) * interval + interval >= interval
  {
  }

  lemma PhysicalPosition(h: Hash, interval: nat, d: Bytes, k: nat)
    requires interval > 0 && k < |d|
    ensures var p := FrameOpen(h, interval, d); k + 4 * (k / interval) < |p| && p[k + 4 * (k / interval)] == d[k]
  {
    var q := k / interval;
    assert k == q * interval + k % interval;
    BytePosition(h, interval, d, k, q);
  }
}
