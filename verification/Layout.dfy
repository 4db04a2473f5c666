/** Where memWriter puts values in its pages and fileWriter puts pages in its files, and that no offset of either runs
    past a page or past 32 bits. */
module Layout {
  import opened Base
  import opened Stamp
  import opened Framing
  import opened LocMap
  import opened ValueFile

  /** The bounds that the configuration ends up with. */
  datatype Config = Config(valueCap: nat, interval: nat, pageSize: nat, fileCap: nat)

  predicate ConfigOk(c: Config)
  {
    && c.interval >= HEADER_SIZE && c.pageSize >= c.valueCap + c.interval && c.pageSize >= 40
    && HEADER_SIZE + c.pageSize < TWO32 && c.fileCap < TWO32
  }

  /** The fewest bytes any value takes in a page. */
  function MinAlloc(c: Config): nat
  {
    c.interval / (c.pageSize / 32 + 1) + 1
  }

  function Alloc(c: Config, length: nat): nat { Max(length, MinAlloc(c)) }

  /** The least size with which one record more than a page has room for would take more than an interval: one record
      too late for what it is meant for (see FullPagesHoldInterval). */
  lemma MinAllocIsLeast(c: Config, m: nat)
    ensures (c.pageSize / 32 + 1) * m > c.interval <==> m >= MinAlloc(c)
  {
    var n := c.pageSize / 32 + 1;
    var q := c.interval / n;
    assert c.interval == n * q + c.interval % n;
    if m > q {
      MulMono(q + 1, m, n);
      assert n * (q + 1) == n * q + n;
    } else {
      MulMono(m, q, n);
    }
  }

  lemma MulMono(a: nat, b: nat, n: nat)
    requires a <= b
    ensures n * a <= n * b
  {
    assert n * b == n * a + n * (b - a);
  }

  lemma AllocFits(c: Config, length: nat)
    requires ConfigOk(c) && length <= c.valueCap
    ensures Alloc(c, length) <= c.pageSize
  {
    var t := c.pageSize / 32;
    assert t >= 1;
    HalfOrLess(c.interval, t + 1);
  }

  lemma HalfOrLess(a: nat, m: nat)
    requires m >= 2
    ensures a / m <= a / 2
  {
    var q := a / m;
    assert a == m * q + a % m;
    assert m * q == 2 * q + (m - 2) * q;
    assert (m - 2) * q >= 0;
  }

  /** A record of a page's TOC. */
  datatype Rec = Rec(key: Key, ts: nat, off: nat, len: nat)

  /** Spans lie one after another below `used`, each at least its allocation long. */
  ghost predicate Laid(c: Config, toc: seq<Rec>, used: nat)
  {
    && (forall i :: 0 <= i < |toc| ==> toc[i].off + Alloc(c, toc[i].len) <= used)
    && (forall i, j :: 0 <= i < j < |toc| ==> toc[i].off + Alloc(c, toc[i].len) <= toc[j].off)
  }

  ghost predicate Holds(values: seq<Byte>, r: Rec, val: Bytes)
  {
    r.len == |val| && r.off + r.len <= |values| && values[r.off..r.off + r.len] == val
  }

  /** Every record's span holds the value written for it. */
  ghost predicate HoldAll(values: seq<Byte>, toc: seq<Rec>, written: seq<Bytes>)
  {
    && |written| == |toc|
    && forall i {:trigger Holds(values, toc[i], written[i])} :: 0 <= i < |toc| ==> Holds(values, toc[i], written[i])
  }

  /** Two records of a page never share a byte. */
  lemma SpansDisjoint(c: Config, toc: seq<Rec>, used: nat, i: nat, j: nat, x: nat)
    requires Laid(c, toc, used) && i < |toc| && j < |toc| && i != j
    requires toc[i].off <= x < toc[i].off + toc[i].len
    ensures !(toc[j].off <= x < toc[j].off + toc[j].len)
  {
  }

  /** A finished page: its records and the bytes of its values. */
  datatype Page = Page(toc: seq<Rec>, values: Bytes)

  ghost predicate PageOk(c: Config, p: Page, written: seq<Bytes>)
  {
    |p.values| <= c.pageSize && Laid(c, p.toc, |p.values|) && HoldAll(p.values, p.toc, written)
  }

  datatype WriteResult = TooLong | Ok(previous: nat)

  /** One memWriter: its current page and the pages it handed on, over a location map it alone writes. `written` is
      history: the value behind each record of the current page, and of every page handed on. */
  class MemWriter {
    const c: Config
    const id: nat
    var values: array<Byte>
    var used: nat
    var toc: seq<Rec>
    var locs: Map
    var handed: seq<Page>
    ghost var written: seq<Bytes>
    ghost var before: seq<seq<Bytes>>

    ghost predicate Valid()
      reads this, values
    {
      && ConfigOk(c) && values.Length == c.pageSize && used <= c.pageSize && 32 * |toc| <= c.pageSize
      && Laid(c, toc, used) && HoldAll(values[..used], toc, written)
      && |before| == |handed| && forall i :: 0 <= i < |handed| ==> PageOk(c, handed[i], before[i])
    }

    constructor (c: Config, id: nat)
      requires ConfigOk(c)
      ensures Valid() && fresh(values) && this.c == c && this.id == id
      ensures toc == [] && handed == [] && locs == map[] && written == [] && before == []
    {
      this.c, this.id := c, id;
      values := new Byte[c.pageSize](_ => 0);
      used, toc, locs, handed, written, before := 0, [], map[], [], [], [];
    }

    /** The current page goes to fileWriter and a fresh one is taken. */
    method HandOn()
      requires Valid()
      modifies this
      ensures Valid() && values == old(values) && locs == old(locs)
      ensures handed == old(handed) + [Page(old(toc), old(values[..used]))] && before == old(before) + [old(written)]
      ensures toc == [] && used == 0 && written == []
    {
      handed := handed + [Page(toc, values[..used])];
      before := before + [written];
      used, toc, written := 0, [], [];
    }

    /** The value into the page, padded with zeros to its allocation. */
    method Place(val: Bytes)
      requires Valid() && used + Alloc(c, |val|) <= c.pageSize
      modifies values
      ensures Valid() && values[used..used + |val|] == val
      ensures values[..used] == old(values[..used])
      ensures forall k :: used + |val| <= k < used + Alloc(c, |val|) ==> values[k] == 0
    {
      ghost var was := values[..used];
      forall k | 0 <= k < |val| { values[used + k] := val[k]; }
      var i, j := used + |val|, used + Alloc(c, |val|);
      while i < j
        invariant used + |val| <= i <= j
        invariant values[..used] == was && values[used..used + |val|] == val
        invariant forall k :: used + |val| <= k < i ==> values[k] == 0
      {
        values[i] := 0;
        i := i + 1;
      }
    }

    /** The page has no room for one more record, or not for this value. */
    predicate Full(length: nat)
      reads this
    {
      32 * |toc| + 32 > c.pageSize || used + Alloc(c, length) > c.pageSize
    }

    /** memWriter on one value that is not too long, in a page with room for it. */
    method Put(key: Key, ts: nat, val: Bytes)
      requires Valid() && !Full(|val|)
      modifies this`used, this`toc, this`locs, this`written, values
      ensures Valid()
      ensures locs == LocMap.Write(old(locs), key, ts, Mem(id), old(used), |val|, 0)
      ensures Took(c, old(locs), key, ts, val, old(toc), old(used), old(written), toc, used, written)
    {
      Place(val);
      var previous := TsOf(locs, key);
      locs := LocMap.Write(locs, key, ts, Mem(id), used, |val|, 0);
      if previous < ts {
        var rec := Rec(key, Stored(ts), used, |val|);
        LaidSnoc(c, toc, used, rec);
        HoldSnoc(values[..used], values[..used + Alloc(c, |val|)], toc, written, rec, val);
        toc := toc + [rec];
        used := used + Alloc(c, |val|);
        written := written + [val];
      }
    }

    /** memWriter on one write request: too long a value is refused; a full page is handed on first; then the value is
        placed, and recorded exactly when the location map took it. */
    method Write(key: Key, ts: nat, val: Bytes) returns (r: WriteResult)
      requires Valid()
      modifies this, values
      ensures Valid() && values == old(values)
      ensures r.TooLong? <==> |val| > c.valueCap
      ensures r.TooLong? ==> toc == old(toc) && used == old(used) && locs == old(locs) && handed == old(handed)
      ensures r.Ok? ==> r.previous == TsOf(old(locs), key)
      ensures r.Ok? && old(Full(|val|)) ==>
                && handed == old(handed) + [Page(old(toc), old(values[..used]))]
                && before == old(before) + [old(written)]
                && locs == LocMap.Write(old(locs), key, ts, Mem(id), 0, |val|, 0)
                && Took(c, old(locs), key, ts, val, [], 0, [], toc, used, written)
      ensures r.Ok? && !old(Full(|val|)) ==>
                && handed == old(handed) && before == old(before)
                && locs == LocMap.Write(old(locs), key, ts, Mem(id), old(used), |val|, 0)
                && Took(c, old(locs), key, ts, val, old(toc), old(used), old(written), toc, used, written)
    {
      if |val| > c.valueCap { return TooLong; }
      r := Ok(TsOf(locs, key));
      if Full(|val|) {
        AllocFits(c, |val|);
        HandOn();
      }
      Put(key, ts, val);
    }
  }

  /** The page gained this record when the map took the write, and nothing otherwise. */
  ghost predicate Took(c: Config, locs: Map, key: Key, ts: nat, val: Bytes, toc: seq<Rec>, used: nat,
                       written: seq<Bytes>, toc': seq<Rec>, used': nat, written': seq<Bytes>)
  {
    if TsOf(locs, key) < ts then
      && toc' == toc + [Rec(key, Stored(ts), used, |val|)] && used' == used + Alloc(c, |val|)
      && written' == written + [val]
    else toc' == toc && used' == used && written' == written
  }

  lemma LaidSnoc(c: Config, toc: seq<Rec>, used: nat, rec: Rec)
    requires Laid(c, toc, used) && rec.off == used
    ensures Laid(c, toc + [rec], used + Alloc(c, rec.len))
  {
  }

  lemma HoldSnoc(was: Bytes, now: Bytes, toc: seq<Rec>, written: seq<Bytes>, rec: Rec, val: Bytes)
    requires HoldAll(was, toc, written) && was <= now && Holds(now, rec, val)
    ensures HoldAll(now, toc + [rec], written + [val])
  {
    forall i | 0 <= i < |toc| + 1 ensures Holds(now, (toc + [rec])[i], (written + [val])[i]) {
      if i < |toc| {
        assert Holds(was, toc[i], written[i]);
        assert now[toc[i].off..toc[i].off + toc[i].len] == was[toc[i].off..toc[i].off + toc[i].len];
      }
    }
  }

  // ---------------------------------------------------------------- fileWriter

  /** fileWriter's own count of a file's length beside the file's 32-bit write offset. `blocks` is what the current
      file holds. */
  class FileWriter {
    const c: Config
    var open: bool
    var tocLen: nat
    var valueLen: nat
    var writerOffset: U32
    var blocks: seq<Bytes>
    ghost var tocs: seq<seq<Rec>>   // the records of each page of the open file

    ghost predicate Valid()
      reads this
    {
      && ConfigOk(c)
      && (open ==> valueLen == writerOffset && valueLen == HEADER_SIZE + |Flatten(blocks)|
                   && tocLen == HEADER_SIZE + 32 * |Flatten(tocs)|)
    }

    constructor (c: Config)
      requires ConfigOk(c)
      ensures Valid() && !open && this.c == c
    {
      this.c := c;
      open, tocLen, valueLen, writerOffset, blocks, tocs := false, 0, 0, 0, [], [];
    }

    /** A new file. */
    method Begin()
      requires ConfigOk(c)
      modifies this
      ensures Valid() && open && blocks == [] && tocs == [] && valueLen == HEADER_SIZE
    {
      open, tocLen, valueLen, writerOffset, blocks, tocs := true, HEADER_SIZE, HEADER_SIZE, HEADER_SIZE, [], [];
    }

    /** One page for the open file. */
    method Add(page: Page) returns (fileOffset: U32)
      requires Valid() && open && valueLen + |page.values| < TWO32
      modifies this
      ensures Valid() && open && fileOffset == old(valueLen) && valueLen == old(valueLen) + |page.values|
      ensures blocks == old(blocks) + [page.values] && tocs == old(tocs) + [page.toc]
    {
      fileOffset := writerOffset;
      FlattenSnoc(blocks, page.values);
      FlattenSnoc(tocs, page.toc);
      writerOffset := ValueFile.Advance(writerOffset, |page.values|);
      tocLen, valueLen := tocLen + 32 * |page.toc|, valueLen + |page.values|;
      blocks, tocs := blocks + [page.values], tocs + [page.toc];
    }

    /** One page: a new file is begun when none is open or this one would grow past its cap; the page gets the file's
        offset. */
    method Append(page: Page) returns (fileOffset: U32, rotated: bool)
      requires Valid() && |page.values| <= c.pageSize
      modifies this
      ensures Valid() && open && valueLen < TWO32
      ensures rotated <==> (!old(open) || HEADER_SIZE + 32 * (|Flatten(old(tocs))| + |page.toc|) >= c.fileCap
                            || HEADER_SIZE + |Flatten(old(blocks))| + |page.values| > c.fileCap)
      ensures blocks == (if rotated then [] else old(blocks)) + [page.values]
      ensures tocs == (if rotated then [] else old(tocs)) + [page.toc]
      ensures fileOffset == BlockOffset(blocks, |blocks| - 1)
    {
      rotated := !open || tocLen + 32 * |page.toc| >= c.fileCap || valueLen + |page.values| > c.fileCap;
      if rotated { Begin(); }
      assert valueLen == HEADER_SIZE + |Flatten(blocks)|;
      ghost var was := blocks;
      fileOffset := Add(page);
      assert blocks[..|blocks| - 1] == was;
    }
  }

  /** The location memClearer records for a page's record: no 32-bit wrap, inside the file's data, and exactly the
      value. */
  lemma RecordedLocation(c: Config, blocks: seq<Bytes>, i: nat, page: Page, written: seq<Bytes>, k: nat)
    requires ConfigOk(c) && i < |blocks| && page.values == blocks[i] && PageOk(c, page, written) && k < |page.toc|
    requires HEADER_SIZE + |Flatten(blocks)| < TWO32
    ensures var at := BlockOffset(blocks, i) + page.toc[k].off;
            var d := FileData(c.interval, blocks);
            && at + page.toc[k].len < TWO32
            && at + page.toc[k].len <= |d| && d[at..at + page.toc[k].len] == written[k]
  {
    var r := page.toc[k];
    assert Holds(page.values, r, written[k]);
    BlockBytes(c.interval, blocks, i, r.off, r.len);
    BlockInside(blocks, i);
  }

  // ---------------------------------------------------------------- does a full page hold an interval's worth?

  /** A page full of records holds at least this many bytes. */
  lemma {:induction false} FullTocBytes(c: Config, toc: seq<Rec>, used: nat)
    requires Laid(c, toc, used)
    ensures |toc| * MinAlloc(c) <= used
  {
    if |toc| > 0 {
      var front, last := toc[..|toc| - 1], toc[|toc| - 1];
      FullTocBytes(c, front, last.off);
      assert |toc| * MinAlloc(c) == |front| * MinAlloc(c) + MinAlloc(c);
    }
  }

  function Times(a: nat, b: nat): nat { a * b }

  /** Some page of n records, all of empty values. */
  ghost function EmptyValues(c: Config, n: nat): seq<Rec>
  {
    seq(n, (i: nat) => Rec(Key(0, 0), 0, Times(i, MinAlloc(c)), 0))
  }

  lemma EmptyValuesLaid(c: Config, n: nat)
    ensures Laid(c, EmptyValues(c, n), n * MinAlloc(c))
  {
    var m, toc := MinAlloc(c), EmptyValues(c, n);
    forall i | 0 <= i < n ensures toc[i].off + Alloc(c, 0) <= n * m {
      MulStep(i + 1, m);
      MulOrder(i + 1, n, m);
    }
    forall i, j | 0 <= i < j < n ensures toc[i].off + Alloc(c, 0) <= toc[j].off {
      MulStep(i + 1, m);
      MulOrder(i + 1, j, m);
    }
  }

  lemma MulOrder(a: nat, b: nat, m: nat)
    requires a <= b
    ensures a * m <= b * m
  {
    assert b * m == a * m + (b - a) * m;
  }

  /** The smallest allocation is meant to give every page that is full of records an interval's worth of bytes. It
      does so exactly when the interval is no larger than that many smallest allocations. */
  lemma FullPagesHoldInterval(c: Config)
    requires ConfigOk(c)
    ensures c.interval <= c.pageSize / 32 * MinAlloc(c) <==>
            forall toc, used: nat :: Laid(c, toc, used) && |toc| == c.pageSize / 32 ==> used >= c.interval
  {
    var n := c.pageSize / 32;
    forall toc, used: nat | Laid(c, toc, used) && |toc| == n ensures used >= n * MinAlloc(c) {
      FullTocBytes(c, toc, used);
    }
    EmptyValuesLaid(c, n);
    assert |EmptyValues(c, n)| == n;
  }

  /** A configuration for which it does not. */
  lemma ShortFullPage()
    ensures var c := Config(1, 1000, 1001, 0xffff_ffff); ConfigOk(c) && c.interval > c.pageSize / 32 * MinAlloc(c)
  {
  }
}
