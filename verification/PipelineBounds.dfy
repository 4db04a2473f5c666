/** What every run under the limits keeps: a memWriter has one page, a page is short only when it was sealed for a
    token, pages in a file lie one after the other, and each memWriter does next what its page allows. */
module PipelineBounds {
  import opened Base
  import opened Stamp
  import opened LocMap
  import opened Pipeline
  import opened PipelineFiles
  import opened PipelineDisk
  import opened PipelineRuns
  import opened PipelineFrames
  import opened PipelineFence
  import opened PipelineLimits
  import opened Finite

  // ---------------------------------------------------------------- the invariant

  /** A memWriter does next what its page allows. */
  ghost predicate AskOk(c: Config, l: Limits, x: Bounded, w: nat)
  {
    w < |x.book.ask| && w < |x.s.writers| && w < |x.s.drain.wtok| && !x.book.ask[w].Rest? ==>
      && x.s.writers[w].Idle?
      && match x.book.ask[w]
         case Rest => true
         case Wants => forall b :: 0 <= b < |x.s.blocks| && x.s.blocks[b].owner == AtWriter(w) ==>
           Full(c, l, x.s.blocks[b])
         case Got =>
           exists b :: 0 <= b < |x.s.blocks| && x.s.blocks[b].owner == AtWriter(w) && x.s.blocks[b].recs == [] &&
                       x.s.blocks[b].values == []
         case Sealed => x.s.mode.Draining? && x.s.drain.wtok[w].WWait? && !WriterHas(x.s, w)
  }

  ghost predicate AsksOk(c: Config, l: Limits, x: Bounded)
  {
    forall w: nat {:trigger AskOk(c, l, x, w)} :: AskOk(c, l, x, w)
  }

  /** A memWriter has one page. */
  ghost predicate OwnPage(blocks: seq<Block>, a: nat, b: nat)
  {
    a < |blocks| && b < |blocks| && blocks[a].owner.AtWriter? && blocks[a].owner == blocks[b].owner ==> a == b
  }

  ghost predicate OwnPages(blocks: seq<Block>)
  {
    forall a: nat, b: nat {:trigger OwnPage(blocks, a, b)} :: OwnPage(blocks, a, b)
  }

  /** Every record of a page has its allocation, and so has the request that is being written. */
  ghost predicate FillOk(c: Config, blocks: seq<Block>, writers: seq<Pc>, b: nat)
  {
    b < |blocks| && blocks[b].owner.AtWriter? && blocks[b].owner.w < |writers| ==>
      var pc, used := writers[blocks[b].owner.w], |blocks[b].recs| * c.minAlloc;
      if pc.Idle? || pc.b != b then used <= |blocks[b].values|
      else used <= pc.off && pc.off + c.minAlloc <= |blocks[b].values|
  }

  ghost predicate FillsOk(c: Config, blocks: seq<Block>, writers: seq<Pc>)
  {
    forall b: nat {:trigger FillOk(c, blocks, writers, b)} :: FillOk(c, blocks, writers, b)
  }

  /** A page on its way to a file, or in the open one, that is shorter than a buffer. */
  predicate Short(c: Config, blk: Block)
  {
    |blk.values| < c.interval && (blk.owner.InFileChan? || blk.owner.HeldByFile?)
  }

  /** It was sealed for a token that follows it. */
  ghost predicate ShortOk(c: Config, x: Bounded, b: nat)
  {
    IsShort(c, x, b) ==>
      var w, o := x.book.filler[b], x.s.blocks[b].owner;
      && w < |x.book.ask| && w < |x.s.drain.wtok| && x.s.mode.Draining? && StillPhase1(x.s.drain)
      && (x.book.ask[w].Sealed? || !x.s.drain.wtok[w].WWait?)
      && (o.InFileChan? ==>
            o.w == w && (x.book.ask[w].Sealed? || (x.s.drain.wtok[w].WSent? && o.t < x.s.drain.wtok[w].t)))
  }

  ghost predicate ShortsOk(c: Config, x: Bounded)
  {
    forall b: nat {:trigger ShortOk(c, x, b)} :: ShortOk(c, x, b)
  }

  predicate IsShort(c: Config, x: Bounded, b: nat)
  {
    b < |x.s.blocks| && b < |x.book.filler| && Short(c, x.s.blocks[b])
  }

  /** Each memWriter sealed one of them at most. */
  ghost predicate ShortPair(c: Config, x: Bounded, a: nat, b: nat)
  {
    IsShort(c, x, a) && IsShort(c, x, b) && x.book.filler[a] == x.book.filler[b] ==> a == b
  }

  ghost predicate ShortsApart(c: Config, x: Bounded)
  {
    forall a: nat, b: nat {:trigger ShortPair(c, x, a, b)} :: ShortPair(c, x, a, b)
  }

  /** Pages in the open file lie one after the other. */
  ghost predicate HeldPair(blocks: seq<Block>, a: nat, b: nat)
  {
    a < |blocks| && b < |blocks| && a != b && blocks[a].owner.HeldByFile? && blocks[b].owner.HeldByFile? ==>
      PageEnd(blocks[a]) <= blocks[b].foff || PageEnd(blocks[b]) <= blocks[a].foff
  }

  ghost predicate HeldApart(blocks: seq<Block>)
  {
    forall a: nat, b: nat {:trigger HeldPair(blocks, a, b)} :: HeldPair(blocks, a, b)
  }

  /** A page that is full holds a buffer's worth of bytes. */
  predicate Generous(c: Config, l: Limits)
  {
    c.interval <= l.page / ENTRY_SIZE * c.minAlloc && c.interval + MaxAlloc(c, l) <= l.page + 1
  }

  ghost predicate BookOk(c: Config, x: Bounded)
  {
    |x.book.ask| == c.workers && |x.book.filler| == |x.s.blocks| && x.book.turn < c.workers
  }

  ghost predicate Bounds(c: Config, l: Limits, x: Bounded)
  {
    && BookOk(c, x) && AsksOk(c, l, x) && OwnPages(x.s.blocks) && FillsOk(c, x.s.blocks, x.s.writers)
    && ShortsOk(c, x) && ShortsApart(c, x) && HeldApart(x.s.blocks)
  }

  // ---------------------------------------------------------------- full pages are not short

  lemma MulMono(a: nat, b: nat, m: nat)
    requires a <= b
    ensures a * m <= b * m
  {
    assert (b - a) * m == b * m - a * m && (b - a) * m >= 0;
  }

  lemma FullHoldsBuffer(c: Config, l: Limits, blk: Block)
    requires Generous(c, l) && Full(c, l, blk) && |blk.recs| * c.minAlloc <= |blk.values|
    ensures c.interval <= |blk.values|
  {
    if ENTRY_SIZE * (|blk.recs| + 1) > l.page {
      MulMono(l.page / ENTRY_SIZE, |blk.recs|, c.minAlloc);
    }
  }

  /** With the source's page size, which is at least a value and a buffer, only pages full of records can fall
      short. */
  lemma GenerousExactly(c: Config, l: Limits)
    requires l.page >= l.valueCap + c.interval && c.minAlloc <= l.valueCap + 1
    ensures Generous(c, l) <==> c.interval <= l.page / ENTRY_SIZE * c.minAlloc
  {
  }

  // ---------------------------------------------------------------- memWriter steps

  /** memWriter w works on its page b. */
  ghost predicate WritesPage(s: State, s': State, w: nat, b: nat)
  {
    && b < |s.blocks| == |s'.blocks| && w < |s.writers| == |s'.writers| && s'.blocks[b].owner == AtWriter(w)
    && (s.blocks[b].owner == AtWriter(w) || (s.blocks[b].owner.Free? && !WriterHas(s, w)))
    && (forall a :: 0 <= a < |s.blocks| && a != b ==> s'.blocks[a] == s.blocks[a])
    && (forall v :: 0 <= v < |s.writers| && v != w ==> s'.writers[v] == s.writers[v])
    && s'.drain == s.drain && s'.mode == s.mode
  }

  lemma WritesOwn(s: State, s': State, w: nat, b: nat)
    requires WritesPage(s, s', w, b) && OwnPages(s.blocks)
    ensures OwnPages(s'.blocks)
  {
    forall a: nat, d: nat ensures OwnPage(s'.blocks, a, d) { assert OwnPage(s.blocks, a, d); }
  }

  lemma WritesFill(c: Config, s: State, s': State, w: nat, b: nat)
    requires WritesPage(s, s', w, b) && FillsOk(c, s.blocks, s.writers) && FillOk(c, s'.blocks, s'.writers, b)
    requires OwnPages(s.blocks)
    ensures FillsOk(c, s'.blocks, s'.writers)
  {
    forall a: nat ensures FillOk(c, s'.blocks, s'.writers, a) {
      assert FillOk(c, s.blocks, s.writers, a) && OwnPage(s.blocks, a, b);
    }
  }

  lemma WritesHeld(c: Config, x: Bounded, y: Bounded, w: nat, b: nat)
    requires WritesPage(x.s, y.s, w, b) && y.book.filler == x.book.filler && |x.book.filler| == |x.s.blocks|
    requires |y.book.ask| == |x.book.ask|
    requires forall v :: 0 <= v < |x.book.ask| && v != w ==> y.book.ask[v] == x.book.ask[v]
    requires w < |x.book.ask| ==> !x.book.ask[w].Sealed?
    requires ShortsOk(c, x) && ShortsApart(c, x) && HeldApart(x.s.blocks)
    ensures ShortsOk(c, y) && ShortsApart(c, y) && HeldApart(y.s.blocks)
  {
    forall a: nat ensures ShortOk(c, y, a) { assert ShortOk(c, x, a); }
    forall a: nat, d: nat ensures ShortPair(c, y, a, d) { assert ShortPair(c, x, a, d); }
    forall a: nat, d: nat ensures HeldPair(y.s.blocks, a, d) { assert HeldPair(x.s.blocks, a, d); }
  }

  lemma WritesAsks(c: Config, l: Limits, x: Bounded, y: Bounded, w: nat, b: nat)
    requires WritesPage(x.s, y.s, w, b) && AsksOk(c, l, x) && AskOk(c, l, y, w)
    requires |y.book.ask| == |x.book.ask|
    requires forall v :: 0 <= v < |x.book.ask| && v != w ==> y.book.ask[v] == x.book.ask[v]
    ensures AsksOk(c, l, y)
  {
    forall v: nat ensures AskOk(c, l, y, v) {
      assert AskOk(c, l, x, v);
      if v != w && v < |x.book.ask| && v < |x.s.writers| && v < |x.s.drain.wtok| && x.book.ask[v].Got? {
        var d :| 0 <= d < |x.s.blocks| && x.s.blocks[d].owner == AtWriter(v) && x.s.blocks[d].recs == [] &&
                 x.s.blocks[d].values == [];
        assert y.s.blocks[d] == x.s.blocks[d];
      }
    }
  }

  lemma WritesBounds(c: Config, l: Limits, x: Bounded, y: Bounded, w: nat, b: nat)
    requires Bounds(c, l, x) && WritesPage(x.s, y.s, w, b)
    requires FillOk(c, y.s.blocks, y.s.writers, b) && AskOk(c, l, y, w)
    requires y.book == x.book.(ask := y.book.ask) && |y.book.ask| == |x.book.ask|
    requires forall v :: 0 <= v < |x.book.ask| && v != w ==> y.book.ask[v] == x.book.ask[v]
    requires w < |x.book.ask| ==> !x.book.ask[w].Sealed?
    ensures Bounds(c, l, y)
  {
    WritesOwn(x.s, y.s, w, b);
    WritesFill(c, x.s, y.s, w, b);
    WritesHeld(c, x, y, w, b);
    WritesAsks(c, l, x, y, w, b);
  }

  lemma TakeFreeBounds(c: Config, l: Limits, x: Bounded, w: nat, b: nat)
    requires Bounds(c, l, x) && Shape(c, x.s) && TakeFreeGuard(c, x.s, w, b) && Within(c, l, x, TakeFree(w, b))
    ensures Bounds(c, l, Bounded(SetOwner(x.s, b, AtWriter(w)), NextBook(c, x, TakeFree(w, b))))
  {
    var y := Bounded(SetOwner(x.s, b, AtWriter(w)), NextBook(c, x, TakeFree(w, b)));
    assert BlockShape(c, x.s.blocks, x.s.clock, x.s.open, |x.s.files|, b);
    assert y.s.blocks[b].owner == AtWriter(w) && y.s.blocks[b].recs == [];
    WritesBounds(c, l, x, y, w, b);
  }

  lemma ExtendBounds(c: Config, l: Limits, x: Bounded, w: nat, b: nat, req: Req, junk: Bytes)
    requires Bounds(c, l, x) && Shape(c, x.s) && ExtendGuard(c, x.s, w, b, req, junk)
    requires Within(c, l, x, Extend(w, b, req, junk))
    ensures Bounds(c, l, Bounded(ApplyExtend(x.s, w, b, req, junk), NextBook(c, x, Extend(w, b, req, junk))))
  {
    var y := Bounded(ApplyExtend(x.s, w, b, req, junk), NextBook(c, x, Extend(w, b, req, junk)));
    assert FillOk(c, x.s.blocks, x.s.writers, b);
    WritesBounds(c, l, x, y, w, b);
  }

  lemma CopyBounds(c: Config, l: Limits, x: Bounded, w: nat)
    requires Bounds(c, l, x) && Shape(c, x.s) && CopyGuard(c, x.s, w) && WriterShape(x.s.writers, x.s.blocks, w)
    ensures Bounds(c, l, Bounded(ApplyCopy(x.s, w), x.book))
  {
    assert FillOk(c, x.s.blocks, x.s.writers, x.s.writers[w].b) && AskOk(c, l, x, w);
    WritesBounds(c, l, x, Bounded(ApplyCopy(x.s, w), x.book), w, x.s.writers[w].b);
  }

  lemma PlaceWrites(s: State, w: nat)
    requires w < |s.writers| && s.writers[w].Copied? && WriterShape(s.writers, s.blocks, w)
    ensures var s' := ApplyPlace(s, w);
            && WritesPage(s, s', w, s.writers[w].b) && s'.blocks == s.blocks
            && s'.writers[w].Placed? && s'.writers[w].b == s.writers[w].b && s'.writers[w].off == s.writers[w].off
  {
  }

  lemma PlaceBounds(c: Config, l: Limits, x: Bounded, w: nat)
    requires Bounds(c, l, x) && Sizes(c, x.s) && PlaceInMapGuard(c, x.s, w) && WriterShape(x.s.writers, x.s.blocks, w)
    ensures Bounds(c, l, Bounded(ApplyPlace(x.s, w), x.book))
  {
    var y := Bounded(ApplyPlace(x.s, w), x.book);
    PlaceWrites(x.s, w);
    assert FillOk(c, x.s.blocks, x.s.writers, x.s.writers[w].b) && AskOk(c, l, x, w);
    WritesBounds(c, l, x, y, w, x.s.writers[w].b);
  }

  lemma RecordBounds(c: Config, l: Limits, x: Bounded, w: nat)
    requires Bounds(c, l, x) && Shape(c, x.s) && RecordGuard(c, x.s, w) && WriterShape(x.s.writers, x.s.blocks, w)
    ensures Bounds(c, l, Bounded(ApplyRecord(x.s, w), x.book))
  {
    var b := x.s.writers[w].b;
    assert FillOk(c, x.s.blocks, x.s.writers, b) && AskOk(c, l, x, w);
    var n := |x.s.blocks[b].recs|;
    assert (n + 1) * c.minAlloc == n * c.minAlloc + c.minAlloc;
    WritesBounds(c, l, x, Bounded(ApplyRecord(x.s, w), x.book), w, b);
  }

  lemma TruncateBounds(c: Config, l: Limits, x: Bounded, w: nat)
    requires Bounds(c, l, x) && Shape(c, x.s) && TruncateGuard(c, x.s, w) && WriterShape(x.s.writers, x.s.blocks, w)
    ensures Bounds(c, l, Bounded(ApplyTruncate(x.s, w), x.book))
  {
    var b := x.s.writers[w].b;
    assert FillOk(c, x.s.blocks, x.s.writers, b) && AskOk(c, l, x, w);
    WritesBounds(c, l, x, Bounded(ApplyTruncate(x.s, w), x.book), w, b);
  }

  lemma RequestBounds(c: Config, l: Limits, x: Bounded, w: nat)
    requires Bounds(c, l, x) && Shape(c, x.s) && RequestGuard(c, l, x, w)
    ensures Bounds(c, l, x.(book := x.book.(ask := x.book.ask[w := Wants])))
  {
    var y := x.(book := x.book.(ask := x.book.ask[w := Wants]));
    forall v: nat ensures AskOk(c, l, y, v) { assert AskOk(c, l, x, v); }
    forall a: nat ensures ShortOk(c, y, a) { assert ShortOk(c, x, a); }
    forall a: nat, b: nat ensures ShortPair(c, y, a, b) { assert ShortPair(c, x, a, b); }
  }

  // ---------------------------------------------------------------- sealing a page

  /** Page b leaves memWriter w for fileMemBlockChan. */
  lemma SealKeepsAsks(c: Config, l: Limits, x: Bounded, w: nat, b: nat)
    requires Bounds(c, l, x) && Sizes(c, x.s) && SealGuard(c, x.s, w, b) && Within(c, l, x, Seal(w, b))
    ensures var s' := SetOwner(x.s, b, InFileChan(w, x.s.clock)).(clock := x.s.clock + 1);
            AsksOk(c, l, Bounded(s', NextBook(c, x, Seal(w, b))))
  {
    var y := Bounded(SetOwner(x.s, b, InFileChan(w, x.s.clock)).(clock := x.s.clock + 1), NextBook(c, x, Seal(w, b)));
    forall v: nat ensures AskOk(c, l, y, v) {
      assert AskOk(c, l, x, v);
      if v == w {
        forall d: nat ensures d < |x.s.blocks| ==> y.s.blocks[d].owner != AtWriter(w) {
          assert OwnPage(x.s.blocks, d, b);
        }
      } else if v < c.workers && x.book.ask[v].Got? {
        var d :| 0 <= d < |x.s.blocks| && x.s.blocks[d].owner == AtWriter(v) && x.s.blocks[d].recs == [] &&
                 x.s.blocks[d].values == [];
        assert y.s.blocks[d] == x.s.blocks[d];
      }
    }
  }

  /** A page that is sealed for a request is full, so it is not short. */
  lemma SealedIsLong(c: Config, l: Limits, x: Bounded, w: nat, b: nat)
    requires Bounds(c, l, x) && Generous(c, l) && Sizes(c, x.s) && SealGuard(c, x.s, w, b) && InHand(x, w, Wants)
    ensures c.interval <= |x.s.blocks[b].values|
  {
    assert AskOk(c, l, x, w) && FillOk(c, x.s.blocks, x.s.writers, b);
    FullHoldsBuffer(c, l, x.s.blocks[b]);
  }

  /** No page of a memWriter that has its token still to come is short. */
  lemma NoneShort(c: Config, l: Limits, x: Bounded, w: nat, a: nat)
    requires Bounds(c, l, x) && Sizes(c, x.s) && w < c.workers && InHand(x, w, Rest) && x.s.drain.wtok[w].WWait?
    ensures IsShort(c, x, a) ==> x.book.filler[a] != w
  {
    assert ShortOk(c, x, a);
  }

  lemma SealKeepsShorts(c: Config, l: Limits, x: Bounded, w: nat, b: nat)
    requires Bounds(c, l, x) && Generous(c, l) && Core(c, x.s)
    requires SealGuard(c, x.s, w, b) && Within(c, l, x, Seal(w, b))
    ensures var s' := SetOwner(x.s, b, InFileChan(w, x.s.clock)).(clock := x.s.clock + 1);
            var y := Bounded(s', NextBook(c, x, Seal(w, b)));
            ShortsOk(c, y) && ShortsApart(c, y)
  {
    var y := Bounded(SetOwner(x.s, b, InFileChan(w, x.s.clock)).(clock := x.s.clock + 1), NextBook(c, x, Seal(w, b)));
    if InHand(x, w, Wants) { SealedIsLong(c, l, x, w, b); }
    PhaseTokens(c, x.s);
    forall a: nat ensures ShortOk(c, y, a) {
      assert ShortOk(c, x, a);
      if InHand(x, w, Rest) { NoneShort(c, l, x, w, a); }
    }
    forall a: nat, d: nat ensures ShortPair(c, y, a, d) {
      assert ShortPair(c, x, a, d);
      if InHand(x, w, Rest) { NoneShort(c, l, x, w, a); NoneShort(c, l, x, w, d); }
    }
  }

  /** While a memWriter's token is still to come the memClearers have none. */
  lemma PhaseTokens(c: Config, s: State)
    requires Core(c, s)
    ensures (exists w :: 0 <= w < |s.drain.wtok| && !s.drain.wtok[w].WDone?) ==> StillPhase1(s.drain)
  {
    assert Phase1(s.drain) || Phase2(s.drain, s.open, |s.files|);
  }

  lemma SealKeepsPages(c: Config, s: State, w: nat, b: nat)
    requires Sizes(c, s) && SealGuard(c, s, w, b)
    requires OwnPages(s.blocks) && FillsOk(c, s.blocks, s.writers) && HeldApart(s.blocks)
    ensures var s' := SetOwner(s, b, InFileChan(w, s.clock));
            OwnPages(s'.blocks) && FillsOk(c, s'.blocks, s'.writers) && HeldApart(s'.blocks)
  {
    var s' := SetOwner(s, b, InFileChan(w, s.clock));
    forall a: nat, d: nat ensures OwnPage(s'.blocks, a, d) && HeldPair(s'.blocks, a, d) {
      assert OwnPage(s.blocks, a, d) && HeldPair(s.blocks, a, d);
    }
    forall a: nat ensures FillOk(c, s'.blocks, s'.writers, a) { assert FillOk(c, s.blocks, s.writers, a); }
  }

  lemma SealBounds(c: Config, l: Limits, x: Bounded, w: nat, b: nat)
    requires Bounds(c, l, x) && Generous(c, l) && Core(c, x.s)
    requires SealGuard(c, x.s, w, b) && Within(c, l, x, Seal(w, b))
    ensures var s' := SetOwner(x.s, b, InFileChan(w, x.s.clock)).(clock := x.s.clock + 1);
            Bounds(c, l, Bounded(s', NextBook(c, x, Seal(w, b))))
  {
    SealKeepsAsks(c, l, x, w, b);
    SealKeepsShorts(c, l, x, w, b);
    SealKeepsPages(c, x.s, w, b);
  }

  // ---------------------------------------------------------------- pages further on

  /** Page b goes on, away from memWriters, fileMemBlockChan and the open file. */
  ghost predicate GoesOn(s: State, s': State, b: nat)
  {
    && b < |s.blocks| == |s'.blocks|
    && (forall a :: 0 <= a < |s.blocks| && a != b ==> s'.blocks[a] == s.blocks[a])
    && !s.blocks[b].owner.AtWriter? && !s'.blocks[b].owner.AtWriter?
    && !s'.blocks[b].owner.InFileChan? && !s'.blocks[b].owner.HeldByFile?
    && s'.writers == s.writers && s'.drain == s.drain && s'.mode == s.mode
  }

  lemma GoesOnBounds(c: Config, l: Limits, x: Bounded, y: Bounded, b: nat)
    requires Bounds(c, l, x) && GoesOn(x.s, y.s, b) && y.book == x.book.(turn := y.book.turn) && y.book.turn < c.workers
    ensures Bounds(c, l, y)
  {
    forall v: nat ensures AskOk(c, l, y, v) {
      assert AskOk(c, l, x, v);
      if v < c.workers && v < |x.s.writers| && v < |x.s.drain.wtok| && x.book.ask[v].Got? {
        var d :| 0 <= d < |x.s.blocks| && x.s.blocks[d].owner == AtWriter(v) && x.s.blocks[d].recs == [] &&
                 x.s.blocks[d].values == [];
        assert y.s.blocks[d] == x.s.blocks[d];
      }
    }
    forall a: nat, d: nat ensures OwnPage(y.s.blocks, a, d) { assert OwnPage(x.s.blocks, a, d); }
    forall a: nat ensures FillOk(c, y.s.blocks, y.s.writers, a) { assert FillOk(c, x.s.blocks, x.s.writers, a); }
    forall a: nat ensures ShortOk(c, y, a) { assert ShortOk(c, x, a); }
    forall a: nat, d: nat ensures ShortPair(c, y, a, d) { assert ShortPair(c, x, a, d); }
    forall a: nat, d: nat ensures HeldPair(y.s.blocks, a, d) { assert HeldPair(x.s.blocks, a, d); }
  }

  lemma WriteBlockBounds(c: Config, l: Limits, x: Bounded, b: nat)
    requires Bounds(c, l, x) && Core(c, x.s) && WriteBlockGuard(c, x.s, b)
    ensures Bounds(c, l, Bounded(ApplyWriteBlock(x.s, b), NextBook(c, x, WriteBlock(b))))
  {
    var y := Bounded(ApplyWriteBlock(x.s, b), NextBook(c, x, WriteBlock(b)));
    forall v: nat ensures AskOk(c, l, y, v) {
      assert AskOk(c, l, x, v);
      if v < c.workers && x.book.ask[v].Got? {
        var d :| 0 <= d < |x.s.blocks| && x.s.blocks[d].owner == AtWriter(v) && x.s.blocks[d].recs == [] &&
                 x.s.blocks[d].values == [];
        assert y.s.blocks[d] == x.s.blocks[d];
      }
    }
    forall a: nat, d: nat ensures OwnPage(y.s.blocks, a, d) { assert OwnPage(x.s.blocks, a, d); }
    forall a: nat ensures FillOk(c, y.s.blocks, y.s.writers, a) { assert FillOk(c, x.s.blocks, x.s.writers, a); }
    forall a: nat ensures ShortOk(c, y, a) { assert ShortOk(c, x, a); }
    forall a: nat, d: nat ensures ShortPair(c, y, a, d) { assert ShortPair(c, x, a, d); }
    WriteBlockHeld(c, x.s, b);
  }

  /** The page goes to the end of the file. */
  lemma WriteBlockHeld(c: Config, s: State, b: nat)
    requires Core(c, s) && WriteBlockGuard(c, s, b) && HeldApart(s.blocks)
    ensures HeldApart(ApplyWriteBlock(s, b).blocks)
  {
    var s' := ApplyWriteBlock(s, b);
    forall a: nat, d: nat ensures HeldPair(s'.blocks, a, d) {
      assert HeldPair(s.blocks, a, d);
      assert BlockShape(c, s.blocks, s.clock, s.open, |s.files|, a) && BlockInFile(s.blocks, s.files, a);
      assert BlockShape(c, s.blocks, s.clock, s.open, |s.files|, d) && BlockInFile(s.blocks, s.files, d);
    }
  }

  /** Pages, memWriters and the drain are as they were. */
  lemma StillBounds(c: Config, l: Limits, x: Bounded, y: Bounded)
    requires Bounds(c, l, x) && y.s.blocks == x.s.blocks && y.s.writers == x.s.writers
    requires y.s.drain == x.s.drain && y.s.mode == x.s.mode
    requires y.book == x.book.(turn := y.book.turn, tocLen := y.book.tocLen) && y.book.turn < c.workers
    ensures Bounds(c, l, y)
  {
    forall v: nat ensures AskOk(c, l, y, v) { assert AskOk(c, l, x, v); }
    forall a: nat ensures ShortOk(c, y, a) { assert ShortOk(c, x, a); }
    forall a: nat, d: nat ensures ShortPair(c, y, a, d) { assert ShortPair(c, x, a, d); }
  }

  // ---------------------------------------------------------------- tokens

  lemma WriterTokenBounds(c: Config, l: Limits, x: Bounded, w: nat)
    requires Bounds(c, l, x) && Core(c, x.s) && WriterTokenGuard(c, x.s, w)
    ensures var d := x.s.drain.(wtok := x.s.drain.wtok[w := WSent(x.s.clock)]);
            Bounds(c, l, Bounded(x.s.(drain := d, clock := x.s.clock + 1), NextBook(c, x, WriterToken(w))))
  {
    var d := x.s.drain.(wtok := x.s.drain.wtok[w := WSent(x.s.clock)]);
    var y := Bounded(x.s.(drain := d, clock := x.s.clock + 1), NextBook(c, x, WriterToken(w)));
    forall v: nat ensures AskOk(c, l, y, v) { assert AskOk(c, l, x, v); }
    forall a: nat ensures ShortOk(c, y, a) {
      assert ShortOk(c, x, a) && BlockShape(c, x.s.blocks, x.s.clock, x.s.open, |x.s.files|, a);
    }
    forall a: nat, b: nat ensures ShortPair(c, y, a, b) { assert ShortPair(c, x, a, b); }
  }

  /** Nothing is short, and no memWriter has just sealed a page for its token. */
  ghost predicate NoShorts(c: Config, x: Bounded)
  {
    && (forall a: nat {:trigger IsShort(c, x, a)} :: !IsShort(c, x, a))
    && forall w :: 0 <= w < |x.book.ask| ==> !x.book.ask[w].Sealed?
  }

  /** Then the drain in progress does not matter. */
  lemma DrainBounds(c: Config, l: Limits, x: Bounded, y: Bounded)
    requires Bounds(c, l, x) && NoShorts(c, x) && y.book == x.book && Sizes(c, x.s) && |y.s.drain.wtok| == c.workers
    requires y.s.blocks == x.s.blocks && y.s.writers == x.s.writers
    ensures Bounds(c, l, y)
  {
    forall v: nat ensures AskOk(c, l, y, v) { assert AskOk(c, l, x, v); }
    forall a: nat ensures ShortOk(c, y, a) { assert !IsShort(c, x, a); }
    forall a: nat, b: nat ensures ShortPair(c, y, a, b) { assert !IsShort(c, x, a); }
  }

  /** When no drain is in progress, or the memClearers have their tokens. */
  lemma NoneAreShort(c: Config, l: Limits, x: Bounded)
    requires Bounds(c, l, x) && Core(c, x.s) && (!x.s.mode.Draining? || !StillPhase1(x.s.drain))
    ensures NoShorts(c, x)
  {
    PhaseTokens(c, x.s);
    forall a: nat ensures !IsShort(c, x, a) { assert ShortOk(c, x, a); }
    forall w: nat | w < |x.book.ask| ensures !x.book.ask[w].Sealed? { assert AskOk(c, l, x, w); }
  }

  /** When the last memWriter's token arrives and no file is open. */
  lemma LastTokenShorts(c: Config, l: Limits, x: Bounded, w: nat)
    requires Bounds(c, l, x) && Core(c, x.s) && FileTokenGuard(c, x.s, w) && x.s.drain.wleft == 1
    ensures NoShorts(c, x)
  {
    assert Phase1(x.s.drain);
    LastToken(x.s.drain.wtok, w);
    forall a: nat ensures !IsShort(c, x, a) {
      assert ShortOk(c, x, a) && BlockShape(c, x.s.blocks, x.s.clock, x.s.open, |x.s.files|, a);
      assert a < |x.book.filler| ==> AskOk(c, l, x, x.book.filler[a]);
    }
    forall v: nat | v < |x.book.ask| ensures !x.book.ask[v].Sealed? { assert AskOk(c, l, x, v); }
  }

  lemma FileTokenBounds(c: Config, l: Limits, x: Bounded, w: nat)
    requires Bounds(c, l, x) && Core(c, x.s) && FileTokenGuard(c, x.s, w)
    ensures Bounds(c, l, Bounded(ApplyFileToken(c, x.s, w), x.book))
  {
    var y := Bounded(ApplyFileToken(c, x.s, w), x.book);
    if x.s.drain.wleft == 1 {
      LastTokenShorts(c, l, x, w);
      DrainBounds(c, l, x, y);
    } else {
      forall v: nat ensures AskOk(c, l, y, v) { assert AskOk(c, l, x, v); }
      forall a: nat ensures ShortOk(c, y, a) {
        assert ShortOk(c, x, a);
        assert a < |x.book.filler| ==> AskOk(c, l, x, x.book.filler[a]);
      }
      forall a: nat, b: nat ensures ShortPair(c, y, a, b) { assert ShortPair(c, x, a, b); }
    }
  }

  lemma RestartBounds(c: Config, l: Limits, x: Bounded)
    requires c.workers >= 1
    ensures Bounds(c, l, Bounded(ApplyRestart(c, x.s), FreshBook(c, |x.s.blocks|)))
  {
  }

  // ---------------------------------------------------------------- every move

  lemma FillMoves(c: Config, l: Limits, x: Bounded, a: Step)
    requires Bounds(c, l, x) && Shape(c, x.s) && Enabled(c, x.s, a) && Within(c, l, x, a) && (a.TakeFree? || a.Extend?)
    ensures Bounds(c, l, Bounded(Pipeline.Apply(c, x.s, a), NextBook(c, x, a)))
  {
    if a.TakeFree? {
      TakeFreeBounds(c, l, x, a.w, a.b);
    } else {
      ExtendBounds(c, l, x, a.w, a.b, a.req, a.junk);
    }
  }

  lemma SealMoves(c: Config, l: Limits, x: Bounded, w: nat, b: nat)
    requires Bounds(c, l, x) && Generous(c, l) && Core(c, x.s)
    requires SealGuard(c, x.s, w, b) && Within(c, l, x, Seal(w, b))
    ensures Bounds(c, l, Bounded(Pipeline.Apply(c, x.s, Seal(w, b)), NextBook(c, x, Seal(w, b))))
  {
    SealBounds(c, l, x, w, b);
  }

  lemma RequestMoves(c: Config, l: Limits, x: Bounded, a: Step)
    requires Bounds(c, l, x) && Shape(c, x.s) && Enabled(c, x.s, a)
             && (a.Copy? || a.PlaceInMap? || a.Record? || a.Truncate?)
    ensures Bounds(c, l, Bounded(Pipeline.Apply(c, x.s, a), x.book))
  {
    assert WriterShape(x.s.writers, x.s.blocks, a.w);
    match a {
      case Copy(w) => CopyBounds(c, l, x, w);
      case PlaceInMap(w) => PlaceBounds(c, l, x, w);
      case Record(w) => RecordBounds(c, l, x, w);
      case Truncate(w) => TruncateBounds(c, l, x, w);
    }
  }

  /** Steps that touch no page, no memWriter and no token. */
  predicate StillStep(a: Step)
  {
    a.OpenFile? || a.WriteBuf? || a.CloseTail? || a.CloseFile? || a.TbSend? || a.TocTake? || ReaderStep(a)
  }

  lemma FileStill(c: Config, s: State, a: Step)
    requires Shape(c, s) && Enabled(c, s, a) && (a.OpenFile? || a.WriteBuf? || a.CloseTail? || a.CloseFile?)
    ensures var s' := Pipeline.Apply(c, s, a);
            s'.blocks == s.blocks && s'.writers == s.writers && s'.drain == s.drain && s'.mode == s.mode
  {
  }

  lemma SendStill(s: State, j: nat)
    requires j < |s.tbs| && s.tbs[j].Some?
    ensures var s' := ApplyTbSend(s, j);
            s'.blocks == s.blocks && s'.writers == s.writers && s'.drain == s.drain && s'.mode == s.mode
  {
  }

  lemma TakeStill(s: State, t: nat)
    requires t in s.tocChan
    requires (s.tocA.Some? ==> s.tocA.value in s.tocs) && (s.tocB.Some? ==> s.tocB.value in s.tocs)
    ensures var s' := ApplyTocTake(s, t);
            s'.blocks == s.blocks && s'.writers == s.writers && s'.drain == s.drain && s'.mode == s.mode
  {
  }

  lemma StillMoves(c: Config, l: Limits, x: Bounded, a: Step)
    requires Bounds(c, l, x) && Shape(c, x.s) && Enabled(c, x.s, a) && StillStep(a)
    ensures Bounds(c, l, Bounded(Pipeline.Apply(c, x.s, a), NextBook(c, x, a)))
  {
    if a.TbSend? {
      SendStill(x.s, a.j);
    } else if a.TocTake? {
      TakeStill(x.s, a.t);
    } else if ReaderStep(a) {
      ReaderControl(c, x.s, a);
    } else {
      FileStill(c, x.s, a);
    }
    StillBounds(c, l, x, Bounded(Pipeline.Apply(c, x.s, a), NextBook(c, x, a)));
  }

  lemma ClearGoesOn(s: State, b: nat)
    requires b < |s.blocks| && s.blocks[b].owner.AtClearer? && s.blocks[b].owner.j < |s.tbs|
    requires s.blocks[b].owner.pos < |s.blocks[b].recs|
    ensures GoesOn(s, ApplyClearRec(s, b), b)
  {
  }

  lemma PageGoesOn(c: Config, s: State, a: Step)
    requires Shape(c, s) && Enabled(c, s, a) && (a.Release? || a.ClearTake? || a.ClearDone?)
    ensures GoesOn(s, Pipeline.Apply(c, s, a), a.b)
  {
  }

  lemma PageMoves(c: Config, l: Limits, x: Bounded, a: Step)
    requires Bounds(c, l, x) && Shape(c, x.s) && Enabled(c, x.s, a)
    requires a.Release? || a.ClearTake? || a.ClearDone? || a.ClearRec?
    ensures Bounds(c, l, Bounded(Pipeline.Apply(c, x.s, a), NextBook(c, x, a)))
  {
    if a.ClearRec? { ClearGoesOn(x.s, a.b); } else { PageGoesOn(c, x.s, a); }
    GoesOnBounds(c, l, x, Bounded(Pipeline.Apply(c, x.s, a), NextBook(c, x, a)), a.b);
  }

  lemma StartMoves(c: Config, l: Limits, x: Bounded, a: Step)
    requires Bounds(c, l, x) && Core(c, x.s) && Enabled(c, x.s, a) && (a.StartDrain? || a.ClearToken?)
    ensures Bounds(c, l, Bounded(Pipeline.Apply(c, x.s, a), x.book))
  {
    if a.ClearToken? { PhaseOf(c, x.s); }
    NoneAreShort(c, l, x);
    DrainBounds(c, l, x, Bounded(Pipeline.Apply(c, x.s, a), x.book));
  }

  lemma TocTokenMoves(c: Config, l: Limits, x: Bounded, j: nat)
    requires Bounds(c, l, x) && Core(c, x.s) && TocTokenGuard(c, x.s, j)
    ensures Bounds(c, l, Bounded(ApplyTocToken(c, x.s, j), x.book))
  {
    PhaseOf(c, x.s);
    NoneAreShort(c, l, x);
    TokenStill(c, x.s, j);
    DrainBounds(c, l, x, Bounded(ApplyTocToken(c, x.s, j), x.book));
  }

  lemma TokenStill(c: Config, s: State, j: nat)
    requires j < |s.drain.ctok| && |s.drain.wtok| == c.workers
    ensures var s' := ApplyTocToken(c, s, j);
            s'.blocks == s.blocks && s'.writers == s.writers && |s'.drain.wtok| == c.workers
  {
  }

  lemma WriterTokenMoves(c: Config, l: Limits, x: Bounded, w: nat)
    requires Bounds(c, l, x) && Core(c, x.s) && WriterTokenGuard(c, x.s, w)
    ensures Bounds(c, l, Bounded(Pipeline.Apply(c, x.s, WriterToken(w)), NextBook(c, x, WriterToken(w))))
  {
    WriterTokenBounds(c, l, x, w);
  }

  lemma TokenMoves(c: Config, l: Limits, x: Bounded, a: Step)
    requires Bounds(c, l, x) && Core(c, x.s) && Enabled(c, x.s, a) && TokenStep(a)
    ensures Bounds(c, l, Bounded(Pipeline.Apply(c, x.s, a), NextBook(c, x, a)))
  {
    if a.WriterToken? {
      WriterTokenMoves(c, l, x, a.w);
    } else if a.FileToken? {
      FileTokenBounds(c, l, x, a.w);
    } else if a.TocToken? {
      TocTokenMoves(c, l, x, a.j);
    } else {
      StartMoves(c, l, x, a);
    }
  }

  /** Every move under the limits keeps the bounds. */
  lemma MoveKeepsBounds(c: Config, l: Limits, x: Bounded, m: Move, y: Bounded)
    requires Bounds(c, l, x) && Generous(c, l) && Core(c, x.s) && Moves(c, l, x, m, y)
    ensures Bounds(c, l, y)
  {
    if m.Request? { RequestBounds(c, l, x, m.w); } else { StepKeepsBounds(c, l, x, m.a); }
  }

  lemma StepKeepsBounds(c: Config, l: Limits, x: Bounded, a: Step)
    requires Bounds(c, l, x) && Generous(c, l) && Core(c, x.s) && Enabled(c, x.s, a) && Within(c, l, x, a)
    ensures Bounds(c, l, Bounded(Pipeline.Apply(c, x.s, a), NextBook(c, x, a)))
  {
    if a.TakeFree? || a.Extend? {
      FillMoves(c, l, x, a);
    } else if a.Seal? {
      SealMoves(c, l, x, a.w, a.b);
    } else if a.Copy? || a.PlaceInMap? || a.Record? || a.Truncate? {
      RequestMoves(c, l, x, a);
    } else if StillStep(a) {
      StillMoves(c, l, x, a);
    } else if a.WriteBlock? {
      WriteBlockBounds(c, l, x, a.b);
    } else if TokenStep(a) {
      TokenMoves(c, l, x, a);
    } else if a.Restart? {
      RestartBounds(c, l, x);
    } else {
      PageMoves(c, l, x, a);
    }
  }

  lemma BeginsBounds(c: Config, l: Limits, x: Bounded)
    requires Begins(c, x)
    ensures Inv(c, x.s) && Fenced(x.s) && Bounds(c, l, x)
  {
    InitOk(c, x.s);
    FreshFence(c, x.s);
  }

  lemma {:induction false} RunKeeps(c: Config, l: Limits, states: seq<Bounded>, moves: seq<Move>, y: Bounded, i: nat)
    requires Reached(c, l, states, moves, y) && i < |states|
    ensures Inv(c, states[i].s) && Fenced(states[i].s)
    ensures Generous(c, l) ==> Bounds(c, l, states[i])
  {
    if i == 0 {
      BeginsBounds(c, l, states[0]);
    } else {
      RunKeeps(c, l, states, moves, y, i - 1);
      assert MoveAt(c, l, states, moves, i - 1);
      MoveKeeps(c, l, states[i - 1], moves[i - 1], states[i]);
      if Generous(c, l) { MoveKeepsBounds(c, l, states[i - 1], moves[i - 1], states[i]); }
    }
  }

  /** Every state that some run under the limits reaches. */
  lemma ReachableKeeps(c: Config, l: Limits, y: Bounded)
    requires Reachable(c, l, y)
    ensures Inv(c, y.s) && Fenced(y.s)
    ensures Generous(c, l) ==> Bounds(c, l, y)
  {
    var states, moves :| Reached(c, l, states, moves, y);
    RunKeeps(c, l, states, moves, y, |moves|);
  }
}
