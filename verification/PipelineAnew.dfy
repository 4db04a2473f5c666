/** A run under the limits in which tocWriter creates a TOC file anew, and the flush that misses a write because of
    it: two pages go to the first value file, one to each memClearer; the second memClearer is slow, and the first
    opens two more TOC files meanwhile. */
module PipelineAnew {
  import opened Base
  import opened Stamp
  import opened LocMap
  import opened Pipeline
  import opened PipelineWriters
  import opened PipelineDisk
  import opened PipelineRuns
  import opened PipelineReads
  import opened PipelineLimits
  import opened PipelinePaths
  import opened PipelineExamples

  /** Four writes of different keys: the first two fit one value file, the third does not fit it, nor the fourth the
      third's. All but the last fill a page. */
  ghost predicate FourWrites(c: Config, l: Limits, reqs: seq<Req>)
  {
    && |reqs| == 4 && Sane(c, l)
    && Fills(c, l, reqs[0]) && Fills(c, l, reqs[1]) && Fills(c, l, reqs[2]) && Plain(c, l, reqs[3])
    && (forall i, j :: 0 <= i < j < 4 ==> reqs[i].key != reqs[j].key)
    && BothFit(l, reqs[0], reqs[1])
    && HEADER_SIZE + |reqs[0].val| + |reqs[1].val| + |reqs[2].val| > l.fileCap
    && HEADER_SIZE + |reqs[2].val| + |reqs[3].val| > l.fileCap
  }

  function PageOf(r: Req, n: nat, o: Owner, file: nat, foff: nat): Block { Block(o, [RecOf(r, n)], r.val, file, foff) }

  /** Two workers that are idle but for what is said. */
  ghost predicate Calm2(c: Config, x: Bounded)
  {
    && c.workers == 2 && x.s.writers == [Idle, Idle] && x.s.readers == [NoRead] && |x.s.blocks| == 4
    && |x.book.filler| == 4 && |x.book.ask| == 2
  }

  // ---------------------------------------------------------------- two pages in the first file

  /** Nothing has reached the memClearers' TOC blocks, and the map has the first n writes. */
  ghost predicate Logged(reqs: seq<Req>, s: State, n: nat)
  {
    && n <= |reqs| && |s.log| == |s.place| == n && (forall i :: 0 <= i < n ==> s.log[i] == TakenOf(reqs[i]))
    && (forall i :: 0 <= i < n ==> reqs[i].key in s.loc && s.loc[reqs[i].key].ts == reqs[i].ts)
    && (forall i :: n <= i < |reqs| ==> reqs[i].key !in s.loc)
  }

  /** One more write taken. */
  lemma LoggedNext(reqs: seq<Req>, s: State, n: nat, x: Bounded, b: nat)
    requires n < |reqs| && Logged(reqs, s, n) && x.s == s && b < |s.blocks| && 0 < |x.book.ask|
    requires forall i, j :: 0 <= i < j < |reqs| ==> reqs[i].key != reqs[j].key
    ensures Logged(reqs, Written(x, b, reqs[n]).s, n + 1)
  {
  }

  ghost predicate NoTocs(s: State)
  {
    s.tbs == [None, None] && s.tocChan == map[] && s.tocs == map[] && s.tocA.None? && s.tocB.None?
  }

  /** The open file is the last, and its full buffers are written. */
  ghost predicate LastOpen(c: Config, s: State)
  {
    && |s.files| > 0 && |s.disk| == |s.files| && s.open == Some(|s.files| - 1) && !s.closing
    && s.disk[|s.files| - 1] <= |s.files[|s.files| - 1]| < s.disk[|s.files| - 1] + c.interval
  }

  ghost predicate TwoIn(c: Config, reqs: seq<Req>, header: Bytes, x: Bounded)
    requires |reqs| == 4
  {
    && Calm2(c, x) && x.s.mode.Running? && x.s.drain == FreshDrain(c)
    && x.s.blocks == [PageOf(reqs[0], 0, HeldByFile, 0, HEADER_SIZE),
                      PageOf(reqs[1], 1, HeldByFile, 0, HEADER_SIZE + |reqs[0].val|), EMPTY_BLOCK, EMPTY_BLOCK]
    && x.s.files == [header + reqs[0].val + reqs[1].val] && LastOpen(c, x.s) && NoTocs(x.s) && Logged(reqs, x.s, 2)
    && x.book.ask == [Wants, Rest] && x.book.turn == 0 && x.book.tocLen == HEADER_SIZE + 2 * ENTRY_SIZE
  }

  lemma TwoPages(c: Config, l: Limits, reqs: seq<Req>, header: Bytes) returns (x: Bounded)
    requires c.workers == 2 && FourWrites(c, l, reqs) && |header| == HEADER_SIZE
    ensures At(c, l, x) && TwoIn(c, reqs, header, x)
  {
    var x1 := FullPage(c, l, reqs[0], header);
    var x2 := SecondSealed(c, l, reqs, header, x1);
    x := SecondFile(c, l, x2, reqs[0], reqs[1], header);
    assert x.s.blocks[1] == PageOf(reqs[1], 1, HeldByFile, 0, HEADER_SIZE + |reqs[0].val|);
  }

  lemma FullIs(x: Bounded, b: nat, req: Req)
    requires b < |x.s.blocks| && 0 < |x.book.ask| && b < |x.book.filler| && x.book.ask[0] == Wants
    ensures var y := FullSealed(x, b, req);
            && y.s == x.s.(clock := y.s.clock, loc := y.s.loc, log := y.s.log, place := y.s.place,
                           blocks := x.s.blocks[b := PageOf(req, |x.s.log|, y.s.blocks[b].owner, 0, 0)])
            && y.book == x.book.(filler := y.book.filler) && |y.book.filler| == |x.book.filler|
            && y.s.loc == Written(x, b, req).s.loc && y.s.log == Written(x, b, req).s.log
            && y.s.place == Written(x, b, req).s.place
  {
    var y := FullSealed(x, b, req);
    assert y.s.blocks == x.s.blocks[b := PageOf(req, |x.s.log|, y.s.blocks[b].owner, 0, 0)];
    assert y.book.ask == x.book.ask;
  }

  lemma FlushIs(c: Config, x: Bounded, b: nat, req: Req)
    requires b < |x.s.blocks| && 0 < |x.book.ask| && b < |x.book.filler|
    ensures var y := SealedPage(Draining0(c, Written(x, b, req), false), b);
            && y.s == x.s.(clock := y.s.clock, loc := y.s.loc, log := y.s.log, place := y.s.place,
                           drain := FreshDrain(c),
                           mode := Draining(false, |x.s.log| + 1),
                           blocks := x.s.blocks[b := PageOf(req, |x.s.log|, y.s.blocks[b].owner, 0, 0)])
            && y.book == x.book.(filler := y.book.filler, ask := x.book.ask[0 := Sealed])
            && |y.book.filler| == |x.book.filler|
            && y.s.loc == Written(x, b, req).s.loc && y.s.log == Written(x, b, req).s.log
            && y.s.place == Written(x, b, req).s.place
  {
    var y := SealedPage(Draining0(c, Written(x, b, req), false), b);
    assert y.s.blocks == x.s.blocks[b := PageOf(req, |x.s.log|, y.s.blocks[b].owner, 0, 0)];
    assert y.book.ask == x.book.ask[0 := Sealed];
  }

  lemma SecondSealed(c: Config, l: Limits, reqs: seq<Req>, header: Bytes, x: Bounded) returns (y: Bounded)
    requires At(c, l, x) && FourWrites(c, l, reqs) && Ready(c, l, x, 1, reqs[1]) && Logged(reqs, x.s, 1)
    requires |x.s.blocks| == |x.book.filler| == 4 && x.s.drain == FreshDrain(c)
    requires forall b :: 0 <= b < 4 ==> !x.s.blocks[b].owner.InFileChan?
    ensures At(c, l, y) && HeadPage(y.s, 1) && Logged(reqs, y.s, 2) && y.book == x.book.(filler := y.book.filler)
    ensures |y.book.filler| == 4
    ensures y.s == x.s.(clock := y.s.clock, loc := y.s.loc, log := y.s.log, place := y.s.place,
                        blocks := x.s.blocks[1 := PageOf(reqs[1], 1, y.s.blocks[1].owner, 0, 0)])
  {
    FullSealRun(c, l, x, 1, reqs[1]);
    LoggedNext(reqs, x.s, 1, x, 1);
    FullIs(x, 1, reqs[1]);
    y := FullSealed(x, 1, reqs[1]);
  }

  // ---------------------------------------------------------------- the file changed for the third

  /** The head page does not fit, so the file is written out. */
  lemma ChangeRun(c: Config, l: Limits, x: Bounded, b: nat) returns (y: Bounded)
    requires At(c, l, x) && HeadPage(x.s, b) && x.s.open.Some? && !x.s.closing && !FitsFile(l, x, b)
    requires |x.s.files[x.s.open.value]| < x.s.disk[x.s.open.value] + c.interval
    ensures At(c, l, y) && y == Disked(x, |x.s.files[x.s.open.value]|, true)
  {
    TailRun(c, l, x);
    y := Disked(x, |x.s.files[x.s.open.value]|, true);
  }

  /** A new file for the head page, its full buffers written. */
  lemma NextFile(c: Config, l: Limits, x: Bounded, b: nat, header: Bytes) returns (y: Bounded)
    requires At(c, l, x) && Sane(c, l) && HeadPage(x.s, b) && x.s.open.Some? && x.s.closing && NoneHeld(x.s)
    requires |header| == HEADER_SIZE && |x.s.blocks[b].recs| == 1
    ensures At(c, l, y)
    ensures var s, f := x.s, |x.s.files|;
            && y.s == s.(open := Some(f), closing := false, files := s.files + [header + s.blocks[b].values],
                         disk := y.s.disk,
                         blocks := s.blocks[b := s.blocks[b].(owner := HeldByFile, file := f, foff := HEADER_SIZE)])
            && |y.s.disk| == |s.disk| + 1 && (forall g :: 0 <= g < |s.disk| ==> y.s.disk[g] == s.disk[g])
            && y.s.disk[f] <= |y.s.files[f]| < y.s.disk[f] + c.interval
    ensures y.book == x.book.(turn := 0, tocLen := HEADER_SIZE + ENTRY_SIZE)
  {
    CloseRun(c, l, x);
    var x1 := Closed(x);
    NewFileRun(c, l, x1, header, b);
    var x2 := Appended(Opened(x1, header), b);
    y := BufsRun(c, l, x2);
    assert y.s.files == x.s.files + [header + x.s.blocks[b].values];
  }

  ghost predicate Released2(reqs: seq<Req>, s: State)
    requires |reqs| == 4 && |s.blocks| == 4
  {
    && s.blocks[0].owner.InClearChan? && s.blocks[0].owner.j == 0
    && s.blocks[0] == PageOf(reqs[0], 0, s.blocks[0].owner, 0, HEADER_SIZE)
    && s.blocks[1].owner.InClearChan? && s.blocks[1].owner.j == 1
    && s.blocks[1] == PageOf(reqs[1], 1, s.blocks[1].owner, 0, HEADER_SIZE + |reqs[0].val|)
  }

  /** The third page sealed, and the first two released because it does not fit. */
  lemma ThirdSealed(c: Config, l: Limits, reqs: seq<Req>, header: Bytes, x: Bounded) returns (y: Bounded)
    requires At(c, l, x) && c.workers == 2 && FourWrites(c, l, reqs) && |header| == HEADER_SIZE
             && TwoIn(c, reqs, header, x)
    ensures At(c, l, y) && Calm2(c, y) && y.s.mode.Running? && y.s.drain == FreshDrain(c) && Released2(reqs, y.s)
    ensures HeadPage(y.s, 2) && y.s.blocks[2] == PageOf(reqs[2], 2, y.s.blocks[2].owner, 0, 0)
            && y.s.blocks[3] == EMPTY_BLOCK
    ensures y.s.files == x.s.files && |y.s.disk| == 1 && y.s.open == Some(0) && y.s.closing
    ensures NoTocs(y.s) && Logged(reqs, y.s, 3) && y.book.ask == [Wants, Rest] && y.book.turn == 0
  {
    var x2 := ThirdFull(c, l, reqs, header, x);
    var x3 := ChangeRun(c, l, x2, 2);
    y := BothReleased(c, l, x3);
  }

  lemma ThirdFull(c: Config, l: Limits, reqs: seq<Req>, header: Bytes, x: Bounded) returns (y: Bounded)
    requires At(c, l, x) && FourWrites(c, l, reqs) && TwoIn(c, reqs, header, x)
    ensures At(c, l, y) && HeadPage(y.s, 2) && Logged(reqs, y.s, 3) && y.book == x.book.(filler := y.book.filler)
    ensures |y.book.filler| == 4
    ensures y.s == x.s.(clock := y.s.clock, loc := y.s.loc, log := y.s.log, place := y.s.place,
                        blocks := x.s.blocks[2 := PageOf(reqs[2], 2, y.s.blocks[2].owner, 0, 0)])
  {
    FullSealRun(c, l, x, 2, reqs[2]);
    LoggedNext(reqs, x.s, 2, x, 2);
    FullIs(x, 2, reqs[2]);
    y := FullSealed(x, 2, reqs[2]);
  }

  ghost predicate ThreeIn(c: Config, reqs: seq<Req>, header: Bytes, x: Bounded)
    requires |reqs| == 4
  {
    && Calm2(c, x) && x.s.mode.Running? && x.s.drain == FreshDrain(c) && Released2(reqs, x.s)
    && x.s.blocks[2] == PageOf(reqs[2], 2, HeldByFile, 1, HEADER_SIZE) && x.s.blocks[3] == EMPTY_BLOCK
    && |x.s.files| == 2 && x.s.files[1] == header + reqs[2].val && LastOpen(c, x.s) && NoTocs(x.s)
    && Logged(reqs, x.s, 3) && x.book.ask == [Wants, Rest] && x.book.turn == 0
    && x.book.tocLen == HEADER_SIZE + ENTRY_SIZE
  }

  /** The third page in a file of its own. */
  lemma ThreePages(c: Config, l: Limits, reqs: seq<Req>, header: Bytes) returns (x: Bounded)
    requires c.workers == 2 && FourWrites(c, l, reqs) && |header| == HEADER_SIZE
    ensures At(c, l, x) && ThreeIn(c, reqs, header, x)
  {
    var x1 := TwoPages(c, l, reqs, header);
    var x4 := ThirdSealed(c, l, reqs, header, x1);
    x := NextFile(c, l, x4, 2, header);
  }

  // ---------------------------------------------------------------- through the memClearers

  /** A TOC block sent and written to a new TOC file. */
  lemma TocOut(c: Config, l: Limits, x: Bounded, j: nat) returns (y: Bounded)
    requires At(c, l, x) && TbSendGuard(c, x.s, j) && SendsTb(l, x.s, j) && x.s.tocChan == map[]
    requires forall i :: 0 <= i < |x.s.drain.ctok| ==> !x.s.drain.ctok[i].CPassed?
    requires x.s.tbs[j].value.file !in x.s.tocs
    ensures At(c, l, y) && y.book == x.book && |y.s.place| == |x.s.place|
    ensures y.s == x.s.(clock := x.s.clock + 1, tbs := x.s.tbs[j := None], place := y.s.place, tocB := x.s.tocA,
                        tocA := Some(x.s.tbs[j].value.file),
                        tocs := x.s.tocs[x.s.tbs[j].value.file := x.s.tbs[j].value.recs])
  {
    SendRun(c, l, x, j);
    var x1 := Sent(x, j);
    TookRun(c, l, x1, x.s.clock);
    y := TookToc(x1, x.s.clock);
    assert y.s.tocChan == map[];
  }

  ghost predicate ClearedOf(r: Req, tb: Option<TocBlock>, file: nat)
  {
    tb.Some? && tb.value.file == file && |tb.value.recs| == 1 && tb.value.recs[0].key == r.key
  }

  /** memClearer 0 is done with the first page, and memClearer 1 has just taken the second. */
  ghost predicate FirstCleared(c: Config, reqs: seq<Req>, header: Bytes, x: Bounded)
    requires |reqs| == 4
  {
    && Calm2(c, x) && x.s.mode.Running? && x.s.drain == FreshDrain(c)
    && x.s.blocks[0] == EMPTY_BLOCK && x.s.blocks[3] == EMPTY_BLOCK
    && x.s.blocks[1] == PageOf(reqs[1], 1, AtClearer(1, 0), 0, HEADER_SIZE + |reqs[0].val|)
    && x.s.blocks[2] == PageOf(reqs[2], 2, HeldByFile, 1, HEADER_SIZE)
    && |x.s.files| == 2 && x.s.files[1] == header + reqs[2].val && LastOpen(c, x.s) && Logged(reqs, x.s, 3)
    && |x.s.tbs| == 2 && ClearedOf(reqs[0], x.s.tbs[0], 0) && x.s.tbs[1].None?
    && x.s.tocChan == map[] && x.s.tocs == map[] && x.s.tocA.None? && x.s.tocB.None?
    && x.book.ask == [Wants, Rest] && x.book.turn == 0 && x.book.tocLen == HEADER_SIZE + ENTRY_SIZE
  }

  lemma FirstClear(c: Config, l: Limits, reqs: seq<Req>, header: Bytes, x: Bounded) returns (y: Bounded)
    requires At(c, l, x) && c.workers == 2 && FourWrites(c, l, reqs) && ThreeIn(c, reqs, header, x)
    ensures At(c, l, y) && FirstCleared(c, reqs, header, y)
  {
    var x2 := HandAndClear(c, l, x, 0, 0, RecOf(reqs[0], 0));
    HandRun(c, l, x2, 1, 1);
    y := HandedOver(x2, 1, 1);
  }

  // ---------------------------------------------------------------- the fourth write, and the flush

  /** The fourth page in a file of its own; memClearer 0 has the third page. */
  ghost predicate FourIn(c: Config, reqs: seq<Req>, header: Bytes, x: Bounded)
    requires |reqs| == 4
  {
    && Calm2(c, x) && x.s.mode == Draining(false, 4) && x.s.drain == FreshDrain(c)
    && x.s.blocks[0] == EMPTY_BLOCK
    && x.s.blocks[1] == PageOf(reqs[1], 1, AtClearer(1, 0), 0, HEADER_SIZE + |reqs[0].val|)
    && x.s.blocks[2] == PageOf(reqs[2], 2, AtClearer(0, 0), 1, HEADER_SIZE)
    && x.s.blocks[3] == PageOf(reqs[3], 3, HeldByFile, 2, HEADER_SIZE)
    && |x.s.files| == 3 && x.s.files[2] == header + reqs[3].val && LastOpen(c, x.s) && Logged(reqs, x.s, 4)
    && |x.s.tbs| == 2 && ClearedOf(reqs[0], x.s.tbs[0], 0) && x.s.tbs[1].None?
    && x.s.tocChan == map[] && x.s.tocs == map[] && x.s.tocA.None? && x.s.tocB.None?
    && x.book.ask == [Sealed, Rest] && x.book.turn == 0
  }

  /** The fourth page sealed by the flush; the third released because it does not fit its file. */
  lemma FourthSealed(c: Config, l: Limits, reqs: seq<Req>, header: Bytes, x: Bounded) returns (y: Bounded)
    requires At(c, l, x) && FourWrites(c, l, reqs) && |header| == HEADER_SIZE && FirstCleared(c, reqs, header, x)
    ensures At(c, l, y) && Calm2(c, y) && y.s.mode == Draining(false, 4) && y.s.drain == FreshDrain(c)
    ensures HeadPage(y.s, 3) && y.s.blocks[3] == PageOf(reqs[3], 3, y.s.blocks[3].owner, 0, 0)
    ensures y.s.blocks[0] == EMPTY_BLOCK && y.s.blocks[1] == x.s.blocks[1]
    ensures y.s.blocks[2] == PageOf(reqs[2], 2, HeldByFile, 1, HEADER_SIZE)
    ensures y.s.files == x.s.files && |y.s.disk| == 2 && y.s.disk[1] == |y.s.files[1]| && y.s.open == Some(1)
            && y.s.closing
    ensures Logged(reqs, y.s, 4) && y.s.tbs == x.s.tbs && y.s.tocChan == map[] && y.s.tocs == map[]
    ensures y.s.tocA.None? && y.s.tocB.None? && y.book.ask == [Sealed, Rest] && y.book.turn == 0
  {
    var x1 := FourthFlushed(c, l, reqs, header, x);
    y := ChangeRun(c, l, x1, 3);
  }

  lemma FourthReady(c: Config, l: Limits, reqs: seq<Req>, header: Bytes, x: Bounded)
    requires Sizes(c, x.s) && FourWrites(c, l, reqs) && FirstCleared(c, reqs, header, x)
    ensures Ready(c, l, x, 3, reqs[3])
  {
  }

  lemma FourthFlushed(c: Config, l: Limits, reqs: seq<Req>, header: Bytes, x: Bounded) returns (y: Bounded)
    requires At(c, l, x) && FourWrites(c, l, reqs) && FirstCleared(c, reqs, header, x)
    ensures At(c, l, y) && HeadPage(y.s, 3) && Logged(reqs, y.s, 4)
    ensures y.book == x.book.(filler := y.book.filler, ask := [Sealed, Rest]) && |y.book.filler| == 4
    ensures y.s == x.s.(clock := y.s.clock, loc := y.s.loc, log := y.s.log, place := y.s.place,
                        mode := Draining(false, 4), drain := FreshDrain(c),
                        blocks := x.s.blocks[3 := PageOf(reqs[3], 3, y.s.blocks[3].owner, 0, 0)])
  {
    FourthReady(c, l, reqs, header, x);
    LoggedNext(reqs, x.s, 3, x, 3);
    y := FlushedWrite(c, l, x, 3, reqs[3]);
  }

  /** A write and its page sealed by a flush: what changes. */
  lemma FlushedWrite(c: Config, l: Limits, x: Bounded, b: nat, req: Req) returns (y: Bounded)
    requires At(c, l, x) && Ready(c, l, x, b, req) && b < |x.book.filler|
    requires forall a :: 0 <= a < |x.s.blocks| ==> !x.s.blocks[a].owner.InFileChan?
    ensures At(c, l, y) && HeadPage(y.s, b)
    ensures y.s == x.s.(clock := y.s.clock, loc := y.s.loc, log := y.s.log, place := y.s.place, drain := FreshDrain(c),
                        mode := Draining(false, |x.s.log| + 1),
                        blocks := x.s.blocks[b := PageOf(req, |x.s.log|, y.s.blocks[b].owner, 0, 0)])
    ensures y.book == x.book.(filler := y.book.filler, ask := x.book.ask[0 := Sealed])
    ensures |y.book.filler| == |x.book.filler| && y.s.loc == Written(x, b, req).s.loc
    ensures y.s.log == Written(x, b, req).s.log && y.s.place == Written(x, b, req).s.place
  {
    FlushPage(c, l, x, b, req);
    FlushIs(c, x, b, req);
    y := SealedPage(Draining0(c, Written(x, b, req), false), b);
  }

  lemma FourPages(c: Config, l: Limits, reqs: seq<Req>, header: Bytes, x: Bounded) returns (y: Bounded)
    requires At(c, l, x) && FourWrites(c, l, reqs) && |header| == HEADER_SIZE && FirstCleared(c, reqs, header, x)
    ensures At(c, l, y) && FourIn(c, reqs, header, y)
  {
    var x1 := FourthSealed(c, l, reqs, header, x);
    var x3 := ThirdHanded(c, l, x1);
    y := NextFile(c, l, x3, 3, header);
  }

  lemma ThirdHanded(c: Config, l: Limits, x: Bounded) returns (y: Bounded)
    requires At(c, l, x) && c.workers == 2 && |x.s.blocks| == 4 && HeadPage(x.s, 3) && x.book.turn == 0
    requires x.s.blocks[0] == EMPTY_BLOCK && x.s.blocks[1].owner == AtClearer(1, 0) && x.s.blocks[2].owner.HeldByFile?
    requires x.s.open == Some(1) && x.s.blocks[2].file == 1 < |x.s.disk| && PageEnd(x.s.blocks[2]) <= x.s.disk[1]
    requires x.s.drain == FreshDrain(c)
    ensures At(c, l, y) && HeadPage(y.s, 3) && NoneHeld(y.s) && y.book == x.book.(turn := y.book.turn)
    ensures y.s == x.s.(clock := x.s.clock + 1, blocks := x.s.blocks[2 := x.s.blocks[2].(owner := AtClearer(0, 0))])
  {
    y := PassAndHand(c, l, x, 2);
  }

  /** A page released to memClearer 0, which takes it. */
  lemma PassAndHand(c: Config, l: Limits, x: Bounded, b: nat) returns (y: Bounded)
    requires At(c, l, x) && x.book.turn == 0 && ReleaseGuard(c, x.s, b, 0) && ClearChanEmpty(x.s, 0)
    requires forall a :: 0 <= a < |x.s.blocks| ==> !(x.s.blocks[a].owner.AtClearer? && x.s.blocks[a].owner.j == 0)
    ensures At(c, l, y) && y.book == x.book.(turn := y.book.turn)
    ensures y.s == x.s.(clock := x.s.clock + 1, blocks := x.s.blocks[b := x.s.blocks[b].(owner := AtClearer(0, 0))])
  {
    PassRun(c, l, x, b);
    var x2 := Passed(c, x, b);
    HandRun(c, l, x2, 0, b);
    y := HandedOver(x2, 0, b);
    assert y.s.blocks == x.s.blocks[b := x.s.blocks[b].(owner := AtClearer(0, 0))];
  }

  // ---------------------------------------------------------------- the flush's tokens

  /** Every file is closed; memClearer 0 has the third page and the fourth is next, memClearer 1 the second. */
  ghost predicate AllClosed(c: Config, reqs: seq<Req>, x: Bounded)
    requires |reqs| == 4
  {
    && Calm2(c, x) && x.s.mode == Draining(false, 4) && LastToken(x.s.drain)
    && x.s.blocks[0] == EMPTY_BLOCK
    && x.s.blocks[1] == PageOf(reqs[1], 1, AtClearer(1, 0), 0, HEADER_SIZE + |reqs[0].val|)
    && x.s.blocks[2] == PageOf(reqs[2], 2, AtClearer(0, 0), 1, HEADER_SIZE)
    && x.s.blocks[3].owner.InClearChan? && x.s.blocks[3].owner.j == 0
    && x.s.blocks[3] == PageOf(reqs[3], 3, x.s.blocks[3].owner, 2, HEADER_SIZE)
    && |x.s.files| == |x.s.disk| == 3 && x.s.open.None? && Logged(reqs, x.s, 4)
    && |x.s.tbs| == 2 && ClearedOf(reqs[0], x.s.tbs[0], 0) && x.s.tbs[1].None?
    && x.s.tocChan == map[] && x.s.tocs == map[] && x.s.tocA.None? && x.s.tocB.None?
    && x.book.ask == [Rest, Rest]
  }

  /** Only the second memWriter's token is still to arrive. */
  predicate LastToken(d: Drain)
  {
    |d.wtok| == 2 && d.wtok[0].WDone? && d.wtok[1].WSent? && d.wleft == 1 && d.ctok == [CWait, CWait] && d.cleft == 2
  }

  lemma FlushCloses(c: Config, l: Limits, reqs: seq<Req>, header: Bytes, x: Bounded) returns (y: Bounded)
    requires |reqs| == 4 && |header| == HEADER_SIZE && At(c, l, x) && FourIn(c, reqs, header, x)
    ensures At(c, l, y) && AllClosed(c, reqs, y)
  {
    var x1 := BothTokens(c, l, x);
    y := PassAndClose(c, l, x1, 3);
  }

  /** The file's only page released to memClearer 0, and the file closed. */
  lemma PassAndClose(c: Config, l: Limits, x: Bounded, b: nat) returns (y: Bounded)
    requires At(c, l, x) && x.book.turn == 0 && ReleaseGuard(c, x.s, b, 0) && ClearChanEmpty(x.s, 0)
    requires x.s.open.Some? && x.s.closing
    requires forall a :: 0 <= a < |x.s.blocks| && a != b ==> !x.s.blocks[a].owner.HeldByFile?
    ensures At(c, l, y) && y.book == x.book.(turn := y.book.turn)
    ensures y.s == x.s.(clock := x.s.clock + 1, open := None, closing := false,
                        blocks := x.s.blocks[b := x.s.blocks[b].(owner := InClearChan(0, x.s.clock))])
  {
    PassRun(c, l, x, b);
    var x1 := Passed(c, x, b);
    CloseRun(c, l, x1);
    y := Closed(x1);
  }

  // ---------------------------------------------------------------- three TOC files

  /** The TOC files hold one record each, of these keys. */
  ghost predicate OneEach(s: State, keys: seq<Key>)
  {
    && (forall f: nat :: f in s.tocs <==> f < |keys|)
    && (forall f: nat :: f < |keys| ==> f in s.tocs && |s.tocs[f]| == 1 && s.tocs[f][0].key == keys[f])
  }

  lemma OneMoreEach(s: State, s': State, keys: seq<Key>, recs: seq<Rec>)
    requires OneEach(s, keys) && |recs| == 1 && s'.tocs == s.tocs[|keys| := recs]
    ensures OneEach(s', keys + [recs[0].key])
  {
  }

  /** memClearer 0 has a page of another file than its TOC block: the block is written out and the page's record put
      in a new one. */
  lemma NextToc(c: Config, l: Limits, x: Bounded, b: nat, r: Rec, keys: seq<Key>) returns (y: Bounded)
    requires At(c, l, x) && c.workers >= 1 && x.s.tocChan == map[] && x.s.readers == [NoRead] && OneEach(x.s, keys)
    requires forall i :: 0 <= i < |x.s.drain.ctok| ==> !x.s.drain.ctok[i].CPassed?
    requires 0 < |x.s.tbs| && x.s.tbs[0].Some? && x.s.tbs[0].value.file == |keys| && |x.s.tbs[0].value.recs| == 1
    requires b < |x.s.blocks| && x.s.blocks[b].owner == AtClearer(0, 0) && x.s.blocks[b].recs == [r]
    requires x.s.blocks[b].file != |keys| && TsOf(x.s.loc, r.key) == r.ts && r.wid < |x.s.place| && !Removal(r.ts)
    ensures At(c, l, y) && y.book == x.book && |y.s.place| == |x.s.place|
    ensures OneEach(y.s, keys + [x.s.tbs[0].value.recs[0].key])
    ensures y.s == x.s.(clock := x.s.clock + 1, blocks := x.s.blocks[b := EMPTY_BLOCK],
                        loc := x.s.loc[r.key := ClearedLoc(x.s.blocks[b], r)], place := y.s.place, tocs := y.s.tocs,
                        tbs := x.s.tbs[0 := Some(TocBlock(x.s.blocks[b].file, [ClearedRec(x.s.blocks[b], r)]))],
                        tocA := Some(|keys|), tocB := x.s.tocA)
  {
    assert HasPage(x.s, 0, b);
    var x1 := TocOut(c, l, x, 0);
    OneMoreEach(x.s, x1.s, keys, x.s.tbs[0].value.recs);
    y := ClearPage(c, l, x1, 0, b, r);
    assert y.s.tbs == x.s.tbs[0 := Some(TocBlock(x.s.blocks[b].file, [ClearedRec(x.s.blocks[b], r)]))];
  }

  /** memClearer 0 has its token next, and its TOC block of the third file; memClearer 1 still has the second page. */
  ghost predicate TwoTocs(c: Config, reqs: seq<Req>, x: Bounded)
    requires |reqs| == 4
  {
    && Calm2(c, x) && x.s.mode == Draining(false, 4) && LastToken(x.s.drain)
    && x.s.blocks[0] == x.s.blocks[2] == x.s.blocks[3] == EMPTY_BLOCK
    && x.s.blocks[1] == PageOf(reqs[1], 1, AtClearer(1, 0), 0, HEADER_SIZE + |reqs[0].val|)
    && |x.s.files| == 3 && x.s.open.None? && Logged(reqs, x.s, 4)
    && |x.s.tbs| == 2 && ClearedOf(reqs[3], x.s.tbs[0], 2) && x.s.tbs[1].None?
    && x.s.tocChan == map[] && OneEach(x.s, [reqs[0].key, reqs[2].key]) && x.s.tocA == Some(1) && x.s.tocB == Some(0)
    && x.book.ask == [Rest, Rest]
  }

  lemma LoggedStays(reqs: seq<Req>, s: State, s': State, n: nat, k: Key, lo: Loc)
    requires Logged(reqs, s, n) && s'.log == s.log && |s'.place| == |s.place|
    requires s'.loc == s.loc[k := lo] && k in s.loc && lo.ts == s.loc[k].ts
    ensures Logged(reqs, s', n)
  {
  }

  lemma ThirdToc(c: Config, l: Limits, reqs: seq<Req>, x: Bounded) returns (y: Bounded)
    requires At(c, l, x) && FourWrites(c, l, reqs) && AllClosed(c, reqs, x)
    ensures At(c, l, y) && y.book == x.book && Logged(reqs, y.s, 4) && OneEach(y.s, [reqs[0].key])
    ensures |y.s.tbs| == 2 && ClearedOf(reqs[2], y.s.tbs[0], 1) && y.s.tbs[1].None?
    ensures y.s == x.s.(clock := y.s.clock, blocks := x.s.blocks[2 := EMPTY_BLOCK], loc := y.s.loc, place := y.s.place,
                        tocs := y.s.tocs, tbs := y.s.tbs, tocA := Some(0))
  {
    y := NextToc(c, l, x, 2, RecOf(reqs[2], 2), []);
    LoggedStays(reqs, x.s, y.s, 4, reqs[2].key, ClearedLoc(x.s.blocks[2], RecOf(reqs[2], 2)));
    assert [] + [reqs[0].key] == [reqs[0].key];
  }

  lemma FourthToc(c: Config, l: Limits, reqs: seq<Req>, x: Bounded) returns (y: Bounded)
    requires At(c, l, x) && FourWrites(c, l, reqs) && AllClosed(c, reqs, x)
    ensures At(c, l, y) && TwoTocs(c, reqs, y)
  {
    var x1 := ThirdToc(c, l, reqs, x);
    HandRun(c, l, x1, 0, 3);
    var x2 := HandedOver(x1, 0, 3);
    y := NextToc(c, l, x2, 3, RecOf(reqs[3], 3), [reqs[0].key]);
    LoggedStays(reqs, x2.s, y.s, 4, reqs[3].key, ClearedLoc(x2.s.blocks[3], RecOf(reqs[3], 3)));
    assert [reqs[0].key] + [reqs[2].key] == [reqs[0].key, reqs[2].key];
  }

  // ---------------------------------------------------------------- the first TOC file again

  /** The last memWriter's token passed on, and memClearer 0's last TOC block written because of it. */
  lemma ThirdTocOut(c: Config, l: Limits, reqs: seq<Req>, x: Bounded) returns (y: Bounded)
    requires |reqs| == 4 && At(c, l, x) && TwoTocs(c, reqs, x)
    ensures At(c, l, y) && y.book == x.book && |y.s.place| == |x.s.place|
    ensures OneEach(y.s, [reqs[0].key, reqs[2].key, reqs[3].key])
    ensures y.s == x.s.(clock := x.s.clock + 3, drain := y.s.drain, tbs := [None, None], place := y.s.place,
                        tocs := y.s.tocs, tocA := Some(2), tocB := Some(1))
    ensures y.s.drain == Drain([WDone, WDone], 2, [CSent(x.s.clock), CSent(x.s.clock + 1)], 2, 3)
  {
    var x1 := TokensOn(c, l, x);
    y := TocOut(c, l, x1, 0);
    OneMoreEach(x1.s, y.s, [reqs[0].key, reqs[2].key], x1.s.tbs[0].value.recs);
    assert [reqs[0].key, reqs[2].key] + [reqs[3].key] == [reqs[0].key, reqs[2].key, reqs[3].key];
    assert y.s.tbs == [None, None];
  }

  lemma TokensOn(c: Config, l: Limits, x: Bounded) returns (y: Bounded)
    requires At(c, l, x) && c.workers == 2 && LastToken(x.s.drain) && x.s.open.None? && |x.s.files| == 3
    requires forall b :: 0 <= b < |x.s.blocks| ==> !x.s.blocks[b].owner.InFileChan? && !x.s.blocks[b].owner.InClearChan?
    ensures At(c, l, y) && y.book == x.book
    ensures y.s == x.s.(clock := x.s.clock + 2,
                        drain := Drain([WDone, WDone], 2, [CSent(x.s.clock), CSent(x.s.clock + 1)], 2, 3))
  {
    FileTokenRun(c, l, x, 1);
    y := TokenIn(c, x, 1);
    assert y.s.drain.wtok == [WDone, WDone] && y.s.drain.ctok == [CSent(x.s.clock), CSent(x.s.clock + 1)];
  }

  /** memClearer 1 is done with the second page, of the first file, and sends its TOC block. */
  lemma LateBlock(c: Config, l: Limits, x: Bounded, r: Rec) returns (y: Bounded)
    requires At(c, l, x) && c.workers == 2 && |x.s.blocks| == 4 && x.s.tbs == [None, None] && x.s.tocChan == map[]
    requires x.s.blocks[0] == x.s.blocks[2] == x.s.blocks[3] == EMPTY_BLOCK && AtOnly(x, 1, 1, r)
             && x.s.readers == [NoRead]
    requires x.s.blocks[1].file == 0 && !Removal(r.ts) && |x.s.drain.ctok| == 2
    requires x.s.drain.ctok[0].CSent? && x.s.drain.ctok[1].CSent?
    ensures At(c, l, y) && y.book == x.book && |y.s.place| == |x.s.place|
    ensures y.s == x.s.(clock := x.s.clock + 1, blocks := [EMPTY_BLOCK, EMPTY_BLOCK, EMPTY_BLOCK, EMPTY_BLOCK],
                        loc := x.s.loc[r.key := ClearedLoc(x.s.blocks[1], r)], place := y.s.place,
                        tocChan := map[x.s.clock := TocMsg(1, TocBlock(0, [ClearedRec(x.s.blocks[1], r)]))])
  {
    var x1 := ClearPage(c, l, x, 1, 1, r);
    SendRun(c, l, x1, 1);
    y := Sent(x1, 1);
    assert y.s.blocks == [EMPTY_BLOCK, EMPTY_BLOCK, EMPTY_BLOCK, EMPTY_BLOCK];
    assert y.s.tbs == [None, None];
  }

  /** A block for the first TOC file is on its way although two more TOC files have been opened since. */
  ghost predicate Late(c: Config, reqs: seq<Req>, x: Bounded, u: nat)
    requires |reqs| == 4
  {
    && Calm2(c, x) && x.s.mode == Draining(false, 4) && |x.s.drain.ctok| == |x.s.drain.wtok| == 2
    && x.s.drain.cleft == 2
    && x.s.drain.ctok[0].CSent? && x.s.drain.ctok[1].CSent?
    && x.s.blocks == [EMPTY_BLOCK, EMPTY_BLOCK, EMPTY_BLOCK, EMPTY_BLOCK] && x.s.tbs == [None, None]
    && |x.s.files| == 3 && x.s.open.None? && Logged(reqs, x.s, 4)
    && u in x.s.tocChan && x.s.tocChan == map[u := x.s.tocChan[u]] && x.s.tocChan[u].tb.file == 0
    && |x.s.tocChan[u].tb.recs| == 1 && x.s.tocChan[u].tb.recs[0].key == reqs[1].key
    && OneEach(x.s, [reqs[0].key, reqs[2].key, reqs[3].key]) && x.s.tocA == Some(2) && x.s.tocB == Some(1)
  }

  lemma LateRun(c: Config, l: Limits, reqs: seq<Req>, x: Bounded) returns (y: Bounded, u: nat)
    requires At(c, l, x) && FourWrites(c, l, reqs) && TwoTocs(c, reqs, x)
    ensures At(c, l, y) && Late(c, reqs, y, u)
  {
    var x1 := ThirdTocOut(c, l, reqs, x);
    y := LateBlock(c, l, x1, RecOf(reqs[1], 1));
    LoggedStays(reqs, x1.s, y.s, 4, reqs[1].key, ClearedLoc(x1.s.blocks[1], RecOf(reqs[1], 1)));
    u := x1.s.clock;
  }

  lemma LateToc(c: Config, l: Limits, reqs: seq<Req>, header: Bytes) returns (x: Bounded, u: nat)
    requires c.workers == 2 && FourWrites(c, l, reqs) && |header| == HEADER_SIZE
    ensures At(c, l, x) && Late(c, reqs, x, u)
  {
    var x1 := ThreePages(c, l, reqs, header);
    var x2 := FirstClear(c, l, reqs, header, x1);
    var x3 := FourPages(c, l, reqs, header, x2);
    var x4 := FlushCloses(c, l, reqs, header, x3);
    var x5 := FourthToc(c, l, reqs, x4);
    x, u := LateRun(c, l, reqs, x5);
  }

  // ---------------------------------------------------------------- what is lost

  /** The one record that carries log[n] restores it. */
  lemma OneRecordRestores(c: Config, l: Limits, x: Bounded, n: nat, f: nat)
    requires At(c, l, x) && n < |x.s.log| && !Removal(x.s.log[n].ts) && TocClosed(x.s, f) && FileClosed(x.s, f)
    requires |x.s.tocs[f]| == 1 && x.s.tocs[f][0].key == x.s.log[n].key
    requires forall m :: 0 <= m < |x.s.log| && m != n ==> x.s.log[m].key != x.s.log[n].key
    ensures OnDisk(x.s, n)
  {
    var s := x.s;
    AtInv(c, l, x);
    assert RecsOk(s.files, s.log, f, s.tocs[f]);
    assert TocRecOk(s.files, s.log, f, s.tocs[f][0]);
    assert FileDisk(c, s.files, s.disk, s.open, s.closing, f);
    assert CarriesAt(s, n, f, 0) && Carries(s, n, f);
  }

  /** Gone from disk, and not because of a newer write. */
  ghost predicate Missed(s: State, n: nat) { n < |s.log| && !OnDisk(s, n) && !Replaced(s, n) }

  lemma NoRecordIsMissed(s: State, n: nat)
    requires n < |s.log|
    requires forall f, i :: f in s.tocs && 0 <= i < |s.tocs[f]| ==> s.tocs[f][i].key != s.log[n].key
    requires forall m :: 0 <= m < |s.log| && m != n ==> s.log[m].key != s.log[n].key
    ensures Missed(s, n)
  {
    assert forall f: nat :: !Carries(s, n, f);
  }

  lemma LateTakeIs(s: State, u: nat, k0: Key, k1: Key, k2: Key, k3: Key)
    requires (s.tocA.Some? ==> s.tocA.value in s.tocs) && (s.tocB.Some? ==> s.tocB.value in s.tocs)
    requires u in s.tocChan && s.tocChan == map[u := s.tocChan[u]] && TocClosed(s, 0) && OneEach(s, [k0, k2, k3])
    requires var tb := s.tocChan[u].tb; tb.file == 0 && |tb.recs| == 1 && tb.recs[0].key == k1
    ensures var t := ApplyTocTake(s, u);
            && t == s.(tocChan := map[], tocs := t.tocs, tocA := Some(0), tocB := s.tocA, place := t.place)
            && OneEach(t, [k1, k2, k3])
  {
    assert s.tocChan - {u} == map[];
    assert ApplyTocTake(s, u).tocs == s.tocs[0 := s.tocChan[u].tb.recs];
  }

  lemma FirstOnDisk(c: Config, l: Limits, reqs: seq<Req>, x: Bounded, u: nat)
    requires At(c, l, x) && FourWrites(c, l, reqs) && Late(c, reqs, x, u)
    ensures OnDisk(x.s, 0) && TocTakeGuard(c, x.s, u) && Recreates(x.s, TocTake(u))
  {
    OneRecordRestores(c, l, x, 0, 0);
  }

  /** A run in which tocWriter creates a closed TOC file anew: a write that was on disk is gone from it. */
  lemma RecreationHappens(c: Config, l: Limits, reqs: seq<Req>, header: Bytes)
      returns (x: Bounded, u: nat, y: Bounded)
    requires c.workers == 2 && FourWrites(c, l, reqs) && |header| == HEADER_SIZE
    ensures At(c, l, x) && Late(c, reqs, x, u) && Recreates(x.s, TocTake(u))
    ensures At(c, l, y) && y == TookToc(x, u) && OnDisk(x.s, 0) && Missed(y.s, 0)
    ensures OneEach(y.s, [reqs[1].key, reqs[2].key, reqs[3].key]) && y.s.tocChan == map[]
  {
    x, u := LateToc(c, l, reqs, header);
    FirstOnDisk(c, l, reqs, x, u);
    TookRun(c, l, x, u);
    y := TookToc(x, u);
    LateTakeIs(x.s, u, reqs[0].key, reqs[1].key, reqs[2].key, reqs[3].key);
    NoRecordIsMissed(y.s, 0);
  }

  // ---------------------------------------------------------------- the flush completes

  lemma FirstClearerToken(c: Config, l: Limits, x: Bounded) returns (y: Bounded)
    requires At(c, l, x) && c.workers == 2 && x.s.tocChan == map[]
    requires x.s.tbs == [None, None] && x.s.blocks == [EMPTY_BLOCK, EMPTY_BLOCK, EMPTY_BLOCK, EMPTY_BLOCK]
    requires |x.s.drain.ctok| == 2 && x.s.drain.ctok[0].CSent? && x.s.drain.ctok[1].CSent? && x.s.drain.cleft == 2
    ensures At(c, l, y)
    ensures y.s == x.s.(clock := x.s.clock + 1, drain := x.s.drain.(cleft := 1, ctok := [CDone, x.s.drain.ctok[1]]))
  {
    ClearTokenRun(c, l, x, 0);
    var x1 := TokenPassed(x, 0);
    TocTokenRun(c, l, x1, 0);
    y := TokenDone(c, x1, 0);
    assert y.s.drain.ctok == [CDone, x.s.drain.ctok[1]];
  }

  /** Both memClearers' tokens, one after the other. */
  lemma LastTokens(c: Config, l: Limits, x: Bounded) returns (y: Bounded)
    requires At(c, l, x) && c.workers == 2 && x.s.mode.Draining? && !x.s.mode.shutdown && x.s.tocChan == map[]
    requires x.s.tbs == [None, None] && x.s.blocks == [EMPTY_BLOCK, EMPTY_BLOCK, EMPTY_BLOCK, EMPTY_BLOCK]
    requires |x.s.drain.ctok| == 2 && x.s.drain.ctok[0].CSent? && x.s.drain.ctok[1].CSent? && x.s.drain.cleft == 2
    ensures At(c, l, y) && y.s.mode.Running? && y.s.flushed == x.s.mode.mark
    ensures y.s.tocs == x.s.tocs && y.s.log == x.s.log && y.s.place == x.s.place
  {
    var x2 := FirstClearerToken(c, l, x);
    ClearTokenRun(c, l, x2, 1);
    var x3 := TokenPassed(x2, 1);
    TocTokenRun(c, l, x3, 1);
    y := TokenDone(c, x3, 1);
  }

  lemma MissedIsLost(c: Config, l: Limits, x: Bounded, n: nat)
    requires At(c, l, x) && n < x.s.flushed && Missed(x.s, n)
    ensures LostAt(x.s, n)
  {
    AtInv(c, l, x);
    FlushedIsDurable(c, x.s, n);
  }

  /** That run continued: the flush completes and covers the write, although it is not on disk and no newer one
      replaced it. The exception in the flush's promise does occur. */
  lemma FlushCanMiss(c: Config, l: Limits, reqs: seq<Req>, header: Bytes) returns (y: Bounded)
    requires c.workers == 2 && FourWrites(c, l, reqs) && |header| == HEADER_SIZE
    ensures Reachable(c, l, y) && y.s.mode.Running? && y.s.flushed == |y.s.log| == 4
    ensures y.s.log[0] == TakenOf(reqs[0]) && Missed(y.s, 0) && LostAt(y.s, 0)
  {
    var before, u, x := RecreationHappens(c, l, reqs, header);
    y := LastTokens(c, l, x);
    NoRecordIsMissed(y.s, 0);
    MissedIsLost(c, l, y, 0);
  }
}
