/** A store with one worker: pages and TOC blocks go through its one memClearer in the order of their files, so no TOC
    file is ever created anew, no record is lost, and no value is located in a file before it is on disk. */
module PipelineSingle {
  import opened Base
  import opened Stamp
  import opened LocMap
  import opened Pipeline
  import opened PipelineWriters
  import opened PipelineToc
  import opened PipelineDisk
  import opened PipelineRuns
  import opened PipelineFrames
  import opened PipelineReads
  import opened PipelineFence

  // ---------------------------------------------------------------- the order of files

  /** The memClearer has one page at a time; a page ahead in line is of no later file. */
  ghost predicate PagePair(blocks: seq<Block>, x: nat, y: nat)
  {
    x < |blocks| && y < |blocks| && Released(blocks[x].owner) && Released(blocks[y].owner) ==>
      match (blocks[x].owner, blocks[y].owner)
      case (AtClearer(_, _), AtClearer(_, _)) => x == y
      case (AtClearer(_, _), InClearChan(_, _)) => blocks[x].file <= blocks[y].file
      case (InClearChan(_, t), InClearChan(_, u)) => t <= u ==> blocks[x].file <= blocks[y].file
      case _ => true
  }

  /** The TOC block being filled is of no later file than any page still to be processed. */
  ghost predicate TbPage(tbs: seq<Option<TocBlock>>, blocks: seq<Block>, j: nat, y: nat)
  {
    j < |tbs| && tbs[j].Some? && y < |blocks| && Released(blocks[y].owner) ==> tbs[j].value.file <= blocks[y].file
  }

  ghost predicate MsgPair(tocChan: map<nat, TocMsg>, t: nat, u: nat)
  {
    t in tocChan && u in tocChan && t <= u ==> tocChan[t].tb.file <= tocChan[u].tb.file
  }

  ghost predicate MsgTb(tocChan: map<nat, TocMsg>, tbs: seq<Option<TocBlock>>, t: nat, j: nat)
  {
    t in tocChan && j < |tbs| && tbs[j].Some? ==> tocChan[t].tb.file <= tbs[j].value.file
  }

  ghost predicate MsgPage(tocChan: map<nat, TocMsg>, blocks: seq<Block>, t: nat, y: nat)
  {
    t in tocChan && y < |blocks| && Released(blocks[y].owner) ==> tocChan[t].tb.file <= blocks[y].file
  }

  ghost predicate PagesInOrder(blocks: seq<Block>)
  {
    forall x: nat, y: nat {:trigger PagePair(blocks, x, y)} :: PagePair(blocks, x, y)
  }

  ghost predicate TbsInOrder(tbs: seq<Option<TocBlock>>, blocks: seq<Block>)
  {
    forall j: nat, y: nat {:trigger TbPage(tbs, blocks, j, y)} :: TbPage(tbs, blocks, j, y)
  }

  ghost predicate MsgsInOrder(tocChan: map<nat, TocMsg>, tbs: seq<Option<TocBlock>>, blocks: seq<Block>)
  {
    && (forall t: nat, u: nat {:trigger MsgPair(tocChan, t, u)} :: MsgPair(tocChan, t, u))
    && (forall t: nat, j: nat {:trigger MsgTb(tocChan, tbs, t, j)} :: MsgTb(tocChan, tbs, t, j))
    && (forall t: nat, y: nat {:trigger MsgPage(tocChan, blocks, t, y)} :: MsgPage(tocChan, blocks, t, y))
  }

  ghost predicate InOrder(s: State)
  {
    && PagesInOrder(s.blocks) && TbsInOrder(s.tbs, s.blocks) && MsgsInOrder(s.tocChan, s.tbs, s.blocks)
    && (s.open.Some? ==> s.open.value + 1 == |s.files|)
  }

  /** Nothing on its way belongs to a file below f. */
  ghost predicate AtLeast(s: State, f: nat) { f == 0 || Above(s, f - 1) }

  /** Nothing on its way belongs to a file below that of a TOC, nor to that of a closed TOC. */
  ghost predicate TocDone(s: State, f: nat)
  {
    f in s.tocs ==> if TocClosed(s, f) then Above(s, f) else AtLeast(s, f)
  }

  ghost predicate TocsDone(s: State)
  {
    forall f: nat {:trigger TocDone(s, f)} :: TocDone(s, f)
  }

  // ---------------------------------------------------------------- the order is kept

  /** Released pages are as they were or gone; TOC blocks are as they were. */
  ghost predicate Steady(s: State, s': State)
  {
    && |s'.blocks| == |s.blocks| && s'.tbs == s.tbs && s'.tocChan == s.tocChan
    && forall b :: 0 <= b < |s.blocks| && Released(s'.blocks[b].owner) ==>
         s'.blocks[b].owner == s.blocks[b].owner && s'.blocks[b].file == s.blocks[b].file
  }

  lemma SteadyOrder(s: State, s': State)
    requires Steady(s, s') && InOrder(s) && (s'.open.Some? ==> s'.open.value + 1 == |s'.files|)
    ensures InOrder(s')
  {
    forall x: nat, y: nat ensures PagePair(s'.blocks, x, y) { assert PagePair(s.blocks, x, y); }
    forall j: nat, y: nat ensures TbPage(s'.tbs, s'.blocks, j, y) { assert TbPage(s.tbs, s.blocks, j, y); }
    forall t: nat, y: nat ensures MsgPage(s'.tocChan, s'.blocks, t, y) { assert MsgPage(s.tocChan, s.blocks, t, y); }
  }

  lemma FileOpenLast(c: Config, s: State, a: Step)
    requires Shape(c, s) && Enabled(c, s, a) && InOrder(s) && FileStep(a)
    ensures var s' := Pipeline.Apply(c, s, a); s'.open.Some? ==> s'.open.value + 1 == |s'.files|
  {
  }

  lemma OpenIsLast(c: Config, s: State, a: Step)
    requires Shape(c, s) && Enabled(c, s, a) && InOrder(s)
    ensures var s' := Pipeline.Apply(c, s, a); s'.open.Some? ==> s'.open.value + 1 == |s'.files|
  {
    if FileStep(a) {
      FileOpenLast(c, s, a);
    } else if !a.Restart? {
      StorageKept(c, s, a);
    }
  }

  /** The page is of the open file, the last. */
  lemma ReleaseOrder(c: Config, s: State, b: nat, j: nat)
    requires Core(c, s) && InOrder(s) && ReleaseGuard(c, s, b, j)
    ensures InOrder(SetOwner(s, b, InClearChan(j, s.clock)).(clock := s.clock + 1))
  {
    var s' := SetOwner(s, b, InClearChan(j, s.clock)).(clock := s.clock + 1);
    assert BlockShape(c, s.blocks, s.clock, s.open, |s.files|, b);
    forall x: nat, y: nat ensures PagePair(s'.blocks, x, y) {
      assert PagePair(s.blocks, x, y);
      assert BlockShape(c, s.blocks, s.clock, s.open, |s.files|, x);
      assert BlockShape(c, s.blocks, s.clock, s.open, |s.files|, y);
    }
    forall i: nat, y: nat ensures TbPage(s'.tbs, s'.blocks, i, y) { assert TbPage(s.tbs, s.blocks, i, y); }
    forall t: nat, y: nat ensures MsgPage(s'.tocChan, s'.blocks, t, y) { assert MsgPage(s.tocChan, s.blocks, t, y); }
  }

  /** It is the head of the line, and the memClearer had none. */
  lemma ClearTakeOrder(c: Config, s: State, j: nat, b: nat)
    requires Core(c, s) && InOrder(s) && ClearTakeGuard(c, s, j, b) && c.workers == 1
    ensures InOrder(SetOwner(s, b, AtClearer(j, 0)))
  {
    var s' := SetOwner(s, b, AtClearer(j, 0));
    forall x: nat, y: nat ensures PagePair(s'.blocks, x, y) {
      assert PagePair(s.blocks, x, y) && PagePair(s.blocks, b, y);
      assert BlockShape(c, s.blocks, s.clock, s.open, |s.files|, x);
      assert BlockShape(c, s.blocks, s.clock, s.open, |s.files|, y);
    }
    forall i: nat, y: nat ensures TbPage(s'.tbs, s'.blocks, i, y) { assert TbPage(s.tbs, s.blocks, i, y); }
    forall t: nat, y: nat ensures MsgPage(s'.tocChan, s'.blocks, t, y) { assert MsgPage(s.tocChan, s.blocks, t, y); }
  }

  lemma RecordOrder(s: State, s': State, b: nat)
    requires InOrder(s) && OneRecord(s, s', b) && (s'.open.Some? ==> s'.open.value + 1 == |s'.files|)
    ensures InOrder(s')
  {
    forall x: nat, y: nat ensures PagePair(s'.blocks, x, y) { assert PagePair(s.blocks, x, y); }
    forall i: nat, y: nat ensures TbPage(s'.tbs, s'.blocks, i, y) {
      assert TbPage(s.tbs, s.blocks, i, y) && PagePair(s.blocks, b, y);
    }
    forall t: nat, y: nat ensures MsgPage(s'.tocChan, s'.blocks, t, y) { assert MsgPage(s.tocChan, s.blocks, t, y); }
    forall t: nat, i: nat ensures MsgTb(s'.tocChan, s'.tbs, t, i) {
      assert MsgTb(s.tocChan, s.tbs, t, i) && MsgPage(s.tocChan, s.blocks, t, b);
    }
  }

  lemma SendOrder(c: Config, s: State, j: nat)
    requires Core(c, s) && InOrder(s) && TbSendGuard(c, s, j) && c.workers == 1
    ensures InOrder(ApplyTbSend(s, j))
  {
    var s' := ApplyTbSend(s, j);
    forall i: nat, y: nat ensures TbPage(s'.tbs, s'.blocks, i, y) { assert TbPage(s.tbs, s.blocks, i, y); }
    forall t: nat, u: nat ensures MsgPair(s'.tocChan, t, u) {
      assert MsgPair(s.tocChan, t, u) && MsgTb(s.tocChan, s.tbs, t, j);
    }
    forall t: nat, i: nat ensures MsgTb(s'.tocChan, s'.tbs, t, i) { assert MsgTb(s.tocChan, s.tbs, t, i); }
    forall t: nat, y: nat ensures MsgPage(s'.tocChan, s'.blocks, t, y) {
      assert MsgPage(s.tocChan, s.blocks, t, y) && TbPage(s.tbs, s.blocks, j, y);
    }
  }

  lemma TakeFields(s: State, t: nat)
    requires t in s.tocChan
    requires (s.tocA.Some? ==> s.tocA.value in s.tocs) && (s.tocB.Some? ==> s.tocB.value in s.tocs)
    ensures var s' := ApplyTocTake(s, t);
            && s'.tocChan == s.tocChan - {t} && s'.blocks == s.blocks && s'.tbs == s.tbs && s'.drain == s.drain
            && s'.open == s.open && s'.files == s.files && s'.tocs.Keys == s.tocs.Keys + {s.tocChan[t].tb.file}
  {
  }

  lemma FewerMsgs(s: State, s': State, t: nat)
    requires InOrder(s) && s'.tocChan == s.tocChan - {t} && s'.blocks == s.blocks && s'.tbs == s.tbs
    requires s'.open == s.open && s'.files == s.files
    ensures InOrder(s')
  {
    forall u: nat, v: nat ensures MsgPair(s'.tocChan, u, v) { assert MsgPair(s.tocChan, u, v); }
    forall u: nat, i: nat ensures MsgTb(s'.tocChan, s'.tbs, u, i) { assert MsgTb(s.tocChan, s.tbs, u, i); }
    forall u: nat, y: nat ensures MsgPage(s'.tocChan, s'.blocks, u, y) { assert MsgPage(s.tocChan, s.blocks, u, y); }
  }

  lemma WriteBlockSteady(s: State, b: nat)
    requires b < |s.blocks| && s.open.Some? && s.open.value < |s.files|
    ensures Steady(s, ApplyWriteBlock(s, b))
  {
  }

  lemma RestartOrder(c: Config, s: State)
    ensures InOrder(ApplyRestart(c, s))
  {
  }

  lemma PageStepOrder(c: Config, s: State, a: Step)
    requires Core(c, s) && InOrder(s) && Enabled(c, s, a) && c.workers == 1
    requires a.WriteBlock? || a.Release? || a.ClearTake?
    ensures InOrder(Pipeline.Apply(c, s, a))
  {
    if a.WriteBlock? {
      OpenIsLast(c, s, a);
      WriteBlockSteady(s, a.b);
      SteadyOrder(s, ApplyWriteBlock(s, a.b));
    } else if a.Release? {
      ReleaseOrder(c, s, a.b, a.j);
    } else {
      ClearTakeOrder(c, s, a.j, a.b);
    }
  }

  lemma TocStepOrder(c: Config, s: State, a: Step)
    requires Core(c, s) && InOrder(s) && Enabled(c, s, a) && c.workers == 1 && (a.ClearRec? || a.TbSend? || a.TocTake?)
    ensures InOrder(Pipeline.Apply(c, s, a))
  {
    if a.ClearRec? {
      OpenIsLast(c, s, a);
      ClearIsOneRecord(s, a.b);
      RecordOrder(s, ApplyClearRec(s, a.b), a.b);
    } else if a.TbSend? {
      SendOrder(c, s, a.j);
    } else {
      TakeFields(s, a.t);
      FewerMsgs(s, ApplyTocTake(s, a.t), a.t);
    }
  }

  lemma StillOrder(c: Config, s: State, a: Step)
    requires Core(c, s) && InOrder(s) && Enabled(c, s, a) && (QuietStep(a) || TokenStep(a))
    ensures InOrder(Pipeline.Apply(c, s, a))
  {
    OpenIsLast(c, s, a);
    if QuietStep(a) { IsQuiet(c, s, a); } else { TokenQuiet(c, s, a); }
    SteadyOrder(s, Pipeline.Apply(c, s, a));
  }

  lemma StepKeepsOrder(c: Config, s: State, a: Step)
    requires Core(c, s) && InOrder(s) && Enabled(c, s, a) && c.workers == 1
    ensures InOrder(Pipeline.Apply(c, s, a))
  {
    if a.WriteBlock? || a.Release? || a.ClearTake? {
      PageStepOrder(c, s, a);
    } else if a.ClearRec? || a.TbSend? || a.TocTake? {
      TocStepOrder(c, s, a);
    } else if a.Restart? {
      RestartOrder(c, s);
    } else {
      StillOrder(c, s, a);
    }
  }

  // ---------------------------------------------------------------- TOC files come in order

  /** The block at the head is of the first file that anything on its way belongs to. */
  lemma HeadIsFirst(c: Config, s: State, t: nat)
    requires Core(c, s) && InOrder(s) && TocTakeGuard(c, s, t)
    ensures AtLeast(s, s.tocChan[t].tb.file)
  {
    var g := s.tocChan[t].tb.file;
    if g > 0 {
      var f := g - 1;
      forall b: nat ensures BlockAbove(s.blocks, f, b) {
        assert MsgPage(s.tocChan, s.blocks, t, b);
        assert BlockShape(c, s.blocks, s.clock, s.open, |s.files|, b);
      }
      forall j: nat ensures TbAbove(s.tbs, f, j) { assert MsgTb(s.tocChan, s.tbs, t, j); }
      forall u: nat ensures MsgAbove(s.tocChan, f, u) { assert MsgPair(s.tocChan, t, u); }
    }
  }

  lemma AboveLess(s: State, f: nat, g: nat)
    requires AtLeast(s, g) && f < g
    ensures Above(s, f)
  {
    forall b: nat ensures BlockAbove(s.blocks, f, b) { assert BlockAbove(s.blocks, g - 1, b); }
    forall j: nat ensures TbAbove(s.tbs, f, j) { assert TbAbove(s.tbs, g - 1, j); }
    forall t: nat ensures MsgAbove(s.tocChan, f, t) { assert MsgAbove(s.tocChan, g - 1, t); }
  }

  /** So a file that exists already is open. */
  lemma NeverAnew(c: Config, s: State, t: nat)
    requires Core(c, s) && TocsDone(s) && TocTakeGuard(c, s, t)
    ensures !Recreates(s, TocTake(t))
  {
    var g := s.tocChan[t].tb.file;
    assert TocDone(s, g);
    if TocClosed(s, g) { MsgIsAbove(s, g, t); }
  }

  lemma MsgIsAbove(s: State, f: nat, t: nat)
    requires Above(s, f) && t in s.tocChan
    ensures f < s.tocChan[t].tb.file
  {
    assert MsgAbove(s.tocChan, f, t);
  }

  /** An open TOC file that a new one closes is of an earlier file. */
  lemma ClosedIsEarlier(s: State, t: nat, f: nat)
    requires t in s.tocChan && TocsDone(s) && f in s.tocs && f != s.tocChan[t].tb.file
    ensures f < s.tocChan[t].tb.file
  {
    assert TocDone(s, f);
    if TocClosed(s, f) {
      assert MsgAbove(s.tocChan, f, t);
    } else if f > 0 {
      assert MsgAbove(s.tocChan, f - 1, t);
    }
  }

  lemma TakeTocsDone(c: Config, s: State, t: nat)
    requires Core(c, s) && InOrder(s) && TocsDone(s) && TocTakeGuard(c, s, t)
    ensures TocsDone(ApplyTocTake(s, t))
  {
    var s', g := ApplyTocTake(s, t), s.tocChan[t].tb.file;
    HeadIsFirst(c, s, t);
    NeverAnew(c, s, t);
    forall f: nat | f in s'.tocs ensures TocDone(s', f) {
      if f == g {
        if g > 0 { TakeAbove(s, t, g - 1); }
      } else {
        ClosedIsEarlier(s, t, f);
        AboveLess(s, f, g);
        TakeAbove(s, t, f);
        if f > 0 { AboveLess(s, f - 1, f + 1); TakeAbove(s, t, f - 1); }
      }
    }
  }

  // ---------------------------------------------------------------- the last token

  predicate AheadOf(o: Owner, t: nat) { o.AtClearer? || (o.InClearChan? && o.t <= t) }

  /** Before the memClearer has its token, what it has ahead of it is of files below the mark. */
  ghost predicate PageBelow(d: Drain, blocks: seq<Block>, b: nat)
  {
    b < |blocks| && |d.ctok| == 1 && d.ctok[0].CSent? && AheadOf(blocks[b].owner, d.ctok[0].t) ==>
      blocks[b].file < d.fmark
  }

  ghost predicate TbBelow(d: Drain, tbs: seq<Option<TocBlock>>, j: nat)
  {
    j < |tbs| && tbs[j].Some? && |d.ctok| == 1 && d.ctok[0].CSent? ==> tbs[j].value.file < d.fmark
  }

  ghost predicate MsgBelow(d: Drain, tocChan: map<nat, TocMsg>, t: nat)
  {
    t in tocChan && |d.ctok| == 1 && (d.ctok[0].CSent? || (d.ctok[0].CPassed? && t <= d.ctok[0].t)) ==>
      tocChan[t].tb.file < d.fmark
  }

  ghost predicate TocBelow(d: Drain, tocs: map<nat, seq<Rec>>, f: nat)
  {
    f in tocs && |d.ctok| == 1 && (d.ctok[0].CSent? || d.ctok[0].CPassed?) ==> f < d.fmark
  }

  ghost predicate BelowMark(s: State)
  {
    && (forall b: nat {:trigger PageBelow(s.drain, s.blocks, b)} :: PageBelow(s.drain, s.blocks, b))
    && (forall j: nat {:trigger TbBelow(s.drain, s.tbs, j)} :: TbBelow(s.drain, s.tbs, j))
    && (forall t: nat {:trigger MsgBelow(s.drain, s.tocChan, t)} :: MsgBelow(s.drain, s.tocChan, t))
    && (forall f: nat {:trigger TocBelow(s.drain, s.tocs, f)} :: TocBelow(s.drain, s.tocs, f))
  }

  lemma SteadyBelow(s: State, s': State)
    requires Steady(s, s') && s'.drain == s.drain && s'.tocs == s.tocs && BelowMark(s)
    ensures BelowMark(s')
  {
    forall b: nat ensures PageBelow(s'.drain, s'.blocks, b) { assert PageBelow(s.drain, s.blocks, b); }
  }

  lemma ReleaseBelow(c: Config, s: State, b: nat, j: nat)
    requires Core(c, s) && BelowMark(s) && ReleaseGuard(c, s, b, j)
    ensures BelowMark(SetOwner(s, b, InClearChan(j, s.clock)).(clock := s.clock + 1))
  {
    var s' := SetOwner(s, b, InClearChan(j, s.clock)).(clock := s.clock + 1);
    forall x: nat ensures PageBelow(s'.drain, s'.blocks, x) { assert PageBelow(s.drain, s.blocks, x); }
  }

  lemma ClearTakeBelow(c: Config, s: State, j: nat, b: nat)
    requires Core(c, s) && BelowMark(s) && ClearTakeGuard(c, s, j, b) && c.workers == 1
    ensures BelowMark(SetOwner(s, b, AtClearer(j, 0)))
  {
    var s' := SetOwner(s, b, AtClearer(j, 0));
    forall x: nat ensures PageBelow(s'.drain, s'.blocks, x) { assert PageBelow(s.drain, s.blocks, x); }
  }

  lemma RecordBelow(s: State, s': State, b: nat)
    requires BelowMark(s) && OneRecord(s, s', b) && s'.drain == s.drain && s'.tocs == s.tocs
    ensures BelowMark(s')
  {
    assert PageBelow(s.drain, s.blocks, b);
    forall x: nat ensures PageBelow(s'.drain, s'.blocks, x) { assert PageBelow(s.drain, s.blocks, x); }
    forall j: nat ensures TbBelow(s'.drain, s'.tbs, j) { assert TbBelow(s.drain, s.tbs, j); }
  }

  lemma SendBelow(c: Config, s: State, j: nat)
    requires Core(c, s) && BelowMark(s) && TbSendGuard(c, s, j)
    ensures BelowMark(ApplyTbSend(s, j))
  {
    var s' := ApplyTbSend(s, j);
    assert TbBelow(s.drain, s.tbs, j);
    forall i: nat ensures TbBelow(s'.drain, s'.tbs, i) { assert TbBelow(s.drain, s.tbs, i); }
    forall t: nat ensures MsgBelow(s'.drain, s'.tocChan, t) { assert MsgBelow(s.drain, s.tocChan, t); }
  }

  lemma TakeBelow(c: Config, s: State, t: nat)
    requires Core(c, s) && BelowMark(s) && TocTakeGuard(c, s, t)
    ensures BelowMark(ApplyTocTake(s, t))
  {
    var s' := ApplyTocTake(s, t);
    TakeFields(s, t);
    assert MsgBelow(s.drain, s.tocChan, t);
    forall u: nat ensures MsgBelow(s'.drain, s'.tocChan, u) { assert MsgBelow(s.drain, s.tocChan, u); }
    forall f: nat ensures TocBelow(s'.drain, s'.tocs, f) { assert TocBelow(s.drain, s.tocs, f); }
  }

  lemma FileTokenBelow(c: Config, s: State, w: nat)
    requires Core(c, s) && BelowMark(s) && FileTokenGuard(c, s, w)
    ensures BelowMark(ApplyFileToken(c, s, w))
  {
    var s' := ApplyFileToken(c, s, w);
    forall b: nat ensures PageBelow(s'.drain, s'.blocks, b) {
      assert PageBelow(s.drain, s.blocks, b);
      assert BlockShape(c, s.blocks, s.clock, s.open, |s.files|, b);
    }
    forall j: nat ensures TbBelow(s'.drain, s'.tbs, j) { assert TbBelow(s.drain, s.tbs, j); }
    forall t: nat ensures MsgBelow(s'.drain, s'.tocChan, t) { assert MsgBelow(s.drain, s.tocChan, t); }
    forall f: nat ensures TocBelow(s'.drain, s'.tocs, f) { assert TocBelow(s.drain, s.tocs, f); }
  }

  lemma ClearTokenBelow(c: Config, s: State, j: nat)
    requires Core(c, s) && BelowMark(s) && ClearTokenGuard(c, s, j) && c.workers == 1
    ensures BelowMark(s.(drain := s.drain.(ctok := s.drain.ctok[j := CPassed(s.clock)]), clock := s.clock + 1))
  {
    var s' := s.(drain := s.drain.(ctok := s.drain.ctok[j := CPassed(s.clock)]), clock := s.clock + 1);
    forall t: nat ensures MsgBelow(s'.drain, s'.tocChan, t) { assert MsgBelow(s.drain, s.tocChan, t); }
    forall f: nat ensures TocBelow(s'.drain, s'.tocs, f) { assert TocBelow(s.drain, s.tocs, f); }
  }

  lemma NoTokenBelow(s: State)
    requires |s.drain.ctok| == 1 && (s.drain.ctok[0].CWait? || s.drain.ctok[0].CDone?)
    ensures BelowMark(s)
  {
  }

  lemma StartBelow(c: Config, s: State, a: Step)
    requires Shape(c, s) && Enabled(c, s, a) && BelowMark(s) && c.workers == 1
    requires a.StartDrain? || a.WriterToken? || a.Restart?
    ensures BelowMark(Pipeline.Apply(c, s, a))
  {
    var s' := Pipeline.Apply(c, s, a);
    if a.WriterToken? {
      forall b: nat ensures PageBelow(s'.drain, s'.blocks, b) { assert PageBelow(s.drain, s.blocks, b); }
      forall j: nat ensures TbBelow(s'.drain, s'.tbs, j) { assert TbBelow(s.drain, s.tbs, j); }
      forall t: nat ensures MsgBelow(s'.drain, s'.tocChan, t) { assert MsgBelow(s.drain, s.tocChan, t); }
      forall f: nat ensures TocBelow(s'.drain, s'.tocs, f) { assert TocBelow(s.drain, s.tocs, f); }
    } else {
      NoTokenBelow(s');
    }
  }

  lemma PageStepBelow(c: Config, s: State, a: Step)
    requires Core(c, s) && BelowMark(s) && Enabled(c, s, a) && c.workers == 1
    requires a.WriteBlock? || a.Release? || a.ClearTake?
    ensures BelowMark(Pipeline.Apply(c, s, a))
  {
    if a.WriteBlock? {
      WriteBlockSteady(s, a.b);
      SteadyBelow(s, ApplyWriteBlock(s, a.b));
    } else if a.Release? {
      ReleaseBelow(c, s, a.b, a.j);
    } else {
      ClearTakeBelow(c, s, a.j, a.b);
    }
  }

  lemma TocStepBelow(c: Config, s: State, a: Step)
    requires Core(c, s) && BelowMark(s) && Enabled(c, s, a) && (a.ClearRec? || a.TbSend? || a.TocTake?)
    ensures BelowMark(Pipeline.Apply(c, s, a))
  {
    if a.ClearRec? {
      ClearIsOneRecord(s, a.b);
      RecordBelow(s, ApplyClearRec(s, a.b), a.b);
    } else if a.TbSend? {
      SendBelow(c, s, a.j);
    } else {
      TakeBelow(c, s, a.t);
    }
  }

  lemma TocTokenBelow(c: Config, s: State, j: nat)
    requires |s.drain.ctok| == 1 && c.workers == 1 && j < 1
    ensures BelowMark(ApplyTocToken(c, s, j))
  {
    NoTokenBelow(ApplyTocToken(c, s, j));
  }

  lemma TokenStepBelow(c: Config, s: State, a: Step)
    requires Core(c, s) && BelowMark(s) && Enabled(c, s, a) && c.workers == 1
    requires a.FileToken? || a.ClearToken? || a.TocToken?
    ensures BelowMark(Pipeline.Apply(c, s, a))
  {
    if a.FileToken? {
      FileTokenBelow(c, s, a.w);
    } else if a.ClearToken? {
      ClearTokenBelow(c, s, a.j);
    } else {
      TocTokenBelow(c, s, a.j);
    }
  }

  lemma StillBelow(c: Config, s: State, a: Step)
    requires Core(c, s) && BelowMark(s) && Enabled(c, s, a) && QuietStep(a)
    ensures BelowMark(Pipeline.Apply(c, s, a))
  {
    IsQuiet(c, s, a);
    TocsKept(c, s, a);
    QuietBelow(s, Pipeline.Apply(c, s, a));
  }

  lemma QuietBelow(s: State, s': State)
    requires Quiet(s, s') && s'.drain == s.drain && s'.tocs == s.tocs && BelowMark(s)
    ensures BelowMark(s')
  {
    SteadyBelow(s, s');
  }

  lemma StepKeepsBelow(c: Config, s: State, a: Step)
    requires Core(c, s) && BelowMark(s) && Enabled(c, s, a) && c.workers == 1
    ensures BelowMark(Pipeline.Apply(c, s, a))
  {
    if QuietStep(a) {
      StillBelow(c, s, a);
    } else if a.WriteBlock? || a.Release? || a.ClearTake? {
      PageStepBelow(c, s, a);
    } else if a.ClearRec? || a.TbSend? || a.TocTake? {
      TocStepBelow(c, s, a);
    } else if a.FileToken? || a.ClearToken? || a.TocToken? {
      TokenStepBelow(c, s, a);
    } else {
      StartBelow(c, s, a);
    }
  }

  // ---------------------------------------------------------------- one worker, every run

  ghost predicate Single(s: State) { InOrder(s) && TocsDone(s) && BelowMark(s) }

  /** The last token closes the TOC files, and nothing on its way belongs to them. */
  lemma TokenTocsDone(c: Config, s: State, j: nat)
    requires Core(c, s) && Fenced(s) && Single(s) && TocTokenGuard(c, s, j) && c.workers == 1
    ensures TocsDone(ApplyTocToken(c, s, j))
  {
    var s' := ApplyTocToken(c, s, j);
    OneTokenLeft(s, j);
    forall f: nat | f in s'.tocs ensures TocDone(s', f) {
      assert TocBelow(s.drain, s.tocs, f);
      NothingBelowMark(c, s, j, f);
      TocTokenQuiet(c, s, j);
      QuietAbove(s, s', f);
    }
  }

  lemma OneTokenLeft(s: State, j: nat)
    requires |s.drain.ctok| == 1 && j < 1 && s.drain.ctok[j].CPassed? && s.drain.cleft == CLeft(s.drain.ctok)
    ensures s.drain.cleft == 1
  {
    assert s.drain.ctok[..0] == [];
  }

  lemma OtherTocsDone(c: Config, s: State, a: Step)
    requires Core(c, s) && DrainFence(s.drain, s.blocks, s.tbs, s.tocChan) && TocsDone(s) && Enabled(c, s, a)
    requires Tocs(s, Pipeline.Apply(c, s, a))
    ensures TocsDone(Pipeline.Apply(c, s, a))
  {
    var s' := Pipeline.Apply(c, s, a);
    forall f: nat | f in s'.tocs ensures TocDone(s', f) {
      assert TocDone(s, f);
      if TocClosed(s, f) { StepKeepsAbove(c, s, a, f); } else if f > 0 { StepKeepsAbove(c, s, a, f - 1); }
    }
  }

  lemma StepKeepsTocsDone(c: Config, s: State, a: Step)
    requires Core(c, s) && Fenced(s) && Single(s) && Enabled(c, s, a) && c.workers == 1
    ensures TocsDone(Pipeline.Apply(c, s, a))
  {
    if a.TocTake? {
      TakeTocsDone(c, s, a.t);
    } else if a.TocToken? {
      TokenTocsDone(c, s, a.j);
    } else if a.Restart? {
      RestartTocsDone(c, s);
    } else {
      TocsKept(c, s, a);
      OtherTocsDone(c, s, a);
    }
  }

  lemma RestartTocsDone(c: Config, s: State)
    requires forall f :: f in s.tocs ==> f < |s.files|
    ensures TocsDone(ApplyRestart(c, s))
  {
  }

  lemma StepKeepsSingle(c: Config, s: State, a: Step)
    requires Core(c, s) && Fenced(s) && Single(s) && Enabled(c, s, a) && c.workers == 1
    ensures Single(Pipeline.Apply(c, s, a))
  {
    StepKeepsOrder(c, s, a);
    StepKeepsBelow(c, s, a);
    StepKeepsTocsDone(c, s, a);
  }

  lemma {:induction false} RunKeepsSingle(c: Config, states: seq<State>, steps: seq<Step>, i: nat)
    requires Run(c, states, steps) && i < |states| && c.workers == 1
    ensures Single(states[i])
  {
    if i > 0 {
      RunKeepsSingle(c, states, steps, i - 1);
      RunKeepsFence(c, states, steps, i - 1);
      assert StepAt(c, states, steps, i - 1);
      StepKeepsSingle(c, states[i - 1], steps[i - 1]);
    } else {
      NoTokenBelow(states[0]);
    }
  }

  /** With one worker no step of any run creates a TOC file anew. */
  lemma OneWorkerNeverRecreates(c: Config, states: seq<State>, steps: seq<Step>, i: nat)
    requires Run(c, states, steps) && i < |steps| && c.workers == 1
    ensures !Recreates(states[i], steps[i])
  {
    RunKeepsSingle(c, states, steps, i);
    RunKeepsInv(c, states, steps, i);
    assert StepAt(c, states, steps, i);
    if steps[i].TocTake? { NeverAnew(c, states[i], steps[i].t); }
  }

  /** So no record is ever lost. */
  lemma {:induction false} OneWorkerLosesNothing(c: Config, states: seq<State>, steps: seq<Step>, i: nat, n: nat)
    requires Run(c, states, steps) && i < |states| && c.workers == 1
    ensures !LostAt(states[i], n)
  {
    if i > 0 {
      OneWorkerLosesNothing(c, states, steps, i - 1, n);
      OneWorkerNeverRecreates(c, states, steps, i - 1);
      RunKeepsInv(c, states, steps, i - 1);
      assert StepAt(c, states, steps, i - 1);
      LostExactly(c, states[i - 1], steps[i - 1], n);
    }
  }

  /** With one worker a key without markers always reads as its last taken write. */
  lemma OneWorkerReads(c: Config, states: seq<State>, steps: seq<Step>, i: nat, k: Key)
    requires Run(c, states, steps) && i < |states| && c.workers == 1
    requires NoRemovals(states[i].log, k) && SameValues(states[i].log, k)
    ensures ReadKey(states[i], k) == LastAnswer(states[i].log, k)
  {
    var s := states[i];
    RunKeepsInv(c, states, steps, i);
    forall n | 0 <= n < |s.log| && n < |s.place| ensures !s.place[n].Lost? {
      OneWorkerLosesNothing(c, states, steps, i, n);
    }
    ReadsAreLastWrites(c, states, steps, i, k);
  }

  /** With one worker a flush has brought every earlier write to disk, or a newer one replaced it. */
  lemma OneWorkerFlush(c: Config, states: seq<State>, steps: seq<Step>, i: nat, j: nat, n: nat)
    requires Run(c, states, steps) && i < j < |states| && c.workers == 1
    requires steps[i] == StartDrain(false)
    requires forall m :: i < m < j ==> states[m].mode.Draining?
    requires states[j].mode.Running?
    requires n < |states[i].log|
    ensures OnDisk(states[j], n) || Replaced(states[j], n)
  {
    FlushIsDurable(c, states, steps, i, j, n);
    OneWorkerLosesNothing(c, states, steps, j, n);
  }
}
