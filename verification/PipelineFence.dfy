/** What a completed flush made durable stays durable. Its token follows every page and TOC block of a file below
    the flush's mark through every channel, so nothing that is still on its way belongs to a file of the flushed
    records, and no TOC file of theirs is ever created anew. */
module PipelineFence {
  import opened Base
  import opened Stamp
  import opened LocMap
  import opened Pipeline
  import opened PipelineWriters
  import opened PipelineToc
  import opened PipelineDisk
  import opened PipelineRuns
  import opened PipelineFrames
  import opened PipelineReads

  // ---------------------------------------------------------------- what is on its way

  /** A page of a file below the flush's mark is ahead of the token. */
  ghost predicate BlockFence(d: Drain, blocks: seq<Block>, b: nat)
  {
    b < |blocks| && Filed(blocks[b].owner) && blocks[b].file < d.fmark ==>
      OwnerAhead(d, blocks[b].owner, blocks[b].file)
  }

  ghost predicate TbFence(d: Drain, tbs: seq<Option<TocBlock>>, j: nat)
  {
    j < |tbs| && tbs[j].Some? && tbs[j].value.file < d.fmark ==> BeforeToken(d, j, tbs[j].value.file)
  }

  ghost predicate MsgFence(d: Drain, tocChan: map<nat, TocMsg>, t: nat)
  {
    t in tocChan && tocChan[t].tb.file < d.fmark ==> MsgAhead(d, t, tocChan[t])
  }

  ghost predicate DrainFence(d: Drain, blocks: seq<Block>, tbs: seq<Option<TocBlock>>, tocChan: map<nat, TocMsg>)
  {
    && (forall b: nat {:trigger BlockFence(d, blocks, b)} :: BlockFence(d, blocks, b))
    && (forall j: nat {:trigger TbFence(d, tbs, j)} :: TbFence(d, tbs, j))
    && (forall t: nat {:trigger MsgFence(d, tocChan, t)} :: MsgFence(d, tocChan, t))
  }

  ghost predicate BlockAbove(blocks: seq<Block>, f: nat, b: nat)
  {
    b < |blocks| && Filed(blocks[b].owner) ==> f < blocks[b].file
  }

  ghost predicate TbAbove(tbs: seq<Option<TocBlock>>, f: nat, j: nat)
  {
    j < |tbs| && tbs[j].Some? ==> f < tbs[j].value.file
  }

  ghost predicate MsgAbove(tocChan: map<nat, TocMsg>, f: nat, t: nat) { t in tocChan ==> f < tocChan[t].tb.file }

  /** Every page written to a file, every TOC block on its way and the open file belong to files above f. */
  ghost predicate Above(s: State, f: nat)
  {
    && (forall b: nat {:trigger BlockAbove(s.blocks, f, b)} :: BlockAbove(s.blocks, f, b))
    && (forall j: nat {:trigger TbAbove(s.tbs, f, j)} :: TbAbove(s.tbs, f, j))
    && (forall t: nat {:trigger MsgAbove(s.tocChan, f, t)} :: MsgAbove(s.tocChan, f, t))
    && (s.open.Some? ==> f < s.open.value)
    && f < |s.files|
  }

  ghost predicate FlushedAbove(s: State, n: nat)
  {
    n < s.flushed && n < |s.place| && s.place[n].InToc? ==> Above(s, s.place[n].f)
  }

  ghost predicate Fenced(s: State)
  {
    && DrainFence(s.drain, s.blocks, s.tbs, s.tocChan)
    && (forall n: nat {:trigger FlushedAbove(s, n)} :: FlushedAbove(s, n))
    && (s.mode.Draining? ==> s.flushed <= s.mode.mark)
    && Counting(s.drain)
  }

  /** Both countdowns still wait for a token. */
  predicate Counting(d: Drain) { 1 <= d.wleft && 1 <= d.cleft }

  // ---------------------------------------------------------------- one file, every step

  /** Pages written to a file and TOC blocks are as they were or gone, and files only grow. */
  ghost predicate Quiet(s: State, s': State)
  {
    && |s'.blocks| == |s.blocks|
    && (forall b :: 0 <= b < |s.blocks| && Filed(s'.blocks[b].owner) ==>
          s'.blocks[b].owner == s.blocks[b].owner && s'.blocks[b].file == s.blocks[b].file)
    && s'.tbs == s.tbs && s'.tocChan == s.tocChan && |s.files| <= |s'.files|
    && (s'.open == s.open || s'.open == None || s'.open == Some(|s.files|))
  }

  lemma QuietAbove(s: State, s': State, f: nat)
    requires Quiet(s, s') && Above(s, f)
    ensures Above(s', f)
  {
    forall b: nat ensures BlockAbove(s'.blocks, f, b) { assert BlockAbove(s.blocks, f, b); }
  }

  lemma QuietFence(s: State, s': State)
    requires Quiet(s, s') && s'.drain == s.drain && DrainFence(s.drain, s.blocks, s.tbs, s.tocChan)
    ensures DrainFence(s'.drain, s'.blocks, s'.tbs, s'.tocChan)
  {
    forall b: nat ensures BlockFence(s'.drain, s'.blocks, b) { assert BlockFence(s.drain, s.blocks, b); }
  }

  predicate QuietStep(a: Step)
  {
    || WriterStep(a) || a.OpenFile? || a.WriteBuf? || a.CloseTail? || a.CloseFile? || a.ClearDone? || ReaderStep(a)
  }

  lemma SizeQuiet(c: Config, s: State, a: Step)
    requires Core(c, s) && Enabled(c, s, a) && (a.TakeFree? || a.Extend? || a.Seal?)
    ensures Quiet(s, Pipeline.Apply(c, s, a)) && Pipeline.Apply(c, s, a).drain == s.drain
  {
  }

  lemma RequestQuiet(c: Config, s: State, a: Step)
    requires Core(c, s) && Enabled(c, s, a) && (a.Copy? || a.Truncate? || a.Record?)
    ensures Quiet(s, Pipeline.Apply(c, s, a)) && Pipeline.Apply(c, s, a).drain == s.drain
  {
    assert WriterShape(s.writers, s.blocks, a.w);
  }

  lemma MapQuiet(s: State, w: nat)
    requires w < |s.writers| && s.writers[w].Copied?
    ensures Quiet(s, ApplyPlace(s, w)) && ApplyPlace(s, w).drain == s.drain
  {
  }

  lemma WriterQuiet(c: Config, s: State, a: Step)
    requires Core(c, s) && Enabled(c, s, a) && WriterStep(a)
    ensures Quiet(s, Pipeline.Apply(c, s, a)) && Pipeline.Apply(c, s, a).drain == s.drain
  {
    if a.PlaceInMap? {
      MapQuiet(s, a.w);
    } else if a.TakeFree? || a.Extend? || a.Seal? {
      SizeQuiet(c, s, a);
    } else {
      RequestQuiet(c, s, a);
    }
  }

  lemma FileQuiet(c: Config, s: State, a: Step)
    requires Shape(c, s) && Enabled(c, s, a)
    requires a.OpenFile? || a.WriteBuf? || a.CloseTail? || a.CloseFile? || a.ClearDone?
    ensures Quiet(s, Pipeline.Apply(c, s, a)) && Pipeline.Apply(c, s, a).drain == s.drain
  {
  }

  lemma IsQuiet(c: Config, s: State, a: Step)
    requires Core(c, s) && Enabled(c, s, a) && QuietStep(a)
    ensures Quiet(s, Pipeline.Apply(c, s, a)) && Pipeline.Apply(c, s, a).drain == s.drain
  {
    if WriterStep(a) {
      WriterQuiet(c, s, a);
    } else if ReaderStep(a) {
      ReaderControl(c, s, a);
    } else {
      FileQuiet(c, s, a);
    }
  }

  /** A page goes from fileWriter's channel to the open file, from there to a memClearer's channel, from there into
      its hands, or past one more record. */
  ghost predicate OnePage(s: State, s': State, b: nat)
  {
    && |s'.blocks| == |s.blocks| && b < |s.blocks|
    && (forall x :: 0 <= x < |s.blocks| && x != b ==> s'.blocks[x] == s.blocks[x])
    && (Filed(s.blocks[b].owner) ==> s'.blocks[b].file == s.blocks[b].file)
    && (!Filed(s.blocks[b].owner) ==> s.open == Some(s'.blocks[b].file))
    && |s'.files| == |s.files| && s'.open == s.open && s'.drain == s.drain
  }

  lemma OnePageAbove(s: State, s': State, b: nat, f: nat)
    requires OnePage(s, s', b) && s'.tbs == s.tbs && s'.tocChan == s.tocChan && Above(s, f)
    ensures Above(s', f)
  {
    assert BlockAbove(s.blocks, f, b);
    forall x: nat ensures BlockAbove(s'.blocks, f, x) { assert BlockAbove(s.blocks, f, x); }
  }

  lemma OnePageFence(s: State, s': State, b: nat)
    requires OnePage(s, s', b) && s'.tbs == s.tbs && s'.tocChan == s.tocChan
    requires DrainFence(s.drain, s.blocks, s.tbs, s.tocChan) && BlockFence(s'.drain, s'.blocks, b)
    ensures DrainFence(s'.drain, s'.blocks, s'.tbs, s'.tocChan)
  {
    forall x: nat ensures BlockFence(s'.drain, s'.blocks, x) { assert BlockFence(s.drain, s.blocks, x); }
  }

  lemma PhaseOf(c: Config, s: State)
    requires Core(c, s)
    ensures StillPhase1(s.drain) ==> forall j :: 0 <= j < |s.drain.ctok| ==> s.drain.ctok[j].CWait?
    ensures !StillPhase1(s.drain) ==>
              && (s.open.Some? ==> s.drain.fmark <= s.open.value)
              && forall j :: 0 <= j < |s.drain.ctok| ==> !s.drain.ctok[j].CWait?
  {
  }

  lemma PageKeeps(c: Config, s: State, a: Step)
    requires Core(c, s) && DrainFence(s.drain, s.blocks, s.tbs, s.tocChan)
    requires Enabled(c, s, a) && (a.WriteBlock? || a.Release? || a.ClearTake?)
    ensures var s' := Pipeline.Apply(c, s, a);
            OnePage(s, s', a.b) && s'.tbs == s.tbs && s'.tocChan == s.tocChan && BlockFence(s'.drain, s'.blocks, a.b)
  {
    PhaseOf(c, s);
    assert BlockFence(s.drain, s.blocks, a.b);
    assert BlockShape(c, s.blocks, s.clock, s.open, |s.files|, a.b);
  }

  /** One record further: the page stays with its memClearer, whose TOC block is of the page's file. */
  ghost predicate OneRecord(s: State, s': State, b: nat)
  {
    && b < |s.blocks| == |s'.blocks| && s.blocks[b].owner.AtClearer? && s'.blocks[b].owner.AtClearer?
    && s'.blocks[b].owner.j == s.blocks[b].owner.j
    && s'.blocks[b].file == s.blocks[b].file
    && (forall x :: 0 <= x < |s.blocks| && x != b ==> s'.blocks[x] == s.blocks[x])
    && |s'.tbs| == |s.tbs| && s'.tocChan == s.tocChan
    && (forall j :: 0 <= j < |s.tbs| && s'.tbs[j] != s.tbs[j] ==>
          j == s.blocks[b].owner.j && s'.tbs[j].Some? && s'.tbs[j].value.file == s.blocks[b].file)
    && s'.drain == s.drain && s'.open == s.open && s'.files == s.files
  }

  lemma ClearIsOneRecord(s: State, b: nat)
    requires b < |s.blocks| && s.blocks[b].owner.AtClearer? && s.blocks[b].owner.j < |s.tbs|
    requires s.blocks[b].owner.pos < |s.blocks[b].recs|
    ensures OneRecord(s, ApplyClearRec(s, b), b)
  {
  }

  lemma ClearKeepsFence(s: State, s': State, b: nat)
    requires OneRecord(s, s', b) && DrainFence(s.drain, s.blocks, s.tbs, s.tocChan)
    ensures DrainFence(s'.drain, s'.blocks, s'.tbs, s'.tocChan)
  {
    assert BlockFence(s.drain, s.blocks, b);
    forall x: nat ensures BlockFence(s'.drain, s'.blocks, x) { assert BlockFence(s.drain, s.blocks, x); }
    forall j: nat ensures TbFence(s'.drain, s'.tbs, j) { assert TbFence(s.drain, s.tbs, j); }
  }

  lemma ClearAbove(s: State, s': State, b: nat, f: nat)
    requires OneRecord(s, s', b) && Above(s, f)
    ensures Above(s', f)
  {
    assert BlockAbove(s.blocks, f, b);
    forall x: nat ensures BlockAbove(s'.blocks, f, x) { assert BlockAbove(s.blocks, f, x); }
    forall j: nat ensures TbAbove(s'.tbs, f, j) { assert TbAbove(s.tbs, f, j); }
  }

  lemma SendKeepsFence(c: Config, s: State, j: nat)
    requires Core(c, s) && DrainFence(s.drain, s.blocks, s.tbs, s.tocChan) && TbSendGuard(c, s, j)
    ensures var s' := ApplyTbSend(s, j); DrainFence(s'.drain, s'.blocks, s'.tbs, s'.tocChan)
  {
    var s' := ApplyTbSend(s, j);
    assert TbFence(s.drain, s.tbs, j);
    forall x: nat ensures TbFence(s'.drain, s'.tbs, x) { assert TbFence(s.drain, s.tbs, x); }
    forall t: nat ensures MsgFence(s'.drain, s'.tocChan, t) { assert MsgFence(s.drain, s.tocChan, t); }
  }

  lemma SendAbove(c: Config, s: State, j: nat, f: nat)
    requires Core(c, s) && TbSendGuard(c, s, j) && Above(s, f)
    ensures Above(ApplyTbSend(s, j), f)
  {
    var s' := ApplyTbSend(s, j);
    assert TbAbove(s.tbs, f, j);
    forall x: nat ensures TbAbove(s'.tbs, f, x) { assert TbAbove(s.tbs, f, x); }
    forall t: nat ensures MsgAbove(s'.tocChan, f, t) { assert MsgAbove(s.tocChan, f, t); }
  }

  lemma TakeKeepsFence(s: State, t: nat)
    requires t in s.tocChan && DrainFence(s.drain, s.blocks, s.tbs, s.tocChan)
    requires (s.tocA.Some? ==> s.tocA.value in s.tocs) && (s.tocB.Some? ==> s.tocB.value in s.tocs)
    ensures var s' := ApplyTocTake(s, t); DrainFence(s'.drain, s'.blocks, s'.tbs, s'.tocChan)
  {
    var s' := ApplyTocTake(s, t);
    forall u: nat ensures MsgFence(s'.drain, s'.tocChan, u) { assert MsgFence(s.drain, s.tocChan, u); }
  }

  lemma TakeAbove(s: State, t: nat, f: nat)
    requires t in s.tocChan && Above(s, f)
    requires (s.tocA.Some? ==> s.tocA.value in s.tocs) && (s.tocB.Some? ==> s.tocB.value in s.tocs)
    ensures Above(ApplyTocTake(s, t), f)
  {
    var s' := ApplyTocTake(s, t);
    forall u: nat ensures MsgAbove(s'.tocChan, f, u) { assert MsgAbove(s.tocChan, f, u); }
  }

  // ---------------------------------------------------------------- tokens

  lemma FileTokenFence(c: Config, s: State, w: nat)
    requires Core(c, s) && DrainFence(s.drain, s.blocks, s.tbs, s.tocChan) && FileTokenGuard(c, s, w)
    ensures var s' := ApplyFileToken(c, s, w); DrainFence(s'.drain, s'.blocks, s'.tbs, s'.tocChan)
  {
    var s' := ApplyFileToken(c, s, w);
    PhaseOf(c, s);
    forall b: nat ensures BlockFence(s'.drain, s'.blocks, b) {
      assert BlockFence(s.drain, s.blocks, b);
      assert BlockShape(c, s.blocks, s.clock, s.open, |s.files|, b);
    }
    forall j: nat ensures TbFence(s'.drain, s'.tbs, j) { assert TbFence(s.drain, s.tbs, j); }
    forall t: nat ensures MsgFence(s'.drain, s'.tocChan, t) { assert MsgFence(s.drain, s.tocChan, t); }
  }

  lemma ClearTokenFence(c: Config, s: State, j: nat)
    requires Core(c, s) && DrainFence(s.drain, s.blocks, s.tbs, s.tocChan) && ClearTokenGuard(c, s, j)
    ensures DrainFence(s.drain.(ctok := s.drain.ctok[j := CPassed(s.clock)]), s.blocks, s.tbs, s.tocChan)
  {
    var d := s.drain.(ctok := s.drain.ctok[j := CPassed(s.clock)]);
    PhaseOf(c, s);
    forall b: nat ensures BlockFence(d, s.blocks, b) {
      assert BlockFence(s.drain, s.blocks, b);
      assert BlockShape(c, s.blocks, s.clock, s.open, |s.files|, b);
    }
    forall x: nat ensures TbFence(d, s.tbs, x) { assert TbFence(s.drain, s.tbs, x); }
    forall t: nat ensures MsgFence(d, s.tocChan, t) { assert MsgFence(s.drain, s.tocChan, t); }
  }

  lemma TocTokenFence(c: Config, s: State, j: nat)
    requires Core(c, s) && DrainFence(s.drain, s.blocks, s.tbs, s.tocChan) && TocTokenGuard(c, s, j)
    ensures var s' := ApplyTocToken(c, s, j); DrainFence(s'.drain, s'.blocks, s'.tbs, s'.tocChan)
  {
    var s' := ApplyTocToken(c, s, j);
    if s.drain.cleft == 1 { FreshFence(c, s'); } else { TokenInFence(c, s, j); }
  }

  lemma FreshFence(c: Config, s: State)
    requires s.drain == FreshDrain(c)
    ensures DrainFence(s.drain, s.blocks, s.tbs, s.tocChan)
  {
  }

  lemma TokenInFence(c: Config, s: State, j: nat)
    requires Core(c, s) && DrainFence(s.drain, s.blocks, s.tbs, s.tocChan) && TocTokenGuard(c, s, j)
    requires s.drain.cleft != 1
    ensures DrainFence(ApplyTocToken(c, s, j).drain, s.blocks, s.tbs, s.tocChan)
  {
    var d := ApplyTocToken(c, s, j).drain;
    PhaseOf(c, s);
    forall b: nat ensures BlockFence(d, s.blocks, b) {
      assert BlockFence(s.drain, s.blocks, b);
      assert BlockShape(c, s.blocks, s.clock, s.open, |s.files|, b);
    }
    forall x: nat ensures TbFence(d, s.tbs, x) { assert TbFence(s.drain, s.tbs, x); }
    forall t: nat ensures MsgFence(d, s.tocChan, t) { assert MsgFence(s.drain, s.tocChan, t); }
  }

  /** When the last token arrives nothing on its way belongs to a file below the mark. */
  lemma NothingBelowMark(c: Config, s: State, j: nat, f: nat)
    requires Core(c, s) && DrainFence(s.drain, s.blocks, s.tbs, s.tocChan)
    requires TocTokenGuard(c, s, j) && s.drain.cleft == 1 && f < s.drain.fmark
    ensures Above(s, f)
  {
    PhaseOf(c, s);
    LastClearToken(s.drain.ctok, j);
    forall b: nat ensures BlockAbove(s.blocks, f, b) {
      assert BlockFence(s.drain, s.blocks, b);
      assert BlockShape(c, s.blocks, s.clock, s.open, |s.files|, b);
    }
    forall x: nat ensures TbAbove(s.tbs, f, x) { assert TbFence(s.drain, s.tbs, x); }
    forall t: nat ensures MsgAbove(s.tocChan, f, t) { assert MsgFence(s.drain, s.tocChan, t); }
  }

  lemma StartQuiet(c: Config, s: State, shutdown: bool)
    requires Shape(c, s) && StartDrainGuard(c, s)
    ensures Quiet(s, Pipeline.Apply(c, s, StartDrain(shutdown)))
  {
  }

  lemma WriterTokenQuiet(c: Config, s: State, w: nat)
    requires Shape(c, s) && WriterTokenGuard(c, s, w)
    ensures Quiet(s, Pipeline.Apply(c, s, WriterToken(w)))
  {
  }

  lemma ClearTokenQuiet(c: Config, s: State, j: nat)
    requires Shape(c, s) && ClearTokenGuard(c, s, j)
    ensures Quiet(s, Pipeline.Apply(c, s, ClearToken(j)))
  {
  }

  lemma FileTokenQuiet(c: Config, s: State, w: nat)
    requires w < |s.drain.wtok|
    ensures Quiet(s, ApplyFileToken(c, s, w))
  {
  }

  lemma TocTokenQuiet(c: Config, s: State, j: nat)
    requires j < |s.drain.ctok|
    ensures Quiet(s, ApplyTocToken(c, s, j))
  {
  }

  /** Tokens touch nothing that is on its way. */
  lemma TokenQuiet(c: Config, s: State, a: Step)
    requires Shape(c, s) && Enabled(c, s, a) && TokenStep(a)
    ensures Quiet(s, Pipeline.Apply(c, s, a))
  {
    if a.StartDrain? {
      StartQuiet(c, s, a.shutdown);
    } else if a.WriterToken? {
      WriterTokenQuiet(c, s, a.w);
    } else if a.ClearToken? {
      ClearTokenQuiet(c, s, a.j);
    } else if a.FileToken? {
      FileTokenQuiet(c, s, a.w);
    } else {
      TocTokenQuiet(c, s, a.j);
    }
  }

  lemma RestartAbove(c: Config, s: State, f: nat)
    requires Above(s, f)
    ensures Above(ApplyRestart(c, s), f)
  {
  }

  // ---------------------------------------------------------------- every step

  lemma StepKeepsAbove(c: Config, s: State, a: Step, f: nat)
    requires Core(c, s) && DrainFence(s.drain, s.blocks, s.tbs, s.tocChan) && Enabled(c, s, a) && Above(s, f)
    ensures Above(Pipeline.Apply(c, s, a), f)
  {
    var s' := Pipeline.Apply(c, s, a);
    if QuietStep(a) {
      IsQuiet(c, s, a);
      QuietAbove(s, s', f);
    } else if a.WriteBlock? || a.Release? || a.ClearTake? {
      PageKeeps(c, s, a);
      OnePageAbove(s, s', a.b, f);
    } else if a.ClearRec? {
      ClearIsOneRecord(s, a.b);
      ClearAbove(s, s', a.b, f);
    } else if a.TbSend? {
      SendAbove(c, s, a.j, f);
    } else if a.TocTake? {
      TakeAbove(s, a.t, f);
    } else if a.Restart? {
      RestartAbove(c, s, f);
    } else {
      TokenQuiet(c, s, a);
      QuietAbove(s, s', f);
    }
  }

  lemma StartFence(c: Config, s: State, a: Step)
    requires Core(c, s) && Enabled(c, s, a) && (a.StartDrain? || a.WriterToken? || a.Restart?)
    requires DrainFence(s.drain, s.blocks, s.tbs, s.tocChan)
    ensures var s' := Pipeline.Apply(c, s, a); DrainFence(s'.drain, s'.blocks, s'.tbs, s'.tocChan)
  {
    var s' := Pipeline.Apply(c, s, a);
    forall b: nat ensures BlockFence(s'.drain, s'.blocks, b) { assert BlockFence(s.drain, s.blocks, b); }
    forall j: nat ensures TbFence(s'.drain, s'.tbs, j) { assert TbFence(s.drain, s.tbs, j); }
    forall t: nat ensures MsgFence(s'.drain, s'.tocChan, t) { assert MsgFence(s.drain, s.tocChan, t); }
  }

  lemma StepKeepsDrainFence(c: Config, s: State, a: Step)
    requires Core(c, s) && DrainFence(s.drain, s.blocks, s.tbs, s.tocChan) && Enabled(c, s, a)
    ensures var s' := Pipeline.Apply(c, s, a); DrainFence(s'.drain, s'.blocks, s'.tbs, s'.tocChan)
  {
    var s' := Pipeline.Apply(c, s, a);
    if QuietStep(a) {
      IsQuiet(c, s, a);
      QuietFence(s, s');
    } else if a.WriteBlock? || a.Release? || a.ClearTake? {
      PageKeeps(c, s, a);
      OnePageFence(s, s', a.b);
    } else if a.ClearRec? {
      ClearIsOneRecord(s, a.b);
      ClearKeepsFence(s, s', a.b);
    } else if a.TbSend? {
      SendKeepsFence(c, s, a.j);
    } else if a.TocTake? {
      TakeKeepsFence(s, a.t);
    } else if a.FileToken? {
      FileTokenFence(c, s, a.w);
    } else if a.ClearToken? {
      ClearTokenFence(c, s, a.j);
    } else if a.TocToken? {
      TocTokenFence(c, s, a.j);
    } else {
      StartFence(c, s, a);
    }
  }

  // ---------------------------------------------------------------- what was flushed

  lemma RecordFlushed(c: Config, s: State, w: nat, n: nat)
    requires Inv(c, s) && RecordGuard(c, s, w) && WriterShape(s.writers, s.blocks, w) && n < s.flushed
    ensures ApplyRecord(s, w).place[n] == s.place[n] && ApplyRecord(s, w).flushed == s.flushed
  {
    assert SafeAt(s, n);
    assert PcOk(s.writers, s.blocks, s.log, s.place, w);
  }

  lemma MapFlushed(s: State, w: nat)
    requires w < |s.writers| && s.writers[w].Copied?
    ensures var s' := ApplyPlace(s, w);
            s'.flushed == s.flushed && |s.place| <= |s'.place| && s'.place[..|s.place|] == s.place
  {
  }

  lemma ClearFlushed(c: Config, s: State, b: nat, n: nat)
    requires Inv(c, s) && ClearRecGuard(c, s, b) && n < s.flushed
    ensures ApplyClearRec(s, b).place[n] == s.place[n] && ApplyClearRec(s, b).flushed == s.flushed
  {
    assert SafeAt(s, n);
    assert MemRecOk(s.blocks, s.writers, s.log, s.place, b, s.blocks[b].owner.pos);
  }

  lemma SendFlushed(c: Config, s: State, j: nat, n: nat)
    requires Inv(c, s) && TbSendGuard(c, s, j) && n < s.flushed
    ensures ApplyTbSend(s, j).place[n] == s.place[n] && ApplyTbSend(s, j).flushed == s.flushed
  {
    assert SafeAt(s, n);
  }

  lemma TakeFlushed(c: Config, s: State, t: nat, n: nat)
    requires Inv(c, s) && Fenced(s) && TocTakeGuard(c, s, t) && n < s.flushed
    ensures ApplyTocTake(s, t).place[n] == s.place[n] && ApplyTocTake(s, t).flushed == s.flushed
  {
    assert SafeAt(s, n) && FlushedAbove(s, n);
    if s.place[n].InToc? { assert MsgAbove(s.tocChan, s.place[n].f, t); }
  }

  /** Where the record of a flushed entry is never changes again. */
  lemma FlushedPlaceStays(c: Config, s: State, a: Step, n: nat)
    requires Inv(c, s) && Fenced(s) && Enabled(c, s, a) && n < s.flushed
    ensures var s' := Pipeline.Apply(c, s, a); n < |s'.place| && s'.place[n] == s.place[n]
  {
    if a.PlaceInMap? {
      MapFlushed(s, a.w);
      assert s.place[n] == ApplyPlace(s, a.w).place[..|s.place|][n];
    } else if a.Record? {
      assert WriterShape(s.writers, s.blocks, a.w);
      RecordFlushed(c, s, a.w, n);
    } else if a.ClearRec? {
      ClearFlushed(c, s, a.b, n);
    } else if a.TbSend? {
      SendFlushed(c, s, a.j, n);
    } else if a.TocTake? {
      TakeFlushed(c, s, a.t, n);
    } else {
      PlacesKept(c, s, a);
    }
  }

  lemma FlushedWas(c: Config, s: State, a: Step)
    requires Shape(c, s) && Enabled(c, s, a) && !a.TocToken?
    ensures Pipeline.Apply(c, s, a).flushed == s.flushed
  {
    if a.StartDrain? {
      StartPlaces(c, s, a);
    } else if ModeStill(a) {
      ModeIsKept(c, s, a);
    }
  }

  lemma TokenFlushes(c: Config, s: State, j: nat)
    requires j < |s.drain.ctok| && s.flushed <= |s.log| && (s.mode.Draining? ==> s.flushed <= s.mode.mark)
    ensures s.flushed <= ApplyTocToken(c, s, j).flushed
  {
  }

  /** And what was flushed stays flushed. */
  lemma FlushedStays(c: Config, s: State, a: Step, n: nat)
    requires Inv(c, s) && Fenced(s) && Enabled(c, s, a) && n < s.flushed
    ensures var s' := Pipeline.Apply(c, s, a); n < s'.flushed && n < |s'.place| && s'.place[n] == s.place[n]
  {
    FlushedPlaceStays(c, s, a, n);
    if a.TocToken? { TokenFlushes(c, s, a.j); } else { FlushedWas(c, s, a); }
  }

  /** An entry is covered anew only by the last token of a drain, and then nothing on its way belongs to its file. */
  lemma NewlyFlushed(c: Config, s: State, a: Step, n: nat)
    requires Inv(c, s) && Fenced(s) && Enabled(c, s, a) && a.TocToken?
    ensures FlushedAbove(Pipeline.Apply(c, s, a), n)
  {
    var s' := Pipeline.Apply(c, s, a);
    assert FlushedAbove(s, n);
    if n < s'.flushed && n < |s'.place| && s'.place[n].InToc? {
      if s.drain.cleft == 1 {
        DrainedRecord(c, s, a.j, n);
        NothingBelowMark(c, s, a.j, s.place[n].f);
      }
      StepKeepsAbove(c, s, a, s.place[n].f);
    }
  }

  lemma StepKeepsMark(c: Config, s: State, a: Step)
    requires Inv(c, s) && Enabled(c, s, a) && (s.mode.Draining? ==> s.flushed <= s.mode.mark)
    ensures var s' := Pipeline.Apply(c, s, a); s'.mode.Draining? ==> s'.flushed <= s'.mode.mark
  {
    if ModeStill(a) { ModeIsKept(c, s, a); }
  }

  lemma StartCounts(c: Config, s: State, a: Step)
    requires Shape(c, s) && Enabled(c, s, a) && (a.StartDrain? || a.WriterToken? || a.ClearToken? || a.Restart?)
    requires Counting(s.drain)
    ensures Counting(Pipeline.Apply(c, s, a).drain)
  {
  }

  lemma FileTokenCounts(c: Config, s: State, w: nat)
    requires w < |s.drain.wtok| && c.workers >= 1 && Counting(s.drain)
    ensures Counting(ApplyFileToken(c, s, w).drain)
  {
  }

  lemma TocTokenCounts(c: Config, s: State, j: nat)
    requires j < |s.drain.ctok| && c.workers >= 1 && Counting(s.drain)
    ensures Counting(ApplyTocToken(c, s, j).drain)
  {
  }

  lemma StepKeepsCounts(c: Config, s: State, a: Step)
    requires Shape(c, s) && Enabled(c, s, a) && Counting(s.drain)
    ensures Counting(Pipeline.Apply(c, s, a).drain)
  {
    if a.FileToken? {
      FileTokenCounts(c, s, a.w);
    } else if a.TocToken? {
      TocTokenCounts(c, s, a.j);
    } else if TokenStep(a) || a.Restart? {
      StartCounts(c, s, a);
    } else {
      ControlKept(c, s, a);
    }
  }

  /** Every step keeps the fence. */
  lemma StepKeepsFence(c: Config, s: State, a: Step)
    requires Inv(c, s) && Fenced(s) && Enabled(c, s, a)
    ensures Fenced(Pipeline.Apply(c, s, a))
  {
    var s' := Pipeline.Apply(c, s, a);
    StepKeepsDrainFence(c, s, a);
    forall n: nat ensures FlushedAbove(s', n) {
      if a.TocToken? {
        NewlyFlushed(c, s, a, n);
      } else {
        FlushedWas(c, s, a);
        if n < s'.flushed {
          FlushedStays(c, s, a, n);
          assert FlushedAbove(s, n);
          if s.place[n].InToc? { StepKeepsAbove(c, s, a, s.place[n].f); }
        }
      }
    }
    StepKeepsMark(c, s, a);
    StepKeepsCounts(c, s, a);
  }

  // ---------------------------------------------------------------- runs

  lemma {:induction false} RunKeepsFence(c: Config, states: seq<State>, steps: seq<Step>, i: nat)
    requires Run(c, states, steps) && i < |states|
    ensures Inv(c, states[i]) && Fenced(states[i])
  {
    RunKeepsInv(c, states, steps, i);
    if i > 0 {
      RunKeepsFence(c, states, steps, i - 1);
      assert StepAt(c, states, steps, i - 1);
      StepKeepsFence(c, states[i - 1], steps[i - 1]);
    } else {
      FreshFence(c, states[0]);
    }
  }

  /** The record of an entry that a completed flush covered stays where it is for the rest of the run. */
  lemma {:induction false} FlushedStaysPut(c: Config, states: seq<State>, steps: seq<Step>, i: nat, j: nat, n: nat)
    requires Run(c, states, steps) && i <= j < |states| && n < states[i].flushed
    ensures n < states[j].flushed && n < |states[i].place| && n < |states[j].place|
    ensures states[j].place[n] == states[i].place[n]
    decreases j
  {
    RunKeepsInv(c, states, steps, j);
    if i < j {
      FlushedStaysPut(c, states, steps, i, j - 1, n);
      RunKeepsFence(c, states, steps, j - 1);
      assert StepAt(c, states, steps, j - 1);
      FlushedStays(c, states[j - 1], steps[j - 1], n);
    }
  }

  /** Durable for good: a write that a flush has brought to disk is on disk, or replaced by a newer one, in every
      later state of the run, whatever TOC files are created anew and however often the store is stopped and
      restarted. */
  lemma DurableForGood(c: Config, states: seq<State>, steps: seq<Step>, i: nat, j: nat, n: nat)
    requires Run(c, states, steps) && i <= j < |states|
    requires n < states[i].flushed && !LostAt(states[i], n)
    ensures OnDisk(states[j], n) || Replaced(states[j], n)
  {
    FlushedStaysPut(c, states, steps, i, j, n);
    RunKeepsInv(c, states, steps, j);
    FlushedIsDurable(c, states[j], n);
  }

  /** Which records a step loses: exactly the unflushed ones in a closed TOC file that it creates anew. */
  lemma LosesExactly(c: Config, s: State, a: Step, n: nat)
    requires Inv(c, s) && Fenced(s) && Enabled(c, s, a)
    ensures LostAt(Pipeline.Apply(c, s, a), n) && !LostAt(s, n) <==>
            Recreates(s, a) && s.flushed <= n < |s.place| && s.place[n].InToc? && s.place[n].f == s.tocChan[a.t].tb.file
  {
    LostExactly(c, s, a, n);
    if n < s.flushed { FlushedStays(c, s, a, n); }
  }

  // ---------------------------------------------------------------- what is on disk stays there

  /** A closed value file stays closed, with its bytes, and the log only grows. */
  ghost predicate ClosedStay(s: State, s': State)
  {
    && s.log <= s'.log
    && forall f: nat {:trigger FileClosed(s, f)} :: FileClosed(s, f) && f < |s.disk| ==>
         FileClosed(s', f) && f < |s'.disk| && s'.files[f] == s.files[f] && s'.disk[f] == s.disk[f]
  }

  lemma FileClosedStay(c: Config, s: State, a: Step)
    requires Shape(c, s) && Enabled(c, s, a) && FileStep(a)
    ensures ClosedStay(s, Pipeline.Apply(c, s, a))
  {
  }

  lemma StepClosedStay(c: Config, s: State, a: Step)
    requires Inv(c, s) && Enabled(c, s, a)
    ensures ClosedStay(s, Pipeline.Apply(c, s, a))
  {
    if FileStep(a) {
      FileClosedStay(c, s, a);
    } else if !a.Restart? {
      StorageKept(c, s, a);
    }
  }

  lemma CarriesStays(s: State, s': State, n: nat, f: nat)
    requires ClosedStay(s, s') && Carries(s, n, f) && f in s'.tocs && s'.tocs[f] == s.tocs[f]
    ensures Carries(s', n, f)
  {
    var i: nat :| CarriesAt(s, n, f, i);
    assert CarriesAt(s', n, f, i);
  }

  /** A closed TOC file stays closed, with its records. */
  ghost predicate TocStays(s: State, s': State, f: nat)
  {
    TocClosed(s, f) ==> TocClosed(s', f) && s'.tocs[f] == s.tocs[f]
  }

  lemma TokenTocs(c: Config, s: State, j: nat, f: nat)
    requires j < |s.drain.ctok|
    ensures TocStays(s, ApplyTocToken(c, s, j), f)
  {
  }

  lemma TakeTocs(s: State, t: nat, f: nat)
    requires t in s.tocChan
    requires (s.tocA.Some? ==> s.tocA.value in s.tocs) && (s.tocB.Some? ==> s.tocB.value in s.tocs)
    requires !Recreates(s, TocTake(t)) || f != s.tocChan[t].tb.file
    ensures TocStays(s, ApplyTocTake(s, t), f)
  {
  }

  lemma StepTocs(c: Config, s: State, a: Step, f: nat)
    requires Shape(c, s) && Enabled(c, s, a) && (!Recreates(s, a) || f != s.tocChan[a.t].tb.file)
    ensures TocStays(s, Pipeline.Apply(c, s, a), f)
  {
    if a.TocTake? {
      TakeTocs(s, a.t, f);
    } else if a.TocToken? {
      TokenTocs(c, s, a.j, f);
    } else if !a.Restart? {
      TocsKept(c, s, a);
    }
  }

  /** Creating a TOC file anew opens it, closes the older of the two open ones, and touches nothing else. */
  lemma AnewTocs(s: State, t: nat, f: nat)
    requires t in s.tocChan && Recreates(s, TocTake(t))
    requires (s.tocA.Some? ==> s.tocA.value in s.tocs) && (s.tocB.Some? ==> s.tocB.value in s.tocs)
    ensures var s', g := ApplyTocTake(s, t), s.tocChan[t].tb.file;
            && (TocClosed(s', f) <==> f in s.tocs && f != g && s.tocA != Some(f))
            && (TocClosed(s', f) ==> s'.tocs[f] == s.tocs[f])
            && s'.files == s.files && s'.disk == s.disk && s'.open == s.open && s'.log == s.log
  {
  }

  /** The file created anew is the only one that restores log[n], but for the newest open one. */
  ghost predicate OnlyThere(s: State, n: nat, g: nat)
  {
    forall f: nat :: Carries(s, n, f) ==> f == g || s.tocA == Some(f)
  }

  /** When a step takes a write off the disk: exactly when tocWriter creates anew a closed TOC file that alone
      restores it; no other step of any goroutine does. */
  lemma OffDiskExactly(c: Config, s: State, a: Step, n: nat)
    requires Inv(c, s) && Enabled(c, s, a) && OnDisk(s, n)
    ensures !OnDisk(Pipeline.Apply(c, s, a), n) <==> Recreates(s, a) && OnlyThere(s, n, s.tocChan[a.t].tb.file)
  {
    if Recreates(s, a) {
      AnewExactly(c, s, a.t, n);
    } else {
      var f: nat :| TocClosed(s, f) && Carries(s, n, f);
      StepClosedStay(c, s, a);
      StepTocs(c, s, a, f);
      CarriesStays(s, Pipeline.Apply(c, s, a), n, f);
    }
  }

  lemma AnewExactly(c: Config, s: State, t: nat, n: nat)
    requires Core(c, s) && TocTakeGuard(c, s, t) && Recreates(s, TocTake(t))
    ensures !OnDisk(ApplyTocTake(s, t), n) <==> OnlyThere(s, n, s.tocChan[t].tb.file)
  {
    var s', g := ApplyTocTake(s, t), s.tocChan[t].tb.file;
    forall f: nat ensures TocClosed(s', f) && Carries(s', n, f) <==> Carries(s, n, f) && f != g && s.tocA != Some(f) {
      AnewTocs(s, t, f);
      if TocClosed(s', f) && Carries(s', n, f) {
        var i: nat :| CarriesAt(s', n, f, i);
        assert CarriesAt(s, n, f, i);
      }
      if Carries(s, n, f) && f != g && s.tocA != Some(f) {
        var i: nat :| CarriesAt(s, n, f, i);
        assert CarriesAt(s', n, f, i);
      }
    }
  }

  /** Nor does it ever take one off that a completed flush had covered and that was on disk, unless it is replaced. */
  lemma FlushedNeverOff(c: Config, s: State, a: Step, n: nat)
    requires Inv(c, s) && Fenced(s) && Enabled(c, s, a) && n < s.flushed && !LostAt(s, n)
    ensures var s' := Pipeline.Apply(c, s, a); OnDisk(s', n) || Replaced(s', n)
  {
    StepKeepsInv(c, s, a);
    FlushedStays(c, s, a, n);
    FlushedIsDurable(c, Pipeline.Apply(c, s, a), n);
  }
}
