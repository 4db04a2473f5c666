/** Under the source's limits nothing outgrows its buffer: no page holds more bytes or records than its size has room
    for, and no TOC block more records. */
module PipelineRoom {
  import opened Base
  import opened LocMap
  import opened Pipeline
  import opened PipelineDisk
  import opened PipelineRuns
  import opened PipelineLimits

  predicate PageFits(l: Limits, blk: Block, more: nat)
  {
    |blk.values| <= l.page && ENTRY_SIZE * (|blk.recs| + more) <= l.page
  }

  predicate TbFits(l: Limits, tb: TocBlock) { LEADER_SIZE + ENTRY_SIZE * |tb.recs| <= l.page }

  ghost predicate PageAt(l: Limits, blocks: seq<Block>, b: nat) { b < |blocks| ==> PageFits(l, blocks[b], 0) }

  /** A memWriter busy with a request has room for its record. */
  ghost predicate RecordAt(l: Limits, blocks: seq<Block>, writers: seq<Pc>, w: nat)
  {
    w < |writers| && !writers[w].Idle? && writers[w].b < |blocks| ==> PageFits(l, blocks[writers[w].b], 1)
  }

  ghost predicate PagesFit(l: Limits, blocks: seq<Block>, writers: seq<Pc>)
  {
    && (forall b: nat :: PageAt(l, blocks, b))
    && (forall w: nat :: RecordAt(l, blocks, writers, w))
  }

  ghost predicate TbsFit(l: Limits, tbs: seq<Option<TocBlock>>, tocChan: map<nat, TocMsg>)
  {
    && (forall j :: 0 <= j < |tbs| && tbs[j].Some? ==> TbFits(l, tbs[j].value))
    && (forall t :: t in tocChan ==> TbFits(l, tocChan[t].tb))
  }

  ghost predicate Fits(l: Limits, s: State) { PagesFit(l, s.blocks, s.writers) && TbsFit(l, s.tbs, s.tocChan) }

  // ---------------------------------------------------------------- pages

  /** Steps by which memWriter w changes its page b without outgrowing it. */
  ghost predicate GrowsIn(l: Limits, s: State, s': State, w: nat, b: nat)
  {
    && b < |s.blocks| == |s'.blocks| && w < |s.writers| == |s'.writers| && s.blocks[b].owner == AtWriter(w)
    && (forall a :: 0 <= a < |s.blocks| && a != b ==> s'.blocks[a] == s.blocks[a])
    && (forall v :: 0 <= v < |s.writers| && v != w ==> s'.writers[v] == s.writers[v])
    && PageFits(l, s'.blocks[b], 0)
    && (s'.writers[w].Idle? || (s'.writers[w].b == b && PageFits(l, s'.blocks[b], 1)))
    && s'.tbs == s.tbs && s'.tocChan == s.tocChan
  }

  lemma GrownFits(l: Limits, s: State, s': State, w: nat, b: nat)
    requires GrowsIn(l, s, s', w, b) && Fits(l, s) && WritersShape(s.writers, s.blocks)
    ensures Fits(l, s')
  {
    forall a: nat ensures PageAt(l, s'.blocks, a) { assert PageAt(l, s.blocks, a); }
    forall v: nat ensures RecordAt(l, s'.blocks, s'.writers, v) {
      assert RecordAt(l, s.blocks, s.writers, v) && WriterShape(s.writers, s.blocks, v);
    }
  }

  lemma ExtendGrows(c: Config, l: Limits, s: State, w: nat, b: nat, req: Req, junk: Bytes)
    requires w < |s.writers| && b < |s.blocks| && s.blocks[b].owner == AtWriter(w)
    requires |junk| == Alloc(c, |req.val|) && FitsPage(c, l, s.blocks[b], req)
    ensures GrowsIn(l, s, ApplyExtend(s, w, b, req, junk), w, b)
  {
  }

  lemma CopyGrows(l: Limits, s: State, w: nat)
    requires w < |s.writers| && s.writers[w].Extended? && WriterShape(s.writers, s.blocks, w)
    requires PageFits(l, s.blocks[s.writers[w].b], 1)
    ensures GrowsIn(l, s, ApplyCopy(s, w), w, s.writers[w].b)
  {
  }

  lemma PlaceGrows(l: Limits, s: State, w: nat)
    requires w < |s.writers| && s.writers[w].Copied? && WriterShape(s.writers, s.blocks, w)
    requires PageFits(l, s.blocks[s.writers[w].b], 1)
    ensures GrowsIn(l, s, ApplyPlace(s, w), w, s.writers[w].b)
  {
  }

  lemma EndGrows(l: Limits, s: State, w: nat)
    requires w < |s.writers| && s.writers[w].Placed? && WriterShape(s.writers, s.blocks, w)
    requires PageFits(l, s.blocks[s.writers[w].b], 1)
    ensures GrowsIn(l, s, ApplyRecord(s, w), w, s.writers[w].b)
    ensures GrowsIn(l, s, ApplyTruncate(s, w), w, s.writers[w].b)
  {
  }

  lemma RequestGrows(c: Config, l: Limits, s: State, a: Step)
    requires Shape(c, s) && Enabled(c, s, a) && Fits(l, s) && (a.Copy? || a.PlaceInMap? || a.Record? || a.Truncate?)
    ensures GrowsIn(l, s, Pipeline.Apply(c, s, a), a.w, s.writers[a.w].b)
  {
    assert RecordAt(l, s.blocks, s.writers, a.w) && WriterShape(s.writers, s.blocks, a.w);
    if a.Copy? {
      CopyGrows(l, s, a.w);
    } else if a.PlaceInMap? {
      PlaceGrows(l, s, a.w);
    } else {
      EndGrows(l, s, a.w);
    }
  }

  /** Steps that leave what pages hold, or empty them. */
  ghost predicate SamePages(s: State, s': State)
  {
    && |s'.blocks| == |s.blocks| && s'.writers == s.writers
    && forall b :: 0 <= b < |s.blocks| ==>
         || s'.blocks[b] == EMPTY_BLOCK
         || (s'.blocks[b].values == s.blocks[b].values && s'.blocks[b].recs == s.blocks[b].recs)
  }

  lemma SamePagesFit(l: Limits, s: State, s': State)
    requires SamePages(s, s') && PagesFit(l, s.blocks, s.writers) && l.page >= ENTRY_SIZE
    ensures PagesFit(l, s'.blocks, s'.writers)
  {
    forall b: nat ensures PageAt(l, s'.blocks, b) { assert PageAt(l, s.blocks, b); }
    forall w: nat ensures RecordAt(l, s'.blocks, s'.writers, w) { assert RecordAt(l, s.blocks, s.writers, w); }
  }

  ghost predicate SameRoom(s: State, s': State) { SamePages(s, s') && s'.tbs == s.tbs && s'.tocChan == s.tocChan }

  lemma OwnerRoom(c: Config, s: State, a: Step)
    requires Shape(c, s) && Enabled(c, s, a) && (a.TakeFree? || a.Seal? || a.ClearTake? || a.ClearDone?)
    ensures SameRoom(s, Pipeline.Apply(c, s, a))
  {
  }

  lemma FileRoom(c: Config, s: State, a: Step)
    requires Shape(c, s) && Enabled(c, s, a) && FileStep(a)
    ensures SameRoom(s, Pipeline.Apply(c, s, a))
  {
  }

  lemma FileTokenRoom(c: Config, s: State, w: nat)
    requires w < |s.drain.wtok|
    ensures SameRoom(s, ApplyFileToken(c, s, w))
  {
  }

  lemma TocTokenRoom(c: Config, s: State, j: nat)
    requires j < |s.drain.ctok|
    ensures SameRoom(s, ApplyTocToken(c, s, j))
  {
  }

  lemma StartRoom(c: Config, s: State, a: Step)
    requires Shape(c, s) && Enabled(c, s, a) && (a.StartDrain? || a.WriterToken? || a.ClearToken?)
    ensures SameRoom(s, Pipeline.Apply(c, s, a))
  {
  }

  lemma TokenRoom(c: Config, s: State, a: Step)
    requires Shape(c, s) && Enabled(c, s, a) && TokenStep(a)
    ensures SameRoom(s, Pipeline.Apply(c, s, a))
  {
    if a.FileToken? {
      FileTokenRoom(c, s, a.w);
    } else if a.TocToken? {
      TocTokenRoom(c, s, a.j);
    } else {
      StartRoom(c, s, a);
    }
  }

  // ---------------------------------------------------------------- TOC blocks

  lemma SendRoom(l: Limits, s: State, j: nat)
    requires j < |s.tbs| && s.tbs[j].Some? && TbsFit(l, s.tbs, s.tocChan)
    ensures var s' := ApplyTbSend(s, j); SamePages(s, s') && TbsFit(l, s'.tbs, s'.tocChan)
  {
  }

  lemma TakeRoom(l: Limits, s: State, t: nat)
    requires t in s.tocChan && TbsFit(l, s.tbs, s.tocChan)
    requires (s.tocA.Some? ==> s.tocA.value in s.tocs) && (s.tocB.Some? ==> s.tocB.value in s.tocs)
    ensures var s' := ApplyTocTake(s, t); SamePages(s, s') && TbsFit(l, s'.tbs, s'.tocChan)
  {
  }

  lemma ClearRecRoom(c: Config, l: Limits, x: Bounded, b: nat)
    requires Sane(c, l) && Shape(c, x.s) && Enabled(c, x.s, ClearRec(b)) && Within(c, l, x, ClearRec(b))
    requires TbsFit(l, x.s.tbs, x.s.tocChan)
    ensures var s' := Pipeline.Apply(c, x.s, ClearRec(b)); SamePages(x.s, s') && TbsFit(l, s'.tbs, s'.tocChan)
  {
  }

  // ---------------------------------------------------------------- runs

  lemma PageStepFits(c: Config, l: Limits, x: Bounded, a: Step)
    requires Sane(c, l) && Fits(l, x.s) && Shape(c, x.s) && Enabled(c, x.s, a) && Within(c, l, x, a)
    requires ClearStep(a) || a.TakeFree? || a.Seal? || FileStep(a) || TokenStep(a)
    ensures Fits(l, Pipeline.Apply(c, x.s, a))
  {
    if a.ClearRec? {
      ClearRecRoom(c, l, x, a.b);
    } else if a.TbSend? {
      SendRoom(l, x.s, a.j);
    } else if a.TocTake? {
      TakeRoom(l, x.s, a.t);
    } else if FileStep(a) {
      FileRoom(c, x.s, a);
    } else if TokenStep(a) {
      TokenRoom(c, x.s, a);
    } else {
      OwnerRoom(c, x.s, a);
    }
    SamePagesFit(l, x.s, Pipeline.Apply(c, x.s, a));
  }

  lemma ReadFits(c: Config, l: Limits, s: State, a: Step)
    requires Sane(c, l) && Fits(l, s) && Shape(c, s) && Enabled(c, s, a)
    requires a.ReadStart? || a.ReadLock? || a.ReadCopy? || a.Restart?
    ensures Fits(l, Pipeline.Apply(c, s, a))
  {
  }

  lemma MoveKeepsRoom(c: Config, l: Limits, x: Bounded, m: Move, y: Bounded)
    requires Sane(c, l) && Fits(l, x.s) && Moves(c, l, x, m, y)
    ensures Fits(l, y.s)
  {
    if m.Do? {
      if m.a.Extend? {
        ExtendGrows(c, l, x.s, m.a.w, m.a.b, m.a.req, m.a.junk);
        GrownFits(l, x.s, y.s, m.a.w, m.a.b);
      } else if m.a.Copy? || m.a.PlaceInMap? || m.a.Record? || m.a.Truncate? {
        RequestGrows(c, l, x.s, m.a);
        GrownFits(l, x.s, y.s, m.a.w, x.s.writers[m.a.w].b);
      } else if m.a.ReadStart? || m.a.ReadLock? || m.a.ReadCopy? || m.a.Restart? {
        ReadFits(c, l, x.s, m.a);
      } else {
        PageStepFits(c, l, x, m.a);
      }
    }
  }

  lemma {:induction false} RunKeepsRoom(c: Config, l: Limits, states: seq<Bounded>, moves: seq<Move>, y: Bounded,
                                        i: nat)
    requires Sane(c, l) && Reached(c, l, states, moves, y) && i < |states|
    ensures Fits(l, states[i].s)
    decreases i
  {
    if i > 0 {
      RunKeepsRoom(c, l, states, moves, y, i - 1);
      assert MoveAt(c, l, states, moves, i - 1);
      MoveKeepsRoom(c, l, states[i - 1], moves[i - 1], states[i]);
    }
  }

  /** In every state of every run under the limits no page holds more bytes or records than its size has room for, and
      no TOC block, in a memClearer's hand or on its way, more than a page's worth of records and its leader. */
  lemma NothingOutgrows(c: Config, l: Limits, y: Bounded)
    requires Sane(c, l) && Reachable(c, l, y)
    ensures forall b :: 0 <= b < |y.s.blocks| ==>
              |y.s.blocks[b].values| <= l.page && ENTRY_SIZE * |y.s.blocks[b].recs| <= l.page
    ensures forall j :: 0 <= j < |y.s.tbs| && y.s.tbs[j].Some? ==>
              LEADER_SIZE + ENTRY_SIZE * |y.s.tbs[j].value.recs| <= l.page
    ensures forall t :: t in y.s.tocChan ==> LEADER_SIZE + ENTRY_SIZE * |y.s.tocChan[t].tb.recs| <= l.page
  {
    var states, moves :| Reached(c, l, states, moves, y);
    RunKeepsRoom(c, l, states, moves, y, |moves|);
    forall b | 0 <= b < |y.s.blocks| ensures PageFits(l, y.s.blocks[b], 0) { assert PageAt(l, y.s.blocks, b); }
  }
}
