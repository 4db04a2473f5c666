/** The memClearer and tocWriter steps keep the pipeline invariant. */
module PipelineToc {
  import opened Base
  import opened Stamp
  import opened LocMap
  import opened Pipeline
  import opened PipelineWriters
  import opened PipelineFiles

  lemma ClearTakeOk(c: Config, s: State, j: nat, b: nat)
    requires Core(c, s) && ClearTakeGuard(c, s, j, b)
    ensures Core(c, SetOwner(s, b, AtClearer(j, 0)))
  {
    var s' := SetOwner(s, b, AtClearer(j, 0));
    forall x: nat ensures WriterShape(s'.writers, s'.blocks, x) { assert WriterShape(s.writers, s.blocks, x); }
    forall x: nat ensures BlockShape(c, s'.blocks, s'.clock, s'.open, |s'.files|, x) {
      assert BlockShape(c, s.blocks, s.clock, s.open, |s.files|, x);
    }
    forall x: nat, i: nat ensures MemRecOk(s'.blocks, s'.writers, s'.log, s'.place, x, i) {
      assert MemRecOk(s.blocks, s.writers, s.log, s.place, x, i);
    }
    OwnerOnly(c, s, s', b, AtClearer(j, 0));
    forall n: nat ensures AheadOfToken(s'.place, s'.mode, s'.drain, s'.blocks, s'.tbs, s'.tocChan, n) {
      assert AheadOfToken(s.place, s.mode, s.drain, s.blocks, s.tbs, s.tocChan, n);
    }
  }

  // ---------------------------------------------------------------- one record

  /** The record as it is in the file selects the same value. */
  lemma ClearedRecOk(c: Config, s: State, b: nat)
    requires Core(c, s) && ClearRecGuard(c, s, b)
    ensures var blk := s.blocks[b];
            var r := blk.recs[blk.owner.pos];
            && r.wid < |s.place| && s.place[r.wid] == InMem(b, blk.owner.pos)
            && TocRecOk(s.files, s.log, blk.file, ClearedRec(blk, r))
            && (!Removal(r.ts) ==> r.len == |s.log[r.wid].val|)
  {
    var blk := s.blocks[b];
    var r := blk.recs[blk.owner.pos];
    assert MemRecOk(s.blocks, s.writers, s.log, s.place, b, blk.owner.pos);
    assert BlockInFile(s.blocks, s.files, b);
    SliceOfSlice(s.files[blk.file], blk.foff, |blk.values|, r.off, r.off + r.len);
  }

  /** What processing one record changes outside the location map. */
  ghost predicate ClearEffect(s: State, s': State, b: nat, j: nat, pos: nat, r: Rec)
  {
    && b < |s.blocks| && s.blocks[b].owner == AtClearer(j, pos) && pos < |s.blocks[b].recs|
    && s.blocks[b].recs[pos] == r
    && j < |s.tbs| && r.wid < |s.place| && s.place[r.wid] == InMem(b, pos)
    && (s.tbs[j].Some? ==> s.tbs[j].value.file == s.blocks[b].file)
    && |s'.blocks| == |s.blocks| && s'.blocks[b] == s.blocks[b].(owner := AtClearer(j, pos + 1))
    && (forall x :: 0 <= x < |s.blocks| && x != b ==> s'.blocks[x] == s.blocks[x])
    && |s'.place| == |s.place| && (forall x :: 0 <= x < |s.place| && x != r.wid ==> s'.place[x] == s.place[x])
    && |s'.tbs| == |s.tbs| && (forall x :: 0 <= x < |s.tbs| && x != j ==> s'.tbs[x] == s.tbs[x])
    && (if TsOf(s.loc, r.key) > r.ts then
          s'.tbs[j] == s.tbs[j] && s'.place[r.wid] == Superseded(s.loc[r.key].aux)
        else
          var recs := if s.tbs[j].Some? then s.tbs[j].value.recs else [];
          && s'.tbs[j] == Some(TocBlock(s.blocks[b].file, recs + [ClearedRec(s.blocks[b], r)]))
          && s'.place[r.wid] == InTb(j, |recs|))
    && s'.log == s.log && s'.writers == s.writers && s'.tocChan == s.tocChan && s'.tocs == s.tocs
    && s'.files == s.files && s'.mode == s.mode && s'.drain == s.drain
  }

  lemma ClearHasEffect(c: Config, s: State, b: nat)
    requires Core(c, s) && ClearRecGuard(c, s, b)
    ensures var blk := s.blocks[b];
            ClearEffect(s, ApplyClearRec(s, b), b, blk.owner.j, blk.owner.pos, blk.recs[blk.owner.pos])
  {
    ClearedRecOk(c, s, b);
  }

  lemma ClearKeepsMem(s: State, s': State, b: nat, j: nat, pos: nat, r: Rec)
    requires ClearEffect(s, s', b, j, pos, r)
    requires MemRecsOk(s.blocks, s.writers, s.log, s.place) && PcsOk(s.writers, s.blocks, s.log, s.place)
    ensures MemRecsOk(s'.blocks, s'.writers, s'.log, s'.place)
    ensures PcsOk(s'.writers, s'.blocks, s'.log, s'.place)
  {
    forall x: nat, i: nat ensures MemRecOk(s'.blocks, s'.writers, s'.log, s'.place, x, i) {
      assert MemRecOk(s.blocks, s.writers, s.log, s.place, x, i);
    }
    forall x: nat ensures PcOk(s'.writers, s'.blocks, s'.log, s'.place, x) {
      assert PcOk(s.writers, s.blocks, s.log, s.place, x);
    }
  }

  lemma ClearKeepsBlocks(c: Config, s: State, s': State, b: nat, j: nat, pos: nat, r: Rec)
    requires ClearEffect(s, s', b, j, pos, r) && s'.readers == s.readers
    requires WritersShape(s.writers, s.blocks) && BlocksShape(c, s.blocks, s.clock, s.open, |s.files|)
    requires BlocksInFile(s.blocks, s.files) && ReadersOk(s.readers, s.log, s.blocks, s.writers)
    ensures WritersShape(s'.writers, s'.blocks)
    ensures BlocksShape(c, s'.blocks, s.clock, s.open, |s.files|)
    ensures BlocksInFile(s'.blocks, s'.files)
    ensures ReadersOk(s'.readers, s'.log, s'.blocks, s'.writers)
  {
    forall x: nat ensures WriterShape(s'.writers, s'.blocks, x) { assert WriterShape(s.writers, s.blocks, x); }
    forall x: nat ensures BlockShape(c, s'.blocks, s.clock, s.open, |s.files|, x) {
      assert BlockShape(c, s.blocks, s.clock, s.open, |s.files|, x);
    }
    forall x: nat ensures BlockInFile(s'.blocks, s'.files, x) { assert BlockInFile(s.blocks, s.files, x); }
    forall i | 0 <= i < |s'.readers| ensures ReaderOk(s'.readers[i], s'.log, s'.blocks, s'.writers) {
      assert ReaderOk(s.readers[i], s.log, s.blocks, s.writers);
    }
  }

  lemma ClearKeepsTbs(s: State, s': State, b: nat, j: nat, pos: nat, r: Rec)
    requires ClearEffect(s, s', b, j, pos, r) && TbRecsOk(s.tbs, s.files, s.log)
    requires TocRecOk(s.files, s.log, s.blocks[b].file, ClearedRec(s.blocks[b], r))
    ensures TbRecsOk(s'.tbs, s'.files, s'.log)
  {
    forall x | 0 <= x < |s'.tbs| && s'.tbs[x].Some?
      ensures RecsOk(s'.files, s'.log, s'.tbs[x].value.file, s'.tbs[x].value.recs)
    {
      if s.tbs[x].Some? { assert RecsOk(s.files, s.log, s.tbs[x].value.file, s.tbs[x].value.recs); }
    }
  }

  lemma ClearKeepsPlaces(s: State, s': State, b: nat, j: nat, pos: nat, r: Rec)
    requires ClearEffect(s, s', b, j, pos, r) && PlacesOk(s) && |s.place| == |s.log|
    requires Labelled(s.log, r)
    requires r.key in s.loc ==>
               s.loc[r.key].aux < |s.log| && s.log[s.loc[r.key].aux].key == r.key
               && s.log[s.loc[r.key].aux].ts == s.loc[r.key].ts
    ensures PlacesOk(s')
  {
    forall n: nat ensures PlaceOk(s', n) { assert PlaceOk(s, n); }
  }

  lemma ClearKeepsDrain(s: State, s': State, b: nat, j: nat, pos: nat, r: Rec)
    requires ClearEffect(s, s', b, j, pos, r) && DrainOk(s.place, s.mode, s.drain, s.blocks, s.tbs, s.tocChan)
    ensures DrainOk(s'.place, s'.mode, s'.drain, s'.blocks, s'.tbs, s'.tocChan)
  {
    forall n: nat ensures AheadOfToken(s'.place, s'.mode, s'.drain, s'.blocks, s'.tbs, s'.tocChan, n) {
      assert AheadOfToken(s.place, s.mode, s.drain, s.blocks, s.tbs, s.tocChan, n);
    }
  }

  /** The map after memClearer's Set: the key moves to the file, unless a newer entry is there. */
  lemma ClearKeepsLocs(s: State, s': State, b: nat, j: nat, pos: nat, r: Rec)
    requires ClearEffect(s, s', b, j, pos, r)
    requires s'.loc == Set(s.loc, r.key, ClearedLoc(s.blocks[b], r), true)
    requires LocsOk(s.loc, s.log, s.place, s.files, s.blocks, s.writers)
    requires TocRecOk(s.files, s.log, s.blocks[b].file, ClearedRec(s.blocks[b], r))
    ensures LocsOk(s'.loc, s'.log, s'.place, s'.files, s'.blocks, s'.writers)
  {
    forall k ensures LocOk(s'.loc, s'.log, s'.place, s'.files, s'.blocks, s'.writers, k) {
      assert LocOk(s.loc, s.log, s.place, s.files, s.blocks, s.writers, k);
    }
  }

  lemma ClearKeepsHistory(s: State, s': State, b: nat, j: nat, pos: nat, r: Rec)
    requires ClearEffect(s, s', b, j, pos, r) && HistoryOk(s.log, s.loc, s.place) && Labelled(s.log, r)
    requires s'.loc == Set(s.loc, r.key, ClearedLoc(s.blocks[b], r), true)
    ensures HistoryOk(s'.log, s'.loc, s'.place)
  {
    HistoryStays(s.log, s.loc, s.place, s'.place);
    forall k ensures HistoryAt(s.log, s'.loc, s'.place, k) {
      assert HistoryAt(s.log, s.loc, s'.place, k);
      if NoRemovals(s.log, k) && k == r.key {
        assert !Removal(s.log[r.wid].ts);
      }
    }
  }

  /** Steps that change only pages, the map, TOC blocks and where records are. */
  lemma ClearFrame(c: Config, s: State, s': State)
    requires Core(c, s) && s' == s.(blocks := s'.blocks, loc := s'.loc, place := s'.place, tbs := s'.tbs)
    requires Shape(c, s') && MemRecsOk(s'.blocks, s'.writers, s'.log, s'.place) && BlocksInFile(s'.blocks, s'.files)
    requires TbRecsOk(s'.tbs, s'.files, s'.log) && PlacesOk(s') && PcsOk(s'.writers, s'.blocks, s'.log, s'.place)
    requires LocsOk(s'.loc, s'.log, s'.place, s'.files, s'.blocks, s'.writers)
    requires ReadersOk(s'.readers, s'.log, s'.blocks, s'.writers) && HistoryOk(s'.log, s'.loc, s'.place)
    requires DrainOk(s'.place, s'.mode, s'.drain, s'.blocks, s'.tbs, s'.tocChan) && FlushedOk(s')
    ensures Core(c, s')
  {
  }

  lemma ClearParts(c: Config, s: State, s': State, b: nat, j: nat, pos: nat, r: Rec)
    requires Core(c, s) && ClearEffect(s, s', b, j, pos, r)
    requires s' == s.(blocks := s'.blocks, loc := s'.loc, place := s'.place, tbs := s'.tbs)
    requires s'.loc == Set(s.loc, r.key, ClearedLoc(s.blocks[b], r), true)
    requires TocRecOk(s.files, s.log, s.blocks[b].file, ClearedRec(s.blocks[b], r)) && s.blocks[b].file < |s.files|
    ensures Core(c, s')
  {
    assert LocOk(s.loc, s.log, s.place, s.files, s.blocks, s.writers, r.key);
    ClearKeepsMem(s, s', b, j, pos, r);
    ClearKeepsBlocks(c, s, s', b, j, pos, r);
    ClearKeepsTbs(s, s', b, j, pos, r);
    ClearKeepsPlaces(s, s', b, j, pos, r);
    ClearKeepsDrain(s, s', b, j, pos, r);
    ClearKeepsLocs(s, s', b, j, pos, r);
    ClearKeepsHistory(s, s', b, j, pos, r);
    ClearKeepsFlushed(s, s', b, j, pos, r);
    ClearFrame(c, s, s');
  }

  lemma ClearRecOk(c: Config, s: State, b: nat)
    requires Core(c, s) && ClearRecGuard(c, s, b)
    ensures Core(c, ApplyClearRec(s, b))
  {
    var AtClearer(j, pos) := s.blocks[b].owner;
    ClearedRecOk(c, s, b);
    ClearHasEffect(c, s, b);
    assert BlockShape(c, s.blocks, s.clock, s.open, |s.files|, b);
    ClearParts(c, s, ApplyClearRec(s, b), b, j, pos, s.blocks[b].recs[pos]);
  }

  lemma ClearKeepsFlushed(s: State, s': State, b: nat, j: nat, pos: nat, r: Rec)
    requires ClearEffect(s, s', b, j, pos, r) && FlushedOk(s)
    requires s'.flushed == s.flushed && s'.tocA == s.tocA && s'.tocB == s.tocB && s'.open == s.open
    ensures FlushedOk(s')
  {
    forall n: nat | n < s'.flushed ensures SafeAt(s', n) { assert SafeAt(s, n); }
  }

  // ---------------------------------------------------------------- recycling a block

  /** When memClearer has processed every record of a block, no location names it any more. */
  lemma NothingNamesClearedBlock(c: Config, s: State, b: nat, k: Key)
    requires Core(c, s) && ClearDoneGuard(c, s, b)
    ensures k in s.loc ==> s.loc[k].id != Mem(b)
  {
    assert LocOk(s.loc, s.log, s.place, s.files, s.blocks, s.writers, k);
    if k in s.loc {
      var p := s.place[s.loc[k].aux];
      assert PlaceOk(s, s.loc[k].aux);
      assert p.InFlight? ==> WriterShape(s.writers, s.blocks, p.w);
    }
  }

  lemma ClearDoneOk(c: Config, s: State, b: nat)
    requires Core(c, s) && ClearDoneGuard(c, s, b)
    ensures Core(c, s.(blocks := s.blocks[b := EMPTY_BLOCK]))
  {
    var s' := s.(blocks := s.blocks[b := EMPTY_BLOCK]);
    forall x: nat ensures WriterShape(s'.writers, s'.blocks, x) { assert WriterShape(s.writers, s.blocks, x); }
    forall x: nat ensures BlockShape(c, s'.blocks, s'.clock, s'.open, |s'.files|, x) {
      assert BlockShape(c, s.blocks, s.clock, s.open, |s.files|, x);
    }
    forall x: nat, i: nat ensures MemRecOk(s'.blocks, s'.writers, s'.log, s'.place, x, i) {
      assert MemRecOk(s.blocks, s.writers, s.log, s.place, x, i);
    }
    forall x: nat ensures BlockInFile(s'.blocks, s'.files, x) { assert BlockInFile(s.blocks, s.files, x); }
    ClearDoneKeepsRest(c, s, b);
    forall n: nat | n < s'.flushed ensures SafeAt(s', n) { assert SafeAt(s, n); }
  }

  lemma ClearDoneKeepsRest(c: Config, s: State, b: nat)
    requires Core(c, s) && ClearDoneGuard(c, s, b)
    ensures var s' := s.(blocks := s.blocks[b := EMPTY_BLOCK]);
            && PlacesOk(s')
            && PcsOk(s'.writers, s'.blocks, s'.log, s'.place)
            && LocsOk(s'.loc, s'.log, s'.place, s'.files, s'.blocks, s'.writers)
            && ReadersOk(s'.readers, s'.log, s'.blocks, s'.writers)
            && DrainOk(s'.place, s'.mode, s'.drain, s'.blocks, s'.tbs, s'.tocChan)
  {
    var s' := s.(blocks := s.blocks[b := EMPTY_BLOCK]);
    forall n: nat ensures PlaceOk(s', n) { assert PlaceOk(s, n); }
    forall x: nat ensures PcOk(s'.writers, s'.blocks, s'.log, s'.place, x) {
      assert PcOk(s.writers, s.blocks, s.log, s.place, x);
      assert WriterShape(s.writers, s.blocks, x);
    }
    forall k ensures LocOk(s'.loc, s'.log, s'.place, s'.files, s'.blocks, s'.writers, k) {
      assert LocOk(s.loc, s.log, s.place, s.files, s.blocks, s.writers, k);
      NothingNamesClearedBlock(c, s, b, k);
    }
    forall r | 0 <= r < |s'.readers| ensures ReaderOk(s'.readers[r], s'.log, s'.blocks, s'.writers) {
      assert ReaderOk(s.readers[r], s.log, s.blocks, s.writers);
    }
    forall n: nat ensures AheadOfToken(s'.place, s'.mode, s'.drain, s'.blocks, s'.tbs, s'.tocChan, n) {
      assert AheadOfToken(s.place, s.mode, s.drain, s.blocks, s.tbs, s.tocChan, n);
      assert PlaceOk(s, n);
    }
  }

  // ---------------------------------------------------------------- sending TOC blocks

  /** Moving TOC records along leaves memory, locations and readers alone. */
  lemma TocMoveFrame(c: Config, s: State, place: seq<Place>)
    requires Core(c, s) && |place| == |s.place|
    requires forall n :: 0 <= n < |place| && (s.place[n].InFlight? || s.place[n].InMem?) ==> place[n] == s.place[n]
    ensures MemRecsOk(s.blocks, s.writers, s.log, place)
    ensures PcsOk(s.writers, s.blocks, s.log, place)
    ensures LocsOk(s.loc, s.log, place, s.files, s.blocks, s.writers)
  {
    forall x: nat, i: nat ensures MemRecOk(s.blocks, s.writers, s.log, place, x, i) {
      assert MemRecOk(s.blocks, s.writers, s.log, s.place, x, i);
    }
    forall x: nat ensures PcOk(s.writers, s.blocks, s.log, place, x) {
      assert PcOk(s.writers, s.blocks, s.log, s.place, x);
    }
    forall k ensures LocOk(s.loc, s.log, place, s.files, s.blocks, s.writers, k) {
      assert LocOk(s.loc, s.log, s.place, s.files, s.blocks, s.writers, k);
    }
  }

  lemma TbSendOk(c: Config, s: State, j: nat)
    requires Core(c, s) && TbSendGuard(c, s, j)
    ensures Core(c, ApplyTbSend(s, j))
  {
    var s' := ApplyTbSend(s, j);
    ClockForward(c, s, s'.clock);
    TocMoveFrame(c, s, s'.place);
    HistoryStays(s.log, s.loc, s.place, s'.place);
    forall n: nat ensures PlaceOk(s', n) { assert PlaceOk(s, n); }
    forall n: nat ensures AheadOfToken(s'.place, s'.mode, s'.drain, s'.blocks, s'.tbs, s'.tocChan, n) {
      assert AheadOfToken(s.place, s.mode, s.drain, s.blocks, s.tbs, s.tocChan, n);
      assert PlaceOk(s, n);
    }
    forall n: nat | n < s'.flushed ensures SafeAt(s', n) { assert SafeAt(s, n); }
  }

  lemma ClearTokenOk(c: Config, s: State, j: nat)
    requires Core(c, s) && ClearTokenGuard(c, s, j)
    ensures Core(c, s.(drain := s.drain.(ctok := s.drain.ctok[j := CPassed(s.clock)]), clock := s.clock + 1))
  {
    var s' := s.(drain := s.drain.(ctok := s.drain.ctok[j := CPassed(s.clock)]), clock := s.clock + 1);
    CLeftUpdate(s.drain.ctok, j, CPassed(s.clock));
    ClockForward(c, s, s'.clock);
    PlainFrame(c, s, s');
    assert Phase2(s'.drain, s'.open, |s'.files|);
    forall n: nat ensures AheadOfToken(s'.place, s'.mode, s'.drain, s'.blocks, s'.tbs, s'.tocChan, n) {
      assert AheadOfToken(s.place, s.mode, s.drain, s.blocks, s.tbs, s.tocChan, n);
      assert PlaceOk(s, n);
    }
    forall n: nat | n < s'.flushed ensures SafeAt(s', n) { assert SafeAt(s, n); }
  }

  // ---------------------------------------------------------------- tocWriter

  /** What tocWriter's write changes: the records of one block go to the end of one TOC file, which is created anew
      unless it is open. */
  ghost predicate TocEffect(s: State, s': State, t: nat, f: nat, anew: bool)
  {
    && t in s.tocChan && f == s.tocChan[t].tb.file && (!anew ==> f in s.tocs)
    && var before := if anew then [] else s.tocs[f];
    && s'.tocChan == s.tocChan - {t}
    && s'.tocs == s.tocs[f := before + s.tocChan[t].tb.recs]
    && s'.place == MovedToToc(if anew then LoseToc(s.place, f) else s.place, t, f, |before|)
    && s'.log == s.log && s'.writers == s.writers && s'.blocks == s.blocks && s'.tbs == s.tbs && s'.files == s.files
    && s'.mode == s.mode && s'.drain == s.drain && s'.open == s.open && s'.flushed == s.flushed
  }

  predicate Anew(s: State, t: nat)
    requires t in s.tocChan
  {
    s.tocA != Some(s.tocChan[t].tb.file) && s.tocB != Some(s.tocChan[t].tb.file)
  }

  lemma TocHasEffect(s: State, t: nat)
    requires t in s.tocChan
    requires (s.tocA.Some? ==> s.tocA.value in s.tocs) && (s.tocB.Some? ==> s.tocB.value in s.tocs)
    ensures TocEffect(s, ApplyTocTake(s, t), t, s.tocChan[t].tb.file, Anew(s, t))
  {
    assert [] + s.tocChan[t].tb.recs == s.tocChan[t].tb.recs;
  }

  lemma TocKeepsPlaces(s: State, s': State, t: nat, f: nat, anew: bool)
    requires TocEffect(s, s', t, f, anew) && PlacesOk(s)
    ensures PlacesOk(s')
  {
    forall n: nat ensures PlaceOk(s', n) { assert PlaceOk(s, n); }
  }

  lemma TocKeepsRecs(s: State, s': State, t: nat, f: nat, anew: bool)
    requires TocEffect(s, s', t, f, anew)
    requires ChanRecsOk(s.tocChan, s.files, s.log) && FileRecsOk(s.tocs, s.files, s.log)
    ensures ChanRecsOk(s'.tocChan, s'.files, s'.log) && FileRecsOk(s'.tocs, s'.files, s'.log)
  {
    assert RecsOk(s.files, s.log, f, s.tocChan[t].tb.recs);
    forall g | g in s'.tocs ensures RecsOk(s'.files, s'.log, g, s'.tocs[g]) {
      if g in s.tocs { assert RecsOk(s.files, s.log, g, s.tocs[g]); }
    }
  }

  lemma TocKeepsDrain(s: State, s': State, t: nat, f: nat, anew: bool)
    requires TocEffect(s, s', t, f, anew) && DrainOk(s.place, s.mode, s.drain, s.blocks, s.tbs, s.tocChan)
    requires StillPhase1(s.drain) || forall j :: 0 <= j < |s.drain.ctok| ==> !s.drain.ctok[j].CWait?
    ensures DrainOk(s'.place, s'.mode, s'.drain, s'.blocks, s'.tbs, s'.tocChan)
  {
    forall n: nat ensures AheadOfToken(s'.place, s'.mode, s'.drain, s'.blocks, s'.tbs, s'.tocChan, n) {
      assert AheadOfToken(s.place, s.mode, s.drain, s.blocks, s.tbs, s.tocChan, n);
    }
  }

  lemma TocKeepsFlushed(s: State, t: nat)
    requires t in s.tocChan && FlushedOk(s)
    requires (s.tocA.Some? ==> s.tocA.value in s.tocs) && (s.tocB.Some? ==> s.tocB.value in s.tocs)
    ensures FlushedOk(ApplyTocTake(s, t))
  {
    var s' := ApplyTocTake(s, t);
    forall n: nat | n < s'.flushed ensures SafeAt(s', n) { assert SafeAt(s, n); }
  }

  lemma TocTakeOk(c: Config, s: State, t: nat)
    requires Core(c, s) && TocTakeGuard(c, s, t)
    ensures Core(c, ApplyTocTake(s, t))
  {
    var s' := ApplyTocTake(s, t);
    var f, anew := s.tocChan[t].tb.file, Anew(s, t);
    TocHasEffect(s, t);
    TocMoveFrame(c, s, s'.place);
    HistoryStays(s.log, s.loc, s.place, s'.place);
    TocKeepsPlaces(s, s', t, f, anew);
    TocKeepsRecs(s, s', t, f, anew);
    TocKeepsDrain(s, s', t, f, anew);
    TocKeepsFlushed(s, t);
  }

  /** The head token of a clearer follows every covered TOC block it sent. */
  lemma TocTokenOk(c: Config, s: State, j: nat)
    requires Core(c, s) && TocTokenGuard(c, s, j) && s.drain.cleft != 1
    ensures Core(c, ApplyTocToken(c, s, j))
  {
    var s' := ApplyTocToken(c, s, j);
    CLeftUpdate(s.drain.ctok, j, CDone);
    CLeftBounds(s.drain.ctok);
    PlainFrame(c, s, s');
    assert Phase2(s'.drain, s'.open, |s'.files|);
    forall n: nat ensures AheadOfToken(s'.place, s'.mode, s'.drain, s'.blocks, s'.tbs, s'.tocChan, n) {
      assert AheadOfToken(s.place, s.mode, s.drain, s.blocks, s.tbs, s.tocChan, n);
    }
    forall n: nat | n < s'.flushed ensures SafeAt(s', n) { assert SafeAt(s, n); }
  }

  lemma LastClearToken(tok: seq<CTok>, j: nat)
    requires j < |tok| && !tok[j].CDone? && CLeft(tok) == 1
    ensures forall x :: 0 <= x < |tok| && x != j ==> tok[x].CDone?
  {
    var tok' := tok[j := CDone];
    CLeftUpdate(tok, j, CDone);
    CLeftBounds(tok');
    forall x | 0 <= x < |tok| && x != j ensures tok[x].CDone? { assert tok'[x].CDone?; }
  }

  /** When the last token arrives, every covered record is in a TOC file or was superseded. */
  lemma DrainedRecord(c: Config, s: State, j: nat, n: nat)
    requires Core(c, s) && TocTokenGuard(c, s, j) && s.drain.cleft == 1
    requires n < |s.place| && Covered(s.mode, n)
    ensures s.place[n].Superseded? || s.place[n].Lost? || (s.place[n].InToc? && s.place[n].f < s.drain.fmark)
  {
    LastClearToken(s.drain.ctok, j);
    assert AheadOfToken(s.place, s.mode, s.drain, s.blocks, s.tbs, s.tocChan, n);
    assert Phase2(s.drain, s.open, |s.files|);
    assert PlaceOk(s, n);
    assert s.place[n].InMem? ==> BlockShape(c, s.blocks, s.clock, s.open, |s.files|, s.place[n].b);
  }

  lemma DrainedFlushed(c: Config, s: State, j: nat)
    requires Core(c, s) && TocTokenGuard(c, s, j) && s.drain.cleft == 1
    ensures FlushedOk(ApplyTocToken(c, s, j))
  {
    var s' := ApplyTocToken(c, s, j);
    assert Phase2(s.drain, s.open, |s.files|);
    forall n: nat | n < s'.flushed ensures SafeAt(s', n) {
      DrainedRecord(c, s, j, n);
      assert PlaceOk(s, n);
    }
  }

  /** Steps that change only the flush in progress and which TOC files are open. */
  lemma FlagsFrame(c: Config, s: State, s': State)
    requires Core(c, s)
    requires s' == s.(mode := s'.mode, drain := s'.drain, flushed := s'.flushed, tocA := s'.tocA, tocB := s'.tocB)
    requires Sizes(c, s') && TokensOk(c, s'.drain, s'.mode, s'.clock, s'.open, |s'.files|, |s'.log|)
    requires BusyMayWrite(s'.writers, s'.mode, s'.drain)
    requires DrainOk(s'.place, s'.mode, s'.drain, s'.blocks, s'.tbs, s'.tocChan) && FlushedOk(s')
    ensures Core(c, s')
  {
    forall n: nat ensures PlaceOk(s', n) { assert PlaceOk(s, n); }
  }

  lemma NotDraining(place: seq<Place>, mode: Mode, d: Drain, blocks: seq<Block>, tbs: seq<Option<TocBlock>>,
                    tocChan: map<nat, TocMsg>)
    requires !mode.Draining?
    ensures DrainOk(place, mode, d, blocks, tbs, tocChan)
  {
  }

  lemma LastTocTokenOk(c: Config, s: State, j: nat)
    requires Core(c, s) && TocTokenGuard(c, s, j) && s.drain.cleft == 1
    ensures Core(c, ApplyTocToken(c, s, j))
  {
    var s' := ApplyTocToken(c, s, j);
    FreshDrainTokens(c, s'.mode, s'.clock, s'.open, |s'.files|, |s'.log|);
    assert Phase2(s.drain, s.open, |s.files|);
    NotDraining(s'.place, s'.mode, s'.drain, s'.blocks, s'.tbs, s'.tocChan);
    DrainedFlushed(c, s, j);
    FlagsFrame(c, s, s');
  }
}
