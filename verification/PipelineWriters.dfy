/** The memWriter and reader steps keep the pipeline invariant. */
module PipelineWriters {
  import opened Base
  import opened Stamp
  import opened LocMap
  import opened Pipeline

  lemma TakeFreeOk(c: Config, s: State, w: nat, b: nat)
    requires Core(c, s) && TakeFreeGuard(c, s, w, b)
    ensures Core(c, SetOwner(s, b, AtWriter(w)))
  {
    var s' := SetOwner(s, b, AtWriter(w));
    assert BlockShape(c, s.blocks, s.clock, s.open, |s.files|, b);
    forall x: nat ensures WriterShape(s'.writers, s'.blocks, x) { assert WriterShape(s.writers, s.blocks, x); }
    forall x: nat ensures BlockShape(c, s'.blocks, s'.clock, s'.open, |s'.files|, x) {
      assert BlockShape(c, s.blocks, s.clock, s.open, |s.files|, x);
    }
    forall x: nat, i: nat ensures MemRecOk(s'.blocks, s'.writers, s'.log, s'.place, x, i) {
      assert MemRecOk(s.blocks, s.writers, s.log, s.place, x, i);
    }
    OwnerOnly(c, s, s', b, AtWriter(w));
    forall n: nat ensures AheadOfToken(s'.place, s'.mode, s'.drain, s'.blocks, s'.tbs, s'.tocChan, n) {
      assert AheadOfToken(s.place, s.mode, s.drain, s.blocks, s.tbs, s.tocChan, n);
      assert PlaceOk(s, n);
    }
  }

  /** Changing only the owner of a block (not into a filed one, nor into a clearer past a record) keeps
      everything that speaks of its contents. */
  lemma OwnerOnly(c: Config, s: State, s': State, b: nat, o: Owner)
    requires Core(c, s) && b < |s.blocks|
    requires !s.blocks[b].owner.AtClearer? && (o.AtClearer? ==> o.pos == 0)
    requires o.AtWriter? ==> o.w < |s.writers| && s.writers[o.w].Idle?
    requires Filed(o) ==> Filed(s.blocks[b].owner)
    requires s' == SetOwner(s, b, o).(clock := s'.clock)
    ensures BlocksInFile(s'.blocks, s'.files)
    ensures PlacesOk(s')
    ensures PcsOk(s'.writers, s'.blocks, s'.log, s'.place)
    ensures LocsOk(s'.loc, s'.log, s'.place, s'.files, s'.blocks, s'.writers)
    ensures ReadersOk(s'.readers, s'.log, s'.blocks, s'.writers)
    ensures FlushedOk(s')
  {
    forall x: nat ensures BlockInFile(s'.blocks, s'.files, x) { assert BlockInFile(s.blocks, s.files, x); }
    forall n: nat ensures PlaceOk(s', n) { assert PlaceOk(s, n); }
    forall x: nat ensures PcOk(s'.writers, s'.blocks, s'.log, s'.place, x) {
      assert PcOk(s.writers, s.blocks, s.log, s.place, x);
    }
    forall k ensures LocOk(s'.loc, s'.log, s'.place, s'.files, s'.blocks, s'.writers, k) {
      assert LocOk(s.loc, s.log, s.place, s.files, s.blocks, s.writers, k);
    }
    forall r | 0 <= r < |s'.readers| ensures ReaderOk(s'.readers[r], s'.log, s'.blocks, s'.writers) {
      assert ReaderOk(s.readers[r], s.log, s.blocks, s.writers);
    }
    forall n: nat | n < s'.flushed ensures SafeAt(s', n) { assert SafeAt(s, n); }
  }

  lemma ExtendOk(c: Config, s: State, w: nat, b: nat, req: Req, junk: Bytes)
    requires Core(c, s) && ExtendGuard(c, s, w, b, req, junk)
    ensures Core(c, ApplyExtend(s, w, b, req, junk))
  {
    var s' := ApplyExtend(s, w, b, req, junk);
    forall x: nat ensures WriterShape(s'.writers, s'.blocks, x) { assert WriterShape(s.writers, s.blocks, x); }
    forall x: nat ensures BlockShape(c, s'.blocks, s'.clock, s'.open, |s'.files|, x) {
      assert BlockShape(c, s.blocks, s.clock, s.open, |s.files|, x);
    }
    forall x: nat, i: nat ensures MemRecOk(s'.blocks, s'.writers, s'.log, s'.place, x, i) {
      assert MemRecOk(s.blocks, s.writers, s.log, s.place, x, i);
    }
    WriterFrame(c, s, s', w, b);
    forall x: nat ensures PcOk(s'.writers, s'.blocks, s'.log, s'.place, x) {
      assert PcOk(s.writers, s.blocks, s.log, s.place, x);
      assert WriterShape(s.writers, s.blocks, x);
    }
    forall r | 0 <= r < |s'.readers| ensures ReaderOk(s'.readers[r], s'.log, s'.blocks, s'.writers) {
      assert ReaderOk(s.readers[r], s.log, s.blocks, s.writers);
    }
  }

  /** The parts that do not depend on the bytes a writer is working on. */
  lemma WriterFrame(c: Config, s: State, s': State, w: nat, b: nat)
    requires Core(c, s) && w < |s.writers| && b < |s.blocks| && s.blocks[b].owner == AtWriter(w)
    requires |s'.blocks| == |s.blocks| && |s'.writers| == |s.writers|
    requires s' == s.(blocks := s.blocks[b := s.blocks[b].(values := s'.blocks[b].values)],
                      writers := s.writers[w := s'.writers[w]])
    requires !(s.writers[w].Placed? && s.writers[w].prev < s.writers[w].req.ts)
    ensures BlocksInFile(s'.blocks, s'.files)
    ensures PlacesOk(s')
    ensures LocsOk(s'.loc, s'.log, s'.place, s'.files, s'.blocks, s'.writers)
    ensures DrainOk(s'.place, s'.mode, s'.drain, s'.blocks, s'.tbs, s'.tocChan)
    ensures FlushedOk(s')
  {
    forall x: nat ensures BlockInFile(s'.blocks, s'.files, x) { assert BlockInFile(s.blocks, s.files, x); }
    forall n: nat ensures PlaceOk(s', n) { assert PlaceOk(s, n); }
    forall k ensures LocOk(s'.loc, s'.log, s'.place, s'.files, s'.blocks, s'.writers, k) {
      assert LocOk(s.loc, s.log, s.place, s.files, s.blocks, s.writers, k);
      if k in s.loc { assert PlaceOk(s, s.loc[k].aux); }
    }
    forall n: nat ensures AheadOfToken(s'.place, s'.mode, s'.drain, s'.blocks, s'.tbs, s'.tocChan, n) {
      assert AheadOfToken(s.place, s.mode, s.drain, s.blocks, s.tbs, s.tocChan, n);
    }
    forall n: nat | n < s'.flushed ensures SafeAt(s', n) { assert SafeAt(s, n); }
  }

  /** Copying the value leaves every byte below the writer's offset alone. */
  lemma CopyKeepsMem(c: Config, s: State, w: nat)
    requires Core(c, s) && CopyGuard(c, s, w) && WriterShape(s.writers, s.blocks, w)
    ensures var s' := ApplyCopy(s, w);
            && MemRecsOk(s'.blocks, s'.writers, s'.log, s'.place)
            && ReadersOk(s'.readers, s'.log, s'.blocks, s'.writers)
  {
    var s' := ApplyCopy(s, w);
    var Extended(b, req, off) := s.writers[w];
    var u, v := s.blocks[b].values, s'.blocks[b].values;
    assert v[..off] == u[..off];
    forall x: nat, i: nat ensures MemRecOk(s'.blocks, s'.writers, s'.log, s'.place, x, i) {
      assert MemRecOk(s.blocks, s.writers, s.log, s.place, x, i);
      if x == b && i < |s.blocks[b].recs| {
        var r := s.blocks[b].recs[i];
        SlicePrefix(u, v, off, r.off, r.off + r.len);
      }
    }
    forall r | 0 <= r < |s'.readers| ensures ReaderOk(s'.readers[r], s'.log, s'.blocks, s'.writers) {
      assert ReaderOk(s.readers[r], s.log, s.blocks, s.writers);
      if s.readers[r].Holding? && s.readers[r].b == b {
        var l := s.readers[r].loc;
        SlicePrefix(u, v, off, l.off, l.off + l.len);
      }
    }
  }

  lemma CopyOk(c: Config, s: State, w: nat)
    requires Core(c, s) && CopyGuard(c, s, w)
    ensures WriterShape(s.writers, s.blocks, w) && Core(c, ApplyCopy(s, w))
  {
    assert WriterShape(s.writers, s.blocks, w);
    var s' := ApplyCopy(s, w);
    var Extended(b, req, off) := s.writers[w];
    CopyKeepsMem(c, s, w);
    forall x: nat ensures WriterShape(s'.writers, s'.blocks, x) { assert WriterShape(s.writers, s.blocks, x); }
    forall x: nat ensures BlockShape(c, s'.blocks, s'.clock, s'.open, |s'.files|, x) {
      assert BlockShape(c, s.blocks, s.clock, s.open, |s.files|, x);
    }
    WriterFrame(c, s, s', w, b);
    forall x: nat ensures PcOk(s'.writers, s'.blocks, s'.log, s'.place, x) {
      assert PcOk(s.writers, s.blocks, s.log, s.place, x);
      assert WriterShape(s.writers, s.blocks, x);
    }
  }

  lemma SlicePrefix(u: Bytes, v: Bytes, n: nat, lo: nat, hi: nat)
    requires lo <= hi <= n <= |u| && n <= |v| && u[..n] == v[..n]
    ensures u[lo..hi] == v[lo..hi]
  {
    assert u[lo..hi] == u[..n][lo..hi];
    assert v[lo..hi] == v[..n][lo..hi];
  }

  lemma TruncateOk(c: Config, s: State, w: nat)
    requires Core(c, s) && TruncateGuard(c, s, w)
    ensures WriterShape(s.writers, s.blocks, w) && Core(c, ApplyTruncate(s, w))
  {
    assert WriterShape(s.writers, s.blocks, w);
    var s' := ApplyTruncate(s, w);
    var b, off := s.writers[w].b, s.writers[w].off;
    forall x: nat ensures WriterShape(s'.writers, s'.blocks, x) { assert WriterShape(s.writers, s.blocks, x); }
    forall x: nat ensures BlockShape(c, s'.blocks, s'.clock, s'.open, |s'.files|, x) {
      assert BlockShape(c, s.blocks, s.clock, s.open, |s.files|, x);
    }
    forall x: nat, i: nat ensures MemRecOk(s'.blocks, s'.writers, s'.log, s'.place, x, i) {
      assert MemRecOk(s.blocks, s.writers, s.log, s.place, x, i);
      if x == b && i < |s.blocks[b].recs| {
        var u, r := s.blocks[b].values, s.blocks[b].recs[i];
        SlicePrefix(u, u[..off], off, r.off, r.off + r.len);
      }
    }
    WriterFrame(c, s, s', w, b);
    forall x: nat ensures PcOk(s'.writers, s'.blocks, s'.log, s'.place, x) {
      assert PcOk(s.writers, s.blocks, s.log, s.place, x);
      assert WriterShape(s.writers, s.blocks, x);
    }
    forall r | 0 <= r < |s'.readers| ensures ReaderOk(s'.readers[r], s'.log, s'.blocks, s'.writers) {
      assert ReaderOk(s.readers[r], s.log, s.blocks, s.writers);
    }
  }

  lemma SealOk(c: Config, s: State, w: nat, b: nat)
    requires Core(c, s) && SealGuard(c, s, w, b)
    ensures Core(c, SetOwner(s, b, InFileChan(w, s.clock)).(clock := s.clock + 1))
  {
    var s' := SetOwner(s, b, InFileChan(w, s.clock)).(clock := s.clock + 1);
    forall x: nat ensures WriterShape(s'.writers, s'.blocks, x) { assert WriterShape(s.writers, s.blocks, x); }
    forall x: nat ensures BlockShape(c, s'.blocks, s'.clock, s'.open, |s'.files|, x) {
      assert BlockShape(c, s.blocks, s.clock, s.open, |s.files|, x);
    }
    forall x: nat, i: nat ensures MemRecOk(s'.blocks, s'.writers, s'.log, s'.place, x, i) {
      assert MemRecOk(s.blocks, s.writers, s.log, s.place, x, i);
    }
    OwnerOnly(c, s, s', b, InFileChan(w, s.clock));
    forall n: nat ensures AheadOfToken(s'.place, s'.mode, s'.drain, s'.blocks, s'.tbs, s'.tocChan, n) {
      assert AheadOfToken(s.place, s.mode, s.drain, s.blocks, s.tbs, s.tocChan, n);
    }
  }

  // ---------------------------------------------------------------- placing a value in the map

  predicate FilesGrow(files: seq<Bytes>, files': seq<Bytes>)
  {
    |files| <= |files'| && forall f :: 0 <= f < |files| ==> files[f] <= files'[f]
  }

  /** TOC records stay right as files and the log grow. */
  lemma RecsGrow(files: seq<Bytes>, files': seq<Bytes>, log: seq<Taken>, log': seq<Taken>, f: nat, recs: seq<Rec>)
    requires RecsOk(files, log, f, recs) && FilesGrow(files, files') && log <= log'
    ensures RecsOk(files', log', f, recs)
  {
    forall i | 0 <= i < |recs| ensures TocRecOk(files', log', f, recs[i]) {
      assert TocRecOk(files, log, f, recs[i]);
      if !Removal(recs[i].ts) {
        SlicePrefix(files[f], files'[f], |files[f]|, recs[i].off, recs[i].off + recs[i].len);
      }
    }
  }

  lemma AllRecsGrow(s: State, s': State)
    requires TbRecsOk(s.tbs, s.files, s.log) && ChanRecsOk(s.tocChan, s.files, s.log)
             && FileRecsOk(s.tocs, s.files, s.log)
    requires s'.tbs == s.tbs && s'.tocChan == s.tocChan && s'.tocs == s.tocs
    requires FilesGrow(s.files, s'.files) && s.log <= s'.log
    ensures TbRecsOk(s'.tbs, s'.files, s'.log)
    ensures ChanRecsOk(s'.tocChan, s'.files, s'.log)
    ensures FileRecsOk(s'.tocs, s'.files, s'.log)
  {
    forall j | 0 <= j < |s.tbs| && s.tbs[j].Some?
      ensures RecsOk(s'.files, s'.log, s.tbs[j].value.file, s.tbs[j].value.recs)
    {
      RecsGrow(s.files, s'.files, s.log, s'.log, s.tbs[j].value.file, s.tbs[j].value.recs);
    }
    forall t | t in s.tocChan ensures RecsOk(s'.files, s'.log, s.tocChan[t].tb.file, s.tocChan[t].tb.recs) {
      RecsGrow(s.files, s'.files, s.log, s'.log, s.tocChan[t].tb.file, s.tocChan[t].tb.recs);
    }
    forall f | f in s.tocs ensures RecsOk(s'.files, s'.log, f, s.tocs[f]) {
      RecsGrow(s.files, s'.files, s.log, s'.log, f, s.tocs[f]);
    }
  }

  /** The map after a write: the log entry appended with it is the one it now names, if it took it. */
  lemma PlaceKeepsLocs(s: State, w: nat)
    requires LocsOk(s.loc, s.log, s.place, s.files, s.blocks, s.writers) && |s.place| == |s.log|
    requires w < |s.writers| && s.writers[w].Copied?
    ensures var s' := ApplyPlace(s, w);
            LocsOk(s'.loc, s'.log, s'.place, s'.files, s'.blocks, s'.writers)
  {
    var s' := ApplyPlace(s, w);
    var Copied(b, req, off) := s.writers[w];
    RecordIffTaken(s.loc, req.key, req.ts);
    forall k ensures LocOk(s'.loc, s'.log, s'.place, s'.files, s'.blocks, s'.writers, k) {
      assert LocOk(s.loc, s.log, s.place, s.files, s.blocks, s.writers, k);
    }
  }

  /** One more entry for a key, at the stamp the map took. */
  lemma HistoryGrows(log: seq<Taken>, loc: Map, place: seq<Place>, e: Taken, loc': Map, p: Place, k: Key)
    requires HistoryAt(log, loc, place, k) && |place| == |log|
    requires k != e.key ==> (k in loc' <==> k in loc) && (k in loc ==> loc'[k] == loc[k])
    requires k == e.key ==>
               k in loc' && loc'[k].ts == e.ts && TsOf(loc, k) <= e.ts && (!e.rewrite ==> TsOf(loc, k) < e.ts)
    ensures HistoryAt(log + [e], loc', place + [p], k)
  {
    var log', place' := log + [e], place + [p];
    assert forall m :: 0 <= m < |log| ==> log'[m] == log[m] && place'[m] == place[m];
    if NoRemovals(log', k) && NoneLost(log', place', k) {
      assert NoRemovals(log, k) && NoneLost(log, place, k) by {
        forall m | 0 <= m < |log| && log[m].key == k ensures !Removal(log[m].ts) && !place[m].Lost? {
          assert log'[m] == log[m] && place'[m] == place[m];
        }
      }
      assert HoldsNewest(log', loc', k);
      assert Rising(log', k);
    }
  }

  lemma PlaceKeepsHistory(c: Config, s: State, w: nat)
    requires Core(c, s) && PlaceInMapGuard(c, s, w)
    ensures var s' := ApplyPlace(s, w);
            HistoryOk(s'.log, s'.loc, s'.place)
  {
    var s' := ApplyPlace(s, w);
    var Copied(b, req, off) := s.writers[w];
    RecordIffTaken(s.loc, req.key, req.ts);
    forall k ensures HistoryAt(s'.log, s'.loc, s'.place, k) {
      assert HistoryAt(s.log, s.loc, s.place, k);
      if TsOf(s.loc, req.key) < req.ts {
        HistoryGrows(s.log, s.loc, s.place, Taken(req.key, Stored(req.ts), req.val, Rewrite(req.ts)), s'.loc,
                     InFlight(w), k);
      }
    }
  }

  /** What placing changes: one program counter, and at most one new entry at the end of log and place. */
  ghost predicate PlaceEffect(s: State, s': State, w: nat)
  {
    && w < |s.writers| && s.writers[w].Copied? && |s.place| == |s.log|
    && s'.blocks == s.blocks && s'.tbs == s.tbs && s'.tocChan == s.tocChan && s'.tocs == s.tocs
    && |s'.writers| == |s.writers| && (forall x :: 0 <= x < |s.writers| && x != w ==> s'.writers[x] == s.writers[x])
    && s'.writers[w].Placed? && s'.writers[w].b == s.writers[w].b && s'.writers[w].req == s.writers[w].req
    && s'.writers[w].off == s.writers[w].off && s'.writers[w].wid == |s.log|
    && s.log <= s'.log && s.place <= s'.place && |s'.place| == |s'.log|
    && (s'.writers[w].prev < s'.writers[w].req.ts ==>
          var req := s.writers[w].req;
          && s'.log == s.log + [Taken(req.key, Stored(req.ts), req.val, Rewrite(req.ts))]
          && s'.place == s.place + [InFlight(w)])
    && (s'.writers[w].prev >= s'.writers[w].req.ts ==> s'.log == s.log && s'.place == s.place)
  }

  lemma PlaceKeepsPlaces(s: State, s': State, w: nat)
    requires PlaceEffect(s, s', w) && PlacesOk(s)
    ensures PlacesOk(s')
  {
    forall n: nat ensures PlaceOk(s', n) { assert PlaceOk(s, n); }
  }

  lemma PlaceKeepsDrain(s: State, s': State, w: nat)
    requires PlaceEffect(s, s', w) && s'.mode == s.mode && s'.drain == s.drain
    requires DrainOk(s.place, s.mode, s.drain, s.blocks, s.tbs, s.tocChan)
    requires MayWrite(s.mode, s.drain, w) && (s.mode.Draining? ==> s.mode.mark <= |s.log|)
    ensures DrainOk(s'.place, s'.mode, s'.drain, s'.blocks, s'.tbs, s'.tocChan)
  {
    forall n: nat ensures AheadOfToken(s'.place, s'.mode, s'.drain, s'.blocks, s'.tbs, s'.tocChan, n) {
      assert AheadOfToken(s.place, s.mode, s.drain, s.blocks, s.tbs, s.tocChan, n);
    }
  }

  /** The parts that speak of pages, writers, readers and where records are. */
  lemma PlaceKeepsParts(c: Config, s: State, w: nat)
    requires Core(c, s) && PlaceInMapGuard(c, s, w)
    ensures var s' := ApplyPlace(s, w);
            && MemRecsOk(s'.blocks, s'.writers, s'.log, s'.place) && PlacesOk(s')
            && PcsOk(s'.writers, s'.blocks, s'.log, s'.place) && WritersShape(s'.writers, s'.blocks)
            && ReadersOk(s'.readers, s'.log, s'.blocks, s'.writers)
            && DrainOk(s'.place, s'.mode, s'.drain, s'.blocks, s'.tbs, s'.tocChan)
  {
    var s' := ApplyPlace(s, w);
    PlaceHasEffect(s, w);
    PlaceKeepsMem(s, s', w);
    PlaceKeepsWriters(s, s', w);
    PlaceKeepsPlaces(s, s', w);
    PlaceKeepsDrain(s, s', w);
  }

  /** The parts that speak of locations and TOC records. */
  lemma PlaceKeepsRecs(c: Config, s: State, w: nat)
    requires Core(c, s) && PlaceInMapGuard(c, s, w)
    ensures var s' := ApplyPlace(s, w);
            && LocsOk(s'.loc, s'.log, s'.place, s'.files, s'.blocks, s'.writers) && HistoryOk(s'.log, s'.loc, s'.place)
            && TbRecsOk(s'.tbs, s'.files, s'.log) && ChanRecsOk(s'.tocChan, s'.files, s'.log)
            && FileRecsOk(s'.tocs, s'.files, s'.log) && FlushedOk(s')
  {
    PlaceHasEffect(s, w);
    PlaceKeepsLocs(s, w);
    PlaceKeepsHistory(c, s, w);
    AllRecsGrow(s, ApplyPlace(s, w));
    PlaceKeepsFlushed(s, w);
  }

  lemma PlaceInMapOk(c: Config, s: State, w: nat)
    requires Core(c, s) && PlaceInMapGuard(c, s, w)
    ensures Core(c, ApplyPlace(s, w))
  {
    PlaceHasEffect(s, w);
    PlaceKeepsParts(c, s, w);
    PlaceKeepsRecs(c, s, w);
    PlaceStaysBusy(s, w);
  }

  lemma PlaceStaysBusy(s: State, w: nat)
    requires w < |s.writers| && s.writers[w].Copied? && BusyMayWrite(s.writers, s.mode, s.drain)
    ensures BusyMayWrite(ApplyPlace(s, w).writers, s.mode, s.drain)
  {
  }

  lemma PlaceHasEffect(s: State, w: nat)
    requires w < |s.writers| && s.writers[w].Copied? && |s.place| == |s.log|
    ensures PlaceEffect(s, ApplyPlace(s, w), w)
  {
  }

  lemma PlaceKeepsFlushed(s: State, w: nat)
    requires FlushedOk(s) && !s.mode.Stopped? && s.flushed <= |s.log| == |s.place|
    requires w < |s.writers| && s.writers[w].Copied?
    ensures FlushedOk(ApplyPlace(s, w))
  {
    var s' := ApplyPlace(s, w);
    forall n: nat | n < s'.flushed ensures SafeAt(s', n) { assert SafeAt(s, n); }
  }

  lemma PlaceKeepsMem(s: State, s': State, w: nat)
    requires PlaceEffect(s, s', w) && MemRecsOk(s.blocks, s.writers, s.log, s.place)
    ensures MemRecsOk(s'.blocks, s'.writers, s'.log, s'.place)
  {
    forall x: nat, i: nat ensures MemRecOk(s'.blocks, s'.writers, s'.log, s'.place, x, i) {
      assert MemRecOk(s.blocks, s.writers, s.log, s.place, x, i);
    }
  }

  lemma PlaceKeepsWriters(s: State, s': State, w: nat)
    requires PlaceEffect(s, s', w) && s'.readers == s.readers
    requires WritersShape(s.writers, s.blocks) && PcsOk(s.writers, s.blocks, s.log, s.place)
    requires ReadersOk(s.readers, s.log, s.blocks, s.writers)
    ensures WritersShape(s'.writers, s'.blocks)
    ensures PcsOk(s'.writers, s'.blocks, s'.log, s'.place)
    ensures ReadersOk(s'.readers, s'.log, s'.blocks, s'.writers)
  {
    forall x: nat ensures WriterShape(s'.writers, s'.blocks, x) { assert WriterShape(s.writers, s.blocks, x); }
    forall x: nat ensures PcOk(s'.writers, s'.blocks, s'.log, s'.place, x) {
      assert PcOk(s.writers, s.blocks, s.log, s.place, x);
    }
    forall r | 0 <= r < |s'.readers| ensures ReaderOk(s'.readers[r], s'.log, s'.blocks, s'.writers) {
      assert ReaderOk(s.readers[r], s.log, s.blocks, s.writers);
    }
  }

  lemma RecordKeepsMem(c: Config, s: State, w: nat)
    requires Core(c, s) && RecordGuard(c, s, w) && WriterShape(s.writers, s.blocks, w)
    ensures var s' := ApplyRecord(s, w);
            && MemRecsOk(s'.blocks, s'.writers, s'.log, s'.place)
            && BlocksInFile(s'.blocks, s'.files)
  {
    var s' := ApplyRecord(s, w);
    assert PcOk(s.writers, s.blocks, s.log, s.place, w);
    forall x: nat, i: nat ensures MemRecOk(s'.blocks, s'.writers, s'.log, s'.place, x, i) {
      assert MemRecOk(s.blocks, s.writers, s.log, s.place, x, i);
    }
    forall x: nat ensures BlockInFile(s'.blocks, s'.files, x) { assert BlockInFile(s.blocks, s.files, x); }
  }

  lemma RecordKeepsWriters(c: Config, s: State, w: nat)
    requires Core(c, s) && RecordGuard(c, s, w) && WriterShape(s.writers, s.blocks, w)
    ensures var s' := ApplyRecord(s, w);
            && Shape(c, s')
            && PcsOk(s'.writers, s'.blocks, s'.log, s'.place)
            && ReadersOk(s'.readers, s'.log, s'.blocks, s'.writers)
  {
    var s' := ApplyRecord(s, w);
    assert PcOk(s.writers, s.blocks, s.log, s.place, w);
    forall x: nat ensures WriterShape(s'.writers, s'.blocks, x) { assert WriterShape(s.writers, s.blocks, x); }
    forall x: nat ensures BlockShape(c, s'.blocks, s'.clock, s'.open, |s'.files|, x) {
      assert BlockShape(c, s.blocks, s.clock, s.open, |s.files|, x);
    }
    forall x: nat ensures PcOk(s'.writers, s'.blocks, s'.log, s'.place, x) {
      assert PcOk(s.writers, s.blocks, s.log, s.place, x);
    }
    forall r | 0 <= r < |s'.readers| ensures ReaderOk(s'.readers[r], s'.log, s'.blocks, s'.writers) {
      assert ReaderOk(s.readers[r], s.log, s.blocks, s.writers);
    }
  }

  lemma RecordOk(c: Config, s: State, w: nat)
    requires Core(c, s) && RecordGuard(c, s, w)
    ensures WriterShape(s.writers, s.blocks, w) && Core(c, ApplyRecord(s, w))
  {
    assert WriterShape(s.writers, s.blocks, w);
    var s' := ApplyRecord(s, w);
    var Placed(b, req, off, prev, wid) := s.writers[w];
    RecordKeepsMem(c, s, w);
    RecordKeepsWriters(c, s, w);
    assert PcOk(s.writers, s.blocks, s.log, s.place, w);
    HistoryStays(s.log, s.loc, s.place, s'.place);
    forall n: nat ensures PlaceOk(s', n) { assert PlaceOk(s, n); }
    forall k ensures LocOk(s'.loc, s'.log, s'.place, s'.files, s'.blocks, s'.writers, k) {
      assert LocOk(s.loc, s.log, s.place, s.files, s.blocks, s.writers, k);
      if k in s.loc { assert PlaceOk(s, s.loc[k].aux); }
    }
    forall n: nat ensures AheadOfToken(s'.place, s'.mode, s'.drain, s'.blocks, s'.tbs, s'.tocChan, n) {
      assert AheadOfToken(s.place, s.mode, s.drain, s.blocks, s.tbs, s.tocChan, n);
    }
    forall n: nat | n < s'.flushed ensures SafeAt(s', n) { assert SafeAt(s, n); }
  }

  // ---------------------------------------------------------------- readers

  /** What a location selects is the value of the log entry it belongs to. */
  lemma LocSelectsValue(c: Config, s: State, k: Key)
    requires Core(c, s) && k in s.loc
    ensures s.loc[k].aux < |s.log| && s.log[s.loc[k].aux].key == k && s.log[s.loc[k].aux].ts == s.loc[k].ts
    ensures BytesAt(s, s.loc[k]) == s.log[s.loc[k].aux].val
    ensures s.loc[k].id.Mem? ==>
              var b, end := s.loc[k].id.b, s.loc[k].off + s.loc[k].len;
              && b < |s.blocks| && end <= |s.blocks[b].values|
              && (s.blocks[b].owner.AtWriter? ==> BelowCopy(s.writers, s.blocks[b].owner.w, b, end))
  {
    var l := s.loc[k];
    assert LocOk(s.loc, s.log, s.place, s.files, s.blocks, s.writers, k);
    if l.id.Mem? {
      assert PlaceOk(s, l.aux);
      match s.place[l.aux] {
        case InFlight(w) =>
          assert PcOk(s.writers, s.blocks, s.log, s.place, w);
          assert WriterShape(s.writers, s.blocks, w);
        case InMem(b, i) =>
          assert MemRecOk(s.blocks, s.writers, s.log, s.place, b, i);
      }
    }
  }

  /** Steps that change only one reader. */
  lemma ReaderStepOk(c: Config, s: State, r: nat, rd: Reader)
    requires Core(c, s) && r < |s.readers| && ReaderOk(rd, s.log, s.blocks, s.writers)
    ensures Core(c, s.(readers := s.readers[r := rd]))
  {
    var s' := s.(readers := s.readers[r := rd]);
    forall n: nat ensures PlaceOk(s', n) { assert PlaceOk(s, n); }
    forall n: nat | n < s'.flushed ensures SafeAt(s', n) { assert SafeAt(s, n); }
  }

  lemma LookUpOk(c: Config, s: State, k: Key, checkRemoval: bool)
    requires Core(c, s)
    ensures ReaderOk(LookUp(s, k, checkRemoval), s.log, s.blocks, s.writers)
  {
    if k in s.loc { LocSelectsValue(c, s, k); }
  }

  lemma ReadLockOk(c: Config, s: State, r: nat)
    requires Core(c, s) && r < |s.readers| && s.readers[r].AtBlock?
    ensures Core(c, ApplyReadLock(s, r))
  {
    var AtBlock(k, b) := s.readers[r];
    LookUpOk(c, s, k, false);
    if k in s.loc {
      LocSelectsValue(c, s, k);
      assert LocOk(s.loc, s.log, s.place, s.files, s.blocks, s.writers, k);
    }
    ReaderStepOk(c, s, r, ApplyReadLock(s, r).readers[r]);
  }

  lemma ReadCopyOk(c: Config, s: State, r: nat)
    requires Core(c, s) && r < |s.readers| && s.readers[r].Holding?
    ensures Core(c, ApplyReadCopy(s, r))
  {
    assert ReaderOk(s.readers[r], s.log, s.blocks, s.writers);
    ReaderStepOk(c, s, r, ApplyReadCopy(s, r).readers[r]);
  }
}
