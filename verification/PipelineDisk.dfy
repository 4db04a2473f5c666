/** What is on disk: which bytes of the open file a reader can have, which pages are released before theirs are there,
    and where the TOC records of locations in files are. */
module PipelineDisk {
  import opened Base
  import opened Stamp
  import opened LocMap
  import opened Pipeline
  import opened PipelineWriters
  import opened PipelineFiles
  import opened PipelineToc
  import Framing

  // ---------------------------------------------------------------- the invariant

  /** A closed file is on disk; of the open one whole buffers are, until closeWriting writes the rest. */
  ghost predicate FileDisk(c: Config, files: seq<Bytes>, disk: seq<nat>, open: Option<nat>, closing: bool, f: nat)
    requires c.interval > 0
  {
    f < |files| && f < |disk| ==>
      && disk[f] <= |files[f]|
      && (if open != Some(f) || closing then disk[f] == |files[f]| else Boundary(c, disk[f]))
  }

  ghost predicate DiskOk(c: Config, files: seq<Bytes>, disk: seq<nat>, open: Option<nat>, closing: bool)
    requires c.interval > 0
  {
    && |disk| == |files| && (open.None? ==> !closing)
    && forall f: nat {:trigger FileDisk(c, files, disk, open, closing, f)} :: FileDisk(c, files, disk, open, closing, f)
  }

  predicate Released(o: Owner) { o.InClearChan? || o.AtClearer? }

  ghost predicate ReleasedAt(c: Config, blocks: seq<Block>, disk: seq<nat>, b: nat)
    requires c.interval > 0
  {
    b < |blocks| && Released(blocks[b].owner) ==> Releasable(c, disk, blocks[b])
  }

  ghost predicate ReleasedOk(c: Config, blocks: seq<Block>, disk: seq<nat>)
    requires c.interval > 0
  {
    forall b: nat {:trigger ReleasedAt(c, blocks, disk, b)} :: ReleasedAt(c, blocks, disk, b)
  }

  ghost predicate WaitsTo(c: Config, files: seq<Bytes>, disk: seq<nat>, f: nat, end: nat, e: nat)
    requires c.interval > 0
  {
    f < |files| && f < |disk| && end <= e <= |files[f]| && Boundary(c, e) && e <= disk[f] + Behind(c)
  }

  /** The bytes up to `end` are all in full buffers. */
  ghost predicate Waits(c: Config, files: seq<Bytes>, disk: seq<nat>, f: nat, end: nat)
    requires c.interval > 0
  {
    exists e: nat :: WaitsTo(c, files, disk, f, end, e)
  }

  ghost predicate LocDisk(c: Config, files: seq<Bytes>, disk: seq<nat>, l: Loc)
    requires c.interval > 0
  {
    l.id.File? ==> !Removal(l.ts) && (Readable(disk, l) || Waits(c, files, disk, l.id.f, l.off + l.len))
  }

  ghost predicate LocsDisk(c: Config, loc: Map, files: seq<Bytes>, disk: seq<nat>)
    requires c.interval > 0
  {
    forall k {:trigger loc[k]} :: k in loc ==> LocDisk(c, files, disk, loc[k])
  }

  /** The record has left its page. */
  predicate OffPage(p: Place) { p.InTb? || p.InTocChan? || p.InToc? || p.Lost? }

  ghost predicate RecFiled(place: seq<Place>, r: Rec) { r.wid < |place| && OffPage(place[r.wid]) }

  ghost predicate AllFiled(place: seq<Place>, recs: seq<Rec>)
  {
    forall i {:trigger recs[i]} :: 0 <= i < |recs| ==> RecFiled(place, recs[i])
  }

  ghost predicate LocFiled(place: seq<Place>, l: Loc)
  {
    l.id.File? ==> l.aux < |place| && OffPage(place[l.aux])
  }

  ghost predicate FiledOk(place: seq<Place>, loc: Map, tbs: seq<Option<TocBlock>>, tocChan: map<nat, TocMsg>,
                          tocs: map<nat, seq<Rec>>)
  {
    && (forall k {:trigger loc[k]} :: k in loc ==> LocFiled(place, loc[k]))
    && (forall j {:trigger tbs[j]} :: 0 <= j < |tbs| && tbs[j].Some? ==> AllFiled(place, tbs[j].value.recs))
    && (forall t {:trigger tocChan[t]} :: t in tocChan ==> AllFiled(place, tocChan[t].tb.recs))
    && (forall f {:trigger tocs[f]} :: f in tocs ==> AllFiled(place, tocs[f]))
  }

  /** During a shutdown a page in fileMemBlockChan is ahead of its writer's token. */
  ghost predicate AheadOfShutdown(d: Drain, blocks: seq<Block>, b: nat)
  {
    b < |blocks| && blocks[b].owner.InFileChan? ==>
      var o := blocks[b].owner;
      o.w < |d.wtok| && (d.wtok[o.w].WWait? || (d.wtok[o.w].WSent? && o.t < d.wtok[o.w].t))
  }

  ghost predicate ShutOk(mode: Mode, d: Drain, blocks: seq<Block>, open: Option<nat>)
  {
    && (mode.Draining? && mode.shutdown ==>
          && (forall b: nat {:trigger AheadOfShutdown(d, blocks, b)} :: AheadOfShutdown(d, blocks, b))
          && ((forall w :: 0 <= w < |d.wtok| ==> d.wtok[w].WDone?) ==> open.None?))
    && (mode.Stopped? ==> open.None? && forall b :: 0 <= b < |blocks| ==> !blocks[b].owner.InFileChan?)
  }

  ghost predicate Extra(c: Config, s: State)
    requires c.interval > 0
  {
    && DiskOk(c, s.files, s.disk, s.open, s.closing)
    && ReleasedOk(c, s.blocks, s.disk)
    && LocsDisk(c, s.loc, s.files, s.disk)
    && FiledOk(s.place, s.loc, s.tbs, s.tocChan, s.tocs)
    && ShutOk(s.mode, s.drain, s.blocks, s.open)
  }

  ghost predicate Inv(c: Config, s: State) { Core(c, s) && Extra(c, s) }

  // ---------------------------------------------------------------- steps that only add

  predicate DiskGrows(disk: seq<nat>, disk': seq<nat>)
  {
    |disk| <= |disk'| && forall f :: 0 <= f < |disk| ==> disk[f] <= disk'[f]
  }

  /** Nothing is released, filed or located in a file that was not before. */
  ghost predicate Calm(s: State, s': State)
  {
    && FilesGrow(s.files, s'.files) && DiskGrows(s.disk, s'.disk)
    && |s'.blocks| == |s.blocks|
    && (forall b :: 0 <= b < |s.blocks| && Released(s'.blocks[b].owner) ==>
          && Released(s.blocks[b].owner) && s'.blocks[b].values == s.blocks[b].values
          && s'.blocks[b].file == s.blocks[b].file && s'.blocks[b].foff == s.blocks[b].foff)
    && (forall k :: k in s'.loc && s'.loc[k].id.File? ==> k in s.loc && s.loc[k] == s'.loc[k])
    && PlacesStay(s.place, s'.place)
    && s'.tbs == s.tbs && s'.tocChan == s.tocChan && s'.tocs == s.tocs
  }

  ghost predicate PlacesStay(place: seq<Place>, place': seq<Place>)
  {
    |place| <= |place'| && forall n :: 0 <= n < |place| && OffPage(place[n]) ==> OffPage(place'[n])
  }

  lemma ReleasedGrows(c: Config, disk: seq<nat>, disk': seq<nat>, blk: Block, blk': Block)
    requires c.interval > 0 && DiskGrows(disk, disk') && Releasable(c, disk, blk)
    requires blk'.values == blk.values && blk'.file == blk.file && blk'.foff == blk.foff
    ensures Releasable(c, disk', blk')
  {
  }

  lemma LocGrows(c: Config, files: seq<Bytes>, files': seq<Bytes>, disk: seq<nat>, disk': seq<nat>, l: Loc)
    requires c.interval > 0 && FilesGrow(files, files') && DiskGrows(disk, disk') && LocDisk(c, files, disk, l)
    ensures LocDisk(c, files', disk', l)
  {
    if l.id.File? && !Readable(disk, l) {
      var e: nat :| WaitsTo(c, files, disk, l.id.f, l.off + l.len, e);
      assert WaitsTo(c, files', disk', l.id.f, l.off + l.len, e);
    }
  }

  lemma FiledStays(place: seq<Place>, place': seq<Place>, recs: seq<Rec>)
    requires PlacesStay(place, place') && AllFiled(place, recs)
    ensures AllFiled(place', recs)
  {
    forall i | 0 <= i < |recs| ensures RecFiled(place', recs[i]) { assert RecFiled(place, recs[i]); }
  }

  lemma CalmKeeps(c: Config, s: State, s': State)
    requires c.interval > 0 && Calm(s, s')
    requires ReleasedOk(c, s.blocks, s.disk) && LocsDisk(c, s.loc, s.files, s.disk)
    requires FiledOk(s.place, s.loc, s.tbs, s.tocChan, s.tocs)
    ensures ReleasedOk(c, s'.blocks, s'.disk) && LocsDisk(c, s'.loc, s'.files, s'.disk)
    ensures FiledOk(s'.place, s'.loc, s'.tbs, s'.tocChan, s'.tocs)
  {
    forall b: nat ensures ReleasedAt(c, s'.blocks, s'.disk, b) {
      assert ReleasedAt(c, s.blocks, s.disk, b);
      if b < |s.blocks| && Released(s'.blocks[b].owner) {
        ReleasedGrows(c, s.disk, s'.disk, s.blocks[b], s'.blocks[b]);
      }
    }
    forall k | k in s'.loc ensures LocDisk(c, s'.files, s'.disk, s'.loc[k]) && LocFiled(s'.place, s'.loc[k]) {
      if s'.loc[k].id.File? {
        assert LocDisk(c, s.files, s.disk, s.loc[k]) && LocFiled(s.place, s.loc[k]);
        LocGrows(c, s.files, s'.files, s.disk, s'.disk, s.loc[k]);
      }
    }
    RecsStay(s.place, s'.place, s.tbs, s.tocChan, s.tocs, s.loc);
  }

  lemma RecsStay(place: seq<Place>, place': seq<Place>, tbs: seq<Option<TocBlock>>, tocChan: map<nat, TocMsg>,
                 tocs: map<nat, seq<Rec>>, loc: Map)
    requires PlacesStay(place, place') && FiledOk(place, loc, tbs, tocChan, tocs)
    ensures forall j {:trigger tbs[j]} :: 0 <= j < |tbs| && tbs[j].Some? ==> AllFiled(place', tbs[j].value.recs)
    ensures forall t {:trigger tocChan[t]} :: t in tocChan ==> AllFiled(place', tocChan[t].tb.recs)
    ensures forall f {:trigger tocs[f]} :: f in tocs ==> AllFiled(place', tocs[f])
  {
    forall j | 0 <= j < |tbs| && tbs[j].Some? ensures AllFiled(place', tbs[j].value.recs) {
      FiledStays(place, place', tbs[j].value.recs);
    }
    forall t | t in tocChan ensures AllFiled(place', tocChan[t].tb.recs) {
      FiledStays(place, place', tocChan[t].tb.recs);
    }
    forall f | f in tocs ensures AllFiled(place', tocs[f]) { FiledStays(place, place', tocs[f]); }
  }

  /** Nothing of what is on disk and of the flush in progress changes. */
  ghost predicate SameDisk(s: State, s': State)
  {
    && s'.files == s.files && s'.disk == s.disk && s'.open == s.open && s'.closing == s.closing
    && s'.mode == s.mode && s'.drain == s.drain
  }

  /** No page enters fileMemBlockChan. */
  ghost predicate NoneSealed(blocks: seq<Block>, blocks': seq<Block>)
  {
    && |blocks'| == |blocks|
    && forall b :: 0 <= b < |blocks| && blocks'[b].owner.InFileChan? ==> blocks[b].owner == blocks'[b].owner
  }

  lemma ShutFrame(mode: Mode, d: Drain, blocks: seq<Block>, open: Option<nat>, blocks': seq<Block>)
    requires ShutOk(mode, d, blocks, open) && NoneSealed(blocks, blocks')
    ensures ShutOk(mode, d, blocks', open)
  {
    forall b: nat ensures AheadOfShutdown(d, blocks, b) ==> AheadOfShutdown(d, blocks', b) {
    }
    if mode.Draining? && mode.shutdown {
      forall b: nat ensures AheadOfShutdown(d, blocks', b) { assert AheadOfShutdown(d, blocks, b); }
    }
  }

  // ---------------------------------------------------------------- memWriter and reader steps

  predicate WriterStep(a: Step)
  {
    a.TakeFree? || a.Extend? || a.Copy? || a.PlaceInMap? || a.Record? || a.Truncate? || a.Seal?
  }

  lemma ExtendCalm(c: Config, s: State, a: Step)
    requires Shape(c, s) && Enabled(c, s, a) && (a.TakeFree? || a.Extend? || a.Seal?)
    ensures Calm(s, Pipeline.Apply(c, s, a)) && SameDisk(s, Pipeline.Apply(c, s, a))
    ensures !a.Seal? ==> NoneSealed(s.blocks, Pipeline.Apply(c, s, a).blocks)
  {
  }

  lemma CopyCalm(c: Config, s: State, a: Step)
    requires Shape(c, s) && Enabled(c, s, a) && (a.Copy? || a.Truncate?)
    ensures Calm(s, Pipeline.Apply(c, s, a)) && SameDisk(s, Pipeline.Apply(c, s, a))
    ensures NoneSealed(s.blocks, Pipeline.Apply(c, s, a).blocks)
  {
    assert WriterShape(s.writers, s.blocks, a.w);
  }

  lemma SetInMemory(m: Map, k: Key, l: Loc, evenIfSame: bool)
    requires !l.id.File?
    ensures var m' := Set(m, k, l, evenIfSame);
            forall j :: j in m' && m'[j].id.File? ==> j in m && m[j] == m'[j]
  {
  }

  lemma PlaceFields(s: State, w: nat)
    requires w < |s.writers| && s.writers[w].Copied?
    ensures var s' := ApplyPlace(s, w);
            && SameDisk(s, s') && PlacesStay(s.place, s'.place)
            && s'.blocks == s.blocks && s'.tbs == s.tbs && s'.tocChan == s.tocChan && s'.tocs == s.tocs
  {
  }

  lemma PlaceLocs(s: State, w: nat)
    requires w < |s.writers| && s.writers[w].Copied?
    ensures var loc := ApplyPlace(s, w).loc;
            forall k :: k in loc && loc[k].id.File? ==> k in s.loc && s.loc[k] == loc[k]
  {
    var Copied(b, req, off) := s.writers[w];
    var l := Loc(Stored(req.ts), Mem(b), off, |req.val|, |s.log|);
    assert ApplyPlace(s, w).loc == Set(s.loc, req.key, l, Rewrite(req.ts));
    SetInMemory(s.loc, req.key, l, Rewrite(req.ts));
  }

  lemma PlaceCalm(s: State, w: nat)
    requires w < |s.writers| && s.writers[w].Copied?
    ensures Calm(s, ApplyPlace(s, w)) && SameDisk(s, ApplyPlace(s, w))
    ensures NoneSealed(s.blocks, ApplyPlace(s, w).blocks)
  {
    PlaceFields(s, w);
    PlaceLocs(s, w);
    MapCalm(s, ApplyPlace(s, w));
  }

  /** Steps that leave pages and files alone, and locate nothing in a file. */
  lemma MapCalm(s: State, s': State)
    requires s'.blocks == s.blocks && s'.files == s.files && s'.disk == s.disk
    requires s'.tbs == s.tbs && s'.tocChan == s.tocChan && s'.tocs == s.tocs && PlacesStay(s.place, s'.place)
    requires forall k :: k in s'.loc && s'.loc[k].id.File? ==> k in s.loc && s.loc[k] == s'.loc[k]
    ensures Calm(s, s')
  {
  }

  lemma RecordCalm(c: Config, s: State, w: nat)
    requires Shape(c, s) && PcsOk(s.writers, s.blocks, s.log, s.place) && RecordGuard(c, s, w)
    ensures WriterShape(s.writers, s.blocks, w)
    ensures Calm(s, ApplyRecord(s, w)) && SameDisk(s, ApplyRecord(s, w))
    ensures NoneSealed(s.blocks, ApplyRecord(s, w).blocks)
  {
    assert WriterShape(s.writers, s.blocks, w);
    assert PcOk(s.writers, s.blocks, s.log, s.place, w);
  }

  lemma WriterIsCalm(c: Config, s: State, a: Step)
    requires Core(c, s) && Enabled(c, s, a) && WriterStep(a)
    ensures Calm(s, Pipeline.Apply(c, s, a)) && SameDisk(s, Pipeline.Apply(c, s, a))
    ensures !a.Seal? ==> NoneSealed(s.blocks, Pipeline.Apply(c, s, a).blocks)
  {
    if a.PlaceInMap? {
      PlaceCalm(s, a.w);
    } else if a.Record? {
      RecordCalm(c, s, a.w);
    } else if a.Copy? || a.Truncate? {
      CopyCalm(c, s, a);
    } else {
      ExtendCalm(c, s, a);
    }
  }

  lemma SealShut(c: Config, s: State, w: nat, b: nat)
    requires Core(c, s) && SealGuard(c, s, w, b) && ShutOk(s.mode, s.drain, s.blocks, s.open)
    ensures ShutOk(s.mode, s.drain, SetOwner(s, b, InFileChan(w, s.clock)).blocks, s.open)
  {
    var blocks := SetOwner(s, b, InFileChan(w, s.clock)).blocks;
    if s.mode.Draining? && s.mode.shutdown {
      forall x: nat ensures AheadOfShutdown(s.drain, blocks, x) { assert AheadOfShutdown(s.drain, s.blocks, x); }
    }
  }

  lemma WriterKeepsExtra(c: Config, s: State, a: Step)
    requires Inv(c, s) && Enabled(c, s, a) && WriterStep(a)
    ensures Extra(c, Pipeline.Apply(c, s, a))
  {
    var s' := Pipeline.Apply(c, s, a);
    WriterIsCalm(c, s, a);
    CalmKeeps(c, s, s');
    if a.Seal? {
      SealShut(c, s, a.w, a.b);
    } else {
      ShutFrame(s.mode, s.drain, s.blocks, s.open, s'.blocks);
    }
  }

  lemma ReaderKeepsExtra(c: Config, s: State, a: Step)
    requires Inv(c, s) && Enabled(c, s, a) && (a.ReadStart? || a.ReadLock? || a.ReadCopy?)
    ensures Extra(c, Pipeline.Apply(c, s, a))
  {
    var s' := Pipeline.Apply(c, s, a);
    assert s' == s.(readers := s'.readers);
  }

  // ---------------------------------------------------------------- fileWriter steps

  lemma BoundaryStep(c: Config, n: nat)
    requires c.interval > 0 && Boundary(c, n)
    ensures Boundary(c, n + c.interval)
  {
    Framing.DivStep(n + c.interval, c.interval);
  }

  lemma BoundaryZero(c: Config)
    requires c.interval > 0
    ensures Boundary(c, 0)
  {
    Framing.DivUnique(0, c.interval, 0, 0);
  }

  lemma DiskFrame(c: Config, s: State, s': State, f: nat)
    requires c.interval > 0 && DiskOk(c, s.files, s.disk, s.open, s.closing)
    requires |s'.disk| == |s'.files| && |s'.files| >= |s.files| && (s'.open.None? ==> !s'.closing)
    requires forall g: nat :: g < |s'.files| && g != f ==>
               g < |s.files| && s'.files[g] == s.files[g] && s'.disk[g] == s.disk[g]
               && (s.open == Some(g) <==> s'.open == Some(g))
    requires s'.closing == s.closing || forall g: nat :: g < |s'.files| && g != f ==> s.open != Some(g)
    requires FileDisk(c, s'.files, s'.disk, s'.open, s'.closing, f)
    ensures DiskOk(c, s'.files, s'.disk, s'.open, s'.closing)
  {
    forall g: nat ensures FileDisk(c, s'.files, s'.disk, s'.open, s'.closing, g) {
      assert FileDisk(c, s.files, s.disk, s.open, s.closing, g);
    }
  }

  lemma OpenFileExtra(c: Config, s: State, header: Bytes)
    requires Inv(c, s) && OpenFileGuard(c, s, header)
    ensures Extra(c, ApplyOpenFile(s, header))
  {
    var s' := ApplyOpenFile(s, header);
    CalmKeeps(c, s, s');
    BoundaryZero(c);
    DiskFrame(c, s, s', |s.files|);
    var b :| 0 <= b < |s.blocks| && s.blocks[b].owner.InFileChan?;
    if s.mode.Draining? && s.mode.shutdown {
      assert AheadOfShutdown(s.drain, s.blocks, b);
      assert !s.drain.wtok[s.blocks[b].owner.w].WDone?;
    }
  }

  lemma WriteBlockExtra(c: Config, s: State, b: nat)
    requires Inv(c, s) && WriteBlockGuard(c, s, b)
    ensures Extra(c, ApplyWriteBlock(s, b))
  {
    var s' := ApplyWriteBlock(s, b);
    CalmKeeps(c, s, s');
    assert FileDisk(c, s.files, s.disk, s.open, s.closing, s.open.value);
    DiskFrame(c, s, s', s.open.value);
    ShutFrame(s.mode, s.drain, s.blocks, s.open, s'.blocks);
  }

  lemma WriteBufExtra(c: Config, s: State)
    requires Inv(c, s) && WriteBufGuard(c, s)
    ensures Extra(c, ApplyDisk(s, s.disk[s.open.value] + c.interval, false))
  {
    var f := s.open.value;
    var s' := ApplyDisk(s, s.disk[f] + c.interval, false);
    assert FileDisk(c, s.files, s.disk, s.open, s.closing, f);
    BoundaryStep(c, s.disk[f]);
    CalmKeeps(c, s, s');
    DiskFrame(c, s, s', f);
  }

  lemma CloseTailExtra(c: Config, s: State)
    requires Inv(c, s) && CloseTailGuard(c, s)
    ensures Extra(c, ApplyDisk(s, |s.files[s.open.value]|, true))
  {
    var f := s.open.value;
    var s' := ApplyDisk(s, |s.files[f]|, true);
    assert FileDisk(c, s.files, s.disk, s.open, s.closing, f);
    CalmKeeps(c, s, s');
    DiskFrame(c, s, s', f);
  }

  lemma CloseFileExtra(c: Config, s: State)
    requires Inv(c, s) && CloseFileGuard(c, s)
    ensures Extra(c, s.(open := None, closing := false))
  {
    var s' := s.(open := None, closing := false);
    forall g: nat ensures FileDisk(c, s'.files, s'.disk, s'.open, s'.closing, g) {
      assert FileDisk(c, s.files, s.disk, s.open, s.closing, g);
    }
    CalmKeeps(c, s, s');
  }

  lemma ReleaseExtra(c: Config, s: State, b: nat, j: nat)
    requires Inv(c, s) && ReleaseGuard(c, s, b, j)
    ensures Extra(c, SetOwner(s, b, InClearChan(j, s.clock)).(clock := s.clock + 1))
  {
    var s' := SetOwner(s, b, InClearChan(j, s.clock)).(clock := s.clock + 1);
    forall x: nat ensures ReleasedAt(c, s'.blocks, s'.disk, x) { assert ReleasedAt(c, s.blocks, s.disk, x); }
    ShutFrame(s.mode, s.drain, s.blocks, s.open, s'.blocks);
  }

  // ---------------------------------------------------------------- tokens

  /** Steps that change only mode, drain and clock. */
  lemma TokenFrame(c: Config, s: State, s': State)
    requires Inv(c, s) && s' == s.(mode := s'.mode, drain := s'.drain, clock := s'.clock, flushed := s'.flushed,
                                   tocA := s'.tocA, tocB := s'.tocB)
    requires ShutOk(s'.mode, s'.drain, s'.blocks, s'.open)
    ensures Extra(c, s')
  {
  }

  lemma StartDrainExtra(c: Config, s: State, shutdown: bool)
    requires Inv(c, s) && StartDrainGuard(c, s)
    ensures Extra(c, s.(mode := Draining(shutdown, |s.log|), drain := FreshDrain(c)))
  {
    var s' := s.(mode := Draining(shutdown, |s.log|), drain := FreshDrain(c));
    forall b: nat ensures AheadOfShutdown(s'.drain, s'.blocks, b) {
      assert BlockShape(c, s.blocks, s.clock, s.open, |s.files|, b);
    }
    assert s'.drain.wtok[0].WWait?;
    TokenFrame(c, s, s');
  }

  lemma WriterTokenExtra(c: Config, s: State, w: nat)
    requires Inv(c, s) && WriterTokenGuard(c, s, w)
    ensures Extra(c, s.(drain := s.drain.(wtok := s.drain.wtok[w := WSent(s.clock)]), clock := s.clock + 1))
  {
    var s' := s.(drain := s.drain.(wtok := s.drain.wtok[w := WSent(s.clock)]), clock := s.clock + 1);
    if s.mode.shutdown {
      forall b: nat ensures AheadOfShutdown(s'.drain, s'.blocks, b) {
        assert AheadOfShutdown(s.drain, s.blocks, b);
        assert BlockShape(c, s.blocks, s.clock, s.open, |s.files|, b);
      }
    }
    assert s'.drain.wtok[w].WSent?;
    TokenFrame(c, s, s');
  }

  lemma FileTokenExtra(c: Config, s: State, w: nat)
    requires Inv(c, s) && FileTokenGuard(c, s, w)
    ensures Extra(c, ApplyFileToken(c, s, w))
  {
    var s' := ApplyFileToken(c, s, w);
    assert Phase1(s.drain);
    LastToken(s.drain.wtok, w);
    if s.mode.Draining? && s.mode.shutdown {
      forall b: nat ensures AheadOfShutdown(s'.drain, s'.blocks, b) { assert AheadOfShutdown(s.drain, s.blocks, b); }
      if forall x :: 0 <= x < |s'.drain.wtok| ==> s'.drain.wtok[x].WDone? {
        assert forall x :: 0 <= x < |s.drain.wtok| && x != w ==> s'.drain.wtok[x] == s.drain.wtok[x];
      }
    }
    TokenFrame(c, s, s');
  }

  // ---------------------------------------------------------------- memClearer and tocWriter steps

  lemma ClearTakeExtra(c: Config, s: State, j: nat, b: nat)
    requires Inv(c, s) && ClearTakeGuard(c, s, j, b)
    ensures Extra(c, SetOwner(s, b, AtClearer(j, 0)))
  {
    var s' := SetOwner(s, b, AtClearer(j, 0));
    CalmKeeps(c, s, s');
    ShutFrame(s.mode, s.drain, s.blocks, s.open, s'.blocks);
  }

  lemma ClearDoneExtra(c: Config, s: State, b: nat)
    requires Inv(c, s) && ClearDoneGuard(c, s, b)
    ensures Extra(c, s.(blocks := s.blocks[b := EMPTY_BLOCK]))
  {
    var s' := s.(blocks := s.blocks[b := EMPTY_BLOCK]);
    CalmKeeps(c, s, s');
    ShutFrame(s.mode, s.drain, s.blocks, s.open, s'.blocks);
  }

  /** The location memClearer sets is on disk, or in full buffers of a page that was released early. */
  lemma ClearedOnDisk(c: Config, s: State, b: nat)
    requires Inv(c, s) && ClearRecGuard(c, s, b)
    ensures LocDisk(c, s.files, s.disk, ClearedLoc(s.blocks[b], s.blocks[b].recs[s.blocks[b].owner.pos]))
  {
    var blk := s.blocks[b];
    var r := blk.recs[blk.owner.pos];
    assert MemRecOk(s.blocks, s.writers, s.log, s.place, b, blk.owner.pos);
    assert BlockInFile(s.blocks, s.files, b);
    assert ReleasedAt(c, s.blocks, s.disk, b);
    var l := ClearedLoc(blk, r);
    if l.id.File? && !Readable(s.disk, l) {
      assert WaitsTo(c, s.files, s.disk, blk.file, l.off + l.len, PageEnd(blk));
    }
  }

  lemma ClearReleased(c: Config, s: State, s': State, b: nat, j: nat, pos: nat, r: Rec)
    requires c.interval > 0 && ClearEffect(s, s', b, j, pos, r) && ReleasedOk(c, s.blocks, s.disk)
    ensures ReleasedOk(c, s'.blocks, s.disk) && NoneSealed(s.blocks, s'.blocks)
  {
    forall x: nat ensures ReleasedAt(c, s'.blocks, s.disk, x) { assert ReleasedAt(c, s.blocks, s.disk, x); }
  }

  /** One record leaves its page: others stay where they are. */
  lemma ClearStays(s: State, s': State, b: nat, j: nat, pos: nat, r: Rec)
    requires ClearEffect(s, s', b, j, pos, r)
    ensures PlacesStay(s.place, s'.place)
  {
  }

  lemma ClearFiled(s: State, s': State, b: nat, j: nat, pos: nat, r: Rec)
    requires ClearEffect(s, s', b, j, pos, r) && FiledOk(s.place, s.loc, s.tbs, s.tocChan, s.tocs)
    requires s'.loc == Set(s.loc, r.key, ClearedLoc(s.blocks[b], r), true)
    ensures FiledOk(s'.place, s'.loc, s'.tbs, s'.tocChan, s'.tocs)
  {
    ClearStays(s, s', b, j, pos, r);
    RecsStay(s.place, s'.place, s.tbs, s.tocChan, s.tocs, s.loc);
    LocsStay(s.place, s'.place, s.loc);
    forall k | k in s'.loc ensures LocFiled(s'.place, s'.loc[k]) {
      if k in s.loc { assert LocFiled(s'.place, s.loc[k]); }
    }
    forall x | 0 <= x < |s'.tbs| && s'.tbs[x].Some? ensures AllFiled(s'.place, s'.tbs[x].value.recs) {
      if s.tbs[x].Some? { assert AllFiled(s'.place, s.tbs[x].value.recs); }
    }
  }

  lemma SetDisk(c: Config, m: Map, files: seq<Bytes>, disk: seq<nat>, k: Key, l: Loc)
    requires c.interval > 0 && LocsDisk(c, m, files, disk) && LocDisk(c, files, disk, l)
    ensures LocsDisk(c, Set(m, k, l, true), files, disk)
  {
    var m' := Set(m, k, l, true);
    forall x | x in m' ensures LocDisk(c, files, disk, m'[x]) { if x in m { assert LocDisk(c, files, disk, m[x]); } }
  }

  lemma ClearFields(s: State, b: nat)
    requires b < |s.blocks| && s.blocks[b].owner.AtClearer? && s.blocks[b].owner.j < |s.tbs|
    requires s.blocks[b].owner.pos < |s.blocks[b].recs|
    ensures var s', r := ApplyClearRec(s, b), s.blocks[b].recs[s.blocks[b].owner.pos];
            SameDisk(s, s') && s'.loc == Set(s.loc, r.key, ClearedLoc(s.blocks[b], r), true)
  {
  }

  lemma ClearRecExtra(c: Config, s: State, b: nat)
    requires Inv(c, s) && ClearRecGuard(c, s, b)
    ensures Extra(c, ApplyClearRec(s, b))
  {
    var s' := ApplyClearRec(s, b);
    var AtClearer(j, pos) := s.blocks[b].owner;
    var r := s.blocks[b].recs[pos];
    ClearHasEffect(c, s, b);
    ClearFields(s, b);
    ClearedOnDisk(c, s, b);
    SetDisk(c, s.loc, s.files, s.disk, r.key, ClearedLoc(s.blocks[b], r));
    ClearFiled(s, s', b, j, pos, r);
    ClearReleased(c, s, s', b, j, pos, r);
    ShutFrame(s.mode, s.drain, s.blocks, s.open, s'.blocks);
  }

  lemma TbSendExtra(c: Config, s: State, j: nat)
    requires Inv(c, s) && TbSendGuard(c, s, j)
    ensures Extra(c, ApplyTbSend(s, j))
  {
    var s' := ApplyTbSend(s, j);
    assert PlacesStay(s.place, s'.place);
    RecsStay(s.place, s'.place, s.tbs, s.tocChan, s.tocs, s.loc);
    LocsStay(s.place, s'.place, s.loc);
  }

  lemma LocsStay(place: seq<Place>, place': seq<Place>, loc: Map)
    requires PlacesStay(place, place') && forall k {:trigger loc[k]} :: k in loc ==> LocFiled(place, loc[k])
    ensures forall k {:trigger loc[k]} :: k in loc ==> LocFiled(place', loc[k])
  {
  }

  lemma TocFiled(s: State, s': State, t: nat, f: nat, anew: bool)
    requires TocEffect(s, s', t, f, anew) && FiledOk(s.place, s.loc, s.tbs, s.tocChan, s.tocs) && s'.loc == s.loc
    ensures FiledOk(s'.place, s'.loc, s'.tbs, s'.tocChan, s'.tocs)
  {
    assert PlacesStay(s.place, s'.place);
    RecsStay(s.place, s'.place, s.tbs, s.tocChan, s.tocs, s.loc);
    LocsStay(s.place, s'.place, s.loc);
  }

  lemma TocTakeExtra(c: Config, s: State, t: nat)
    requires Inv(c, s) && TocTakeGuard(c, s, t)
    ensures Extra(c, ApplyTocTake(s, t))
  {
    TocHasEffect(s, t);
    TocFiled(s, ApplyTocTake(s, t), t, s.tocChan[t].tb.file, Anew(s, t));
  }

  lemma ClearTokenExtra(c: Config, s: State, j: nat)
    requires Inv(c, s) && ClearTokenGuard(c, s, j)
    ensures Extra(c, s.(drain := s.drain.(ctok := s.drain.ctok[j := CPassed(s.clock)]), clock := s.clock + 1))
  {
    var s' := s.(drain := s.drain.(ctok := s.drain.ctok[j := CPassed(s.clock)]), clock := s.clock + 1);
    forall b: nat ensures AheadOfShutdown(s.drain, s.blocks, b) ==> AheadOfShutdown(s'.drain, s'.blocks, b) { }
    TokenFrame(c, s, s');
  }

  lemma TocTokenExtra(c: Config, s: State, j: nat)
    requires Inv(c, s) && TocTokenGuard(c, s, j)
    ensures Extra(c, ApplyTocToken(c, s, j))
  {
    var s' := ApplyTocToken(c, s, j);
    assert Phase2(s.drain, s.open, |s.files|);
    forall b: nat
      ensures AheadOfShutdown(s.drain, s.blocks, b) ==> AheadOfShutdown(s'.drain, s'.blocks, b) || s.drain.cleft == 1
    {
    }
    if s'.mode.Stopped? {
      forall b | 0 <= b < |s.blocks| ensures !s.blocks[b].owner.InFileChan? {
        assert AheadOfShutdown(s.drain, s.blocks, b);
      }
    }
    TokenFrame(c, s, s');
  }
}
