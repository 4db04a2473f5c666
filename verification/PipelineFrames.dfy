/** Which steps of the pipeline leave the flush in progress, and the places of TOC records, alone. */
module PipelineFrames {
  import opened Base
  import opened Stamp
  import opened LocMap
  import opened Pipeline
  import opened PipelineDisk
  import opened PipelineRuns

  /** Mode, tokens and what was flushed are as they were. */
  ghost predicate Control(s: State, s': State) { s'.drain == s.drain && s'.mode == s.mode && s'.flushed == s.flushed }

  predicate ReaderStep(a: Step) { a.ReadStart? || a.ReadLock? || a.ReadCopy? }

  lemma SizeControl(c: Config, s: State, a: Step)
    requires Shape(c, s) && Enabled(c, s, a) && (a.TakeFree? || a.Extend? || a.Seal?)
    ensures Control(s, Pipeline.Apply(c, s, a))
  {
  }

  lemma RequestControl(c: Config, s: State, a: Step)
    requires Shape(c, s) && Enabled(c, s, a) && (a.Copy? || a.Record? || a.Truncate?)
    ensures Control(s, Pipeline.Apply(c, s, a))
  {
  }

  lemma PlaceControl(s: State, w: nat)
    requires w < |s.writers| && s.writers[w].Copied?
    ensures Control(s, ApplyPlace(s, w))
  {
  }

  lemma WriterControl(c: Config, s: State, a: Step)
    requires Shape(c, s) && Enabled(c, s, a) && WriterStep(a)
    ensures Control(s, Pipeline.Apply(c, s, a))
  {
    if a.PlaceInMap? {
      PlaceControl(s, a.w);
    } else if a.TakeFree? || a.Extend? || a.Seal? {
      SizeControl(c, s, a);
    } else {
      RequestControl(c, s, a);
    }
  }

  lemma FileControl(c: Config, s: State, a: Step)
    requires Shape(c, s) && Enabled(c, s, a) && FileStep(a)
    ensures Control(s, Pipeline.Apply(c, s, a))
  {
  }

  lemma RecordControl(s: State, b: nat)
    requires b < |s.blocks| && s.blocks[b].owner.AtClearer? && s.blocks[b].owner.j < |s.tbs|
    requires s.blocks[b].owner.pos < |s.blocks[b].recs|
    ensures Control(s, ApplyClearRec(s, b))
  {
  }

  lemma SendControl(s: State, j: nat)
    requires j < |s.tbs| && s.tbs[j].Some?
    ensures Control(s, ApplyTbSend(s, j))
  {
  }

  lemma TakeControl(s: State, t: nat)
    requires t in s.tocChan
    requires (s.tocA.Some? ==> s.tocA.value in s.tocs) && (s.tocB.Some? ==> s.tocB.value in s.tocs)
    ensures Control(s, ApplyTocTake(s, t))
  {
  }

  lemma PageControl(c: Config, s: State, a: Step)
    requires Shape(c, s) && Enabled(c, s, a) && (a.ClearTake? || a.ClearDone?)
    ensures Control(s, Pipeline.Apply(c, s, a))
  {
  }

  lemma ClearControl(c: Config, s: State, a: Step)
    requires Shape(c, s) && Enabled(c, s, a) && ClearStep(a)
    ensures Control(s, Pipeline.Apply(c, s, a))
  {
    if a.ClearRec? {
      RecordControl(s, a.b);
    } else if a.TbSend? {
      SendControl(s, a.j);
    } else if a.TocTake? {
      TakeControl(s, a.t);
    } else {
      PageControl(c, s, a);
    }
  }

  /** Only the reader changes. */
  predicate ReaderOnly(s: State, s': State) { s' == s.(readers := s'.readers) }

  lemma LockOnly(s: State, r: nat)
    requires r < |s.readers| && s.readers[r].AtBlock?
    ensures ReaderOnly(s, ApplyReadLock(s, r))
  {
  }

  lemma CopyOnly(s: State, r: nat)
    requires r < |s.readers| && s.readers[r].Holding?
    ensures ReaderOnly(s, ApplyReadCopy(s, r))
  {
  }

  lemma ReaderControl(c: Config, s: State, a: Step)
    requires Shape(c, s) && Enabled(c, s, a) && ReaderStep(a)
    ensures ReaderOnly(s, Pipeline.Apply(c, s, a))
  {
    if a.ReadLock? {
      LockOnly(s, a.r);
    } else if a.ReadCopy? {
      CopyOnly(s, a.r);
    }
  }

  /** Only tokens and a restart change them. */
  lemma ControlKept(c: Config, s: State, a: Step)
    requires Shape(c, s) && Enabled(c, s, a) && !TokenStep(a) && !a.Restart?
    ensures Control(s, Pipeline.Apply(c, s, a))
  {
    if WriterStep(a) {
      WriterControl(c, s, a);
    } else if FileStep(a) {
      FileControl(c, s, a);
    } else if ClearStep(a) {
      ClearControl(c, s, a);
    } else {
      ReaderControl(c, s, a);
    }
  }

  /** The steps that move a TOC record. */
  predicate MovesRecord(a: Step) { a.PlaceInMap? || a.Record? || a.ClearRec? || a.TbSend? || a.TocTake? }

  lemma WriterPlaces(c: Config, s: State, a: Step)
    requires Shape(c, s) && Enabled(c, s, a) && WriterStep(a) && !MovesRecord(a)
    ensures Pipeline.Apply(c, s, a).place == s.place
  {
  }

  lemma FilePlaces(c: Config, s: State, a: Step)
    requires Shape(c, s) && Enabled(c, s, a) && (FileStep(a) || a.ClearTake? || a.ClearDone? || a.Restart?)
    ensures Pipeline.Apply(c, s, a).place == s.place
  {
  }

  lemma StartPlaces(c: Config, s: State, a: Step)
    requires Shape(c, s) && Enabled(c, s, a) && (a.StartDrain? || a.WriterToken? || a.ClearToken?)
    ensures Pipeline.Apply(c, s, a).place == s.place
    ensures Pipeline.Apply(c, s, a).flushed == s.flushed
    ensures !a.StartDrain? ==> Pipeline.Apply(c, s, a).mode == s.mode
  {
  }

  lemma FileTokenPlaces(c: Config, s: State, w: nat)
    requires w < |s.drain.wtok|
    ensures var s' := ApplyFileToken(c, s, w); s'.place == s.place && s'.mode == s.mode && s'.flushed == s.flushed
  {
  }

  lemma TocTokenPlaces(c: Config, s: State, j: nat)
    requires j < |s.drain.ctok|
    ensures ApplyTocToken(c, s, j).place == s.place
  {
  }

  lemma PlacesKept(c: Config, s: State, a: Step)
    requires Shape(c, s) && Enabled(c, s, a) && !MovesRecord(a)
    ensures Pipeline.Apply(c, s, a).place == s.place
  {
    if WriterStep(a) {
      WriterPlaces(c, s, a);
    } else if ReaderStep(a) {
      ReaderControl(c, s, a);
    } else if a.FileToken? {
      FileTokenPlaces(c, s, a.w);
    } else if a.TocToken? {
      TocTokenPlaces(c, s, a.j);
    } else if TokenStep(a) {
      StartPlaces(c, s, a);
    } else {
      FilePlaces(c, s, a);
    }
  }

  predicate ModeStill(a: Step) { !a.StartDrain? && !a.TocToken? && !a.Restart? }

  /** Only starting a drain, the last token and a restart change the mode and what was flushed. */
  lemma ModeIsKept(c: Config, s: State, a: Step)
    requires Shape(c, s) && Enabled(c, s, a) && ModeStill(a)
    ensures Pipeline.Apply(c, s, a).mode == s.mode && Pipeline.Apply(c, s, a).flushed == s.flushed
  {
    if a.FileToken? {
      FileTokenPlaces(c, s, a.w);
    } else if TokenStep(a) {
      StartPlaces(c, s, a);
    } else {
      ControlKept(c, s, a);
    }
  }

  // ---------------------------------------------------------------- files and TOC files

  /** Value files, and how much of them is on disk, are as they were; the log only grows. */
  ghost predicate Storage(s: State, s': State)
  {
    s'.files == s.files && s'.disk == s.disk && s'.open == s.open && s'.closing == s.closing && s.log <= s'.log
  }

  /** So are the TOC files. */
  ghost predicate Tocs(s: State, s': State) { s'.tocs == s.tocs && s'.tocA == s.tocA && s'.tocB == s.tocB }

  lemma SizeStorage(c: Config, s: State, a: Step)
    requires Shape(c, s) && Enabled(c, s, a) && (a.TakeFree? || a.Extend? || a.Seal?)
    ensures Storage(s, Pipeline.Apply(c, s, a)) && Tocs(s, Pipeline.Apply(c, s, a))
  {
  }

  lemma RequestStorage(c: Config, s: State, a: Step)
    requires Shape(c, s) && Enabled(c, s, a) && (a.Copy? || a.Record? || a.Truncate?)
    ensures Storage(s, Pipeline.Apply(c, s, a)) && Tocs(s, Pipeline.Apply(c, s, a))
  {
  }

  lemma PlaceStorage(s: State, w: nat)
    requires w < |s.writers| && s.writers[w].Copied?
    ensures Storage(s, ApplyPlace(s, w)) && Tocs(s, ApplyPlace(s, w))
  {
  }

  lemma WriterStorage(c: Config, s: State, a: Step)
    requires Shape(c, s) && Enabled(c, s, a) && WriterStep(a)
    ensures Storage(s, Pipeline.Apply(c, s, a)) && Tocs(s, Pipeline.Apply(c, s, a))
  {
    if a.PlaceInMap? {
      PlaceStorage(s, a.w);
    } else if a.TakeFree? || a.Extend? || a.Seal? {
      SizeStorage(c, s, a);
    } else {
      RequestStorage(c, s, a);
    }
  }

  lemma RecordStorage(s: State, b: nat)
    requires b < |s.blocks| && s.blocks[b].owner.AtClearer? && s.blocks[b].owner.j < |s.tbs|
    requires s.blocks[b].owner.pos < |s.blocks[b].recs|
    ensures Storage(s, ApplyClearRec(s, b)) && Tocs(s, ApplyClearRec(s, b))
  {
  }

  lemma SendStorage(s: State, j: nat)
    requires j < |s.tbs| && s.tbs[j].Some?
    ensures Storage(s, ApplyTbSend(s, j)) && Tocs(s, ApplyTbSend(s, j))
  {
  }

  lemma TakeStorage(s: State, t: nat)
    requires t in s.tocChan
    requires (s.tocA.Some? ==> s.tocA.value in s.tocs) && (s.tocB.Some? ==> s.tocB.value in s.tocs)
    ensures Storage(s, ApplyTocTake(s, t))
  {
  }

  lemma PageStorage(c: Config, s: State, a: Step)
    requires Shape(c, s) && Enabled(c, s, a) && (a.ClearTake? || a.ClearDone?)
    ensures Storage(s, Pipeline.Apply(c, s, a)) && Tocs(s, Pipeline.Apply(c, s, a))
  {
  }

  lemma StartStorage(c: Config, s: State, a: Step)
    requires Shape(c, s) && Enabled(c, s, a) && (a.StartDrain? || a.WriterToken? || a.ClearToken?)
    ensures Storage(s, Pipeline.Apply(c, s, a)) && Tocs(s, Pipeline.Apply(c, s, a))
  {
  }

  lemma FileTokenStorage(c: Config, s: State, w: nat)
    requires w < |s.drain.wtok|
    ensures Storage(s, ApplyFileToken(c, s, w)) && Tocs(s, ApplyFileToken(c, s, w))
  {
  }

  lemma TocTokenStorage(c: Config, s: State, j: nat)
    requires j < |s.drain.ctok|
    ensures Storage(s, ApplyTocToken(c, s, j))
  {
  }

  /** Only fileWriter's steps and a restart touch value files. */
  lemma StorageKept(c: Config, s: State, a: Step)
    requires Shape(c, s) && Enabled(c, s, a) && !FileStep(a) && !a.Restart?
    ensures Storage(s, Pipeline.Apply(c, s, a))
  {
    if a.TocTake? {
      TakeStorage(s, a.t);
    } else if a.TocToken? {
      TocTokenStorage(c, s, a.j);
    } else {
      OtherStorage(c, s, a);
    }
  }

  lemma FileTocs(c: Config, s: State, a: Step)
    requires Shape(c, s) && Enabled(c, s, a) && FileStep(a)
    ensures Tocs(s, Pipeline.Apply(c, s, a))
  {
  }

  lemma OtherStorage(c: Config, s: State, a: Step)
    requires Shape(c, s) && Enabled(c, s, a) && !FileStep(a) && !a.Restart? && !a.TocTake? && !a.TocToken?
    ensures Storage(s, Pipeline.Apply(c, s, a)) && Tocs(s, Pipeline.Apply(c, s, a))
  {
    if WriterStep(a) {
      WriterStorage(c, s, a);
    } else if ReaderStep(a) {
      ReaderControl(c, s, a);
    } else if a.ClearRec? {
      RecordStorage(s, a.b);
    } else if a.TbSend? {
      SendStorage(s, a.j);
    } else if a.FileToken? {
      FileTokenStorage(c, s, a.w);
    } else if TokenStep(a) {
      StartStorage(c, s, a);
    } else {
      PageStorage(c, s, a);
    }
  }

  /** Only tocWriter's steps and a restart touch TOC files. */
  lemma TocsKept(c: Config, s: State, a: Step)
    requires Shape(c, s) && Enabled(c, s, a) && !a.TocTake? && !a.TocToken? && !a.Restart?
    ensures Tocs(s, Pipeline.Apply(c, s, a))
  {
    if FileStep(a) { FileTocs(c, s, a); } else { OtherStorage(c, s, a); }
  }

  // ---------------------------------------------------------------- the location map

  /** The steps that set the location map. */
  predicate SetsMap(a: Step) { a.PlaceInMap? || a.ClearRec? || a.Restart? }

  lemma WriterMap(c: Config, s: State, a: Step)
    requires Shape(c, s) && Enabled(c, s, a) && WriterStep(a) && !SetsMap(a)
    ensures Pipeline.Apply(c, s, a).loc == s.loc
  {
  }

  lemma FileMap(c: Config, s: State, a: Step)
    requires Shape(c, s) && Enabled(c, s, a) && (FileStep(a) || a.ClearTake? || a.ClearDone?)
    ensures Pipeline.Apply(c, s, a).loc == s.loc
  {
  }

  lemma StartMap(c: Config, s: State, a: Step)
    requires Shape(c, s) && Enabled(c, s, a) && (a.StartDrain? || a.WriterToken? || a.ClearToken?)
    ensures Pipeline.Apply(c, s, a).loc == s.loc
  {
  }

  lemma SendMap(s: State, j: nat)
    requires j < |s.tbs| && s.tbs[j].Some?
    ensures ApplyTbSend(s, j).loc == s.loc
  {
  }

  lemma TakeMap(s: State, t: nat)
    requires t in s.tocChan
    requires (s.tocA.Some? ==> s.tocA.value in s.tocs) && (s.tocB.Some? ==> s.tocB.value in s.tocs)
    ensures ApplyTocTake(s, t).loc == s.loc
  {
  }

  lemma TokenMap(c: Config, s: State, i: nat)
    requires |s.drain.wtok| == |s.drain.ctok| == c.workers && i < c.workers
    ensures ApplyFileToken(c, s, i).loc == s.loc && ApplyTocToken(c, s, i).loc == s.loc
  {
  }

  lemma MapKept(c: Config, s: State, a: Step)
    requires Shape(c, s) && Enabled(c, s, a) && !SetsMap(a)
    ensures Pipeline.Apply(c, s, a).loc == s.loc
  {
    if WriterStep(a) {
      WriterMap(c, s, a);
    } else if ReaderStep(a) {
      ReaderControl(c, s, a);
    } else if a.TbSend? {
      SendMap(s, a.j);
    } else if a.TocTake? {
      TakeMap(s, a.t);
    } else if a.FileToken? {
      TokenMap(c, s, a.w);
    } else if a.TocToken? {
      TokenMap(c, s, a.j);
    } else if TokenStep(a) {
      StartMap(c, s, a);
    } else {
      FileMap(c, s, a);
    }
  }
}
