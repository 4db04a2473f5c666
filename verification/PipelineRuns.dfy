/** What holds over every run of the pipeline, including any number of shutdowns and restarts. */
module PipelineRuns {
  import opened Base
  import opened Stamp
  import opened LocMap
  import opened Pipeline
  import opened PipelineWriters
  import opened PipelineFiles
  import opened PipelineToc
  import opened PipelineDisk

  // ---------------------------------------------------------------- recovery

  /** Every location comes from a TOC record of its file. */
  ghost predicate FromToc(files: seq<Bytes>, log: seq<Taken>, place: seq<Place>, m: Map)
  {
    forall k :: k in m ==>
      && m[k].id.File? && !Removal(m[k].ts) && LocFiled(place, m[k])
      && TocRecOk(files, log, m[k].id.f, Rec(k, m[k].ts, m[k].off, m[k].len, m[k].aux))
  }

  /** m knows every record of recs, at its stamp or a newer one. */
  ghost predicate Knows(m: Map, recs: seq<Rec>)
  {
    forall i :: 0 <= i < |recs| && recs[i].off != 0 ==> recs[i].key in m && recs[i].ts <= m[recs[i].key].ts
  }

  ghost predicate NotOlder(m: Map, m': Map)
  {
    forall k :: k in m ==> k in m' && m[k].ts <= m'[k].ts
  }

  /** What the map has for k is at the stamp of a record of recs, or what it had before. */
  ghost predicate OfRecord(recs: seq<Rec>, k: Key, ts: nat, i: nat)
  {
    i < |recs| && recs[i].key == k && recs[i].ts == ts && recs[i].off != 0
  }

  ghost predicate Grounded(m: Map, m': Map, recs: seq<Rec>, k: Key)
  {
    k in m' ==> (k in m && m'[k] == m[k]) || exists i: nat :: OfRecord(recs, k, m'[k].ts, i)
  }

  lemma {:induction false} RecoverRecsOk(files: seq<Bytes>, log: seq<Taken>, place: seq<Place>, m: Map, f: nat,
                                         recs: seq<Rec>)
    requires FromToc(files, log, place, m) && RecsOk(files, log, f, recs) && AllFiled(place, recs)
    ensures var m' := RecoverRecs(m, f, recs);
            && FromToc(files, log, place, m') && NotOlder(m, m') && Knows(m', recs)
            && forall k :: Grounded(m, m', recs, k)
  {
    if recs != [] {
      var n := |recs| - 1;
      var r, front := recs[n], recs[..n];
      var before, after := RecoverRecs(m, f, front), RecoverRecs(m, f, recs);
      assert RecsOk(files, log, f, front) && AllFiled(place, front) by {
        forall i | 0 <= i < n ensures TocRecOk(files, log, f, front[i]) && RecFiled(place, front[i]) {
          assert front[i] == recs[i];
        }
      }
      RecoverRecsOk(files, log, place, m, f, front);
      assert TocRecOk(files, log, f, r) && RecFiled(place, r);
      assert NotOlder(before, after);
      forall i | 0 <= i < |recs| && recs[i].off != 0
        ensures recs[i].key in after && recs[i].ts <= after[recs[i].key].ts
      {
        if i < n { assert front[i] == recs[i]; }
      }
      forall k ensures Grounded(m, after, recs, k) { RecordGrounds(m, before, after, f, recs, k); }
    }
  }

  lemma RecordGrounds(m: Map, before: Map, after: Map, f: nat, recs: seq<Rec>, k: Key)
    requires recs != [] && before == RecoverRecs(m, f, recs[..|recs| - 1]) && after == RecoverRecs(m, f, recs)
    requires Grounded(m, before, recs[..|recs| - 1], k)
    ensures Grounded(m, after, recs, k)
  {
    var n := |recs| - 1;
    if k in after {
      if k in before && after[k] == before[k] {
        if !(k in m && before[k] == m[k]) {
          var i: nat :| OfRecord(recs[..n], k, before[k].ts, i);
          assert OfRecord(recs, k, after[k].ts, i);
        }
      } else {
        assert OfRecord(recs, k, after[k].ts, n);
      }
    }
  }

  /** Some TOC record of k has this stamp and an offset. */
  ghost predicate RecordAt(tocs: map<nat, seq<Rec>>, k: Key, ts: nat, f: nat, i: nat)
  {
    f in tocs && OfRecord(tocs[f], k, ts, i)
  }

  ghost predicate HasRecord(tocs: map<nat, seq<Rec>>, n: nat, k: Key, ts: nat)
  {
    exists f: nat, i: nat :: f < n && RecordAt(tocs, k, ts, f, i)
  }

  /** Recovery over the files below n. */
  ghost predicate Recovered(s: State, n: nat)
  {
    var m := Recover(s.tocs, n);
    && FromToc(s.files, s.log, s.place, m)
    && (forall f: nat :: f in s.tocs && f < n ==> Knows(m, s.tocs[f]))
    && (forall k :: k in m ==> HasRecord(s.tocs, n, k, m[k].ts))
  }

  lemma {:induction false} RecoverOk(s: State, n: nat)
    requires FileRecsOk(s.tocs, s.files, s.log) && FiledOk(s.place, s.loc, s.tbs, s.tocChan, s.tocs)
    ensures Recovered(s, n)
  {
    if n > 0 {
      RecoverOk(s, n - 1);
      var before, m := Recover(s.tocs, n - 1), Recover(s.tocs, n);
      if n - 1 in s.tocs {
        RecoverRecsOk(s.files, s.log, s.place, before, n - 1, s.tocs[n - 1]);
        forall f: nat | f in s.tocs && f < n ensures Knows(m, s.tocs[f]) {
          if f < n - 1 { assert Knows(before, s.tocs[f]); }
        }
      }
      forall k | k in m ensures HasRecord(s.tocs, n, k, m[k].ts) { RecordBelow(s, n, k); }
    }
  }

  lemma RecordBelow(s: State, n: nat, k: Key)
    requires n > 0 && Recovered(s, n - 1) && k in Recover(s.tocs, n)
    requires n - 1 in s.tocs ==> Grounded(Recover(s.tocs, n - 1), Recover(s.tocs, n), s.tocs[n - 1], k)
    ensures HasRecord(s.tocs, n, k, Recover(s.tocs, n)[k].ts)
  {
    var before, m := Recover(s.tocs, n - 1), Recover(s.tocs, n);
    if k in before && m[k] == before[k] {
      assert HasRecord(s.tocs, n - 1, k, m[k].ts);
      var f: nat, i: nat :| f < n - 1 && RecordAt(s.tocs, k, m[k].ts, f, i);
      assert f < n && RecordAt(s.tocs, k, m[k].ts, f, i);
    } else {
      var i: nat :| OfRecord(s.tocs[n - 1], k, m[k].ts, i);
      assert n - 1 < n && RecordAt(s.tocs, k, m[k].ts, n - 1, i);
    }
  }

  /** After a shutdown every log entry whose TOC record was not lost is in a closed TOC file, or replaced. */
  lemma StoppedPlace(c: Config, s: State, n: nat)
    requires Core(c, s) && s.mode.Stopped? && n < |s.log|
    ensures n < |s.place|
    ensures s.place[n].Superseded? || s.place[n].Lost? ||
            (s.place[n].InToc? && s.place[n].f in s.tocs && s.place[n].f < |s.files| &&
             s.place[n].i < |s.tocs[s.place[n].f]| && s.tocs[s.place[n].f][s.place[n].i].wid == n)
  {
    assert SafeAt(s, n);
    assert PlaceOk(s, n);
  }

  /** What is located in the map of a stopped store is in a file, and its record is in a TOC file unless lost. */
  lemma StoppedLoc(c: Config, s: State, k: Key)
    requires Inv(c, s) && s.mode.Stopped? && k in s.loc
    ensures var l := s.loc[k];
            && l.id.File? && !Removal(l.ts) && l.aux < |s.place|
            && (s.place[l.aux].Lost? || HasRecord(s.tocs, |s.files|, k, l.ts))
  {
    var l := s.loc[k];
    assert LocOk(s.loc, s.log, s.place, s.files, s.blocks, s.writers, k);
    StoppedPlace(c, s, l.aux);
    assert LocFiled(s.place, l) && LocDisk(c, s.files, s.disk, l);
    if !s.place[l.aux].Lost? {
      var InToc(f, i) := s.place[l.aux];
      assert RecsOk(s.files, s.log, f, s.tocs[f]);
      assert TocRecOk(s.files, s.log, f, s.tocs[f][i]);
      assert f < |s.files| && RecordAt(s.tocs, k, l.ts, f, i);
    }
  }

  // ---------------------------------------------------------------- restart

  lemma RecoveryHoldsNewest(c: Config, s: State, k: Key)
    requires Inv(c, s) && s.mode.Stopped? && NoRemovals(s.log, k) && NoneLost(s.log, s.place, k)
    ensures HoldsNewest(s.log, Recover(s.tocs, |s.files|), k)
  {
    RecoverOk(s, |s.files|);
    var m := Recover(s.tocs, |s.files|);
    assert HistoryAt(s.log, s.loc, s.place, k);
    forall n | 0 <= n < |s.log| && s.log[n].key == k ensures k in m && s.log[n].ts <= m[k].ts {
      var l := s.loc[k];
      assert LocOk(s.loc, s.log, s.place, s.files, s.blocks, s.writers, k);
      StoppedLoc(c, s, k);
      assert !s.place[l.aux].Lost?;
      var f: nat, i: nat :| f < |s.files| && RecordAt(s.tocs, k, l.ts, f, i);
      assert Knows(m, s.tocs[f]);
    }
  }

  lemma RestartLocs(s: State, s': State)
    requires FromToc(s.files, s.log, s.place, s'.loc) && |s'.place| == |s'.log|
    requires s'.files == s.files && s'.log == s.log && s'.place == s.place
    ensures LocsOk(s'.loc, s'.log, s'.place, s'.files, s'.blocks, s'.writers)
  {
    forall k ensures LocOk(s'.loc, s'.log, s'.place, s'.files, s'.blocks, s'.writers, k) {
    }
  }

  lemma RestartHistory(c: Config, s: State)
    requires Inv(c, s) && s.mode.Stopped?
    ensures HistoryOk(s.log, Recover(s.tocs, |s.files|), s.place)
  {
    var m := Recover(s.tocs, |s.files|);
    forall k ensures HistoryAt(s.log, m, s.place, k) {
      assert HistoryAt(s.log, s.loc, s.place, k);
      if NoRemovals(s.log, k) && NoneLost(s.log, s.place, k) { RecoveryHoldsNewest(c, s, k); }
    }
  }

  lemma RestartCore(c: Config, s: State)
    requires Inv(c, s) && s.mode.Stopped?
    ensures Core(c, ApplyRestart(c, s))
  {
    var s' := ApplyRestart(c, s);
    RecoverOk(s, |s.files|);
    RestartHistory(c, s);
    FreshDrainTokens(c, s'.mode, s'.clock, s'.open, |s'.files|, |s'.log|);
    forall n: nat | n < |s.place| ensures SafeAt(s', n) && PlaceOk(s', n) {
      assert SafeAt(s, n);
      assert PlaceOk(s, n);
    }
    assert PlacesOk(s') by { forall n: nat ensures PlaceOk(s', n) { } }
    RestartLocs(s, s');
  }

  lemma RestartExtra(c: Config, s: State)
    requires Inv(c, s) && s.mode.Stopped?
    ensures Extra(c, ApplyRestart(c, s))
  {
    var s' := ApplyRestart(c, s);
    RecoverOk(s, |s.files|);
    assert s'.open == s.open == None && s'.closing == s.closing;
    forall k | k in s'.loc ensures LocDisk(c, s'.files, s'.disk, s'.loc[k]) {
      assert FileDisk(c, s.files, s.disk, s.open, s.closing, s'.loc[k].id.f);
    }
  }

  // ---------------------------------------------------------------- every step

  lemma InitOk(c: Config, s: State)
    requires Init(c, s)
    ensures Inv(c, s)
  {
    FreshDrainTokens(c, s.mode, s.clock, s.open, |s.files|, |s.log|);
  }

  lemma WriterKeeps(c: Config, s: State, a: Step)
    requires Inv(c, s) && Enabled(c, s, a) && WriterStep(a)
    ensures Inv(c, Pipeline.Apply(c, s, a))
  {
    WriterKeepsExtra(c, s, a);
    if a.TakeFree? { TakeFreeOk(c, s, a.w, a.b); }
    else if a.Extend? { ExtendOk(c, s, a.w, a.b, a.req, a.junk); }
    else if a.Copy? { CopyOk(c, s, a.w); }
    else if a.PlaceInMap? { PlaceInMapOk(c, s, a.w); }
    else if a.Record? { RecordOk(c, s, a.w); }
    else if a.Truncate? { TruncateOk(c, s, a.w); }
    else { SealOk(c, s, a.w, a.b); }
  }

  predicate FileStep(a: Step)
  {
    a.OpenFile? || a.WriteBlock? || a.WriteBuf? || a.CloseTail? || a.Release? || a.CloseFile?
  }

  lemma FileKeeps(c: Config, s: State, a: Step)
    requires Inv(c, s) && Enabled(c, s, a) && FileStep(a)
    ensures Inv(c, Pipeline.Apply(c, s, a))
  {
    if a.OpenFile? { OpenFileOk(c, s, a.header); OpenFileExtra(c, s, a.header); }
    else if a.WriteBlock? { WriteBlockOk(c, s, a.b); WriteBlockExtra(c, s, a.b); }
    else if a.WriteBuf? { DiskStepOk(c, s, s.disk[s.open.value] + c.interval, false); WriteBufExtra(c, s); }
    else if a.CloseTail? { DiskStepOk(c, s, |s.files[s.open.value]|, true); CloseTailExtra(c, s); }
    else if a.Release? { ReleaseOk(c, s, a.b, a.j); ReleaseExtra(c, s, a.b, a.j); }
    else { CloseFileOk(c, s); CloseFileExtra(c, s); }
  }

  predicate TokenStep(a: Step)
  {
    a.StartDrain? || a.WriterToken? || a.FileToken? || a.ClearToken? || a.TocToken?
  }

  lemma TokenKeeps(c: Config, s: State, a: Step)
    requires Inv(c, s) && Enabled(c, s, a) && TokenStep(a)
    ensures Inv(c, Pipeline.Apply(c, s, a))
  {
    if a.StartDrain? { StartDrainOk(c, s, a.shutdown); StartDrainExtra(c, s, a.shutdown); }
    else if a.WriterToken? { WriterTokenOk(c, s, a.w); WriterTokenExtra(c, s, a.w); }
    else if a.FileToken? { FileTokenOk(c, s, a.w); FileTokenExtra(c, s, a.w); }
    else if a.ClearToken? { ClearTokenOk(c, s, a.j); ClearTokenExtra(c, s, a.j); }
    else {
      TocTokenExtra(c, s, a.j);
      if s.drain.cleft == 1 { LastTocTokenOk(c, s, a.j); } else { TocTokenOk(c, s, a.j); }
    }
  }

  predicate ClearStep(a: Step)
  {
    a.ClearTake? || a.TbSend? || a.ClearRec? || a.ClearDone? || a.TocTake?
  }

  lemma ClearKeeps(c: Config, s: State, a: Step)
    requires Inv(c, s) && Enabled(c, s, a) && ClearStep(a)
    ensures Inv(c, Pipeline.Apply(c, s, a))
  {
    if a.ClearTake? { ClearTakeOk(c, s, a.j, a.b); ClearTakeExtra(c, s, a.j, a.b); }
    else if a.TbSend? { TbSendOk(c, s, a.j); TbSendExtra(c, s, a.j); }
    else if a.ClearRec? { ClearRecOk(c, s, a.b); ClearRecExtra(c, s, a.b); }
    else if a.ClearDone? { ClearDoneOk(c, s, a.b); ClearDoneExtra(c, s, a.b); }
    else { TocTakeOk(c, s, a.t); TocTakeExtra(c, s, a.t); }
  }

  lemma ReadKeeps(c: Config, s: State, a: Step)
    requires Inv(c, s) && Enabled(c, s, a) && (a.ReadStart? || a.ReadLock? || a.ReadCopy?)
    ensures Inv(c, Pipeline.Apply(c, s, a))
  {
    ReaderKeepsExtra(c, s, a);
    if a.ReadStart? {
      LookUpOk(c, s, a.key, true);
      ReaderStepOk(c, s, a.r, LookUp(s, a.key, true));
    }
    else if a.ReadLock? { ReadLockOk(c, s, a.r); }
    else { ReadCopyOk(c, s, a.r); }
  }

  /** Every step of every goroutine keeps the invariant. */
  lemma StepKeepsInv(c: Config, s: State, a: Step)
    requires Inv(c, s) && Enabled(c, s, a)
    ensures Inv(c, Pipeline.Apply(c, s, a))
  {
    if WriterStep(a) {
      WriterKeeps(c, s, a);
    } else if FileStep(a) {
      FileKeeps(c, s, a);
    } else if TokenStep(a) {
      TokenKeeps(c, s, a);
    } else if ClearStep(a) {
      ClearKeeps(c, s, a);
    } else if a.Restart? {
      RestartCore(c, s);
      RestartExtra(c, s);
    } else {
      ReadKeeps(c, s, a);
    }
  }

  // ---------------------------------------------------------------- runs

  ghost predicate Steps(c: Config, s: State, a: Step, s': State)
  {
    Shape(c, s) && Enabled(c, s, a) && s' == Pipeline.Apply(c, s, a)
  }

  /** A run: the states visited by some interleaving of steps. */
  ghost predicate Run(c: Config, states: seq<State>, steps: seq<Step>)
  {
    && |states| == |steps| + 1
    && Init(c, states[0])
    && forall i: nat :: StepAt(c, states, steps, i)
  }

  ghost predicate StepAt(c: Config, states: seq<State>, steps: seq<Step>, i: nat)
  {
    i < |steps| && i + 1 < |states| ==> Steps(c, states[i], steps[i], states[i + 1])
  }

  lemma {:induction false} RunKeepsInv(c: Config, states: seq<State>, steps: seq<Step>, i: nat)
    requires Run(c, states, steps) && i < |states|
    ensures Inv(c, states[i])
  {
    if i == 0 {
      InitOk(c, states[0]);
    } else {
      RunKeepsInv(c, states, steps, i - 1);
      assert StepAt(c, states, steps, i - 1);
      StepKeepsInv(c, states[i - 1], steps[i - 1]);
    }
  }
}
