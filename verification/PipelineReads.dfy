/** What readers get over every run of the pipeline: while it runs, across a restart, and after a flush. */
module PipelineReads {
  import opened Base
  import opened Stamp
  import opened LocMap
  import opened Pipeline
  import opened PipelineWriters
  import opened PipelineToc
  import opened PipelineDisk
  import opened PipelineRuns
  import opened PipelineFrames
  import Framing

  // ---------------------------------------------------------------- one simple map

  datatype Answer = NotFound(ts: nat) | Found(ts: nat, val: Bytes) | Failing(ts: nat)

  /** What Read answers when nothing else moves: through the location map into a page or a file; reading fails where
      the file does not have the bytes yet. */
  function ReadKey(s: State, k: Key): Answer
  {
    if k !in s.loc then NotFound(0)
    else if Deletion(s.loc[k].ts) || Removal(s.loc[k].ts) then NotFound(s.loc[k].ts)
    else if !Readable(s.disk, s.loc[k]) then Failing(s.loc[k].ts)
    else Found(s.loc[k].ts, BytesAt(s, s.loc[k]))
  }

  function AnswerOf(ts: nat, val: Bytes): Answer
  {
    if Deletion(ts) || Removal(ts) then NotFound(ts) else Found(ts, val)
  }

  /** The simple map: the last write taken for the key. */
  function LastAnswer(log: seq<Taken>, k: Key): Answer
  {
    if log == [] then NotFound(0)
    else
      var e := log[|log| - 1];
      if e.key != k then LastAnswer(log[..|log| - 1], k) else AnswerOf(e.ts, e.val)
  }

  /** Writes of k with the same stamp carry the same value, as a compaction's rewrites and replicated writes do. */
  ghost predicate SameValues(log: seq<Taken>, k: Key)
  {
    forall m, n :: 0 <= m < |log| && 0 <= n < |log| && log[m].key == k && log[n].key == k && log[m].ts == log[n].ts ==>
      log[m].val == log[n].val
  }

  /** Without rewrites, and with nothing of k removed or lost, no stamp is taken twice. */
  lemma RisingIsSame(c: Config, s: State, k: Key)
    requires Inv(c, s) && NoRemovals(s.log, k) && NoneLost(s.log, s.place, k)
    requires forall n :: 0 <= n < |s.log| && s.log[n].key == k ==> !s.log[n].rewrite
    ensures SameValues(s.log, k)
  {
    assert HistoryAt(s.log, s.loc, s.place, k);
  }

  lemma {:induction false} LastIs(log: seq<Taken>, k: Key, n: nat)
    requires n < |log| && log[n].key == k && SameValues(log, k)
    requires forall m :: 0 <= m < |log| && log[m].key == k ==> log[m].ts <= log[n].ts
    requires Rising(log, k)
    ensures LastAnswer(log, k) == AnswerOf(log[n].ts, log[n].val)
    decreases |log|
  {
    var last := |log| - 1;
    var front := log[..last];
    assert forall m :: 0 <= m < last ==> front[m] == log[m];
    if log[last].key == k {
      assert n < last ==> log[n].ts <= log[last].ts;
    } else {
      assert SameValues(front, k) && Rising(front, k);
      LastIs(front, k, n);
    }
  }

  lemma {:induction false} LastIsNone(log: seq<Taken>, k: Key)
    requires forall m :: 0 <= m < |log| ==> log[m].key != k
    ensures LastAnswer(log, k) == NotFound(0)
  {
    if log != [] {
      LastIsNone(log[..|log| - 1], k);
    }
  }

  /** k has a value, located in a file that does not have its bytes on disk yet. */
  predicate Unwritten(s: State, k: Key)
  {
    k in s.loc && !Deletion(s.loc[k].ts) && !Removal(s.loc[k].ts) && !Readable(s.disk, s.loc[k])
  }

  /** Some full buffer of the open file is still on its way to disk. */
  predicate BufferPending(c: Config, s: State)
    requires |s.disk| == |s.files| && (s.open.Some? ==> s.open.value < |s.files|)
  {
    s.open.Some? && !s.closing && s.disk[s.open.value] + c.interval <= |s.files[s.open.value]|
  }

  /** The one simple map: for a key with no marker taken and no record lost, location map, pages and files together
      answer as the last write taken for it, exactly when its bytes are on disk. */
  lemma AgreesWithSimpleMap(c: Config, s: State, k: Key)
    requires Inv(c, s) && NoRemovals(s.log, k) && NoneLost(s.log, s.place, k) && SameValues(s.log, k)
    ensures ReadKey(s, k) == LastAnswer(s.log, k) <==> !Unwritten(s, k)
  {
    assert HistoryAt(s.log, s.loc, s.place, k);
    if k in s.loc {
      LocSelectsValue(c, s, k);
      LastIs(s.log, k, s.loc[k].aux);
    } else {
      LastIsNone(s.log, k);
    }
  }

  lemma MulRises(q: nat, q': nat, m: nat)
    requires m > 0 && q * m < q' * m
    ensures q < q' && q * m + m <= q' * m
  {
    assert (q - q') * m == q * m - q' * m;
    assert (q' - q) * m == q' * m - q * m;
    assert q >= q' ==> (q - q') * m >= 0;
    Framing.MulAtLeast(q' - q, m);
  }

  lemma BoundaryAbove(c: Config, n: nat, e: nat)
    requires c.interval > 0 && Boundary(c, n) && Boundary(c, e) && n < e
    ensures n + c.interval <= e
  {
    var i := c.interval;
    assert n == n / i * i + n % i && e == e / i * i + e % i;
    MulRises(n / i, e / i, i);
  }

  /** A value that is not on disk waits in a full buffer of the open file. */
  lemma UnwrittenIsPending(c: Config, s: State, k: Key)
    requires Inv(c, s) && Unwritten(s, k)
    ensures BufferPending(c, s) && s.loc[k].id == File(s.open.value)
    ensures s.loc[k].off + s.loc[k].len <= s.disk[s.open.value] + Behind(c) && c.workers > 1
  {
    var l := s.loc[k];
    var f := l.id.f;
    assert LocDisk(c, s.files, s.disk, l);
    assert LocOk(s.loc, s.log, s.place, s.files, s.blocks, s.writers, k);
    assert FileDisk(c, s.files, s.disk, s.open, s.closing, f);
    var e: nat :| WaitsTo(c, s.files, s.disk, f, l.off + l.len, e);
    BoundaryAbove(c, s.disk[f], e);
  }

  /** In particular a key that was never marked, rewritten or lost: no stamp of it is taken twice. */
  lemma PlainKeysAgree(c: Config, s: State, k: Key)
    requires Inv(c, s) && NoRemovals(s.log, k) && NoneLost(s.log, s.place, k)
    requires forall n :: 0 <= n < |s.log| && s.log[n].key == k ==> !s.log[n].rewrite
    ensures ReadKey(s, k) == LastAnswer(s.log, k) <==> !Unwritten(s, k)
  {
    RisingIsSame(c, s, k);
    AgreesWithSimpleMap(c, s, k);
  }

  /** Restart refinement: over every run of writes, deletes, rewrites, flushes, shutdowns and restarts, at every
      moment, a key reads as its last taken write exactly when its bytes are on disk; and they are whenever no full
      buffer is on its way, and always with one worker. */
  lemma ReadsAreLastWrites(c: Config, states: seq<State>, steps: seq<Step>, i: nat, k: Key)
    requires Run(c, states, steps) && i < |states|
    requires var s := states[i]; NoRemovals(s.log, k) && NoneLost(s.log, s.place, k) && SameValues(s.log, k)
    ensures ReadKey(states[i], k) == LastAnswer(states[i].log, k) <==> !Unwritten(states[i], k)
    ensures Sizes(c, states[i]) && (Unwritten(states[i], k) ==> BufferPending(c, states[i]) && c.workers > 1)
  {
    RunKeepsInv(c, states, steps, i);
    AgreesWithSimpleMap(c, states[i], k);
    if Unwritten(states[i], k) { UnwrittenIsPending(c, states[i], k); }
  }

  /** The page ends on a buffer boundary of the open file and its last buffer has not been written. */
  predicate LastBufferPending(c: Config, s: State, blk: Block)
    requires c.interval > 0 && |s.disk| == |s.files| && blk.file < |s.files|
  {
    && blk.values != [] && Boundary(c, PageEnd(blk))
    && s.open == Some(blk.file) && !s.closing
    && s.disk[blk.file] + c.interval <= PageEnd(blk) <= s.disk[blk.file] + Behind(c)
  }

  /** A page released to the memClearers is wholly on disk unless it ended on a buffer boundary and its last buffer is
      still to be written, and only then. */
  lemma ReleasedOnDisk(c: Config, s: State, b: nat)
    requires Inv(c, s) && b < |s.blocks| && Released(s.blocks[b].owner)
    ensures s.blocks[b].file < |s.files|
    ensures var blk := s.blocks[b];
            blk.values != [] && PageEnd(blk) > s.disk[blk.file] <==> LastBufferPending(c, s, blk)
  {
    var blk := s.blocks[b];
    assert ReleasedAt(c, s.blocks, s.disk, b);
    assert BlockShape(c, s.blocks, s.clock, s.open, |s.files|, b);
    assert BlockInFile(s.blocks, s.files, b);
    assert FileDisk(c, s.files, s.disk, s.open, s.closing, blk.file);
    if blk.values != [] && PageEnd(blk) > s.disk[blk.file] {
      BoundaryAbove(c, s.disk[blk.file], PageEnd(blk));
    }
  }

  // ---------------------------------------------------------------- restart

  /** The disk has a record of k, with an offset, that is newer than what the map has. */
  ghost predicate NewerOnDisk(s: State, k: Key)
  {
    exists f: nat, i: nat, ts: nat :: RecordAt(s.tocs, k, ts, f, i) && (k !in s.loc || s.loc[k].ts < ts)
  }

  /** The record of what the map has for k is on disk. */
  ghost predicate OnDiskStill(s: State, k: Key)
  {
    k in s.loc ==> HasRecord(s.tocs, |s.files|, k, s.loc[k].ts)
  }

  /** When k is recovered at the stamp it had, it has the value it had. */
  lemma SameStampSameAnswer(c: Config, s: State, k: Key)
    requires Inv(c, s) && s.mode.Stopped? && SameValues(s.log, k) && Inv(c, ApplyRestart(c, s))
    requires var m := ApplyRestart(c, s).loc; k in s.loc && k in m && m[k].ts == s.loc[k].ts
    ensures ReadKey(ApplyRestart(c, s), k) == ReadKey(s, k)
  {
    var s' := ApplyRestart(c, s);
    LocSelectsValue(c, s, k);
    LocSelectsValue(c, s', k);
    if Unwritten(s, k) { UnwrittenIsPending(c, s, k); }
    if Unwritten(s', k) { UnwrittenIsPending(c, s', k); }
  }

  lemma NewestRecovered(c: Config, s: State, k: Key)
    requires Inv(c, s) && s.mode.Stopped?
    ensures var m := Recover(s.tocs, |s.files|);
            && (forall f: nat, i: nat, ts: nat :: RecordAt(s.tocs, k, ts, f, i) ==> k in m && ts <= m[k].ts)
            && (k in m ==> HasRecord(s.tocs, |s.files|, k, m[k].ts))
  {
    RecoverOk(s, |s.files|);
    var m := Recover(s.tocs, |s.files|);
    forall f: nat, i: nat, ts: nat | RecordAt(s.tocs, k, ts, f, i) ensures k in m && ts <= m[k].ts {
      assert f < |s.files| && Knows(m, s.tocs[f]);
    }
  }

  /** Restart, exactly: for a stopped store and any key whose equal stamps carry equal values, shutting down and
      recovering leaves the answer as it was if and only if the record of what the map has is still on disk and no
      newer record of the key, with an offset, is there. A cleared removal marker leaves such a newer record behind; a
      TOC file created anew loses records. */
  lemma RestartExactly(c: Config, s: State, k: Key)
    requires Inv(c, s) && s.mode.Stopped? && SameValues(s.log, k)
    ensures ReadKey(ApplyRestart(c, s), k) == ReadKey(s, k) <==> OnDiskStill(s, k) && !NewerOnDisk(s, k)
  {
    var s' := ApplyRestart(c, s);
    RestartCore(c, s);
    RestartExtra(c, s);
    NewestRecovered(c, s, k);
    var m := s'.loc;
    if k in m {
      var f: nat, i: nat :| f < |s.files| && RecordAt(s.tocs, k, m[k].ts, f, i);
      assert k !in s.loc || s.loc[k].ts < m[k].ts ==> NewerOnDisk(s, k);
    }
    if OnDiskStill(s, k) && k in s.loc {
      var f: nat, i: nat :| f < |s.files| && RecordAt(s.tocs, k, s.loc[k].ts, f, i);
    }
    if k in s.loc && k in m && m[k].ts == s.loc[k].ts {
      SameStampSameAnswer(c, s, k);
    }
    RestartStamps(c, s, k);
  }

  /** Answers of keys at different stamps differ. */
  lemma RestartStamps(c: Config, s: State, k: Key)
    requires Inv(c, s) && s.mode.Stopped?
    ensures var m := Recover(s.tocs, |s.files|);
            && (k in m && k !in s.loc ==> ReadKey(ApplyRestart(c, s), k) != ReadKey(s, k))
            && (k in m && k in s.loc && m[k].ts != s.loc[k].ts ==> ReadKey(ApplyRestart(c, s), k) != ReadKey(s, k))
            && (k !in m && k !in s.loc ==> ReadKey(ApplyRestart(c, s), k) == ReadKey(s, k))
            && (k !in m && k in s.loc ==> ReadKey(ApplyRestart(c, s), k) != ReadKey(s, k))
  {
    if k in s.loc { StoppedLoc(c, s, k); }
  }

  /** In particular nothing changes for a key with no marker taken and no record lost. */
  lemma RestartChangesNoAnswer(c: Config, s: State, k: Key)
    requires Inv(c, s) && s.mode.Stopped?
    requires NoRemovals(s.log, k) && NoneLost(s.log, s.place, k) && SameValues(s.log, k)
    ensures ReadKey(ApplyRestart(c, s), k) == ReadKey(s, k)
  {
    RestartCore(c, s);
    RestartExtra(c, s);
    AgreesWithSimpleMap(c, s, k);
    AgreesWithSimpleMap(c, ApplyRestart(c, s), k);
    if Unwritten(s, k) { UnwrittenIsPending(c, s, k); }
    if Unwritten(ApplyRestart(c, s), k) { UnwrittenIsPending(c, ApplyRestart(c, s), k); }
  }

  // ---------------------------------------------------------------- keys that are gone

  /** memWriter's request for k is taken. */
  predicate WritesKey(s: State, w: nat, k: Key)
  {
    w < |s.writers| && s.writers[w].Copied? && s.writers[w].req.key == k && 0 < s.writers[w].req.ts
  }

  /** memClearer's next record is a live one of k. */
  predicate ClearsKey(s: State, b: nat, k: Key)
  {
    && b < |s.blocks| && s.blocks[b].owner.AtClearer? && s.blocks[b].owner.pos < |s.blocks[b].recs|
    && var r := s.blocks[b].recs[s.blocks[b].owner.pos]; r.key == k && !Removal(r.ts)
  }

  /** Which step brings a key back that is not in the map: a write of it that is taken, a memClearer that moves an
      older record of it to its file location, or a restart that finds a record of it with an offset. */
  lemma ComesBackExactly(c: Config, s: State, a: Step, k: Key)
    requires Inv(c, s) && Enabled(c, s, a) && k !in s.loc
    ensures k in Pipeline.Apply(c, s, a).loc <==>
            || (a.PlaceInMap? && WritesKey(s, a.w, k))
            || (a.ClearRec? && ClearsKey(s, a.b, k))
            || (a.Restart? && exists ts: nat :: HasRecord(s.tocs, |s.files|, k, ts))
  {
    if a.PlaceInMap? {
      WriteBrings(s, a.w, k);
    } else if a.ClearRec? {
      ClearBrings(s, a.b, k);
    } else if a.Restart? {
      RestartFinds(c, s, k);
    } else {
      MapKept(c, s, a);
    }
  }

  lemma WriteBrings(s: State, w: nat, k: Key)
    requires w < |s.writers| && s.writers[w].Copied? && k !in s.loc
    ensures k in ApplyPlace(s, w).loc <==> WritesKey(s, w, k)
  {
    RecordIffTaken(s.loc, s.writers[w].req.key, s.writers[w].req.ts);
  }

  lemma ClearBrings(s: State, b: nat, k: Key)
    requires b < |s.blocks| && s.blocks[b].owner.AtClearer? && s.blocks[b].owner.j < |s.tbs|
    requires s.blocks[b].owner.pos < |s.blocks[b].recs| && k !in s.loc
    ensures k in ApplyClearRec(s, b).loc <==> ClearsKey(s, b, k)
  {
  }

  lemma RestartFinds(c: Config, s: State, k: Key)
    requires Inv(c, s) && s.mode.Stopped?
    ensures k in Recover(s.tocs, |s.files|) <==> exists ts: nat :: HasRecord(s.tocs, |s.files|, k, ts)
  {
    NewestRecovered(c, s, k);
    if ts: nat :| HasRecord(s.tocs, |s.files|, k, ts) {
      var f: nat, i: nat :| f < |s.files| && RecordAt(s.tocs, k, ts, f, i);
    }
  }

  /** A key that memClearer brings back is located at the record's value, although nobody wrote it again. */
  lemma ClearedKeyIsBack(c: Config, s: State, b: nat, k: Key)
    requires Inv(c, s) && ClearRecGuard(c, s, b) && k !in s.loc && ClearsKey(s, b, k)
    ensures var s', r := ApplyClearRec(s, b), s.blocks[b].recs[s.blocks[b].owner.pos];
            k in s'.loc && s'.loc[k].ts == r.ts && r.wid < |s.log| && BytesAt(s', s'.loc[k]) == s.log[r.wid].val
  {
    ClearRecOk(c, s, b);
    LocSelectsValue(c, ApplyClearRec(s, b), k);
    assert MemRecOk(s.blocks, s.writers, s.log, s.place, b, s.blocks[b].owner.pos);
  }

  // ---------------------------------------------------------------- flush durability

  /** The i-th record of TOC file f restores log[n]: it has its key and stamp, and selects its value in a value file
      that is closed and wholly on disk. */
  ghost predicate CarriesAt(s: State, n: nat, f: nat, i: nat)
  {
    && n < |s.log| && f in s.tocs && i < |s.tocs[f]| && FileClosed(s, f) && f < |s.disk| && s.disk[f] == |s.files[f]|
    && var r := s.tocs[f][i];
    && r.key == s.log[n].key && r.ts == s.log[n].ts
    && (!Removal(r.ts) ==> r.off != 0 && r.len == |s.log[n].val| && Slice(s.files[f], r.off, r.len) == s.log[n].val)
  }

  ghost predicate Carries(s: State, n: nat, f: nat)
  {
    exists i: nat :: CarriesAt(s, n, f, i)
  }

  /** log[n] can be read back from a closed TOC file and a closed value file, whose bytes are all on disk. */
  ghost predicate OnDisk(s: State, n: nat)
  {
    exists f: nat :: TocClosed(s, f) && Carries(s, n, f)
  }

  /** The location map took a newer stamp for the same key. */
  ghost predicate Replaced(s: State, n: nat)
  {
    n < |s.log| && exists m :: 0 <= m < |s.log| && s.log[m].key == s.log[n].key && s.log[m].ts > s.log[n].ts
  }

  /** The record of log[n] was in a TOC file that has since been created anew. */
  predicate LostAt(s: State, n: nat) { n < |s.place| && s.place[n].Lost? }

  lemma FlushedIsDurable(c: Config, s: State, n: nat)
    requires Inv(c, s) && n < s.flushed
    ensures OnDisk(s, n) || Replaced(s, n) || LostAt(s, n)
  {
    assert SafeAt(s, n);
    assert PlaceOk(s, n);
    if s.place[n].InToc? {
      var InToc(f, i) := s.place[n];
      assert RecsOk(s.files, s.log, f, s.tocs[f]);
      assert TocRecOk(s.files, s.log, f, s.tocs[f][i]);
      assert FileDisk(c, s.files, s.disk, s.open, s.closing, f);
      assert CarriesAt(s, n, f, i) && Carries(s, n, f);
    } else if s.place[n].Superseded? {
      assert s.log[s.place[n].newer].ts > s.log[n].ts;
    }
  }

  /** How one step changes the mode: a flush starts with the length of the log as its mark, keeps it while in flight,
      and has covered exactly that much when it completes. */
  lemma ModeStep(c: Config, s: State, a: Step, s': State)
    requires Steps(c, s, a, s')
    ensures a == StartDrain(false) ==> s'.mode == Draining(false, |s.log|)
    ensures s.mode.Draining? && s'.mode.Draining? ==> s'.mode == s.mode
    ensures s.mode.Draining? && !s.mode.shutdown && s'.mode.Running? ==> s'.flushed == s.mode.mark
  {
    if a.TocToken? {
      assert s' == ApplyTocToken(c, s, a.j);
    } else if ModeStill(a) {
      ModeIsKept(c, s, a);
    }
  }

  lemma ModeAt(c: Config, states: seq<State>, steps: seq<Step>, i: nat)
    requires Run(c, states, steps) && i < |steps|
    ensures steps[i] == StartDrain(false) ==> states[i + 1].mode == Draining(false, |states[i].log|)
    ensures states[i].mode.Draining? && states[i + 1].mode.Draining? ==> states[i + 1].mode == states[i].mode
    ensures states[i].mode.Draining? && !states[i].mode.shutdown && states[i + 1].mode.Running? ==>
              states[i + 1].flushed == states[i].mode.mark
  {
    assert StepAt(c, states, steps, i);
    ModeStep(c, states[i], steps[i], states[i + 1]);
  }

  /** While a flush is in flight its mark is the length of the log when it started. */
  lemma {:induction false} MarkIsKept(c: Config, states: seq<State>, steps: seq<Step>, i: nat, j: nat)
    requires Run(c, states, steps) && i < j < |states|
    requires steps[i] == StartDrain(false)
    requires forall m :: i < m <= j ==> states[m].mode.Draining?
    ensures states[j].mode == Draining(false, |states[i].log|)
    decreases j
  {
    if j == i + 1 {
      ModeAt(c, states, steps, i);
    } else {
      MarkIsKept(c, states, steps, i, j - 1);
      ModeAt(c, states, steps, j - 1);
    }
  }

  /** Flush durability: when a flush that started at step i has completed at state j, every write taken before it
      started is on disk in a closed value file and a closed TOC file, or was replaced by a newer one, or its record
      was lost before because its TOC file was created anew. */
  lemma FlushIsDurable(c: Config, states: seq<State>, steps: seq<Step>, i: nat, j: nat, n: nat)
    requires Run(c, states, steps) && i < j < |states|
    requires steps[i] == StartDrain(false)
    requires forall m :: i < m < j ==> states[m].mode.Draining?
    requires states[j].mode.Running?
    requires n < |states[i].log|
    ensures OnDisk(states[j], n) || Replaced(states[j], n) || LostAt(states[j], n)
  {
    RunKeepsInv(c, states, steps, j);
    ModeAt(c, states, steps, i);
    MarkIsKept(c, states, steps, i, j - 1);
    ModeAt(c, states, steps, j - 1);
    FlushedIsDurable(c, states[j], n);
  }

  // ---------------------------------------------------------------- TOC files created anew

  ghost predicate NothingNewLost(s: State, s': State)
  {
    forall n: nat :: LostAt(s', n) ==> LostAt(s, n)
  }

  lemma WriterLosesNothing(c: Config, s: State, a: Step)
    requires Shape(c, s) && Enabled(c, s, a) && WriterStep(a) && |s.place| == |s.log|
    ensures NothingNewLost(s, Pipeline.Apply(c, s, a))
  {
  }

  lemma ClearLosesNothing(c: Config, s: State, a: Step)
    requires Shape(c, s) && Enabled(c, s, a) && (a.ClearTake? || a.TbSend? || a.ClearRec? || a.ClearDone?)
    ensures NothingNewLost(s, Pipeline.Apply(c, s, a))
  {
  }

  /** Which records a step loses: exactly those in a closed TOC file that it creates anew. */
  lemma LostExactly(c: Config, s: State, a: Step, n: nat)
    requires Inv(c, s) && Enabled(c, s, a)
    ensures LostAt(Pipeline.Apply(c, s, a), n) && !LostAt(s, n) <==>
            Recreates(s, a) && n < |s.place| && s.place[n].InToc? && s.place[n].f == s.tocChan[a.t].tb.file
  {
    if WriterStep(a) {
      WriterLosesNothing(c, s, a);
    } else if a.TocTake? {
      assert PlaceOk(s, n);
    } else if ClearStep(a) {
      ClearLosesNothing(c, s, a);
    } else {
      PlacesKept(c, s, a);
    }
  }

  // ---------------------------------------------------------------- readers

  /** Whatever the interleaving, a finished read carries the value of a write for its key and stamp. */
  lemma ReadersGetWrittenValues(c: Config, states: seq<State>, steps: seq<Step>, i: nat, r: nat)
    requires Run(c, states, steps) && i < |states| && r < |states[i].readers| && states[i].readers[r].Finished?
    ensures var Finished(k, l, bytes) := states[i].readers[r];
            l.aux < |states[i].log| && states[i].log[l.aux].key == k && states[i].log[l.aux].ts == l.ts &&
            bytes == states[i].log[l.aux].val
  {
    RunKeepsInv(c, states, steps, i);
    var s := states[i];
    assert ReaderOk(s.readers[r], s.log, s.blocks, s.writers);
  }
}
