/** compactFile: the live entries of one value file are rewritten through the store by several workers while clients
    go on writing and keys may be dropped from the map, and then the file is removed. Each look-up, read and rewrite
    is a step of its own. */
module Compaction {
  import opened Base
  import opened Stamp
  import opened Versions

  /** A value, and whether its location is in the file being compacted. */
  datatype Held = Held(bytes: Bytes, inFile: bool)

  type Cells = map<Key, Version<Held>>

  /** A record of the file's TOC. */
  datatype Entry = Entry(key: Key, ts: nat)

  /** Where a worker is with an entry. */
  datatype Stage = Todo | Looked | Fetched(bytes: Bytes) | Done

  datatype Written = Written(key: Key, ts: nat, bytes: Bytes)

  /** `news` and `dropped` are history: what clients wrote, and which keys left the map, while the compaction ran. */
  datatype State = State(cells: Cells, stages: seq<Stage>, news: set<Written>, dropped: set<Key>)

  /** Drop is a cleared removal marker, or the discarding of a marked entry. */
  datatype Step = Client(w: Written) | Drop(k: Key) | LookUp(i: nat) | ReadValue(i: nat) | Rewrite(i: nat)

  predicate LiveStamp(ts: nat) { !Deletion(ts) && !Removal(ts) }

  /** What read answers: the timestamp, and the value when there is one. */
  datatype Answer = Answer(ts: nat, bytes: Option<Bytes>)

  function Read(c: Cells, k: Key): Answer
  {
    if k in c && LiveStamp(c[k].ts) then Answer(c[k].ts, Some(c[k].val.bytes)) else Answer(TsOf(c, k), None)
  }

  /** Every write through the store lands outside the file. */
  function Write(c: Cells, k: Key, ts: nat, bytes: Bytes): Cells { Put(c, k, ts, Held(bytes, false)) }

  predicate Enabled(es: seq<Entry>, s: State, step: Step)
  {
    match step
    case Client(w) => w.ts > 0 && !Stamp.Rewrite(w.ts)
    case Drop(_) => true
    case LookUp(i) => i < |es| == |s.stages| && s.stages[i] == Todo
    case ReadValue(i) => i < |es| == |s.stages| && s.stages[i] == Looked
    case Rewrite(i) => i < |es| == |s.stages| && s.stages[i].Fetched?
  }

  /** The stage after the look-up: stale when the map is newer or the key is gone. */
  function AfterLookUp(c: Cells, e: Entry): Stage
  {
    if TsOf(c, e.key) > e.ts || TsOf(c, e.key) == 0 then Done else Looked
  }

  /** The stage after the read: stale when there is no value or the value is newer. */
  function AfterRead(c: Cells, e: Entry): Stage
  {
    match Read(c, e.key).bytes
    case None => Done
    case Some(bytes) => if Read(c, e.key).ts > e.ts then Done else Fetched(bytes)
  }

  function Next(es: seq<Entry>, s: State, step: Step): State
    requires Enabled(es, s, step)
  {
    match step
    case Client(w) => s.(cells := Write(s.cells, w.key, w.ts, w.bytes), news := s.news + {w})
    case Drop(k) => s.(cells := s.cells - {k}, dropped := s.dropped + {k})
    case LookUp(i) => s.(stages := s.stages[i := AfterLookUp(s.cells, es[i])])
    case ReadValue(i) => s.(stages := s.stages[i := AfterRead(s.cells, es[i])])
    case Rewrite(i) =>
      s.(cells := Write(s.cells, es[i].key, WithRewrite(es[i].ts), s.stages[i].bytes), stages := s.stages[i := Done])
  }

  /** A run, if every step was enabled. */
  function Run(es: seq<Entry>, s: State, steps: seq<Step>): Option<State>
    decreases |steps|
  {
    if steps == [] then Some(s)
    else if Enabled(es, s, steps[0]) then Run(es, Next(es, s, steps[0]), steps[1..])
    else None
  }

  lemma RunStep(es: seq<Entry>, s: State, step: Step, rest: seq<Step>)
    requires Enabled(es, s, step)
    ensures Run(es, s, [step] + rest) == Run(es, Next(es, s, step), rest)
  {
    assert ([step] + rest)[1..] == rest;
  }

  // ---------------------------------------------------------------- one entry

  /** read finds a value exactly for a key whose stamp has neither flag, and always reports the stamp. */
  lemma ReadExactly(c: Cells, k: Key)
    ensures Read(c, k).ts == if k in c then c[k].ts else 0
    ensures Read(c, k).bytes ==
            if k in c && !Deletion(c[k].ts) && !Removal(c[k].ts) then Some(c[k].val.bytes) else None
  {
  }

  /** The map has a value for the entry's key that is no newer than the entry. */
  predicate Fresh(c: Cells, e: Entry)
  {
    e.key in c && 0 < c[e.key].ts <= e.ts && !Deletion(c[e.key].ts) && !Removal(c[e.key].ts)
  }

  /** What handling an entry comes to when nothing else moves: a value no newer than the entry is moved out of the
      file under the entry's stamp, and any other entry changes nothing. */
  lemma {:induction false} HandledExactly(es: seq<Entry>, s: State, i: nat)
    requires i < |es| == |s.stages| && s.stages[i] == Todo && !Stamp.Rewrite(es[i].ts)
    ensures var e, stages := es[i], s.stages[i := Done];
            if Fresh(s.cells, e) then
              Run(es, s, [LookUp(i), ReadValue(i), Rewrite(i)]) ==
              Some(s.(cells := s.cells[e.key := Version(e.ts, Held(s.cells[e.key].val.bytes, false))],
                      stages := stages))
            else
              || Run(es, s, [LookUp(i)]) == Some(s.(stages := stages))
              || Run(es, s, [LookUp(i), ReadValue(i)]) == Some(s.(stages := stages))
  {
    var e := es[i];
    var s1 := Next(es, s, LookUp(i));
    RunStep(es, s, LookUp(i), []);
    if s1.stages[i] == Looked {
      var s2 := Next(es, s1, ReadValue(i));
      TwoSteps(es, s, LookUp(i), ReadValue(i));
      assert s2.stages == s.stages[i := s2.stages[i]];
      if Fresh(s.cells, e) {
        assert Stored(WithRewrite(e.ts)) == e.ts;
        RunStep(es, s, LookUp(i), [ReadValue(i), Rewrite(i)]);
        TwoSteps(es, s1, ReadValue(i), Rewrite(i));
        assert [LookUp(i)] + [ReadValue(i), Rewrite(i)] == [LookUp(i), ReadValue(i), Rewrite(i)];
        assert s.stages[i := s2.stages[i]][i := Done] == s.stages[i := Done];
      }
    } else {
      assert [LookUp(i)] + [] == [LookUp(i)];
    }
  }

  lemma TwoSteps(es: seq<Entry>, s: State, a: Step, b: Step)
    requires Enabled(es, s, a) && Enabled(es, Next(es, s, a), b)
    ensures Run(es, s, [a, b]) == Some(Next(es, Next(es, s, a), b))
  {
    RunStep(es, s, a, [b]);
    RunStep(es, Next(es, s, a), b, []);
    assert [a] + [b] == [a, b] && [b] + [] == [b];
  }

  /** A tombstone or removal marker is never rewritten: as long as only the compaction works on the key, and none of
      its entries had been read before, the key keeps what it has. */
  lemma {:induction false} FlaggedStays(es: seq<Entry>, s: State, k: Key, steps: seq<Step>)
    requires k in s.cells && (Deletion(s.cells[k].ts) || Removal(s.cells[k].ts)) && !Pending(es, s, k)
    requires LeavesAlone(steps, k) && Run(es, s, steps).Some?
    ensures var t := Run(es, s, steps).value; k in t.cells && t.cells[k] == s.cells[k] && !Pending(es, t, k)
    decreases |steps|
  {
    if steps != [] {
      var t := Next(es, s, steps[0]);
      assert !(steps[0].Client? && steps[0].w.key == k) && steps[0] != Drop(k);
      assert steps[0].Rewrite? ==> !EntryAt(es, s, k, steps[0].i);
      assert forall i: nat :: EntryAt(es, t, k, i) ==> EntryAt(es, s, k, i);
      assert LeavesAlone(steps[1..], k);
      FlaggedStays(es, t, k, steps[1..]);
    }
  }

  // ---------------------------------------------------------------- when a dropped key comes back

  /** No step of the run is a client's for k, and none drops it. */
  ghost predicate LeavesAlone(steps: seq<Step>, k: Key)
  {
    forall i :: 0 <= i < |steps| ==> !(steps[i].Client? && steps[i].w.key == k) && steps[i] != Drop(k)
  }

  ghost predicate EntryAt(es: seq<Entry>, s: State, k: Key, i: nat) { i < |es| == |s.stages| && es[i].key == k }

  /** Some entry of k has been read and not yet rewritten. */
  ghost predicate Pending(es: seq<Entry>, s: State, k: Key)
  {
    exists i: nat :: EntryAt(es, s, k, i) && s.stages[i].Fetched?
  }

  /** Compaction alone can bring k into the map. */
  ghost predicate CanComeBack(es: seq<Entry>, s: State, k: Key)
  {
    exists steps :: LeavesAlone(steps, k) && Run(es, s, steps).Some? && k in Run(es, s, steps).value.cells
  }

  lemma {:induction false} StaysAway(es: seq<Entry>, s: State, k: Key, steps: seq<Step>)
    requires k !in s.cells && !Pending(es, s, k) && LeavesAlone(steps, k) && Run(es, s, steps).Some?
    ensures k !in Run(es, s, steps).value.cells
    decreases |steps|
  {
    if steps != [] {
      var t := Next(es, s, steps[0]);
      assert !(steps[0].Client? && steps[0].w.key == k);
      assert steps[0].Rewrite? ==> !EntryAt(es, s, k, steps[0].i);
      assert forall i: nat :: EntryAt(es, t, k, i) ==> EntryAt(es, s, k, i);
      assert LeavesAlone(steps[1..], k);
      StaysAway(es, t, k, steps[1..]);
    }
  }

  /** A dropped key can come back through the compaction if and only if one of its entries had been read and not yet
      rewritten when it was dropped. */
  lemma ComesBackExactlyWhen(es: seq<Entry>, s: State, k: Key)
    ensures CanComeBack(es, Next(es, s, Drop(k)), k) <==> Pending(es, s, k)
  {
    var t := Next(es, s, Drop(k));
    if Pending(es, s, k) {
      var i: nat :| EntryAt(es, s, k, i) && s.stages[i].Fetched?;
      var step := Rewrite(i);
      RunStep(es, t, step, []);
      assert LeavesAlone([step] + [], k);
      assert k in Run(es, t, [step] + []).value.cells;
    } else {
      assert forall i: nat :: EntryAt(es, t, k, i) ==> EntryAt(es, s, k, i);
      forall steps | LeavesAlone(steps, k) && Run(es, t, steps).Some? ensures k !in Run(es, t, steps).value.cells {
        StaysAway(es, t, k, steps);
      }
    }
  }

  // ---------------------------------------------------------------- when a client's value is restamped

  /** Entry i would put a stamp above ts on k: it has been read, or will read whatever live value is there. */
  ghost predicate Overtakes(es: seq<Entry>, s: State, k: Key, ts: nat, i: nat)
  {
    EntryAt(es, s, k, i) && es[i].ts > ts && !s.stages[i].Done? && (s.stages[i].Fetched? || LiveStamp(ts))
  }

  ghost predicate SomeOvertakes(es: seq<Entry>, s: State, k: Key, ts: nat)
  {
    exists i: nat :: Overtakes(es, s, k, ts, i)
  }

  /** Compaction alone can move k's timestamp. */
  ghost predicate CanRestamp(es: seq<Entry>, s: State, k: Key)
  {
    exists steps ::
      && LeavesAlone(steps, k) && Run(es, s, steps).Some?
      && TsOf(Run(es, s, steps).value.cells, k) != TsOf(s.cells, k)
  }

  ghost predicate EvenEntries(es: seq<Entry>)
  {
    forall i :: 0 <= i < |es| ==> !Stamp.Rewrite(es[i].ts)
  }

  lemma RewriteStamp(ts: nat)
    requires !Stamp.Rewrite(ts)
    ensures WithRewrite(ts) == ts + 1 && Stored(ts + 1) == ts
  {
  }

  lemma {:induction false} KeepsStamp(es: seq<Entry>, s: State, k: Key, ts: nat, steps: seq<Step>)
    requires EvenEntries(es) && k in s.cells && s.cells[k].ts == ts > 0 && !SomeOvertakes(es, s, k, ts)
    requires LeavesAlone(steps, k) && Run(es, s, steps).Some?
    ensures TsOf(Run(es, s, steps).value.cells, k) == ts
    decreases |steps|
  {
    if steps != [] {
      var t := Next(es, s, steps[0]);
      assert !(steps[0].Client? && steps[0].w.key == k) && steps[0] != Drop(k);
      if steps[0].Rewrite? {
        RewriteStamp(es[steps[0].i].ts);
        assert !Overtakes(es, s, k, ts, steps[0].i);
      }
      assert k in t.cells && t.cells[k].ts == ts;
      StaysClear(es, s, k, ts, steps[0]);
      assert LeavesAlone(steps[1..], k);
      KeepsStamp(es, t, k, ts, steps[1..]);
    }
  }

  lemma StaysClear(es: seq<Entry>, s: State, k: Key, ts: nat, step: Step)
    requires k in s.cells && s.cells[k].ts == ts && !SomeOvertakes(es, s, k, ts) && Enabled(es, s, step)
    ensures !SomeOvertakes(es, Next(es, s, step), k, ts)
  {
    var t := Next(es, s, step);
    forall i: nat ensures !Overtakes(es, t, k, ts, i) {
      assert !Overtakes(es, s, k, ts, i);
    }
  }

  /** The steps left for an entry. */
  function Rest(stage: Stage, i: nat): seq<Step>
  {
    match stage
    case Todo => [LookUp(i), ReadValue(i), Rewrite(i)]
    case Looked => [ReadValue(i), Rewrite(i)]
    case Fetched(_) => [Rewrite(i)]
    case Done => []
  }

  lemma RestRuns(es: seq<Entry>, s: State, k: Key, ts: nat, i: nat)
    requires EvenEntries(es) && k in s.cells && s.cells[k].ts == ts > 0 && Overtakes(es, s, k, ts, i)
    ensures var end := Run(es, s, Rest(s.stages[i], i));
            && end.Some? && TsOf(end.value.cells, k) == es[i].ts
            && (!s.stages[i].Fetched? ==> end.value.cells[k].val.bytes == s.cells[k].val.bytes)
    decreases if s.stages[i].Todo? then 2 else if s.stages[i].Looked? then 1 else 0
  {
    RewriteStamp(es[i].ts);
    match s.stages[i]
    case Todo =>
      RunStep(es, s, LookUp(i), [ReadValue(i), Rewrite(i)]);
      assert [LookUp(i)] + [ReadValue(i), Rewrite(i)] == Rest(Todo, i);
      RestRuns(es, Next(es, s, LookUp(i)), k, ts, i);
    case Looked =>
      RunStep(es, s, ReadValue(i), [Rewrite(i)]);
      assert [ReadValue(i)] + [Rewrite(i)] == Rest(Looked, i);
      RestRuns(es, Next(es, s, ReadValue(i)), k, ts, i);
    case Fetched(bytes) =>
      RunStep(es, s, Rewrite(i), []);
      assert [Rewrite(i)] + [] == Rest(Fetched(bytes), i);
  }

  lemma RestLeavesAlone(stage: Stage, i: nat, k: Key)
    ensures LeavesAlone(Rest(stage, i), k)
  {
  }

  /** A client's value can get a stamp nobody wrote it with if and only if a newer record of the key is still to be
      handled, and either has been read already or will find the value live. */
  lemma RestampedExactlyWhen(es: seq<Entry>, s: State, w: Written)
    requires EvenEntries(es) && Enabled(es, s, Client(w)) && TsOf(s.cells, w.key) < w.ts
    ensures CanRestamp(es, Next(es, s, Client(w)), w.key) <==> SomeOvertakes(es, s, w.key, w.ts)
  {
    var t := Next(es, s, Client(w));
    assert t.cells[w.key].ts == w.ts;
    assert forall i: nat :: Overtakes(es, t, w.key, w.ts, i) <==> Overtakes(es, s, w.key, w.ts, i);
    if SomeOvertakes(es, s, w.key, w.ts) {
      var i: nat :| Overtakes(es, t, w.key, w.ts, i);
      RestRuns(es, t, w.key, w.ts, i);
      RestLeavesAlone(t.stages[i], i, w.key);
    } else {
      forall steps | LeavesAlone(steps, w.key) && Run(es, t, steps).Some?
        ensures TsOf(Run(es, t, steps).value.cells, w.key) == w.ts
      {
        KeepsStamp(es, t, w.key, w.ts, steps);
      }
    }
  }

  // ---------------------------------------------------------------- what every safe interleaving keeps

  /** What the environment must leave out, by the two conditions above: dropping a key that comes back, and writing a
      value that is restamped. */
  ghost predicate Safe(es: seq<Entry>, s: State, step: Step)
  {
    match step
    case Drop(k) => !Pending(es, s, k)
    case Client(w) => TsOf(s.cells, w.key) < w.ts ==> !SomeOvertakes(es, s, w.key, w.ts)
    case _ => true
  }

  /** Before the compaction: every location in the file has its TOC record, and no record is newer than the map. */
  ghost predicate Begins(es: seq<Entry>, s: State)
  {
    && |s.stages| == |es| && s.news == {} && s.dropped == {}
    && (forall i :: 0 <= i < |es| ==> s.stages[i] == Todo)
    && (forall i :: 0 <= i < |es| && es[i].key in s.cells ==> es[i].ts <= s.cells[es[i].key].ts)
    && EntriesOk(es) && CellStamps(s.cells) && Recorded(es, s.cells)
  }

  ghost predicate EntriesOk(es: seq<Entry>)
  {
    EvenEntries(es) && forall i :: 0 <= i < |es| ==> es[i].ts > 0
  }

  ghost predicate CellStamps(c: Cells) { forall k {:trigger c[k]} :: k in c ==> c[k].ts > 0 }

  /** The i-th entry is the record of the key's location. */
  ghost predicate RecordOf(es: seq<Entry>, k: Key, ts: nat, i: nat) { i < |es| && es[i] == Entry(k, ts) }

  ghost predicate HasRecord(es: seq<Entry>, k: Key, ts: nat) { exists i: nat :: RecordOf(es, k, ts, i) }

  ghost predicate Recorded(es: seq<Entry>, c: Cells)
  {
    forall k {:trigger c[k]} :: k in c && c[k].val.inFile ==> HasRecord(es, k, c[k].ts)
  }

  /** What is known of an entry at its stage. */
  ghost predicate StageOk(c: Cells, e: Entry, stage: Stage)
  {
    match stage
    case Fetched(bytes) =>
      e.key in c && (c[e.key].ts > e.ts || (c[e.key].ts == e.ts && c[e.key].val.bytes == bytes))
    case Done => e.key in c ==> c[e.key].ts > e.ts || !LiveStamp(c[e.key].ts) || !c[e.key].val.inFile
    case _ => e.key in c && LiveStamp(c[e.key].ts) ==> e.ts <= c[e.key].ts
  }

  ghost predicate StagesOk(es: seq<Entry>, c: Cells, stages: seq<Stage>)
  {
    && |stages| == |es|
    && forall i {:trigger StageOk(c, es[i], stages[i])} :: 0 <= i < |es| ==> StageOk(c, es[i], stages[i])
  }

  /** A key has what it had before, unless it was dropped, or what a client has newly written. */
  ghost predicate CellOk(c0: Cells, s: State, k: Key)
  {
    && (k in c0 && k !in s.dropped ==> k in s.cells)
    && (k in s.cells ==>
          || (k in c0 && k !in s.dropped && s.cells[k].ts == c0[k].ts && s.cells[k].val.bytes == c0[k].val.bytes)
          || (Written(k, s.cells[k].ts, s.cells[k].val.bytes) in s.news &&
              (k !in s.dropped ==> s.cells[k].ts > TsOf(c0, k))))
  }

  ghost predicate CellsOk(c0: Cells, s: State)
  {
    forall k {:trigger CellOk(c0, s, k)} :: CellOk(c0, s, k)
  }

  ghost predicate Inv(es: seq<Entry>, c0: Cells, s: State)
  {
    && EntriesOk(es) && CellStamps(s.cells) && Recorded(es, s.cells)
    && StagesOk(es, s.cells, s.stages) && CellsOk(c0, s)
  }

  lemma BeginsInv(es: seq<Entry>, s: State)
    requires Begins(es, s)
    ensures Inv(es, s.cells, s)
  {
    forall k ensures CellOk(s.cells, s, k) { }
    forall i | 0 <= i < |es| ensures StageOk(s.cells, es[i], s.stages[i]) { }
  }

  /** A key's cell is replaced by one outside the file that is no older. */
  ghost predicate Raises(c: Cells, d: Cells, k: Key)
  {
    && k in d && d[k].ts >= TsOf(c, k) && d[k].ts > 0 && !d[k].val.inFile
    && (forall j :: j != k ==> (j in d <==> j in c) && (j in c ==> d[j] == c[j]))
  }

  lemma RaiseKeepsRecords(es: seq<Entry>, c: Cells, d: Cells, k: Key)
    requires Raises(c, d, k) && Recorded(es, c) && CellStamps(c)
    ensures Recorded(es, d) && CellStamps(d)
  {
    forall j | j in d && d[j].val.inFile ensures HasRecord(es, j, d[j].ts) { assert j != k && d[j] == c[j]; }
    forall j | j in d ensures d[j].ts > 0 { assert j != k ==> d[j] == c[j]; }
  }

  lemma ClientStages(es: seq<Entry>, s: State, w: Written, d: Cells)
    requires StagesOk(es, s.cells, s.stages) && TsOf(s.cells, w.key) < w.ts && !SomeOvertakes(es, s, w.key, w.ts)
    requires d == s.cells[w.key := Version(w.ts, Held(w.bytes, false))]
    ensures StagesOk(es, d, s.stages)
  {
    forall i | 0 <= i < |es| ensures StageOk(d, es[i], s.stages[i]) {
      assert StageOk(s.cells, es[i], s.stages[i]);
      assert !Overtakes(es, s, w.key, w.ts, i);
    }
  }

  lemma ClientKeeps(es: seq<Entry>, c0: Cells, s: State, w: Written)
    requires Inv(es, c0, s) && Enabled(es, s, Client(w)) && Safe(es, s, Client(w))
    ensures Inv(es, c0, Next(es, s, Client(w)))
  {
    var t := Next(es, s, Client(w));
    if TsOf(s.cells, w.key) < w.ts {
      assert Stored(w.ts) == w.ts;
      assert Raises(s.cells, t.cells, w.key);
      RaiseKeepsRecords(es, s.cells, t.cells, w.key);
      ClientStages(es, s, w, t.cells);
    }
    forall k ensures CellOk(c0, t, k) { assert CellOk(c0, s, k); }
  }

  lemma DropKeeps(es: seq<Entry>, c0: Cells, s: State, k: Key)
    requires Inv(es, c0, s) && Safe(es, s, Drop(k))
    ensures Inv(es, c0, Next(es, s, Drop(k)))
  {
    var t := Next(es, s, Drop(k));
    forall i | 0 <= i < |es| ensures StageOk(t.cells, es[i], s.stages[i]) {
      assert StageOk(s.cells, es[i], s.stages[i]);
      assert EntryAt(es, s, k, i) ==> !s.stages[i].Fetched?;
    }
    forall j ensures CellOk(c0, t, j) { assert CellOk(c0, s, j); }
    forall j | j in t.cells && t.cells[j].val.inFile ensures HasRecord(es, j, t.cells[j].ts) {
      assert s.cells[j] == t.cells[j];
    }
    assert CellStamps(t.cells) by {
      forall j | j in t.cells ensures t.cells[j].ts > 0 { assert s.cells[j] == t.cells[j]; }
    }
  }

  lemma StageMoves(es: seq<Entry>, c: Cells, stages: seq<Stage>, i: nat, stage: Stage)
    requires StagesOk(es, c, stages) && i < |es| && StageOk(c, es[i], stage)
    ensures StagesOk(es, c, stages[i := stage])
  {
    forall j | 0 <= j < |es| ensures StageOk(c, es[j], stages[i := stage][j]) { assert StageOk(c, es[j], stages[j]); }
  }

  lemma LookKeeps(es: seq<Entry>, c0: Cells, s: State, i: nat, stage: Stage, t: State)
    requires Inv(es, c0, s) && i < |es| && StageOk(s.cells, es[i], stage) && t == s.(stages := s.stages[i := stage])
    ensures Inv(es, c0, t)
  {
    StageMoves(es, s.cells, s.stages, i, stage);
    forall k ensures CellOk(c0, t, k) { assert CellOk(c0, s, k); }
  }

  lemma RewriteKeeps(es: seq<Entry>, c0: Cells, s: State, i: nat)
    requires Inv(es, c0, s) && Enabled(es, s, Rewrite(i))
    ensures Inv(es, c0, Next(es, s, Rewrite(i)))
  {
    var t, e := Next(es, s, Rewrite(i)), es[i];
    assert StageOk(s.cells, e, s.stages[i]);
    RewriteStamp(e.ts);
    if s.cells[e.key].ts <= e.ts {
      assert Raises(s.cells, t.cells, e.key);
      RaiseKeepsRecords(es, s.cells, t.cells, e.key);
      forall j | 0 <= j < |es| ensures StageOk(t.cells, es[j], s.stages[j]) {
        assert StageOk(s.cells, es[j], s.stages[j]);
      }
    }
    StageMoves(es, t.cells, s.stages, i, Done);
    forall k ensures CellOk(c0, t, k) { assert CellOk(c0, s, k); }
  }

  lemma StepKeepsInv(es: seq<Entry>, c0: Cells, s: State, step: Step)
    requires Inv(es, c0, s) && Enabled(es, s, step) && Safe(es, s, step)
    ensures Inv(es, c0, Next(es, s, step))
  {
    match step
    case Client(w) => ClientKeeps(es, c0, s, w);
    case Drop(k) => DropKeeps(es, c0, s, k);
    case LookUp(i) =>
      assert StageOk(s.cells, es[i], s.stages[i]);
      LookKeeps(es, c0, s, i, AfterLookUp(s.cells, es[i]), Next(es, s, step));
    case ReadValue(i) =>
      assert StageOk(s.cells, es[i], s.stages[i]);
      LookKeeps(es, c0, s, i, AfterRead(s.cells, es[i]), Next(es, s, step));
    case Rewrite(i) => RewriteKeeps(es, c0, s, i);
  }

  /** Every step of the run was safe when it was taken. */
  ghost predicate SafeRun(es: seq<Entry>, s: State, steps: seq<Step>)
    decreases |steps|
  {
    steps == [] || (Enabled(es, s, steps[0]) && Safe(es, s, steps[0]) && SafeRun(es, Next(es, s, steps[0]), steps[1..]))
  }

  lemma {:induction false} RunKeepsInv(es: seq<Entry>, c0: Cells, s: State, steps: seq<Step>)
    requires Inv(es, c0, s) && SafeRun(es, s, steps)
    ensures Run(es, s, steps).Some? && Inv(es, c0, Run(es, s, steps).value)
    decreases |steps|
  {
    if steps != [] {
      StepKeepsInv(es, c0, s, steps[0]);
      RunKeepsInv(es, c0, Next(es, s, steps[0]), steps[1..]);
    }
  }

  // ---------------------------------------------------------------- what compaction promises

  /** Compaction preserves reads: at any moment of any safe interleaving a key that was not dropped has a stamp no
      lower than before and reads as it did unless a client has written it newer; a key that was absent or dropped
      is there only as a client wrote it. */
  lemma ReadsPreserved(es: seq<Entry>, s: State, steps: seq<Step>, k: Key)
    requires Begins(es, s) && SafeRun(es, s, steps)
    ensures Run(es, s, steps).Some?
    ensures var t := Run(es, s, steps).value;
            var fresh' := k in t.cells && Written(k, t.cells[k].ts, t.cells[k].val.bytes) in t.news;
            && (k !in t.dropped ==> TsOf(t.cells, k) >= TsOf(s.cells, k))
            && (k !in t.dropped && Read(t.cells, k) != Read(s.cells, k) ==>
                  fresh' && TsOf(t.cells, k) > TsOf(s.cells, k))
            && ((k !in s.cells || k in t.dropped) && k in t.cells ==> fresh')
  {
    BeginsInv(es, s);
    RunKeepsInv(es, s.cells, s, steps);
    var t := Run(es, s, steps).value;
    assert CellOk(s.cells, t, k);
    assert k in s.cells ==> s.cells[k].ts > 0;
  }

  /** When every entry has been handled, no live value is located in the file any more: removing it loses nothing. */
  lemma FileIsUnused(es: seq<Entry>, s: State, steps: seq<Step>, k: Key)
    requires Begins(es, s) && SafeRun(es, s, steps) && Run(es, s, steps).Some?
    requires forall i :: 0 <= i < |es| == |Run(es, s, steps).value.stages| ==> Run(es, s, steps).value.stages[i] == Done
    ensures var t := Run(es, s, steps).value;
            k in t.cells && !Deletion(t.cells[k].ts) && !Removal(t.cells[k].ts) ==> !t.cells[k].val.inFile
  {
    BeginsInv(es, s);
    RunKeepsInv(es, s.cells, s, steps);
    var t := Run(es, s, steps).value;
    if k in t.cells && t.cells[k].val.inFile {
      assert HasRecord(es, k, t.cells[k].ts);
      var i: nat :| RecordOf(es, k, t.cells[k].ts, i);
      assert StageOk(t.cells, es[i], t.stages[i]);
    }
  }
}
