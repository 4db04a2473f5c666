/** What the readers' own steps answer: read on their own, and with everything else going on. Module PipelineReads says
    what a key reads as at one moment; here a read takes a look-up, a page's lock and a copy, each a step of its own. */
module PipelineAnswers {
  import opened Base
  import opened Stamp
  import opened LocMap
  import opened Pipeline
  import opened PipelineWriters
  import opened PipelineDisk
  import opened PipelineRuns
  import opened PipelineFrames
  import opened PipelineReads
  import opened PipelineFence

  // ---------------------------------------------------------------- what a location selects

  /** l is a location of k in this state, and the log entry it belongs to. */
  lemma LocatedEntry(c: Config, s: State, k: Key)
    requires Inv(c, s) && k in s.loc
    ensures var l := s.loc[k];
            && l.aux < |s.log| && s.log[l.aux].key == k && s.log[l.aux].ts == l.ts && !l.id.NoBlock?
            && BytesAt(s, l) == s.log[l.aux].val && (l.id.File? ==> l.id.f < |s.disk| && !Removal(l.ts))
  {
    LocSelectsValue(c, s, k);
    assert LocOk(s.loc, s.log, s.place, s.files, s.blocks, s.writers, k);
    assert LocDisk(c, s.files, s.disk, s.loc[k]);
  }

  /** The value at l is in a file that does not have its last byte on disk. */
  predicate Waiting(s: State, l: Loc)
  {
    l.id.File? && l.len > 0 && l.id.f < |s.disk| && s.disk[l.id.f] < l.off + l.len
  }

  // ---------------------------------------------------------------- a read on its own

  predicate StepOf(a: Step, r: nat)
  {
    (a.ReadStart? && a.r == r) || (a.ReadLock? && a.r == r) || (a.ReadCopy? && a.r == r)
  }

  /** Reader r after a step of its own. */
  ghost function ReaderAfter(c: Config, s: State, a: Step, r: nat): Reader
    requires Shape(c, s) && Enabled(c, s, a) && StepOf(a, r)
  {
    Pipeline.Apply(c, s, a).readers[r]
  }

  /** The state after a read that nothing else interrupts: the look-up, then the lock and the copy if it needs them. */
  ghost function ReadAlone(c: Config, s: State, r: nat, k: Key): (s': State)
    requires Shape(c, s) && r < |s.readers|
    ensures r < |s'.readers|
  {
    LockAlone(c, Pipeline.Apply(c, s, ReadStart(r, k)), r)
  }

  ghost function LockAlone(c: Config, s: State, r: nat): (s': State)
    requires Shape(c, s) && r < |s.readers|
    ensures r < |s'.readers|
  {
    if !s.readers[r].AtBlock? then s
    else
      var s' := Pipeline.Apply(c, s, ReadLock(r));
      if !s'.readers[r].Holding? then s' else Pipeline.Apply(c, s', ReadCopy(r))
  }

  /** The answer of a reader that is done. */
  ghost predicate Tells(rd: Reader, k: Key, a: Answer)
  {
    match a
    case NotFound(ts) => rd == Missing(k, ts)
    case Failing(ts) => rd.Failed? && rd.key == k && rd.loc.ts == ts
    case Found(ts, bytes) => rd.Finished? && rd.key == k && rd.loc.ts == ts && rd.bytes == bytes
  }

  /** A read on its own, exactly: not found when the key is not in the map or its stamp has the deletion or removal
      bit; failed when the value is in a file that does not have all of it on disk; and in every other case finished
      with the value written under the stamp in the map. That is what ReadKey says. */
  lemma UndisturbedRead(c: Config, s: State, r: nat, k: Key)
    requires Inv(c, s) && r < |s.readers|
    ensures var rd := ReadAlone(c, s, r, k).readers[r];
            && Tells(rd, k, ReadKey(s, k))
            && (k !in s.loc ==> rd == Missing(k, 0))
            && (k in s.loc ==>
                  var l := s.loc[k];
                  if Deletion(l.ts) || Removal(l.ts) then rd == Missing(k, l.ts)
                  else if Waiting(s, l) then rd == Failed(k, l)
                  else l.aux < |s.log| && s.log[l.aux].key == k && s.log[l.aux].ts == l.ts &&
                       rd == Finished(k, l, s.log[l.aux].val))
  {
    var s' := Pipeline.Apply(c, s, ReadStart(r, k));
    if k in s.loc {
      LocatedEntry(c, s, k);
      if s'.readers[r].AtBlock? {
        StepKeepsInv(c, s, ReadStart(r, k));
        FoundInPage(c, s', r);
      }
    }
  }

  /** A reader about to lock the page that its key is in gets the value. */
  lemma FoundInPage(c: Config, s: State, r: nat)
    requires Inv(c, s) && r < |s.readers| && s.readers[r].AtBlock?
    requires s.readers[r].key in s.loc && !Deletion(s.loc[s.readers[r].key].ts)
    requires s.loc[s.readers[r].key].id == Mem(s.readers[r].b)
    ensures var l := s.loc[s.readers[r].key];
            l.aux < |s.log| && LockAlone(c, s, r).readers[r] == Finished(s.readers[r].key, l, s.log[l.aux].val)
  {
    StepKeepsInv(c, s, ReadLock(r));
    CopyAnswers(c, Pipeline.Apply(c, s, ReadLock(r)), r);
  }

  // ---------------------------------------------------------------- the lock and the copy

  /** What a reader that has waited for page b's lock gets, whatever happened to the key meanwhile: not found when it
      is gone or deleted; its value's page held when that is still b; the way to another page when it has moved there;
      and its value, or a failure, when it has moved to a file. */
  lemma LockAnswers(c: Config, s: State, r: nat)
    requires Inv(c, s) && r < |s.readers| && s.readers[r].AtBlock?
    ensures Enabled(c, s, ReadLock(r))
    ensures var AtBlock(k, b) := s.readers[r];
            var rd := ReaderAfter(c, s, ReadLock(r), r);
            && (k !in s.loc ==> rd == Missing(k, 0))
            && (k in s.loc ==>
                  var l := s.loc[k];
                  if Deletion(l.ts) then rd == Missing(k, l.ts)
                  else if l.id == Mem(b) then rd == Holding(k, b, l)
                  else if l.id.Mem? then rd == AtBlock(k, l.id.b)
                  else if Waiting(s, l) then rd == Failed(k, l)
                  else l.aux < |s.log| && s.log[l.aux].key == k && s.log[l.aux].ts == l.ts &&
                       rd == Finished(k, l, s.log[l.aux].val))
  {
    if s.readers[r].key in s.loc { LocatedEntry(c, s, s.readers[r].key); }
  }

  /** A reader that holds a page's lock gets the value written under the location it has, whatever memWriter and
      memClearer have done since. */
  lemma CopyAnswers(c: Config, s: State, r: nat)
    requires Inv(c, s) && r < |s.readers| && s.readers[r].Holding?
    ensures Enabled(c, s, ReadCopy(r))
    ensures var Holding(k, b, l) := s.readers[r];
            && l.aux < |s.log| && s.log[l.aux].key == k && s.log[l.aux].ts == l.ts
            && ReaderAfter(c, s, ReadCopy(r), r) == Finished(k, l, s.log[l.aux].val)
  {
    assert ReaderOk(s.readers[r], s.log, s.blocks, s.writers);
  }

  /** memBlock.read does not look at the removal bit: a reader that waits for a page's lock gets hold of a removal
      marker, and finishes with its value, exactly when the marker is in that page and is no tombstone's. A look-up at
      the same moment answers that the key is not found. */
  lemma MarkerIsRead(c: Config, s: State, r: nat)
    requires Inv(c, s) && r < |s.readers| && s.readers[r].AtBlock?
    ensures var AtBlock(k, b) := s.readers[r];
            var rd := ReaderAfter(c, s, ReadLock(r), r);
            && (rd.Holding? && Removal(rd.loc.ts) <==>
                  k in s.loc && Removal(s.loc[k].ts) && !Deletion(s.loc[k].ts) && s.loc[k].id == Mem(b))
            && (rd.Finished? ==> !Removal(rd.loc.ts))
            && (k in s.loc && Removal(s.loc[k].ts) ==>
                  ReadAlone(c, s, r, k).readers[r] == Missing(k, s.loc[k].ts))
  {
    LockAnswers(c, s, r);
    var k := s.readers[r].key;
    if k in s.loc { LocatedEntry(c, s, k); }
    UndisturbedRead(c, s, r, k);
  }

  // ---------------------------------------------------------------- a read among everything else

  lemma WriterReaders(c: Config, s: State, a: Step)
    requires Shape(c, s) && Enabled(c, s, a) && WriterStep(a)
    ensures Pipeline.Apply(c, s, a).readers == s.readers
  {
  }

  lemma FileReaders(c: Config, s: State, a: Step)
    requires Shape(c, s) && Enabled(c, s, a) && FileStep(a)
    ensures Pipeline.Apply(c, s, a).readers == s.readers
  {
  }

  lemma TokenReaders(c: Config, s: State, a: Step)
    requires Shape(c, s) && Enabled(c, s, a) && TokenStep(a)
    ensures Pipeline.Apply(c, s, a).readers == s.readers
  {
  }

  lemma ClearReaders(c: Config, s: State, a: Step)
    requires Shape(c, s) && Enabled(c, s, a) && ClearStep(a)
    ensures Pipeline.Apply(c, s, a).readers == s.readers
  {
  }

  /** Only its own steps and a restart change a reader. */
  lemma ReaderStays(c: Config, s: State, a: Step, r: nat)
    requires Shape(c, s) && Enabled(c, s, a) && r < |s.readers| && !StepOf(a, r) && !a.Restart?
    ensures var s' := Pipeline.Apply(c, s, a); |s'.readers| == |s.readers| && s'.readers[r] == s.readers[r]
  {
    if WriterStep(a) {
      WriterReaders(c, s, a);
    } else if FileStep(a) {
      FileReaders(c, s, a);
    } else if TokenStep(a) {
      TokenReaders(c, s, a);
    } else if ClearStep(a) {
      ClearReaders(c, s, a);
    }
  }

  /** What the state's answer for k was when the reader came to what it has now. A finished reader may have a removal
      marker's value, which the state itself does not answer with. */
  ghost predicate AnswersAt(s: State, rd: Reader, k: Key)
  {
    match rd
    case NoRead => false
    case AtBlock(k', _) => k' == k
    case Holding(k', _, l) => k' == k && k in s.loc && s.loc[k] == l && !Deletion(l.ts)
    case Finished(k', l, bytes) =>
      || Tells(rd, k, ReadKey(s, k))
      || (Removal(l.ts) && k' == k && k in s.loc && s.loc[k] == l && ReadKey(s, k) == NotFound(l.ts)
          && bytes == BytesAt(s, l))
    case Failed(_, _) => Tells(rd, k, ReadKey(s, k))
    case Missing(_, _) => Tells(rd, k, ReadKey(s, k))
  }

  lemma StartAnswers(c: Config, s: State, r: nat, k: Key)
    requires Inv(c, s) && r < |s.readers|
    ensures AnswersAt(s, ReaderAfter(c, s, ReadStart(r, k), r), k)
  {
    if k in s.loc { LocatedEntry(c, s, k); }
  }

  lemma LockAnswersNow(c: Config, s: State, r: nat)
    requires Inv(c, s) && r < |s.readers| && s.readers[r].AtBlock?
    ensures AnswersAt(s, ReaderAfter(c, s, ReadLock(r), r), s.readers[r].key)
  {
    if s.readers[r].key in s.loc { LocatedEntry(c, s, s.readers[r].key); }
  }

  /** A copy gives what the state answered when the lock was taken. */
  lemma CopyAnswersThen(c: Config, s: State, t: State, r: nat, k: Key)
    requires Inv(c, s) && Inv(c, t) && s.log <= t.log && r < |t.readers| && t.readers[r].Holding?
    requires AnswersAt(s, t.readers[r], k)
    ensures AnswersAt(s, ReaderAfter(c, t, ReadCopy(r), r), k)
  {
    CopyAnswers(c, t, r);
    LocatedEntry(c, s, k);
    assert ReaderOk(t.readers[r], t.log, t.blocks, t.writers);
  }

  /** Reader r starts to read k with step i and does not start again before state j; nor does the store restart. */
  ghost predicate Reading(steps: seq<Step>, r: nat, k: Key, i: nat, j: nat)
  {
    && i < j <= |steps| && steps[i] == ReadStart(r, k)
    && forall m {:trigger steps[m]} :: i < m < j ==> !(steps[m].ReadStart? && steps[m].r == r) && !steps[m].Restart?
  }

  lemma {:induction false} LogsGrow(c: Config, states: seq<State>, steps: seq<Step>, i: nat, j: nat)
    requires Run(c, states, steps) && i <= j < |states|
    ensures states[i].log <= states[j].log
    decreases j
  {
    if i < j {
      LogsGrow(c, states, steps, i, j - 1);
      RunKeepsInv(c, states, steps, j - 1);
      assert StepAt(c, states, steps, j - 1);
      StepClosedStay(c, states[j - 1], steps[j - 1]);
    }
  }

  /** One step later: the moment stays, or becomes that of the step. */
  lemma NextAnswers(c: Config, s: State, t: State, a: Step, r: nat, k: Key) returns (now: bool)
    requires Inv(c, s) && Inv(c, t) && s.log <= t.log && Enabled(c, t, a) && r < |t.readers|
    requires !(a.ReadStart? && a.r == r) && !a.Restart? && AnswersAt(s, t.readers[r], k)
    ensures var t' := Pipeline.Apply(c, t, a);
            r < |t'.readers| && AnswersAt(if now then t else s, t'.readers[r], k)
  {
    now := a == ReadLock(r);
    if a == ReadLock(r) {
      LockAnswersNow(c, t, r);
    } else if a == ReadCopy(r) {
      CopyAnswersThen(c, s, t, r, k);
    } else {
      ReaderStays(c, t, a, r);
    }
  }

  /** Step n of a run, with the read's moment at m. */
  lemma MomentStep(c: Config, states: seq<State>, steps: seq<Step>, r: nat, k: Key, m: nat, n: nat) returns (m': nat)
    requires Run(c, states, steps) && m <= n < |steps| && r < |states[n].readers|
    requires !(steps[n].ReadStart? && steps[n].r == r) && !steps[n].Restart?
    requires AnswersAt(states[m], states[n].readers[r], k)
    ensures m <= m' <= n && r < |states[n + 1].readers| && AnswersAt(states[m'], states[n + 1].readers[r], k)
  {
    RunKeepsInv(c, states, steps, m);
    RunKeepsInv(c, states, steps, n);
    LogsGrow(c, states, steps, m, n);
    assert StepAt(c, states, steps, n);
    var now := NextAnswers(c, states[m], states[n], steps[n], r, k);
    m' := if now then n else m;
  }

  lemma FirstMoment(c: Config, states: seq<State>, steps: seq<Step>, r: nat, k: Key, i: nat)
    requires Run(c, states, steps) && i < |steps| && steps[i] == ReadStart(r, k) && r < |states[i].readers|
    ensures r < |states[i + 1].readers| && AnswersAt(states[i], states[i + 1].readers[r], k)
  {
    RunKeepsInv(c, states, steps, i);
    assert StepAt(c, states, steps, i);
    StartAnswers(c, states[i], r, k);
  }

  /** Reads are atomic: whatever happens during a read, what it comes to is what the store answered for the key at one
      moment between its start and its end; but a reader that waited for a page's lock can finish with the value of a
      removal marker where the store answers that the key is not found. */
  lemma {:induction false} ReadsAreAtomic(c: Config, states: seq<State>, steps: seq<Step>, r: nat, k: Key, i: nat,
                                          j: nat) returns (m: nat)
    requires Run(c, states, steps) && Reading(steps, r, k, i, j) && r < |states[i].readers|
    ensures i <= m < j && r < |states[j].readers| && AnswersAt(states[m], states[j].readers[r], k)
    decreases j
  {
    var n := j - 1;
    if n == i {
      FirstMoment(c, states, steps, r, k, i);
      m := i;
    } else {
      m := ReadsAreAtomic(c, states, steps, r, k, i, n);
      m := MomentStep(c, states, steps, r, k, m, n);
    }
  }

  /** So for a key with no marker taken and no record lost a finished read gives what was the last taken write at one
      moment of the read, and a read that finds nothing is of a moment without one, or with a delete as the last. */
  lemma ReadsAreOnceLastWrites(c: Config, states: seq<State>, steps: seq<Step>, r: nat, k: Key, i: nat, j: nat)
      returns (m: nat)
    requires Run(c, states, steps) && Reading(steps, r, k, i, j) && r < |states[i].readers|
    requires NoRemovals(states[j].log, k) && SameValues(states[j].log, k)
    requires forall n :: i <= n < j ==> NoneLost(states[n].log, states[n].place, k)
    ensures i <= m < j && r < |states[j].readers|
    ensures var rd := states[j].readers[r];
            rd.Finished? || rd.Missing? ==> Tells(rd, k, LastAnswer(states[m].log, k))
  {
    m := ReadsAreAtomic(c, states, steps, r, k, i, j);
    LogsGrow(c, states, steps, m, j);
    RunKeepsInv(c, states, steps, m);
    var s := states[m];
    assert NoRemovals(s.log, k) && SameValues(s.log, k) by {
      assert forall n :: 0 <= n < |s.log| ==> s.log[n] == states[j].log[n];
    }
    AgreesWithSimpleMap(c, s, k);
    if k in s.loc { LocatedEntry(c, s, k); }
  }
}
