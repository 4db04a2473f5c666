/** A flush or shutdown can always complete, under the source's own limits: with its channel capacities, its two
    pages and two TOC blocks per worker, and memWriters that wait for a free page with a request in hand. From every
    state of every such run some steps lead to the end, and each brings a measure of what is still on its way down.
    That a free page can always be had rests on full pages holding a buffer's worth of bytes. */
module PipelineDrain {
  import opened Base
  import opened Stamp
  import opened LocMap
  import opened Pipeline
  import opened PipelineWriters
  import opened PipelineFiles
  import opened PipelineToc
  import opened PipelineDisk
  import opened PipelineRuns
  import opened PipelineFrames
  import opened PipelineFence
  import opened PipelineLimits
  import opened PipelineBounds
  import opened Finite

  // ---------------------------------------------------------------- the measure

  /** What is still to be done with a page: steps up to its release, its bytes into a file, its records. */
  function BlockWeight(b: Block): nat
  {
    match b.owner
    case Free => 0
    case AtWriter(_) => 47 + |b.values| + 4 * |b.recs|
    case InFileChan(_, _) => 46 + |b.values| + 4 * |b.recs|
    case HeldByFile => 5 + 4 * |b.recs|
    case InClearChan(_, _) => 4 + 4 * |b.recs|
    case AtClearer(_, pos) => 3 + 4 * (if pos <= |b.recs| then |b.recs| - pos else 0)
  }

  function PcWeight(pc: Pc): nat
  {
    match pc
    case Idle => 0
    case Extended(_, _, _) => 8
    case Copied(_, _, _) => 7
    case Placed(_, _, _, _, _) => 6
  }

  function WTokWeight(t: WTok): nat { if t.WWait? then 2 else if t.WSent? then 1 else 0 }

  function CTokWeight(t: CTok): nat { if t.CWait? then 3 else if t.CSent? then 2 else if t.CPassed? then 1 else 0 }

  function TbWeight(tb: Option<TocBlock>): nat { if tb.Some? then 2 else 0 }

  function ReaderWeight(r: Reader): nat { if r.Holding? then 1 else 0 }

  function OpenWeight(files: seq<Bytes>, disk: seq<nat>, open: Option<nat>, closing: bool): nat
  {
    if open.None? then 0
    else if closing then 1
    else if open.value < |files| && open.value < |disk| && disk[open.value] <= |files[open.value]| then
      3 + |files[open.value]| - disk[open.value]
    else 3
  }

  function Measure(s: State): nat
  {
    Sum(s.blocks, BlockWeight) + Sum(s.writers, PcWeight) + OpenWeight(s.files, s.disk, s.open, s.closing) +
    Sum(s.drain.wtok, WTokWeight) + Sum(s.drain.ctok, CTokWeight) + Sum(s.tbs, TbWeight) + |s.tocChan| +
    Sum(s.readers, ReaderWeight)
  }

  /** A request in hand is still to be written: into a page that is still to be had, or into the one just got. */
  function AskWeight(most: nat): Ask -> nat
  {
    (a: Ask) => match a case Rest => 0 case Sealed => 0 case Wants => most + 70 case Got => most + 20
  }

  function Work(c: Config, l: Limits, x: Bounded): nat { Measure(x.s) + Sum(x.book.ask, AskWeight(MaxAlloc(c, l))) }

  // ---------------------------------------------------------------- readers and memWriters

  lemma ReadCopyDown(s: State, r: nat)
    requires r < |s.readers| && s.readers[r].Holding?
    ensures Measure(ApplyReadCopy(s, r)) < Measure(s)
  {
    SumUpdate(s.readers, r, ApplyReadCopy(s, r).readers[r], ReaderWeight);
  }

  /** A change of one page and one writer. */
  lemma WriterDown(s: State, s': State, w: nat, b: nat)
    requires w < |s.writers| == |s'.writers| && b < |s.blocks| == |s'.blocks|
    requires s'.blocks == s.blocks[b := s'.blocks[b]] && s'.writers == s.writers[w := s'.writers[w]]
    requires s'.files == s.files && s'.disk == s.disk && s'.open == s.open && s'.closing == s.closing
    requires s'.drain == s.drain && s'.tbs == s.tbs && s'.tocChan == s.tocChan && s'.readers == s.readers
    requires BlockWeight(s'.blocks[b]) + PcWeight(s'.writers[w]) < BlockWeight(s.blocks[b]) + PcWeight(s.writers[w])
    ensures Measure(s') < Measure(s)
  {
    SumUpdate(s.blocks, b, s'.blocks[b], BlockWeight);
    SumUpdate(s.writers, w, s'.writers[w], PcWeight);
  }

  lemma CopyDown(s: State, w: nat)
    requires w < |s.writers| && s.writers[w].Extended? && WriterShape(s.writers, s.blocks, w)
    ensures Measure(ApplyCopy(s, w)) < Measure(s)
  {
    WriterDown(s, ApplyCopy(s, w), w, s.writers[w].b);
  }

  lemma PlaceDown(s: State, w: nat)
    requires w < |s.writers| && s.writers[w].Copied? && WriterShape(s.writers, s.blocks, w)
    ensures Measure(ApplyPlace(s, w)) < Measure(s)
  {
    WriterDown(s, ApplyPlace(s, w), w, s.writers[w].b);
  }

  lemma RecordDown(s: State, w: nat)
    requires w < |s.writers| && s.writers[w].Placed? && WriterShape(s.writers, s.blocks, w)
    ensures Measure(ApplyRecord(s, w)) < Measure(s)
  {
    WriterDown(s, ApplyRecord(s, w), w, s.writers[w].b);
  }

  lemma TruncateDown(s: State, w: nat)
    requires w < |s.writers| && s.writers[w].Placed? && WriterShape(s.writers, s.blocks, w)
    ensures Measure(ApplyTruncate(s, w)) < Measure(s)
  {
    WriterDown(s, ApplyTruncate(s, w), w, s.writers[w].b);
  }

  // ---------------------------------------------------------------- pages

  /** A change of one page's owner. */
  lemma OwnerDown(s: State, b: nat, o: Owner, clock: nat)
    requires b < |s.blocks| && BlockWeight(s.blocks[b].(owner := o)) < BlockWeight(s.blocks[b])
    ensures Measure(SetOwner(s, b, o).(clock := clock)) < Measure(s)
  {
    SumUpdate(s.blocks, b, s.blocks[b].(owner := o), BlockWeight);
  }

  lemma FreeDown(s: State, b: nat)
    requires b < |s.blocks| && s.blocks[b].owner.AtClearer?
    ensures Measure(s.(blocks := s.blocks[b := EMPTY_BLOCK])) < Measure(s)
  {
    SumUpdate(s.blocks, b, EMPTY_BLOCK, BlockWeight);
  }

  lemma WriteBlockDown(c: Config, s: State, b: nat)
    requires Inv(c, s) && WriteBlockGuard(c, s, b)
    ensures Measure(ApplyWriteBlock(s, b)) + 41 <= Measure(s)
  {
    SumUpdate(s.blocks, b, ApplyWriteBlock(s, b).blocks[b], BlockWeight);
    assert FileDisk(c, s.files, s.disk, s.open, s.closing, s.open.value);
  }

  lemma OpenUp(s: State, header: Bytes)
    requires s.open.None? && |header| == HEADER_SIZE && |s.disk| == |s.files|
    ensures Measure(ApplyOpenFile(s, header)) == Measure(s) + 35
  {
  }

  lemma DiskDown(c: Config, s: State, n: nat, closing: bool)
    requires Inv(c, s) && s.open.Some? && !s.closing
    requires closing || s.disk[s.open.value] < n <= |s.files[s.open.value]|
    ensures Measure(ApplyDisk(s, n, closing)) < Measure(s)
  {
    assert FileDisk(c, s.files, s.disk, s.open, s.closing, s.open.value);
  }

  lemma CloseDown(s: State)
    requires s.open.Some?
    ensures Measure(s.(open := None, closing := false)) < Measure(s)
  {
  }

  // ---------------------------------------------------------------- TOC blocks

  lemma ClearFields(s: State, b: nat)
    requires b < |s.blocks| && s.blocks[b].owner.AtClearer? && s.blocks[b].owner.j < |s.tbs|
    requires s.blocks[b].owner.pos < |s.blocks[b].recs|
    ensures var s', AtClearer(j, pos) := ApplyClearRec(s, b), s.blocks[b].owner;
            && s' == s.(blocks := s.blocks[b := s.blocks[b].(owner := AtClearer(j, pos + 1))], loc := s'.loc,
                        tbs := s'.tbs, place := s'.place)
            && |s'.tbs| == |s.tbs| && s'.tbs == s.tbs[j := s'.tbs[j]]
  {
  }

  lemma ClearRecDown(s: State, b: nat)
    requires b < |s.blocks| && s.blocks[b].owner.AtClearer? && s.blocks[b].owner.j < |s.tbs|
    requires s.blocks[b].owner.pos < |s.blocks[b].recs|
    ensures Measure(ApplyClearRec(s, b)) < Measure(s)
  {
    var s' := ApplyClearRec(s, b);
    var AtClearer(j, pos) := s.blocks[b].owner;
    ClearFields(s, b);
    SumUpdate(s.blocks, b, s.blocks[b].(owner := AtClearer(j, pos + 1)), BlockWeight);
    SumUpdate(s.tbs, j, s'.tbs[j], TbWeight);
  }

  lemma MapGrows<K, V>(m: map<K, V>, k: K, v: V)
    requires k !in m
    ensures |m[k := v]| == |m| + 1
  {
    assert m[k := v].Keys == m.Keys + {k} && |m[k := v].Keys| == |m[k := v]| && |m.Keys| == |m|;
  }

  lemma MapShrinks<K, V>(m: map<K, V>, k: K)
    requires k in m
    ensures |m - {k}| == |m| - 1
  {
    assert (m - {k}).Keys == m.Keys - {k} && |(m - {k}).Keys| == |m - {k}| && |m.Keys| == |m|;
  }

  lemma SendDown(c: Config, s: State, j: nat)
    requires Shape(c, s) && TbSendGuard(c, s, j)
    ensures Measure(ApplyTbSend(s, j)) < Measure(s)
  {
    SumUpdate(s.tbs, j, None, TbWeight);
    assert s.clock !in s.tocChan;
    MapGrows(s.tocChan, s.clock, TocMsg(j, s.tbs[j].value));
  }

  lemma ShorterChan(s: State, s': State)
    requires s' == s.(tocChan := s'.tocChan, tocs := s'.tocs, tocA := s'.tocA, tocB := s'.tocB, place := s'.place)
    requires |s'.tocChan| < |s.tocChan|
    ensures Measure(s') < Measure(s)
  {
  }

  lemma TakeDown(s: State, t: nat)
    requires t in s.tocChan && (s.tocA.Some? ==> s.tocA.value in s.tocs) && (s.tocB.Some? ==> s.tocB.value in s.tocs)
    ensures Measure(ApplyTocTake(s, t)) < Measure(s)
  {
    var s' := ApplyTocTake(s, t);
    MapShrinks(s.tocChan, t);
    assert s' == s.(tocChan := s.tocChan - {t}, tocs := s'.tocs, tocA := s'.tocA, tocB := s'.tocB, place := s'.place);
    ShorterChan(s, s');
  }

  // ---------------------------------------------------------------- tokens

  lemma WriterTokenDown(s: State, w: nat)
    requires w < |s.drain.wtok| && s.drain.wtok[w].WWait?
    ensures Measure(s.(drain := s.drain.(wtok := s.drain.wtok[w := WSent(s.clock)]), clock := s.clock + 1)) < Measure(s)
  {
    SumUpdate(s.drain.wtok, w, WSent(s.clock), WTokWeight);
  }

  lemma FileTokenDown(c: Config, s: State, w: nat)
    requires w < |s.drain.wtok| && s.drain.wtok[w].WSent? && |s.drain.ctok| == c.workers
    requires forall j :: 0 <= j < |s.drain.ctok| ==> s.drain.ctok[j].CWait?
    ensures Measure(ApplyFileToken(c, s, w)) < Measure(s)
  {
    SumUpdate(s.drain.wtok, w, WDone, WTokWeight);
    SumBelow(ApplyFileToken(c, s, w).drain.ctok, s.drain.ctok, CTokWeight);
  }

  lemma ClearTokenDown(s: State, j: nat)
    requires j < |s.drain.ctok| && s.drain.ctok[j].CSent?
    ensures var d := s.drain.(ctok := s.drain.ctok[j := CPassed(s.clock)]);
            Measure(s.(drain := d, clock := s.clock + 1)) < Measure(s)
  {
    SumUpdate(s.drain.ctok, j, CPassed(s.clock), CTokWeight);
  }

  lemma TocTokenDown(c: Config, s: State, j: nat)
    requires j < |s.drain.ctok| && s.drain.ctok[j].CPassed? && s.drain.cleft != 1
    ensures Measure(ApplyTocToken(c, s, j)) < Measure(s)
  {
    SumUpdate(s.drain.ctok, j, CDone, CTokWeight);
  }

  // ---------------------------------------------------------------- heads of channels

  /** A message in a channel: a page, or the token of one worker. */
  datatype Msg = Page(b: nat) | Token(i: nat)

  ghost predicate InFileQueue(s: State, m: Msg, t: nat)
  {
    match m
    case Page(b) => b < |s.blocks| && s.blocks[b].owner.InFileChan? && s.blocks[b].owner.t == t
    case Token(w) => w < |s.drain.wtok| && s.drain.wtok[w].WSent? && s.drain.wtok[w].t == t
  }

  lemma {:induction false} FileHead(s: State, m: Msg, t: nat) returns (m': Msg, t': nat)
    requires InFileQueue(s, m, t)
    ensures InFileQueue(s, m', t') && HeadOfFileChan(s, t')
    decreases t
  {
    if HeadOfFileChan(s, t) {
      m', t' := m, t;
    } else if b :| 0 <= b < |s.blocks| && s.blocks[b].owner.InFileChan? && s.blocks[b].owner.t < t {
      m', t' := FileHead(s, Page(b), s.blocks[b].owner.t);
    } else {
      var w :| 0 <= w < |s.drain.wtok| && s.drain.wtok[w].WSent? && s.drain.wtok[w].t < t;
      m', t' := FileHead(s, Token(w), s.drain.wtok[w].t);
    }
  }

  ghost predicate InClearQueue(s: State, j: nat, m: Msg, t: nat)
    requires j < |s.drain.ctok|
  {
    match m
    case Page(b) =>
      b < |s.blocks| && s.blocks[b].owner.InClearChan? && s.blocks[b].owner.j == j && s.blocks[b].owner.t == t
    case Token(i) => i == j && s.drain.ctok[j].CSent? && s.drain.ctok[j].t == t
  }

  lemma {:induction false} ClearHead(s: State, j: nat, m: Msg, t: nat) returns (m': Msg, t': nat)
    requires j < |s.drain.ctok| && InClearQueue(s, j, m, t)
    ensures InClearQueue(s, j, m', t') && HeadOfClearChan(s, j, t')
    decreases t
  {
    if HeadOfClearChan(s, j, t) {
      m', t' := m, t;
    } else if s.drain.ctok[j].CSent? && s.drain.ctok[j].t < t {
      m', t' := ClearHead(s, j, Token(j), s.drain.ctok[j].t);
    } else {
      var b :| 0 <= b < |s.blocks| && s.blocks[b].owner.InClearChan? && s.blocks[b].owner.j == j &&
               s.blocks[b].owner.t < t;
      m', t' := ClearHead(s, j, Page(b), s.blocks[b].owner.t);
    }
  }

  ghost predicate InTocQueue(s: State, m: Msg, t: nat)
  {
    match m
    case Page(u) => u in s.tocChan && u == t
    case Token(j) => j < |s.drain.ctok| && s.drain.ctok[j].CPassed? && s.drain.ctok[j].t == t
  }

  lemma {:induction false} TocHead(s: State, m: Msg, t: nat) returns (m': Msg, t': nat)
    requires InTocQueue(s, m, t)
    ensures InTocQueue(s, m', t') && HeadOfTocChan(s, t')
    decreases t
  {
    if HeadOfTocChan(s, t) {
      m', t' := m, t;
    } else if u :| u in s.tocChan && u < t {
      m', t' := TocHead(s, Page(u), u);
    } else {
      var j :| 0 <= j < |s.drain.ctok| && s.drain.ctok[j].CPassed? && s.drain.ctok[j].t < t;
      m', t' := TocHead(s, Token(j), s.drain.ctok[j].t);
    }
  }

  // ---------------------------------------------------------------- the next step

  /** A step that the limits allow now and that brings the end nearer. */
  ghost predicate Nearer(c: Config, l: Limits, x: Bounded, a: Step)
    requires Shape(c, x.s)
  {
    && Enabled(c, x.s, a) && Within(c, l, x, a)
    && !a.StartDrain? && !a.Restart? && (a.TocToken? ==> x.s.drain.cleft != 1)
    && Work(c, l, Bounded(Pipeline.Apply(c, x.s, a), NextBook(c, x, a))) < Work(c, l, x)
  }

  ghost predicate OpensFor(c: Config, s: State, b: nat)
    requires Shape(c, s)
  {
    s.open.None? && HeadPage(s, b)
  }

  ghost predicate Ends(c: Config, s: State, j: nat)
    requires Shape(c, s)
  {
    TocTokenGuard(c, s, j) && s.drain.cleft == 1
  }

  /** A step brings the end nearer, or does so with the page written next where a file must be opened first, or is the
      last. */
  ghost predicate CanGoOn(c: Config, l: Limits, x: Bounded)
    requires Shape(c, x.s)
  {
    (exists a :: Nearer(c, l, x, a)) || (exists b :: OpensFor(c, x.s, b)) || (exists j :: Ends(c, x.s, j))
  }

  predicate NoReaders(s: State) { forall r :: 0 <= r < |s.readers| ==> !s.readers[r].Holding? }

  lemma ReaderGoesOn(c: Config, l: Limits, x: Bounded, r: nat)
    requires Shape(c, x.s) && r < |x.s.readers| && x.s.readers[r].Holding?
    ensures CanGoOn(c, l, x)
  {
    ReadCopyDown(x.s, r);
    assert Nearer(c, l, x, ReadCopy(r));
  }

  // ---------------------------------------------------------------- tocWriter

  lemma TocTakeGoesOn(c: Config, l: Limits, x: Bounded, t: nat)
    requires Shape(c, x.s) && TocTakeGuard(c, x.s, t)
    ensures CanGoOn(c, l, x)
  {
    TakeDown(x.s, t);
    assert Nearer(c, l, x, TocTake(t));
  }

  lemma TocTokenGoesOn(c: Config, l: Limits, x: Bounded, j: nat)
    requires Shape(c, x.s) && TocTokenGuard(c, x.s, j)
    ensures CanGoOn(c, l, x)
  {
    if x.s.drain.cleft == 1 {
      assert Ends(c, x.s, j);
    } else {
      TocTokenDown(c, x.s, j);
      assert Nearer(c, l, x, TocToken(j));
    }
  }

  /** pendingTOCBlockChan is empty. */
  predicate TocEmpty(s: State)
  {
    s.tocChan == map[] && forall j :: 0 <= j < |s.drain.ctok| ==> !s.drain.ctok[j].CPassed?
  }

  lemma TocQueueGoesOn(c: Config, l: Limits, x: Bounded)
    requires Shape(c, x.s) && !TocEmpty(x.s)
    ensures CanGoOn(c, l, x)
  {
    var m, t;
    if u :| u in x.s.tocChan {
      m, t := TocHead(x.s, Page(u), u);
    } else {
      var j :| 0 <= j < |x.s.drain.ctok| && x.s.drain.ctok[j].CPassed?;
      m, t := TocHead(x.s, Token(j), x.s.drain.ctok[j].t);
    }
    if m.Page? { TocTakeGoesOn(c, l, x, m.b); } else { TocTokenGoesOn(c, l, x, m.i); }
  }

  lemma TocHasRoom(c: Config, s: State)
    requires Sizes(c, s) && TocEmpty(s)
    ensures RoomToc(c, s)
    ensures (exists j :: 0 <= j < |s.tbs| && s.tbs[j].None?) ==> TocBlockFree(c, s)
  {
    SumZero(s.drain.ctok, CPassed1);
    SumOfOnes(s.tbs, Tb1);
    if j :| 0 <= j < |s.tbs| && s.tbs[j].None? { assert Tb1(s.tbs[j]) == 0; }
  }

  // ---------------------------------------------------------------- memClearers

  lemma SendGoesOn(c: Config, l: Limits, x: Bounded, j: nat)
    requires Shape(c, x.s) && TbSendGuard(c, x.s, j) && Within(c, l, x, TbSend(j))
    ensures CanGoOn(c, l, x)
  {
    SendDown(c, x.s, j);
    assert Nearer(c, l, x, TbSend(j));
  }

  lemma RecordGoesOn(c: Config, l: Limits, x: Bounded, b: nat)
    requires Shape(c, x.s) && ClearRecGuard(c, x.s, b) && Within(c, l, x, ClearRec(b))
    ensures CanGoOn(c, l, x)
  {
    ClearRecDown(x.s, b);
    assert Nearer(c, l, x, ClearRec(b));
  }

  lemma FreeGoesOn(c: Config, l: Limits, x: Bounded, b: nat)
    requires Shape(c, x.s) && ClearDoneGuard(c, x.s, b)
    ensures CanGoOn(c, l, x)
  {
    FreeDown(x.s, b);
    assert Nearer(c, l, x, ClearDone(b));
  }

  lemma ClearerGoesOn(c: Config, l: Limits, x: Bounded, b: nat)
    requires Shape(c, x.s) && NoReaders(x.s) && TocEmpty(x.s) && b < |x.s.blocks| && x.s.blocks[b].owner.AtClearer?
    ensures CanGoOn(c, l, x)
  {
    var s := x.s;
    assert BlockShape(c, s.blocks, s.clock, s.open, |s.files|, b);
    var AtClearer(j, pos) := s.blocks[b].owner;
    TocHasRoom(c, s);
    if pos == |s.blocks[b].recs| {
      FreeGoesOn(c, l, x, b);
    } else if s.tbs[j].Some? && (s.tbs[j].value.file != s.blocks[b].file || TbFull(l, s.tbs[j].value)) {
      assert HasPage(s, j, b) && AtRecord(s, j, b);
      SendGoesOn(c, l, x, j);
    } else {
      RecordGoesOn(c, l, x, b);
    }
  }

  lemma TakeGoesOn(c: Config, l: Limits, x: Bounded, j: nat, b: nat)
    requires Shape(c, x.s) && ClearTakeGuard(c, x.s, j, b)
    ensures CanGoOn(c, l, x)
  {
    OwnerDown(x.s, b, AtClearer(j, 0), x.s.clock);
    assert Nearer(c, l, x, ClearTake(j, b));
  }

  lemma PassGoesOn(c: Config, l: Limits, x: Bounded, j: nat)
    requires Shape(c, x.s) && ClearTokenGuard(c, x.s, j) && RoomToc(c, x.s)
    ensures CanGoOn(c, l, x)
  {
    ClearTokenDown(x.s, j);
    assert Nearer(c, l, x, ClearToken(j));
  }

  predicate NoneAtClearer(s: State) { forall b :: 0 <= b < |s.blocks| ==> !s.blocks[b].owner.AtClearer? }

  lemma ClearQueueGoesOn(c: Config, l: Limits, x: Bounded, j: nat, m: Msg, t: nat)
    requires Shape(c, x.s) && TocEmpty(x.s) && NoneAtClearer(x.s) && j < c.workers && InClearQueue(x.s, j, m, t)
    ensures CanGoOn(c, l, x)
  {
    TocHasRoom(c, x.s);
    var m', t' := ClearHead(x.s, j, m, t);
    if m'.Page? {
      TakeGoesOn(c, l, x, j, m'.b);
    } else if x.s.tbs[j].Some? {
      SendGoesOn(c, l, x, j);
    } else {
      PassGoesOn(c, l, x, j);
    }
  }

  /** Nothing is with the memClearers or in their channels. */
  predicate ClearEmpty(s: State)
  {
    && (forall b :: 0 <= b < |s.blocks| ==> !Released(s.blocks[b].owner))
    && forall j :: 0 <= j < |s.drain.ctok| ==> !s.drain.ctok[j].CSent?
  }

  lemma ClearersGoOn(c: Config, l: Limits, x: Bounded)
    requires Shape(c, x.s) && NoReaders(x.s) && TocEmpty(x.s) && !ClearEmpty(x.s)
    ensures CanGoOn(c, l, x)
  {
    var s := x.s;
    if b: nat :| b < |s.blocks| && s.blocks[b].owner.AtClearer? {
      ClearerGoesOn(c, l, x, b);
    } else if b: nat :| b < |s.blocks| && s.blocks[b].owner.InClearChan? {
      assert BlockShape(c, s.blocks, s.clock, s.open, |s.files|, b);
      ClearQueueGoesOn(c, l, x, s.blocks[b].owner.j, Page(b), s.blocks[b].owner.t);
    } else {
      var j: nat :| j < |s.drain.ctok| && s.drain.ctok[j].CSent?;
      ClearQueueGoesOn(c, l, x, j, Token(j), s.drain.ctok[j].t);
    }
  }

  lemma ClearHasRoom(c: Config, s: State, j: nat)
    requires Sizes(c, s) && ClearEmpty(s)
    ensures RoomClear(c, s, j)
  {
    SumZero(s.blocks, InClear1(j));
  }

  // ---------------------------------------------------------------- fileWriter

  lemma BufGoesOn(c: Config, l: Limits, x: Bounded)
    requires Inv(c, x.s) && WriteBufGuard(c, x.s)
    ensures CanGoOn(c, l, x)
  {
    DiskDown(c, x.s, x.s.disk[x.s.open.value] + c.interval, false);
    assert Nearer(c, l, x, WriteBuf);
  }

  lemma TailGoesOn(c: Config, l: Limits, x: Bounded)
    requires Inv(c, x.s) && CloseTailGuard(c, x.s) && Within(c, l, x, CloseTail)
    ensures CanGoOn(c, l, x)
  {
    DiskDown(c, x.s, |x.s.files[x.s.open.value]|, true);
    assert Nearer(c, l, x, CloseTail);
  }

  lemma ReleaseGoesOn(c: Config, l: Limits, x: Bounded, b: nat)
    requires Shape(c, x.s) && ClearEmpty(x.s) && x.book.turn < c.workers && ReleaseGuard(c, x.s, b, x.book.turn)
    ensures CanGoOn(c, l, x)
  {
    var j := x.book.turn;
    ClearHasRoom(c, x.s, j);
    OwnerDown(x.s, b, InClearChan(j, x.s.clock), x.s.clock + 1);
    assert Nearer(c, l, x, Release(b, j));
  }

  lemma CloseGoesOn(c: Config, l: Limits, x: Bounded)
    requires Shape(c, x.s) && CloseFileGuard(c, x.s)
    ensures CanGoOn(c, l, x)
  {
    CloseDown(x.s);
    assert Nearer(c, l, x, CloseFile);
  }

  /** Nothing in the open file moves of itself: no full buffer is left to write and no page to release. */
  predicate Settled(c: Config, s: State)
    requires Sizes(c, s)
  {
    && (s.open.Some? ==> !s.closing && |s.files[s.open.value]| < s.disk[s.open.value] + c.interval)
    && forall b :: 0 <= b < |s.blocks| && s.blocks[b].owner.HeldByFile? ==> !Releasable(c, s.disk, s.blocks[b])
  }

  lemma FileGoesOn(c: Config, l: Limits, x: Bounded)
    requires Inv(c, x.s) && ClearEmpty(x.s) && x.book.turn < c.workers && !Settled(c, x.s)
    ensures CanGoOn(c, l, x)
  {
    var s := x.s;
    if b: nat :| b < |s.blocks| && s.blocks[b].owner.HeldByFile? && Releasable(c, s.disk, s.blocks[b]) {
      ReleaseGoesOn(c, l, x, b);
    } else if WriteBufGuard(c, s) {
      BufGoesOn(c, l, x);
    } else {
      ClosedHoldsNone(c, s);
      CloseGoesOn(c, l, x);
    }
  }

  /** When closeWriting has written the rest every page can be released. */
  lemma ClosedHoldsNone(c: Config, s: State)
    requires Inv(c, s) && s.open.Some? && s.closing
    requires forall b :: 0 <= b < |s.blocks| && s.blocks[b].owner.HeldByFile? ==> !Releasable(c, s.disk, s.blocks[b])
    ensures NoneHeld(s)
  {
    assert FileDisk(c, s.files, s.disk, s.open, s.closing, s.open.value);
    forall b | 0 <= b < |s.blocks| ensures !s.blocks[b].owner.HeldByFile? {
      assert BlockShape(c, s.blocks, s.clock, s.open, |s.files|, b) && BlockInFile(s.blocks, s.files, b);
    }
  }

  lemma WriteGoesOn(c: Config, l: Limits, x: Bounded, b: nat)
    requires Inv(c, x.s) && WriteBlockGuard(c, x.s, b) && Within(c, l, x, WriteBlock(b))
    ensures CanGoOn(c, l, x)
  {
    WriteBlockDown(c, x.s, b);
    assert Nearer(c, l, x, WriteBlock(b));
  }

  lemma FileTokenGoesOn(c: Config, l: Limits, x: Bounded, w: nat)
    requires Shape(c, x.s) && FileTokenGuard(c, x.s, w) && ClearEmpty(x.s)
    requires forall j :: 0 <= j < |x.s.drain.ctok| ==> x.s.drain.ctok[j].CWait?
    ensures CanGoOn(c, l, x)
  {
    forall j: nat | j < c.workers ensures RoomClear(c, x.s, j) { ClearHasRoom(c, x.s, j); }
    FileTokenDown(c, x.s, w);
    assert Nearer(c, l, x, FileToken(w));
  }

  lemma OneIsLeast(c: Config)
    requires c.workers >= 1
    ensures c.interval <= c.workers * c.interval
  {
    MulMono(1, c.workers, c.interval);
  }

  lemma PageGoesOn(c: Config, l: Limits, x: Bounded, b: nat)
    requires Inv(c, x.s) && Settled(c, x.s) && HeadPage(x.s, b)
    ensures CanGoOn(c, l, x)
  {
    if x.s.open.None? {
      assert OpensFor(c, x.s, b);
    } else if FitsFile(l, x, b) {
      OneIsLeast(c);
      WriteGoesOn(c, l, x, b);
    } else {
      TailGoesOn(c, l, x);
    }
  }

  /** fileMemBlockChan is empty. */
  predicate FileEmpty(s: State)
  {
    && (forall b :: 0 <= b < |s.blocks| ==> !s.blocks[b].owner.InFileChan?)
    && forall w :: 0 <= w < |s.drain.wtok| ==> !s.drain.wtok[w].WSent?
  }

  lemma FileHasRoom(c: Config, s: State)
    requires Sizes(c, s) && FileEmpty(s)
    ensures RoomFile(c, s)
  {
    SumZero(s.blocks, InFile1);
    SumZero(s.drain.wtok, WSent1);
  }

  lemma FileQueueGoesOn(c: Config, l: Limits, x: Bounded)
    requires Inv(c, x.s) && StillPhase1(x.s.drain) && ClearEmpty(x.s) && Settled(c, x.s) && !FileEmpty(x.s)
    ensures CanGoOn(c, l, x)
  {
    var s := x.s;
    var m, t;
    if b: nat :| b < |s.blocks| && s.blocks[b].owner.InFileChan? {
      m, t := FileHead(s, Page(b), s.blocks[b].owner.t);
    } else {
      var w: nat :| w < |s.drain.wtok| && s.drain.wtok[w].WSent?;
      m, t := FileHead(s, Token(w), s.drain.wtok[w].t);
    }
    if m.Page? {
      PageGoesOn(c, l, x, m.b);
    } else if s.drain.wleft == 1 && s.open.Some? {
      assert LastAtHead(s, m.i);
      TailGoesOn(c, l, x);
    } else {
      PhaseOf(c, s);
      FileTokenGoesOn(c, l, x, m.i);
    }
  }

  // ---------------------------------------------------------------- memWriters

  lemma CopyGoesOn(c: Config, l: Limits, x: Bounded, w: nat)
    requires Shape(c, x.s) && w < c.workers && (x.s.writers[w].Extended? || x.s.writers[w].Copied?)
    ensures CanGoOn(c, l, x)
  {
    assert WriterShape(x.s.writers, x.s.blocks, w);
    if x.s.writers[w].Extended? {
      CopyDown(x.s, w);
      assert Nearer(c, l, x, Copy(w));
    } else {
      PlaceDown(x.s, w);
      assert Nearer(c, l, x, PlaceInMap(w));
    }
  }

  lemma PlacedGoesOn(c: Config, l: Limits, x: Bounded, w: nat)
    requires Shape(c, x.s) && (RecordGuard(c, x.s, w) || TruncateGuard(c, x.s, w))
    ensures CanGoOn(c, l, x)
  {
    assert WriterShape(x.s.writers, x.s.blocks, w);
    if RecordGuard(c, x.s, w) {
      RecordDown(x.s, w);
      assert Nearer(c, l, x, Record(w));
    } else {
      TruncateDown(x.s, w);
      assert Nearer(c, l, x, Truncate(w));
    }
  }

  lemma WriterGoesOn(c: Config, l: Limits, x: Bounded, w: nat)
    requires Shape(c, x.s) && NoReaders(x.s) && w < c.workers && !x.s.writers[w].Idle?
    ensures CanGoOn(c, l, x)
  {
    if x.s.writers[w].Placed? { PlacedGoesOn(c, l, x, w); } else { CopyGoesOn(c, l, x, w); }
  }

  lemma SealGoesOn(c: Config, l: Limits, x: Bounded, w: nat, b: nat)
    requires Shape(c, x.s) && BookOk(c, x) && SealGuard(c, x.s, w, b) && Within(c, l, x, Seal(w, b))
    ensures CanGoOn(c, l, x)
  {
    OwnerDown(x.s, b, InFileChan(w, x.s.clock), x.s.clock + 1);
    if x.book.ask[w].Rest? { SumUpdate(x.book.ask, w, Sealed, AskWeight(MaxAlloc(c, l))); }
    assert Nearer(c, l, x, Seal(w, b));
  }

  lemma WriterTokenGoesOn(c: Config, l: Limits, x: Bounded, w: nat)
    requires Shape(c, x.s) && BookOk(c, x) && WriterTokenGuard(c, x.s, w) && Within(c, l, x, WriterToken(w))
    ensures CanGoOn(c, l, x)
  {
    WriterTokenDown(x.s, w);
    SumUpdate(x.book.ask, w, Rest, AskWeight(MaxAlloc(c, l)));
    assert Nearer(c, l, x, WriterToken(w));
  }

  lemma TakeFreeGoesOn(c: Config, l: Limits, x: Bounded, w: nat, b: nat)
    requires Shape(c, x.s) && BookOk(c, x) && TakeFreeGuard(c, x.s, w, b) && InHand(x, w, Wants)
    ensures CanGoOn(c, l, x)
  {
    assert BlockShape(c, x.s.blocks, x.s.clock, x.s.open, |x.s.files|, b);
    SumUpdate(x.s.blocks, b, x.s.blocks[b].(owner := AtWriter(w)), BlockWeight);
    SumUpdate(x.book.ask, w, Got, AskWeight(MaxAlloc(c, l)));
    assert Nearer(c, l, x, TakeFree(w, b));
  }

  /** The request in hand is written into the page just got, if only by a value of no bytes. */
  lemma GotGoesOn(c: Config, l: Limits, x: Bounded, w: nat, b: nat)
    requires Shape(c, x.s) && BookOk(c, x) && Sane(c, l) && NoReaders(x.s) && w < c.workers && b < |x.s.blocks|
    requires x.s.blocks[b].owner == AtWriter(w) && x.s.blocks[b].recs == [] && x.s.blocks[b].values == []
    requires x.s.writers[w].Idle? && MayWrite(x.s.mode, x.s.drain, w) && InHand(x, w, Got)
    ensures CanGoOn(c, l, x)
  {
    var req, junk := Req(Key(0, 0), 0, []), Zeros(Alloc(c, 0));
    var s' := ApplyExtend(x.s, w, b, req, junk);
    SumUpdate(x.s.blocks, b, s'.blocks[b], BlockWeight);
    SumUpdate(x.s.writers, w, s'.writers[w], PcWeight);
    SumUpdate(x.book.ask, w, Rest, AskWeight(MaxAlloc(c, l)));
    assert Nearer(c, l, x, Extend(w, b, req, junk));
  }

  // ---------------------------------------------------------------- a free page can be had

  /** Nothing is on its way but pages with memWriters and pages that the open file holds back. */
  ghost predicate AllStill(c: Config, s: State)
    requires Sizes(c, s)
  {
    ClearEmpty(s) && FileEmpty(s) && Settled(c, s)
  }

  /** Of the pages held back only one can be as long as a buffer: they all end in the current one. */
  lemma OneLongHeld(c: Config, x: Bounded, a: nat, b: nat)
    requires Inv(c, x.s) && HeldApart(x.s.blocks) && Settled(c, x.s) && a < |x.s.blocks| && b < |x.s.blocks|
    requires x.s.blocks[a].owner.HeldByFile? && x.s.blocks[b].owner.HeldByFile?
    requires !Short(c, x.s.blocks[a]) && !Short(c, x.s.blocks[b])
    ensures a == b
  {
    var s := x.s;
    assert HeldPair(s.blocks, a, b);
    assert BlockShape(c, s.blocks, s.clock, s.open, |s.files|, a) && BlockInFile(s.blocks, s.files, a);
    assert BlockShape(c, s.blocks, s.clock, s.open, |s.files|, b) && BlockInFile(s.blocks, s.files, b);
    assert FileDisk(c, s.files, s.disk, s.open, s.closing, s.open.value);
  }

  /** Where a page is, as a hole: with a memWriter, held back and short, by the memWriter that sealed it, or held
      back and long. */
  function Hole(c: Config, x: Bounded, b: nat): nat
  {
    if b >= |x.s.blocks| || b >= |x.book.filler| then 2 * c.workers + 1
    else if x.s.blocks[b].owner.AtWriter? then x.s.blocks[b].owner.w
    else if Short(c, x.s.blocks[b]) then c.workers + x.book.filler[b]
    else 2 * c.workers
  }

  /** The holes that are not those of memWriter w. */
  function Holes(c: Config, w: nat): set<nat>
  {
    Range(2 * c.workers + 1) - {w, c.workers + w}
  }

  lemma HolesSize(c: Config, w: nat)
    requires w < c.workers
    ensures |Holes(c, w)| == 2 * c.workers - 1
  {
    assert Holes(c, w) + {w, c.workers + w} == Range(2 * c.workers + 1);
  }

  /** While memWriter w has neither page nor token sent, no page is in its holes. */
  lemma HoleIsOther(c: Config, l: Limits, x: Bounded, w: nat, b: nat)
    requires Inv(c, x.s) && Bounds(c, l, x) && AllStill(c, x.s) && b < |x.s.blocks| && !x.s.blocks[b].owner.Free?
    requires w < c.workers && InHand(x, w, Wants) && x.s.drain.wtok[w].WWait? && !WriterHas(x.s, w)
    ensures Hole(c, x, b) in Holes(c, w)
  {
    assert BlockShape(c, x.s.blocks, x.s.clock, x.s.open, |x.s.files|, b);
    assert ShortOk(c, x, b);
  }

  lemma HolesDiffer(c: Config, l: Limits, x: Bounded, a: nat, b: nat)
    requires Inv(c, x.s) && Bounds(c, l, x) && AllStill(c, x.s) && a < |x.s.blocks| && b < |x.s.blocks|
    requires !x.s.blocks[a].owner.Free? && !x.s.blocks[b].owner.Free? && Hole(c, x, a) == Hole(c, x, b)
    ensures a == b
  {
    var s := x.s;
    assert BlockShape(c, s.blocks, s.clock, s.open, |s.files|, a)
           && BlockShape(c, s.blocks, s.clock, s.open, |s.files|, b);
    assert ShortOk(c, x, a) && ShortOk(c, x, b);
    assert OwnPage(s.blocks, a, b) && ShortPair(c, x, a, b);
    if s.blocks[a].owner.HeldByFile? && s.blocks[b].owner.HeldByFile? &&
       !Short(c, s.blocks[a]) && !Short(c, s.blocks[b])
    {
      OneLongHeld(c, x, a, b);
    }
  }

  /** With two pages per worker, a memWriter that waits for one finds one free when nothing else moves. */
  lemma PageIsFree(c: Config, l: Limits, x: Bounded, w: nat) returns (b: nat)
    requires Inv(c, x.s) && Bounds(c, l, x) && AllStill(c, x.s) && |x.s.blocks| >= 2 * c.workers
    requires w < c.workers && InHand(x, w, Wants) && x.s.drain.wtok[w].WWait? && !WriterHas(x.s, w)
    ensures b < |x.s.blocks| && x.s.blocks[b].owner.Free?
  {
    if b' :| 0 <= b' < |x.s.blocks| && x.s.blocks[b'].owner.Free? {
      b := b';
    } else {
      NoneFreeIsTooMany(c, l, x, w);
      assert false;
    }
  }

  lemma NoneFreeIsTooMany(c: Config, l: Limits, x: Bounded, w: nat)
    requires Inv(c, x.s) && Bounds(c, l, x) && AllStill(c, x.s)
    requires w < c.workers && InHand(x, w, Wants) && x.s.drain.wtok[w].WWait? && !WriterHas(x.s, w)
    requires forall b :: 0 <= b < |x.s.blocks| ==> !x.s.blocks[b].owner.Free?
    ensures |x.s.blocks| < 2 * c.workers
  {
    var n := |x.s.blocks|;
    forall i: nat | i < n ensures Hole(c, x, i) in Holes(c, w) { HoleIsOther(c, l, x, w, i); }
    forall i: nat, j: nat | i < j < n ensures Hole(c, x, i) != Hole(c, x, j) {
      if Hole(c, x, i) == Hole(c, x, j) { HolesDiffer(c, l, x, i, j); }
    }
    HolesSize(c, w);
    Pigeonhole(n, i => Hole(c, x, i), Holes(c, w));
  }

  // ---------------------------------------------------------------- no deadlock

  lemma TokenGoesOn(c: Config, l: Limits, x: Bounded, w: nat)
    requires Shape(c, x.s) && BookOk(c, x) && RoomFile(c, x.s) && x.s.mode.Draining? && w < c.workers
    requires x.s.drain.wtok[w].WWait? && x.s.writers[w].Idle? && InHand(x, w, Rest)
    ensures CanGoOn(c, l, x)
  {
    if b :| 0 <= b < |x.s.blocks| && x.s.blocks[b].owner == AtWriter(w) && x.s.blocks[b].recs != [] {
      SealGoesOn(c, l, x, w, b);
    } else {
      WriterTokenGoesOn(c, l, x, w);
    }
  }

  lemma SealedGoesOn(c: Config, l: Limits, x: Bounded, w: nat)
    requires Shape(c, x.s) && Bounds(c, l, x) && RoomFile(c, x.s) && x.s.mode.Draining? && w < c.workers
    requires x.s.drain.wtok[w].WWait? && InHand(x, w, Sealed)
    ensures CanGoOn(c, l, x)
  {
    assert AskOk(c, l, x, w);
    WriterTokenGoesOn(c, l, x, w);
  }

  lemma WantsGoesOn(c: Config, l: Limits, x: Bounded, w: nat)
    requires Inv(c, x.s) && Bounds(c, l, x) && AllStill(c, x.s) && |x.s.blocks| >= 2 * c.workers
    requires x.s.mode.Draining? && w < c.workers && x.s.drain.wtok[w].WWait? && InHand(x, w, Wants)
    ensures CanGoOn(c, l, x)
  {
    assert AskOk(c, l, x, w);
    if b: nat :| b < |x.s.blocks| && x.s.blocks[b].owner == AtWriter(w) {
      FileHasRoom(c, x.s);
      SealGoesOn(c, l, x, w, b);
    } else {
      var b := PageIsFree(c, l, x, w);
      TakeFreeGoesOn(c, l, x, w, b);
    }
  }

  lemma AskGoesOn(c: Config, l: Limits, x: Bounded, w: nat)
    requires Inv(c, x.s) && Bounds(c, l, x) && Sane(c, l) && AllStill(c, x.s) && |x.s.blocks| >= 2 * c.workers
    requires NoReaders(x.s) && x.s.mode.Draining? && w < c.workers && x.s.drain.wtok[w].WWait? && x.s.writers[w].Idle?
    ensures CanGoOn(c, l, x)
  {
    FileHasRoom(c, x.s);
    assert AskOk(c, l, x, w);
    match x.book.ask[w] {
      case Rest => TokenGoesOn(c, l, x, w);
      case Sealed => SealedGoesOn(c, l, x, w);
      case Wants => WantsGoesOn(c, l, x, w);
      case Got =>
        var b :| 0 <= b < |x.s.blocks| && x.s.blocks[b].owner == AtWriter(w) && x.s.blocks[b].recs == [] &&
                 x.s.blocks[b].values == [];
        GotGoesOn(c, l, x, w, b);
    }
  }

  /** With nothing left with memClearers and tocWriter, the memWriters still have tokens to send. */
  lemma StillPhaseOne(c: Config, s: State)
    requires Core(c, s) && Counting(s.drain) && TocEmpty(s) && ClearEmpty(s)
    ensures StillPhase1(s.drain)
  {
    CLeftBounds(s.drain.ctok);
    PhaseOf(c, s);
  }

  lemma WriterWaits(c: Config, s: State) returns (w: nat)
    requires Core(c, s) && Counting(s.drain) && StillPhase1(s.drain) && FileEmpty(s)
    ensures w < c.workers && s.drain.wtok[w].WWait?
  {
    assert Phase1(s.drain);
    WLeftBounds(s.drain.wtok);
    w :| w < c.workers && !s.drain.wtok[w].WDone?;
  }

  lemma UpstreamGoesOn(c: Config, l: Limits, x: Bounded)
    requires Inv(c, x.s) && Fenced(x.s) && Bounds(c, l, x) && Sane(c, l) && |x.s.blocks| >= 2 * c.workers
    requires NoReaders(x.s) && x.s.mode.Draining? && TocEmpty(x.s) && ClearEmpty(x.s) && Settled(c, x.s)
    ensures CanGoOn(c, l, x)
  {
    StillPhaseOne(c, x.s);
    if !FileEmpty(x.s) {
      FileQueueGoesOn(c, l, x);
    } else if v: nat :| v < c.workers && !x.s.writers[v].Idle? {
      WriterGoesOn(c, l, x, v);
    } else {
      var w := WriterWaits(c, x.s);
      AskGoesOn(c, l, x, w);
    }
  }

  /** No deadlock: while a flush or shutdown is in progress some step that the limits allow brings its end nearer. */
  lemma NeverStuck(c: Config, l: Limits, x: Bounded)
    requires Inv(c, x.s) && Fenced(x.s) && Bounds(c, l, x) && Sane(c, l) && |x.s.blocks| >= 2 * c.workers
    requires x.s.mode.Draining?
    ensures CanGoOn(c, l, x)
  {
    if r: nat :| r < |x.s.readers| && x.s.readers[r].Holding? {
      ReaderGoesOn(c, l, x, r);
    } else if !TocEmpty(x.s) {
      TocQueueGoesOn(c, l, x);
    } else if !ClearEmpty(x.s) {
      ClearersGoOn(c, l, x);
    } else if !Settled(c, x.s) {
      FileGoesOn(c, l, x);
    } else {
      UpstreamGoesOn(c, l, x);
    }
  }

  // ---------------------------------------------------------------- completion

  /** When the last token has arrived. */
  ghost predicate Completed(s: State, t: State)
  {
    s.mode.Draining? && if s.mode.shutdown then t.mode.Stopped? else t.mode.Running? && s.mode.mark == t.flushed
  }

  ghost predicate Fine(c: Config, l: Limits, x: Bounded)
  {
    Inv(c, x.s) && Fenced(x.s) && Bounds(c, l, x) && |x.s.blocks| >= 2 * c.workers
  }

  /** These moves complete the drain or bring its end nearer. */
  ghost predicate Forward(c: Config, l: Limits, x: Bounded, moves: seq<Move>, y: Bounded)
  {
    && Path(NextMove(c, l), x, moves, y) && Fine(c, l, y)
    && (Completed(x.s, y.s) || (y.s.mode == x.s.mode && Work(c, l, y) < Work(c, l, x)))
  }

  lemma PagesStay(c: Config, l: Limits, x: Bounded, a: Step)
    requires Shape(c, x.s) && Enabled(c, x.s, a) && !a.Restart?
    requires Bounds(c, l, x) && Bounds(c, l, Bounded(Pipeline.Apply(c, x.s, a), NextBook(c, x, a)))
    ensures |Pipeline.Apply(c, x.s, a).blocks| == |x.s.blocks|
  {
    assert |NextBook(c, x, a).filler| == |x.book.filler|;
  }

  lemma OneMove(c: Config, l: Limits, x: Bounded, a: Step)
    requires Fine(c, l, x) && Generous(c, l) && Enabled(c, x.s, a) && Within(c, l, x, a) && !a.Restart?
    ensures var y := Bounded(Pipeline.Apply(c, x.s, a), NextBook(c, x, a));
            Path(NextMove(c, l), x, [Do(a)], y) && Fine(c, l, y)
  {
    var y := Bounded(Pipeline.Apply(c, x.s, a), NextBook(c, x, a));
    StepKeepsInv(c, x.s, a);
    StepKeepsFence(c, x.s, a);
    StepKeepsBounds(c, l, x, a);
    PagesStay(c, l, x, a);
    assert NextMove(c, l)(x, Do(a), y);
    PathOne(NextMove(c, l), x, Do(a), y);
  }

  lemma LastMove(c: Config, l: Limits, x: Bounded, j: nat)
    requires Fine(c, l, x) && Generous(c, l) && x.s.mode.Draining? && Ends(c, x.s, j)
    ensures Forward(c, l, x, [Do(TocToken(j))], Bounded(ApplyTocToken(c, x.s, j), x.book))
  {
    OneMove(c, l, x, TocToken(j));
  }

  lemma NearerMove(c: Config, l: Limits, x: Bounded, a: Step)
    requires Fine(c, l, x) && Generous(c, l) && x.s.mode.Draining? && Nearer(c, l, x, a)
    ensures Forward(c, l, x, [Do(a)], Bounded(Pipeline.Apply(c, x.s, a), NextBook(c, x, a)))
  {
    OneMove(c, l, x, a);
    if ModeStill(a) { ModeIsKept(c, x.s, a); }
  }

  lemma OpenMove(c: Config, l: Limits, x: Bounded, b: nat, header: Bytes)
    requires Fine(c, l, x) && Generous(c, l) && OpensFor(c, x.s, b) && |header| == HEADER_SIZE
    ensures var y := Bounded(ApplyOpenFile(x.s, header), NextBook(c, x, OpenFile(header)));
            && Path(NextMove(c, l), x, [Do(OpenFile(header))], y) && Fine(c, l, y) && WriteBlockGuard(c, y.s, b)
            && y.s.mode == x.s.mode && Work(c, l, y) == Work(c, l, x) + 35
            && y.book.tocLen == HEADER_SIZE && y.s.files[y.s.open.value] == header
  {
    OneMove(c, l, x, OpenFile(header));
    OpenUp(x.s, header);
  }

  lemma WriteMove(c: Config, l: Limits, x: Bounded, b: nat)
    requires Fine(c, l, x) && Generous(c, l) && Sane(c, l) && WriteBlockGuard(c, x.s, b)
    requires x.book.tocLen == HEADER_SIZE && |x.s.files[x.s.open.value]| == HEADER_SIZE
    ensures var y := Bounded(ApplyWriteBlock(x.s, b), NextBook(c, x, WriteBlock(b)));
            && Path(NextMove(c, l), x, [Do(WriteBlock(b))], y) && Fine(c, l, y)
            && y.s.mode == x.s.mode && Work(c, l, y) + 41 <= Work(c, l, x)
  {
    OneIsLeast(c);
    OneMove(c, l, x, WriteBlock(b));
    WriteBlockDown(c, x.s, b);
  }

  /** Opening a file and writing the page it was opened for. */
  lemma OpenAndWrite(c: Config, l: Limits, x: Bounded, b: nat, header: Bytes)
    requires Fine(c, l, x) && Generous(c, l) && Sane(c, l) && OpensFor(c, x.s, b) && |header| == HEADER_SIZE
    ensures exists y :: Forward(c, l, x, [Do(OpenFile(header))] + [Do(WriteBlock(b))], y)
  {
    var m := Bounded(ApplyOpenFile(x.s, header), NextBook(c, x, OpenFile(header)));
    OpenMove(c, l, x, b, header);
    var y := Bounded(ApplyWriteBlock(m.s, b), NextBook(c, m, WriteBlock(b)));
    WriteMove(c, l, m, b);
    PathConcat(NextMove(c, l), x, [Do(OpenFile(header))], m, [Do(WriteBlock(b))], y);
    assert Forward(c, l, x, [Do(OpenFile(header))] + [Do(WriteBlock(b))], y);
  }

  lemma GoOn(c: Config, l: Limits, x: Bounded, header: Bytes) returns (moves: seq<Move>, y: Bounded)
    requires Fine(c, l, x) && Generous(c, l) && Sane(c, l) && x.s.mode.Draining? && |header| == HEADER_SIZE
    ensures Forward(c, l, x, moves, y)
  {
    NeverStuck(c, l, x);
    if j :| Ends(c, x.s, j) {
      LastMove(c, l, x, j);
      moves, y := [Do(TocToken(j))], Bounded(ApplyTocToken(c, x.s, j), x.book);
    } else if b :| OpensFor(c, x.s, b) {
      OpenAndWrite(c, l, x, b, header);
      moves := [Do(OpenFile(header))] + [Do(WriteBlock(b))];
      y :| Forward(c, l, x, moves, y);
    } else {
      var a :| Nearer(c, l, x, a);
      NearerMove(c, l, x, a);
      moves, y := [Do(a)], Bounded(Pipeline.Apply(c, x.s, a), NextBook(c, x, a));
    }
  }

  /** A flush or shutdown in progress can always complete, whatever state the other goroutines are in. */
  lemma {:induction false} CanComplete(c: Config, l: Limits, x: Bounded, header: Bytes)
      returns (moves: seq<Move>, y: Bounded)
    requires Fine(c, l, x) && Generous(c, l) && Sane(c, l) && x.s.mode.Draining? && |header| == HEADER_SIZE
    ensures Path(NextMove(c, l), x, moves, y) && Completed(x.s, y.s)
    decreases Work(c, l, x)
  {
    moves, y := GoOn(c, l, x, header);
    if !Completed(x.s, y.s) {
      var more, z := CanComplete(c, l, y, header);
      PathConcat(NextMove(c, l), x, moves, y, more, z);
      moves, y := moves + more, z;
    }
  }

  /** Over every run under the limits, with two pages per worker and full pages that hold a buffer's worth of bytes:
      from every state with a flush or shutdown in progress, some moves bring it to its end. */
  lemma DrainCanComplete(c: Config, l: Limits, x: Bounded, header: Bytes) returns (moves: seq<Move>, y: Bounded)
    requires Reachable(c, l, x) && Generous(c, l) && Sane(c, l) && |x.s.blocks| >= 2 * c.workers
    requires x.s.mode.Draining? && |header| == HEADER_SIZE
    ensures Path(NextMove(c, l), x, moves, y) && Completed(x.s, y.s)
  {
    ReachableKeeps(c, l, x);
    moves, y := CanComplete(c, l, x, header);
  }
}
