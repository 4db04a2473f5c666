/** Runs under the limits that reach the pipeline's awkward states: a read that fails although nothing is wrong with
    the disk, a removal that a restart undoes, and a removed key that is back without one. Modules PipelineAnew and
    PipelineJam have two more. */
module PipelineExamples {
  import opened Base
  import opened Stamp
  import opened LocMap
  import opened Pipeline
  import opened PipelineWriters
  import opened PipelineDisk
  import opened PipelineRuns
  import opened PipelineReads
  import opened PipelineLimits
  import opened PipelinePaths
  import opened PipelineAnswers
  import Framing

  /** A write that is neither a rewrite nor a marker and fills its allocation. */
  predicate Plain(c: Config, l: Limits, req: Req)
  {
    req.ts > 0 && !Rewrite(req.ts) && !Removal(req.ts) && c.minAlloc <= |req.val| <= l.valueCap
  }

  function TakenOf(r: Req): Taken { Taken(r.key, r.ts, r.val, false) }

  function RecOf(r: Req, n: nat): Rec { Rec(r.key, r.ts, 0, |r.val|, n) }

  // ---------------------------------------------------------------- a read that fails

  /** One write, recorded. */
  lemma FirstWrite(c: Config, l: Limits, pages: nat, req: Req) returns (x: Bounded)
    requires c.workers >= 1 && pages >= 1 && Sane(c, l) && Plain(c, l, req)
    ensures At(c, l, x) && x == Written(Asks(Fresh(c, pages), Wants), 0, req)
  {
    var x0 := Fresh(c, pages);
    FreshAt(c, l, pages);
    RequestRun(c, l, x0);
    WriteRun(c, l, Asks(x0, Wants), 0, req);
    x := Written(Asks(x0, Wants), 0, req);
  }

  /** Its page sealed by a flush and appended to a new file. */
  lemma FlushedPage(c: Config, l: Limits, header: Bytes, req: Req) returns (x: Bounded)
    requires c.workers >= 1 && Sane(c, l) && Plain(c, l, req) && |header| == HEADER_SIZE
    ensures At(c, l, x) && x.s.open == Some(0) && !x.s.closing && x.s.files == [header + req.val] && x.s.disk == [0]
    ensures |x.s.blocks| == 2 * c.workers && forall b :: 0 < b < |x.s.blocks| ==> x.s.blocks[b] == EMPTY_BLOCK
    ensures x.s.blocks[0] == Block(HeldByFile, [RecOf(req, 0)], req.val, 0, HEADER_SIZE)
    ensures x.s.log == [TakenOf(req)] && x.s.loc == map[req.key := Loc(req.ts, Mem(0), 0, |req.val|, 0)]
    ensures x.book.turn == 0 && x.s.tocChan == map[] && x.s.drain == FreshDrain(c) && |x.s.place| == 1
    ensures |x.s.tbs| == c.workers && forall j :: 0 <= j < |x.s.tbs| ==> x.s.tbs[j].None?
  {
    var x2 := FirstWrite(c, l, 2 * c.workers, req);
    StartRun(c, l, x2, false);
    var x3 := Draining0(c, x2, false);
    SealRun(c, l, x3, 0);
    var x4 := SealedPage(x3, 0);
    NewFileRun(c, l, x4, header, 0);
    x := Appended(Opened(x4, header), 0);
  }

  /** A new file for the page at the head. */
  lemma NewFileRun(c: Config, l: Limits, x: Bounded, header: Bytes, b: nat)
    requires At(c, l, x) && Sane(c, l) && x.s.open.None? && |header| == HEADER_SIZE && HeadPage(x.s, b)
    ensures At(c, l, Appended(Opened(x, header), b))
  {
    OpenRun(c, l, x, header, b);
    AtLeastOneBuffer(c);
    AppendRun(c, l, Opened(x, header), b);
  }

  lemma AtLeastOneBuffer(c: Config)
    requires c.workers >= 1
    ensures c.interval <= c.workers * c.interval
  {
    Framing.MulAtLeast(c.workers, c.interval);
  }

  /** With two workers or more: a value whose page ends exactly on the first buffer boundary. The page is released
      and its key located in the file while the buffer is still on its way, and reading it fails. */
  lemma ReadCanFail(c: Config, l: Limits, header: Bytes, k: Key, micro: nat, val: Bytes) returns (x: Bounded)
    requires c.workers >= 2 && Sane(c, l) && |header| == HEADER_SIZE && HEADER_SIZE + |val| == c.interval
    requires micro > 0 && 0 < |val| && c.minAlloc <= |val| <= l.valueCap
    ensures Reachable(c, l, x) && x.s.log == [Taken(k, WriteStamp(micro), val, false)]
    ensures Unwritten(x.s, k) && LookUp(x.s, k, true).Failed? && ReadKey(x.s, k) != LastAnswer(x.s.log, k)
  {
    StampFlags(micro);
    var req := Req(k, WriteStamp(micro), val);
    var x1 := FlushedPage(c, l, header, req);
    Framing.DivUnique(c.interval, c.interval, 1, 0);
    Framing.MulAtLeast(c.workers - 1, c.interval);
    PassRun(c, l, x1, 0);
    var x2 := Passed(c, x1, 0);
    HandRun(c, l, x2, 0, 0);
    var x3 := HandedOver(x2, 0, 0);
    RecordClearRun(c, l, x3, 0, 0, RecOf(req, 0));
    x := Cleared(x3, 0, 0, RecOf(req, 0));
    assert x.s.loc[k] == Loc(req.ts, File(0), HEADER_SIZE, |val|, 0) && x.s.disk[0] == 0;
  }

  // ---------------------------------------------------------------- one write and a whole flush, with one worker

  /** One worker, two free pages, and nothing on its way. */
  ghost predicate Quiet1(c: Config, x: Bounded)
  {
    var s := x.s;
    && c.workers == 1 && s.blocks == [EMPTY_BLOCK, EMPTY_BLOCK] && s.writers == [Idle] && s.readers == [NoRead]
    && s.tbs == [None] && s.tocChan == map[] && s.open.None? && !s.closing && s.drain == FreshDrain(c)
    && x.book.ask == [Rest] && |x.book.filler| == 2
  }

  /** Writes that fit one buffer and that the map will take. */
  predicate Small(c: Config, l: Limits, s: State, req: Req)
  {
    && TsOf(s.loc, req.key) < req.ts && !Rewrite(req.ts) && c.minAlloc <= |req.val| <= l.valueCap && Sane(c, l)
    && HEADER_SIZE + |req.val| < c.interval
  }

  function OneToken(w: WTok, d: CTok, mark: nat): Drain { Drain([w], 1, [d], 1, mark) }

  /** Written, sealed for the token, and appended to a new file. */
  lemma CycleWrite(c: Config, l: Limits, x: Bounded, req: Req, header: Bytes, down: bool) returns (y: Bounded)
    requires At(c, l, x) && Quiet1(c, x) && x.s.mode.Running? && Small(c, l, x.s, req) && |header| == HEADER_SIZE
    ensures At(c, l, y) && y.s.mode == Draining(down, |x.s.log| + 1) && y.s.drain == FreshDrain(c)
    ensures y.s.blocks == [Block(HeldByFile, [RecOf(req, |x.s.log|)], req.val, |x.s.files|, HEADER_SIZE), EMPTY_BLOCK]
    ensures y.s.writers == [Idle] && y.s.readers == [NoRead] && y.s.tbs == [None] && y.s.tocChan == map[]
    ensures y.s.open == Some(|x.s.files|) && !y.s.closing && y.s.files == x.s.files + [header + req.val]
    ensures y.s.disk == x.s.disk + [0] && y.s.tocs == x.s.tocs && y.s.tocA == x.s.tocA && y.s.tocB == x.s.tocB
    ensures y.s.loc == x.s.loc[req.key := Loc(req.ts, Mem(0), 0, |req.val|, |x.s.log|)]
    ensures y.s.log == x.s.log + [TakenOf(req)] && |y.s.place| == |x.s.place| + 1
    ensures y.book.ask == [Sealed] && |y.book.filler| == 2 && y.book.turn == 0
  {
    RequestRun(c, l, x);
    var x1 := Asks(x, Wants);
    WriteRun(c, l, x1, 0, req);
    var x2 := Written(x1, 0, req);
    y := CycleFile(c, l, x2, header, down);
  }

  lemma CycleFile(c: Config, l: Limits, x: Bounded, header: Bytes, down: bool) returns (y: Bounded)
    requires At(c, l, x) && c.workers == 1 && Sane(c, l) && x.s.mode.Running? && |header| == HEADER_SIZE
    requires |x.s.blocks| == 2 && x.s.blocks[0].owner == AtWriter(0) && x.s.blocks[0].recs != []
    requires x.s.blocks[1] == EMPTY_BLOCK && x.s.writers == [Idle] && x.s.open.None? && x.book.ask == [Rest]
    requires |x.book.filler| == 2
    ensures At(c, l, y)
    ensures var s := x.s;
            && y.s == s.(mode := Draining(down, |s.log|), drain := FreshDrain(c), clock := y.s.clock,
                         blocks := [s.blocks[0].(owner := HeldByFile, file := |s.files|, foff := HEADER_SIZE),
                                    EMPTY_BLOCK],
                         open := Some(|s.files|), closing := false, files := s.files + [header + s.blocks[0].values],
                         disk := s.disk + [0])
    ensures y.book.ask == [Sealed] && |y.book.filler| == 2 && y.book.turn == 0
  {
    StartRun(c, l, x, down);
    var x3 := Draining0(c, x, down);
    SealRun(c, l, x3, 0);
    var x4 := SealedPage(x3, 0);
    NewFileRun(c, l, x4, header, 0);
    y := Appended(Opened(x4, header), 0);
    assert y.s.files == x.s.files + [header + x.s.blocks[0].values];
    assert y.s.blocks == [x.s.blocks[0].(owner := HeldByFile, file := |x.s.files|, foff := HEADER_SIZE), EMPTY_BLOCK];
  }

  /** The token sent, and the rest of the file written because of it. */
  lemma CycleTail(c: Config, l: Limits, x: Bounded) returns (y: Bounded)
    requires At(c, l, x) && c.workers == 1 && x.s.mode.Draining? && x.s.drain == FreshDrain(c)
    requires |x.s.blocks| == 2 && x.s.blocks[0].owner.HeldByFile? && x.s.blocks[1] == EMPTY_BLOCK
    requires x.s.writers == [Idle] && x.s.open.Some? && !x.s.closing && x.book.ask == [Sealed]
    requires |x.s.files[x.s.open.value]| < x.s.disk[x.s.open.value] + c.interval
    ensures At(c, l, y)
    ensures y.s == x.s.(clock := x.s.clock + 1, drain := OneToken(WSent(x.s.clock), CWait, 0), closing := true,
                        disk := x.s.disk[x.s.open.value := |x.s.files[x.s.open.value]|])
    ensures y.book == x.book.(ask := [Rest])
  {
    WriterTokenRun(c, l, x, 0);
    var x1 := TokenSent(x, 0);
    assert x1.s.drain.wtok == [WSent(x.s.clock)];
    assert LastAtHead(x1.s, 0);
    TailRun(c, l, x1);
    y := Disked(x1, |x1.s.files[x1.s.open.value]|, true);
  }

  /** The page released, the file closed, and the page handed to the memClearer. */
  lemma CycleClose(c: Config, l: Limits, x: Bounded) returns (y: Bounded)
    requires At(c, l, x) && c.workers == 1 && |x.s.drain.ctok| == 1 && x.s.drain.ctok[0].CWait?
    requires |x.s.blocks| == 2 && x.s.blocks[0].owner.HeldByFile? && x.s.blocks[1] == EMPTY_BLOCK
    requires x.s.open.Some? && x.s.closing && x.s.blocks[0].file == x.s.open.value && x.book.turn == 0
    requires PageEnd(x.s.blocks[0]) <= x.s.disk[x.s.open.value]
    ensures At(c, l, y)
    ensures y.s == x.s.(clock := x.s.clock + 1, open := None, closing := false,
                        blocks := [x.s.blocks[0].(owner := AtClearer(0, 0)), EMPTY_BLOCK])
    ensures y.book == x.book
  {
    PassRun(c, l, x, 0);
    var x3 := Passed(c, x, 0);
    CloseRun(c, l, x3);
    var x4 := Closed(x3);
    HandRun(c, l, x4, 0, 0);
    y := HandedOver(x4, 0, 0);
    assert y.s.blocks == [x.s.blocks[0].(owner := AtClearer(0, 0)), EMPTY_BLOCK];
  }

  /** fileWriter passes the token on. */
  lemma CycleToken(c: Config, l: Limits, x: Bounded, t: nat) returns (y: Bounded)
    requires At(c, l, x) && c.workers == 1 && x.s.drain == OneToken(WSent(t), CWait, 0) && x.s.open.None?
    requires |x.s.blocks| == 2 && x.s.blocks[0].owner.AtClearer? && x.s.blocks[1] == EMPTY_BLOCK
    ensures At(c, l, y) && y.book == x.book
    ensures y.s == x.s.(clock := x.s.clock + 1, drain := OneToken(WDone, CSent(x.s.clock), |x.s.files|))
  {
    FileTokenRun(c, l, x, 0);
    y := TokenIn(c, x, 0);
    assert y.s.drain.ctok == [CSent(x.s.clock)] && y.s.drain.wtok == [WDone];
  }

  /** The page's record processed. */
  lemma CycleClear(c: Config, l: Limits, x: Bounded, r: Rec) returns (y: Bounded)
    requires At(c, l, x) && c.workers == 1 && x.s.tocChan == map[] && |x.s.blocks| == 2 && AtOnly(x, 0, 0, r)
    requires x.s.blocks[1] == EMPTY_BLOCK && x.s.readers == [NoRead] && x.s.tbs == [None]
    ensures At(c, l, y) && y.book == x.book
    ensures y.s == x.s.(blocks := [EMPTY_BLOCK, EMPTY_BLOCK], loc := y.s.loc, place := y.s.place,
                        tbs := [Some(TocBlock(x.s.blocks[0].file, [ClearedRec(x.s.blocks[0], r)]))])
    ensures y.s.loc.Keys <= x.s.loc.Keys + {r.key}
    ensures if Removal(r.ts) then r.key !in y.s.loc else TsOf(y.s.loc, r.key) == r.ts
  {
    RecordClearRun(c, l, x, 0, 0, r);
    var x1 := Cleared(x, 0, 0, r);
    FreeRun(c, l, x1, 0);
    y := Freed(x1, 0);
    assert y.s.blocks == [EMPTY_BLOCK, EMPTY_BLOCK];
    assert y.s.tbs == [Some(TocBlock(x.s.blocks[0].file, [ClearedRec(x.s.blocks[0], r)]))];
  }

  /** Its TOC block sent, because of the token, and written. */
  lemma CycleToc(c: Config, l: Limits, x: Bounded) returns (y: Bounded)
    requires At(c, l, x) && c.workers == 1 && x.s.blocks == [EMPTY_BLOCK, EMPTY_BLOCK] && x.s.tocChan == map[]
    requires |x.s.drain.ctok| == 1 && x.s.drain.ctok[0].CSent? && |x.s.tbs| == 1 && x.s.tbs[0].Some?
    requires x.s.tbs[0].value.file !in x.s.tocs
    ensures At(c, l, y) && y.book == x.book
    ensures y.s == x.s.(clock := x.s.clock + 1, tbs := [None], place := y.s.place, tocB := x.s.tocA,
                        tocA := Some(x.s.tbs[0].value.file),
                        tocs := x.s.tocs[x.s.tbs[0].value.file := x.s.tbs[0].value.recs])
  {
    SendRun(c, l, x, 0);
    var x3 := Sent(x, 0);
    TookRun(c, l, x3, x.s.clock);
    y := TookToc(x3, x.s.clock);
    assert y.s.tocChan == map[];
    assert y.s.tbs == [None];
  }

  lemma CycleTokens(c: Config, l: Limits, x: Bounded) returns (y: Bounded)
    requires At(c, l, x) && c.workers == 1 && x.s.mode.Draining? && x.s.open.None? && x.s.tocChan == map[]
    requires x.s.blocks == [EMPTY_BLOCK, EMPTY_BLOCK] && x.s.tbs == [None] && x.s.drain.cleft == 1
    requires |x.s.drain.ctok| == 1 && x.s.drain.ctok[0].CSent?
    ensures At(c, l, y) && y.book == x.book
    ensures y.s == x.s.(clock := y.s.clock, tocA := None, tocB := None, drain := FreshDrain(c), flushed := y.s.flushed,
                        mode := if x.s.mode.shutdown then Stopped else Running)
  {
    ClearTokenRun(c, l, x, 0);
    var x1 := TokenPassed(x, 0);
    TocTokenRun(c, l, x1, 0);
    y := TokenDone(c, x1, 0);
  }

  /** One write and a whole flush or shutdown. */
  lemma Cycle(c: Config, l: Limits, x: Bounded, req: Req, header: Bytes, down: bool) returns (y: Bounded)
    requires At(c, l, x) && Quiet1(c, x) && x.s.mode.Running? && Small(c, l, x.s, req) && |header| == HEADER_SIZE
    requires |x.s.files| !in x.s.tocs
    ensures At(c, l, y) && Quiet1(c, y) && y.s.mode == if down then Stopped else Running
    ensures |y.s.files| == |x.s.files| + 1 && y.s.log == x.s.log + [TakenOf(req)]
    ensures y.s.tocs.Keys == x.s.tocs.Keys + {|x.s.files|} && (forall f :: f in x.s.tocs ==> y.s.tocs[f] == x.s.tocs[f])
    ensures var recs := y.s.tocs[|x.s.files|]; |recs| == 1 && recs[0].key == req.key && recs[0].ts == req.ts
    ensures if Removal(req.ts) then req.key !in y.s.loc else TsOf(y.s.loc, req.key) == req.ts
  {
    var x1 := CycleWrite(c, l, x, req, header, down);
    var x2 := CycleTail(c, l, x1);
    var x3 := CycleClose(c, l, x2);
    var x4 := CycleToken(c, l, x3, x1.s.clock);
    var x5 := CycleClear(c, l, x4, RecOf(req, |x.s.log|));
    var x6 := CycleToc(c, l, x5);
    y := CycleTokens(c, l, x6);
  }

  // ---------------------------------------------------------------- a removal that a restart undoes

  lemma FreshIsQuiet(c: Config, l: Limits)
    requires c.workers == 1 && c.interval > 0
    ensures At(c, l, Fresh(c, 2)) && Quiet1(c, Fresh(c, 2))
  {
    FreshAt(c, l, 2);
  }

  /** A value and a flush, then its removal marker and a shutdown. */
  lemma MarkerRun(c: Config, l: Limits, put: Req, mark: Req, header: Bytes) returns (x: Bounded)
    requires c.workers == 1 && Sane(c, l) && Plain(c, l, put) && !Rewrite(mark.ts) && Removal(mark.ts)
    requires put.key == mark.key && put.ts < mark.ts && |header| == HEADER_SIZE
             && c.minAlloc <= |mark.val| <= l.valueCap
    requires HEADER_SIZE + |put.val| < c.interval && HEADER_SIZE + |mark.val| < c.interval
    ensures At(c, l, x) && x.s.mode.Stopped? && x.s.log == [TakenOf(put), TakenOf(mark)] && put.key !in x.s.loc
    ensures 0 in x.s.tocs && |x.s.tocs[0]| == 1 && x.s.tocs[0][0].key == put.key && x.s.tocs[0][0].ts == put.ts
  {
    FreshIsQuiet(c, l);
    var x1 := Cycle(c, l, Fresh(c, 2), put, header, false);
    x := Cycle(c, l, x1, mark, header, true);
  }

  /** The record of the value, which has an offset, is all that recovery finds. */
  lemma MarkedStamp(c: Config, s: State, put: Req, mark: Req)
    requires Inv(c, s) && s.mode.Stopped? && s.log == [TakenOf(put), TakenOf(mark)] && !Removal(put.ts)
             && Removal(mark.ts)
    requires 0 in s.tocs && |s.tocs[0]| == 1 && s.tocs[0][0].key == put.key && s.tocs[0][0].ts == put.ts
    ensures var m := Recover(s.tocs, |s.files|); put.key in m && m[put.key].ts == put.ts
  {
    NewestRecovered(c, s, put.key);
    var m, k := Recover(s.tocs, |s.files|), put.key;
    assert RecsOk(s.files, s.log, 0, s.tocs[0]);
    assert TocRecOk(s.files, s.log, 0, s.tocs[0][0]);
    assert RecordAt(s.tocs, k, put.ts, 0, 0);
    var f: nat, i: nat :| f < |s.files| && RecordAt(s.tocs, k, m[k].ts, f, i);
    assert RecsOk(s.files, s.log, f, s.tocs[f]);
    assert TocRecOk(s.files, s.log, f, s.tocs[f][i]);
  }

  lemma RestoredValue(c: Config, s: State, put: Req, mark: Req)
    requires Inv(c, s) && s.mode.Stopped? && s.log == [TakenOf(put), TakenOf(mark)] && put.key !in s.loc
    requires put.ts < mark.ts && !Removal(put.ts) && !Deletion(put.ts)
    requires var m := Recover(s.tocs, |s.files|); put.key in m && m[put.key].ts == put.ts
    ensures NewerOnDisk(s, put.key) && ReadKey(ApplyRestart(c, s), put.key) == Found(put.ts, put.val)
  {
    var s', k := ApplyRestart(c, s), put.key;
    RestartCore(c, s);
    RestartExtra(c, s);
    NewestRecovered(c, s, k);
    LocSelectsValue(c, s', k);
    if Unwritten(s', k) { UnwrittenIsPending(c, s', k); }
  }

  /** A run in which a restart brings a locally removed value back: the marker is gone from the map, and recovery
      passes over its TOC record. */
  lemma MarkerUndone(c: Config, l: Limits, put: Req, mark: Req, header: Bytes) returns (x: Bounded)
    requires c.workers == 1 && Sane(c, l) && Plain(c, l, put) && !Rewrite(mark.ts) && Removal(mark.ts)
             && !Deletion(put.ts)
    requires put.key == mark.key && put.ts < mark.ts && |header| == HEADER_SIZE
             && c.minAlloc <= |mark.val| <= l.valueCap
    requires HEADER_SIZE + |put.val| < c.interval && HEADER_SIZE + |mark.val| < c.interval
    ensures Reachable(c, l, x) && x.s.mode.Stopped? && NewerOnDisk(x.s, put.key)
    ensures ReadKey(x.s, put.key) == NotFound(0) && ReadKey(ApplyRestart(c, x.s), put.key) == Found(put.ts, put.val)
  {
    x := MarkerRun(c, l, put, mark, header);
    AtInv(c, l, x);
    MarkedStamp(c, x.s, put, mark);
    RestoredValue(c, x.s, put, mark);
  }

  // ---------------------------------------------------------------- a removed key that is back

  /** memWriter 0's page is full with this one value: no second entry fits, or no value of the largest size. */
  predicate Fills(c: Config, l: Limits, req: Req)
  {
    Plain(c, l, req) && (2 * ENTRY_SIZE > l.page || |req.val| + MaxAlloc(c, l) > l.page)
  }

  function FullSealed(x: Bounded, b: nat, req: Req): Bounded
    requires b < |x.s.blocks| && 0 < |x.book.ask| && b < |x.book.filler|
  {
    SealedPage(Asks(Written(x, b, req), Wants), b)
  }

  /** A page filled by one value and sealed for the next request. */
  lemma FullSealRun(c: Config, l: Limits, x: Bounded, b: nat, req: Req)
    requires At(c, l, x) && Ready(c, l, x, b, req) && Fills(c, l, req) && b < |x.book.filler|
    requires forall a :: 0 <= a < |x.s.blocks| ==> !x.s.blocks[a].owner.InFileChan?
    requires forall w :: 0 <= w < |x.s.drain.wtok| ==> !x.s.drain.wtok[w].WSent?
    ensures At(c, l, FullSealed(x, b, req)) && HeadPage(FullSealed(x, b, req).s, b)
  {
    WriteRun(c, l, x, b, req);
    var x1 := Written(x, b, req);
    RequestRun(c, l, x1);
    SealRun(c, l, Asks(x1, Wants), b);
  }

  lemma FullWritten(c: Config, l: Limits, req: Req) returns (x: Bounded)
    requires c.workers == 2 && Sane(c, l) && Fills(c, l, req)
    ensures At(c, l, x) && HeadPage(x.s, 0) && x == FullSealed(Asks(Fresh(c, 4), Wants), 0, req)
  {
    FreshAt(c, l, 4);
    RequestRun(c, l, Fresh(c, 4));
    FullSealRun(c, l, Asks(Fresh(c, 4), Wants), 0, req);
    x := FullSealed(Asks(Fresh(c, 4), Wants), 0, req);
  }

  /** Two workers and four pages, the first of them filled by one value and in a new file whose full buffers are
      written; memWriter 0 waits for the next page. */
  lemma FullPage(c: Config, l: Limits, req: Req, header: Bytes) returns (x: Bounded)
    requires c.workers == 2 && Sane(c, l) && Fills(c, l, req) && |header| == HEADER_SIZE
    ensures At(c, l, x) && x.s.mode.Running? && x.s.writers == [Idle, Idle] && x.s.readers == [NoRead]
    ensures x.s.blocks ==
              [Block(HeldByFile, [RecOf(req, 0)], req.val, 0, HEADER_SIZE), EMPTY_BLOCK, EMPTY_BLOCK, EMPTY_BLOCK]
    ensures x.s.files == [header + req.val] && x.s.open == Some(0) && !x.s.closing && |x.s.disk| == 1
    ensures x.s.disk[0] <= |x.s.files[0]| < x.s.disk[0] + c.interval
    ensures x.s.tbs == [None, None] && x.s.tocChan == map[] && x.s.tocs == map[] && x.s.tocA.None? && x.s.tocB.None?
    ensures x.s.log == [TakenOf(req)] && |x.s.place| == 1 && x.s.drain == FreshDrain(c)
    ensures x.s.loc == map[req.key := Loc(req.ts, Mem(0), 0, |req.val|, 0)]
    ensures x.book.ask == [Wants, Rest] && |x.book.filler| == 4 && x.book.turn == 0
    ensures x.book.tocLen == HEADER_SIZE + ENTRY_SIZE
  {
    var x4 := FullWritten(c, l, req);
    NewFileRun(c, l, x4, header, 0);
    var x5 := Appended(Opened(x4, header), 0);
    x := BufsRun(c, l, x5);
    assert x.s.blocks[0] == Block(HeldByFile, [RecOf(req, 0)], req.val, 0, HEADER_SIZE);
    assert x.s.files == [header + req.val];
  }

  /** The record of page b processed and the page free again. */
  lemma ClearPage(c: Config, l: Limits, x: Bounded, j: nat, b: nat, r: Rec) returns (y: Bounded)
    requires At(c, l, x) && AtOnly(x, j, b, r) && j < c.workers && x.s.tocChan == map[] && !Removal(r.ts)
    requires x.s.readers == [NoRead]
    ensures At(c, l, y) && y.book == x.book && |y.s.place| == |x.s.place|
    ensures y.s == x.s.(blocks := x.s.blocks[b := EMPTY_BLOCK], loc := x.s.loc[r.key := ClearedLoc(x.s.blocks[b], r)],
                        tbs := x.s.tbs[j := Some(TocBlock(x.s.blocks[b].file, [ClearedRec(x.s.blocks[b], r)]))],
                        place := y.s.place)
  {
    RecordClearRun(c, l, x, j, b, r);
    var x1 := Cleared(x, j, b, r);
    FreeRun(c, l, x1, b);
    y := Freed(x1, b);
    assert y.s.blocks == x.s.blocks[b := EMPTY_BLOCK];
  }

  /** memClearer j takes page b, with one record, and is done with it. */
  lemma HandAndClear(c: Config, l: Limits, x: Bounded, j: nat, b: nat, r: Rec) returns (y: Bounded)
    requires At(c, l, x) && j < c.workers && OnlyFor(x.s, j, b) && x.s.tocChan == map[] && !Removal(r.ts)
    requires x.s.blocks[b].recs == [r] && x.s.tbs[j].None? && TsOf(x.s.loc, r.key) == r.ts && r.wid < |x.s.place|
    requires x.s.readers == [NoRead]
    ensures At(c, l, y) && y.book == x.book && |y.s.place| == |x.s.place|
    ensures y.s == x.s.(blocks := x.s.blocks[b := EMPTY_BLOCK], loc := x.s.loc[r.key := ClearedLoc(x.s.blocks[b], r)],
                        tbs := x.s.tbs[j := Some(TocBlock(x.s.blocks[b].file, [ClearedRec(x.s.blocks[b], r)]))],
                        place := y.s.place)
  {
    HandRun(c, l, x, j, b);
    y := ClearPage(c, l, HandedOver(x, j, b), j, b, r);
    assert y.s.blocks == x.s.blocks[b := EMPTY_BLOCK];
  }

  /** A file can take both pages. */
  predicate BothFit(l: Limits, a: Req, b: Req)
  {
    HEADER_SIZE + 2 * ENTRY_SIZE < l.fileCap && HEADER_SIZE + |a.val| + |b.val| <= l.fileCap
  }

  /** A second write in page 1, sealed by a flush and in the same file. */
  lemma SecondPage(c: Config, l: Limits, put: Req, mark: Req, header: Bytes) returns (x: Bounded)
    requires c.workers == 2 && Sane(c, l) && Fills(c, l, put) && |header| == HEADER_SIZE && BothFit(l, put, mark)
    requires put.key == mark.key && put.ts < mark.ts && !Rewrite(mark.ts) && c.minAlloc <= |mark.val| <= l.valueCap
    ensures At(c, l, x) && x.s.mode == Draining(false, 2) && x.s.writers == [Idle, Idle] && x.s.readers == [NoRead]
    ensures x.s.blocks == [Block(HeldByFile, [RecOf(put, 0)], put.val, 0, HEADER_SIZE),
                           Block(HeldByFile, [RecOf(mark, 1)], mark.val, 0, HEADER_SIZE + |put.val|), EMPTY_BLOCK,
                           EMPTY_BLOCK]
    ensures x.s.files == [header + put.val + mark.val] && x.s.open == Some(0) && !x.s.closing && |x.s.disk| == 1
    ensures x.s.disk[0] <= |x.s.files[0]| < x.s.disk[0] + c.interval
    ensures x.s.tbs == [None, None] && x.s.tocChan == map[] && |x.s.place| == 2 && x.s.drain == FreshDrain(c)
    ensures x.s.log == [TakenOf(put), TakenOf(mark)]
    ensures x.s.loc == map[put.key := Loc(mark.ts, Mem(1), 0, |mark.val|, 1)]
    ensures x.book.ask == [Sealed, Rest] && x.book.turn == 0
  {
    var x1 := FullPage(c, l, put, header);
    FlushPage(c, l, x1, 1, mark);
    x := SecondFile(c, l, SealedPage(Draining0(c, Written(x1, 1, mark), false), 1), put, mark, header);
    assert x.s.blocks[1] == Block(HeldByFile, [RecOf(mark, 1)], mark.val, 0, HEADER_SIZE + |put.val|);
  }

  /** A write, its page sealed by a flush. */
  lemma FlushPage(c: Config, l: Limits, x: Bounded, b: nat, req: Req)
    requires At(c, l, x) && Ready(c, l, x, b, req) && b < |x.book.filler|
    requires forall a :: 0 <= a < |x.s.blocks| ==> !x.s.blocks[a].owner.InFileChan?
    ensures At(c, l, SealedPage(Draining0(c, Written(x, b, req), false), b))
    ensures HeadPage(SealedPage(Draining0(c, Written(x, b, req), false), b).s, b)
  {
    WriteRun(c, l, x, b, req);
    StartRun(c, l, Written(x, b, req), false);
    SealRun(c, l, Draining0(c, Written(x, b, req), false), b);
  }

  lemma SecondFile(c: Config, l: Limits, x: Bounded, put: Req, mark: Req, header: Bytes) returns (y: Bounded)
    requires At(c, l, x) && c.workers == 2 && |x.s.blocks| == 4 && HeadPage(x.s, 1) && BothFit(l, put, mark)
    requires x.s.open == Some(0) && !x.s.closing && x.s.files == [header + put.val] && |x.s.disk| == 1
    requires x.s.disk[0] <= |x.s.files[0]| < x.s.disk[0] + c.interval && x.book.tocLen == HEADER_SIZE + ENTRY_SIZE
    requires |header| == HEADER_SIZE && x.s.blocks[1].values == mark.val && |x.s.blocks[1].recs| == 1
    ensures At(c, l, y) && |y.s.disk| == 1 && y.s.disk[0] <= |y.s.files[0]| < y.s.disk[0] + c.interval
    ensures y.s == x.s.(files := [header + put.val + mark.val], disk := y.s.disk,
                        blocks := x.s.blocks[1 := x.s.blocks[1].(owner := HeldByFile, file := 0,
                                                                 foff := |header + put.val|)])
    ensures y.book == x.book.(tocLen := HEADER_SIZE + 2 * ENTRY_SIZE)
  {
    AtLeastOneBuffer(c);
    AppendRun(c, l, x, 1);
    var x5 := Appended(x, 1);
    assert x5.s.files == [header + put.val + mark.val];
    y := BufsRun(c, l, x5);
  }

  /** Both memWriters' tokens, and the rest of the file written because of the last. */
  lemma BothTokens(c: Config, l: Limits, x: Bounded) returns (y: Bounded)
    requires At(c, l, x) && c.workers == 2 && x.s.mode.Draining? && x.s.drain == FreshDrain(c) && FileChanEmpty(x.s)
    requires x.s.writers == [Idle, Idle] && !WriterHas(x.s, 0) && !WriterHas(x.s, 1) && x.book.ask == [Sealed, Rest]
    requires x.s.open.Some? && !x.s.closing
    requires |x.s.files[x.s.open.value]| < x.s.disk[x.s.open.value] + c.interval
    ensures At(c, l, y) && y.book == x.book.(ask := [Rest, Rest])
    ensures y.s == x.s.(clock := x.s.clock + 2, drain := Drain([WDone, WSent(x.s.clock + 1)], 1, [CWait, CWait], 2, 0),
                        closing := true, disk := x.s.disk[x.s.open.value := |x.s.files[x.s.open.value]|])
  {
    var x2 := FirstTokenIn(c, l, x);
    WriterTokenRun(c, l, x2, 1);
    var x3 := TokenSent(x2, 1);
    assert x3.s.drain.wtok == [WDone, WSent(x.s.clock + 1)];
    assert LastAtHead(x3.s, 1);
    TailRun(c, l, x3);
    y := Disked(x3, |x3.s.files[x3.s.open.value]|, true);
    assert y.book.ask == [Rest, Rest];
  }

  lemma FirstTokenIn(c: Config, l: Limits, x: Bounded) returns (y: Bounded)
    requires At(c, l, x) && c.workers == 2 && x.s.mode.Draining? && x.s.drain == FreshDrain(c) && FileChanEmpty(x.s)
    requires x.s.writers == [Idle, Idle] && !WriterHas(x.s, 0) && x.book.ask == [Sealed, Rest]
    ensures At(c, l, y) && y.book == x.book.(ask := [Rest, Rest])
    ensures y.s == x.s.(clock := x.s.clock + 1, drain := Drain([WDone, WWait], 1, [CWait, CWait], 2, 0))
  {
    WriterTokenRun(c, l, x, 0);
    var x1 := TokenSent(x, 0);
    assert x1.s.drain.wtok == [WSent(x.s.clock), WWait];
    FileTokenRun(c, l, x1, 0);
    y := TokenIn(c, x1, 0);
    assert y.s.drain.wtok == [WDone, WWait] && y.s.drain.ctok == [CWait, CWait];
    assert y.book.ask == [Rest, Rest];
  }

  /** Two pages of the file released. */
  lemma BothReleased(c: Config, l: Limits, x: Bounded) returns (y: Bounded)
    requires At(c, l, x) && c.workers == 2 && x.s.open == Some(0) && x.s.closing && x.book.turn == 0
    requires |x.s.blocks| == 4 && !x.s.blocks[2].owner.InClearChan? && !x.s.blocks[3].owner.InClearChan?
             && |x.s.disk| > 0
    requires x.s.blocks[0].owner.HeldByFile? && x.s.blocks[0].file == 0 && PageEnd(x.s.blocks[0]) <= x.s.disk[0]
    requires x.s.blocks[1].owner.HeldByFile? && x.s.blocks[1].file == 0 && PageEnd(x.s.blocks[1]) <= x.s.disk[0]
    requires forall j :: 0 <= j < |x.s.drain.ctok| ==> x.s.drain.ctok[j].CWait?
    ensures At(c, l, y) && y.book == x.book
    ensures y.s == x.s.(clock := x.s.clock + 2,
                        blocks := [x.s.blocks[0].(owner := InClearChan(0, x.s.clock)),
                                   x.s.blocks[1].(owner := InClearChan(1, x.s.clock + 1)), x.s.blocks[2],
                                   x.s.blocks[3]])
  {
    PassRun(c, l, x, 0);
    var x1 := Passed(c, x, 0);
    PassRun(c, l, x1, 1);
    y := Passed(c, x1, 1);
    assert y.s.blocks == [x.s.blocks[0].(owner := InClearChan(0, x.s.clock)),
                          x.s.blocks[1].(owner := InClearChan(1, x.s.clock + 1)), x.s.blocks[2], x.s.blocks[3]];
  }

  /** A run in which a removed key comes back with no restart: memClearer 1 has moved the marker, so that the key is
      gone from the map, when memClearer 0 gets to the older record. */
  lemma GoneComesBack(c: Config, l: Limits, put: Req, mark: Req, header: Bytes) returns (x: Bounded, y: Bounded)
    requires c.workers == 2 && Sane(c, l) && Fills(c, l, put) && !Deletion(put.ts) && |header| == HEADER_SIZE
    requires put.key == mark.key && put.ts < mark.ts && !Rewrite(mark.ts) && Removal(mark.ts) && BothFit(l, put, mark)
    requires c.minAlloc <= |mark.val| <= l.valueCap
    ensures Reachable(c, l, x) && Moves(c, l, x, Do(ClearRec(0)), y) && ClearsKey(x.s, 0, put.key)
    ensures x.s.log == y.s.log == [TakenOf(put), TakenOf(mark)]
    ensures put.key !in x.s.loc && ReadKey(y.s, put.key) == Found(put.ts, put.val)
  {
    var x1 := SecondPage(c, l, put, mark, header);
    var x2 := BothTokens(c, l, x1);
    var x3 := BothReleased(c, l, x2);
    x := NewerFirst(c, l, x3, RecOf(mark, 1));
    y := OlderRecord(c, l, x, put);
  }

  /** memClearer 1 is done with its record, the marker, when memClearer 0 takes its page. */
  lemma NewerFirst(c: Config, l: Limits, x: Bounded, r: Rec) returns (y: Bounded)
    requires At(c, l, x) && c.workers == 2 && |x.s.blocks| == 4 && x.s.blocks[2] == EMPTY_BLOCK
    requires x.s.blocks[3] == EMPTY_BLOCK && OnlyFor(x.s, 0, 0) && OnlyFor(x.s, 1, 1) && x.s.tocChan == map[]
    requires x.s.blocks[1].recs == [r] && Removal(r.ts) && TsOf(x.s.loc, r.key) <= r.ts && r.wid < |x.s.place|
    requires x.s.tbs == [None, None]
    ensures At(c, l, y) && y.book == x.book && |y.s.blocks| == 4
    ensures y.s.blocks[0] == x.s.blocks[0].(owner := AtClearer(0, 0))
    ensures y.s == x.s.(blocks := y.s.blocks, loc := x.s.loc - {r.key}, tbs := y.s.tbs, place := y.s.place)
    ensures |y.s.tbs| == 2 && y.s.tbs[0].None? && |y.s.place| == |x.s.place|
  {
    HandRun(c, l, x, 1, 1);
    var x1 := HandedOver(x, 1, 1);
    RecordClearRun(c, l, x1, 1, 1, r);
    var x2 := Cleared(x1, 1, 1, r);
    HandRun(c, l, x2, 0, 0);
    y := HandedOver(x2, 0, 0);
  }

  lemma OlderRecord(c: Config, l: Limits, x: Bounded, put: Req) returns (y: Bounded)
    requires At(c, l, x) && AtOnly(x, 0, 0, RecOf(put, 0)) && c.workers == 2 && x.s.tocChan == map[]
    requires put.key !in x.s.loc && !Removal(put.ts) && !Deletion(put.ts) && |x.s.log| > 0 && x.s.log[0] == TakenOf(put)
    requires x.s.blocks[0].file < |x.s.disk| && PageEnd(x.s.blocks[0]) <= x.s.disk[x.s.blocks[0].file]
    requires x.s.blocks[0].values == put.val
    ensures Moves(c, l, x, Do(ClearRec(0)), y) && y.s.log == x.s.log && ReadKey(y.s, put.key) == Found(put.ts, put.val)
  {
    AtInv(c, l, x);
    TocBlockRoom(c, x.s);
    ClearedKeyIsBack(c, x.s, 0, put.key);
    ClearIs(x, 0, 0, RecOf(put, 0));
    y := Cleared(x, 0, 0, RecOf(put, 0));
  }

  // ---------------------------------------------------------------- a marker that is read

  lemma MarkerStamp(micro: nat)
    ensures var put, mark := WriteStamp(micro), WithRemoval(WriteStamp(micro));
            && put < mark == Stored(mark) && Removal(mark) && !Rewrite(mark) && !Deletion(mark)
  {
    StampFlags(micro);
    assert (micro * 256 + 2) / 2 == micro * 128 + 1;
    assert (micro * 256 + 2) / 128 == micro * 2;
  }

  /** memWriter 0 puts a second, empty value into page 0 while reader 0 waits for the page. */
  lemma SecondInPage(c: Config, l: Limits, x: Bounded, key: Key, ts: nat) returns (y: Bounded)
    requires At(c, l, x) && InHand(x, 0, Rest) && x.s.mode.Running? && x.s.writers[0].Idle?
    requires 0 < |x.s.blocks| && x.s.blocks[0].owner == AtWriter(0) && |x.s.readers| == 1 && x.s.readers[0].AtBlock?
    requires FitsPage(c, l, x.s.blocks[0], Req(key, ts, [])) && TsOf(x.s.loc, key) < ts == Stored(ts)
    ensures At(c, l, y) && y.s.readers == x.s.readers && |y.s.blocks| > 0
    ensures y.s.loc == x.s.loc[key := Loc(ts, Mem(0), |x.s.blocks[0].values|, 0, |x.s.log|)]
    ensures y.s.log == x.s.log + [Taken(key, ts, [], Rewrite(ts))]
  {
    var req, junk := Req(key, ts, []), Zeros(Alloc(c, 0));
    AtShape(c, l, x);
    StepReaches(c, l, x, Extend(0, 0, req, junk));
    var x1 := Bounded(Pipeline.Apply(c, x.s, Extend(0, 0, req, junk)), NextBook(c, x, Extend(0, 0, req, junk)));
    AtShape(c, l, x1);
    StepReaches(c, l, x1, Copy(0));
    var x2 := Bounded(Pipeline.Apply(c, x1.s, Copy(0)), NextBook(c, x1, Copy(0)));
    AtShape(c, l, x2);
    StepReaches(c, l, x2, PlaceInMap(0));
    y := Bounded(Pipeline.Apply(c, x2.s, PlaceInMap(0)), NextBook(c, x2, PlaceInMap(0)));
  }

  /** A removal marker is read as a value: a reader looks up a key whose value is in a memory page, a marker of that
      value gets into the same page before the reader has the page's lock, and the read finishes with an empty value
      under the marker's stamp, where the store answers that the key is not found. */
  lemma MarkerIsValue(c: Config, l: Limits, k: Key, micro: nat, val: Bytes) returns (x: Bounded)
    requires c.workers >= 1 && Sane(c, l) && TIMESTAMPMICRO_MIN <= micro <= TIMESTAMPMICRO_MAX
    requires c.minAlloc <= |val| <= l.valueCap && 2 * ENTRY_SIZE <= l.page && |val| + c.minAlloc <= l.page
    ensures var mark := WithRemoval(WriteStamp(micro));
            && Reachable(c, l, x) && |x.s.readers| == 1
            && x.s.readers[0] == Finished(k, Loc(mark, Mem(0), |val|, 0, 1), [])
            && ReadKey(x.s, k) == NotFound(mark)
  {
    StampFlags(micro);
    MarkerStamp(micro);
    var put, mark := Req(k, WriteStamp(micro), val), WithRemoval(WriteStamp(micro));
    var x0 := FirstWrite(c, l, 1, put);
    AtShape(c, l, x0);
    StepReaches(c, l, x0, ReadStart(0, k));
    var x1 := x0.(s := Pipeline.Apply(c, x0.s, ReadStart(0, k)));
    assert x1.s.readers == [AtBlock(k, 0)];
    var x2 := SecondInPage(c, l, x1, k, mark);
    x := LockAndCopy(c, l, x2, k, 0);
  }

  lemma LockAndCopy(c: Config, l: Limits, x: Bounded, k: Key, b: nat) returns (y: Bounded)
    requires At(c, l, x) && x.s.readers == [AtBlock(k, b)] && k in x.s.loc && x.s.loc[k].id == Mem(b)
    requires !Deletion(x.s.loc[k].ts)
    ensures At(c, l, y) && |y.s.readers| == 1 && y.s.loc == x.s.loc && x.s.loc[k].aux < |x.s.log|
    ensures y.s.readers[0] == Finished(k, x.s.loc[k], x.s.log[x.s.loc[k].aux].val)
  {
    AtInv(c, l, x);
    LockAnswers(c, x.s, 0);
    StepReaches(c, l, x, ReadLock(0));
    y := CopyRun(c, l, x.(s := Pipeline.Apply(c, x.s, ReadLock(0))), Holding(k, b, x.s.loc[k]));
  }

  lemma CopyRun(c: Config, l: Limits, x: Bounded, rd: Reader) returns (y: Bounded)
    requires At(c, l, x) && rd.Holding? && x.s.readers == [rd]
    ensures At(c, l, y) && |y.s.readers| == 1 && y.s.loc == x.s.loc && rd.loc.aux < |x.s.log|
    ensures y.s.readers[0] == Finished(rd.key, rd.loc, x.s.log[rd.loc.aux].val)
  {
    AtInv(c, l, x);
    CopyAnswers(c, x.s, 0);
    StepReaches(c, l, x, ReadCopy(0));
    y := x.(s := Pipeline.Apply(c, x.s, ReadCopy(0)));
  }
}
