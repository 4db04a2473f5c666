/** Building runs under the limits, a few moves at a time, with one memWriter doing all the writes. */
module PipelinePaths {
  import opened Base
  import opened Stamp
  import opened LocMap
  import opened Pipeline
  import opened PipelineWriters
  import opened PipelineDisk
  import opened PipelineRuns
  import opened PipelineFence
  import opened PipelineLimits
  import opened PipelineBounds
  import opened Finite

  ghost predicate At(c: Config, l: Limits, x: Bounded) { Reachable(c, l, x) && Sizes(c, x.s) }

  lemma AtInv(c: Config, l: Limits, x: Bounded)
    requires At(c, l, x)
    ensures Inv(c, x.s)
  {
    ReachableKeeps(c, l, x);
  }

  lemma AtShape(c: Config, l: Limits, x: Bounded)
    requires At(c, l, x)
    ensures Shape(c, x.s)
  {
    AtInv(c, l, x);
  }

  lemma MoveReaches(c: Config, l: Limits, x: Bounded, m: Move, y: Bounded)
    requires At(c, l, x) && Moves(c, l, x, m, y)
    ensures At(c, l, y)
  {
    var states, moves :| Reached(c, l, states, moves, x);
    var states', moves' := states + [y], moves + [m];
    forall i: nat ensures MoveAt(c, l, states', moves', i) { assert MoveAt(c, l, states, moves, i); }
    assert Reached(c, l, states', moves', y);
    ReachableKeeps(c, l, y);
  }

  lemma StepReaches(c: Config, l: Limits, x: Bounded, a: Step)
    requires At(c, l, x) && Shape(c, x.s) && Enabled(c, x.s, a) && Within(c, l, x, a)
    ensures At(c, l, Bounded(Pipeline.Apply(c, x.s, a), NextBook(c, x, a)))
  {
    MoveReaches(c, l, x, Do(a), Bounded(Pipeline.Apply(c, x.s, a), NextBook(c, x, a)));
  }

  // ---------------------------------------------------------------- the empty store

  /** An empty store with this many pages and one reader. */
  function Fresh(c: Config, pages: nat): Bounded
  {
    Bounded(State(0, map[], seq(pages, _ => EMPTY_BLOCK), seq(c.workers, _ => Idle), [], [], None, false,
                  seq(c.workers, _ => None), map[], map[], None, None, [NoRead], Running, FreshDrain(c), 0, [], []),
            FreshBook(c, pages))
  }

  lemma FreshAt(c: Config, l: Limits, pages: nat)
    requires c.workers >= 1 && c.interval > 0
    ensures At(c, l, Fresh(c, pages))
  {
    var x := Fresh(c, pages);
    assert Reached(c, l, [x], [], x);
    ReachableKeeps(c, l, x);
  }

  // ---------------------------------------------------------------- room

  lemma FileRoom(c: Config, s: State)
    requires c.workers >= 1
    requires forall b :: 0 <= b < |s.blocks| ==> !s.blocks[b].owner.InFileChan?
    requires forall w :: 0 <= w < |s.drain.wtok| ==> !s.drain.wtok[w].WSent?
    ensures RoomFile(c, s)
  {
    SumZero(s.blocks, InFile1);
    SumZero(s.drain.wtok, WSent1);
  }

  lemma ClearRoom(c: Config, s: State, j: nat)
    requires c.workers >= 1 && (j < |s.drain.ctok| ==> !s.drain.ctok[j].CSent?)
    requires forall b :: 0 <= b < |s.blocks| ==> !(s.blocks[b].owner.InClearChan? && s.blocks[b].owner.j == j)
    ensures RoomClear(c, s, j)
  {
    SumZero(s.blocks, InClear1(j));
  }

  lemma TocRoom(c: Config, s: State)
    requires c.workers >= 1 && s.tocChan == map[] && forall j :: 0 <= j < |s.drain.ctok| ==> !s.drain.ctok[j].CPassed?
    ensures RoomToc(c, s)
  {
    SumZero(s.drain.ctok, CPassed1);
  }

  lemma TocBlockRoom(c: Config, s: State)
    requires c.workers >= 1 && s.tocChan == map[] && |s.tbs| == c.workers
    ensures TocBlockFree(c, s)
  {
    SumOfOnes(s.tbs, Tb1);
  }

  // ---------------------------------------------------------------- one write

  function Asks(x: Bounded, a: Ask): Bounded
    requires 0 < |x.book.ask|
  {
    x.(book := x.book.(ask := x.book.ask[0 := a]))
  }

  /** memWriter 0 receives a request that needs a page. */
  lemma RequestRun(c: Config, l: Limits, x: Bounded)
    requires At(c, l, x) && RequestGuard(c, l, x, 0)
    ensures At(c, l, Asks(x, Wants))
  {
    AtShape(c, l, x);
    MoveReaches(c, l, x, Request(0), Asks(x, Wants));
  }

  /** memWriter 0 waits for a page, page b is free, and the map will take this write. */
  ghost predicate Ready(c: Config, l: Limits, x: Bounded, b: nat, req: Req)
  {
    var s := x.s;
    && Sizes(c, s) && s.mode.Running? && b < |s.blocks| && s.blocks[b] == EMPTY_BLOCK && s.writers[0] == Idle
    && !WriterHas(s, 0) && (forall r :: 0 <= r < |s.readers| ==> !s.readers[r].Holding?)
    && TsOf(s.loc, req.key) < req.ts && !Rewrite(req.ts) && c.minAlloc <= |req.val| <= l.valueCap && Sane(c, l)
    && InHand(x, 0, Wants)
  }

  /** The page with the value copied. */
  function Copying(x: Bounded, b: nat, req: Req, pc: Pc): Bounded
    requires b < |x.s.blocks| && 0 < |x.s.writers| && 0 < |x.book.ask|
  {
    var s := x.s;
    Asks(x.(s := s.(blocks := s.blocks[b := Block(AtWriter(0), [], req.val, 0, 0)], writers := s.writers[0 := pc])),
         Rest)
  }

  /** The page with its one record, with the memWriter. */
  function Written(x: Bounded, b: nat, req: Req): Bounded
    requires b < |x.s.blocks| && 0 < |x.book.ask|
  {
    var s, n := x.s, |x.s.log|;
    Asks(x.(s := s.(loc := s.loc[req.key := Loc(req.ts, Mem(b), 0, |req.val|, n)],
                    blocks := s.blocks[b := Block(AtWriter(0), [Rec(req.key, req.ts, 0, |req.val|, n)], req.val, 0, 0)],
                    log := s.log + [Taken(req.key, req.ts, req.val, false)],
                    place := s.place + [InMem(b, 0)])), Rest)
  }

  /** After the map took the key. */
  function Mapped(x: Bounded, b: nat, req: Req): Bounded
    requires b < |x.s.blocks| && 0 < |x.s.writers| && 0 < |x.book.ask|
  {
    var s, n := x.s, |x.s.log|;
    Asks(x.(s := s.(loc := s.loc[req.key := Loc(req.ts, Mem(b), 0, |req.val|, n)],
                    blocks := s.blocks[b := Block(AtWriter(0), [], req.val, 0, 0)],
                    writers := s.writers[0 := Placed(b, req, 0, TsOf(s.loc, req.key), n)],
                    log := s.log + [Taken(req.key, req.ts, req.val, false)],
                    place := s.place + [InFlight(0)])), Rest)
  }

  function Holding(x: Bounded, b: nat): Bounded
    requires b < |x.s.blocks| && 0 < |x.book.ask|
  {
    Asks(x.(s := SetOwner(x.s, b, AtWriter(0))), Got)
  }

  lemma TakeRun(c: Config, l: Limits, x: Bounded, b: nat, req: Req)
    requires At(c, l, x) && Ready(c, l, x, b, req)
    ensures At(c, l, Holding(x, b))
  {
    AtShape(c, l, x);
    StepReaches(c, l, x, TakeFree(0, b));
  }

  lemma ExtendRun(c: Config, l: Limits, x: Bounded, b: nat, req: Req)
    requires Ready(c, l, x, b, req) && At(c, l, Holding(x, b))
    ensures At(c, l, Copying(x, b, req, Extended(b, req, 0)))
  {
    var y := Holding(x, b);
    AtShape(c, l, y);
    StepReaches(c, l, y, Extend(0, b, req, req.val));
    assert [] + req.val == req.val;
    var z := Copying(x, b, req, Extended(b, req, 0));
    assert ApplyExtend(y.s, 0, b, req, req.val).blocks == z.s.blocks;
    assert ApplyExtend(y.s, 0, b, req, req.val) == z.s;
    assert NextBook(c, y, Extend(0, b, req, req.val)) == z.book;
  }

  lemma CopyIs(c: Config, x: Bounded, b: nat, req: Req)
    requires b < |x.s.blocks| && 0 < |x.s.writers| && 0 < |x.book.ask|
    ensures ApplyCopy(Copying(x, b, req, Extended(b, req, 0)).s, 0) == Copying(x, b, req, Copied(b, req, 0)).s
  {
    var y, z := Copying(x, b, req, Extended(b, req, 0)).s, Copying(x, b, req, Copied(b, req, 0)).s;
    var was := y.blocks[b].values;
    assert was[..0] + req.val + Zeros(|was| - 0 - |req.val|) == req.val;
    assert ApplyCopy(y, 0).blocks == z.blocks;
    assert ApplyCopy(y, 0).writers == z.writers;
  }

  lemma CopyRun(c: Config, l: Limits, x: Bounded, b: nat, req: Req)
    requires Ready(c, l, x, b, req) && At(c, l, Copying(x, b, req, Extended(b, req, 0)))
    ensures At(c, l, Copying(x, b, req, Copied(b, req, 0)))
  {
    var y := Copying(x, b, req, Extended(b, req, 0));
    AtShape(c, l, y);
    StepReaches(c, l, y, Copy(0));
    CopyIs(c, x, b, req);
  }

  lemma MapIs(x: Bounded, b: nat, req: Req)
    requires b < |x.s.blocks| && 0 < |x.s.writers| && 0 < |x.book.ask|
    requires TsOf(x.s.loc, req.key) < req.ts && !Rewrite(req.ts)
    ensures ApplyPlace(Copying(x, b, req, Copied(b, req, 0)).s, 0) == Mapped(x, b, req).s
  {
    assert Stored(req.ts) == req.ts;
    assert ApplyPlace(Copying(x, b, req, Copied(b, req, 0)).s, 0).writers == Mapped(x, b, req).s.writers;
  }

  lemma MapRun(c: Config, l: Limits, x: Bounded, b: nat, req: Req)
    requires Ready(c, l, x, b, req) && At(c, l, Copying(x, b, req, Copied(b, req, 0)))
    ensures At(c, l, Mapped(x, b, req))
  {
    var y := Copying(x, b, req, Copied(b, req, 0));
    AtShape(c, l, y);
    StepReaches(c, l, y, PlaceInMap(0));
    MapIs(x, b, req);
  }

  lemma RecordIs(x: Bounded, b: nat, req: Req)
    requires b < |x.s.blocks| && 0 < |x.s.writers| && 0 < |x.book.ask| && x.s.writers[0] == Idle && !Rewrite(req.ts)
    requires |x.s.place| == |x.s.log|
    ensures ApplyRecord(Mapped(x, b, req).s, 0) == Written(x, b, req).s
  {
    var t, u := ApplyRecord(Mapped(x, b, req).s, 0), Written(x, b, req).s;
    assert Stored(req.ts) == req.ts && [] + u.blocks[b].recs == u.blocks[b].recs;
    assert t.blocks == u.blocks;
    assert t.writers == u.writers;
    assert t.place == u.place;
  }

  lemma RecordRun(c: Config, l: Limits, x: Bounded, b: nat, req: Req)
    requires Ready(c, l, x, b, req) && At(c, l, Mapped(x, b, req))
    ensures At(c, l, Written(x, b, req))
  {
    var y := Mapped(x, b, req);
    AtShape(c, l, y);
    StepReaches(c, l, y, Record(0));
    RecordIs(x, b, req);
  }

  /** From the request to the recorded write. */
  lemma WriteRun(c: Config, l: Limits, x: Bounded, b: nat, req: Req)
    requires At(c, l, x) && Ready(c, l, x, b, req)
    ensures At(c, l, Written(x, b, req))
  {
    TakeRun(c, l, x, b, req);
    ExtendRun(c, l, x, b, req);
    CopyRun(c, l, x, b, req);
    MapRun(c, l, x, b, req);
    RecordRun(c, l, x, b, req);
  }

  // ---------------------------------------------------------------- to the file

  function SealedPage(x: Bounded, b: nat): Bounded
    requires b < |x.s.blocks| && 0 < |x.book.ask| && b < |x.book.filler|
  {
    var k := x.book;
    Bounded(SetOwner(x.s, b, InFileChan(0, x.s.clock)).(clock := x.s.clock + 1),
            k.(filler := k.filler[b := 0], ask := if k.ask[0].Wants? then k.ask else k.ask[0 := Sealed]))
  }

  /** No page is in fileMemBlockChan, and no token. */
  predicate FileChanEmpty(s: State)
  {
    && (forall b :: 0 <= b < |s.blocks| ==> !s.blocks[b].owner.InFileChan?)
    && forall w :: 0 <= w < |s.drain.wtok| ==> !s.drain.wtok[w].WSent?
  }

  lemma SealRun(c: Config, l: Limits, x: Bounded, b: nat)
    requires At(c, l, x) && SealGuard(c, x.s, 0, b) && FileChanEmpty(x.s) && b < |x.book.filler|
    requires InHand(x, 0, Wants) ||
             (InHand(x, 0, Rest) && x.s.mode.Draining? && x.s.drain.wtok[0].WWait? && x.s.blocks[b].recs != [])
    ensures At(c, l, SealedPage(x, b))
  {
    AtShape(c, l, x);
    FileRoom(c, x.s);
    StepReaches(c, l, x, Seal(0, b));
  }

  function Opened(x: Bounded, header: Bytes): Bounded
  {
    Bounded(ApplyOpenFile(x.s, header), x.book.(tocLen := HEADER_SIZE, turn := 0))
  }

  lemma OpenRun(c: Config, l: Limits, x: Bounded, header: Bytes, b: nat)
    requires At(c, l, x) && x.s.open.None? && |header| == HEADER_SIZE && HeadPage(x.s, b)
    ensures At(c, l, Opened(x, header))
  {
    AtShape(c, l, x);
    StepReaches(c, l, x, OpenFile(header));
  }

  function Appended(x: Bounded, b: nat): Bounded
    requires b < |x.s.blocks| && x.s.open.Some? && x.s.open.value < |x.s.files|
  {
    Bounded(ApplyWriteBlock(x.s, b), x.book.(tocLen := x.book.tocLen + ENTRY_SIZE * |x.s.blocks[b].recs|))
  }

  lemma AppendRun(c: Config, l: Limits, x: Bounded, b: nat)
    requires At(c, l, x) && WriteBlockGuard(c, x.s, b) && FitsFile(l, x, b)
    requires |x.s.files[x.s.open.value]| <= x.s.disk[x.s.open.value] + c.workers * c.interval
    ensures At(c, l, Appended(x, b))
  {
    AtShape(c, l, x);
    StepReaches(c, l, x, WriteBlock(b));
  }

  function Disked(x: Bounded, n: nat, closing: bool): Bounded
    requires x.s.open.Some? && x.s.open.value < |x.s.disk|
  {
    x.(s := ApplyDisk(x.s, n, closing))
  }

  lemma BufRun(c: Config, l: Limits, x: Bounded)
    requires At(c, l, x) && WriteBufGuard(c, x.s)
    ensures At(c, l, Disked(x, x.s.disk[x.s.open.value] + c.interval, false))
  {
    AtShape(c, l, x);
    StepReaches(c, l, x, WriteBuf);
  }

  /** Full buffers to disk until there is none. */
  lemma {:induction false} BufsRun(c: Config, l: Limits, x: Bounded) returns (y: Bounded)
    requires At(c, l, x) && x.s.open.Some? && !x.s.closing && x.s.disk[x.s.open.value] <= |x.s.files[x.s.open.value]|
    ensures At(c, l, y) && y.book == x.book
    ensures y.s == x.s.(disk := y.s.disk) && |y.s.disk| == |x.s.disk|
    ensures forall f :: 0 <= f < |x.s.disk| && f != x.s.open.value ==> y.s.disk[f] == x.s.disk[f]
    ensures y.s.disk[x.s.open.value] <= |x.s.files[x.s.open.value]| < y.s.disk[x.s.open.value] + c.interval
    decreases |x.s.files[x.s.open.value]| - x.s.disk[x.s.open.value]
  {
    if WriteBufGuard(c, x.s) {
      BufRun(c, l, x);
      y := BufsRun(c, l, Disked(x, x.s.disk[x.s.open.value] + c.interval, false));
    } else {
      y := x;
    }
  }

  /** closeWriting: the rest to disk, because of a page that does not fit or the last token. */
  lemma TailRun(c: Config, l: Limits, x: Bounded)
    requires At(c, l, x) && CloseTailGuard(c, x.s)
    requires (exists b :: HeadPage(x.s, b) && !FitsFile(l, x, b)) || (exists w :: LastAtHead(x.s, w))
    ensures At(c, l, Disked(x, |x.s.files[x.s.open.value]|, true))
  {
    AtShape(c, l, x);
    StepReaches(c, l, x, CloseTail);
  }

  function Passed(c: Config, x: Bounded, b: nat): Bounded
    requires b < |x.s.blocks|
  {
    var j := x.book.turn;
    Bounded(SetOwner(x.s, b, InClearChan(j, x.s.clock)).(clock := x.s.clock + 1),
            x.book.(turn := if j + 1 < c.workers then j + 1 else 0))
  }

  /** memClearer j has no page waiting. */
  predicate ClearChanEmpty(s: State, j: nat)
  {
    && (j < |s.drain.ctok| ==> !s.drain.ctok[j].CSent?)
    && forall b :: 0 <= b < |s.blocks| ==> !(s.blocks[b].owner.InClearChan? && s.blocks[b].owner.j == j)
  }

  lemma PassRun(c: Config, l: Limits, x: Bounded, b: nat)
    requires At(c, l, x) && ReleaseGuard(c, x.s, b, x.book.turn) && ClearChanEmpty(x.s, x.book.turn)
    ensures At(c, l, Passed(c, x, b))
  {
    AtShape(c, l, x);
    ClearRoom(c, x.s, x.book.turn);
    StepReaches(c, l, x, Release(b, x.book.turn));
  }

  function Closed(x: Bounded): Bounded { x.(s := x.s.(open := None, closing := false)) }

  lemma CloseRun(c: Config, l: Limits, x: Bounded)
    requires At(c, l, x) && CloseFileGuard(c, x.s)
    ensures At(c, l, Closed(x))
  {
    AtShape(c, l, x);
    StepReaches(c, l, x, CloseFile);
  }

  // ---------------------------------------------------------------- through a memClearer

  function HandedOver(x: Bounded, j: nat, b: nat): Bounded
    requires b < |x.s.blocks|
  {
    x.(s := SetOwner(x.s, b, AtClearer(j, 0)))
  }

  /** memClearer j has no page, and page b is the only one in its channel. */
  predicate OnlyFor(s: State, j: nat, b: nat)
  {
    && b < |s.blocks| && s.blocks[b].owner.InClearChan? && s.blocks[b].owner.j == j
    && j < |s.drain.ctok| && (s.drain.ctok[j].CSent? ==> s.blocks[b].owner.t <= s.drain.ctok[j].t)
    && (forall x :: 0 <= x < |s.blocks| && x != b ==> !(s.blocks[x].owner.InClearChan? && s.blocks[x].owner.j == j))
    && forall x :: 0 <= x < |s.blocks| ==> !(s.blocks[x].owner.AtClearer? && s.blocks[x].owner.j == j)
  }

  lemma HandRun(c: Config, l: Limits, x: Bounded, j: nat, b: nat)
    requires At(c, l, x) && j < c.workers && OnlyFor(x.s, j, b)
    ensures At(c, l, HandedOver(x, j, b))
  {
    AtShape(c, l, x);
    StepReaches(c, l, x, ClearTake(j, b));
  }

  /** memClearer j is at the one record of page b, which the map does not know a newer stamp of, and has no TOC
      block. */
  predicate AtOnly(x: Bounded, j: nat, b: nat, r: Rec)
  {
    var s := x.s;
    && b < |s.blocks| && j < |s.tbs| && s.blocks[b].owner == AtClearer(j, 0) && s.blocks[b].recs == [r]
    && s.tbs[j].None? && TsOf(s.loc, r.key) <= r.ts && r.wid < |s.place|
  }

  /** The record has been processed. */
  function Cleared(x: Bounded, j: nat, b: nat, r: Rec): Bounded
    requires b < |x.s.blocks| && j < |x.s.tbs|
  {
    var s, blk := x.s, x.s.blocks[b];
    x.(s := s.(blocks := s.blocks[b := blk.(owner := AtClearer(j, 1))],
               loc := if Removal(r.ts) then s.loc - {r.key} else s.loc[r.key := ClearedLoc(blk, r)],
               tbs := s.tbs[j := Some(TocBlock(blk.file, [ClearedRec(blk, r)]))],
               place := MovedTo(s.place, r.wid, InTb(j, 0))))
  }

  lemma ClearIs(x: Bounded, j: nat, b: nat, r: Rec)
    requires AtOnly(x, j, b, r)
    ensures ApplyClearRec(x.s, b) == Cleared(x, j, b, r).s
  {
    var t, u := ApplyClearRec(x.s, b), Cleared(x, j, b, r).s;
    var q := ClearedRec(x.s.blocks[b], r);
    assert [] + [q] == [q];
    assert t.blocks == u.blocks;
    assert t.tbs == u.tbs && t.loc == u.loc && t.place == u.place;
  }

  lemma RecordClearRun(c: Config, l: Limits, x: Bounded, j: nat, b: nat, r: Rec)
    requires At(c, l, x) && AtOnly(x, j, b, r) && j < c.workers && x.s.tocChan == map[]
    ensures At(c, l, Cleared(x, j, b, r))
  {
    AtShape(c, l, x);
    TocBlockRoom(c, x.s);
    ClearIs(x, j, b, r);
    StepReaches(c, l, x, ClearRec(b));
  }

  function Freed(x: Bounded, b: nat): Bounded
    requires b < |x.s.blocks|
  {
    x.(s := x.s.(blocks := x.s.blocks[b := EMPTY_BLOCK]))
  }

  lemma FreeRun(c: Config, l: Limits, x: Bounded, b: nat)
    requires At(c, l, x) && ClearDoneGuard(c, x.s, b)
    ensures At(c, l, Freed(x, b))
  {
    AtShape(c, l, x);
    StepReaches(c, l, x, ClearDone(b));
  }

  function Sent(x: Bounded, j: nat): Bounded
    requires j < |x.s.tbs| && x.s.tbs[j].Some?
  {
    x.(s := ApplyTbSend(x.s, j))
  }

  lemma SendRun(c: Config, l: Limits, x: Bounded, j: nat)
    requires At(c, l, x) && TbSendGuard(c, x.s, j) && SendsTb(l, x.s, j) && x.s.tocChan == map[]
    requires forall i :: 0 <= i < |x.s.drain.ctok| ==> !x.s.drain.ctok[i].CPassed?
    ensures At(c, l, Sent(x, j))
  {
    AtShape(c, l, x);
    TocRoom(c, x.s);
    StepReaches(c, l, x, TbSend(j));
  }

  function TookToc(x: Bounded, t: nat): Bounded
    requires t in x.s.tocChan
    requires (x.s.tocA.Some? ==> x.s.tocA.value in x.s.tocs) && (x.s.tocB.Some? ==> x.s.tocB.value in x.s.tocs)
  {
    x.(s := ApplyTocTake(x.s, t))
  }

  lemma TookRun(c: Config, l: Limits, x: Bounded, t: nat)
    requires At(c, l, x) && TocTakeGuard(c, x.s, t)
    ensures At(c, l, TookToc(x, t))
  {
    AtShape(c, l, x);
    StepReaches(c, l, x, TocTake(t));
  }

  // ---------------------------------------------------------------- tokens

  function Draining0(c: Config, x: Bounded, down: bool): Bounded
  {
    x.(s := x.s.(mode := Draining(down, |x.s.log|), drain := FreshDrain(c)))
  }

  lemma StartRun(c: Config, l: Limits, x: Bounded, down: bool)
    requires At(c, l, x) && x.s.mode.Running?
    ensures At(c, l, Draining0(c, x, down))
  {
    AtShape(c, l, x);
    StepReaches(c, l, x, StartDrain(down));
  }

  function TokenSent(x: Bounded, w: nat): Bounded
    requires w < |x.s.drain.wtok| && w < |x.book.ask|
  {
    var d := x.s.drain;
    Bounded(x.s.(drain := d.(wtok := d.wtok[w := WSent(x.s.clock)]), clock := x.s.clock + 1),
            x.book.(ask := x.book.ask[w := Rest]))
  }

  lemma WriterTokenRun(c: Config, l: Limits, x: Bounded, w: nat)
    requires At(c, l, x) && WriterTokenGuard(c, x.s, w) && FileChanEmpty(x.s)
             && (InHand(x, w, Rest) || InHand(x, w, Sealed))
    ensures At(c, l, TokenSent(x, w))
  {
    AtShape(c, l, x);
    FileRoom(c, x.s);
    StepReaches(c, l, x, WriterToken(w));
  }

  function TokenIn(c: Config, x: Bounded, w: nat): Bounded
    requires w < |x.s.drain.wtok|
  {
    x.(s := ApplyFileToken(c, x.s, w))
  }

  lemma FileTokenRun(c: Config, l: Limits, x: Bounded, w: nat)
    requires At(c, l, x) && FileTokenGuard(c, x.s, w)
    requires x.s.drain.wleft == 1 ==> forall j: nat :: j < c.workers ==> ClearChanEmpty(x.s, j)
    ensures At(c, l, TokenIn(c, x, w))
  {
    AtShape(c, l, x);
    if x.s.drain.wleft == 1 {
      forall j: nat | j < c.workers ensures RoomClear(c, x.s, j) {
        assert ClearChanEmpty(x.s, j);
        ClearRoom(c, x.s, j);
      }
    }
    StepReaches(c, l, x, FileToken(w));
  }

  function TokenPassed(x: Bounded, j: nat): Bounded
    requires j < |x.s.drain.ctok|
  {
    var d := x.s.drain;
    x.(s := x.s.(drain := d.(ctok := d.ctok[j := CPassed(x.s.clock)]), clock := x.s.clock + 1))
  }

  lemma ClearTokenRun(c: Config, l: Limits, x: Bounded, j: nat)
    requires At(c, l, x) && ClearTokenGuard(c, x.s, j) && x.s.tocChan == map[]
    requires forall i :: 0 <= i < |x.s.drain.ctok| ==> !x.s.drain.ctok[i].CPassed?
    ensures At(c, l, TokenPassed(x, j))
  {
    AtShape(c, l, x);
    TocRoom(c, x.s);
    StepReaches(c, l, x, ClearToken(j));
  }

  function TokenDone(c: Config, x: Bounded, j: nat): Bounded
    requires j < |x.s.drain.ctok|
  {
    x.(s := ApplyTocToken(c, x.s, j))
  }

  lemma TocTokenRun(c: Config, l: Limits, x: Bounded, j: nat)
    requires At(c, l, x) && TocTokenGuard(c, x.s, j)
    ensures At(c, l, TokenDone(c, x, j))
  {
    AtShape(c, l, x);
    StepReaches(c, l, x, TocToken(j));
  }
}
