/** Why full pages must hold a buffer's worth of bytes: in a configuration that the source accepts they do not, and
    a run under the limits ends with both pages of the only worker held back by the open file's current buffer. The
    memWriter waits for a free page with a request in hand, so no flush or shutdown can ever complete. */
module PipelineJam {
  import opened Base
  import opened Stamp
  import opened LocMap
  import opened Pipeline
  import opened PipelineDisk
  import opened PipelineRuns
  import opened PipelineFrames
  import opened PipelineLimits
  import opened PipelineBounds
  import opened PipelinePaths
  import opened PipelineExamples
  import opened Finite
  import Framing

  const CONF: Config := Config(1, 17, 32)
  const LIMITS: Limits := Limits(49, 17, 1000)

  /** One worker, a checksum interval of 32 and values of at most 17 bytes: the page size is their sum, it holds one
      entry, and the smallest allocation is derived from both as the source derives it. A full page is then shorter
      than a buffer. */
  lemma SourceAccepts()
    ensures Sane(CONF, LIMITS) && LIMITS.page == LIMITS.valueCap + CONF.interval
    ensures CONF.minAlloc == CONF.interval / (LIMITS.page / ENTRY_SIZE + 1) + 1
    ensures !Generous(CONF, LIMITS)
  {
  }

  /** Both pages are held back, and memWriter 0 waits for one. */
  ghost predicate Jam(c: Config, x: Bounded)
  {
    var s := x.s;
    && c.workers == 1 && c.interval > 0 && |s.blocks| == 2 && s.writers == [Idle] && x.book.ask == [Wants]
    && s.open == Some(0) && !s.closing && |s.files| == |s.disk| == 1 && |s.files[0]| < s.disk[0] + c.interval
    && (forall b :: 0 <= b < 2 ==> s.blocks[b].owner.HeldByFile? && !Releasable(c, s.disk, s.blocks[b]))
    && |s.tbs| == 1 && s.tocChan == map[] && s.drain == FreshDrain(c) && !s.mode.Stopped?
  }

  // ---------------------------------------------------------------- nothing moves any more

  lemma NoWriterStep(c: Config, l: Limits, x: Bounded, a: Step)
    requires Sizes(c, x.s) && Jam(c, x) && Enabled(c, x.s, a) && Within(c, l, x, a)
    ensures !WriterStep(a)
  {
  }

  lemma NoFileStep(c: Config, l: Limits, x: Bounded, a: Step)
    requires Sizes(c, x.s) && Jam(c, x) && Enabled(c, x.s, a) && Within(c, l, x, a)
    ensures !FileStep(a)
  {
  }

  lemma NoClearStep(c: Config, l: Limits, x: Bounded, a: Step)
    requires Sizes(c, x.s) && Jam(c, x) && Enabled(c, x.s, a) && Within(c, l, x, a)
    ensures !ClearStep(a)
  {
  }

  lemma NoToken(c: Config, l: Limits, x: Bounded, a: Step)
    requires Sizes(c, x.s) && Jam(c, x) && Enabled(c, x.s, a) && Within(c, l, x, a)
    ensures !a.WriterToken? && !a.FileToken? && !a.ClearToken? && !a.TocToken? && !a.Restart?
  {
  }

  /** Only readers can move, and a flush or shutdown can start. */
  lemma JamStays(c: Config, l: Limits, x: Bounded, m: Move, y: Bounded)
    requires Jam(c, x) && Moves(c, l, x, m, y)
    ensures Jam(c, y) && (x.s.mode.Draining? ==> y.s.mode == x.s.mode)
  {
    if m.Do? {
      NoWriterStep(c, l, x, m.a);
      NoFileStep(c, l, x, m.a);
      NoClearStep(c, l, x, m.a);
      NoToken(c, l, x, m.a);
      if ReaderStep(m.a) { ReaderControl(c, x.s, m.a); }
    }
  }

  /** So no moves at all bring a flush or shutdown to its end. */
  lemma {:induction false} JamForever(c: Config, l: Limits, x: Bounded, moves: seq<Move>, y: Bounded)
    requires Jam(c, x) && Path(NextMove(c, l), x, moves, y)
    ensures Jam(c, y) && (x.s.mode.Draining? ==> y.s.mode == x.s.mode)
    decreases |moves|
  {
    if moves != [] {
      var m :| NextMove(c, l)(x, moves[0], m) && Path(NextMove(c, l), m, moves[1..], y);
      JamStays(c, l, x, moves[0], m);
      JamForever(c, l, m, moves[1..], y);
    }
  }

  // ---------------------------------------------------------------- the run

  /** A value of 17 bytes. */
  predicate Seventeen(req: Req) { req.ts > 0 && !Rewrite(req.ts) && !Removal(req.ts) && |req.val| == 17 }

  function Held(r: Req, n: nat, foff: nat): Block { Block(HeldByFile, [RecOf(r, n)], r.val, 0, foff) }

  /** What stays the same throughout. */
  ghost predicate Waiting1(x: Bounded, n: nat)
  {
    var s := x.s;
    && s.mode.Running? && s.writers == [Idle] && s.readers == [NoRead] && |s.blocks| == 2 && |x.book.filler| == 2
    && s.drain == FreshDrain(CONF) && s.tocChan == map[] && |s.tbs| == 1 && x.book.ask == [Wants] && x.book.turn == 0
    && |s.log| == |s.place| == n && |s.files| == |s.disk| == 1 && s.open == Some(0) && !s.closing
  }

  /** The first page in the file. */
  lemma JamFirst(a: Req, header: Bytes) returns (x: Bounded)
    requires Seventeen(a) && |header| == HEADER_SIZE
    ensures At(CONF, LIMITS, x) && Waiting1(x, 1) && x.s.blocks == [Held(a, 0, 32), EMPTY_BLOCK]
    ensures x.s.files == [header + a.val] && x.s.disk == [32] && x.s.tbs == [None] && x.s.loc.Keys == {a.key}
    ensures x.s.loc[a.key].ts == a.ts && x.book.tocLen == 64
  {
    var x0 := Fresh(CONF, 2);
    FreshAt(CONF, LIMITS, 2);
    RequestRun(CONF, LIMITS, x0);
    var x1 := Asks(x0, Wants);
    FullSealRun(CONF, LIMITS, x1, 0, a);
    var x2 := FullSealed(x1, 0, a);
    NewFileRun(CONF, LIMITS, x2, header, 0);
    var x3 := Appended(Opened(x2, header), 0);
    BufRun(CONF, LIMITS, x3);
    x := Disked(x3, 32, false);
    assert x.s.blocks == [Held(a, 0, 32), EMPTY_BLOCK] && x.s.files == [header + a.val];
  }

  /** The second after it, and a full buffer written. */
  lemma JamSecond(a: Req, b: Req, header: Bytes, x: Bounded) returns (y: Bounded)
    requires At(CONF, LIMITS, x) && Waiting1(x, 1) && x.s.blocks == [Held(a, 0, 32), EMPTY_BLOCK]
    requires Seventeen(a) && Seventeen(b) && a.key != b.key && |header| == HEADER_SIZE
    requires x.s.files == [header + a.val] && x.s.disk == [32] && x.s.tbs == [None] && x.s.loc.Keys == {a.key}
    requires x.s.loc[a.key].ts == a.ts && x.book.tocLen == 64
    ensures At(CONF, LIMITS, y) && Waiting1(y, 2) && y.s.blocks == [Held(a, 0, 32), Held(b, 1, 49)]
    ensures y.s.files == [header + a.val + b.val] && y.s.disk == [64] && y.s.tbs == [None] && y.book.tocLen == 96
    ensures y.s.loc.Keys == {a.key, b.key} && y.s.loc[a.key].ts == a.ts
  {
    FullSealRun(CONF, LIMITS, x, 1, b);
    var x2 := FullSealed(x, 1, b);
    AppendRun(CONF, LIMITS, x2, 1);
    var x3 := Appended(x2, 1);
    assert x3.s.files == [header + a.val + b.val];
    BufRun(CONF, LIMITS, x3);
    y := Disked(x3, 64, false);
    assert y.s.blocks == [Held(a, 0, 32), Held(b, 1, 49)];
  }

  /** The first released, and free again. */
  lemma JamFree(a: Req, b: Req, header: Bytes, x: Bounded) returns (y: Bounded)
    requires At(CONF, LIMITS, x) && Waiting1(x, 2) && x.s.blocks == [Held(a, 0, 32), Held(b, 1, 49)]
    requires Seventeen(a) && Seventeen(b) && |header| == HEADER_SIZE && x.s.tbs == [None]
    requires x.s.files == [header + a.val + b.val] && x.s.disk == [64] && a.key in x.s.loc && x.s.loc[a.key].ts == a.ts
    ensures At(CONF, LIMITS, y) && Waiting1(y, 2) && y.s.blocks == [EMPTY_BLOCK, Held(b, 1, 49)]
    ensures y.s.files == x.s.files && y.s.disk == x.s.disk && y.book.tocLen == x.book.tocLen
            && y.s.loc.Keys == x.s.loc.Keys
  {
    PassRun(CONF, LIMITS, x, 0);
    var x1 := Passed(CONF, x, 0);
    y := HandAndClear(CONF, LIMITS, x1, 0, 0, RecOf(a, 0));
    assert y.s.blocks == [EMPTY_BLOCK, Held(b, 1, 49)];
  }

  /** The third write goes there and ends in the same buffer as the second. */
  lemma JamThird(b: Req, d: Req, header: Bytes, body: Bytes, x: Bounded) returns (y: Bounded)
    requires At(CONF, LIMITS, x) && Waiting1(x, 2) && x.s.blocks == [EMPTY_BLOCK, Held(b, 1, 49)]
    requires Seventeen(b) && Seventeen(d) && d.key !in x.s.loc && |header| == HEADER_SIZE && |body| == 34
    requires x.s.files == [header + body] && x.s.disk == [64] && x.book.tocLen == 96
    ensures At(CONF, LIMITS, y) && Jam(CONF, y) && y.s.mode.Running?
  {
    FullSealRun(CONF, LIMITS, x, 0, d);
    var x2 := FullSealed(x, 0, d);
    AppendRun(CONF, LIMITS, x2, 0);
    y := Appended(x2, 0);
    assert y.s.blocks == [Held(d, 2, 66), Held(b, 1, 49)];
    assert |y.s.files[0]| == 83 && y.s.disk[0] == 64;
    Framing.DivUnique(83, 32, 2, 19);
    Framing.DivUnique(66, 32, 2, 2);
  }

  /** Three writes and one more request: from then on nothing but readers moves, and a flush that starts never ends. */
  lemma JamHappens(a: Req, b: Req, d: Req, header: Bytes) returns (x: Bounded)
    requires Seventeen(a) && Seventeen(b) && Seventeen(d) && |header| == HEADER_SIZE
    requires a.key != b.key && a.key != d.key && b.key != d.key
    ensures Reachable(CONF, LIMITS, x) && |x.s.blocks| == 2 * CONF.workers && x.s.mode.Running?
    ensures forall moves, y :: Path(NextMove(CONF, LIMITS), x, moves, y) ==> Jam(CONF, y)
  {
    var x1 := JamFirst(a, header);
    var x2 := JamSecond(a, b, header, x1);
    var x3 := JamFree(a, b, header, x2);
    assert header + a.val + b.val == header + (a.val + b.val);
    x := JamThird(b, d, header, a.val + b.val, x3);
    forall moves, y | Path(NextMove(CONF, LIMITS), x, moves, y) ensures Jam(CONF, y) {
      JamForever(CONF, LIMITS, x, moves, y);
    }
  }
}
