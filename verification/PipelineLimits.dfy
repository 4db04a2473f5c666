/** The pipeline under the source's own limits: when a page is full, when a value or TOC file is changed, when a TOC
    block is sent, how much each channel holds, and who waits for a free page. Module Pipeline lets these steps
    happen at any time; here a step waits until the source would take it. */
module PipelineLimits {
  import opened Base
  import opened Stamp
  import opened LocMap
  import opened Pipeline
  import opened PipelineWriters
  import opened PipelineDisk
  import opened PipelineRuns
  import opened PipelineFrames
  import opened PipelineFence
  import opened Finite

  const ENTRY_SIZE: nat := 32
  const LEADER_SIZE: nat := 8

  datatype Limits = Limits(page: nat, valueCap: nat, fileCap: nat)

  /** What a memWriter is about to do: nothing, wait for a free page, write its request into the page it got, or
      send its token after the page it has just sealed for it. */
  datatype Ask = Rest | Wants | Got | Sealed

  /** What the goroutines remember beside the pipeline's state: fileWriter's tocLen, the memClearer whose turn it
      is, what each memWriter is about to do, and which memWriter filled a page. */
  datatype Book = Book(tocLen: nat, turn: nat, ask: seq<Ask>, filler: seq<nat>)

  datatype Bounded = Bounded(s: State, book: Book)

  /** A memWriter receives a request that needs a new page; or a step of the pipeline. */
  datatype Move = Request(w: nat) | Do(a: Step)

  // ---------------------------------------------------------------- limits

  function MaxAlloc(c: Config, l: Limits): nat { Max(l.valueCap, c.minAlloc) }

  /** The smallest configuration the source accepts. */
  predicate Sane(c: Config, l: Limits)
  {
    c.workers >= 1 && c.interval >= HEADER_SIZE && l.page >= LEADER_SIZE + ENTRY_SIZE && l.page >= MaxAlloc(c, l)
  }

  /** Some request does not fit the page. */
  predicate Full(c: Config, l: Limits, blk: Block)
  {
    ENTRY_SIZE * (|blk.recs| + 1) > l.page || |blk.values| + MaxAlloc(c, l) > l.page
  }

  predicate FitsPage(c: Config, l: Limits, blk: Block, req: Req)
  {
    && |req.val| <= l.valueCap && ENTRY_SIZE * (|blk.recs| + 1) <= l.page
    && |blk.values| + Alloc(c, |req.val|) <= l.page
  }

  predicate TbFull(l: Limits, tb: TocBlock) { LEADER_SIZE + ENTRY_SIZE * (|tb.recs| + 1) > l.page }

  /** The page goes to the open file: it fits, or the file is new. */
  predicate FitsFile(l: Limits, x: Bounded, b: nat)
    requires b < |x.s.blocks| && x.s.open.Some? && x.s.open.value < |x.s.files|
  {
    var blk := x.s.blocks[b];
    || x.book.tocLen == HEADER_SIZE
    || (x.book.tocLen + ENTRY_SIZE * |blk.recs| < l.fileCap &&
        |x.s.files[x.s.open.value]| + |blk.values| <= l.fileCap)
  }

  // ---------------------------------------------------------------- channels

  function InFile1(b: Block): nat { if b.owner.InFileChan? then 1 else 0 }

  function WSent1(t: WTok): nat { if t.WSent? then 1 else 0 }

  function CPassed1(t: CTok): nat { if t.CPassed? then 1 else 0 }

  function Tb1(tb: Option<TocBlock>): nat { if tb.Some? then 1 else 0 }

  function InClear1(j: nat): Block -> nat { (b: Block) => if b.owner.InClearChan? && b.owner.j == j then 1 else 0 }

  /** fileMemBlockChan can take one more. */
  predicate RoomFile(c: Config, s: State) { Sum(s.blocks, InFile1) + Sum(s.drain.wtok, WSent1) < c.workers }

  predicate RoomClear(c: Config, s: State, j: nat)
  {
    Sum(s.blocks, InClear1(j)) + (if j < |s.drain.ctok| && s.drain.ctok[j].CSent? then 1 else 0) < c.workers
  }

  predicate RoomToc(c: Config, s: State) { |s.tocChan| + Sum(s.drain.ctok, CPassed1) < c.workers }

  /** There are two TOC blocks per worker. */
  predicate TocBlockFree(c: Config, s: State) { |s.tocChan| + Sum(s.tbs, Tb1) < 2 * c.workers }

  // ---------------------------------------------------------------- when a step may be taken

  /** The page at the head of fileMemBlockChan. */
  predicate HeadPage(s: State, b: nat)
  {
    b < |s.blocks| && s.blocks[b].owner.InFileChan? && HeadOfFileChan(s, s.blocks[b].owner.t)
  }

  /** The last memWriter's token is at its head. */
  predicate LastAtHead(s: State, w: nat)
  {
    w < |s.drain.wtok| && s.drain.wtok[w].WSent? && HeadOfFileChan(s, s.drain.wtok[w].t) && s.drain.wleft == 1
  }

  /** memClearer j has a page of another file than its TOC block, or a record more than that holds; or it has its
      token in hand. */
  predicate SendsTb(l: Limits, s: State, j: nat)
    requires j < |s.tbs| && s.tbs[j].Some? && j < |s.drain.ctok|
  {
    || (exists b :: 0 <= b < |s.blocks| && HasPage(s, j, b) && s.blocks[b].file != s.tbs[j].value.file)
    || (TbFull(l, s.tbs[j].value) && exists b :: 0 <= b < |s.blocks| && AtRecord(s, j, b))
    || (s.drain.ctok[j].CSent? && HeadOfClearChan(s, j, s.drain.ctok[j].t) && !ClearerHas(s, j))
  }

  predicate HasPage(s: State, j: nat, b: nat)
    requires b < |s.blocks|
  {
    s.blocks[b].owner.AtClearer? && s.blocks[b].owner.j == j
  }

  predicate AtRecord(s: State, j: nat, b: nat)
    requires b < |s.blocks|
  {
    HasPage(s, j, b) && s.blocks[b].owner.pos < |s.blocks[b].recs|
  }

  predicate InHand(x: Bounded, w: nat, a: Ask) { w < |x.book.ask| && x.book.ask[w] == a }

  ghost predicate Within(c: Config, l: Limits, x: Bounded, a: Step)
    requires Sizes(c, x.s) && Enabled(c, x.s, a)
  {
    var s := x.s;
    match a
    case TakeFree(w, b) => InHand(x, w, Wants)
    case Extend(w, b, req, junk) => FitsPage(c, l, s.blocks[b], req) && (InHand(x, w, Rest) || InHand(x, w, Got))
    case Seal(w, b) =>
      && RoomFile(c, s)
      && (InHand(x, w, Wants) ||
          (InHand(x, w, Rest) && s.mode.Draining? && s.drain.wtok[w].WWait? && s.blocks[b].recs != []))
    case WriterToken(w) => RoomFile(c, s) && (InHand(x, w, Rest) || InHand(x, w, Sealed))
    case OpenFile(_) => exists b :: HeadPage(s, b)
    case WriteBlock(b) =>
      && |s.files[s.open.value]| <= s.disk[s.open.value] + c.workers * c.interval
      && FitsFile(l, x, b)
    case CloseTail => (exists b :: HeadPage(s, b) && !FitsFile(l, x, b)) || (exists w :: LastAtHead(s, w))
    case Release(b, j) => RoomClear(c, s, j) && j == x.book.turn
    case FileToken(w) => s.drain.wleft == 1 ==> forall j: nat :: j < c.workers ==> RoomClear(c, s, j)
    case TbSend(j) => RoomToc(c, s) && SendsTb(l, s, j)
    case ClearRec(b) =>
      var j, r := s.blocks[b].owner.j, s.blocks[b].recs[s.blocks[b].owner.pos];
      TsOf(s.loc, r.key) <= r.ts ==> if s.tbs[j].Some? then !TbFull(l, s.tbs[j].value) else TocBlockFree(c, s)
    case ClearToken(_) => RoomToc(c, s)
    case _ => true
  }

  function NextBook(c: Config, x: Bounded, a: Step): Book
  {
    var k := x.book;
    match a
    case TakeFree(w, _) => if w < |k.ask| then k.(ask := k.ask[w := Got]) else k
    case Extend(w, _, _, _) => if w < |k.ask| then k.(ask := k.ask[w := Rest]) else k
    case Seal(w, b) =>
      if w < |k.ask| && b < |k.filler| then
        k.(filler := k.filler[b := w], ask := if k.ask[w].Wants? then k.ask else k.ask[w := Sealed])
      else k
    case WriterToken(w) => if w < |k.ask| then k.(ask := k.ask[w := Rest]) else k
    case OpenFile(_) => k.(tocLen := HEADER_SIZE, turn := 0)
    case WriteBlock(b) => if b < |x.s.blocks| then k.(tocLen := k.tocLen + ENTRY_SIZE * |x.s.blocks[b].recs|) else k
    case Release(_, _) => k.(turn := if k.turn + 1 < c.workers then k.turn + 1 else 0)
    case Restart => FreshBook(c, |x.s.blocks|)
    case _ => k
  }

  function FreshBook(c: Config, pages: nat): Book
  {
    Book(HEADER_SIZE, 0, seq(c.workers, _ => Rest), seq(pages, _ => 0))
  }

  /** A request that needs a page: the memWriter has none, or the one it has is full. */
  ghost predicate RequestGuard(c: Config, l: Limits, x: Bounded, w: nat)
    requires Sizes(c, x.s)
  {
    && w < c.workers && InHand(x, w, Rest) && x.s.writers[w].Idle? && MayWrite(x.s.mode, x.s.drain, w)
    && forall b :: 0 <= b < |x.s.blocks| && x.s.blocks[b].owner == AtWriter(w) ==> Full(c, l, x.s.blocks[b])
  }

  ghost predicate Moves(c: Config, l: Limits, x: Bounded, m: Move, y: Bounded)
  {
    Shape(c, x.s) &&
    match m
    case Request(w) => RequestGuard(c, l, x, w) && y == x.(book := x.book.(ask := x.book.ask[w := Wants]))
    case Do(a) =>
      Enabled(c, x.s, a) && Within(c, l, x, a) && y == Bounded(Pipeline.Apply(c, x.s, a), NextBook(c, x, a))
  }

  ghost function NextMove(c: Config, l: Limits): (Bounded, Move, Bounded) -> bool
  {
    (x, m, y) => Moves(c, l, x, m, y)
  }

  ghost predicate Begins(c: Config, x: Bounded) { Init(c, x.s) && x.book == FreshBook(c, |x.s.blocks|) }

  ghost predicate MoveAt(c: Config, l: Limits, states: seq<Bounded>, moves: seq<Move>, i: nat)
  {
    i < |moves| && i + 1 < |states| ==> Moves(c, l, states[i], moves[i], states[i + 1])
  }

  /** A run under the limits, from an empty store to y. */
  ghost predicate Reached(c: Config, l: Limits, states: seq<Bounded>, moves: seq<Move>, y: Bounded)
  {
    && |states| == |moves| + 1 && Begins(c, states[0]) && states[|moves|] == y
    && forall i: nat {:trigger MoveAt(c, l, states, moves, i)} :: MoveAt(c, l, states, moves, i)
  }

  ghost predicate Reachable(c: Config, l: Limits, y: Bounded)
  {
    exists states, moves :: Reached(c, l, states, moves, y)
  }

  // ---------------------------------------------------------------- they are runs of the pipeline

  /** A run under the limits is one of the pipeline, without the requests. */
  lemma {:induction false} BoundedIsRun(c: Config, l: Limits, states: seq<Bounded>, moves: seq<Move>, y: Bounded)
      returns (run: seq<State>, steps: seq<Step>)
    requires Reached(c, l, states, moves, y)
    ensures Run(c, run, steps) && run[|steps|] == y.s
    decreases |moves|
  {
    if moves == [] {
      run, steps := [y.s], [];
    } else {
      var n := |moves| - 1;
      var x, m := states[n], moves[n];
      RunBefore(c, l, states, moves, y);
      run, steps := BoundedIsRun(c, l, states[..n + 1], moves[..n], x);
      assert MoveAt(c, l, states, moves, n);
      if m.Do? {
        RunAfter(c, run, steps, m.a);
        run, steps := run + [y.s], steps + [m.a];
      }
    }
  }

  lemma RunBefore(c: Config, l: Limits, states: seq<Bounded>, moves: seq<Move>, y: Bounded)
    requires Reached(c, l, states, moves, y) && moves != []
    ensures var n := |moves| - 1; Reached(c, l, states[..n + 1], moves[..n], states[n])
  {
    var n := |moves| - 1;
    var states', moves' := states[..n + 1], moves[..n];
    forall i: nat ensures MoveAt(c, l, states', moves', i) { assert MoveAt(c, l, states, moves, i); }
  }

  lemma RunAfter(c: Config, run: seq<State>, steps: seq<Step>, a: Step)
    requires Run(c, run, steps) && Shape(c, run[|steps|]) && Enabled(c, run[|steps|], a)
    ensures Run(c, run + [Pipeline.Apply(c, run[|steps|], a)], steps + [a])
  {
    var run', steps' := run + [Pipeline.Apply(c, run[|steps|], a)], steps + [a];
    forall i: nat ensures StepAt(c, run', steps', i) { assert StepAt(c, run, steps, i); }
  }

  lemma MoveKeeps(c: Config, l: Limits, x: Bounded, m: Move, y: Bounded)
    requires Inv(c, x.s) && Fenced(x.s) && Moves(c, l, x, m, y)
    ensures Inv(c, y.s) && Fenced(y.s)
  {
    if m.Do? {
      StepKeepsInv(c, x.s, m.a);
      StepKeepsFence(c, x.s, m.a);
    }
  }
}
