/** The write and persist pipeline of valuestore_GEN_.go as a state machine: memWriters, fileWriter,
    memClearers, tocWriter, readers, flush, shutdown and restart, interleaved in any order.

    A Go channel is first-in first-out. Here a message in a channel carries the stamp of its send, taken
    from one global clock, and a receive is enabled only for the smallest stamp in that channel. A memory
    block is always in one hand, its owner; the owner also says in which channel it waits.

    Three fields are bookkeeping that no step reads to decide anything: `log` is the sequence of writes the
    location map took, `place[w]` says where the TOC record of log[w] is now, and `wid`/`aux` label records
    and locations with the log entry they belong to.

    Of each value file a prefix is on disk: whole buffers while it is open, everything once closeWriting has written
    the rest. A page is released when its bytes are on disk, or at once when it ends on a buffer boundary, as then
    there is no current buffer to hold it; at that moment all but one of the file's buffers can be on their way.

    Allocation sizes, page fullness, file rotation and TOC block fullness are left open (any choice is a step), so
    every theorem covers whatever the real limits choose. */
module Pipeline {
  import opened Base
  import opened Stamp
  import opened LocMap

  const HEADER_SIZE: nat := 32

  datatype Config = Config(workers: nat, minAlloc: nat, interval: nat)

  /** A write the location map took, with the stored timestamp. */
  datatype Taken = Taken(key: Key, ts: nat, val: Bytes, rewrite: bool)

  datatype Rec = Rec(key: Key, ts: nat, off: nat, len: nat, wid: nat)

  datatype Owner =
    | Free
    | AtWriter(w: nat)
    | InFileChan(w: nat, t: nat)
    | HeldByFile
    | InClearChan(j: nat, t: nat)
    | AtClearer(j: nat, pos: nat)

  datatype Block = Block(owner: Owner, recs: seq<Rec>, values: Bytes, file: nat, foff: nat)

  /** Where a memWriter is in handling one request. */
  datatype Pc =
    | Idle
    | Extended(b: nat, req: Req, off: nat)
    | Copied(b: nat, req: Req, off: nat)
    | Placed(b: nat, req: Req, off: nat, prev: nat, wid: nat)

  datatype TocBlock = TocBlock(file: nat, recs: seq<Rec>)

  datatype TocMsg = TocMsg(j: nat, tb: TocBlock)

  /** The flush (or shutdown) token of one memWriter: not yet handled, in fileMemBlockChan, received. */
  datatype WTok = WWait | WSent(t: nat) | WDone

  /** The token of one memClearer: not yet sent, in its channel, passed on to pendingTOCBlockChan, received. */
  datatype CTok = CWait | CSent(t: nat) | CPassed(t: nat) | CDone

  datatype Mode = Running | Draining(shutdown: bool, mark: nat) | Stopped

  datatype Drain = Drain(wtok: seq<WTok>, wleft: nat, ctok: seq<CTok>, cleft: nat, fmark: nat)

  datatype Place =
    | InFlight(w: nat)
    | InMem(b: nat, i: nat)
    | InTb(j: nat, i: nat)
    | InTocChan(t: nat, i: nat)
    | InToc(f: nat, i: nat)
    | Superseded(newer: nat)
    | Lost

  /** Where a reader is: before memBlock.read's lock, holding the read lock, finished, failed on a file that does not
      have the bytes yet. */
  datatype Reader =
    | NoRead
    | AtBlock(key: Key, b: nat)
    | Holding(key: Key, b: nat, loc: Loc)
    | Finished(key: Key, loc: Loc, bytes: Bytes)
    | Failed(key: Key, loc: Loc)
    | Missing(key: Key, ts: nat)

  datatype State = State(
    clock: nat,
    loc: Map,
    blocks: seq<Block>,
    writers: seq<Pc>,             // one program counter per memWriter
    files: seq<Bytes>,            // logical contents of the value files, in name order
    disk: seq<nat>,               // how many of those bytes are on disk: a prefix
    open: Option<nat>,            // fileWriter's current file; all others are closed
    closing: bool,                // closeWriting has written the last bytes of the open file
    tbs: seq<Option<TocBlock>>,   // the TOC block each memClearer is filling
    tocChan: map<nat, TocMsg>,
    tocs: map<nat, seq<Rec>>,     // contents of the TOC files, keyed like the value files
    tocA: Option<nat>,            // the two TOC files tocWriter has open
    tocB: Option<nat>,
    readers: seq<Reader>,
    mode: Mode,
    drain: Drain,
    flushed: nat,                 // log entries covered by the last completed flush or shutdown
    log: seq<Taken>,
    place: seq<Place>)

  // ---------------------------------------------------------------- helpers

  function FreshDrain(c: Config): Drain
  {
    Drain(seq(c.workers, _ => WWait), c.workers, seq(c.workers, _ => CWait), c.workers, 0)
  }

  function SetOwner(s: State, b: nat, o: Owner): State
    requires b < |s.blocks|
  {
    s.(blocks := s.blocks[b := s.blocks[b].(owner := o)])
  }

  predicate HasReader(s: State, b: nat)
  {
    exists r :: 0 <= r < |s.readers| && s.readers[r].Holding? && s.readers[r].b == b
  }

  function Alloc(c: Config, len: nat): (a: nat)
    ensures a >= len
  {
    Max(len, c.minAlloc)
  }

  predicate HeadOfFileChan(s: State, t: nat)
  {
    && (forall b :: 0 <= b < |s.blocks| && s.blocks[b].owner.InFileChan? ==> t <= s.blocks[b].owner.t)
    && (forall w :: 0 <= w < |s.drain.wtok| && s.drain.wtok[w].WSent? ==> t <= s.drain.wtok[w].t)
  }

  predicate HeadOfClearChan(s: State, j: nat, t: nat)
    requires j < |s.drain.ctok|
  {
    && (forall b :: 0 <= b < |s.blocks| && s.blocks[b].owner.InClearChan? && s.blocks[b].owner.j == j
                    ==> t <= s.blocks[b].owner.t)
    && (s.drain.ctok[j].CSent? ==> t <= s.drain.ctok[j].t)
  }

  predicate HeadOfTocChan(s: State, t: nat)
  {
    && (forall u :: u in s.tocChan ==> t <= u)
    && (forall j :: 0 <= j < |s.drain.ctok| && s.drain.ctok[j].CPassed? ==> t <= s.drain.ctok[j].t)
  }

  predicate NoneHeld(s: State)
  {
    forall b :: 0 <= b < |s.blocks| ==> !s.blocks[b].owner.HeldByFile?
  }

  /** A TOC file that has its terminator and is closed. */
  predicate TocClosed(s: State, f: nat)
  {
    f in s.tocs && s.tocA != Some(f) && s.tocB != Some(f)
  }

  predicate FileClosed(s: State, f: nat)
  {
    f < |s.files| && s.open != Some(f)
  }

  // ---------------------------------------------------------------- recovery

  function RecoverRecs(m: Map, f: nat, recs: seq<Rec>): Map
  {
    if recs == [] then m
    else
      var n := |recs| - 1;
      var r := recs[n];
      var before := RecoverRecs(m, f, recs[..n]);
      if r.off == 0 then before
      else Set(before, r.key, Loc(r.ts, if Removal(r.ts) then NoBlock else File(f), r.off, r.len, r.wid), true)
  }

  /** Recovery over the TOC files with index below n, in name order (see module Recovery for why the
      parallel recovery of the source equals this sequential one). */
  function Recover(tocs: map<nat, seq<Rec>>, n: nat): Map
  {
    if n == 0 then map[]
    else if n - 1 in tocs then RecoverRecs(Recover(tocs, n - 1), n - 1, tocs[n - 1])
    else Recover(tocs, n - 1)
  }

  // ---------------------------------------------------------------- steps

  datatype Step =
    | TakeFree(w: nat, b: nat)
    | Extend(w: nat, b: nat, req: Req, junk: Bytes)
    | Copy(w: nat)
    | PlaceInMap(w: nat)
    | Record(w: nat)
    | Truncate(w: nat)
    | Seal(w: nat, b: nat)
    | StartDrain(shutdown: bool)
    | WriterToken(w: nat)
    | OpenFile(header: Bytes)
    | WriteBlock(b: nat)
    | WriteBuf
    | CloseTail
    | Release(b: nat, j: nat)
    | CloseFile
    | FileToken(w: nat)
    | ClearTake(j: nat, b: nat)
    | TbSend(j: nat)
    | ClearRec(b: nat)
    | ClearDone(b: nat)
    | ClearToken(j: nat)
    | TocTake(t: nat)
    | TocToken(j: nat)
    | ReadStart(r: nat, key: Key)
    | ReadLock(r: nat)
    | ReadCopy(r: nat)
    | Restart

  /** memWriter w has a memory block in hand. */
  predicate WriterHas(s: State, w: nat)
  {
    exists b :: 0 <= b < |s.blocks| && s.blocks[b].owner == AtWriter(w)
  }

  predicate ClearerHas(s: State, j: nat)
  {
    exists b :: 0 <= b < |s.blocks| && s.blocks[b].owner.AtClearer? && s.blocks[b].owner.j == j
  }

  predicate TakeFreeGuard(c: Config, s: State, w: nat, b: nat)
    requires Sizes(c, s)
  {
    && w < c.workers && b < |s.blocks| && s.blocks[b].owner.Free? && s.writers[w].Idle? && !WriterHas(s, w)
    && MayWrite(s.mode, s.drain, w)
  }

  predicate ExtendGuard(c: Config, s: State, w: nat, b: nat, req: Req, junk: Bytes)
    requires Sizes(c, s)
  {
    && w < c.workers && b < |s.blocks| && s.blocks[b].owner == AtWriter(w) && s.writers[w].Idle?
    && MayWrite(s.mode, s.drain, w) && |junk| == Alloc(c, |req.val|) && !HasReader(s, b)
  }

  predicate CopyGuard(c: Config, s: State, w: nat)
    requires Sizes(c, s)
  {
    w < c.workers && s.writers[w].Extended?
  }

  predicate PlaceInMapGuard(c: Config, s: State, w: nat)
    requires Sizes(c, s)
  {
    w < c.workers && s.writers[w].Copied?
  }

  predicate RecordGuard(c: Config, s: State, w: nat)
    requires Sizes(c, s)
  {
    w < c.workers && s.writers[w].Placed? && s.writers[w].prev < s.writers[w].req.ts
  }

  predicate TruncateGuard(c: Config, s: State, w: nat)
    requires Sizes(c, s)
  {
    && w < c.workers && s.writers[w].Placed? && s.writers[w].prev >= s.writers[w].req.ts
    && !HasReader(s, s.writers[w].b)
  }

  predicate SealGuard(c: Config, s: State, w: nat, b: nat)
    requires Sizes(c, s)
  {
    && w < c.workers && b < |s.blocks| && s.blocks[b].owner == AtWriter(w) && s.writers[w].Idle?
    && MayWrite(s.mode, s.drain, w)
  }

  predicate StartDrainGuard(c: Config, s: State)
    requires Sizes(c, s)
  {
    s.mode.Running?
  }

  predicate WriterTokenGuard(c: Config, s: State, w: nat)
    requires Sizes(c, s)
  {
    && w < c.workers && s.mode.Draining? && s.drain.wtok[w].WWait? && s.writers[w].Idle?
    && (forall b :: 0 <= b < |s.blocks| && s.blocks[b].owner == AtWriter(w) ==> s.blocks[b].recs == [])
  }

  predicate OpenFileGuard(c: Config, s: State, header: Bytes)
    requires Sizes(c, s)
  {
    && s.open.None? && |header| == HEADER_SIZE
    && exists b :: 0 <= b < |s.blocks| && s.blocks[b].owner.InFileChan?
  }

  predicate WriteBlockGuard(c: Config, s: State, b: nat)
    requires Sizes(c, s)
  {
    && b < |s.blocks| && s.blocks[b].owner.InFileChan? && HeadOfFileChan(s, s.blocks[b].owner.t)
    && s.open.Some? && !s.closing
  }

  /** A full buffer of the open file reaches disk. */
  predicate WriteBufGuard(c: Config, s: State)
    requires Sizes(c, s)
  {
    s.open.Some? && !s.closing && s.disk[s.open.value] + c.interval <= |s.files[s.open.value]|
  }

  /** closeWriting waits for the full buffers and then writes the rest. */
  predicate CloseTailGuard(c: Config, s: State)
    requires Sizes(c, s)
  {
    s.open.Some? && !s.closing && |s.files[s.open.value]| < s.disk[s.open.value] + c.interval
  }

  predicate Boundary(c: Config, end: nat)
    requires c.interval > 0
  {
    end % c.interval == 0
  }

  /** The end of a page in its file. */
  function PageEnd(blk: Block): nat { blk.foff + |blk.values| }

  /** A file has one buffer per worker, and its current buffer is one of them: so many bytes at most are in full
      buffers on their way to disk. */
  function Behind(c: Config): nat { if c.workers == 0 then 0 else (c.workers - 1) * c.interval }

  /** What the file writer releases a page on: its bytes are on disk, or the page ends on a buffer boundary and a new
      buffer could be had, so that no current buffer holds some of them. */
  predicate Releasable(c: Config, disk: seq<nat>, blk: Block)
    requires c.interval > 0
  {
    || blk.values == []
    || (blk.file < |disk| && PageEnd(blk) <= disk[blk.file])
    || (blk.file < |disk| && Boundary(c, PageEnd(blk)) && PageEnd(blk) <= disk[blk.file] + Behind(c))
  }

  predicate ReleaseGuard(c: Config, s: State, b: nat, j: nat)
    requires Sizes(c, s)
  {
    b < |s.blocks| && s.blocks[b].owner.HeldByFile? && j < c.workers && Releasable(c, s.disk, s.blocks[b])
  }

  predicate CloseFileGuard(c: Config, s: State)
    requires Sizes(c, s)
  {
    s.open.Some? && s.closing && NoneHeld(s)
  }

  predicate FileTokenGuard(c: Config, s: State, w: nat)
    requires Sizes(c, s)
  {
    && w < c.workers && s.drain.wtok[w].WSent? && HeadOfFileChan(s, s.drain.wtok[w].t)
    && (s.drain.wleft == 1 ==> s.open.None?)
  }

  predicate ClearTakeGuard(c: Config, s: State, j: nat, b: nat)
    requires Sizes(c, s)
  {
    && j < c.workers && b < |s.blocks| && s.blocks[b].owner.InClearChan? && s.blocks[b].owner.j == j
    && HeadOfClearChan(s, j, s.blocks[b].owner.t) && !ClearerHas(s, j)
  }

  predicate TbSendGuard(c: Config, s: State, j: nat)
    requires Sizes(c, s)
  {
    j < c.workers && s.tbs[j].Some?
  }

  predicate ClearRecGuard(c: Config, s: State, b: nat)
    requires Sizes(c, s)
  {
    && b < |s.blocks| && s.blocks[b].owner.AtClearer? && s.blocks[b].owner.pos < |s.blocks[b].recs|
    && s.blocks[b].owner.j < c.workers
    && (s.tbs[s.blocks[b].owner.j].Some? ==> s.tbs[s.blocks[b].owner.j].value.file == s.blocks[b].file)
  }

  predicate ClearDoneGuard(c: Config, s: State, b: nat)
    requires Sizes(c, s)
  {
    && b < |s.blocks| && s.blocks[b].owner.AtClearer? && s.blocks[b].owner.pos == |s.blocks[b].recs|
    && !HasReader(s, b)
  }

  predicate ClearTokenGuard(c: Config, s: State, j: nat)
    requires Sizes(c, s)
  {
    && j < c.workers && s.drain.ctok[j].CSent? && HeadOfClearChan(s, j, s.drain.ctok[j].t)
    && s.tbs[j].None? && !ClearerHas(s, j)
  }

  predicate TocTakeGuard(c: Config, s: State, t: nat)
    requires Sizes(c, s)
  {
    t in s.tocChan && HeadOfTocChan(s, t)
  }

  predicate TocTokenGuard(c: Config, s: State, j: nat)
    requires Sizes(c, s)
  {
    j < c.workers && s.drain.ctok[j].CPassed? && HeadOfTocChan(s, s.drain.ctok[j].t)
  }

  ghost predicate Enabled(c: Config, s: State, a: Step)
    requires Sizes(c, s)
  {
    match a
    case TakeFree(w, b) => TakeFreeGuard(c, s, w, b)
    case Extend(w, b, req, junk) => ExtendGuard(c, s, w, b, req, junk)
    case Copy(w) => CopyGuard(c, s, w)
    case PlaceInMap(w) => PlaceInMapGuard(c, s, w)
    case Record(w) => RecordGuard(c, s, w)
    case Truncate(w) => TruncateGuard(c, s, w)
    case Seal(w, b) => SealGuard(c, s, w, b)
    case StartDrain(_) => StartDrainGuard(c, s)
    case WriterToken(w) => WriterTokenGuard(c, s, w)
    case OpenFile(header) => OpenFileGuard(c, s, header)
    case WriteBlock(b) => WriteBlockGuard(c, s, b)
    case WriteBuf => WriteBufGuard(c, s)
    case CloseTail => CloseTailGuard(c, s)
    case Release(b, j) => ReleaseGuard(c, s, b, j)
    case CloseFile => CloseFileGuard(c, s)
    case FileToken(w) => FileTokenGuard(c, s, w)
    case ClearTake(j, b) => ClearTakeGuard(c, s, j, b)
    case TbSend(j) => TbSendGuard(c, s, j)
    case ClearRec(b) => ClearRecGuard(c, s, b)
    case ClearDone(b) => ClearDoneGuard(c, s, b)
    case ClearToken(j) => ClearTokenGuard(c, s, j)
    case TocTake(t) => TocTakeGuard(c, s, t)
    case TocToken(j) => TocTokenGuard(c, s, j)
    case ReadStart(r, _) => r < |s.readers|
    case ReadLock(r) => r < |s.readers| && s.readers[r].AtBlock?
    case ReadCopy(r) => r < |s.readers| && s.readers[r].Holding?
    case Restart => s.mode.Stopped?
  }

  /** tocWriter creates the file of this block anew although it was already closed. */
  predicate Recreates(s: State, a: Step)
  {
    a.TocTake? && a.t in s.tocChan && TocClosed(s, s.tocChan[a.t].tb.file)
  }

  // The indices and discriminators a step relies on.
  ghost predicate Shape(c: Config, s: State)
  {
    && Sizes(c, s)
    && WritersShape(s.writers, s.blocks)
    && BlocksShape(c, s.blocks, s.clock, s.open, |s.files|)
    && TocShape(c, s.tbs, s.tocChan, s.tocs, s.clock, |s.files|)
  }

  predicate Sizes(c: Config, s: State)
  {
    && c.workers >= 1 && c.interval > 0
    && |s.disk| == |s.files|
    && |s.writers| == c.workers && |s.tbs| == c.workers
    && |s.drain.wtok| == c.workers && |s.drain.ctok| == c.workers
    && |s.place| == |s.log|
    && s.flushed <= |s.log|
    && (s.open.Some? ==> s.open.value < |s.files|)
    && (s.tocA.Some? ==> s.tocA.value in s.tocs)
    && (s.tocB.Some? ==> s.tocB.value in s.tocs)
  }

  ghost predicate WriterShape(writers: seq<Pc>, blocks: seq<Block>, w: nat)
  {
    w < |writers| && !writers[w].Idle? ==>
      && writers[w].b < |blocks| && blocks[writers[w].b].owner == AtWriter(w)
      && writers[w].off + |writers[w].req.val| <= |blocks[writers[w].b].values|
  }

  ghost predicate WritersShape(writers: seq<Pc>, blocks: seq<Block>)
  {
    forall w: nat :: WriterShape(writers, blocks, w)
  }

  ghost predicate BlockShape(c: Config, blocks: seq<Block>, clock: nat, open: Option<nat>, nf: nat, b: nat)
  {
    b < |blocks| ==>
      match blocks[b].owner
      case Free => blocks[b].recs == [] && blocks[b].values == []
      case AtWriter(w) => w < c.workers
      case InFileChan(w, t) => w < c.workers && t < clock
      case HeldByFile => open == Some(blocks[b].file)
      case InClearChan(j, t) => j < c.workers && t < clock && blocks[b].file < nf
      case AtClearer(j, pos) => j < c.workers && pos <= |blocks[b].recs| && blocks[b].file < nf
  }

  ghost predicate BlocksShape(c: Config, blocks: seq<Block>, clock: nat, open: Option<nat>, nf: nat)
  {
    forall b: nat :: BlockShape(c, blocks, clock, open, nf, b)
  }

  ghost predicate TocShape(c: Config, tbs: seq<Option<TocBlock>>, tocChan: map<nat, TocMsg>,
                           tocs: map<nat, seq<Rec>>, clock: nat, nf: nat)
  {
    && (forall j :: 0 <= j < |tbs| && tbs[j].Some? ==> tbs[j].value.file < nf)
    && (forall t :: t in tocChan ==> t < clock && tocChan[t].j < c.workers && tocChan[t].tb.file < nf)
    && (forall f :: f in tocs ==> f < nf)
  }

  function MovedTo(place: seq<Place>, wid: nat, p: Place): seq<Place>
  {
    if wid < |place| then place[wid := p] else place
  }

  function ApplyExtend(s: State, w: nat, b: nat, req: Req, junk: Bytes): State
    requires w < |s.writers| && b < |s.blocks|
  {
    s.(blocks := s.blocks[b := s.blocks[b].(values := s.blocks[b].values + junk)],
       writers := s.writers[w := Extended(b, req, |s.blocks[b].values|)])
  }

  function ApplyCopy(s: State, w: nat): State
    requires w < |s.writers| && s.writers[w].Extended? && s.writers[w].b < |s.blocks|
    requires s.writers[w].off + |s.writers[w].req.val| <= |s.blocks[s.writers[w].b].values|
  {
    var Extended(b, req, off) := s.writers[w];
    var was := s.blocks[b].values;
    var padded := was[..off] + req.val + Zeros(|was| - off - |req.val|);
    s.(blocks := s.blocks[b := s.blocks[b].(values := padded)],
       writers := s.writers[w := Copied(b, req, off)])
  }

  function ApplyPlace(s: State, w: nat): State
    requires w < |s.writers| && s.writers[w].Copied?
  {
    var Copied(b, req, off) := s.writers[w];
    var prev := TsOf(s.loc, req.key);
    var wid := |s.log|;
    var s' := s.(loc := Write(s.loc, req.key, req.ts, Mem(b), off, |req.val|, wid),
                 writers := s.writers[w := Placed(b, req, off, prev, wid)]);
    if prev < req.ts then
      s'.(log := s.log + [Taken(req.key, Stored(req.ts), req.val, Rewrite(req.ts))],
          place := s.place + [InFlight(w)])
    else s'
  }

  function ApplyRecord(s: State, w: nat): State
    requires w < |s.writers| && s.writers[w].Placed? && s.writers[w].b < |s.blocks|
  {
    var Placed(b, req, off, prev, wid) := s.writers[w];
    var recs := s.blocks[b].recs;
    s.(blocks := s.blocks[b := s.blocks[b].(recs := recs + [Rec(req.key, Stored(req.ts), off, |req.val|, wid)])],
       writers := s.writers[w := Idle],
       place := MovedTo(s.place, wid, InMem(b, |recs|)))
  }

  function ApplyTruncate(s: State, w: nat): State
    requires w < |s.writers| && s.writers[w].Placed? && s.writers[w].b < |s.blocks|
    requires s.writers[w].off <= |s.blocks[s.writers[w].b].values|
  {
    var b := s.writers[w].b;
    s.(blocks := s.blocks[b := s.blocks[b].(values := s.blocks[b].values[..s.writers[w].off])],
       writers := s.writers[w := Idle])
  }

  function ApplyOpenFile(s: State, header: Bytes): State
  {
    s.(open := Some(|s.files|), files := s.files + [header], disk := s.disk + [0], closing := false)
  }

  function ApplyDisk(s: State, n: nat, closing: bool): State
    requires s.open.Some? && s.open.value < |s.disk|
  {
    s.(disk := s.disk[s.open.value := n], closing := closing)
  }

  function ApplyWriteBlock(s: State, b: nat): State
    requires b < |s.blocks| && s.open.Some? && s.open.value < |s.files|
  {
    var f := s.open.value;
    var blk := s.blocks[b].(owner := HeldByFile, file := f, foff := |s.files[f]|);
    s.(blocks := s.blocks[b := blk], files := s.files[f := s.files[f] + s.blocks[b].values])
  }

  function ApplyFileToken(c: Config, s: State, w: nat): State
    requires w < |s.drain.wtok|
  {
    var d := s.drain.(wtok := s.drain.wtok[w := WDone]);
    if s.drain.wleft == 1 then
      s.(drain := d.(wleft := c.workers, ctok := seq(c.workers, j requires 0 <= j => CSent(s.clock + j)),
                     fmark := |s.files|),
         clock := s.clock + c.workers)
    else
      s.(drain := d.(wleft := if s.drain.wleft == 0 then 0 else s.drain.wleft - 1))
  }

  function MovedToTocChan(place: seq<Place>, j: nat, t: nat): (r: seq<Place>)
    ensures |r| == |place|
  {
    seq(|place|, n requires 0 <= n < |place| =>
      if place[n].InTb? && place[n].j == j then InTocChan(t, place[n].i) else place[n])
  }

  function ApplyTbSend(s: State, j: nat): State
    requires j < |s.tbs| && s.tbs[j].Some?
  {
    s.(tocChan := s.tocChan[s.clock := TocMsg(j, s.tbs[j].value)],
       tbs := s.tbs[j := None],
       place := MovedToTocChan(s.place, j, s.clock),
       clock := s.clock + 1)
  }

  /** What memClearer sets for a record: its place in the file, or nothing for a removal marker. */
  function ClearedRec(blk: Block, r: Rec): Rec
  {
    if Removal(r.ts) then r.(off := 0, len := 0) else r.(off := blk.foff + r.off)
  }

  function ClearedLoc(blk: Block, r: Rec): Loc
  {
    var q := ClearedRec(blk, r);
    Loc(r.ts, if Removal(r.ts) then NoBlock else File(blk.file), q.off, q.len, r.wid)
  }

  function ApplyClearRec(s: State, b: nat): State
    requires b < |s.blocks| && s.blocks[b].owner.AtClearer? && s.blocks[b].owner.j < |s.tbs|
    requires s.blocks[b].owner.pos < |s.blocks[b].recs|
  {
    var blk := s.blocks[b];
    var AtClearer(j, pos) := blk.owner;
    var r := blk.recs[pos];
    var s1 := SetOwner(s, b, AtClearer(j, pos + 1)).(loc := Set(s.loc, r.key, ClearedLoc(blk, r), true));
    if TsOf(s.loc, r.key) > r.ts then
      s1.(place := MovedTo(s.place, r.wid, Superseded(s.loc[r.key].aux)))
    else
      var recs := if s.tbs[j].Some? then s.tbs[j].value.recs else [];
      s1.(tbs := s.tbs[j := Some(TocBlock(blk.file, recs + [ClearedRec(blk, r)]))],
          place := MovedTo(s.place, r.wid, InTb(j, |recs|)))
  }

  function MovedToToc(place: seq<Place>, t: nat, f: nat, base: nat): (r: seq<Place>)
    ensures |r| == |place|
  {
    seq(|place|, n requires 0 <= n < |place| =>
      if place[n].InTocChan? && place[n].t == t then InToc(f, base + place[n].i) else place[n])
  }

  /** Creating a TOC file that exists already truncates it: the records it held are lost. */
  function LoseToc(place: seq<Place>, f: nat): (r: seq<Place>)
    ensures |r| == |place|
  {
    seq(|place|, n requires 0 <= n < |place| => if place[n].InToc? && place[n].f == f then Lost else place[n])
  }

  function ApplyTocTake(s: State, t: nat): State
    requires t in s.tocChan
    requires s.tocA.Some? ==> s.tocA.value in s.tocs
    requires s.tocB.Some? ==> s.tocB.value in s.tocs
  {
    var tb := s.tocChan[t].tb;
    var s1 := s.(tocChan := s.tocChan - {t});
    if s.tocA == Some(tb.file) || s.tocB == Some(tb.file) then
      s1.(tocs := s.tocs[tb.file := s.tocs[tb.file] + tb.recs],
          place := MovedToToc(s.place, t, tb.file, |s.tocs[tb.file]|))
    else
      s1.(tocs := s.tocs[tb.file := tb.recs], tocB := s.tocA, tocA := Some(tb.file),
          place := MovedToToc(LoseToc(s.place, tb.file), t, tb.file, 0))
  }

  function ApplyTocToken(c: Config, s: State, j: nat): State
    requires j < |s.drain.ctok|
  {
    if s.drain.cleft == 1 then
      var s1 := s.(tocA := None, tocB := None, drain := FreshDrain(c));
      match s.mode
      case Draining(false, mark) => s1.(mode := Running, flushed := mark)
      case _ => s1.(mode := Stopped, flushed := |s.log|)
    else
      s.(drain := s.drain.(ctok := s.drain.ctok[j := CDone],
                           cleft := if s.drain.cleft == 0 then 0 else s.drain.cleft - 1))
  }

  /** The bytes a location names; a location out of range names none. */
  function BytesAt(s: State, l: Loc): Bytes
  {
    match l.id
    case NoBlock => []
    case Mem(b) => if b < |s.blocks| then Slice(s.blocks[b].values, l.off, l.len) else []
    case File(f) => if f < |s.files| then Slice(s.files[f], l.off, l.len) else []
  }

  function Slice(v: Bytes, off: nat, len: nat): Bytes
  {
    if off + len <= |v| then v[off..off + len] else []
  }

  /** The bytes a location in a file names are on disk; an empty value needs none. */
  predicate Readable(disk: seq<nat>, l: Loc)
  {
    l.id.File? ==> l.len == 0 || (l.id.f < |disk| && l.off + l.len <= disk[l.id.f])
  }

  /** One look at the location map by a reader: not found, a file, or a memory block to lock. */
  function LookUp(s: State, k: Key, checkRemoval: bool): Reader
  {
    if k !in s.loc || Deletion(s.loc[k].ts) || (checkRemoval && Removal(s.loc[k].ts)) then Missing(k, TsOf(s.loc, k))
    else if s.loc[k].id.Mem? then AtBlock(k, s.loc[k].id.b)
    else if !Readable(s.disk, s.loc[k]) then Failed(k, s.loc[k])
    else Finished(k, s.loc[k], BytesAt(s, s.loc[k]))
  }

  function ApplyReadLock(s: State, r: nat): State
    requires r < |s.readers| && s.readers[r].AtBlock?
  {
    var AtBlock(k, b) := s.readers[r];
    var next := LookUp(s, k, false);
    s.(readers := s.readers[r := if next == AtBlock(k, b) && k in s.loc then Holding(k, b, s.loc[k]) else next])
  }

  function ApplyReadCopy(s: State, r: nat): State
    requires r < |s.readers| && s.readers[r].Holding?
  {
    var Holding(k, b, l) := s.readers[r];
    s.(readers := s.readers[r := Finished(k, l, BytesAt(s, l))])
  }

  function ApplyRestart(c: Config, s: State): State
  {
    s.(loc := Recover(s.tocs, |s.files|),
       blocks := seq(|s.blocks|, _ => EMPTY_BLOCK),
       writers := seq(c.workers, _ => Idle),
       open := None, closing := false,
       tbs := seq(c.workers, _ => None),
       tocChan := map[], tocA := None, tocB := None,
       readers := seq(|s.readers|, _ => NoRead),
       mode := Running, drain := FreshDrain(c))
  }

  const EMPTY_BLOCK: Block := Block(Free, [], [], 0, 0)

  ghost function Apply(c: Config, s: State, a: Step): State
    requires Shape(c, s) && Enabled(c, s, a)
  {
    match a
    case TakeFree(w, b) => SetOwner(s, b, AtWriter(w))
    case Extend(w, b, req, junk) => ApplyExtend(s, w, b, req, junk)
    case Copy(w) =>
      assert WriterShape(s.writers, s.blocks, w);
      ApplyCopy(s, w)
    case PlaceInMap(w) => ApplyPlace(s, w)
    case Record(w) =>
      assert WriterShape(s.writers, s.blocks, w);
      ApplyRecord(s, w)
    case Truncate(w) =>
      assert WriterShape(s.writers, s.blocks, w);
      ApplyTruncate(s, w)
    case Seal(w, b) => SetOwner(s, b, InFileChan(w, s.clock)).(clock := s.clock + 1)
    case StartDrain(shutdown) => s.(mode := Draining(shutdown, |s.log|), drain := FreshDrain(c))
    case WriterToken(w) =>
      s.(drain := s.drain.(wtok := s.drain.wtok[w := WSent(s.clock)]), clock := s.clock + 1)
    case OpenFile(header) => ApplyOpenFile(s, header)
    case WriteBlock(b) => ApplyWriteBlock(s, b)
    case WriteBuf => ApplyDisk(s, s.disk[s.open.value] + c.interval, false)
    case CloseTail => ApplyDisk(s, |s.files[s.open.value]|, true)
    case Release(b, j) => SetOwner(s, b, InClearChan(j, s.clock)).(clock := s.clock + 1)
    case CloseFile => s.(open := None, closing := false)
    case FileToken(w) => ApplyFileToken(c, s, w)
    case ClearTake(j, b) => SetOwner(s, b, AtClearer(j, 0))
    case TbSend(j) => ApplyTbSend(s, j)
    case ClearRec(b) => ApplyClearRec(s, b)
    case ClearDone(b) => s.(blocks := s.blocks[b := EMPTY_BLOCK])
    case ClearToken(j) =>
      s.(drain := s.drain.(ctok := s.drain.ctok[j := CPassed(s.clock)]), clock := s.clock + 1)
    case TocTake(t) => ApplyTocTake(s, t)
    case TocToken(j) => ApplyTocToken(c, s, j)
    case ReadStart(r, k) => s.(readers := s.readers[r := LookUp(s, k, true)])
    case ReadLock(r) => ApplyReadLock(s, r)
    case ReadCopy(r) => ApplyReadCopy(s, r)
    case Restart => ApplyRestart(c, s)
  }

  // ---------------------------------------------------------------- invariant
  //
  // Each part names exactly the fields it depends on.

  /** The record r, wherever it is, is that of log entry r.wid. */
  predicate Labelled(log: seq<Taken>, r: Rec)
  {
    r.wid < |log| && r.key == log[r.wid].key && r.ts == log[r.wid].ts
  }

  /** memClearer has not processed record i of this block yet. */
  predicate Unprocessed(blk: Block, i: nat)
  {
    blk.owner.AtClearer? ==> blk.owner.pos <= i
  }

  /** A record in a memory block selects its value there. */
  ghost predicate MemRecOk(blocks: seq<Block>, writers: seq<Pc>, log: seq<Taken>, place: seq<Place>, b: nat, i: nat)
  {
    b < |blocks| && i < |blocks[b].recs| ==>
      var r := blocks[b].recs[i];
      && Labelled(log, r) && r.len == |log[r.wid].val|
      && r.off + r.len <= |blocks[b].values| && blocks[b].values[r.off..r.off + r.len] == log[r.wid].val
      && (Unprocessed(blocks[b], i) ==> r.wid < |place| && place[r.wid] == InMem(b, i))
      && (blocks[b].owner.AtWriter? ==> BelowPc(writers, blocks[b].owner.w, b, r.off + r.len))
  }

  /** A writer in the middle of a request works on bytes at or above `end`. */
  predicate BelowPc(writers: seq<Pc>, w: nat, b: nat, end: nat)
  {
    w < |writers| && !writers[w].Idle? && writers[w].b == b ==> end <= writers[w].off
  }

  ghost predicate MemRecsOk(blocks: seq<Block>, writers: seq<Pc>, log: seq<Taken>, place: seq<Place>)
  {
    forall b: nat, i: nat :: MemRecOk(blocks, writers, log, place, b, i)
  }

  ghost predicate FilesOk(files: seq<Bytes>)
  {
    forall f :: 0 <= f < |files| ==> |files[f]| >= HEADER_SIZE
  }

  predicate Filed(o: Owner) { o.HeldByFile? || o.InClearChan? || o.AtClearer? }

  /** A block that was written to a file is there at its file offset. */
  ghost predicate BlockInFile(blocks: seq<Block>, files: seq<Bytes>, b: nat)
  {
    b < |blocks| && Filed(blocks[b].owner) ==>
      var blk := blocks[b];
      && blk.file < |files| && HEADER_SIZE <= blk.foff && blk.foff + |blk.values| <= |files[blk.file]|
      && files[blk.file][blk.foff..blk.foff + |blk.values|] == blk.values
  }

  ghost predicate BlocksInFile(blocks: seq<Block>, files: seq<Bytes>)
  {
    forall b: nat :: BlockInFile(blocks, files, b)
  }

  /** A TOC record selects its value in the file (a removal marker has offset 0 and selects nothing). */
  ghost predicate TocRecOk(files: seq<Bytes>, log: seq<Taken>, f: nat, r: Rec)
  {
    && Labelled(log, r) && f < |files|
    && (Removal(r.ts) ==> r.off == 0)
    && (!Removal(r.ts) ==>
          && HEADER_SIZE <= r.off && r.len == |log[r.wid].val| && r.off + r.len <= |files[f]|
          && files[f][r.off..r.off + r.len] == log[r.wid].val)
  }

  ghost predicate RecsOk(files: seq<Bytes>, log: seq<Taken>, f: nat, recs: seq<Rec>)
  {
    forall i :: 0 <= i < |recs| ==> TocRecOk(files, log, f, recs[i])
  }

  ghost predicate TbRecsOk(tbs: seq<Option<TocBlock>>, files: seq<Bytes>, log: seq<Taken>)
  {
    forall j :: 0 <= j < |tbs| && tbs[j].Some? ==> RecsOk(files, log, tbs[j].value.file, tbs[j].value.recs)
  }

  ghost predicate ChanRecsOk(tocChan: map<nat, TocMsg>, files: seq<Bytes>, log: seq<Taken>)
  {
    forall t :: t in tocChan ==> RecsOk(files, log, tocChan[t].tb.file, tocChan[t].tb.recs)
  }

  ghost predicate FileRecsOk(tocs: map<nat, seq<Rec>>, files: seq<Bytes>, log: seq<Taken>)
  {
    forall f :: f in tocs ==> RecsOk(files, log, f, tocs[f])
  }

  ghost predicate ValueCopied(blocks: seq<Block>, b: nat, req: Req, off: nat)
  {
    && b < |blocks| && off + |req.val| <= |blocks[b].values|
    && blocks[b].values[off..off + |req.val|] == req.val
  }

  ghost predicate PcOk(writers: seq<Pc>, blocks: seq<Block>, log: seq<Taken>, place: seq<Place>, w: nat)
  {
    w < |writers| ==>
      var pc := writers[w];
      && (pc.Copied? || pc.Placed? ==> ValueCopied(blocks, pc.b, pc.req, pc.off))
      && (pc.Placed? && pc.prev < pc.req.ts ==>
            && pc.wid < |log| && pc.wid < |place| && place[pc.wid] == InFlight(w)
            && log[pc.wid] == Taken(pc.req.key, Stored(pc.req.ts), pc.req.val, Rewrite(pc.req.ts)))
  }

  ghost predicate PcsOk(writers: seq<Pc>, blocks: seq<Block>, log: seq<Taken>, place: seq<Place>)
  {
    forall w: nat :: PcOk(writers, blocks, log, place, w)
  }

  /** Where the record of log[n] is. */
  ghost predicate PlaceOk(s: State, n: nat)
  {
    n < |s.place| ==>
      match s.place[n]
      case InFlight(w) =>
        && w < |s.writers| && s.writers[w].Placed? && s.writers[w].wid == n
        && s.writers[w].prev < s.writers[w].req.ts
      case InMem(b, i) =>
        b < |s.blocks| && i < |s.blocks[b].recs| && s.blocks[b].recs[i].wid == n && Unprocessed(s.blocks[b], i)
      case InTb(j, i) =>
        j < |s.tbs| && s.tbs[j].Some? && i < |s.tbs[j].value.recs| && s.tbs[j].value.recs[i].wid == n
      case InTocChan(t, i) => t in s.tocChan && i < |s.tocChan[t].tb.recs| && s.tocChan[t].tb.recs[i].wid == n
      case InToc(f, i) => f in s.tocs && i < |s.tocs[f]| && s.tocs[f][i].wid == n
      case Superseded(m) => m < |s.log| && n < |s.log| && s.log[m].key == s.log[n].key && s.log[m].ts > s.log[n].ts
      case Lost => true
  }

  ghost predicate PlacesOk(s: State)
  {
    forall n: nat :: PlaceOk(s, n)
  }

  /** A location is that of a log entry for its key and selects that entry's value; a memory block it
      names still holds the unprocessed record of that entry. */
  ghost predicate LocOk(loc: Map, log: seq<Taken>, place: seq<Place>, files: seq<Bytes>, blocks: seq<Block>,
                        writers: seq<Pc>, k: Key)
  {
    k in loc ==>
      var l := loc[k];
      && l.aux < |log| && l.aux < |place| && log[l.aux].key == k && log[l.aux].ts == l.ts
      && l.len == |log[l.aux].val|
      && match l.id
         case NoBlock => false
         case File(f) =>
           f < |files| && l.off + l.len <= |files[f]| && files[f][l.off..l.off + l.len] == log[l.aux].val
         case Mem(b) => NamesBlock(place, blocks, writers, l, b)
  }

  ghost predicate NamesBlock(place: seq<Place>, blocks: seq<Block>, writers: seq<Pc>, l: Loc, b: nat)
  {
    l.aux < |place| &&
    match place[l.aux]
    case InFlight(w) => w < |writers| && writers[w].Placed? && writers[w].b == b && writers[w].off == l.off
    case InMem(b', i) => b' == b && b < |blocks| && i < |blocks[b].recs| && blocks[b].recs[i].off == l.off
    case _ => false
  }

  ghost predicate LocsOk(loc: Map, log: seq<Taken>, place: seq<Place>, files: seq<Bytes>, blocks: seq<Block>,
                         writers: seq<Pc>)
  {
    forall k :: LocOk(loc, log, place, files, blocks, writers, k)
  }

  /** A reader only ever has, or gets, the value of a log entry for its key. */
  ghost predicate ReaderOk(rd: Reader, log: seq<Taken>, blocks: seq<Block>, writers: seq<Pc>)
  {
    match rd
    case Holding(k, b, l) =>
      && l.aux < |log| && log[l.aux].key == k && log[l.aux].ts == l.ts && l.id == Mem(b)
      && b < |blocks| && l.off + l.len <= |blocks[b].values|
      && blocks[b].values[l.off..l.off + l.len] == log[l.aux].val
      && (blocks[b].owner.AtWriter? ==> BelowCopy(writers, blocks[b].owner.w, b, l.off + l.len))
    case Finished(k, l, bytes) =>
      l.aux < |log| && log[l.aux].key == k && log[l.aux].ts == l.ts && bytes == log[l.aux].val
    case _ => true
  }

  /** A writer that has not finished copying works on bytes at or above `end`. */
  predicate BelowCopy(writers: seq<Pc>, w: nat, b: nat, end: nat)
  {
    w < |writers| && (writers[w].Extended? || writers[w].Copied?) && writers[w].b == b ==> end <= writers[w].off
  }

  ghost predicate ReadersOk(readers: seq<Reader>, log: seq<Taken>, blocks: seq<Block>, writers: seq<Pc>)
  {
    forall r :: 0 <= r < |readers| ==> ReaderOk(readers[r], log, blocks, writers)
  }

  /** No removal marker of k was taken. */
  ghost predicate NoRemovals(log: seq<Taken>, k: Key)
  {
    forall n :: 0 <= n < |log| && log[n].key == k ==> !Removal(log[n].ts)
  }

  /** The map holds the newest stamp taken for k. */
  ghost predicate HoldsNewest(log: seq<Taken>, loc: Map, k: Key)
  {
    forall n :: 0 <= n < |log| && log[n].key == k ==> k in loc && log[n].ts <= loc[k].ts
  }

  /** The stamps taken for k never fall, and rise except for rewrites. */
  ghost predicate Rising(log: seq<Taken>, k: Key)
  {
    forall m, n :: 0 <= m < n < |log| && log[m].key == k && log[n].key == k ==>
      log[m].ts <= log[n].ts && (!log[n].rewrite ==> log[m].ts < log[n].ts)
  }

  /** No TOC record of k was lost. */
  ghost predicate NoneLost(log: seq<Taken>, place: seq<Place>, k: Key)
  {
    forall n :: 0 <= n < |log| && n < |place| && log[n].key == k ==> !place[n].Lost?
  }

  ghost predicate HistoryAt(log: seq<Taken>, loc: Map, place: seq<Place>, k: Key)
  {
    NoRemovals(log, k) && NoneLost(log, place, k) ==> HoldsNewest(log, loc, k) && Rising(log, k)
  }

  ghost predicate HistoryOk(log: seq<Taken>, loc: Map, place: seq<Place>)
  {
    forall k {:trigger HistoryAt(log, loc, place, k)} :: HistoryAt(log, loc, place, k)
  }

  /** What is lost stays lost. */
  predicate LostStays(place: seq<Place>, place': seq<Place>)
  {
    |place| <= |place'| && forall n :: 0 <= n < |place| && place[n].Lost? ==> place'[n].Lost?
  }

  lemma HistoryStays(log: seq<Taken>, loc: Map, place: seq<Place>, place': seq<Place>)
    requires HistoryOk(log, loc, place) && LostStays(place, place')
    ensures HistoryOk(log, loc, place')
  {
    forall k ensures HistoryAt(log, loc, place', k) { assert HistoryAt(log, loc, place, k); }
  }

  // Flush and shutdown.

  function WLeft(tok: seq<WTok>): nat
  {
    if tok == [] then 0 else WLeft(tok[..|tok| - 1]) + (if tok[|tok| - 1].WDone? then 0 else 1)
  }

  function CLeft(tok: seq<CTok>): nat
  {
    if tok == [] then 0 else CLeft(tok[..|tok| - 1]) + (if tok[|tok| - 1].CDone? then 0 else 1)
  }

  /** The drain still waits for memWriters' tokens. */
  ghost predicate Phase1(d: Drain)
  {
    && (forall j :: 0 <= j < |d.ctok| ==> d.ctok[j].CWait?)
    && d.wleft == WLeft(d.wtok)
  }

  /** fileWriter has closed its file and sent the tokens on to the memClearers. */
  ghost predicate Phase2(d: Drain, open: Option<nat>, nf: nat)
  {
    && (forall w :: 0 <= w < |d.wtok| ==> d.wtok[w].WDone?)
    && (forall j :: 0 <= j < |d.ctok| ==> !d.ctok[j].CWait?)
    && d.fmark <= nf && (open.Some? ==> d.fmark <= open.value)
  }

  ghost predicate AllWait(d: Drain) { forall w :: 0 <= w < |d.wtok| ==> d.wtok[w].WWait? }

  ghost predicate StampsOk(d: Drain, clock: nat)
  {
    && (forall w :: 0 <= w < |d.wtok| && d.wtok[w].WSent? ==> d.wtok[w].t < clock)
    && (forall j :: 0 <= j < |d.ctok| && d.ctok[j].CSent? ==> d.ctok[j].t < clock)
    && (forall j :: 0 <= j < |d.ctok| && d.ctok[j].CPassed? ==> d.ctok[j].t < clock)
  }

  ghost predicate TokensOk(c: Config, d: Drain, mode: Mode, clock: nat, open: Option<nat>, nf: nat, nlog: nat)
  {
    && |d.wtok| == c.workers && |d.ctok| == c.workers && c.workers >= 1
    && d.cleft == CLeft(d.ctok)
    && (Phase1(d) || Phase2(d, open, nf))
    && (!mode.Draining? ==> Phase1(d) && AllWait(d))
    && (mode.Draining? ==> mode.mark <= nlog)
    && StampsOk(d, clock)
  }

  /** After its shutdown token a memWriter takes no more requests. */
  predicate MayWrite(mode: Mode, d: Drain, w: nat)
  {
    mode.Running? || (mode.Draining? && (mode.shutdown ==> w < |d.wtok| && d.wtok[w].WWait?))
  }

  ghost predicate BusyMayWrite(writers: seq<Pc>, mode: Mode, d: Drain)
  {
    forall w :: 0 <= w < |writers| && !writers[w].Idle? ==> MayWrite(mode, d, w)
  }

  /** The drain in progress must bring this log entry to disk. */
  ghost predicate Covered(mode: Mode, n: nat)
  {
    mode.Draining? && (mode.shutdown || n < mode.mark)
  }

  predicate WBefore(d: Drain, w: nat) { w < |d.wtok| && d.wtok[w].WWait? }

  /** Clearer j has not yet passed its token on, and a file it still works on is closed once it has one. */
  predicate BeforeToken(d: Drain, j: nat, file: nat)
  {
    j < |d.ctok| && (d.ctok[j].CWait? || (d.ctok[j].CSent? && file < d.fmark))
  }

  predicate StillPhase1(d: Drain) { |d.ctok| > 0 && d.ctok[0].CWait? }

  predicate OwnerAhead(d: Drain, o: Owner, file: nat)
  {
    match o
    case Free => false
    case AtWriter(w) => WBefore(d, w)
    case InFileChan(w, t) => w < |d.wtok| && (d.wtok[w].WWait? || (d.wtok[w].WSent? && t < d.wtok[w].t))
    case HeldByFile => StillPhase1(d)
    case InClearChan(j, t) => BeforeToken(d, j, file) && (d.ctok[j].CSent? ==> t < d.ctok[j].t)
    case AtClearer(j, pos) => BeforeToken(d, j, file)
  }

  predicate MsgAhead(d: Drain, t: nat, m: TocMsg)
  {
    m.j < |d.ctok| &&
    match d.ctok[m.j]
    case CWait => true
    case CSent(_) => m.tb.file < d.fmark
    case CPassed(u) => t < u && m.tb.file < d.fmark
    case CDone => false
  }

  /** A covered record is never behind the token that must follow it. */
  ghost predicate AheadOfToken(place: seq<Place>, mode: Mode, d: Drain, blocks: seq<Block>,
                               tbs: seq<Option<TocBlock>>, tocChan: map<nat, TocMsg>, n: nat)
  {
    n < |place| && Covered(mode, n) ==>
      match place[n]
      case InFlight(w) => WBefore(d, w)
      case InMem(b, i) => b < |blocks| && OwnerAhead(d, blocks[b].owner, blocks[b].file)
      case InTb(j, i) => j < |tbs| && tbs[j].Some? && BeforeToken(d, j, tbs[j].value.file)
      case InTocChan(t, i) => t in tocChan && MsgAhead(d, t, tocChan[t])
      case InToc(f, i) => StillPhase1(d) || f < d.fmark
      case Superseded(_) => true
      case Lost => true
  }

  ghost predicate DrainOk(place: seq<Place>, mode: Mode, d: Drain, blocks: seq<Block>,
                          tbs: seq<Option<TocBlock>>, tocChan: map<nat, TocMsg>)
  {
    forall n: nat :: AheadOfToken(place, mode, d, blocks, tbs, tocChan, n)
  }

  /** log[n] is in a closed TOC file and its value file is closed too, or a newer write replaced it, or its TOC file
      was created anew. */
  ghost predicate SafeAt(s: State, n: nat)
  {
    n < |s.place| &&
    (s.place[n].Superseded? || s.place[n].Lost? ||
     (s.place[n].InToc? && TocClosed(s, s.place[n].f) && FileClosed(s, s.place[n].f)))
  }

  ghost predicate FlushedOk(s: State)
  {
    && (forall n: nat :: n < s.flushed ==> SafeAt(s, n))
    && (s.mode.Stopped? ==> s.flushed == |s.log|)
  }

  /** The part of the invariant that does not speak of what is on disk. */
  ghost predicate Core(c: Config, s: State)
  {
    && Shape(c, s)
    && MemRecsOk(s.blocks, s.writers, s.log, s.place)
    && FilesOk(s.files)
    && BlocksInFile(s.blocks, s.files)
    && TbRecsOk(s.tbs, s.files, s.log)
    && ChanRecsOk(s.tocChan, s.files, s.log)
    && FileRecsOk(s.tocs, s.files, s.log)
    && PlacesOk(s)
    && PcsOk(s.writers, s.blocks, s.log, s.place)
    && LocsOk(s.loc, s.log, s.place, s.files, s.blocks, s.writers)
    && ReadersOk(s.readers, s.log, s.blocks, s.writers)
    && HistoryOk(s.log, s.loc, s.place)
    && TokensOk(c, s.drain, s.mode, s.clock, s.open, |s.files|, |s.log|)
    && BusyMayWrite(s.writers, s.mode, s.drain)
    && DrainOk(s.place, s.mode, s.drain, s.blocks, s.tbs, s.tocChan)
    && FlushedOk(s)
  }

  ghost predicate Init(c: Config, s: State)
  {
    && c.workers >= 1 && c.interval > 0
    && s.clock == 0 && s.loc == map[] && s.files == [] && s.disk == [] && s.open.None? && !s.closing
    && s.tocChan == map[] && s.tocs == map[]
    && s.tocA.None? && s.tocB.None? && s.mode.Running? && s.drain == FreshDrain(c)
    && s.flushed == 0 && s.log == [] && s.place == []
    && s.blocks == seq(|s.blocks|, _ => EMPTY_BLOCK)
    && s.writers == seq(c.workers, _ => Idle)
    && s.tbs == seq(c.workers, _ => None)
    && s.readers == seq(|s.readers|, _ => NoRead)
  }
}
