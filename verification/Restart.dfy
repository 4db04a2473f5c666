/** Restart from the bytes on disk: closed value files and closed TOC files, read back through the TOC reader and the
    checksummed framing, answer every key as the pipeline's own restart step does. */
module Restart {
  import opened Base
  import opened Stamp
  import opened LocMap
  import opened Framing
  import opened TocFile
  import opened TocRoundTrip
  import opened ValueFile
  import Pipeline
  import PipelineDisk
  import PipelineRuns
  import PipelineReads
  import PipelineSingle

  // ---------------------------------------------------------------- TOC entries as bytes

  /** A TOC entry; the reader takes the block id from the file it reads. */
  datatype Entry = Entry(key: Key, ts: U64, off: U32, len: U32)

  function EncodeEntry(e: Entry): (s: Slot)
    ensures |s| == 32
  {
    PutBE(e.key.a, 8) + PutBE(e.key.b, 8) + PutBE(e.ts, 8) + PutBE(e.off, 4) + PutBE(e.len, 4)
  }

  function DecodeEntry(s: Slot): Entry
    requires |s| == 32
  {
    Entry(Key(Get64(s[0..8]), Get64(s[8..16])), Get64(s[16..24]), Get32(s[24..28]), Get32(s[28..32]))
  }

  lemma FivePieces(a: Bytes, b: Bytes, c: Bytes, d: Bytes, e: Bytes)
    requires |a| == |b| == |c| == 8 && |d| == |e| == 4
    ensures var s := a + b + c + d + e;
            s[0..8] == a && s[8..16] == b && s[16..24] == c && s[24..28] == d && s[28..32] == e
  {
  }

  lemma EntryRoundTrip(e: Entry)
    ensures DecodeEntry(EncodeEntry(e)) == e
    ensures SlotOffset(EncodeEntry(e)) == e.off && SlotKeyB(EncodeEntry(e)) == e.key.b
  {
    FivePieces(PutBE(e.key.a, 8), PutBE(e.key.b, 8), PutBE(e.ts, 8), PutBE(e.off, 4), PutBE(e.len, 4));
    GetPut64(e.key.a); GetPut64(e.key.b); GetPut64(e.ts); GetPut32(e.off); GetPut32(e.len);
  }

  function EncodeAll(es: seq<Entry>): (ss: seq<Slot>)
    ensures |ss| == |es| && forall i :: 0 <= i < |ss| ==> |ss[i]| == 32 && ss[i] == EncodeEntry(es[i])
  {
    seq(|es|, i requires 0 <= i < |es| => EncodeEntry(es[i]))
  }

  /** Slots that are not 32 bytes long do not occur; they are skipped. */
  function DecodeAll(ss: seq<Slot>): seq<Entry>
  {
    if ss == [] then [] else (if |ss[0]| == 32 then [DecodeEntry(ss[0])] else []) + DecodeAll(ss[1..])
  }

  predicate HasOffset(e: Entry) { e.off != 0 }

  /** The entries that are not removal markers. */
  function Located(es: seq<Entry>): seq<Entry> { Filter(es, HasOffset) }

  lemma {:induction false} AllRoundTrip(es: seq<Entry>)
    ensures DecodeAll(Live(EncodeAll(es))) == Located(es)
  {
    if es != [] {
      EntryRoundTrip(es[0]);
      assert EncodeAll(es)[1..] == EncodeAll(es[1..]);
      AllRoundTrip(es[1..]);
    }
  }

  /** The bytes of a closed TOC file of these entries. */
  function TocBytes(h: Hash, interval: nat, es: seq<Entry>): Bytes
    requires interval >= TRAILER_SIZE
  {
    TocFile.Write(h, VALUE_TOC, interval, EncodeAll(es))
  }

  /** The entries the reader finds in a TOC file. */
  function TocEntries(h: Hash, p: Bytes): seq<Entry>
  {
    match ReadToc(h, VALUE_TOC, p)
    case Read(slots, _, _) => DecodeAll(slots)
    case _ => []
  }

  lemma TocEntriesBack(h: Hash, interval: nat, es: seq<Entry>)
    requires HEADER_SIZE <= interval < TWO32 && TerminatorFits(32, interval, |es|)
    ensures TocEntries(h, TocBytes(h, interval, es)) == Located(es)
  {
    RoundTrip(h, VALUE_TOC, interval, EncodeAll(es));
    AllRoundTrip(es);
  }

  // ---------------------------------------------------------------- recovery from bytes

  /** Recovery of one file's entries, as Pipeline.RecoverRecs but without the labels. */
  function RecoverEntries(m: Map, f: nat, es: seq<Entry>): Map
  {
    if es == [] then m
    else
      var n := |es| - 1;
      var e := es[n];
      var before := RecoverEntries(m, f, es[..n]);
      if e.off == 0 then before
      else Set(before, e.key, Loc(e.ts, if Removal(e.ts) then NoBlock else File(f), e.off, e.len, 0), true)
  }

  /** Recovery passes over the entries without an offset, so it does not matter that the reader drops them. */
  lemma {:induction false} MarkersDoNotMatter(m: Map, f: nat, es: seq<Entry>)
    ensures RecoverEntries(m, f, Located(es)) == RecoverEntries(m, f, es)
  {
    if es != [] {
      var n := |es| - 1;
      var e := es[n];
      MarkersDoNotMatter(m, f, es[..n]);
      assert es == es[..n] + [e];
      FilterConcat(es[..n], [e], HasOffset);
      assert Filter([e], HasOffset) == if e.off != 0 then [e] else [];
      if e.off != 0 {
        assert Located(es)[..|Located(es)| - 1] == Located(es[..n]);
      } else {
        assert Located(es) == Located(es[..n]);
      }
    }
  }

  function RecoverBytes(h: Hash, tocs: map<nat, Bytes>, n: nat): Map
  {
    if n == 0 then map[]
    else if n - 1 in tocs then RecoverEntries(RecoverBytes(h, tocs, n - 1), n - 1, TocEntries(h, tocs[n - 1]))
    else RecoverBytes(h, tocs, n - 1)
  }

  /** Read against the recovered map and the bytes of the value files. */
  function AnswerFrom(interval: nat, m: Map, files: seq<Bytes>, k: Key): PipelineReads.Answer
    requires interval > 0
  {
    if k !in m then PipelineReads.NotFound(0)
    else if Deletion(m[k].ts) || Removal(m[k].ts) then PipelineReads.NotFound(m[k].ts)
    else if !m[k].id.File? || m[k].id.f >= |files| then PipelineReads.Failing(m[k].ts)
    else PipelineReads.Found(m[k].ts, Pipeline.Slice(Unframe(interval, files[m[k].id.f]), m[k].off, m[k].len))
  }

  // ---------------------------------------------------------------- the disk image of a stopped store

  ghost predicate InWords(r: Pipeline.Rec) { r.ts < TWO64 && r.off < TWO32 && r.len < TWO32 }

  ghost predicate AllInWords(recs: seq<Pipeline.Rec>) { forall i :: 0 <= i < |recs| ==> InWords(recs[i]) }

  ghost function EntryOf(r: Pipeline.Rec): Entry
    requires InWords(r)
  {
    Entry(r.key, r.ts, r.off, r.len)
  }

  ghost function EntriesOf(recs: seq<Pipeline.Rec>): (es: seq<Entry>)
    requires AllInWords(recs)
    ensures |es| == |recs|
  {
    seq(|recs|, i requires 0 <= i < |recs| => EntryOf(recs[i]))
  }

  /** The files hold what the stopped pipeline says: every record fits its fields, every TOC file is the closed TOC of
      its records, and every value file the closed file of its contents. */
  ghost predicate Image(h: Hash, interval: nat, s: Pipeline.State, tocs: map<nat, Bytes>, files: seq<Bytes>)
  {
    && HEADER_SIZE <= interval < TWO32
    && TocsImage(h, interval, s.tocs, tocs)
    && |files| == |s.files|
    && (forall f :: 0 <= f < |files| ==> files[f] == FrameOpen(h, interval, s.files[f] + TermBlock(interval)))
  }

  ghost predicate TocsImage(h: Hash, interval: nat, recs: map<nat, seq<Pipeline.Rec>>, tocs: map<nat, Bytes>)
    requires interval >= TRAILER_SIZE
  {
    forall f {:trigger TocImageAt(h, interval, recs, tocs, f)} :: TocImageAt(h, interval, recs, tocs, f)
  }

  ghost predicate TocImageAt(h: Hash, interval: nat, recs: map<nat, seq<Pipeline.Rec>>, tocs: map<nat, Bytes>, f: nat)
    requires interval >= TRAILER_SIZE
  {
    (f in recs <==> f in tocs) && (f in recs ==> TocImage(h, interval, recs[f], tocs[f]))
  }

  ghost predicate TocImage(h: Hash, interval: nat, recs: seq<Pipeline.Rec>, p: Bytes)
    requires interval >= TRAILER_SIZE
  {
    AllInWords(recs) && TerminatorFits(32, interval, |recs|) && p == TocBytes(h, interval, EntriesOf(recs))
  }

  // ---------------------------------------------------------------- the two recoveries agree

  /** The same locations, labels aside. */
  ghost predicate Same(a: Map, b: Map)
  {
    forall k {:trigger SameAt(a, b, k)} :: SameAt(a, b, k)
  }

  ghost predicate SameAt(a: Map, b: Map, k: Key)
  {
    (k in a <==> k in b)
    && (k in a ==> a[k].ts == b[k].ts && a[k].id == b[k].id && a[k].off == b[k].off && a[k].len == b[k].len)
  }

  lemma SameSet(a: Map, b: Map, k: Key, l: Loc, l': Loc)
    requires Same(a, b) && l'.ts == l.ts && l'.id == l.id && l'.off == l.off && l'.len == l.len
    ensures Same(Set(a, k, l, true), Set(b, k, l', true))
  {
    assert SameAt(a, b, k);
    forall j ensures SameAt(Set(a, k, l, true), Set(b, k, l', true), j) { assert SameAt(a, b, j); }
  }

  lemma {:induction false} SameRecs(a: Map, b: Map, f: nat, recs: seq<Pipeline.Rec>)
    requires Same(a, b) && AllInWords(recs)
    ensures Same(Pipeline.RecoverRecs(a, f, recs), RecoverEntries(b, f, EntriesOf(recs)))
  {
    if recs != [] {
      var n := |recs| - 1;
      SameRecs(a, b, f, recs[..n]);
      assert EntriesOf(recs)[..n] == EntriesOf(recs[..n]);
      var r := recs[n];
      assert EntriesOf(recs)[n] == EntryOf(r);
      if r.off != 0 {
        var id := if Removal(r.ts) then NoBlock else File(f);
        SameSet(Pipeline.RecoverRecs(a, f, recs[..n]), RecoverEntries(b, f, EntriesOf(recs[..n])), r.key,
                Loc(r.ts, id, r.off, r.len, r.wid), Loc(r.ts, id, r.off, r.len, 0));
      }
    }
  }

  /** One TOC file, recovered from its bytes. */
  lemma SameFile(h: Hash, interval: nat, a: Map, b: Map, recs: seq<Pipeline.Rec>, p: Bytes, f: nat)
    requires HEADER_SIZE <= interval < TWO32 && TocImage(h, interval, recs, p) && Same(a, b)
    ensures Same(Pipeline.RecoverRecs(a, f, recs), RecoverEntries(b, f, TocEntries(h, p)))
  {
    TocEntriesBack(h, interval, EntriesOf(recs));
    MarkersDoNotMatter(b, f, EntriesOf(recs));
    SameRecs(a, b, f, recs);
  }

  lemma {:induction false} SameRecovery(h: Hash, interval: nat, recs: map<nat, seq<Pipeline.Rec>>,
                                        tocs: map<nat, Bytes>, n: nat)
    requires HEADER_SIZE <= interval < TWO32 && TocsImage(h, interval, recs, tocs)
    ensures Same(Pipeline.Recover(recs, n), RecoverBytes(h, tocs, n))
  {
    if n == 0 {
      forall k ensures SameAt(map[], map[], k) { }
    } else {
      SameRecovery(h, interval, recs, tocs, n - 1);
      assert TocImageAt(h, interval, recs, tocs, n - 1);
      if n - 1 in recs {
        SameFile(h, interval, Pipeline.Recover(recs, n - 1), RecoverBytes(h, tocs, n - 1), recs[n - 1], tocs[n - 1],
                 n - 1);
      }
    }
  }

  // ---------------------------------------------------------------- the answers agree

  lemma SliceOfPrefix(v: Bytes, w: Bytes, off: nat, len: nat)
    requires off + len <= |v|
    ensures Pipeline.Slice(v + w, off, len) == Pipeline.Slice(v, off, len)
  {
    assert (v + w)[off..off + len] == v[off..off + len];
  }

  /** A value in a closed value file, through the framing. */
  lemma ValueFromDisk(h: Hash, interval: nat, v: Bytes, off: nat, len: nat)
    requires interval >= HEADER_SIZE && off + len <= |v|
    ensures Pipeline.Slice(Unframe(interval, FrameOpen(h, interval, v + TermBlock(interval))), off, len) ==
              v[off..off + len]
  {
    UnframeFrameOpen(h, interval, v + TermBlock(interval));
    SliceOfPrefix(v, TermBlock(interval), off, len);
  }

  ghost predicate InFile(files: seq<Bytes>, l: Loc)
  {
    l.id.File? && l.id.f < |files| && l.off + l.len <= |files[l.id.f]|
  }

  /** A key's location, if it selects its value in the file's contents, selects it in the file's bytes. */
  lemma AnswersAgree(h: Hash, interval: nat, s: Pipeline.State, m: Map, files: seq<Bytes>, k: Key)
    requires interval >= HEADER_SIZE && |files| == |s.files| && SameAt(s.loc, m, k)
    requires forall f :: 0 <= f < |files| ==> files[f] == FrameOpen(h, interval, s.files[f] + TermBlock(interval))
    requires k in s.loc ==> InFile(s.files, s.loc[k])
    requires !PipelineReads.Unwritten(s, k)
    ensures AnswerFrom(interval, m, files, k) == PipelineReads.ReadKey(s, k)
  {
    if k in s.loc {
      var l := s.loc[k];
      ValueFromDisk(h, interval, s.files[l.id.f], l.off, l.len);
    }
  }

  lemma FromTocInFile(files: seq<Bytes>, log: seq<Pipeline.Taken>, place: seq<Pipeline.Place>, m: Map, k: Key)
    requires PipelineRuns.FromToc(files, log, place, m) && k in m
    ensures InFile(files, m[k])
  {
  }

  /** What a restarted store has in its map is in its files, on disk. */
  lemma RestartedInFiles(c: Pipeline.Config, s: Pipeline.State, k: Key)
    requires PipelineDisk.Inv(c, s) && s.mode.Stopped?
    ensures var s' := Pipeline.ApplyRestart(c, s);
            (k in s'.loc ==> InFile(s'.files, s'.loc[k])) && !PipelineReads.Unwritten(s', k)
  {
    var s' := Pipeline.ApplyRestart(c, s);
    PipelineRuns.RecoverOk(s, |s.files|);
    if k in s'.loc { FromTocInFile(s.files, s.log, s.place, s'.loc, k); }
    PipelineRuns.RestartCore(c, s);
    PipelineRuns.RestartExtra(c, s);
    if PipelineReads.Unwritten(s', k) { PipelineReads.UnwrittenIsPending(c, s', k); }
  }

  /** Restart from disk: take any run with any writes, deletes, rewrites and markers, stop it by a shutdown, and read
      the closed files back byte for byte; every key then answers exactly as after the pipeline's restart step. */
  lemma RestartFromDisk(c: Pipeline.Config, states: seq<Pipeline.State>, steps: seq<Pipeline.Step>, i: nat,
                        h: Hash, interval: nat, tocs: map<nat, Bytes>, files: seq<Bytes>, k: Key)
    requires PipelineRuns.Run(c, states, steps) && i < |states| && states[i].mode.Stopped?
    requires Image(h, interval, states[i], tocs, files)
    ensures AnswerFrom(interval, RecoverBytes(h, tocs, |files|), files, k) ==
            PipelineReads.ReadKey(Pipeline.ApplyRestart(c, states[i]), k)
  {
    var s := states[i];
    var s' := Pipeline.ApplyRestart(c, s);
    PipelineRuns.RunKeepsInv(c, states, steps, i);
    RestartedInFiles(c, s, k);
    SameRecovery(h, interval, s.tocs, tocs, |s.files|);
    assert SameAt(s'.loc, RecoverBytes(h, tocs, |files|), k);
    AnswersAgree(h, interval, s', RecoverBytes(h, tocs, |files|), files, k);
  }

  /** In particular a key with no marker taken and no record lost answers with the last write taken for it. */
  lemma LastWriteFromDisk(c: Pipeline.Config, states: seq<Pipeline.State>, steps: seq<Pipeline.Step>, i: nat,
                          h: Hash, interval: nat, tocs: map<nat, Bytes>, files: seq<Bytes>, k: Key)
    requires PipelineRuns.Run(c, states, steps) && i < |states| && states[i].mode.Stopped?
    requires Image(h, interval, states[i], tocs, files)
    requires var s := states[i];
             Pipeline.NoRemovals(s.log, k) && Pipeline.NoneLost(s.log, s.place, k) && PipelineReads.SameValues(s.log, k)
    ensures AnswerFrom(interval, RecoverBytes(h, tocs, |files|), files, k) == PipelineReads.LastAnswer(states[i].log, k)
  {
    var s := states[i];
    PipelineRuns.RunKeepsInv(c, states, steps, i);
    RestartFromDisk(c, states, steps, i, h, interval, tocs, files, k);
    PipelineReads.RestartChangesNoAnswer(c, s, k);
    PipelineReads.AgreesWithSimpleMap(c, s, k);
    if PipelineReads.Unwritten(s, k) { PipelineReads.UnwrittenIsPending(c, s, k); }
  }

  /** With one worker no record is lost, so every key with no marker taken does. */
  lemma OneWorkerFromDisk(c: Pipeline.Config, states: seq<Pipeline.State>, steps: seq<Pipeline.Step>, i: nat,
                          h: Hash, interval: nat, tocs: map<nat, Bytes>, files: seq<Bytes>, k: Key)
    requires PipelineRuns.Run(c, states, steps) && i < |states| && states[i].mode.Stopped? && c.workers == 1
    requires Image(h, interval, states[i], tocs, files)
    requires Pipeline.NoRemovals(states[i].log, k) && PipelineReads.SameValues(states[i].log, k)
    ensures AnswerFrom(interval, RecoverBytes(h, tocs, |files|), files, k) == PipelineReads.LastAnswer(states[i].log, k)
  {
    var s := states[i];
    forall n | 0 <= n < |s.log| && n < |s.place| ensures !s.place[n].Lost? {
      PipelineSingle.OneWorkerLosesNothing(c, states, steps, i, n);
      assert !PipelineReads.LostAt(s, n);
    }
    LastWriteFromDisk(c, states, steps, i, h, interval, tocs, files, k);
  }
}
