/** What the four steps of one request come to when nothing else moves, for every request: the page is extended, the
    value copied, the location map set, and then a TOC record is appended or the bytes are given back. */
module PipelineRequests {
  import opened Base
  import opened Stamp
  import opened LocMap
  import opened Pipeline
  import opened PipelineWriters
  import opened PipelineDisk
  import opened PipelineRuns
  import opened PipelineReads

  /** A memWriter that may write and has a page that no reader holds. */
  predicate CanWrite(c: Config, s: State, w: nat, b: nat)
    requires Sizes(c, s)
  {
    && w < c.workers && b < |s.blocks| && s.blocks[b].owner == AtWriter(w) && s.writers[w].Idle?
    && MayWrite(s.mode, s.drain, w) && !HasReader(s, b)
  }

  /** The bytes a value takes in a page. */
  function Padded(c: Config, val: Bytes): Bytes { val + Zeros(Alloc(c, |val|) - |val|) }

  /** The page with the value behind what it held, and the memWriter somewhere with the request. */
  function InPage(c: Config, s: State, w: nat, b: nat, val: Bytes, pc: Pc): State
    requires w < |s.writers| && b < |s.blocks|
  {
    s.(blocks := s.blocks[b := s.blocks[b].(values := s.blocks[b].values + Padded(c, val))],
       writers := s.writers[w := pc])
  }

  /** Any request can be taken, and any bytes the page has room for are overwritten. */
  lemma ValueIsCopied(c: Config, s: State, w: nat, b: nat, req: Req, junk: Bytes) returns (s1: State)
    requires Inv(c, s) && CanWrite(c, s, w, b) && |junk| == Alloc(c, |req.val|)
    ensures Steps(c, s, Extend(w, b, req, junk), s1)
    ensures var t := InPage(c, s, w, b, req.val, Copied(b, req, |s.blocks[b].values|));
            Steps(c, s1, Copy(w), t) && Inv(c, t)
  {
    s1 := Pipeline.Apply(c, s, Extend(w, b, req, junk));
    StepKeepsInv(c, s, Extend(w, b, req, junk));
    StepKeepsInv(c, s1, Copy(w));
    CopiedIs(c, s, w, b, req, junk);
  }

  lemma CopiedIs(c: Config, s: State, w: nat, b: nat, req: Req, junk: Bytes)
    requires w < |s.writers| && b < |s.blocks| && |junk| == Alloc(c, |req.val|)
    ensures ApplyCopy(ApplyExtend(s, w, b, req, junk), w) ==
            InPage(c, s, w, b, req.val, Copied(b, req, |s.blocks[b].values|))
  {
    var was := s.blocks[b].values;
    assert (was + junk)[..|was|] == was;
    assert was + req.val + Zeros(|was + junk| - |was| - |req.val|) == was + Padded(c, req.val);
  }

  /** The state after a request that the map took. */
  function Written(c: Config, s: State, w: nat, b: nat, req: Req): State
    requires b < |s.blocks|
  {
    var blk, n := s.blocks[b], |s.log|;
    var off := |blk.values|;
    s.(loc := s.loc[req.key := Loc(Stored(req.ts), Mem(b), off, |req.val|, n)],
       blocks := s.blocks[b := blk.(values := blk.values + Padded(c, req.val),
                                    recs := blk.recs + [Rec(req.key, Stored(req.ts), off, |req.val|, n)])],
       log := s.log + [Taken(req.key, Stored(req.ts), req.val, Rewrite(req.ts))],
       place := s.place + [InMem(b, |blk.recs|)])
  }

  /** A request newer than the map's stamp, from the copied value on. */
  lemma TakenIs(c: Config, s: State, w: nat, b: nat, req: Req) returns (s3: State)
    requires Inv(c, s) && CanWrite(c, s, w, b) && TsOf(s.loc, req.key) < req.ts
    requires Inv(c, InPage(c, s, w, b, req.val, Copied(b, req, |s.blocks[b].values|)))
    ensures Steps(c, InPage(c, s, w, b, req.val, Copied(b, req, |s.blocks[b].values|)), PlaceInMap(w), s3)
    ensures Steps(c, s3, Record(w), Written(c, s, w, b, req))
  {
    var t := InPage(c, s, w, b, req.val, Copied(b, req, |s.blocks[b].values|));
    s3 := Pipeline.Apply(c, t, PlaceInMap(w));
    StepKeepsInv(c, t, PlaceInMap(w));
    RecordIffTaken(s.loc, req.key, req.ts);
    RecordedIs(c, s, w, b, req);
  }

  lemma RecordedIs(c: Config, s: State, w: nat, b: nat, req: Req)
    requires w < |s.writers| && b < |s.blocks| && s.writers[w].Idle? && TsOf(s.loc, req.key) < req.ts
    requires |s.place| == |s.log|
    ensures ApplyRecord(ApplyPlace(InPage(c, s, w, b, req.val, Copied(b, req, |s.blocks[b].values|)), w), w) ==
            Written(c, s, w, b, req)
  {
    var s4 := ApplyRecord(ApplyPlace(InPage(c, s, w, b, req.val, Copied(b, req, |s.blocks[b].values|)), w), w);
    assert s4.writers == s.writers;
    assert s4.blocks == Written(c, s, w, b, req).blocks;
    assert s4.place == Written(c, s, w, b, req).place;
  }

  /** One that is not, from the copied value on. */
  lemma RefusedIs(c: Config, s: State, w: nat, b: nat, req: Req) returns (s3: State)
    requires Inv(c, s) && CanWrite(c, s, w, b) && TsOf(s.loc, req.key) >= req.ts
    requires Inv(c, InPage(c, s, w, b, req.val, Copied(b, req, |s.blocks[b].values|)))
    ensures Steps(c, InPage(c, s, w, b, req.val, Copied(b, req, |s.blocks[b].values|)), PlaceInMap(w), s3)
    ensures Steps(c, s3, Truncate(w), s)
  {
    var t := InPage(c, s, w, b, req.val, Copied(b, req, |s.blocks[b].values|));
    s3 := Pipeline.Apply(c, t, PlaceInMap(w));
    StepKeepsInv(c, t, PlaceInMap(w));
    TruncatedIs(c, s, w, b, req);
  }

  lemma TruncatedIs(c: Config, s: State, w: nat, b: nat, req: Req)
    requires w < |s.writers| && b < |s.blocks| && s.writers[w].Idle? && TsOf(s.loc, req.key) >= req.ts
    ensures ApplyTruncate(ApplyPlace(InPage(c, s, w, b, req.val, Copied(b, req, |s.blocks[b].values|)), w), w) == s
  {
    var s4 := ApplyTruncate(ApplyPlace(InPage(c, s, w, b, req.val, Copied(b, req, |s.blocks[b].values|)), w), w);
    assert s4.writers == s.writers;
    assert s4.blocks[b].values == s.blocks[b].values;
    assert s4.blocks == s.blocks;
  }

  // ---------------------------------------------------------------- what a request comes to

  /** The four steps of one request, one after another. */
  ghost predicate Writes(c: Config, s: State, w: nat, b: nat, req: Req, junk: Bytes, s1: State, s2: State, s3: State,
                         s4: State)
  {
    && Steps(c, s, Extend(w, b, req, junk), s1) && Steps(c, s1, Copy(w), s2) && Steps(c, s2, PlaceInMap(w), s3)
    && (Steps(c, s3, Record(w), s4) || Steps(c, s3, Truncate(w), s4))
  }

  /** Any request, exactly: one that is not newer than the map's stamp leaves the store as it was, the page included;
      a newer one is what its key reads as from then on, no other key reads differently, and its page has one more
      record and as many more bytes as the value takes. */
  lemma UndisturbedWrite(c: Config, s: State, w: nat, b: nat, req: Req, junk: Bytes)
      returns (s1: State, s2: State, s3: State, s4: State)
    requires Inv(c, s) && CanWrite(c, s, w, b) && |junk| == Alloc(c, |req.val|)
    ensures Writes(c, s, w, b, req, junk, s1, s2, s3, s4)
    ensures TsOf(s.loc, req.key) >= req.ts ==> s4 == s
    ensures TsOf(s.loc, req.key) < req.ts ==>
              && ReadKey(s4, req.key) == AnswerOf(Stored(req.ts), req.val)
              && (forall k :: k != req.key ==> ReadKey(s4, k) == ReadKey(s, k))
              && |s4.blocks| == |s.blocks|
              && |s4.blocks[b].values| == |s.blocks[b].values| + Max(|req.val|, c.minAlloc)
              && s4.blocks[b].recs == s.blocks[b].recs +
                 [Rec(req.key, Stored(req.ts), |s.blocks[b].values|, |req.val|, |s.log|)]
  {
    s1 := ValueIsCopied(c, s, w, b, req, junk);
    s2 := InPage(c, s, w, b, req.val, Copied(b, req, |s.blocks[b].values|));
    if TsOf(s.loc, req.key) >= req.ts {
      s3 := RefusedIs(c, s, w, b, req);
      s4 := s;
    } else {
      s3 := TakenIs(c, s, w, b, req);
      s4 := Written(c, s, w, b, req);
      WrittenAnswers(c, s, w, b, req);
    }
  }

  lemma WrittenAnswers(c: Config, s: State, w: nat, b: nat, req: Req)
    requires Inv(c, s) && CanWrite(c, s, w, b)
    ensures ReadKey(Written(c, s, w, b, req), req.key) == AnswerOf(Stored(req.ts), req.val)
    ensures forall k :: k != req.key ==> ReadKey(Written(c, s, w, b, req), k) == ReadKey(s, k)
  {
    var t, was := Written(c, s, w, b, req), s.blocks[b].values;
    assert Slice(t.blocks[b].values, |was|, |req.val|) == req.val;
    forall k | k != req.key ensures ReadKey(t, k) == ReadKey(s, k) {
      if k in s.loc {
        LocSelectsValue(c, s, k);
        if s.loc[k].id == Mem(b) { SliceStays(was, Padded(c, req.val), s.loc[k].off, s.loc[k].len); }
      }
    }
  }

  lemma SliceStays(v: Bytes, more: Bytes, off: nat, len: nat)
    requires off + len <= |v|
    ensures Slice(v + more, off, len) == Slice(v, off, len)
  {
  }
}
