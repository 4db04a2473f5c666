/** The contract the store relies on for its location map: one location per key, newest timestamp wins.
    `aux` is a label the models attach to a location to follow it; the map never looks at it. */
module LocMap {
  import opened Base
  import opened Stamp

  /** NoBlock is the source's block id 0. */
  datatype BlockId = NoBlock | Mem(b: nat) | File(f: nat)

  datatype Loc = Loc(ts: nat, id: BlockId, off: nat, len: nat, aux: nat)

  type Map = map<Key, Loc>

  /** The timestamp Get reports: zero for an unknown key. */
  function TsOf(m: Map, k: Key): nat { if k in m then m[k].ts else 0 }

  /** locmap.Set takes effect on a strictly newer timestamp, and on an equal one when asked to. */
  predicate Takes(m: Map, k: Key, ts: nat, evenIfSame: bool)
  {
    TsOf(m, k) < ts || (evenIfSame && TsOf(m, k) == ts)
  }

  /** locmap.Set; the previous timestamp it returns is TsOf(m, k). Block id 0 removes the key. */
  function Set(m: Map, k: Key, loc: Loc, evenIfSame: bool): Map
  {
    if !Takes(m, k, loc.ts, evenIfSame) then m
    else if loc.id.NoBlock? then m - {k}
    else m[k := loc]
  }

  /** memWriter's use of Set: bit 0 only asks for the equal-timestamp overwrite and is not stored. */
  function Write(m: Map, k: Key, reqTs: nat, id: BlockId, off: nat, len: nat, aux: nat): Map
  {
    Set(m, k, Loc(Stored(reqTs), id, off, len, aux), Rewrite(reqTs))
  }

  /** memWriter appends a TOC record when `ptimestampbits < writeReq.timestampbits`: exactly when
      the map took the write. */
  lemma RecordIffTaken(m: Map, k: Key, reqTs: nat)
    ensures TsOf(m, k) < reqTs <==> Takes(m, k, Stored(reqTs), Rewrite(reqTs))
  {
  }

  /** A delete takes over from a write of the same microsecond; a rewrite or a removal marker of a write never
      displaces that delete or anything newer. */
  lemma DeletesStand(m: Map, k: Key, micro: nat, id: BlockId, off: nat, len: nat, aux: nat)
    ensures TsOf(m, k) == WriteStamp(micro) ==> Takes(m, k, DeleteStamp(micro), false)
    ensures TsOf(m, k) >= DeleteStamp(micro) ==>
              && Write(m, k, WithRewrite(WriteStamp(micro)), id, off, len, aux) == m
              && Write(m, k, WithRemoval(WriteStamp(micro)), id, off, len, aux) == m
    ensures TsOf(m, k) > WithRemoval(WriteStamp(micro)) ==>
              && Write(m, k, WithRewrite(WriteStamp(micro)), id, off, len, aux) == m
              && Write(m, k, WithRemoval(WriteStamp(micro)), id, off, len, aux) == m
  {
    StampFlags(micro);
    StampOrder(micro, micro + 1);
  }

  datatype Req = Req(key: Key, ts: nat, val: Bytes)

  /** Any sequence of requests applied through memWriter; request i goes to offset i of block 0. */
  function Apply(m: Map, reqs: seq<Req>): Map
  {
    if reqs == [] then m
    else
      var r := reqs[|reqs| - 1];
      var n := |reqs| - 1;
      Write(Apply(m, reqs[..n]), r.key, r.ts, Mem(0), n, |r.val|, n)
  }

  /** The largest stored stamp requested for k, or zero. */
  function Newest(reqs: seq<Req>, k: Key): nat
  {
    if reqs == [] then 0
    else
      var r := reqs[|reqs| - 1];
      var n := Newest(reqs[..|reqs| - 1], k);
      if r.key == k && n < Stored(r.ts) then Stored(r.ts) else n
  }

  /** Newest depends only on which requests occur, not on their order. */
  lemma {:induction false} NewestIsMax(reqs: seq<Req>, k: Key)
    ensures forall i :: 0 <= i < |reqs| && reqs[i].key == k ==> Stored(reqs[i].ts) <= Newest(reqs, k)
    ensures Newest(reqs, k) == 0 ||
            exists i :: 0 <= i < |reqs| && reqs[i].key == k && Stored(reqs[i].ts) == Newest(reqs, k)
  {
    if reqs != [] {
      var front := reqs[..|reqs| - 1];
      NewestIsMax(front, k);
      assert forall i :: 0 <= i < |front| ==> front[i] == reqs[i];
      var r := reqs[|reqs| - 1];
      if Newest(reqs, k) == Newest(front, k) && Newest(front, k) != 0 {
        var i :| 0 <= i < |front| && front[i].key == k && Stored(front[i].ts) == Newest(front, k);
        assert reqs[i] == front[i];
      }
    }
  }

  /** Last writer wins: after any sequence of writes, deletes, rewrites and removal markers each key
      holds the newest stamp requested for it (bit 0 never stored), at the place of a request for that
      key which carried that stamp. */
  lemma {:induction false} LastWriterWins(reqs: seq<Req>, k: Key)
    ensures TsOf(Apply(map[], reqs), k) == Newest(reqs, k)
    ensures !Rewrite(TsOf(Apply(map[], reqs), k))
    ensures k in Apply(map[], reqs) ==>
              var i := Apply(map[], reqs)[k].off;
              i < |reqs| && reqs[i].key == k && Stored(reqs[i].ts) == Newest(reqs, k) &&
              Apply(map[], reqs)[k].len == |reqs[i].val|
  {
    if reqs != [] {
      LastWriterWins(reqs[..|reqs| - 1], k);
    }
  }

  /** The outcome is the same for every order of the same requests. */
  lemma OrderDoesNotMatter(reqs: seq<Req>, perm: seq<Req>, k: Key)
    requires multiset(reqs) == multiset(perm)
    ensures TsOf(Apply(map[], reqs), k) == TsOf(Apply(map[], perm), k)
  {
    LastWriterWins(reqs, k);
    LastWriterWins(perm, k);
    NewestIsMax(reqs, k);
    NewestIsMax(perm, k);
    forall i | 0 <= i < |reqs| ensures reqs[i] in perm { assert reqs[i] in multiset(reqs); }
    forall i | 0 <= i < |perm| ensures perm[i] in reqs { assert perm[i] in multiset(perm); }
  }
}
