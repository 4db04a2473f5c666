/** A map from keys to timestamped values in which the newest timestamp wins: what a store's location map and its
    values come to for a reader. */
module Versions {
  import opened Base
  import opened Stamp
  import LocMap

  datatype Version<T> = Version(ts: nat, val: T)

  function TsOf<T>(m: map<Key, Version<T>>, k: Key): nat { if k in m then m[k].ts else 0 }

  /** The store's write: the newer timestamp wins; bit 0 asks for overwriting an equal one and is not stored. */
  function Put<T>(m: map<Key, Version<T>>, k: Key, ts: nat, val: T): map<Key, Version<T>>
  {
    if TsOf(m, k) < ts then m[k := Version(Stored(ts), val)] else m
  }

  /** The location map has the same keys at the same stamps. */
  ghost predicate Agrees<T>(l: LocMap.Map, m: map<Key, Version<T>>)
  {
    l.Keys == m.Keys && forall k {:trigger l[k]} {:trigger m[k]} :: k in m ==> l[k].ts == m[k].ts
  }

  /** Put is the store's write through the location map: they stay in agreement, and the value is replaced exactly when
      the location is. */
  lemma PutIsWrite<T>(l: LocMap.Map, m: map<Key, Version<T>>, k: Key, ts: nat, val: T, id: LocMap.BlockId, off: nat,
                      len: nat, aux: nat)
    requires Agrees(l, m) && id != LocMap.NoBlock
    ensures var l', m' := LocMap.Write(l, k, ts, id, off, len, aux), Put(m, k, ts, val);
            && Agrees(l', m')
            && (LocMap.Takes(l, k, Stored(ts), Rewrite(ts)) ==>
                  k in m' && m'[k].val == val && l'[k] == LocMap.Loc(Stored(ts), id, off, len, aux))
            && (!LocMap.Takes(l, k, Stored(ts), Rewrite(ts)) ==> m' == m && l' == l)
  {
  }
}
