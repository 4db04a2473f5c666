/** Timestamp bits (package.go): the microsecond is shifted left by 8 and the low byte carries flags. */
module Stamp {
  const UTIL_BITS_SHIFT: nat := 256
  const DELETION: nat := 0x80
  const COMPACTION_REWRITE: nat := 0x01
  const LOCAL_REMOVAL: nat := 0x02
  const TIMESTAMPMICRO_MIN: nat := 256
  const TIMESTAMPMICRO_MAX: nat := 0xff_ffff_ffff_ffff

  predicate Deletion(ts: nat) { ts / DELETION % 2 == 1 }

  predicate Removal(ts: nat) { ts / LOCAL_REMOVAL % 2 == 1 }

  predicate Rewrite(ts: nat) { ts % 2 == 1 }

  /** ts with a flag bit set (the source's `|`). */
  function WithRemoval(ts: nat): nat { if Removal(ts) then ts else ts + LOCAL_REMOVAL }

  function WithRewrite(ts: nat): nat { if Rewrite(ts) then ts else ts + COMPACTION_REWRITE }

  /** ts with bit 0 cleared (the source's `& ^uint64(_TSB_COMPACTION_REWRITE)`). */
  function Stored(ts: nat): nat { ts - ts % 2 }

  function Micros(ts: nat): nat { ts / UTIL_BITS_SHIFT }

  /** What Write and Delete hand to the store for a microsecond. */
  function WriteStamp(micro: nat): nat { micro * UTIL_BITS_SHIFT }

  function DeleteStamp(micro: nat): nat { micro * UTIL_BITS_SHIFT + DELETION }

  /** The flags of the stamps Write and Delete produce. */
  lemma StampFlags(micro: nat)
    ensures !Rewrite(WriteStamp(micro)) && !Removal(WriteStamp(micro)) && !Deletion(WriteStamp(micro))
    ensures !Rewrite(DeleteStamp(micro)) && !Removal(DeleteStamp(micro)) && Deletion(DeleteStamp(micro))
    ensures Micros(WriteStamp(micro)) == micro == Micros(DeleteStamp(micro))
  {
    assert micro * 256 / 2 == micro * 128;
    assert micro * 256 / 128 == micro * 2;
    assert (micro * 256 + 128) / 2 == micro * 128 + 64;
    assert (micro * 256 + 128) / 128 == micro * 2 + 1;
  }

  /** For one microsecond a delete beats a write, a rewrite and a removal marker of that write;
      any later microsecond beats all of them. */
  lemma StampOrder(micro: nat, later: nat)
    requires micro < later
    ensures WriteStamp(micro) < WithRewrite(WriteStamp(micro)) < WithRemoval(WriteStamp(micro)) < DeleteStamp(micro)
    ensures WithRemoval(DeleteStamp(micro)) < WriteStamp(later)
    ensures Stored(WithRewrite(WriteStamp(micro))) == WriteStamp(micro)
  {
    StampFlags(micro);
    assert WriteStamp(later) >= WriteStamp(micro) + 256;
  }

  /** A stored stamp strictly between t and its removal marker would need bit 0, which is never stored. */
  lemma NothingBelowMarker(t: nat, u: nat)
    requires !Rewrite(t) && !Rewrite(u)
    requires t < u
    ensures WithRemoval(t) <= u
  {
  }
}
