/** The key and timestamp bloom filter of pull replication. The hash and the sizing (which the source computes in
    floating point) are parameters. */
module Bloom {
  import opened Base

  /** murmur3.Sum128: four 32-bit words of it select four bits per round. */
  type Hash128 = Bytes -> (U64, U64)

  type U16 = x: nat | x < 0x1_0000

  /** m bits, and hashing rounds of four bits each. */
  datatype Sizing = Sizing(m: U32, rounds: U32)

  /** Element: a key with its timestamp bits. */
  datatype Elem = Elem(key: Key, ts: U64)

  /** salt<<16 | i: the low half is that of i, the high half the or of salt and the high half of i. */
  function Tag(salt: U16, i: U32): U32
  {
    Or16(salt, i / 0x1_0000) * 0x1_0000 + i % 0x1_0000
  }

  function Or16(x: U16, y: U16): U16 { ((x as bv16) | (y as bv16)) as int }

  function Scratch(salt: U16, i: U32, e: Elem): Bytes
  {
    PutBE(Tag(salt, i), 4) + PutBE(e.key.a, 8) + PutBE(e.key.b, 8) + PutBE(e.ts, 8)
  }

  /** The q-th of the four words of a hash. */
  function Word(hash: (U64, U64), q: nat): nat
  {
    if q == 0 then hash.0 / 0x1_0000_0000
    else if q == 1 then hash.0 % 0x1_0000_0000
    else if q == 2 then hash.1 / 0x1_0000_0000
    else hash.1 % 0x1_0000_0000
  }

  function Position(h: Hash128, z: Sizing, salt: U16, e: Elem, i: U32, q: nat): (bit: nat)
    requires z.m > 0
    ensures bit < z.m
  {
    Word(h(Scratch(salt, i, e)), q) % z.m
  }

  // ---------------------------------------------------------------- what is hashed

  /** Below 2^16 rounds salt and round number do not overlap: the tag is both, side by side. */
  lemma TagSplits(salt: U16, i: U32)
    requires i < 0x1_0000
    ensures Tag(salt, i) == salt * 0x1_0000 + i
  {
    assert (0 as bv16) == (i / 0x1_0000) as bv16;
    assert (salt as bv16) | 0 == salt as bv16;
  }

  lemma ScratchParts(salt: U16, i: U32, e: Elem)
    ensures var s := Scratch(salt, i, e);
            && |s| == 28 && s[..4] == PutBE(Tag(salt, i), 4) && s[4..12] == PutBE(e.key.a, 8)
            && s[12..20] == PutBE(e.key.b, 8) && s[20..28] == PutBE(e.ts, 8)
  {
    FourParts(PutBE(Tag(salt, i), 4), PutBE(e.key.a, 8), PutBE(e.key.b, 8), PutBE(e.ts, 8));
  }

  lemma FourParts(a: Bytes, b: Bytes, c: Bytes, d: Bytes)
    requires |a| == 4 && |b| == |c| == |d| == 8
    ensures var s := a + b + c + d; s[..4] == a && s[4..12] == b && s[12..20] == c && s[20..28] == d
  {
  }

  /** Different elements, and different salts and rounds below 2^16, hash different bytes. */
  lemma ScratchTells(salt: U16, i: U32, e: Elem, salt': U16, i': U32, e': Elem)
    requires Scratch(salt, i, e) == Scratch(salt', i', e')
    ensures e == e' && (i < 0x1_0000 && i' < 0x1_0000 ==> salt == salt' && i == i')
  {
    ScratchParts(salt, i, e); ScratchParts(salt', i', e');
    GetPut32(Tag(salt, i)); GetPut32(Tag(salt', i'));
    GetPut64(e.key.a); GetPut64(e'.key.a);
    GetPut64(e.key.b); GetPut64(e'.key.b);
    GetPut64(e.ts); GetPut64(e'.ts);
    if i < 0x1_0000 && i' < 0x1_0000 {
      TagSplits(salt, i);
      TagSplits(salt', i');
    }
  }

  /** The four words of a round are the whole hash, so any four bits can be selected. */
  lemma WordsAreTheHash(hash: (U64, U64))
    ensures forall q: nat :: q < 4 ==> Word(hash, q) < TWO32
    ensures hash.0 == TWO32 * Word(hash, 0) + Word(hash, 1) && hash.1 == TWO32 * Word(hash, 2) + Word(hash, 3)
  {
  }

  // ---------------------------------------------------------------- bits

  predicate BitIn(b: bv8, j: nat)
    requires j < 8
  {
    b & ((1 as bv8) << j) != 0
  }

  predicate BitSet(bits: seq<bv8>, bit: nat)
    requires bit / 8 < |bits|
  {
    BitIn(bits[bit / 8], bit % 8)
  }

  function WithBit(b: bv8, j: nat): bv8
    requires j < 8
  {
    b | ((1 as bv8) << j)
  }

  /** Setting bit j sets it and no other. */
  lemma WithBitIs(b: bv8, j: nat, k: nat)
    requires j < 8 && k < 8
    ensures BitIn(WithBit(b, j), k) <==> BitIn(b, k) || j == k
  {
  }

  /** A filter as a value: what travels in a message. p is the bit pattern of the false-positive rate. */
  datatype View = View(n: U64, p: U64, salt: U16, bits: seq<bv8>)

  /** Every bit that the element selects is set: what mayHave tests. */
  ghost predicate Has(h: Hash128, z: Sizing, salt: U16, bits: seq<bv8>, e: Elem)
    requires 0 < z.m <= 8 * |bits|
  {
    forall i: U32 :: 1 <= i <= z.rounds ==> RoundSet(h, z, salt, bits, e, i)
  }

  /** The four bits of round i. */
  ghost predicate RoundSet(h: Hash128, z: Sizing, salt: U16, bits: seq<bv8>, e: Elem, i: U32)
    requires 0 < z.m <= 8 * |bits|
  {
    && Selected(h, z, salt, bits, e, i, 0) && Selected(h, z, salt, bits, e, i, 1)
    && Selected(h, z, salt, bits, e, i, 2) && Selected(h, z, salt, bits, e, i, 3)
  }

  lemma RoundGrows(h: Hash128, z: Sizing, salt: U16, a: seq<bv8>, b: seq<bv8>, e: Elem, i: U32)
    requires 0 < z.m <= 8 * |a| && Within(a, b) && RoundSet(h, z, salt, a, e, i)
    ensures RoundSet(h, z, salt, b, e, i)
  {
  }

  ghost predicate Selected(h: Hash128, z: Sizing, salt: U16, bits: seq<bv8>, e: Elem, i: U32, q: nat)
    requires 0 < z.m <= 8 * |bits|
  {
    BitSet(bits, Position(h, z, salt, e, i, q))
  }

  /** Every bit of a is set in b. */
  ghost predicate Within(a: seq<bv8>, b: seq<bv8>)
  {
    |a| == |b| && forall bit: nat :: bit / 8 < |a| && BitSet(a, bit) ==> BitSet(b, bit)
  }

  /** Some round of e selects this bit. */
  ghost predicate Chosen(h: Hash128, z: Sizing, salt: U16, e: Elem, bit: nat)
    requires z.m > 0
  {
    exists i: U32, q: nat :: 1 <= i <= z.rounds && q < 4 && Position(h, z, salt, e, i, q) == bit
  }

  /** Only bits that e selects are set in b beyond those of a. */
  ghost predicate OnlyFor(h: Hash128, z: Sizing, salt: U16, e: Elem, a: seq<bv8>, b: seq<bv8>)
    requires z.m > 0
  {
    |a| == |b| && forall bit: nat :: bit / 8 < |b| && BitSet(b, bit) ==> BitSet(a, bit) || Chosen(h, z, salt, e, bit)
  }

  lemma OnlyForTrans(h: Hash128, z: Sizing, salt: U16, e: Elem, a: seq<bv8>, b: seq<bv8>, c: seq<bv8>)
    requires z.m > 0 && OnlyFor(h, z, salt, e, a, b) && OnlyFor(h, z, salt, e, b, c)
    ensures OnlyFor(h, z, salt, e, a, c)
  {
  }

  /** More bits never lose an element. */
  lemma HasGrows(h: Hash128, z: Sizing, salt: U16, a: seq<bv8>, b: seq<bv8>, e: Elem)
    requires 0 < z.m <= 8 * |a| && Within(a, b) && Has(h, z, salt, a, e)
    ensures Has(h, z, salt, b, e)
  {
    forall i: U32 | 1 <= i <= z.rounds ensures RoundSet(h, z, salt, b, e, i) { RoundGrows(h, z, salt, a, b, e, i); }
  }

  lemma AllGrow(h: Hash128, z: Sizing, salt: U16, a: seq<bv8>, b: seq<bv8>, es: set<Elem>)
    requires 0 < z.m <= 8 * |a| && Within(a, b) && forall e :: e in es ==> Has(h, z, salt, a, e)
    ensures forall e :: e in es ==> Has(h, z, salt, b, e)
  {
    forall e | e in es ensures Has(h, z, salt, b, e) { HasGrows(h, z, salt, a, b, e); }
  }

  ghost predicate ChosenBySome(h: Hash128, z: Sizing, salt: U16, es: iset<Elem>, bit: nat)
    requires z.m > 0
  {
    exists a :: a in es && Chosen(h, z, salt, a, bit)
  }

  /** Only bits that some element of es selects are set. */
  ghost predicate OnlyOf(h: Hash128, z: Sizing, salt: U16, bits: seq<bv8>, es: set<Elem>)
    requires z.m > 0
  {
    forall bit: nat :: bit / 8 < |bits| && BitSet(bits, bit) ==> ChosenBySome(h, z, salt, Every(es), bit)
  }

  ghost function Every(es: set<Elem>): iset<Elem> { iset e | e in es }

  /** Each bit that e selects is also selected by some element of es. */
  ghost predicate Covered(h: Hash128, z: Sizing, salt: U16, es: set<Elem>, e: Elem)
    requires z.m > 0
  {
    forall i: U32, q: nat :: 1 <= i <= z.rounds && q < 4 ==>
      ChosenBySome(h, z, salt, Every(es), Position(h, z, salt, e, i, q))
  }

  lemma OnlyOfGrows(h: Hash128, z: Sizing, salt: U16, a: seq<bv8>, b: seq<bv8>, es: set<Elem>, e: Elem)
    requires z.m > 0 && OnlyOf(h, z, salt, a, es) && OnlyFor(h, z, salt, e, a, b)
    ensures OnlyOf(h, z, salt, b, es + {e})
  {
    forall bit: nat | bit / 8 < |b| && BitSet(b, bit) ensures ChosenBySome(h, z, salt, Every(es + {e}), bit) {
      if BitSet(a, bit) {
        var x :| x in Every(es) && Chosen(h, z, salt, x, bit);
        assert x in Every(es + {e});
      } else {
        assert e in Every(es + {e});
      }
    }
  }

  lemma BitOfElement(h: Hash128, z: Sizing, salt: U16, bits: seq<bv8>, a: Elem, bit: nat)
    requires 0 < z.m <= 8 * |bits| && Has(h, z, salt, bits, a) && Chosen(h, z, salt, a, bit)
    ensures bit / 8 < |bits| && BitSet(bits, bit)
  {
    var i: U32, q: nat :| 1 <= i <= z.rounds && q < 4 && Position(h, z, salt, a, i, q) == bit;
    assert RoundSet(h, z, salt, bits, a, i);
    OfRound(h, z, salt, bits, a, i, q);
  }

  lemma OfRound(h: Hash128, z: Sizing, salt: U16, bits: seq<bv8>, e: Elem, i: U32, q: nat)
    requires 0 < z.m <= 8 * |bits| && RoundSet(h, z, salt, bits, e, i) && q < 4
    ensures Selected(h, z, salt, bits, e, i, q)
  {
    if q == 0 {} else if q == 1 {} else if q == 2 {} else {}
  }

  /** A filter that holds the elements es and no other bits says yes exactly to what es covers. */
  lemma HasIsCovered(h: Hash128, z: Sizing, salt: U16, bits: seq<bv8>, es: set<Elem>, e: Elem)
    requires 0 < z.m <= 8 * |bits| && OnlyOf(h, z, salt, bits, es) && forall a :: a in es ==> Has(h, z, salt, bits, a)
    ensures Has(h, z, salt, bits, e) <==> Covered(h, z, salt, es, e)
  {
    if Has(h, z, salt, bits, e) {
      forall i: U32, q: nat | 1 <= i <= z.rounds && q < 4
        ensures ChosenBySome(h, z, salt, Every(es), Position(h, z, salt, e, i, q))
      {
        OfRound(h, z, salt, bits, e, i, q);
      }
    }
    if Covered(h, z, salt, es, e) {
      forall i: U32 | 1 <= i <= z.rounds ensures RoundSet(h, z, salt, bits, e, i) {
        forall q: nat | q < 4 ensures Selected(h, z, salt, bits, e, i, q) {
          var a :| a in Every(es) && Chosen(h, z, salt, a, Position(h, z, salt, e, i, q));
          BitOfElement(h, z, salt, bits, a, Position(h, z, salt, e, i, q));
        }
      }
    }
  }

  /** valueKTBloomFilter. `added` is what was added since the last reset. */
  class Filter {
    const h: Hash128
    const z: Sizing
    const n: U64
    const p: U64
    var salt: U16
    var bits: array<bv8>
    ghost var added: set<Elem>

    ghost predicate Valid()
      reads this, bits
    {
      && 0 < z.m <= 8 * bits.Length && OnlyOf(h, z, salt, bits[..], added)
      && forall e :: e in added ==> Has(h, z, salt, bits[..], e)
    }

    constructor (h: Hash128, z: Sizing, n: U64, p: U64, salt: U16, size: nat)
      requires 0 < z.m <= 8 * size
      ensures Valid() && fresh(bits) && added == {}
      ensures this.h == h && this.z == z && this.n == n && this.p == p && this.salt == salt
    {
      this.h, this.z, this.n, this.p, this.salt := h, z, n, p, salt;
      bits := new bv8[size](_ => 0);
      added := {};
    }

    method SetBit(bit: nat)
      requires bit / 8 < bits.Length
      modifies bits
      ensures Within(old(bits[..]), bits[..]) && BitSet(bits[..], bit)
      ensures forall b: nat :: b / 8 < bits.Length && BitSet(bits[..], b) ==> b == bit || BitSet(old(bits[..]), b)
    {
      ghost var was := bits[..];
      bits[bit / 8] := WithBit(bits[bit / 8], bit % 8);
      forall b: nat | b / 8 < bits.Length ensures BitSet(bits[..], b) <==> BitSet(was, b) || b == bit {
        WithBitIs(was[bit / 8], bit % 8, b % 8);
      }
    }

    /** One of the four bits of a round. */
    method AddBit(e: Elem, i: U32, q: nat)
      requires 0 < z.m <= 8 * bits.Length && 1 <= i <= z.rounds && q < 4
      modifies bits
      ensures Within(old(bits[..]), bits[..]) && OnlyFor(h, z, salt, e, old(bits[..]), bits[..])
      ensures Selected(h, z, salt, bits[..], e, i, q)
    {
      SetBit(Position(h, z, salt, e, i, q));
    }

    /** One round of add: the four bits of its hash. */
    method AddRound(e: Elem, i: U32)
      requires 0 < z.m <= 8 * bits.Length && 1 <= i <= z.rounds && SelectedAbove(h, z, salt, bits[..], e, i)
      modifies bits
      ensures Within(old(bits[..]), bits[..]) && SelectedAbove(h, z, salt, bits[..], e, i - 1)
      ensures OnlyFor(h, z, salt, e, old(bits[..]), bits[..])
    {
      ghost var before := bits[..];
      AddBit(e, i, 0);
      ghost var one := bits[..];
      AddBit(e, i, 1);
      ghost var two := bits[..];
      AddBit(e, i, 2);
      ghost var three := bits[..];
      AddBit(e, i, 3);
      RoundDone(h, z, salt, before, one, two, three, bits[..], e, i);
      OnlyForTrans(h, z, salt, e, two, three, bits[..]);
      OnlyForTrans(h, z, salt, e, one, two, bits[..]);
      OnlyForTrans(h, z, salt, e, before, one, bits[..]);
    }

    /** add: after it the filter answers yes for e and for everything it answered yes for before, and only bits that
        e selects were set. */
    method Add(e: Elem)
      requires Valid()
      modifies this`added, bits
      ensures Valid() && added == old(added) + {e}
      ensures Within(old(bits[..]), bits[..]) && OnlyFor(h, z, salt, e, old(bits[..]), bits[..])
    {
      ghost var was, had := bits[..], added;
      var i: U32 := z.rounds;
      while i > 0
        invariant i <= z.rounds && Within(was, bits[..]) && OnlyFor(h, z, salt, e, was, bits[..]) && added == had
        invariant SelectedAbove(h, z, salt, bits[..], e, i)
      {
        ghost var before := bits[..];
        AddRound(e, i);
        WithinTrans(was, before, bits[..]);
        OnlyForTrans(h, z, salt, e, was, before, bits[..]);
        i := i - 1;
      }
      AllRounds(h, z, salt, bits[..], e);
      AllGrow(h, z, salt, was, bits[..], had);
      OnlyOfGrows(h, z, salt, was, bits[..], had, e);
      added := added + {e};
    }

    /** One round of mayHave. */
    method TestRound(e: Elem, i: U32) returns (yes: bool)
      requires 0 < z.m <= 8 * bits.Length
      ensures yes <==> RoundSet(h, z, salt, bits[..], e, i)
    {
      for q := 0 to 4
        invariant forall r: nat :: r < q ==> Selected(h, z, salt, bits[..], e, i, r)
      {
        var bit := Position(h, z, salt, e, i, q);
        if bits[bit / 8] & ((1 as bv8) << (bit % 8)) == 0 {
          assert !Selected(h, z, salt, bits[..], e, i, q);
          return false;
        }
        assert Selected(h, z, salt, bits[..], e, i, q);
      }
      return true;
    }

    /** mayHave's loop over the rounds. */
    method TestRounds(e: Elem) returns (yes: bool)
      requires 0 < z.m <= 8 * bits.Length
      ensures yes <==> Has(h, z, salt, bits[..], e)
    {
      var i: U32 := z.rounds;
      while i > 0
        invariant i <= z.rounds && SelectedAbove(h, z, salt, bits[..], e, i)
      {
        var ok := TestRound(e, i);
        if !ok { return false; }
        OneMore(h, z, salt, bits[..], e, i);
        i := i - 1;
      }
      AllRounds(h, z, salt, bits[..], e);
      return true;
    }

    /** mayHave: yes exactly when the elements added since the reset cover e; so never no for one of them. */
    method MayHave(e: Elem) returns (yes: bool)
      requires Valid()
      ensures yes <==> Has(h, z, salt, bits[..], e)
      ensures yes <==> Covered(h, z, salt, added, e)
      ensures e in added ==> yes
    {
      yes := TestRounds(e);
      HasIsCovered(h, z, salt, bits[..], added, e);
    }

    method Reset(salt: U16)
      requires Valid()
      modifies this`salt, this`added, bits
      ensures Valid() && this.salt == salt && added == {}
      ensures forall k :: 0 <= k < bits.Length ==> bits[k] == 0
    {
      for k := 0 to bits.Length
        invariant forall j :: 0 <= j < k ==> bits[j] == 0
      {
        bits[k] := 0;
      }
      this.salt := salt;
      added := {};
    }
  }

  // ---------------------------------------------------------------- false positives are the hash's alone

  /** A hash that gives b's bytes other words than anything else. */
  ghost function Singling(b: Elem): Hash128
  {
    x => if exists salt: U16, i: U32 :: x == Scratch(salt, i, b) then (0x1_0000_0001, 0x1_0000_0001) else (0, 0)
  }

  lemma SinglingIs(salt: U16, b: Elem, e: Elem, i: U32)
    ensures Singling(b)(Scratch(salt, i, e)) == if e == b then (0x1_0000_0001, 0x1_0000_0001) else (0, 0)
  {
    if e != b {
      forall s: U16, j: U32 ensures Scratch(salt, i, e) != Scratch(s, j, b) {
        if Scratch(salt, i, e) == Scratch(s, j, b) { ScratchTells(salt, i, e, s, j, b); }
      }
    }
  }

  lemma SmallMod(m: nat)
    requires m > 1
    ensures 0 % m == 0 && 1 % m == 1
  {
  }

  lemma SinglingAt(z: Sizing, salt: U16, b: Elem, e: Elem, i: U32, q: nat)
    requires z.m > 1
    ensures Position(Singling(b), z, salt, e, i, q) == if e == b then 1 else 0
  {
    SinglingIs(salt, b, e, i);
    SmallMod(z.m);
  }

  /** With the right hash the filter answers no: for every element that was not added, every salt and whatever was
      added, as long as there is a round, and more than one bit or nothing added; and in no other case. */
  lemma CanTellExactly(z: Sizing, salt: U16, es: set<Elem>, b: Elem)
    requires z.m > 0
    ensures (exists h: Hash128 :: !Covered(h, z, salt, es, b)) <==> z.rounds >= 1 && b !in es && (z.m > 1 || es == {})
  {
    if z.rounds >= 1 && b !in es && (z.m > 1 || es == {}) {
      var h := Singling(b);
      var at := Position(h, z, salt, b, 1, 0);
      if z.m > 1 {
        forall a, i: U32, q: nat | a in es ensures Position(h, z, salt, a, i, q) != at {
          SinglingAt(z, salt, b, a, i, q);
          SinglingAt(z, salt, b, b, 1, 0);
        }
      }
      assert !ChosenBySome(h, z, salt, Every(es), at);
      assert !Covered(h, z, salt, es, b);
    } else {
      forall h: Hash128 ensures Covered(h, z, salt, es, b) { CoversAll(h, z, salt, es, b); }
    }
  }

  lemma CoversAll(h: Hash128, z: Sizing, salt: U16, es: set<Elem>, b: Elem)
    requires z.m > 0 && (z.rounds == 0 || b in es || (z.m == 1 && es != {}))
    ensures Covered(h, z, salt, es, b)
  {
    if z.rounds > 0 {
      var a :| a in es && (b in es ==> a == b);
      assert a in Every(es);
      forall i: U32, q: nat | 1 <= i <= z.rounds && q < 4
        ensures Chosen(h, z, salt, a, Position(h, z, salt, b, i, q))
      {
        assert Position(h, z, salt, a, i, q) == Position(h, z, salt, b, i, q);
      }
    }
  }

  ghost predicate SelectedAbove(h: Hash128, z: Sizing, salt: U16, bits: seq<bv8>, e: Elem, i: nat)
    requires 0 < z.m <= 8 * |bits|
  {
    forall j: U32 :: i < j <= z.rounds ==> RoundSet(h, z, salt, bits, e, j)
  }

  lemma OneMore(h: Hash128, z: Sizing, salt: U16, bits: seq<bv8>, e: Elem, i: U32)
    requires 0 < z.m <= 8 * |bits| && i >= 1
    requires SelectedAbove(h, z, salt, bits, e, i) && RoundSet(h, z, salt, bits, e, i)
    ensures SelectedAbove(h, z, salt, bits, e, i - 1)
  {
    forall j: U32 | i - 1 < j <= z.rounds ensures RoundSet(h, z, salt, bits, e, j) { assert j == i || j > i; }
  }

  lemma AllRounds(h: Hash128, z: Sizing, salt: U16, bits: seq<bv8>, e: Elem)
    requires 0 < z.m <= 8 * |bits| && SelectedAbove(h, z, salt, bits, e, 0)
    ensures Has(h, z, salt, bits, e)
  {
  }

  lemma WithinTrans(a: seq<bv8>, b: seq<bv8>, c: seq<bv8>)
    requires Within(a, b) && Within(b, c)
    ensures Within(a, c)
  {
  }

  /** One round sets the four bits of its number and keeps the rest. */
  lemma RoundDone(h: Hash128, z: Sizing, salt: U16, a: seq<bv8>, b: seq<bv8>, c: seq<bv8>, d: seq<bv8>, f: seq<bv8>,
                  e: Elem, i: U32)
    requires 0 < z.m <= 8 * |a| && 1 <= i <= z.rounds && SelectedAbove(h, z, salt, a, e, i)
    requires Within(a, b) && Within(b, c) && Within(c, d) && Within(d, f)
    requires Selected(h, z, salt, b, e, i, 0) && Selected(h, z, salt, c, e, i, 1)
    requires Selected(h, z, salt, d, e, i, 2) && Selected(h, z, salt, f, e, i, 3)
    ensures Within(a, f) && SelectedAbove(h, z, salt, f, e, i - 1)
  {
    WithinTrans(c, d, f);
    WithinTrans(b, c, f);
    WithinTrans(a, b, f);
    forall j: U32 | i - 1 < j <= z.rounds ensures RoundSet(h, z, salt, f, e, j) {
      if j > i { RoundGrows(h, z, salt, a, f, e, j); }
    }
  }
}
