/** Bytes, machine words and the big-endian codec every on-disk and on-wire format uses. */
module Base {

  type Byte = x: int | 0 <= x < 256
  type Bytes = seq<Byte>

  const TWO32: nat := 0x1_0000_0000
  const TWO64: nat := 0x1_0000_0000_0000_0000

  type U32 = x: nat | x < 0x1_0000_0000
  type U64 = x: nat | x < 0x1_0000_0000_0000_0000

  /** A 128-bit key. */
  datatype Key = Key(a: U64, b: U64)

  datatype Option<+T> = None | Some(value: T)

  function Min(a: int, b: int): int { if a < b then a else b }

  function Max(a: int, b: int): int { if a < b then b else a }

  function Zeros(n: nat): (z: Bytes)
    ensures |z| == n
  {
    seq(n, _ => 0)
  }

  function Pow256(n: nat): (p: nat)
    ensures p > 0
  {
    if n == 0 then 1 else 256 * Pow256(n - 1)
  }

  lemma Pow256Words()
    ensures Pow256(4) == TWO32
    ensures Pow256(8) == TWO64
  {
    assert Pow256(1) == 256;
    assert Pow256(2) == 0x1_0000;
    assert Pow256(3) == 0x100_0000;
    assert Pow256(5) == 0x100_0000_0000;
    assert Pow256(6) == 0x1_0000_0000_0000;
    assert Pow256(7) == 0x100_0000_0000_0000;
  }

  /** The low n bytes of x, most significant first. */
  function PutBE(x: nat, n: nat): (s: Bytes)
    ensures |s| == n
    decreases n, x
  {
    if n == 0 then [] else PutBE(x / 256, n - 1) + [x % 256]
  }

  function GetBE(s: Bytes): nat
  {
    if s == [] then 0 else GetBE(s[..|s| - 1]) * 256 + s[|s| - 1]
  }

  /** Decoding what was encoded gives the number back when it fits. */
  lemma {:induction false} GetPut(x: nat, n: nat)
    requires x < Pow256(n)
    ensures GetBE(PutBE(x, n)) == x
    decreases n
  {
    if n > 0 {
      GetPut(x / 256, n - 1);
      assert PutBE(x, n)[..n - 1] == PutBE(x / 256, n - 1);
    }
  }

  /** Encoding what was decoded gives the bytes back. */
  lemma {:induction false} PutGet(s: Bytes)
    ensures PutBE(GetBE(s), |s|) == s
    decreases |s|
  {
    if s != [] {
      var front, last := s[..|s| - 1], s[|s| - 1];
      PutGet(front);
      assert GetBE(s) / 256 == GetBE(front) && GetBE(s) % 256 == last;
      assert s == front + [last];
    }
  }

  lemma GetPut32(x: nat)
    requires x < TWO32
    ensures GetBE(PutBE(x, 4)) == x
  {
    Pow256Words();
    GetPut(x, 4);
  }

  lemma GetPut64(x: nat)
    requires x < TWO64
    ensures GetBE(PutBE(x, 8)) == x
  {
    Pow256Words();
    GetPut(x, 8);
  }

  /** A decoded word is always in range. */
  lemma {:induction false} GetBound(s: Bytes)
    ensures GetBE(s) < Pow256(|s|)
  {
    if s != [] {
      GetBound(s[..|s| - 1]);
    }
  }

  lemma {:induction false} GetZeros(s: Bytes)
    requires forall i :: 0 <= i < |s| ==> s[i] == 0
    ensures GetBE(s) == 0
  {
    if s != [] { GetZeros(s[..|s| - 1]); }
  }

  function Get32(s: Bytes): (x: U32)
    requires |s| == 4
  {
    Pow256Words(); GetBound(s);
    GetBE(s)
  }

  function Get64(s: Bytes): (x: U64)
    requires |s| == 8
  {
    Pow256Words(); GetBound(s);
    GetBE(s)
  }

  lemma ConcatAssoc<T>(a: seq<T>, b: seq<T>, c: seq<T>)
    ensures a + b + c == a + (b + c)
  {
  }

  lemma TailOfConcat<T>(a: seq<T>, b: seq<T>, n: nat)
    requires n <= |b|
    ensures (a + b)[|a + b| - n..] == b[|b| - n..]
    ensures (a + b)[..|a + b| - n] == a + b[..|b| - n]
  {
  }

  lemma SliceOfSlice<T>(s: seq<T>, at: nat, n: nat, lo: nat, hi: nat)
    requires at + n <= |s| && lo <= hi <= n
    ensures s[at..at + n][lo..hi] == s[at + lo..at + hi]
  {
    var mid := s[at..at + n];
    assert |mid[lo..hi]| == hi - lo == |s[at + lo..at + hi]|;
    forall i | 0 <= i < hi - lo ensures mid[lo..hi][i] == s[at + lo..at + hi][i] {
      assert mid[lo + i] == s[at + (lo + i)];
    }
  }

  /** The elements that satisfy p, in order. */
  function Filter<T>(s: seq<T>, p: T -> bool): seq<T>
  {
    if s == [] then []
    else if p(s[0]) then [s[0]] + Filter(s[1..], p)
    else Filter(s[1..], p)
  }

  lemma {:induction false} FilterConcat<T>(s: seq<T>, t: seq<T>, p: T -> bool)
    ensures Filter(s + t, p) == Filter(s, p) + Filter(t, p)
  {
    if s == [] {
      assert s + t == t;
    } else {
      assert (s + t)[1..] == s[1..] + t;
      FilterConcat(s[1..], t, p);
    }
  }

  /** All the inner sequences, one after another. */
  function Flatten<T>(ss: seq<seq<T>>): seq<T>
  {
    if ss == [] then [] else ss[0] + Flatten(ss[1..])
  }

  lemma {:induction false} FlattenConcat<T>(ss: seq<seq<T>>, tt: seq<seq<T>>)
    ensures Flatten(ss + tt) == Flatten(ss) + Flatten(tt)
  {
    if ss == [] {
      assert ss + tt == tt;
    } else {
      assert (ss + tt)[1..] == ss[1..] + tt;
      FlattenConcat(ss[1..], tt);
    }
  }

  lemma FlattenSnoc<T>(ss: seq<seq<T>>, t: seq<T>)
    ensures Flatten(ss + [t]) == Flatten(ss) + t
  {
    FlattenConcat(ss, [t]);
    assert Flatten([t]) == t + Flatten([t][1..]);
  }
}
