/** Sums over sequences, the pigeonhole principle, and paths of steps. */
module Finite {

  function Sum<T>(s: seq<T>, w: T -> nat): nat
  {
    if s == [] then 0 else Sum(s[..|s| - 1], w) + w(s[|s| - 1])
  }

  lemma {:induction false} SumUpdate<T>(s: seq<T>, i: nat, x: T, w: T -> nat)
    requires i < |s|
    ensures Sum(s[i := x], w) + w(s[i]) == Sum(s, w) + w(x)
  {
    var n := |s| - 1;
    if i == n {
      assert s[i := x][..n] == s[..n];
    } else {
      assert s[i := x][..n] == s[..n][i := x];
      SumUpdate(s[..n], i, x, w);
    }
  }

  lemma {:induction false} SumBelow<T>(s: seq<T>, t: seq<T>, w: T -> nat)
    requires |s| == |t| && forall i :: 0 <= i < |s| ==> w(s[i]) <= w(t[i])
    ensures Sum(s, w) <= Sum(t, w)
  {
    if s != [] {
      SumBelow(s[..|s| - 1], t[..|t| - 1], w);
    }
  }

  lemma {:induction false} SumZero<T>(s: seq<T>, w: T -> nat)
    requires forall i :: 0 <= i < |s| ==> w(s[i]) == 0
    ensures Sum(s, w) == 0
  {
    if s != [] { SumZero(s[..|s| - 1], w); }
  }

  /** A sum of zeros and ones with a zero among them is less than the length. */
  lemma {:induction false} SumOfOnes<T>(s: seq<T>, w: T -> nat)
    requires forall i :: 0 <= i < |s| ==> w(s[i]) <= 1
    ensures Sum(s, w) <= |s|
    ensures (exists i :: 0 <= i < |s| && w(s[i]) == 0) ==> Sum(s, w) < |s|
  {
    if s != [] {
      var front := s[..|s| - 1];
      SumOfOnes(front, w);
      if i :| 0 <= i < |s| && w(s[i]) == 0 {
        if i < |front| { assert w(front[i]) == 0; }
      }
    }
  }

  function Range(n: nat): (s: set<nat>)
    ensures |s| == n && forall i: nat :: i in s <==> i < n
  {
    if n == 0 then {} else Range(n - 1) + {n - 1}
  }

  /** n things in different holes need n holes. */
  lemma {:induction false} Pigeonhole(n: nat, hole: nat -> nat, holes: set<nat>)
    requires forall i: nat :: i < n ==> hole(i) in holes
    requires forall i: nat, j: nat :: i < j < n ==> hole(i) != hole(j)
    ensures n <= |holes|
  {
    if n > 0 {
      Pigeonhole(n - 1, hole, holes - {hole(n - 1)});
    }
  }

  // ---------------------------------------------------------------- paths

  /** Some steps lead from s to t. */
  ghost predicate Path<S(!new), A>(next: (S, A, S) -> bool, s: S, steps: seq<A>, t: S)
  {
    if steps == [] then t == s else exists m :: next(s, steps[0], m) && Path(next, m, steps[1..], t)
  }

  lemma {:induction false} PathConcat<S(!new), A>(next: (S, A, S) -> bool, s: S, before: seq<A>, m: S, after: seq<A>,
                                                  t: S)
    requires Path(next, s, before, m) && Path(next, m, after, t)
    ensures Path(next, s, before + after, t)
    decreases |before|
  {
    if before == [] {
      assert before + after == after;
    } else {
      var n :| next(s, before[0], n) && Path(next, n, before[1..], m);
      PathConcat(next, n, before[1..], m, after, t);
      assert (before + after)[0] == before[0] && (before + after)[1..] == before[1..] + after;
    }
  }

  lemma PathOne<S(!new), A>(next: (S, A, S) -> bool, s: S, a: A, t: S)
    requires next(s, a, t)
    ensures Path(next, s, [a], t)
  {
    assert Path(next, t, [a][1..], t);
  }
}
