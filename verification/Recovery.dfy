/** Startup recovery: one goroutine reads the TOC files in name order and hands each entry to the worker
    keyB mod workers; the workers apply their entries to the shared location map at any pace. */
module Recovery {
  import opened Base
  import opened Stamp
  import opened LocMap
  import Pipeline

  /** A TOC entry as a recovery worker applies it; a removal marker gets block id 0. */
  datatype Entry = Entry(key: Key, ts: nat, file: nat, off: nat, len: nat, aux: nat)

  function LocFor(e: Entry): Loc
  {
    Loc(e.ts, if Removal(e.ts) then NoBlock else File(e.file), e.off, e.len, e.aux)
  }

  /** All entries applied one after another. */
  function Fold(es: seq<Entry>): Map
  {
    if es == [] then map[]
    else
      var e := es[|es| - 1];
      Set(Fold(es[..|es| - 1]), e.key, LocFor(e), true)
  }

  function Share(es: seq<Entry>, workers: nat, w: nat): seq<Entry>
    requires workers > 0
  {
    Filter(es, (e: Entry) => e.key.b % workers == w)
  }

  /** Progress: how many entries were read and handed out, how many each worker applied, and the map. */
  datatype State = State(read: nat, done: seq<nat>, m: Map)

  datatype Step = Read | Work(w: nat)

  predicate Enabled(es: seq<Entry>, s: State, a: Step)
  {
    match a
    case Read => s.read < |es|
    case Work(w) => w < |s.done| && s.read <= |es| && s.done[w] < |Share(es[..s.read], |s.done|, w)|
  }

  function Next(es: seq<Entry>, s: State, a: Step): State
    requires Enabled(es, s, a)
  {
    match a
    case Read => s.(read := s.read + 1)
    case Work(w) =>
      var e := Share(es[..s.read], |s.done|, w)[s.done[w]];
      s.(done := s.done[w := s.done[w] + 1], m := Set(s.m, e.key, LocFor(e), true))
  }

  function Start(workers: nat): State { State(0, seq(workers, _ => 0), map[]) }

  /** A schedule of the reader and the workers that ends with everything applied. */
  ghost predicate Schedule(es: seq<Entry>, states: seq<State>, steps: seq<Step>, workers: nat)
  {
    && workers > 0 && |states| == |steps| + 1 && states[0] == Start(workers)
    && (forall i :: 0 <= i < |steps| ==>
          Enabled(es, states[i], steps[i]) && states[i + 1] == Next(es, states[i], steps[i]))
    && Finished(es, states[|steps|])
  }

  predicate Finished(es: seq<Entry>, s: State)
  {
    s.read == |es| && |s.done| > 0 && forall w :: 0 <= w < |s.done| ==> s.done[w] == |Share(es, |s.done|, w)|
  }

  function Get(m: Map, k: Key): Option<Loc> { if k in m then Some(m[k]) else None }

  /** Each key is as if its worker's applied entries had been applied alone. */
  ghost predicate Inv(es: seq<Entry>, s: State)
  {
    && s.read <= |es| && |s.done| > 0
    && (forall w :: 0 <= w < |s.done| ==> s.done[w] <= |Share(es[..s.read], |s.done|, w)|)
    && forall k: Key :: KeyOk(es, s, k)
  }

  ghost predicate KeyOk(es: seq<Entry>, s: State, k: Key)
    requires s.read <= |es| && |s.done| > 0
    requires forall w :: 0 <= w < |s.done| ==> s.done[w] <= |Share(es[..s.read], |s.done|, w)|
  {
    var w := k.b % |s.done|;
    Get(s.m, k) == Get(Fold(Share(es[..s.read], |s.done|, w)[..s.done[w]]), k)
  }

  lemma {:induction false} ShareMember(es: seq<Entry>, workers: nat, w: nat, i: nat)
    requires workers > 0 && i < |Share(es, workers, w)|
    ensures Share(es, workers, w)[i].key.b % workers == w
  {
    if es[0].key.b % workers == w {
      if i > 0 { ShareMember(es[1..], workers, w, i - 1); }
    } else {
      ShareMember(es[1..], workers, w, i);
    }
  }

  lemma ShareGrows(es: seq<Entry>, n: nat, workers: nat, w: nat)
    requires workers > 0 && n < |es|
    ensures Share(es[..n], workers, w) <= Share(es[..n + 1], workers, w)
  {
    assert es[..n + 1] == es[..n] + [es[n]];
    FilterConcat(es[..n], [es[n]], (e: Entry) => e.key.b % workers == w);
  }

  lemma ReadKeeps(es: seq<Entry>, s: State)
    requires Inv(es, s) && Enabled(es, s, Read)
    ensures Inv(es, Next(es, s, Read))
  {
    var s' := Next(es, s, Read);
    forall w | 0 <= w < |s.done| ensures s.done[w] <= |Share(es[..s'.read], |s.done|, w)| {
      ShareGrows(es, s.read, |s.done|, w);
    }
    forall k: Key ensures KeyOk(es, s', k) {
      var w := k.b % |s.done|;
      ShareGrows(es, s.read, |s.done|, w);
      var q, q' := Share(es[..s.read], |s.done|, w), Share(es[..s'.read], |s.done|, w);
      assert KeyOk(es, s, k);
      assert q[..s.done[w]] == q'[..s.done[w]];
    }
  }

  lemma WorkKeeps(es: seq<Entry>, s: State, w: nat)
    requires Inv(es, s) && Enabled(es, s, Work(w))
    ensures Inv(es, Next(es, s, Work(w)))
  {
    var s' := Next(es, s, Work(w));
    var q := Share(es[..s.read], |s.done|, w);
    var e := q[s.done[w]];
    ShareMember(es[..s.read], |s.done|, w, s.done[w]);
    assert q[..s.done[w] + 1][..s.done[w]] == q[..s.done[w]];
    assert KeyOk(es, s, e.key);
    forall k: Key ensures KeyOk(es, s', k) {
      assert KeyOk(es, s, k);
    }
  }

  lemma {:induction false} ScheduleKeepsInv(es: seq<Entry>, states: seq<State>, steps: seq<Step>, workers: nat, i: nat)
    requires Schedule(es, states, steps, workers) && i < |states|
    ensures Inv(es, states[i]) && |states[i].done| == workers
  {
    if i == 0 {
      assert es[..0] == [];
    } else {
      ScheduleKeepsInv(es, states, steps, workers, i - 1);
      match steps[i - 1]
      case Read => ReadKeeps(es, states[i - 1]);
      case Work(w) => WorkKeeps(es, states[i - 1], w);
    }
  }

  /** Entries of other keys do not matter to a key. */
  lemma {:induction false} ShareDecidesKey(es: seq<Entry>, workers: nat, k: Key)
    requires workers > 0
    ensures Get(Fold(Share(es, workers, k.b % workers)), k) == Get(Fold(es), k)
  {
    if es != [] {
      var n, w := |es| - 1, k.b % workers;
      var p := (e: Entry) => e.key.b % workers == w;
      ShareDecidesKey(es[..n], workers, k);
      assert es == es[..n] + [es[n]];
      FilterConcat(es[..n], [es[n]], p);
      assert Filter([es[n]], p) == if p(es[n]) then [es[n]] + Filter([], p) else Filter([], p);
      var q := Share(es[..n], workers, w);
      if p(es[n]) {
        assert Share(es, workers, w) == q + [es[n]];
        assert (q + [es[n]])[..|q|] == q;
      } else {
        assert Share(es, workers, w) == q;
      }
    }
  }

  /** Parallel recovery equals sequential recovery, for every schedule. */
  lemma ParallelEqualsSequential(es: seq<Entry>, states: seq<State>, steps: seq<Step>, workers: nat)
    requires Schedule(es, states, steps, workers)
    ensures states[|steps|].m == Fold(es)
  {
    var s := states[|steps|];
    ScheduleKeepsInv(es, states, steps, workers, |steps|);
    assert es[..s.read] == es;
    forall k: Key ensures Get(s.m, k) == Get(Fold(es), k) {
      var w := k.b % workers;
      assert KeyOk(es, s, k);
      assert Share(es, workers, w)[..s.done[w]] == Share(es, workers, w);
      ShareDecidesKey(es, workers, k);
    }
    MapsEqual(s.m, Fold(es));
  }

  lemma MapsEqual(m: Map, m': Map)
    requires forall k: Key :: Get(m, k) == Get(m', k)
    ensures m == m'
  {
    assert forall k :: k in m ==> Get(m, k) == Get(m', k);
    assert forall k :: k in m' ==> Get(m, k) == Get(m', k);
    assert m.Keys == m'.Keys;
  }

  /** The entry that wins for k: the highest stamp, and the later one on a tie. */
  ghost predicate Wins(es: seq<Entry>, k: Key, i: nat)
  {
    && i < |es| && es[i].key == k
    && forall j :: 0 <= j < |es| && es[j].key == k ==> es[j].ts < es[i].ts || (es[j].ts == es[i].ts && j <= i)
  }

  /** Recovery keeps, for each key, the newest entry and the later file's on a tie. */
  lemma {:induction false} FoldKeepsWinner(es: seq<Entry>, k: Key, i: nat)
    requires Wins(es, k, i) && es[i].ts > 0
    requires forall j :: 0 <= j < |es| ==> !Removal(es[j].ts)
    ensures Get(Fold(es), k) == Some(LocFor(es[i]))
  {
    var n := |es| - 1;
    var front := es[..n];
    if i == n {
      FoldBelow(front, k, es[n].ts);
    } else {
      assert Wins(front, k, i) by { assert forall j :: 0 <= j < n ==> front[j] == es[j]; }
      FoldKeepsWinner(front, k, i);
      assert es[n].key == k ==> es[n].ts < es[i].ts;
    }
  }

  lemma {:induction false} FoldBelow(es: seq<Entry>, k: Key, ts: nat)
    requires forall j :: 0 <= j < |es| && es[j].key == k ==> es[j].ts <= ts
    ensures TsOf(Fold(es), k) <= ts
  {
    if es != [] {
      FoldBelow(es[..|es| - 1], k, ts);
    }
  }

  // ---------------------------------------------------------------- the pipeline's recovery

  function FileEntries(f: nat, recs: seq<Pipeline.Rec>): seq<Entry>
  {
    if recs == [] then []
    else
      var r := recs[|recs| - 1];
      var es := FileEntries(f, recs[..|recs| - 1]);
      if r.off == 0 then es else es + [Entry(r.key, r.ts, f, r.off, r.len, r.wid)]
  }

  /** What the TOC reader hands out for the files below index n, in name order. */
  function DiskEntries(tocs: map<nat, seq<Pipeline.Rec>>, n: nat): seq<Entry>
  {
    if n == 0 then []
    else if n - 1 in tocs then DiskEntries(tocs, n - 1) + FileEntries(n - 1, tocs[n - 1])
    else DiskEntries(tocs, n - 1)
  }

  lemma FoldSnoc(es: seq<Entry>, e: Entry)
    ensures Fold(es + [e]) == Set(Fold(es), e.key, LocFor(e), true)
  {
    assert (es + [e])[..|es|] == es;
  }

  lemma {:induction false} FoldFile(es: seq<Entry>, f: nat, recs: seq<Pipeline.Rec>)
    ensures Fold(es + FileEntries(f, recs)) == Pipeline.RecoverRecs(Fold(es), f, recs)
  {
    if recs == [] {
      assert es + [] == es;
    } else {
      var n := |recs| - 1;
      var front := FileEntries(f, recs[..n]);
      FoldFile(es, f, recs[..n]);
      if recs[n].off != 0 {
        var e := Entry(recs[n].key, recs[n].ts, f, recs[n].off, recs[n].len, recs[n].wid);
        assert FileEntries(f, recs) == front + [e];
        ConcatAssoc(es, front, [e]);
        FoldSnoc(es + front, e);
      }
    }
  }

  lemma {:induction false} RecoverIsFold(tocs: map<nat, seq<Pipeline.Rec>>, n: nat)
    ensures Pipeline.Recover(tocs, n) == Fold(DiskEntries(tocs, n))
  {
    if n > 0 {
      RecoverIsFold(tocs, n - 1);
      if n - 1 in tocs {
        FoldFile(DiskEntries(tocs, n - 1), n - 1, tocs[n - 1]);
      }
    }
  }

  /** The map a restart builds is the pipeline's, whatever the schedule of the recovery workers. */
  lemma RestartBuildsRecover(tocs: map<nat, seq<Pipeline.Rec>>, n: nat, states: seq<State>, steps: seq<Step>,
                             workers: nat)
    requires Schedule(DiskEntries(tocs, n), states, steps, workers)
    ensures states[|steps|].m == Pipeline.Recover(tocs, n)
  {
    ParallelEqualsSequential(DiskEntries(tocs, n), states, steps, workers);
    RecoverIsFold(tocs, n);
  }
}
