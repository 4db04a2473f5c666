/** Push replication, its acks and the local removals they cause, as a protocol between the nodes of a fixed ring.
    Messages may be lost, duplicated and reordered: what was sent stays deliverable, and need not be delivered. */
module PushAck {
  import opened Base
  import opened Stamp
  import opened Versions
  import LocMap

  /** What a node's location map and value storage hold for a key. */
  type Entry = Version<Bytes>

  type Store = map<Key, Entry>

  /** One entry of a bulk-set message; `from` is None when the sender wants no ack (node id 0). */
  datatype SetMsg = SetMsg(from: Option<nat>, dest: nat, key: Key, ts: nat, val: Bytes)

  /** One entry of a bulk-set-ack message. */
  datatype AckMsg = AckMsg(dest: nat, key: Key, ts: nat)

  datatype Written = Written(key: Key, ts: nat, val: Bytes)

  /** A local-removal marker taken by a node, or a copy it gave up. */
  datatype At = At(node: nat, key: Key, ts: nat)

  /** The last two fields are history: every client write, and every copy that a removal marker displaced. */
  datatype State = State(
    stores: seq<Store>,
    markers: set<At>,
    sets: set<SetMsg>,
    acks: set<AckMsg>,
    history: set<Written>,
    gone: set<At>)

  /** Which node is responsible for which key; rings assign whole partitions, but nothing here depends on that. */
  type Ring = iset<(nat, Key)>

  predicate Responsible(ring: Ring, n: nat, k: Key) { (n, k) in ring }

  datatype Step =
    | ClientWrite(n: nat, key: Key, micro: nat, val: Bytes)
    | ClientDelete(n: nat, key: Key, micro: nat)
    | Push(n: nat, key: Key, dest: nat, cutoff: nat, tombstoneCutoff: nat)
    | PullReply(n: nat, key: Key, dest: nat)
    | InSet(m: SetMsg, ok: bool, ackFits: bool)
    | InAck(a: AckMsg)
    | ClearMarker(marker: At)

  predicate Sendable(s: Store, k: Key) { k in s && !Removal(s[k].ts) }

  predicate Enabled(ring: Ring, s: State, step: Step)
  {
    match step
    case ClientWrite(n, _, micro, _) => n < |s.stores| && TIMESTAMPMICRO_MIN <= micro <= TIMESTAMPMICRO_MAX
    case ClientDelete(n, _, micro) => n < |s.stores| && TIMESTAMPMICRO_MIN <= micro <= TIMESTAMPMICRO_MAX
    case Push(n, k, dest, cutoff, tombstoneCutoff) =>
      && n < |s.stores| && dest < |s.stores| && !Responsible(ring, n, k) && Sendable(s.stores[n], k)
      && s.stores[n][k].ts < cutoff && (Deletion(s.stores[n][k].ts) ==> s.stores[n][k].ts >= tombstoneCutoff)
    case PullReply(n, k, dest) => n < |s.stores| && dest < |s.stores| && Sendable(s.stores[n], k)
    case InSet(m, _, _) => m in s.sets
    case InAck(a) => a in s.acks
    case ClearMarker(marker) => marker in s.markers
  }

  function Accept(s: State, n: nat, w: Written): State
    requires n < |s.stores|
  {
    s.(stores := s.stores[n := Put(s.stores[n], w.key, w.ts, w.val)], history := s.history + {w})
  }

  function Send(s: State, from: Option<nat>, n: nat, k: Key, dest: nat): State
    requires n < |s.stores| && k in s.stores[n]
  {
    s.(sets := s.sets + {SetMsg(from, dest, k, s.stores[n][k].ts, s.stores[n][k].val)})
  }

  /** inBulkSet on one entry: store it, then ack it when the write went through, somebody wants the ack, this node
      is responsible and the ack message has room. */
  function Receive(ring: Ring, s: State, m: SetMsg, ok: bool, ackFits: bool): State
    requires m.dest < |s.stores|
  {
    if !ok then s
    else
      s.(stores := s.stores[m.dest := Put(s.stores[m.dest], m.key, m.ts, m.val)],
         acks := if m.from.Some? && Responsible(ring, m.dest, m.key) && ackFits
                 then s.acks + {AckMsg(m.from.value, m.key, m.ts)} else s.acks)
  }

  /** The copy of k that a node has, if it has one that is not already marked. */
  function Copy(mine: Store, n: nat, k: Key): set<At>
  {
    if Sendable(mine, k) then {At(n, k, mine[k].ts)} else {}
  }

  /** inBulkSetAck on one entry: mark it for local removal unless this node is responsible. */
  function Acked(ring: Ring, s: State, a: AckMsg): State
    requires a.dest < |s.stores|
  {
    var mine := s.stores[a.dest];
    var mark := WithRemoval(a.ts);
    if Responsible(ring, a.dest, a.key) || TsOf(mine, a.key) >= mark then s
    else
      s.(stores := s.stores[a.dest := Put(mine, a.key, mark, [])],
         markers := s.markers + {At(a.dest, a.key, Stored(mark))},
         gone := s.gone + Copy(mine, a.dest, a.key))
  }

  /** memClearer on a marker's TOC record: locmap.Set with block id 0, which removes anything not newer. */
  function Clear(s: State, marker: At): State
    requires marker.node < |s.stores|
  {
    var mine := s.stores[marker.node];
    if TsOf(mine, marker.key) <= marker.ts then
      s.(stores := s.stores[marker.node := mine - {marker.key}],
         gone := s.gone + Copy(mine, marker.node, marker.key))
    else s
  }

  ghost predicate Valid(s: State)
  {
    && (forall m <- s.sets :: m.dest < |s.stores| && (m.from.Some? ==> m.from.value < |s.stores|))
    && (forall a <- s.acks :: a.dest < |s.stores|)
    && (forall x <- s.markers :: x.node < |s.stores|)
  }

  ghost function Next(ring: Ring, s: State, step: Step): State
    requires Valid(s) && Enabled(ring, s, step)
  {
    match step
    case ClientWrite(n, k, micro, val) => Accept(s, n, Written(k, WriteStamp(micro), val))
    case ClientDelete(n, k, micro) => Accept(s, n, Written(k, DeleteStamp(micro), []))
    case Push(n, k, dest, _, _) => Send(s, Some(n), n, k, dest)
    case PullReply(n, k, dest) => Send(s, None, n, k, dest)
    case InSet(m, ok, ackFits) => Receive(ring, s, m, ok, ackFits)
    case InAck(a) => Acked(ring, s, a)
    case ClearMarker(marker) => Clear(s, marker)
  }

  ghost predicate Init(s: State)
  {
    && (forall i :: 0 <= i < |s.stores| ==> s.stores[i] == map[])
    && s.markers == {} && s.sets == {} && s.acks == {} && s.history == {} && s.gone == {}
  }

  // ---------------------------------------------------------------- what every run keeps

  /** A stamp that a client produced: neither flag of the store's own bookkeeping is set. */
  predicate Plain(ts: nat) { !Rewrite(ts) && !Removal(ts) }

  /** The node holds a copy at least as new as ts that is not marked for removal. */
  predicate Holds(s: Store, k: Key, ts: nat) { k in s && ts <= s[k].ts && !Removal(s[k].ts) }

  ghost predicate HeldAt(stores: seq<Store>, k: Key, ts: nat, n: nat) { n < |stores| && Holds(stores[n], k, ts) }

  ghost predicate Held(stores: seq<Store>, k: Key, ts: nat) { exists n: nat :: HeldAt(stores, k, ts, n) }

  /** Some responsible node holds it. */
  ghost predicate CoveredAt(ring: Ring, stores: seq<Store>, k: Key, ts: nat, n: nat)
  {
    HeldAt(stores, k, ts, n) && Responsible(ring, n, k)
  }

  ghost predicate Covered(ring: Ring, stores: seq<Store>, k: Key, ts: nat)
  {
    exists n: nat :: CoveredAt(ring, stores, k, ts, n)
  }

  ghost predicate EntryOk(markers: set<At>, history: set<Written>, n: nat, k: Key, e: Entry)
  {
    !Rewrite(e.ts) && (if Removal(e.ts) then At(n, k, e.ts) in markers else Written(k, e.ts, e.val) in history)
  }

  ghost predicate StoreOk(markers: set<At>, history: set<Written>, n: nat, s: Store)
  {
    forall k {:trigger EntryOk(markers, history, n, k, s[k])} :: k in s ==> EntryOk(markers, history, n, k, s[k])
  }

  ghost predicate StoresOk(stores: seq<Store>, markers: set<At>, history: set<Written>)
  {
    forall n :: 0 <= n < |stores| ==> StoreOk(markers, history, n, stores[n])
  }

  /** A marker belongs to a timestamp that a responsible node covers. */
  ghost predicate MarkerOk(ring: Ring, stores: seq<Store>, x: At)
  {
    && x.node < |stores| && !Responsible(ring, x.node, x.key)
    && x.ts >= 2 && Plain(x.ts - 2) && Removal(x.ts) && Covered(ring, stores, x.key, x.ts - 2)
  }

  ghost predicate MarkersOk(ring: Ring, stores: seq<Store>, markers: set<At>)
  {
    forall x {:trigger MarkerOk(ring, stores, x)} :: x in markers ==> MarkerOk(ring, stores, x)
  }

  ghost predicate SetOk(nodes: nat, history: set<Written>, m: SetMsg)
  {
    && m.dest < nodes && (m.from.Some? ==> m.from.value < nodes)
    && Plain(m.ts) && Written(m.key, m.ts, m.val) in history
  }

  ghost predicate SetsOk(nodes: nat, history: set<Written>, sets: set<SetMsg>)
  {
    forall m {:trigger SetOk(nodes, history, m)} :: m in sets ==> SetOk(nodes, history, m)
  }

  ghost predicate AckOk(ring: Ring, stores: seq<Store>, a: AckMsg)
  {
    a.dest < |stores| && Plain(a.ts) && Covered(ring, stores, a.key, a.ts)
  }

  ghost predicate AcksOk(ring: Ring, stores: seq<Store>, acks: set<AckMsg>)
  {
    forall a {:trigger AckOk(ring, stores, a)} :: a in acks ==> AckOk(ring, stores, a)
  }

  ghost predicate GoneOk(ring: Ring, stores: seq<Store>, gone: set<At>)
  {
    forall x :: x in gone ==> Covered(ring, stores, x.key, x.ts)
  }

  ghost predicate WrittenOk(stores: seq<Store>, w: Written) { Plain(w.ts) && w.ts > 0 && Held(stores, w.key, w.ts) }

  ghost predicate HistoryOk(stores: seq<Store>, history: set<Written>)
  {
    forall w {:trigger WrittenOk(stores, w)} :: w in history ==> WrittenOk(stores, w)
  }

  ghost predicate Inv(ring: Ring, s: State)
  {
    && StoresOk(s.stores, s.markers, s.history)
    && MarkersOk(ring, s.stores, s.markers)
    && SetsOk(|s.stores|, s.history, s.sets)
    && AcksOk(ring, s.stores, s.acks)
    && GoneOk(ring, s.stores, s.gone)
    && HistoryOk(s.stores, s.history)
  }

  // ---------------------------------------------------------------- one key at one node changes

  /** Only key k at node n may differ. */
  ghost predicate Touches(a: seq<Store>, b: seq<Store>, n: nat, k: Key)
  {
    && |b| == |a| && n < |a|
    && (forall i :: 0 <= i < |a| && i != n ==> b[i] == a[i])
    && (forall j: Key :: j != k ==> (j in b[n] <==> j in a[n]) && (j in a[n] ==> b[n][j] == a[n][j]))
  }

  /** Whatever unmarked copy of k node n had, some node still holds one as new. */
  ghost predicate StillHeld(a: seq<Store>, b: seq<Store>, n: nat, k: Key)
    requires n < |a|
  {
    Sendable(a[n], k) ==> Held(b, k, a[n][k].ts)
  }

  lemma KeepHeld(a: seq<Store>, b: seq<Store>, n: nat, k: Key, j: Key, ts: nat)
    requires Touches(a, b, n, k) && StillHeld(a, b, n, k) && Held(a, j, ts)
    ensures Held(b, j, ts)
  {
    var w: nat :| HeldAt(a, j, ts, w);
    if w == n && j == k {
      var v: nat :| HeldAt(b, k, a[n][k].ts, v);
      assert HeldAt(b, j, ts, v);
    } else {
      assert HeldAt(b, j, ts, w);
    }
  }

  /** A responsible node never loses a copy. */
  ghost predicate KeepsOwn(ring: Ring, a: seq<Store>, b: seq<Store>, n: nat, k: Key)
    requires n < |a|
  {
    Responsible(ring, n, k) && Sendable(a[n], k) ==> HeldAt(b, k, a[n][k].ts, n)
  }

  lemma KeepCovered(ring: Ring, a: seq<Store>, b: seq<Store>, n: nat, k: Key, j: Key, ts: nat)
    requires Touches(a, b, n, k) && KeepsOwn(ring, a, b, n, k) && Covered(ring, a, j, ts)
    ensures Covered(ring, b, j, ts)
  {
    var w: nat :| CoveredAt(ring, a, j, ts, w);
    assert CoveredAt(ring, b, j, ts, w);
  }

  lemma CoveredIsHeld(ring: Ring, a: seq<Store>, k: Key, ts: nat, lower: nat)
    requires Covered(ring, a, k, ts) && lower <= ts
    ensures Held(a, k, lower) && Covered(ring, a, k, lower)
  {
    var w: nat :| CoveredAt(ring, a, k, ts, w);
    assert HeldAt(a, k, lower, w) && CoveredAt(ring, a, k, lower, w);
  }

  /** What the change of one key at one node must keep. */
  ghost predicate Safe(ring: Ring, a: seq<Store>, b: seq<Store>, n: nat, k: Key)
  {
    Touches(a, b, n, k) && StillHeld(a, b, n, k) && KeepsOwn(ring, a, b, n, k)
  }

  lemma MarkersKept(ring: Ring, a: seq<Store>, b: seq<Store>, n: nat, k: Key, markers: set<At>)
    requires Safe(ring, a, b, n, k) && MarkersOk(ring, a, markers)
    ensures MarkersOk(ring, b, markers)
  {
    forall x | x in markers ensures MarkerOk(ring, b, x) {
      assert MarkerOk(ring, a, x);
      KeepCovered(ring, a, b, n, k, x.key, x.ts - 2);
    }
  }

  lemma AcksKept(ring: Ring, a: seq<Store>, b: seq<Store>, n: nat, k: Key, acks: set<AckMsg>)
    requires Safe(ring, a, b, n, k) && AcksOk(ring, a, acks)
    ensures AcksOk(ring, b, acks)
  {
    forall x | x in acks ensures AckOk(ring, b, x) {
      assert AckOk(ring, a, x);
      KeepCovered(ring, a, b, n, k, x.key, x.ts);
    }
  }

  lemma GoneKept(ring: Ring, a: seq<Store>, b: seq<Store>, n: nat, k: Key, gone: set<At>)
    requires Safe(ring, a, b, n, k) && GoneOk(ring, a, gone)
    ensures GoneOk(ring, b, gone)
  {
    forall x | x in gone ensures Covered(ring, b, x.key, x.ts) { KeepCovered(ring, a, b, n, k, x.key, x.ts); }
  }

  lemma HistoryKept(ring: Ring, a: seq<Store>, b: seq<Store>, n: nat, k: Key, history: set<Written>)
    requires Safe(ring, a, b, n, k) && HistoryOk(a, history)
    ensures HistoryOk(b, history)
  {
    forall w | w in history ensures WrittenOk(b, w) {
      assert WrittenOk(a, w);
      KeepHeld(a, b, n, k, w.key, w.ts);
    }
  }

  lemma StoresKept(a: seq<Store>, b: seq<Store>, n: nat, k: Key, markers: set<At>, history: set<Written>,
                   markers': set<At>, history': set<Written>)
    requires Touches(a, b, n, k) && StoresOk(a, markers, history) && markers <= markers' && history <= history'
    requires k in b[n] ==> EntryOk(markers', history', n, k, b[n][k])
    ensures StoresOk(b, markers', history')
  {
    forall i | 0 <= i < |b| ensures StoreOk(markers', history', i, b[i]) {
      assert StoreOk(markers, history, i, a[i]);
      forall j | j in b[i] ensures EntryOk(markers', history', i, j, b[i][j]) {
        assert (i != n || j != k) ==> j in a[i] && EntryOk(markers, history, i, j, a[i][j]);
      }
    }
  }

  lemma SetsKept(nodes: nat, history: set<Written>, history': set<Written>, sets: set<SetMsg>)
    requires SetsOk(nodes, history, sets) && history <= history'
    ensures SetsOk(nodes, history', sets)
  {
    forall m | m in sets ensures SetOk(nodes, history', m) { assert SetOk(nodes, history, m); }
  }

  /** What the invariant says of one entry. */
  lemma EntryAt(ring: Ring, stores: seq<Store>, markers: set<At>, history: set<Written>, n: nat, k: Key)
    requires StoresOk(stores, markers, history) && MarkersOk(ring, stores, markers) && n < |stores| && k in stores[n]
    ensures EntryOk(markers, history, n, k, stores[n][k])
    ensures Removal(stores[n][k].ts) ==> MarkerOk(ring, stores, At(n, k, stores[n][k].ts))
  {
    assert StoreOk(markers, history, n, stores[n]);
    assert EntryOk(markers, history, n, k, stores[n][k]);
    assert Removal(stores[n][k].ts) ==> MarkerOk(ring, stores, At(n, k, stores[n][k].ts));
  }

  /** All that refers to the stores survives a safe change. */
  ghost predicate RestOk(ring: Ring, stores: seq<Store>, s: State)
  {
    && MarkersOk(ring, stores, s.markers) && AcksOk(ring, stores, s.acks) && GoneOk(ring, stores, s.gone)
    && HistoryOk(stores, s.history)
  }

  lemma RestKept(ring: Ring, s: State, b: seq<Store>, n: nat, k: Key)
    requires Inv(ring, s) && Safe(ring, s.stores, b, n, k)
    ensures RestOk(ring, b, s) && |b| == |s.stores|
  {
    MarkersKept(ring, s.stores, b, n, k, s.markers);
    AcksKept(ring, s.stores, b, n, k, s.acks);
    GoneKept(ring, s.stores, b, n, k, s.gone);
    HistoryKept(ring, s.stores, b, n, k, s.history);
  }

  // ---------------------------------------------------------------- the steps

  lemma PutTouches(a: seq<Store>, n: nat, k: Key, ts: nat, val: Bytes, b: seq<Store>)
    requires n < |a| && b == a[n := Put(a[n], k, ts, val)]
    ensures Touches(a, b, n, k)
  {
  }

  /** A plain stamp leaves every copy at least as new and unmarked. */
  lemma PutSafe(ring: Ring, a: seq<Store>, n: nat, k: Key, ts: nat, val: Bytes, b: seq<Store>)
    requires n < |a| && Plain(ts) && b == a[n := Put(a[n], k, ts, val)]
    ensures Safe(ring, a, b, n, k)
  {
    PutTouches(a, n, k, ts, val, b);
    if Sendable(a[n], k) {
      assert HeldAt(b, k, a[n][k].ts, n);
    }
  }

  lemma HeldHere(ring: Ring, stores: seq<Store>, k: Key, ts: nat, n: nat)
    requires HeldAt(stores, k, ts, n)
    ensures Held(stores, k, ts) && (Responsible(ring, n, k) ==> Covered(ring, stores, k, ts))
  {
    assert Responsible(ring, n, k) ==> CoveredAt(ring, stores, k, ts, n);
  }

  /** A marker at least as new as a plain stamp: a responsible node holds that stamp. */
  lemma MarkerCovers(ring: Ring, stores: seq<Store>, x: At, ts: nat)
    requires MarkerOk(ring, stores, x) && Plain(ts) && ts <= x.ts
    ensures Held(stores, x.key, ts) && Covered(ring, stores, x.key, ts)
  {
    NothingBetween(x.ts - 2, ts);
    CoveredIsHeld(ring, stores, x.key, x.ts - 2, ts);
  }

  /** A plain stamp reaching a node: afterwards somebody holds the key at least that new, and a responsible node does
      if this one is responsible. */
  lemma PutHeld(ring: Ring, s: State, n: nat, k: Key, ts: nat, val: Bytes, b: seq<Store>)
    requires Inv(ring, s) && n < |s.stores| && Plain(ts) && ts > 0
    requires b == s.stores[n := Put(s.stores[n], k, ts, val)]
    ensures Held(b, k, ts)
    ensures Responsible(ring, n, k) ==> Covered(ring, b, k, ts)
  {
    var mine := s.stores[n];
    if TsOf(mine, k) < ts {
      HeldHere(ring, b, k, ts, n);
    } else {
      assert b == s.stores;
      EntryAt(ring, b, s.markers, s.history, n, k);
      if Removal(mine[k].ts) {
        MarkerCovers(ring, b, At(n, k, mine[k].ts), ts);
      } else {
        HeldHere(ring, b, k, ts, n);
      }
    }
  }

  /** No plain stamp lies strictly between a plain stamp and its marker. */
  lemma NothingBetween(t: nat, copy: nat)
    requires Plain(t) && Plain(copy) && copy <= t + 2
    ensures copy <= t
  {
    if t < copy { NothingBelowMarker(t, copy); }
  }

  lemma PutEntry(ring: Ring, s: State, n: nat, k: Key, ts: nat, val: Bytes, history: set<Written>)
    requires Inv(ring, s) && n < |s.stores| && Plain(ts) && s.history <= history && Written(k, ts, val) in history
    ensures var mine := Put(s.stores[n], k, ts, val);
            k in mine ==> EntryOk(s.markers, history, n, k, mine[k])
  {
    if k in s.stores[n] { EntryAt(ring, s.stores, s.markers, s.history, n, k); }
  }

  /** Both kinds of plain write: everything but the new message or history entry is settled. */
  lemma PutKeeps(ring: Ring, s: State, n: nat, k: Key, ts: nat, val: Bytes, history: set<Written>, b: seq<Store>)
    requires Inv(ring, s) && n < |s.stores| && Plain(ts) && ts > 0
    requires s.history <= history && Written(k, ts, val) in history && b == s.stores[n := Put(s.stores[n], k, ts, val)]
    ensures StoresOk(b, s.markers, history) && RestOk(ring, b, s) && |b| == |s.stores|
    ensures Held(b, k, ts) && (Responsible(ring, n, k) ==> Covered(ring, b, k, ts))
  {
    PutSafe(ring, s.stores, n, k, ts, val, b);
    PutEntry(ring, s, n, k, ts, val, history);
    StoresKept(s.stores, b, n, k, s.markers, s.history, s.markers, history);
    RestKept(ring, s, b, n, k);
    PutHeld(ring, s, n, k, ts, val, b);
  }

  lemma AcceptKeeps(ring: Ring, s: State, n: nat, w: Written)
    requires Inv(ring, s) && n < |s.stores| && Plain(w.ts) && w.ts > 0
    ensures Inv(ring, Accept(s, n, w))
  {
    var t := Accept(s, n, w);
    PutKeeps(ring, s, n, w.key, w.ts, w.val, t.history, t.stores);
    SetsKept(|s.stores|, s.history, t.history, s.sets);
    assert WrittenOk(t.stores, w);
  }

  lemma SendKeeps(ring: Ring, s: State, from: Option<nat>, n: nat, k: Key, dest: nat)
    requires Inv(ring, s) && n < |s.stores| && dest < |s.stores| && Sendable(s.stores[n], k)
    requires from == None || from == Some(n)
    ensures Inv(ring, Send(s, from, n, k, dest))
  {
    EntryAt(ring, s.stores, s.markers, s.history, n, k);
  }

  lemma AddAck(ring: Ring, stores: seq<Store>, acks: set<AckMsg>, a: AckMsg)
    requires AcksOk(ring, stores, acks) && AckOk(ring, stores, a)
    ensures AcksOk(ring, stores, acks + {a})
  {
  }

  lemma ReceiveKeeps(ring: Ring, s: State, m: SetMsg, ok: bool, ackFits: bool)
    requires Inv(ring, s) && m in s.sets && m.dest < |s.stores|
    ensures Inv(ring, Receive(ring, s, m, ok, ackFits))
  {
    if ok {
      var t, n, k := Receive(ring, s, m, ok, ackFits), m.dest, m.key;
      assert SetOk(|s.stores|, s.history, m);
      assert WrittenOk(s.stores, Written(k, m.ts, m.val));
      PutKeeps(ring, s, n, k, m.ts, m.val, s.history, t.stores);
      if m.from.Some? && Responsible(ring, n, k) {
        AddAck(ring, t.stores, s.acks, AckMsg(m.from.value, k, m.ts));
      }
    }
  }

  /** Giving up the copy of k at n is safe when a marker for a covered stamp says so. */
  lemma GiveUp(ring: Ring, s: State, b: seq<Store>, n: nat, k: Key, t: nat)
    requires Inv(ring, s) && Touches(s.stores, b, n, k) && !Responsible(ring, n, k)
    requires Plain(t) && Covered(ring, s.stores, k, t) && TsOf(s.stores[n], k) <= t + 2
    ensures RestOk(ring, b, s) && |b| == |s.stores| && Covered(ring, b, k, t)
    ensures GoneOk(ring, b, s.gone + Copy(s.stores[n], n, k))
  {
    KeepCovered(ring, s.stores, b, n, k, k, t);
    if Sendable(s.stores[n], k) {
      EntryAt(ring, s.stores, s.markers, s.history, n, k);
      NothingBetween(t, s.stores[n][k].ts);
      CoveredIsHeld(ring, b, k, t, s.stores[n][k].ts);
    }
    assert GoneOk(ring, b, Copy(s.stores[n], n, k));
    RestKept(ring, s, b, n, k);
  }

  lemma MarkOf(t: nat)
    requires Plain(t)
    ensures WithRemoval(t) == t + 2 == Stored(t + 2) && Removal(t + 2) && !Rewrite(t + 2)
  {
  }

  lemma AddMarker(ring: Ring, stores: seq<Store>, markers: set<At>, n: nat, k: Key, t: nat)
    requires MarkersOk(ring, stores, markers) && n < |stores| && !Responsible(ring, n, k)
    requires Plain(t) && Removal(t + 2) && Covered(ring, stores, k, t)
    ensures MarkersOk(ring, stores, markers + {At(n, k, t + 2)})
  {
    assert t + 2 - 2 == t;
    assert MarkerOk(ring, stores, At(n, k, t + 2));
  }

  lemma AckedKeeps(ring: Ring, s: State, a: AckMsg)
    requires Inv(ring, s) && a in s.acks && a.dest < |s.stores|
    ensures Inv(ring, Acked(ring, s, a))
  {
    var t, n, k := Acked(ring, s, a), a.dest, a.key;
    assert AckOk(ring, s.stores, a);
    MarkOf(a.ts);
    if !Responsible(ring, n, k) && TsOf(s.stores[n], k) < a.ts + 2 {
      PutTouches(s.stores, n, k, a.ts + 2, [], t.stores);
      GiveUp(ring, s, t.stores, n, k, a.ts);
      StoresKept(s.stores, t.stores, n, k, s.markers, s.history, t.markers, t.history);
      AddMarker(ring, t.stores, s.markers, n, k, a.ts);
    }
  }

  lemma ClearKeeps(ring: Ring, s: State, x: At)
    requires Inv(ring, s) && x in s.markers && x.node < |s.stores|
    ensures Inv(ring, Clear(s, x))
  {
    var t, n, k := Clear(s, x), x.node, x.key;
    assert MarkerOk(ring, s.stores, x);
    if TsOf(s.stores[n], k) <= x.ts {
      assert Touches(s.stores, t.stores, n, k);
      GiveUp(ring, s, t.stores, n, k, x.ts - 2);
      StoresKept(s.stores, t.stores, n, k, s.markers, s.history, t.markers, t.history);
    }
  }

  lemma InvIsValid(ring: Ring, s: State)
    requires Inv(ring, s)
    ensures Valid(s)
  {
    forall m <- s.sets ensures m.dest < |s.stores| && (m.from.Some? ==> m.from.value < |s.stores|) {
      assert SetOk(|s.stores|, s.history, m);
    }
    forall a <- s.acks ensures a.dest < |s.stores| { assert AckOk(ring, s.stores, a); }
    forall x <- s.markers ensures x.node < |s.stores| { assert MarkerOk(ring, s.stores, x); }
  }

  lemma StampsArePlain(micro: nat)
    requires micro > 0
    ensures Plain(WriteStamp(micro)) && Plain(DeleteStamp(micro)) && WriteStamp(micro) > 0 && DeleteStamp(micro) > 0
  {
    StampFlags(micro);
  }

  lemma StepKeepsInv(ring: Ring, s: State, step: Step)
    requires Inv(ring, s) && Valid(s) && Enabled(ring, s, step)
    ensures Inv(ring, Next(ring, s, step))
  {
    match step
    case ClientWrite(n, k, micro, val) =>
      StampsArePlain(micro);
      AcceptKeeps(ring, s, n, Written(k, WriteStamp(micro), val));
    case ClientDelete(n, k, micro) =>
      StampsArePlain(micro);
      AcceptKeeps(ring, s, n, Written(k, DeleteStamp(micro), []));
    case Push(n, k, dest, _, _) => SendKeeps(ring, s, Some(n), n, k, dest);
    case PullReply(n, k, dest) => SendKeeps(ring, s, None, n, k, dest);
    case InSet(m, ok, ackFits) => ReceiveKeeps(ring, s, m, ok, ackFits);
    case InAck(a) => AckedKeeps(ring, s, a);
    case ClearMarker(marker) => ClearKeeps(ring, s, marker);
  }

  // ---------------------------------------------------------------- every run

  /** The state after a run, if every step was enabled; Valid never rules a step out. */
  ghost function Run(ring: Ring, s: State, steps: seq<Step>): Option<State>
    decreases |steps|
  {
    if steps == [] then Some(s)
    else if Valid(s) && Enabled(ring, s, steps[0]) then Run(ring, Next(ring, s, steps[0]), steps[1..])
    else None
  }

  lemma {:induction false} RunKeepsInv(ring: Ring, s: State, steps: seq<Step>)
    requires Inv(ring, s)
    ensures Run(ring, s, steps).Some? ==> Inv(ring, Run(ring, s, steps).value) && Valid(Run(ring, s, steps).value)
    decreases |steps|
  {
    InvIsValid(ring, s);
    if steps != [] && Valid(s) && Enabled(ring, s, steps[0]) {
      StepKeepsInv(ring, s, steps[0]);
      RunKeepsInv(ring, Next(ring, s, steps[0]), steps[1..]);
    }
  }

  /** Push/ack safety: in every run, whatever copy a node gave up because of an ack, some responsible node holds the
      key at a timestamp at least as new, unmarked. */
  lemma RemovalIsSafe(ring: Ring, s: State, steps: seq<Step>, x: At)
    requires Init(s) && Run(ring, s, steps).Some? && x in Run(ring, s, steps).value.gone
    ensures Covered(ring, Run(ring, s, steps).value.stores, x.key, x.ts)
  {
    RunKeepsInv(ring, s, steps);
  }

  /** No acknowledged write is ever lost: whatever was written or deleted anywhere, some node holds the key at least
      that new and unmarked, with a value that was written for it with the timestamp the node reports. */
  lemma NothingIsLost(ring: Ring, s: State, steps: seq<Step>, w: Written)
    requires Init(s) && Run(ring, s, steps).Some? && w in Run(ring, s, steps).value.history
    ensures var t := Run(ring, s, steps).value;
            exists n: nat :: HeldAt(t.stores, w.key, w.ts, n) &&
                             Written(w.key, t.stores[n][w.key].ts, t.stores[n][w.key].val) in t.history
  {
    RunKeepsInv(ring, s, steps);
    var t := Run(ring, s, steps).value;
    assert WrittenOk(t.stores, w);
    var n: nat :| HeldAt(t.stores, w.key, w.ts, n);
    EntryAt(ring, t.stores, t.markers, t.history, n, w.key);
  }

  /** No message of any run carries the local-removal bit or the rewrite bit, every bulk-set entry is something a
      client wrote, and every acked timestamp is held by a responsible node. */
  lemma MessagesAreClean(ring: Ring, s: State, steps: seq<Step>)
    requires Init(s) && Run(ring, s, steps).Some?
    ensures var t := Run(ring, s, steps).value;
            && (forall m <- t.sets :: Plain(m.ts) && Written(m.key, m.ts, m.val) in t.history)
            && (forall a <- t.acks :: Plain(a.ts) && Covered(ring, t.stores, a.key, a.ts))
  {
    RunKeepsInv(ring, s, steps);
    var t := Run(ring, s, steps).value;
    forall m <- t.sets ensures Plain(m.ts) && Written(m.key, m.ts, m.val) in t.history {
      assert SetOk(|t.stores|, t.history, m);
    }
    forall a <- t.acks ensures Plain(a.ts) && Covered(ring, t.stores, a.key, a.ts) { assert AckOk(ring, t.stores, a); }
  }

  // ---------------------------------------------------------------- what a push carries

  /** A pass that looks at k can carry it exactly when this node is not responsible and holds what a client wrote, not
      a marker, older than the cutoff, and if a tombstone then not an expired one; and what it carries is that write. */
  lemma PushExactly(ring: Ring, s: State, n: nat, k: Key, dest: nat, cutoff: nat, tombstoneCutoff: nat)
    requires Inv(ring, s) && Valid(s) && n < |s.stores| && dest < |s.stores|
    ensures var push := Push(n, k, dest, cutoff, tombstoneCutoff);
            && (Enabled(ring, s, push) <==>
                  && (n, k) !in ring && k in s.stores[n]
                  && Written(k, s.stores[n][k].ts, s.stores[n][k].val) in s.history && s.stores[n][k].ts < cutoff
                  && !(Deletion(s.stores[n][k].ts) && s.stores[n][k].ts < tombstoneCutoff))
            && (Enabled(ring, s, push) ==>
                  Next(ring, s, push) ==
                  s.(sets := s.sets + {SetMsg(Some(n), dest, k, s.stores[n][k].ts, s.stores[n][k].val)}))
  {
    if k in s.stores[n] {
      var e := s.stores[n][k];
      EntryAt(ring, s.stores, s.markers, s.history, n, k);
      if Written(k, e.ts, e.val) in s.history { assert WrittenOk(s.stores, Written(k, e.ts, e.val)); }
    }
  }

  /** What clients do: a value or a tombstone of the given microsecond takes the place of anything older at this node,
      and nothing else changes. */
  lemma ClientsExactly(ring: Ring, s: State, n: nat, k: Key, micro: nat, val: Bytes)
    requires Valid(s) && n < |s.stores| && TIMESTAMPMICRO_MIN <= micro <= TIMESTAMPMICRO_MAX
    ensures var mine, put := s.stores[n], Next(ring, s, ClientWrite(n, k, micro, val));
            && put.stores == s.stores[n := if TsOf(mine, k) < 256 * micro then mine[k := Version(256 * micro, val)]
                                           else mine]
            && put.history - s.history <= {Written(k, 256 * micro, val)}
    ensures var mine, gone := s.stores[n], Next(ring, s, ClientDelete(n, k, micro)).stores;
            && |gone| == |s.stores| && gone == s.stores[n := gone[n]] && k in gone[n]
            && gone[n] == mine[k := gone[n][k]]
            && (TsOf(mine, k) / 256 < micro ==>
                  Micros(gone[n][k].ts) == micro && Deletion(gone[n][k].ts) && Plain(gone[n][k].ts)
                  && gone[n][k].val == [])
  {
    StampFlags(micro);
  }

  /** Clearing a marker is the location map's Set with block id 0: they stay in agreement. */
  lemma ClearIsSet(l: LocMap.Map, s: State, marker: At, aux: nat)
    requires marker.node < |s.stores| && Agrees(l, s.stores[marker.node])
    ensures Agrees(LocMap.Set(l, marker.key, LocMap.Loc(marker.ts, LocMap.NoBlock, 0, 0, aux), true),
                   Clear(s, marker).stores[marker.node])
  {
  }

  // ---------------------------------------------------------------- the protocol does move data

  lemma RunStep(ring: Ring, s: State, step: Step, rest: seq<Step>)
    requires Inv(ring, s) && Valid(s) && Enabled(ring, s, step)
    ensures Run(ring, s, [step] + rest) == Run(ring, Next(ring, s, step), rest)
    ensures Inv(ring, Next(ring, s, step)) && Valid(Next(ring, s, step))
  {
    assert ([step] + rest)[1..] == rest;
    StepKeepsInv(ring, s, step);
    InvIsValid(ring, Next(ring, s, step));
  }

  /** Node 0 has lost k and node 1 has it. */
  ghost predicate Moved(end: Option<State>, k: Key, e: Entry)
  {
    end.Some? && |end.value.stores| == 2 && k !in end.value.stores[0] && k in end.value.stores[1]
    && end.value.stores[1][k] == e
  }

  /** From the ack on: marking, then clearing. */
  lemma AckRemoves(ring: Ring, s: State, k: Key, e: Entry) returns (steps: seq<Step>)
    requires Inv(ring, s) && Valid(s) && |s.stores| == 2 && !Responsible(ring, 0, k) && Plain(e.ts)
    requires k in s.stores[0] && s.stores[0][k] == e && k in s.stores[1] && s.stores[1][k] == e
    requires AckMsg(0, k, e.ts) in s.acks
    ensures Moved(Run(ring, s, steps), k, e)
  {
    MarkOf(e.ts);
    var ack, clear := InAck(AckMsg(0, k, e.ts)), ClearMarker(At(0, k, e.ts + 2));
    RunStep(ring, s, ack, [clear]);
    var s1 := Next(ring, s, ack);
    assert s1.stores[0][k].ts == e.ts + 2 && s1.stores[1] == s.stores[1];
    RunStep(ring, s1, clear, []);
    steps := [ack] + ([clear] + []);
    assert [clear] + [] == [clear];
  }

  /** From the push on. */
  lemma PushMoves(ring: Ring, s: State, k: Key, e: Entry) returns (steps: seq<Step>)
    requires Inv(ring, s) && Valid(s) && |s.stores| == 2 && !Responsible(ring, 0, k) && Responsible(ring, 1, k)
    requires k in s.stores[0] && s.stores[0][k] == e && k !in s.stores[1] && Plain(e.ts) && e.ts > 0
    ensures Moved(Run(ring, s, steps), k, e)
  {
    var push, set' := Push(0, k, 1, e.ts + 1, 0), InSet(SetMsg(Some(0), 1, k, e.ts, e.val), true, true);
    RunStep(ring, s, push, []);
    var s1 := Next(ring, s, push);
    RunStep(ring, s1, set', []);
    var s2 := Next(ring, s1, set');
    assert s2.stores[0] == s.stores[0] && s2.stores[1][k] == e;
    var rest := AckRemoves(ring, s2, k, e);
    RunStep(ring, s1, set', rest);
    RunStep(ring, s, push, [set'] + rest);
    steps := [push] + ([set'] + rest);
  }

  /** A value written at a node that is not responsible can reach the responsible one and leave the first: write,
      push, receipt, ack, clearing. */
  lemma MovesToResponsible(ring: Ring, s: State, k: Key, micro: nat, val: Bytes) returns (steps: seq<Step>)
    requires Init(s) && |s.stores| == 2 && !Responsible(ring, 0, k) && Responsible(ring, 1, k)
    requires TIMESTAMPMICRO_MIN <= micro <= TIMESTAMPMICRO_MAX
    ensures Moved(Run(ring, s, steps), k, Version(WriteStamp(micro), val))
  {
    StampsArePlain(micro);
    InvIsValid(ring, s);
    var write := ClientWrite(0, k, micro, val);
    RunStep(ring, s, write, []);
    var s1 := Next(ring, s, write);
    assert s1.stores[0][k] == Version(WriteStamp(micro), val) && k !in s1.stores[1];
    var rest := PushMoves(ring, s1, k, Version(WriteStamp(micro), val));
    RunStep(ring, s, write, rest);
    steps := [write] + rest;
  }
}
