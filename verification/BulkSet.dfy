/** The bulk-set and bulk-set-ack messages: how entries are packed, what unpacking gives back, and what receiving a
    message does to the store and to the ack. */
module BulkSet {
  import opened Base
  import opened Stamp
  import opened Versions
  import opened PushAck

  const ENTRY_HEADER: nat := 28
  const ACK_ENTRY: nat := 24

  datatype Item = Item(key: Key, ts: U64, val: Bytes)

  ghost predicate Fits(e: Item) { |e.val| < 0x1_0000_0000 }

  function Encode(e: Item): Bytes
  {
    PutBE(e.key.a, 8) + PutBE(e.key.b, 8) + PutBE(e.ts, 8) + PutBE(|e.val|, 4) + e.val
  }

  function EncodeAll(es: seq<Item>): Bytes
  {
    if es == [] then [] else Encode(es[0]) + EncodeAll(es[1..])
  }

  /** What is stored from a body, and whether the walk ends in a panic. */
  datatype Decoded = Decoded(items: seq<Item>, panics: bool)

  function HeadLength(body: Bytes): nat
    requires |body| > ENTRY_HEADER
  {
    Get32(body[24..28])
  }

  function HeadItem(body: Bytes): Item
    requires |body| > ENTRY_HEADER && ENTRY_HEADER + HeadLength(body) <= |body|
  {
    Item(Key(Get64(body[0..8]), Get64(body[8..16])), Get64(body[16..24]),
         body[ENTRY_HEADER..ENTRY_HEADER + HeadLength(body)])
  }

  /** inBulkSet's reading of a body: it goes on while more than an entry header is left. `spare` is what the message
      buffer holds past the body, up to its capacity. A length field that runs past the body makes the walk panic, but
      when it stays within the buffer the value, spare bytes included, is written first. */
  function Decode(body: Bytes, spare: Bytes): Decoded
    decreases |body|
  {
    if |body| <= ENTRY_HEADER then Decoded([], false)
    else
      var end := ENTRY_HEADER + HeadLength(body);
      if end > |body| then Decoded(if end <= |body + spare| then [Overrun(body, spare)] else [], true)
      else
        var rest := Decode(body[end..], spare);
        Decoded([HeadItem(body)] + rest.items, rest.panics)
  }

  /** The item of a length field that runs past the body but not past the buffer. */
  function Overrun(body: Bytes, spare: Bytes): Item
    requires |body| > ENTRY_HEADER && ENTRY_HEADER + HeadLength(body) <= |body + spare|
  {
    assert (body + spare)[24..28] == body[24..28];
    HeadItem(body + spare)
  }

  /** The items that come back: a last one with an empty value is dropped. */
  function Received(es: seq<Item>): seq<Item>
  {
    if es != [] && es[|es| - 1].val == [] then es[..|es| - 1] else es
  }

  lemma Pieces(a: Bytes, b: Bytes, c: Bytes, l: Bytes, v: Bytes, rest: Bytes)
    requires |a| == |b| == |c| == 8 && |l| == 4
    ensures var body := a + b + c + l + v + rest;
            && body[0..8] == a && body[8..16] == b && body[16..24] == c && body[24..28] == l
            && body[28..28 + |v|] == v && body[28 + |v|..] == rest
  {
    var head := a + b + c + l;
    assert |head| == 28 && head[0..8] == a && head[8..16] == b && head[16..24] == c && head[24..28] == l;
    var body := head + v + rest;
    assert body[..28] == head;
    SliceOfSlice(body, 0, 28, 0, 8);
    SliceOfSlice(body, 0, 28, 8, 16);
    SliceOfSlice(body, 0, 28, 16, 24);
    SliceOfSlice(body, 0, 28, 24, 28);
  }

  lemma EncodeParts(e: Item, rest: Bytes)
    requires Fits(e)
    ensures var body := Encode(e) + rest;
            && |Encode(e)| == ENTRY_HEADER + |e.val|
            && body[0..8] == PutBE(e.key.a, 8) && body[8..16] == PutBE(e.key.b, 8) && body[16..24] == PutBE(e.ts, 8)
            && body[24..28] == PutBE(|e.val|, 4) && body[28..28 + |e.val|] == e.val
            && body[28 + |e.val|..] == rest
  {
    Pieces(PutBE(e.key.a, 8), PutBE(e.key.b, 8), PutBE(e.ts, 8), PutBE(|e.val|, 4), e.val, rest);
  }

  lemma HeadOfEncoded(e: Item, rest: Bytes)
    requires Fits(e) && |Encode(e) + rest| > ENTRY_HEADER
    ensures var body := Encode(e) + rest;
            HeadLength(body) == |e.val| && ENTRY_HEADER + |e.val| <= |body| && HeadItem(body) == e &&
            body[ENTRY_HEADER + |e.val|..] == rest
  {
    EncodeParts(e, rest);
    GetPut32(|e.val|);
    GetPut64(e.key.a);
    GetPut64(e.key.b);
    GetPut64(e.ts);
  }

  /** Bulk-set codec: decoding what add packed gives every entry back in order, except a last one with an empty value;
      it never panics. */
  lemma {:induction false} CodecRoundTrip(es: seq<Item>, spare: Bytes)
    requires forall i :: 0 <= i < |es| ==> Fits(es[i])
    ensures Decode(EncodeAll(es), spare) == Decoded(Received(es), false)
  {
    if es != [] {
      var rest := EncodeAll(es[1..]);
      EncodeParts(es[0], rest);
      CodecRoundTrip(es[1..], spare);
      if |Encode(es[0]) + rest| > ENTRY_HEADER {
        HeadOfEncoded(es[0], rest);
        ReceivedStep(es);
      } else {
        AloneAndEmpty(es);
      }
    }
  }

  lemma ReceivedStep(es: seq<Item>)
    requires es != [] && (|es| > 1 || es[0].val != [])
    ensures Received(es) == [es[0]] + Received(es[1..])
  {
    if |es| > 1 {
      assert es[1..][|es| - 2] == es[|es| - 1];
      assert es[..|es| - 1] == [es[0]] + es[1..][..|es| - 2];
    }
    assert es == [es[0]] + es[1..];
  }

  lemma AloneAndEmpty(es: seq<Item>)
    requires es != [] && |EncodeAll(es)| <= ENTRY_HEADER
    ensures es == [es[0]] && Received(es) == []
  {
  }

  /** The exact condition: a message comes back whole unless its last value is empty. */
  lemma WholeUnlessLastEmpty(es: seq<Item>, spare: Bytes)
    requires forall i :: 0 <= i < |es| ==> Fits(es[i])
    ensures Decode(EncodeAll(es), spare) == Decoded(es, false) <==> es == [] || es[|es| - 1].val != []
  {
    CodecRoundTrip(es, spare);
  }

  // ---------------------------------------------------------------- packing

  lemma {:induction false} EncodeSnoc(es: seq<Item>, e: Item)
    ensures EncodeAll(es + [e]) == EncodeAll(es) + Encode(e)
  {
    if es == [] {
      assert es + [e] == [e] && [e][1..] == [];
    } else {
      EncodeSnoc(es[1..], e);
      assert (es + [e])[1..] == es[1..] + [e];
      ConcatAssoc(Encode(es[0]), EncodeAll(es[1..]), Encode(e));
    }
  }

  /** An outgoing bulk-set message; the body never grows past the capacity it was made with. */
  class Outgoing {
    const capacity: nat
    var body: Bytes
    ghost var items: seq<Item>

    ghost predicate Valid()
      reads this
    {
      && |body| <= capacity && body == EncodeAll(items)
      && (forall i :: 0 <= i < |items| ==> Fits(items[i]))
    }

    constructor (capacity: nat)
      ensures Valid() && items == [] && this.capacity == capacity
    {
      this.capacity := capacity;
      body := [];
      items := [];
    }

    /** add: refuses, and changes nothing, unless the entry leaves at least one byte of the capacity unused. */
    method Add(e: Item) returns (ok: bool)
      requires Valid() && Fits(e)
      modifies this
      ensures Valid() && (ok <==> old(|body|) + ENTRY_HEADER + |e.val| < capacity)
      ensures items == if ok then old(items) + [e] else old(items)
      ensures !ok ==> body == old(body)
    {
      if |body| + ENTRY_HEADER + |e.val| >= capacity { return false; }
      EncodeParts(e, []);
      EncodeSnoc(items, e);
      body := body + Encode(e);
      items := items + [e];
      return true;
    }
  }

  // ---------------------------------------------------------------- acks

  datatype AckItem = AckItem(key: Key, ts: U64)

  function EncodeAck(a: AckItem): (r: Bytes)
    ensures |r| == ACK_ENTRY
  {
    PutBE(a.key.a, 8) + PutBE(a.key.b, 8) + PutBE(a.ts, 8)
  }

  function EncodeAcks(acks: seq<AckItem>): Bytes
  {
    if acks == [] then [] else EncodeAck(acks[0]) + EncodeAcks(acks[1..])
  }

  function HeadAck(body: Bytes): AckItem
    requires |body| >= ACK_ENTRY
  {
    AckItem(Key(Get64(body[0..8]), Get64(body[8..16])), Get64(body[16..24]))
  }

  /** inBulkSetAck's reading of a body: whole entries only, trailing bytes are ignored. */
  function DecodeAcks(body: Bytes): seq<AckItem>
    decreases |body|
  {
    if |body| < ACK_ENTRY then [] else [HeadAck(body)] + DecodeAcks(body[ACK_ENTRY..])
  }

  lemma HeadOfAck(a: AckItem, rest: Bytes)
    ensures var body := EncodeAck(a) + rest; HeadAck(body) == a && body[ACK_ENTRY..] == rest
  {
    var body := EncodeAck(a) + rest;
    assert body[0..8] == PutBE(a.key.a, 8) && body[8..16] == PutBE(a.key.b, 8) && body[16..24] == PutBE(a.ts, 8);
    GetPut64(a.key.a);
    GetPut64(a.key.b);
    GetPut64(a.ts);
  }

  /** Ack codec: every ack comes back, whatever fewer than 24 bytes trail behind. */
  lemma {:induction false} AckRoundTrip(acks: seq<AckItem>, trailing: Bytes)
    requires |trailing| < ACK_ENTRY
    ensures DecodeAcks(EncodeAcks(acks) + trailing) == acks
    ensures |EncodeAcks(acks)| == ACK_ENTRY * |acks|
  {
    if acks == [] {
      assert EncodeAcks(acks) + trailing == trailing;
    } else {
      var rest := EncodeAcks(acks[1..]);
      AckRoundTrip(acks[1..], trailing);
      ConcatAssoc(EncodeAck(acks[0]), rest, trailing);
      HeadOfAck(acks[0], rest + trailing);
    }
  }

  lemma {:induction false} EncodeAckSnoc(acks: seq<AckItem>, a: AckItem)
    ensures EncodeAcks(acks + [a]) == EncodeAcks(acks) + EncodeAck(a)
  {
    if acks == [] {
      assert acks + [a] == [a] && [a][1..] == [];
    } else {
      EncodeAckSnoc(acks[1..], a);
      assert (acks + [a])[1..] == acks[1..] + [a];
      ConcatAssoc(EncodeAck(acks[0]), EncodeAcks(acks[1..]), EncodeAck(a));
    }
  }

  // ---------------------------------------------------------------- receiving a message

  /** Deletions are written even when writes are disabled. */
  predicate Accepted(enabled: bool, e: Item) { enabled || Deletion(e.ts) }

  function StoreOne(enabled: bool, s: Store, e: Item): Store
  {
    if Accepted(enabled, e) then Put(s, e.key, e.ts, e.val) else s
  }

  function StoreAll(enabled: bool, s: Store, es: seq<Item>): Store
    decreases |es|
  {
    if es == [] then s else StoreAll(enabled, StoreOne(enabled, s, es[0]), es[1..])
  }

  /** Room for one more ack in a message of this capacity. */
  predicate AckRoom(capacity: nat, acks: nat) { ACK_ENTRY * acks + ACK_ENTRY < capacity }

  function AckOne(ring: Ring, n: nat, want: bool, capacity: nat, enabled: bool, acks: seq<AckItem>,
                  e: Item): seq<AckItem>
  {
    if want && Accepted(enabled, e) && Responsible(ring, n, e.key) && AckRoom(capacity, |acks|)
    then acks + [AckItem(e.key, e.ts)] else acks
  }

  function AckAll(ring: Ring, n: nat, want: bool, capacity: nat, enabled: bool, acks: seq<AckItem>,
                  es: seq<Item>): seq<AckItem>
    decreases |es|
  {
    if es == [] then acks
    else AckAll(ring, n, want, capacity, enabled, AckOne(ring, n, want, capacity, enabled, acks, es[0]), es[1..])
  }

  // ---------------------------------------------------------------- what a message does, entry by entry

  /** The store after a message, in terms of its entries: each deletion, and each value while writes are enabled, is
      there at its stamp or newer; nothing else is new; and nothing has become older. */
  ghost predicate Applied(enabled: bool, s: Store, es: seq<Item>, t: Store)
  {
    && (forall i {:trigger es[i]} :: 0 <= i < |es| && (enabled || Deletion(es[i].ts)) ==>
          TsOf(t, es[i].key) >= Stored(es[i].ts))
    && (forall k {:trigger t[k]} :: k in t ==> (k in s && t[k] == s[k]) || FromEntry(enabled, es, k, t[k]))
    && (forall k {:trigger TsOf(t, k)} :: TsOf(t, k) >= TsOf(s, k))
    && (!enabled && (forall i :: 0 <= i < |es| ==> !Deletion(es[i].ts)) ==> t == s)
  }

  /** Some entry that is to be written has this version of k. */
  ghost predicate FromEntry(enabled: bool, es: seq<Item>, k: Key, v: Entry)
  {
    exists i :: 0 <= i < |es| && es[i].key == k && (enabled || Deletion(es[i].ts))
                && v == Version(Stored(es[i].ts), es[i].val)
  }

  lemma OneReceived(enabled: bool, s: Store, e: Item)
    ensures var t := StoreOne(enabled, s, e);
            && (enabled || Deletion(e.ts) ==> TsOf(t, e.key) >= Stored(e.ts))
            && (!enabled && !Deletion(e.ts) ==> t == s)
            && forall k {:trigger TsOf(t, k)} {:trigger t[k]} ::
                 && TsOf(t, k) >= TsOf(s, k)
                 && (k in t ==> (k in s && t[k] == s[k]) ||
                                (e.key == k && (enabled || Deletion(e.ts)) && t[k] == Version(Stored(e.ts), e.val)))
  {
  }

  lemma {:induction false} AllReceived(enabled: bool, s: Store, es: seq<Item>)
    ensures Applied(enabled, s, es, StoreAll(enabled, s, es))
    decreases |es|
  {
    if es != [] {
      var u, t := StoreOne(enabled, s, es[0]), StoreAll(enabled, s, es);
      OneReceived(enabled, s, es[0]);
      AllReceived(enabled, u, es[1..]);
      forall i | 0 <= i < |es| && (enabled || Deletion(es[i].ts)) ensures TsOf(t, es[i].key) >= Stored(es[i].ts) {
        assert i > 0 ==> es[i] == es[1..][i - 1];
        assert TsOf(t, es[i].key) >= TsOf(u, es[i].key);
      }
      forall k | k in t ensures (k in s && t[k] == s[k]) || FromEntry(enabled, es, k, t[k]) {
        FromLater(enabled, u, es, k, t[k]);
      }
      forall k ensures TsOf(t, k) >= TsOf(s, k) { assert TsOf(u, k) >= TsOf(s, k); }
    }
  }

  lemma FromLater(enabled: bool, u: Store, es: seq<Item>, k: Key, v: Entry)
    requires es != []
    ensures FromEntry(enabled, es[1..], k, v) ==> FromEntry(enabled, es, k, v)
  {
    if FromEntry(enabled, es[1..], k, v) {
      var i :| 0 <= i < |es| - 1 && es[1..][i].key == k && (enabled || Deletion(es[1..][i].ts))
               && v == Version(Stored(es[1..][i].ts), es[1..][i].val);
      assert es[i + 1] == es[1..][i];
    }
  }

  /** The acks that are due: of the entries that are written, those this node is responsible for. */
  function DueAcks(ring: Ring, n: nat, enabled: bool, es: seq<Item>): seq<AckItem>
  {
    if es == [] then []
    else
      (if (enabled || Deletion(es[0].ts)) && Responsible(ring, n, es[0].key) then [AckItem(es[0].key, es[0].ts)]
       else []) + DueAcks(ring, n, enabled, es[1..])
  }

  /** How many acks a message of this capacity takes: at least one byte stays unused. */
  function MaxAcks(capacity: nat): nat { if capacity == 0 then 0 else (capacity - 1) / ACK_ENTRY }

  /** acks, and as many of due behind them as fit below max. */
  function Fill<T>(acks: seq<T>, due: seq<T>, max: nat): seq<T>
  {
    if |acks| >= max then acks else if |acks| + |due| <= max then acks + due else acks + due[..max - |acks|]
  }

  lemma FillOne<T>(acks: seq<T>, a: T, rest: seq<T>, max: nat)
    requires |acks| < max
    ensures Fill(acks, [a] + rest, max) == Fill(acks + [a], rest, max)
  {
    assert acks + ([a] + rest) == acks + [a] + rest;
    if |acks| + 1 + |rest| > max {
      assert ([a] + rest)[..max - |acks|] == [a] + rest[..max - |acks| - 1];
    }
  }

  /** The acks sent are the first of those due, as many as fit; none when nobody wants them. */
  lemma {:induction false} AcksAreDue(ring: Ring, n: nat, want: bool, capacity: nat, enabled: bool, acks: seq<AckItem>,
                                      es: seq<Item>)
    ensures AckAll(ring, n, want, capacity, enabled, acks, es) ==
            if want then Fill(acks, DueAcks(ring, n, enabled, es), MaxAcks(capacity)) else acks
    decreases |es|
  {
    if es == [] {
      assert acks + [] == acks;
    } else {
      var acks1 := AckOne(ring, n, want, capacity, enabled, acks, es[0]);
      AcksAreDue(ring, n, want, capacity, enabled, acks1, es[1..]);
      var rest := DueAcks(ring, n, enabled, es[1..]);
      RoomIs(capacity, |acks|);
      if (enabled || Deletion(es[0].ts)) && Responsible(ring, n, es[0].key) {
        if |acks| < MaxAcks(capacity) { FillOne(acks, AckItem(es[0].key, es[0].ts), rest, MaxAcks(capacity)); }
      } else {
        assert DueAcks(ring, n, enabled, es) == rest;
      }
    }
  }

  lemma RoomIs(capacity: nat, acks: nat)
    ensures AckRoom(capacity, acks) <==> acks < MaxAcks(capacity)
  {
  }

  /** What is left to do for es, after the store and the acks so far, comes to the same as all of all. */
  ghost predicate SameEnd(ring: Ring, n: nat, want: bool, capacity: nat, enabled: bool, store: Store,
                          acks: seq<AckItem>, es: seq<Item>, store0: Store, all: seq<Item>)
  {
    && StoreAll(enabled, store, es) == StoreAll(enabled, store0, all)
    && AckAll(ring, n, want, capacity, enabled, acks, es) == AckAll(ring, n, want, capacity, enabled, [], all)
  }

  lemma SameEndStep(ring: Ring, n: nat, want: bool, capacity: nat, enabled: bool, store: Store, acks: seq<AckItem>,
                    e: Item, es: seq<Item>, store0: Store, all: seq<Item>)
    requires SameEnd(ring, n, want, capacity, enabled, store, acks, [e] + es, store0, all)
    ensures SameEnd(ring, n, want, capacity, enabled, StoreOne(enabled, store, e),
                    AckOne(ring, n, want, capacity, enabled, acks, e), es, store0, all)
  {
    assert ([e] + es)[0] == e && ([e] + es)[1..] == es;
  }

  /** One entry, as inBulkSet handles it: write it, then pack its ack if it is wanted, due and fits. */
  method HandleEntry(ring: Ring, n: nat, want: bool, capacity: nat, enabled: bool, store: Store, ackBody: Bytes,
                     ghost acks: seq<AckItem>, e: Item)
    returns (after: Store, ackAfter: Bytes)
    requires ackBody == EncodeAcks(acks) && |ackBody| == ACK_ENTRY * |acks|
    ensures after == StoreOne(enabled, store, e)
    ensures var acks' := AckOne(ring, n, want, capacity, enabled, acks, e);
            ackAfter == EncodeAcks(acks') && |ackAfter| == ACK_ENTRY * |acks'|
  {
    after, ackAfter := store, ackBody;
    if Accepted(enabled, e) {
      after := Put(after, e.key, e.ts, e.val);
      if want && Responsible(ring, n, e.key) && |ackBody| + ACK_ENTRY < capacity {
        EncodeAckSnoc(acks, AckItem(e.key, e.ts));
        ackAfter := ackBody + EncodeAck(AckItem(e.key, e.ts));
      }
    }
  }

  /** The loop over the body: it writes every entry and packs the acks of those it is responsible for, until the body
      is used up or a length field runs past its end. */
  method WalkBody(ring: Ring, n: nat, want: bool, capacity: nat, enabled: bool, store: Store, message: Bytes,
                   spare: Bytes)
    returns (after: Store, ackBody: Bytes, panics: bool)
    ensures after == StoreAll(enabled, store, Decode(message, spare).items)
    ensures ackBody == EncodeAcks(AckAll(ring, n, want, capacity, enabled, [], Decode(message, spare).items))
    ensures panics == Decode(message, spare).panics
  {
    var body := message;
    after, ackBody, panics := store, [], false;
    ghost var acks: seq<AckItem>, all := [], Decode(message, spare).items;
    while |body| > ENTRY_HEADER
      invariant SameEnd(ring, n, want, capacity, enabled, after, acks, Decode(body, spare).items, store, all)
      invariant ackBody == EncodeAcks(acks) && |ackBody| == ACK_ENTRY * |acks|
      invariant Decode(body, spare).panics == Decode(message, spare).panics
      decreases |body|
    {
      var end := ENTRY_HEADER + HeadLength(body);
      if end > |body| {
        if end <= |body + spare| {
          var o := Overrun(body, spare);
          assert [o] == [o] + [];
          SameEndStep(ring, n, want, capacity, enabled, after, acks, o, [], store, all);
          after, ackBody := HandleEntry(ring, n, want, capacity, enabled, after, ackBody, acks, o);
        }
        return after, ackBody, true;
      }
      var e := HeadItem(body);
      SameEndStep(ring, n, want, capacity, enabled, after, acks, e, Decode(body[end..], spare).items, store, all);
      after, ackBody := HandleEntry(ring, n, want, capacity, enabled, after, ackBody, acks, e);
      acks := AckOne(ring, n, want, capacity, enabled, acks, e);
      body := body[end..];
    }
  }

  /** inBulkSet on one message: each deletion, and each value while writes are enabled, is stored, and nothing else; of
      these entries the ones this node is responsible for are acked if anyone wants it, as long as the acks fit. */
  method InBulkSet(ring: Ring, n: nat, want: bool, capacity: nat, enabled: bool, store: Store, message: Bytes,
                   spare: Bytes)
    returns (after: Store, ackBody: Bytes, panics: bool)
    ensures after == StoreAll(enabled, store, Decode(message, spare).items)
    ensures ackBody == EncodeAcks(AckAll(ring, n, want, capacity, enabled, [], Decode(message, spare).items))
    ensures panics == Decode(message, spare).panics
    ensures Applied(enabled, store, Decode(message, spare).items, after)
    ensures var due := DueAcks(ring, n, enabled, Decode(message, spare).items);
            ackBody == EncodeAcks(if want then Fill([], due, MaxAcks(capacity)) else [])
  {
    after, ackBody, panics := WalkBody(ring, n, want, capacity, enabled, store, message, spare);
    AllReceived(enabled, store, Decode(message, spare).items);
    AcksAreDue(ring, n, want, capacity, enabled, [], Decode(message, spare).items);
  }

  // ---------------------------------------------------------------- a message as protocol steps

  function MsgOf(from: Option<nat>, n: nat, e: Item): SetMsg { SetMsg(from, n, e.key, e.ts, e.val) }

  /** The protocol steps that receiving the entries amounts to. */
  function StepsOf(from: Option<nat>, n: nat, capacity: nat, enabled: bool, ring: Ring, acks: seq<AckItem>,
                   es: seq<Item>): seq<Step>
    decreases |es|
  {
    if es == [] then []
    else
      [InSet(MsgOf(from, n, es[0]), Accepted(enabled, es[0]), AckRoom(capacity, |acks|))] +
      StepsOf(from, n, capacity, enabled, ring, AckOne(ring, n, from.Some?, capacity, enabled, acks, es[0]), es[1..])
  }

  ghost function AckSet(from: nat, acks: seq<AckItem>): set<AckMsg>
  {
    set a <- acks :: AckMsg(from, a.key, a.ts)
  }

  /** Acks are only ever appended. */
  lemma {:induction false} AckAllExtends(ring: Ring, n: nat, want: bool, capacity: nat, enabled: bool,
                                         acks: seq<AckItem>, es: seq<Item>)
    ensures acks <= AckAll(ring, n, want, capacity, enabled, acks, es)
    ensures !want ==> AckAll(ring, n, want, capacity, enabled, acks, es) == acks
    decreases |es|
  {
    if es != [] {
      AckAllExtends(ring, n, want, capacity, enabled, AckOne(ring, n, want, capacity, enabled, acks, es[0]), es[1..]);
    }
  }

  /** The acks a message adds to those already packed, addressed to the sender. */
  ghost function NewAcks(from: Option<nat>, before: seq<AckItem>, after: seq<AckItem>): set<AckMsg>
  {
    if from.Some? && |before| <= |after| then AckSet(from.value, after[|before|..]) else {}
  }

  lemma NewAcksJoin(from: Option<nat>, a: seq<AckItem>, b: seq<AckItem>, c: seq<AckItem>)
    requires a <= b <= c
    ensures NewAcks(from, a, c) == NewAcks(from, a, b) + NewAcks(from, b, c)
  {
    assert c[|a|..] == b[|a|..] + c[|b|..];
  }

  lemma OneEntry(ring: Ring, s: State, from: Option<nat>, n: nat, capacity: nat, enabled: bool, acks: seq<AckItem>,
                 e: Item)
    requires n < |s.stores|
    ensures var t := Receive(ring, s, MsgOf(from, n, e), Accepted(enabled, e), AckRoom(capacity, |acks|));
            && t.sets == s.sets
            && t.stores == s.stores[n := StoreOne(enabled, s.stores[n], e)]
            && t.acks == s.acks + NewAcks(from, acks, AckOne(ring, n, from.Some?, capacity, enabled, acks, e))
  {
    var a := AckItem(e.key, e.ts);
    assert (acks + [a])[|acks|..] == [a];
    assert acks[|acks|..] == [];
    assert from.Some? ==> AckSet(from.value, [a]) == {AckMsg(from.value, e.key, e.ts)};
  }

  /** Receiving a message is a run of the protocol, entry by entry: the same store at this node, no other store
      touched, and the acks sent are those packed into the ack message. */
  lemma {:induction false} MessageIsRun(ring: Ring, s: State, from: Option<nat>, n: nat, capacity: nat, enabled: bool,
                                        acks: seq<AckItem>, es: seq<Item>)
    requires Inv(ring, s) && n < |s.stores|
    requires forall i :: 0 <= i < |es| ==> MsgOf(from, n, es[i]) in s.sets
    ensures var run := Run(ring, s, StepsOf(from, n, capacity, enabled, ring, acks, es));
            && run.Some?
            && run.value.stores == s.stores[n := StoreAll(enabled, s.stores[n], es)]
            && run.value.acks == s.acks + NewAcks(from, acks, AckAll(ring, n, from.Some?, capacity, enabled, acks, es))
    decreases |es|
  {
    if es == [] {
      assert acks[|acks|..] == [];
    } else {
      var step := InSet(MsgOf(from, n, es[0]), Accepted(enabled, es[0]), AckRoom(capacity, |acks|));
      var steps := StepsOf(from, n, capacity, enabled, ring, acks, es);
      var acks1 := AckOne(ring, n, from.Some?, capacity, enabled, acks, es[0]);
      InvIsValid(ring, s);
      StepKeepsInv(ring, s, step);
      assert steps[0] == step && steps[1..] == StepsOf(from, n, capacity, enabled, ring, acks1, es[1..]);
      OneEntry(ring, s, from, n, capacity, enabled, acks, es[0]);
      MessageIsRun(ring, Next(ring, s, step), from, n, capacity, enabled, acks1, es[1..]);
      AckAllExtends(ring, n, from.Some?, capacity, enabled, acks1, es[1..]);
      NewAcksJoin(from, acks, acks1, AckAll(ring, n, from.Some?, capacity, enabled, acks1, es[1..]));
    }
  }

  /** What a received message comes to, whatever else is going on: it is a run of the protocol after which this node
      holds each deletion, and each value while writes are enabled, at its stamp or newer, and nothing else is new; no
      other node is touched; and the sender gets the acks that are due, as many as fit. */
  lemma MessageTakesEffect(ring: Ring, s: State, from: Option<nat>, n: nat, capacity: nat, enabled: bool,
                           es: seq<Item>)
    requires Inv(ring, s) && n < |s.stores|
    requires forall i :: 0 <= i < |es| ==> MsgOf(from, n, es[i]) in s.sets
    ensures exists steps, t: State, mine: Store ::
              && Run(ring, s, steps) == Some(t) && t.stores == s.stores[n := mine]
              && Applied(enabled, s.stores[n], es, mine)
              && t.acks == s.acks + if from.None? then {} else
                   AckSet(from.value, Fill([], DueAcks(ring, n, enabled, es), MaxAcks(capacity)))
  {
    var steps := StepsOf(from, n, capacity, enabled, ring, [], es);
    MessageIsRun(ring, s, from, n, capacity, enabled, [], es);
    AllReceived(enabled, s.stores[n], es);
    AcksAreDue(ring, n, from.Some?, capacity, enabled, [], es);
    var t := Run(ring, s, steps).value;
    var all := AckAll(ring, n, from.Some?, capacity, enabled, [], es);
    assert all[0..] == all;
    assert Run(ring, s, steps) == Some(t) && t.stores == s.stores[n := StoreAll(enabled, s.stores[n], es)];
  }
}
