/** Pull replication: the requester tiles its share of a partition with requests, each carrying a bloom filter of what
    it has there; the responder scans the requested range in two parts and sends what the filter lacks. */
module Pull {
  import opened Base
  import opened Stamp
  import opened Framing
  import opened Bloom

  // ---------------------------------------------------------------- the message

  /** The fields of a pull-replication message; the filter's bits are its body. */
  datatype Message = Message(node: U64, ringVersion: U64, partition: U32, cutoff: U64, start: U64, stop: U64,
                             filter: View)

  /** A run of big-endian fields: their values and widths. */
  datatype Field = Field(value: nat, width: nat)

  function Pack(fs: seq<Field>): Bytes
  {
    if fs == [] then [] else PutBE(fs[0].value, fs[0].width) + Pack(fs[1..])
  }

  function Width(fs: seq<Field>): nat
  {
    if fs == [] then 0 else fs[0].width + Width(fs[1..])
  }

  lemma {:induction false} PackLength(fs: seq<Field>)
    ensures |Pack(fs)| == Width(fs)
  {
    if fs != [] { PackLength(fs[1..]); }
  }

  /** The k-th field of a packed header is found behind those before it. */
  lemma {:induction false} FieldAt(fs: seq<Field>, k: nat)
    requires k < |fs|
    ensures Width(fs[..k]) + fs[k].width <= |Pack(fs)|
    ensures Pack(fs)[Width(fs[..k])..Width(fs[..k]) + fs[k].width] == PutBE(fs[k].value, fs[k].width)
  {
    var head, rest := PutBE(fs[0].value, fs[0].width), Pack(fs[1..]);
    if k == 0 {
      assert fs[..0] == [];
    } else {
      FieldAt(fs[1..], k - 1);
      assert fs[..k][1..] == fs[1..][..k - 1] && fs[..k][0] == fs[0];
      var at := Width(fs[1..][..k - 1]);
      assert (head + rest)[|head| + at..|head| + at + fs[k].width] == rest[at..at + fs[k].width];
    }
  }

  function Fields(m: Message): seq<Field>
  {
    [Field(m.node, 8), Field(m.ringVersion, 8), Field(m.partition, 4), Field(m.cutoff, 8), Field(m.start, 8),
     Field(m.stop, 8), Field(m.filter.n, 8), Field(m.filter.p, 8), Field(m.filter.salt, 2), Field(0, 2)]
  }

  function Header(m: Message): (r: Bytes)
    ensures |r| == 64
  {
    PackLength(Fields(m)); Widths(m);
    Pack(Fields(m))
  }

  /** The accessors of an incoming message. */
  function Decode(header: Bytes, body: seq<bv8>): Message
    requires |header| == 64
  {
    Message(Get64(header[0..8]), Get64(header[8..16]), Get32(header[16..20]), Get64(header[20..28]),
            Get64(header[28..36]), Get64(header[36..44]),
            View(Get64(header[44..52]), Get64(header[52..60]), Get16(header[60..62]), body))
  }

  function Get16(s: Bytes): (x: U16)
    requires |s| == 2
  {
    GetBE2(s);
    GetBE(s)
  }

  lemma GetBE2(s: Bytes)
    requires |s| == 2
    ensures GetBE(s) < 0x1_0000
  {
    GetBound(s);
    assert Pow256(2) == 256 * Pow256(1) && Pow256(1) == 256;
  }

  lemma Widths(m: Message)
    ensures var fs := Fields(m);
            && Width(fs[..0]) == 0 && Width(fs[..1]) == 8 && Width(fs[..2]) == 16 && Width(fs[..3]) == 20
            && Width(fs[..4]) == 28 && Width(fs[..5]) == 36 && Width(fs[..6]) == 44 && Width(fs[..7]) == 52
            && Width(fs[..8]) == 60 && Width(fs) == 64
  {
    var fs := Fields(m);
    WidthSnoc(fs, 0); WidthSnoc(fs, 1); WidthSnoc(fs, 2); WidthSnoc(fs, 3); WidthSnoc(fs, 4);
    WidthSnoc(fs, 5); WidthSnoc(fs, 6); WidthSnoc(fs, 7); WidthSnoc(fs, 8); WidthSnoc(fs, 9);
    assert fs[..10] == fs;
  }

  lemma {:induction false} WidthSnoc(fs: seq<Field>, k: nat)
    requires k < |fs|
    ensures Width(fs[..k + 1]) == Width(fs[..k]) + fs[k].width
  {
    if k == 0 {
      assert fs[..1][1..] == [] && fs[..0] == [];
    } else {
      WidthSnoc(fs[1..], k - 1);
      assert fs[..k + 1][1..] == fs[1..][..k] && fs[..k][1..] == fs[1..][..k - 1];
    }
  }

  lemma Word(m: Message, k: nat, at: nat)
    requires k < 10 && Fields(m)[k].width == 8 && at == Width(Fields(m)[..k]) && Fields(m)[k].value < TWO64
    ensures at + 8 <= |Header(m)| && Get64(Header(m)[at..at + 8]) == Fields(m)[k].value
  {
    FieldAt(Fields(m), k);
    GetPut64(Fields(m)[k].value);
  }

  lemma Words(m: Message)
    ensures var h := Header(m);
            && Get64(h[0..8]) == m.node && Get64(h[8..16]) == m.ringVersion && Get64(h[20..28]) == m.cutoff
            && Get64(h[28..36]) == m.start && Get64(h[36..44]) == m.stop
            && Get64(h[44..52]) == m.filter.n && Get64(h[52..60]) == m.filter.p
  {
    Widths(m);
    Word(m, 0, 0); Word(m, 1, 8); Word(m, 3, 20); Word(m, 4, 28); Word(m, 5, 36); Word(m, 6, 44); Word(m, 7, 52);
  }

  lemma ShortFields(m: Message)
    ensures Get32(Header(m)[16..20]) == m.partition && Get16(Header(m)[60..62]) == m.filter.salt
  {
    Widths(m);
    FieldAt(Fields(m), 2);
    FieldAt(Fields(m), 8);
    GetPut32(m.partition);
    GetPut16(m.filter.salt);
  }

  /** Every field of a message, and its filter, survives the wire. */
  lemma MessageRoundTrip(m: Message)
    ensures Decode(Header(m), m.filter.bits) == m
  {
    Words(m);
    ShortFields(m);
  }

  lemma GetPut16(x: U16)
    ensures GetBE(PutBE(x, 2)) == x
  {
    assert Pow256(2) == 256 * Pow256(1) && Pow256(1) == 256;
    GetPut(x, 2);
  }

  // ---------------------------------------------------------------- the requester

  /** What a scan of [lo, hi] reports: older than the cutoff and not marked for removal. */
  function Matching(items: set<Elem>, lo: nat, hi: nat, cutoff: nat): set<Elem>
  {
    set e | e in items && lo <= e.key.a <= hi && e.ts < cutoff && !Removal(e.ts)
  }

  /** One request: the sub-range, and the filter of what the requester has there. */
  datatype Request = Request(start: U64, stop: U64, filter: View)

  /** The filter answers yes for everything that matches in the request's range, and only for what that covers. */
  ghost predicate Filled(h: Hash128, z: Sizing, items: set<Elem>, cutoff: nat, r: Request)
  {
    && 0 < z.m <= 8 * |r.filter.bits|
    && var held := Matching(items, r.start, r.stop, cutoff);
    && (forall e :: e in held ==> Has(h, z, r.filter.salt, r.filter.bits, e))
    && (forall e :: Has(h, z, r.filter.salt, r.filter.bits, e) <==> Covered(h, z, r.filter.salt, held, e))
  }

  /** The requests tile [lo, end), each with a filter of all that matches in its part. */
  ghost predicate Tiled(h: Hash128, z: Sizing, items: set<Elem>, cutoff: nat, reqs: seq<Request>, lo: nat, end: nat)
    decreases |reqs|
  {
    if reqs == [] then lo == end
    else
      && reqs[0].start == lo <= reqs[0].stop < end
      && Filled(h, z, items, cutoff, reqs[0])
      && Tiled(h, z, items, cutoff, reqs[1..], reqs[0].stop + 1, end)
  }

  lemma {:induction false} TiledSnoc(h: Hash128, z: Sizing, items: set<Elem>, cutoff: nat, reqs: seq<Request>, lo: nat,
                                     r: Request)
    requires Tiled(h, z, items, cutoff, reqs, lo, r.start)
    requires r.start <= r.stop && Filled(h, z, items, cutoff, r)
    ensures Tiled(h, z, items, cutoff, reqs + [r], lo, r.stop + 1)
    decreases |reqs|
  {
    if reqs == [] {
      assert (reqs + [r])[1..] == [];
    } else {
      assert (reqs + [r])[0] == reqs[0] && (reqs + [r])[1..] == reqs[1..] + [r];
      TiledSnoc(h, z, items, cutoff, reqs[1..], reqs[0].stop + 1, r);
    }
  }

  /** The scan callback of one request: the filter is reset and every item reported is added, in whatever order. */
  method Fill(f: Filter, salt: U16, found: set<Elem>)
    requires f.Valid()
    modifies f, f.bits
    ensures f.Valid() && f.bits == old(f.bits) && f.salt == salt && f.added == found
  {
    f.Reset(salt);
    var left := found;
    while left != {}
      invariant f.Valid() && f.bits == old(f.bits) && f.salt == salt && left <= found && f.added == found - left
      decreases |left|
    {
      var e :| e in left;
      f.Add(e);
      left := left - {e};
    }
  }

  /** One request, with the filter's bits as they are when the message is made. */
  method MakeRequest(f: Filter, salt: U16, items: set<Elem>, cutoff: nat, start: U64, stop: U64) returns (r: Request)
    requires f.Valid()
    modifies f, f.bits
    ensures f.Valid() && f.bits == old(f.bits) && r.start == start && r.stop == stop
    ensures Filled(f.h, f.z, items, cutoff, r)
  {
    Fill(f, salt, Matching(items, start, stop, cutoff));
    forall e ensures Has(f.h, f.z, f.salt, f.bits[..], e) <==> Covered(f.h, f.z, f.salt, f.added, e) {
      HasIsCovered(f.h, f.z, f.salt, f.bits[..], f.added, e);
    }
    r := Request(start, stop, View(f.n, f.p, f.salt, f.bits[..]));
  }

  /** The requester's loop over one share [lo, hi]. `next` is where a scan from a position stopped because the filter
      was full, if it did: it then has covered everything before that position. */
  method Requests(f: Filter, salt: U16, items: set<Elem>, cutoff: nat, lo: U64, hi: U64, next: U64 -> Option<U64>)
    returns (reqs: seq<Request>)
    requires f.Valid() && lo <= hi
    requires forall x: U64 :: lo <= x <= hi && next(x).Some? ==> x < next(x).value <= hi
    modifies f, f.bits
    ensures Tiled(f.h, f.z, items, cutoff, reqs, lo, hi + 1)
  {
    reqs := [];
    var rb := lo;
    while true
      invariant f.Valid() && f.bits == old(f.bits)
      invariant lo <= rb <= hi && Tiled(f.h, f.z, items, cutoff, reqs, lo, rb)
      decreases hi - rb
    {
      var rbThis := rb;
      var more := next(rb).Some?;
      if more { rb := next(rb).value; }
      var reThis := hi;
      if more { reThis := rb - 1; }
      var r := MakeRequest(f, salt, items, cutoff, rbThis, reThis);
      TiledSnoc(f.h, f.z, items, cutoff, reqs, lo, r);
      reqs := reqs + [r];
      if !more { break; }
    }
  }

  ghost predicate Inside(r: Request, x: nat) { r.start <= x <= r.stop }

  lemma {:induction false} TiledAbove(h: Hash128, z: Sizing, items: set<Elem>, cutoff: nat, reqs: seq<Request>,
                                      lo: nat, end: nat, x: nat)
    requires Tiled(h, z, items, cutoff, reqs, lo, end) && (x < lo || x >= end)
    ensures forall i :: 0 <= i < |reqs| ==> !Inside(reqs[i], x)
    decreases |reqs|
  {
    if reqs != [] {
      TiledBounds(h, z, items, cutoff, reqs[1..], reqs[0].stop + 1, end);
      TiledAbove(h, z, items, cutoff, reqs[1..], reqs[0].stop + 1, end, x);
    }
  }

  lemma TiledBounds(h: Hash128, z: Sizing, items: set<Elem>, cutoff: nat, reqs: seq<Request>, lo: nat, end: nat)
    requires Tiled(h, z, items, cutoff, reqs, lo, end)
    ensures lo <= end
  {
  }

  /** Every key of the share lies in exactly one request. */
  lemma {:induction false} TiledOnce(h: Hash128, z: Sizing, items: set<Elem>, cutoff: nat, reqs: seq<Request>,
                                     lo: nat, end: nat, x: nat)
    requires Tiled(h, z, items, cutoff, reqs, lo, end) && lo <= x < end
    ensures exists i :: 0 <= i < |reqs| && Inside(reqs[i], x)
    ensures forall i, j :: 0 <= i < |reqs| && 0 <= j < |reqs| && Inside(reqs[i], x) && Inside(reqs[j], x) ==> i == j
    decreases |reqs|
  {
    var rest := reqs[1..];
    if x <= reqs[0].stop {
      assert Inside(reqs[0], x);
      TiledAbove(h, z, items, cutoff, rest, reqs[0].stop + 1, end, x);
      assert forall i :: 1 <= i < |reqs| ==> reqs[i] == rest[i - 1];
    } else {
      TiledOnce(h, z, items, cutoff, rest, reqs[0].stop + 1, end, x);
      var k :| 0 <= k < |rest| && Inside(rest[k], x);
      assert Inside(reqs[k + 1], x);
      assert forall i :: 1 <= i < |reqs| ==> reqs[i] == rest[i - 1];
    }
  }

  // ---------------------------------------------------------------- the responder

  /** Where the responder's first scan starts. */
  function ScanStart(start: U64, stop: U64, replicas: nat, replica: nat): nat
    requires start <= stop && replicas > 0
  {
    start + (stop - start) / replicas * replica
  }

  lemma ScanStartInRange(start: U64, stop: U64, replicas: nat, replica: nat)
    requires start <= stop && replica < replicas
    ensures start <= ScanStart(start, stop, replicas, replica) <= stop
  {
    var d, q := stop - start, (stop - start) / replicas;
    assert d == replicas * q + d % replicas;
    assert replicas * q == q * replica + q * (replicas - replica);
    MulAtLeast(replicas - replica, q);
    assert q * replica >= 0;
  }

  /** The responder's two scans, [first, stop] and, unless the first began at start, [start, first - 1], cover the
      requested range once and nothing else. */
  lemma ScansCoverOnce(start: U64, stop: U64, replicas: nat, replica: nat, x: nat)
    requires start <= stop && replica < replicas
    ensures var first := ScanStart(start, stop, replicas, replica);
            && start <= first <= stop
            && (start <= x <= stop <==> (first <= x <= stop) || (first != start && start <= x <= first - 1))
            && !((first <= x <= stop) && (first != start && start <= x <= first - 1))
  {
    ScanStartInRange(start, stop, replicas, replica);
  }

  /** Replicas start their scans at evenly spaced points, the first at the range's start: at different ones whenever
      the range has more keys than there are replicas. */
  lemma StartsSpread(start: U64, stop: U64, replicas: nat, replica: nat, other: nat)
    requires start <= stop && replica < other < replicas
    ensures ScanStart(start, stop, replicas, 0) == start
    ensures ScanStart(start, stop, replicas, other) - ScanStart(start, stop, replicas, replica) ==
            (stop - start) / replicas * (other - replica)
    ensures ScanStart(start, stop, replicas, replica) < ScanStart(start, stop, replicas, other) <==>
            stop - start >= replicas
  {
    var d := stop - start;
    var q := d / replicas;
    assert d == replicas * q + d % replicas;
    assert q * other - q * replica == q * (other - replica);
    if q > 0 {
      MulAtLeast(q, other - replica);
      MulAtLeast(q, replicas);
    }
  }

  /** A scanned item with the length of its value. */
  datatype Scanned = Scanned(elem: Elem, length: nat)

  predicate Wanted(known: iset<Elem>, tombstoneCutoff: nat, e: Elem)
  {
    (!Deletion(e.ts) || e.ts >= tombstoneCutoff) && e !in known
  }

  datatype Picked = Picked(keys: seq<Elem>, budget: int)

  /** The scan callback: it collects what the filter lacks until the byte budget is used up. */
  function Pick(known: iset<Elem>, tombstoneCutoff: nat, scan: seq<Scanned>, budget: int): Picked
    decreases |scan|
  {
    if scan == [] then Picked([], budget)
    else if !Wanted(known, tombstoneCutoff, scan[0].elem) then Pick(known, tombstoneCutoff, scan[1..], budget)
    else
      var left := budget - (28 + scan[0].length);
      if left <= 0 then Picked([scan[0].elem], left)
      else
        var rest := Pick(known, tombstoneCutoff, scan[1..], left);
        Picked([scan[0].elem] + rest.keys, rest.budget)
  }

  /** What ScanCallback reports of a range, in its order. */
  type Scan = (nat, nat) -> seq<Scanned>

  /** inPullReplication on one request: the scan to the range's end, then the front part while budget is left. */
  function Respond(known: iset<Elem>, tombstoneCutoff: nat, start: U64, stop: U64, replicas: nat, replica: nat,
                   scan: Scan, budget: int): seq<Elem>
    requires start <= stop && replica < replicas
  {
    ScanStartInRange(start, stop, replicas, replica);
    RespondFrom(known, tombstoneCutoff, start, ScanStart(start, stop, replicas, replica), stop, scan, budget)
  }

  function RespondFrom(known: iset<Elem>, tombstoneCutoff: nat, start: nat, first: nat, stop: nat, scan: Scan,
                       budget: int): seq<Elem>
    requires start <= first <= stop
  {
    var one := Pick(known, tombstoneCutoff, scan(first, stop), budget);
    if first == start || one.budget <= 0 then one.keys
    else one.keys + Pick(known, tombstoneCutoff, scan(start, first - 1), one.budget).keys
  }

  /** Everything in the requested range, in the order in which the responder scans it. */
  function InOrder(start: U64, stop: U64, replicas: nat, replica: nat, scan: Scan): seq<Scanned>
    requires start <= stop && replica < replicas
  {
    ScanStartInRange(start, stop, replicas, replica);
    OrderFrom(start, ScanStart(start, stop, replicas, replica), stop, scan)
  }

  function OrderFrom(start: nat, first: nat, stop: nat, scan: Scan): seq<Scanned>
    requires start <= first <= stop
  {
    scan(first, stop) + if first == start then [] else scan(start, first - 1)
  }

  function Elems(scan: seq<Scanned>): (es: seq<Elem>)
    ensures |es| == |scan| && forall i :: 0 <= i < |scan| ==> es[i] == scan[i].elem
  {
    if scan == [] then [] else [scan[0].elem] + Elems(scan[1..])
  }

  /** The scanned items that are to be sent: no expired tombstones, and nothing the filter says yes to. */
  ghost function Lacking(known: iset<Elem>, tombstoneCutoff: nat, scan: seq<Scanned>): seq<Scanned>
  {
    if scan == [] then []
    else
      var e := scan[0].elem;
      (if e in known || (Deletion(e.ts) && e.ts < tombstoneCutoff) then [] else [scan[0]]) +
      Lacking(known, tombstoneCutoff, scan[1..])
  }

  /** The bytes the items take in a bulk-set message. */
  function Packed(items: seq<Scanned>): nat
  {
    if items == [] then 0 else Packed(items[..|items| - 1]) + 28 + items[|items| - 1].length
  }

  lemma {:induction false} BytesConcat(a: seq<Scanned>, b: seq<Scanned>)
    ensures Packed(a + b) == Packed(a) + Packed(b)
  {
    if b == [] {
      assert a + b == a;
    } else {
      BytesConcat(a, b[..|b| - 1]);
      assert (a + b)[..|a + b| - 1] == a + b[..|b| - 1];
    }
  }

  lemma {:induction false} LackingConcat(known: iset<Elem>, tombstoneCutoff: nat, a: seq<Scanned>, b: seq<Scanned>)
    ensures Lacking(known, tombstoneCutoff, a + b) ==
            Lacking(known, tombstoneCutoff, a) + Lacking(known, tombstoneCutoff, b)
  {
    if a == [] {
      assert a + b == b;
    } else {
      assert (a + b)[0] == a[0] && (a + b)[1..] == a[1..] + b;
      LackingConcat(known, tombstoneCutoff, a[1..], b);
    }
  }

  /** How many items are chosen of those lacking, for a budget: all, unless the bytes of the chosen ones reach the
      budget; and without the last of them they do not. */
  ghost predicate Enough(lacking: seq<Scanned>, budget: int, n: nat)
  {
    && n <= |lacking|
    && (n < |lacking| ==> Packed(lacking[..n]) >= budget)
    && (n > 0 ==> Packed(lacking[..n - 1]) < budget)
  }

  /** The chosen items are so many of the first of those lacking. */
  ghost predicate FirstPart(lacking: seq<Scanned>, budget: int, keys: seq<Elem>)
  {
    Enough(lacking, budget, |keys|) && keys == Elems(lacking)[..|keys|]
  }

  lemma TakeConcat<T>(a: seq<T>, b: seq<T>, n: nat)
    requires n <= |b|
    ensures (a + b)[..|a| + n] == a + b[..n]
  {
  }

  lemma {:induction false} PackedJoin(a: seq<Scanned>, b: seq<Scanned>, n: nat)
    requires n <= |b|
    ensures Packed((a + b)[..|a| + n]) == Packed(a) + Packed(b[..n])
  {
    TakeConcat(a, b, n);
    BytesConcat(a, b[..n]);
  }

  lemma {:induction false} ElemsJoin(a: seq<Scanned>, b: seq<Scanned>)
    ensures Elems(a + b) == Elems(a) + Elems(b)
  {
  }

  lemma {:induction false} EnoughStops(a: seq<Scanned>, b: seq<Scanned>, budget: int, n: nat)
    requires Enough(a, budget, n) && (n < |a| || Packed(a) >= budget)
    ensures Enough(a + b, budget, n)
  {
    assert (a + b)[..n] == a[..n];
    assert n == |a| ==> a[..n] == a;
    if n > 0 { assert (a + b)[..n - 1] == a[..n - 1]; }
  }

  lemma {:induction false} EnoughGoesOn(a: seq<Scanned>, b: seq<Scanned>, budget: int, n: nat)
    requires Packed(a) < budget && Enough(b, budget - Packed(a), n)
    ensures Enough(a + b, budget, |a| + n)
  {
    PackedJoin(a, b, n);
    if n > 0 {
      PackedJoin(a, b, n - 1);
    } else if a != [] {
      assert (a + b)[..|a| - 1] == a[..|a| - 1];
    }
  }

  lemma {:induction false} JoinStops(a: seq<Scanned>, b: seq<Scanned>, budget: int, xs: seq<Elem>)
    requires FirstPart(a, budget, xs) && (|xs| < |a| || Packed(a) >= budget)
    ensures FirstPart(a + b, budget, xs)
  {
    EnoughStops(a, b, budget, |xs|);
    ElemsJoin(a, b);
  }

  lemma {:induction false} JoinGoesOn(a: seq<Scanned>, b: seq<Scanned>, budget: int, ys: seq<Elem>)
    requires Packed(a) < budget && FirstPart(b, budget - Packed(a), ys)
    ensures FirstPart(a + b, budget, Elems(a) + ys)
  {
    EnoughGoesOn(a, b, budget, |ys|);
    ElemsJoin(a, b);
    TakeConcat(Elems(a), Elems(b), |ys|);
  }

  /** One item that is picked, and those after it. */
  lemma {:induction false} PickOne(x: Scanned, rest: seq<Scanned>, budget: int, keys: seq<Elem>)
    requires budget <= 28 + x.length ==> keys == []
    requires budget > 28 + x.length ==> FirstPart(rest, budget - (28 + x.length), keys)
    ensures |keys| <= |rest| && Packed(([x] + rest)[..1 + |keys|]) == 28 + x.length + Packed(rest[..|keys|])
    ensures [x.elem] + keys == Elems([x] + rest)[..1 + |keys|]
    ensures budget > 0 ==> FirstPart([x] + rest, budget, [x.elem] + keys)
  {
    assert [x][..0] == [] && Packed([x]) == 28 + x.length;
    assert Elems([x]) == [x.elem];
    PackedJoin([x], rest, |keys|);
    ElemsJoin([x], rest);
    TakeConcat(Elems([x]), Elems(rest), |keys|);
    if budget > 28 + x.length {
      JoinGoesOn([x], rest, budget, keys);
    } else {
      assert rest[..0] == [] && ([x] + rest)[..0] == [];
    }
  }

  /** What is picked of a scan, and the budget left. */
  ghost predicate PickOk(lacking: seq<Scanned>, budget: int, r: Picked)
  {
    && |r.keys| <= |lacking| && r.budget == budget - Packed(lacking[..|r.keys|])
    && r.keys == Elems(lacking)[..|r.keys|] && (r.budget > 0 ==> |r.keys| == |lacking|)
    && (budget > 0 ==> FirstPart(lacking, budget, r.keys))
  }

  lemma {:induction false} PickIsOk(x: Scanned, rest: seq<Scanned>, budget: int, more: Picked)
    requires var left := budget - (28 + x.length);
             if left <= 0 then more == Picked([], left) else PickOk(rest, left, more)
    ensures PickOk([x] + rest, budget, Picked([x.elem] + more.keys, more.budget))
  {
    PickOne(x, rest, budget, more.keys);
    assert rest[..0] == [];
  }

  /** The callback chooses, in scan order, what the filter lacks until the budget is used up. */
  lemma {:induction false} PickExact(known: iset<Elem>, tombstoneCutoff: nat, scan: seq<Scanned>, budget: int)
    ensures PickOk(Lacking(known, tombstoneCutoff, scan), budget, Pick(known, tombstoneCutoff, scan, budget))
    decreases |scan|
  {
    if scan == [] {
      assert Lacking(known, tombstoneCutoff, scan)[..0] == [];
    } else {
      var rest := Lacking(known, tombstoneCutoff, scan[1..]);
      if Wanted(known, tombstoneCutoff, scan[0].elem) {
        var left := budget - (28 + scan[0].length);
        PickExact(known, tombstoneCutoff, scan[1..], left);
        PickIsOk(scan[0], rest, budget,
                 if left <= 0 then Picked([], left) else Pick(known, tombstoneCutoff, scan[1..], left));
      } else {
        PickExact(known, tombstoneCutoff, scan[1..], budget);
        assert Lacking(known, tombstoneCutoff, scan) == rest;
      }
    }
  }

  /** A part of a scan that fits the budget is chosen whole. */
  lemma {:induction false} PickAll(known: iset<Elem>, tombstoneCutoff: nat, scan: seq<Scanned>, budget: int)
    requires Pick(known, tombstoneCutoff, scan, budget).budget > 0
    ensures var r, lacking := Pick(known, tombstoneCutoff, scan, budget), Lacking(known, tombstoneCutoff, scan);
            Packed(lacking) < budget && r.budget == budget - Packed(lacking) && r.keys == Elems(lacking)
  {
    PickExact(known, tombstoneCutoff, scan, budget);
    var lacking := Lacking(known, tombstoneCutoff, scan);
    assert lacking[..|lacking|] == lacking;
  }

  lemma {:induction false} SecondScan(known: iset<Elem>, tombstoneCutoff: nat, a: seq<Scanned>, b: seq<Scanned>,
                                      budget: int)
    requires Pick(known, tombstoneCutoff, a, budget).budget > 0
    ensures var one := Pick(known, tombstoneCutoff, a, budget);
            FirstPart(Lacking(known, tombstoneCutoff, a + b), budget,
                      one.keys + Pick(known, tombstoneCutoff, b, one.budget).keys)
  {
    var one := Pick(known, tombstoneCutoff, a, budget);
    PickAll(known, tombstoneCutoff, a, budget);
    PickExact(known, tombstoneCutoff, b, one.budget);
    LackingConcat(known, tombstoneCutoff, a, b);
    JoinGoesOn(Lacking(known, tombstoneCutoff, a), Lacking(known, tombstoneCutoff, b), budget,
               Pick(known, tombstoneCutoff, b, one.budget).keys);
  }

  lemma {:induction false} NoSecondScan(known: iset<Elem>, tombstoneCutoff: nat, a: seq<Scanned>, b: seq<Scanned>,
                                        budget: int)
    requires budget > 0 && Pick(known, tombstoneCutoff, a, budget).budget <= 0
    ensures FirstPart(Lacking(known, tombstoneCutoff, a + b), budget, Pick(known, tombstoneCutoff, a, budget).keys)
  {
    var la, one := Lacking(known, tombstoneCutoff, a), Pick(known, tombstoneCutoff, a, budget);
    PickExact(known, tombstoneCutoff, a, budget);
    assert |one.keys| == |la| ==> la[..|one.keys|] == la;
    LackingConcat(known, tombstoneCutoff, a, b);
    JoinStops(la, Lacking(known, tombstoneCutoff, b), budget, one.keys);
  }

  lemma {:induction false} RespondFromExact(known: iset<Elem>, tombstoneCutoff: nat, start: nat, first: nat, stop: nat,
                                            scan: Scan, budget: int)
    requires start <= first <= stop && budget > 0
    ensures FirstPart(Lacking(known, tombstoneCutoff, OrderFrom(start, first, stop, scan)), budget,
                      RespondFrom(known, tombstoneCutoff, start, first, stop, scan, budget))
  {
    if first == start {
      PickExact(known, tombstoneCutoff, scan(first, stop), budget);
      assert scan(first, stop) + [] == scan(first, stop);
    } else if Pick(known, tombstoneCutoff, scan(first, stop), budget).budget > 0 {
      SecondScan(known, tombstoneCutoff, scan(first, stop), scan(start, first - 1), budget);
    } else {
      NoSecondScan(known, tombstoneCutoff, scan(first, stop), scan(start, first - 1), budget);
    }
  }

  /** The responder chooses, of all it has in the requested range, in its scanning order, exactly the items the filter
      lacks until their bytes reach the budget. */
  lemma {:induction false} RespondExact(known: iset<Elem>, tombstoneCutoff: nat, start: U64, stop: U64, replicas: nat,
                                        replica: nat, scan: Scan, budget: int)
    requires start <= stop && replica < replicas && budget > 0
    ensures FirstPart(Lacking(known, tombstoneCutoff, InOrder(start, stop, replicas, replica, scan)), budget,
                      Respond(known, tombstoneCutoff, start, stop, replicas, replica, scan, budget))
  {
    ScanStartInRange(start, stop, replicas, replica);
    RespondFromExact(known, tombstoneCutoff, start, ScanStart(start, stop, replicas, replica), stop, scan, budget);
  }

  /** The scan of a store's location map: the items of the range that are older than the cutoff and unmarked. */
  ghost predicate Scans(scan: Scan, mine: set<Elem>, cutoff: nat)
  {
    forall lo: nat, hi: nat, e: Elem :: e in Elems(scan(lo, hi)) <==> e in Matching(mine, lo, hi, cutoff)
  }

  lemma {:induction false} LackingAre(known: iset<Elem>, tombstoneCutoff: nat, scan: seq<Scanned>, e: Elem)
    ensures e in Elems(Lacking(known, tombstoneCutoff, scan)) <==>
            e in Elems(scan) && e !in known && (Deletion(e.ts) ==> e.ts >= tombstoneCutoff)
  {
    if scan != [] {
      LackingAre(known, tombstoneCutoff, scan[1..], e);
      ElemsSplit(scan, e);
      var rest := Lacking(known, tombstoneCutoff, scan[1..]);
      ElemsSplit([scan[0]] + rest, e);
      assert ([scan[0]] + rest)[1..] == rest && [] + rest == rest;
    }
  }

  lemma ElemsSplit(scan: seq<Scanned>, e: Elem)
    requires scan != []
    ensures e in Elems(scan) <==> e == scan[0].elem || e in Elems(scan[1..])
  {
    var es, rest := Elems(scan), Elems(scan[1..]);
    if e in rest {
      var i :| 0 <= i < |rest| && rest[i] == e;
      assert es[i + 1] == e;
    }
    if e in es {
      var i :| 0 <= i < |es| && es[i] == e;
      assert i > 0 ==> rest[i - 1] == e;
    }
    assert es[0] == scan[0].elem;
  }

  lemma ElemsConcat(a: seq<Scanned>, b: seq<Scanned>, e: Elem)
    ensures e in Elems(a + b) <==> e in Elems(a) || e in Elems(b)
  {
    assert Elems(a + b) == Elems(a) + Elems(b);
  }

  lemma {:induction false} OrderFromIsRange(start: nat, first: nat, stop: nat, scan: Scan, mine: set<Elem>, cutoff: nat,
                                            e: Elem)
    requires start <= first <= stop && Scans(scan, mine, cutoff)
    ensures e in Elems(OrderFrom(start, first, stop, scan)) <==>
            e in mine && start <= e.key.a <= stop && e.ts < cutoff && !Removal(e.ts)
  {
    ElemsConcat(scan(first, stop), if first == start then [] else scan(start, first - 1), e);
  }

  /** The responder's order goes through exactly its items of the requested range. */
  lemma {:induction false} OrderIsRange(start: U64, stop: U64, replicas: nat, replica: nat, scan: Scan, mine: set<Elem>,
                                        cutoff: nat, e: Elem)
    requires start <= stop && replica < replicas && Scans(scan, mine, cutoff)
    ensures e in Elems(InOrder(start, stop, replicas, replica, scan)) <==>
            e in mine && start <= e.key.a <= stop && e.ts < cutoff && !Removal(e.ts)
  {
    ScanStartInRange(start, stop, replicas, replica);
    OrderFromIsRange(start, ScanStart(start, stop, replicas, replica), stop, scan, mine, cutoff, e);
  }

  lemma {:induction false} PickedAre(known: iset<Elem>, tombstoneCutoff: nat, scan: seq<Scanned>, budget: int, e: Elem)
    requires e in Pick(known, tombstoneCutoff, scan, budget).keys
    ensures e !in known && e in Elems(scan)
  {
    PickExact(known, tombstoneCutoff, scan, budget);
    LackingAre(known, tombstoneCutoff, scan, e);
  }

  lemma {:induction false} OnlyLackingFrom(known: iset<Elem>, tombstoneCutoff: nat, start: nat, first: nat, stop: nat,
                                           scan: Scan, budget: int, e: Elem)
    requires start <= first <= stop && e in RespondFrom(known, tombstoneCutoff, start, first, stop, scan, budget)
    ensures e !in known && e in Elems(OrderFrom(start, first, stop, scan))
  {
    var one := Pick(known, tombstoneCutoff, scan(first, stop), budget);
    var front := if first == start then [] else scan(start, first - 1);
    ElemsConcat(scan(first, stop), front, e);
    if e in one.keys {
      PickedAre(known, tombstoneCutoff, scan(first, stop), budget, e);
    } else {
      PickedAre(known, tombstoneCutoff, front, one.budget, e);
    }
  }

  /** Whatever the budget, only scanned items that the filter lacks are chosen. */
  lemma {:induction false} OnlyLacking(known: iset<Elem>, tombstoneCutoff: nat, start: U64, stop: U64, replicas: nat,
                                       replica: nat, scan: Scan, budget: int, e: Elem)
    requires start <= stop && replica < replicas
    requires e in Respond(known, tombstoneCutoff, start, stop, replicas, replica, scan, budget)
    ensures e !in known && e in Elems(InOrder(start, stop, replicas, replica, scan))
  {
    ScanStartInRange(start, stop, replicas, replica);
    OnlyLackingFrom(known, tombstoneCutoff, start, ScanStart(start, stop, replicas, replica), stop, scan, budget, e);
  }

  /** What the filter in a message answers yes for. */
  ghost function Known(h: Hash128, z: Sizing, v: View): iset<Elem>
    requires 0 < z.m <= 8 * |v.bits|
  {
    iset e: Elem | Has(h, z, v.salt, v.bits, e)
  }

  /** What pull replication is to send of what the responder has, for what the requester has: the items of the range,
      old enough, unmarked and no expired tombstones, that the requester's own items do not cover. */
  ghost predicate Due(h: Hash128, z: Sizing, items: set<Elem>, mine: set<Elem>, r: Request, cutoff: nat,
                      tombstoneCutoff: nat, e: Elem)
    requires z.m > 0
  {
    && e in mine && r.start <= e.key.a <= r.stop && e.ts < cutoff && !Removal(e.ts)
    && (Deletion(e.ts) ==> e.ts >= tombstoneCutoff)
    && !Covered(h, z, r.filter.salt, Matching(items, r.start, r.stop, cutoff), e)
  }

  /** Nothing the requester has in a request's range is chosen for sending, after the filter has travelled in a
      message; and everything chosen was scanned. */
  lemma NothingHeldIsSent(h: Hash128, z: Sizing, items: set<Elem>, cutoff: nat, r: Request, m: Message,
                          tombstoneCutoff: nat, replicas: nat, replica: nat, scan: Scan, budget: int, e: Elem)
    requires Filled(h, z, items, cutoff, r) && m.filter == r.filter && m.start <= m.stop && replica < replicas
    ensures var got := Decode(Header(m), m.filter.bits);
            && got.start <= got.stop && 0 < z.m <= 8 * |got.filter.bits|
            && (e in Respond(Known(h, z, got.filter), tombstoneCutoff, got.start, got.stop, replicas, replica, scan,
                             budget) ==>
                  && e !in Matching(items, r.start, r.stop, cutoff)
                  && e in Elems(InOrder(got.start, got.stop, replicas, replica, scan)))
  {
    MessageRoundTrip(m);
    if e in Respond(Known(h, z, m.filter), tombstoneCutoff, m.start, m.stop, replicas, replica, scan, budget) {
      OnlyLacking(Known(h, z, m.filter), tombstoneCutoff, m.start, m.stop, replicas, replica, scan, budget, e);
    }
  }

  /** Pull exactness: after the request has travelled in a message, everything the responder chooses is due, and
      nothing the requester has there is; and everything due is chosen while the bytes of what is due stay below the
      budget, and a first part that reaches the budget otherwise. */
  lemma SendsWhatIsDue(h: Hash128, z: Sizing, items: set<Elem>, mine: set<Elem>, cutoff: nat, r: Request, m: Message,
                       tombstoneCutoff: nat, replicas: nat, replica: nat, scan: Scan, budget: int, e: Elem)
    requires Filled(h, z, items, cutoff, r) && m.filter == r.filter && m.start == r.start <= m.stop == r.stop
    requires replica < replicas && Scans(scan, mine, cutoff) && budget > 0
    ensures var got := Decode(Header(m), m.filter.bits);
            && got.start <= got.stop && 0 < z.m <= 8 * |got.filter.bits|
            && var known := Known(h, z, got.filter);
            && var sent := Respond(known, tombstoneCutoff, got.start, got.stop, replicas, replica, scan, budget);
            && var lacking := Lacking(known, tombstoneCutoff, InOrder(got.start, got.stop, replicas, replica, scan));
            && (e in sent ==> Due(h, z, items, mine, r, cutoff, tombstoneCutoff, e))
            && (e in Matching(items, r.start, r.stop, cutoff) ==> e !in sent)
            && (Due(h, z, items, mine, r, cutoff, tombstoneCutoff, e) <==> e in Elems(lacking))
            && (Packed(lacking) < budget ==> sent == Elems(lacking))
            && FirstPart(lacking, budget, sent)
  {
    MessageRoundTrip(m);
    var known := Known(h, z, m.filter);
    var order := InOrder(m.start, m.stop, replicas, replica, scan);
    RespondExact(known, tombstoneCutoff, m.start, m.stop, replicas, replica, scan, budget);
    DueIsLacking(h, z, items, mine, cutoff, r, tombstoneCutoff, replicas, replica, scan, e);
    FittingIsWhole(Lacking(known, tombstoneCutoff, order), budget,
                   Respond(known, tombstoneCutoff, m.start, m.stop, replicas, replica, scan, budget));
  }

  lemma {:induction false} DueIsLacking(h: Hash128, z: Sizing, items: set<Elem>, mine: set<Elem>, cutoff: nat,
                                        r: Request, tombstoneCutoff: nat, replicas: nat, replica: nat, scan: Scan,
                                        e: Elem)
    requires Filled(h, z, items, cutoff, r) && r.start <= r.stop && replica < replicas && Scans(scan, mine, cutoff)
    ensures var order := InOrder(r.start, r.stop, replicas, replica, scan);
            Due(h, z, items, mine, r, cutoff, tombstoneCutoff, e) <==>
            e in Elems(Lacking(Known(h, z, r.filter), tombstoneCutoff, order))
  {
    LackingAre(Known(h, z, r.filter), tombstoneCutoff, InOrder(r.start, r.stop, replicas, replica, scan), e);
    OrderIsRange(r.start, r.stop, replicas, replica, scan, mine, cutoff, e);
  }

  lemma {:induction false} FittingIsWhole(lacking: seq<Scanned>, budget: int, sent: seq<Elem>)
    requires FirstPart(lacking, budget, sent)
    ensures Packed(lacking) < budget ==> sent == Elems(lacking)
    ensures forall e :: e in sent ==> e in Elems(lacking)
  {
    if |sent| < |lacking| { BytesPrefix(lacking, |sent|); }
  }

  /** All chosen items but the last fit the bulk-set message that answers: adding each keeps it below its capacity. */
  lemma {:induction false} AllButLastFit(lacking: seq<Scanned>, budget: int, n: nat, i: nat)
    requires Enough(lacking, budget, n) && i + 1 < n
    ensures Packed(lacking[..i]) + 28 + lacking[i].length < budget
  {
    var upTo := lacking[..i + 1];
    assert upTo[..i] == lacking[..i] && upTo[i] == lacking[i];
    assert lacking[..n - 1][..i + 1] == upTo;
    BytesPrefix(lacking[..n - 1], i + 1);
  }

  lemma BytesPrefix(items: seq<Scanned>, n: nat)
    requires n <= |items|
    ensures Packed(items[..n]) <= Packed(items)
  {
    BytesConcat(items[..n], items[n..]);
    assert items[..n] + items[n..] == items;
  }
}
