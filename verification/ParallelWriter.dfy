/** The goroutines behind an open value file: one filler, W checksummers and one writer, passing W buffers round over
    channels of capacity W. The writer puts back whatever is not next, and stops on two nils in a row. */
module ParallelWriter {
  import opened Base

  /** What travels through the channels: a filled buffer with its sequence number, or the closing nil. */
  datatype Item = Nil | Buf(seqNo: nat, data: Bytes)

  /** `filled` is history: the contents of every buffer in the order it was filled. */
  datatype State = State(
    free: nat,
    filling: bool,
    checksumQueue: seq<Item>,
    hands: seq<Item>,
    toDisk: seq<Item>,
    writerHand: Option<Item>,
    expected: nat,
    lastWasNil: bool,
    closed: bool,
    nilSent: bool,
    done: bool,
    filled: seq<Bytes>,
    disk: seq<Bytes>)

  datatype Step =
    | Fill(data: Bytes)
    | GetFree
    | Checksum
    | Checksummed(i: nat)
    | Close
    | SendNil
    | Receive
    | Handle

  predicate Requeues(s: State)
  {
    match s.writerHand
    case None => false
    case Some(Nil) => !s.lastWasNil
    case Some(Buf(n, _)) => n != s.expected
  }

  /** The item in hand is the next buffer: it is written and goes back to the free ones. */
  predicate Writes(s: State)
  {
    s.writerHand.Some? && s.writerHand.value.Buf? && s.writerHand.value.seqNo == s.expected
  }

  /** What a step needs apart from room in the channel it sends on. */
  predicate Ready(workers: nat, s: State, step: Step)
  {
    match step
    case Fill(_) => s.filling && !s.closed
    case GetFree => !s.filling && s.free > 0
    case Checksum => s.checksumQueue != [] && |s.hands| < workers
    case Checksummed(i) => i < |s.hands|
    case Close => s.filling && !s.closed
    case SendNil => s.closed && !s.nilSent && s.checksumQueue == [] && s.hands == []
    case Receive => !s.done && s.writerHand == None && s.toDisk != []
    case Handle => !s.done && s.writerHand != None
  }

  /** A step that sends waits for room. */
  predicate HasRoom(workers: nat, s: State, step: Step)
  {
    match step
    case Fill(_) => |s.checksumQueue| < workers
    case Checksummed(_) => |s.toDisk| < workers
    case SendNil => |s.toDisk| < workers
    case Handle => (Requeues(s) ==> |s.toDisk| < workers) && (Writes(s) ==> s.free < workers)
    case _ => true
  }

  predicate Enabled(workers: nat, s: State, step: Step) { Ready(workers, s, step) && HasRoom(workers, s, step) }

  function HandleHand(s: State): State
    requires s.writerHand != None
  {
    match s.writerHand.value
    case Nil =>
      if s.lastWasNil then s.(writerHand := None, done := true)
      else s.(writerHand := None, lastWasNil := true, toDisk := s.toDisk + [Nil])
    case Buf(n, data) =>
      if n != s.expected then s.(writerHand := None, lastWasNil := false, toDisk := s.toDisk + [Buf(n, data)])
      else s.(writerHand := None, lastWasNil := false, disk := s.disk + [data], free := s.free + 1, expected := n + 1)
  }

  function Next(workers: nat, s: State, step: Step): State
    requires Enabled(workers, s, step)
  {
    match step
    case Fill(data) =>
      s.(filling := false, checksumQueue := s.checksumQueue + [Buf(|s.filled|, data)], filled := s.filled + [data])
    case GetFree => s.(filling := true, free := s.free - 1)
    case Checksum => s.(checksumQueue := s.checksumQueue[1..], hands := s.hands + [s.checksumQueue[0]])
    case Checksummed(i) => s.(hands := s.hands[..i] + s.hands[i + 1..], toDisk := s.toDisk + [s.hands[i]])
    case Close => s.(closed := true)
    case SendNil => s.(nilSent := true, toDisk := s.toDisk + [Nil])
    case Receive => s.(writerHand := Some(s.toDisk[0]), toDisk := s.toDisk[1..])
    case Handle => HandleHand(s)
  }

  /** A new file: the filler already holds its first buffer. */
  predicate Init(workers: nat, s: State)
  {
    workers > 0 && s == State(workers - 1, true, [], [], [], None, 0, false, false, false, false, [], [])
  }

  // ---------------------------------------------------------------- what every schedule keeps

  /** The filled buffers from number n on. */
  ghost function Pending(filled: seq<Bytes>, n: nat): multiset<Item>
    decreases |filled| - n
  {
    if n >= |filled| then multiset{} else multiset{Buf(n, filled[n])} + Pending(filled, n + 1)
  }

  /** What the writer has before it: the item in hand, then its queue. */
  ghost function Line(s: State): seq<Item>
  {
    (match s.writerHand case None => [] case Some(x) => [x]) + s.toDisk
  }

  ghost function InFlight(s: State): multiset<Item>
  {
    multiset(s.checksumQueue) + multiset(s.hands) + multiset(Line(s))
  }

  ghost function NilToken(s: State): multiset<Item>
  {
    if s.nilSent && !s.done then multiset{Nil} else multiset{}
  }

  ghost predicate EndsInNil(q: seq<Item>) { q != [] && q[|q| - 1] == Nil }

  /** Every filled buffer not yet on disk is in exactly one place, and so is the nil. */
  ghost predicate Balanced(s: State)
  {
    InFlight(s) == Pending(s.filled, s.expected) + NilToken(s)
  }

  ghost predicate Shape(workers: nat, s: State)
  {
    && s.expected <= |s.filled| && s.disk == s.filled[..s.expected]
    && s.free + (if s.filling then 1 else 0) + (|s.filled| - s.expected) == workers
    && (s.closed ==> s.filling) && (s.nilSent ==> s.closed && s.checksumQueue == [] && s.hands == [])
    && (s.lastWasNil && !s.done ==> s.nilSent && EndsInNil(Line(s)))
    && (s.done ==> s.nilSent && Line(s) == [] && s.expected == |s.filled|)
  }

  ghost predicate Inv(workers: nat, s: State) { Balanced(s) && Shape(workers, s) }

  lemma {:induction false} PendingItems(filled: seq<Bytes>, n: nat)
    ensures n <= |filled| ==> |Pending(filled, n)| == |filled| - n
    ensures Nil !in Pending(filled, n)
    ensures forall x :: x in Pending(filled, n) ==> x.Buf? && n <= x.seqNo < |filled| && x.data == filled[x.seqNo]
    decreases |filled| - n
  {
    if n < |filled| { PendingItems(filled, n + 1); }
  }

  lemma {:induction false} PendingGrows(filled: seq<Bytes>, n: nat, data: Bytes)
    requires n <= |filled|
    ensures Pending(filled + [data], n) == Pending(filled, n) + multiset{Buf(|filled|, data)}
    decreases |filled| - n
  {
    if n < |filled| {
      PendingGrows(filled, n + 1, data);
    } else {
      assert Pending(filled + [data], n) == multiset{Buf(n, data)} + Pending(filled + [data], n + 1);
    }
  }

  lemma Snoc(q: seq<Item>, x: Item)
    ensures multiset(q + [x]) == multiset(q) + multiset{x}
  {
  }

  lemma Uncons(q: seq<Item>)
    requires q != []
    ensures multiset(q) == multiset{q[0]} + multiset(q[1..])
  {
    assert q == [q[0]] + q[1..];
  }

  lemma PickOut(q: seq<Item>, i: nat)
    requires i < |q|
    ensures multiset(q) == multiset(q[..i] + q[i + 1..]) + multiset{q[i]}
  {
    assert q == q[..i] + ([q[i]] + q[i + 1..]);
  }

  lemma NilTwice(q: seq<Item>)
    requires EndsInNil(q) && q[0] == Nil && |q| > 1
    ensures multiset(q)[Nil] >= 2
  {
    Uncons(q);
    assert q[1..][|q| - 2] == Nil;
  }

  /** A nil in hand with a nil at the end of the line means the line is that nil alone. */
  lemma OnlyNil(q: seq<Item>)
    requires EndsInNil(q) && q[0] == Nil && multiset(q)[Nil] <= 1
    ensures q == [Nil]
  {
    if |q| > 1 { NilTwice(q); }
  }

  lemma Cancel(a: multiset<Item>, b: multiset<Item>, x: Item)
    requires a + multiset{x} == b + multiset{x}
    ensures a == b
  {
    assert a == a + multiset{x} - multiset{x};
    assert b == b + multiset{x} - multiset{x};
  }

  /** The writer's hand moves to the back of the line, or leaves it. */
  lemma LineSplit(s: State)
    requires s.writerHand != None
    ensures multiset(Line(s)) == multiset{s.writerHand.value} + multiset(s.toDisk)
    ensures multiset(s.toDisk + [s.writerHand.value]) == multiset(Line(s))
    ensures s.writerHand.value in InFlight(s)
  {
    Uncons(Line(s));
    assert Line(s)[1..] == s.toDisk;
    Snoc(s.toDisk, s.writerHand.value);
  }

  lemma FlightIsLine(s: State)
    requires s.checksumQueue == [] && s.hands == []
    ensures InFlight(s) == multiset(Line(s))
  {
  }

  /** Two nils in a row: nothing else is left. */
  lemma LastNil(workers: nat, s: State)
    requires Inv(workers, s) && s.nilSent && !s.done && s.writerHand == Some(Nil) && s.lastWasNil
    ensures Line(s) == [Nil] && s.expected == |s.filled|
  {
    PendingItems(s.filled, s.expected);
    FlightIsLine(s);
    OnlyNil(Line(s));
    assert |multiset(Line(s))| == 1;
  }

  lemma HandleNil(workers: nat, s: State)
    requires Inv(workers, s) && Enabled(workers, s, Handle) && s.writerHand == Some(Nil)
    ensures Inv(workers, HandleHand(s))
  {
    var t := HandleHand(s);
    if s.lastWasNil {
      LastNil(workers, s);
      FlightIsLine(t);
    } else {
      LineSplit(s);
      assert Line(t) == s.toDisk + [Nil];
      NilWasSent(s);
    }
  }

  lemma NilWasSent(s: State)
    requires Balanced(s) && s.writerHand == Some(Nil)
    ensures s.nilSent && !s.done
  {
    LineSplit(s);
    PendingItems(s.filled, s.expected);
  }

  lemma PendingShrinks(filled: seq<Bytes>, n: nat, x: Item, rest: multiset<Item>, nils: multiset<Item>)
    requires n < |filled| && x == Buf(n, filled[n]) && rest + multiset{x} == Pending(filled, n) + nils
    ensures rest == Pending(filled, n + 1) + nils
  {
    Cancel(rest, Pending(filled, n + 1) + nils, x);
  }

  /** A buffer in hand holds what was filled under its number. */
  lemma HandIsFilled(s: State)
    requires Balanced(s) && s.writerHand != None && s.writerHand.value.Buf?
    ensures var x := s.writerHand.value; x.seqNo < |s.filled| && x.data == s.filled[x.seqNo]
  {
    LineSplit(s);
    PendingItems(s.filled, s.expected);
    assert s.writerHand.value in Pending(s.filled, s.expected);
  }

  lemma HandLeaves(s: State, t: State)
    requires s.writerHand != None && t.writerHand == None && t.toDisk == s.toDisk
    requires t.checksumQueue == s.checksumQueue && t.hands == s.hands
    ensures InFlight(t) + multiset{s.writerHand.value} == InFlight(s)
  {
    LineSplit(s);
    assert Line(t) == s.toDisk;
  }

  lemma WriteBalanced(s: State)
    requires Balanced(s) && s.writerHand != None && s.writerHand.value.Buf? && s.writerHand.value.seqNo == s.expected
    ensures Balanced(HandleHand(s))
  {
    HandIsFilled(s);
    HandLeaves(s, HandleHand(s));
    PendingShrinks(s.filled, s.expected, s.writerHand.value, InFlight(HandleHand(s)), NilToken(s));
  }

  lemma WriteBuf(workers: nat, s: State)
    requires Inv(workers, s) && Enabled(workers, s, Handle)
    requires s.writerHand.value.Buf? && s.writerHand.value.seqNo == s.expected
    ensures Inv(workers, HandleHand(s))
  {
    WriteBalanced(s);
    HandIsFilled(s);
    assert s.filled[..s.expected] + [s.writerHand.value.data] == s.filled[..s.expected + 1];
  }

  lemma RequeueBuf(workers: nat, s: State)
    requires Inv(workers, s) && Enabled(workers, s, Handle)
    requires s.writerHand.value.Buf? && s.writerHand.value.seqNo != s.expected
    ensures Inv(workers, HandleHand(s))
  {
    LineSplit(s);
    assert Line(HandleHand(s)) == s.toDisk + [s.writerHand.value];
  }

  lemma SendNilKeeps(workers: nat, s: State)
    requires Inv(workers, s) && Enabled(workers, s, SendNil)
    ensures Inv(workers, Next(workers, s, SendNil))
  {
    var t := Next(workers, s, SendNil);
    Snoc(Line(s), Nil);
    assert Line(t) == Line(s) + [Nil];
    assert InFlight(t) == InFlight(s) + multiset{Nil};
  }

  lemma AddLast(a: multiset<Item>, b: multiset<Item>, x: multiset<Item>)
    ensures (a + x) + b == (a + b) + x
  {
  }

  /** One more item in the checksummers' queue. */
  lemma FlightGrows(s: State, t: State, x: Item)
    requires t.checksumQueue == s.checksumQueue + [x] && t.hands == s.hands && Line(t) == Line(s)
    ensures InFlight(t) == InFlight(s) + multiset{x}
  {
    var q, hands, line := multiset(s.checksumQueue), multiset(s.hands), multiset(Line(s));
    Snoc(s.checksumQueue, x);
    AddLast(q, hands, multiset{x});
    AddLast(q + hands, line, multiset{x});
  }

  lemma FillBalanced(s: State, t: State, data: Bytes)
    requires Balanced(s) && s.expected <= |s.filled|
    requires t == s.(filling := false, checksumQueue := s.checksumQueue + [Buf(|s.filled|, data)],
                     filled := s.filled + [data])
    ensures Balanced(t)
  {
    PendingGrows(s.filled, s.expected, data);
    FlightGrows(s, t, Buf(|s.filled|, data));
    AddLast(Pending(s.filled, s.expected), NilToken(s), multiset{Buf(|s.filled|, data)});
  }

  lemma FillKeeps(workers: nat, s: State, data: Bytes)
    requires Inv(workers, s) && Enabled(workers, s, Fill(data))
    ensures Inv(workers, Next(workers, s, Fill(data)))
  {
    var t := Next(workers, s, Fill(data));
    FillBalanced(s, t, data);
    assert t.filled[..s.expected] == s.filled[..s.expected];
  }

  lemma ChecksumKeeps(workers: nat, s: State)
    requires Inv(workers, s) && Enabled(workers, s, Checksum)
    ensures Inv(workers, Next(workers, s, Checksum))
  {
    var t := Next(workers, s, Checksum);
    Uncons(s.checksumQueue);
    Snoc(s.hands, s.checksumQueue[0]);
    assert Line(t) == Line(s);
    assert InFlight(t) == InFlight(s);
  }

  lemma ChecksummedBalanced(s: State, i: nat, t: State)
    requires Balanced(s) && i < |s.hands|
    requires t == s.(hands := s.hands[..i] + s.hands[i + 1..], toDisk := s.toDisk + [s.hands[i]])
    ensures Balanced(t)
  {
    PickOut(s.hands, i);
    Snoc(Line(s), s.hands[i]);
    assert Line(t) == Line(s) + [s.hands[i]];
    assert InFlight(t) == InFlight(s);
  }

  lemma ChecksummedKeeps(workers: nat, s: State, i: nat)
    requires Inv(workers, s) && Enabled(workers, s, Checksummed(i))
    ensures Inv(workers, Next(workers, s, Checksummed(i)))
  {
    ChecksummedBalanced(s, i, Next(workers, s, Checksummed(i)));
  }

  /** Steps that leave every item where it is in line. */
  lemma QuietKeeps(workers: nat, s: State, step: Step)
    requires Inv(workers, s) && Enabled(workers, s, step) && (step.GetFree? || step.Close? || step.Receive?)
    ensures Inv(workers, Next(workers, s, step))
  {
    assert Line(Next(workers, s, step)) == Line(s);
  }

  lemma HandleKeeps(workers: nat, s: State)
    requires Inv(workers, s) && Enabled(workers, s, Handle)
    ensures Inv(workers, HandleHand(s))
  {
    if s.writerHand == Some(Nil) {
      HandleNil(workers, s);
    } else if s.writerHand.value.seqNo == s.expected {
      WriteBuf(workers, s);
    } else {
      RequeueBuf(workers, s);
    }
  }

  lemma StepKeepsInv(workers: nat, s: State, step: Step)
    requires Inv(workers, s) && Enabled(workers, s, step)
    ensures Inv(workers, Next(workers, s, step))
  {
    match step
    case Fill(data) => FillKeeps(workers, s, data);
    case Checksum => ChecksumKeeps(workers, s);
    case Checksummed(i) => ChecksummedKeeps(workers, s, i);
    case SendNil => SendNilKeeps(workers, s);
    case Handle => HandleKeeps(workers, s);
    case _ => QuietKeeps(workers, s, step);
  }

  /** No send ever waits for room: neither the filler's, nor a checksummer's, nor the writer's own re-queueing. */
  lemma NoSendBlocks(workers: nat, s: State, step: Step)
    requires Inv(workers, s) && Ready(workers, s, step)
    ensures HasRoom(workers, s, step)
  {
    PendingItems(s.filled, s.expected);
    assert |InFlight(s)| == |s.checksumQueue| + |s.hands| + |Line(s)|;
    assert |InFlight(s)| == |s.filled| - s.expected + |NilToken(s)|;
  }

  // ---------------------------------------------------------------- every schedule

  function Run(workers: nat, s: State, steps: seq<Step>): Option<State>
    decreases |steps|
  {
    if steps == [] then Some(s)
    else if Enabled(workers, s, steps[0]) then Run(workers, Next(workers, s, steps[0]), steps[1..])
    else None
  }

  lemma {:induction false} RunKeepsInv(workers: nat, s: State, steps: seq<Step>)
    requires Inv(workers, s)
    ensures Run(workers, s, steps).Some? ==> Inv(workers, Run(workers, s, steps).value)
    decreases |steps|
  {
    if steps != [] && Enabled(workers, s, steps[0]) {
      StepKeepsInv(workers, s, steps[0]);
      RunKeepsInv(workers, Next(workers, s, steps[0]), steps[1..]);
    }
  }

  lemma InitInv(workers: nat, s: State)
    requires Init(workers, s)
    ensures Inv(workers, s)
  {
    assert Line(s) == [];
  }

  /** Ordered parallel writing: under every schedule the buffers reach the disk in the order they were filled; when
      the writer has stopped, all of them have; and the queue to disk never exceeds its capacity. */
  lemma OrderedWriting(workers: nat, s: State, steps: seq<Step>)
    requires Init(workers, s) && Run(workers, s, steps).Some?
    ensures var t := Run(workers, s, steps).value;
            && t.disk <= t.filled
            && (t.done ==> t.disk == t.filled && InFlight(t) == multiset{})
            && |t.toDisk| <= workers && |t.checksumQueue| <= workers
  {
    InitInv(workers, s);
    RunKeepsInv(workers, s, steps);
    var t := Run(workers, s, steps).value;
    PendingItems(t.filled, t.expected);
    assert |InFlight(t)| == |t.checksumQueue| + |t.hands| + |Line(t)|;
    assert |InFlight(t)| == |t.filled| - t.expected + |NilToken(t)|;
  }

  /** How far the disk can be behind: under every schedule at most all buffers are full and not written, and while the
      filler has one in hand at most all others; with one worker everything filled is then on disk. */
  lemma DiskIsClose(workers: nat, s: State, steps: seq<Step>)
    requires Init(workers, s) && Run(workers, s, steps).Some?
    ensures var t := Run(workers, s, steps).value;
            && |t.disk| <= |t.filled| <= |t.disk| + workers
            && (t.filling ==> |t.filled| < |t.disk| + workers)
            && (t.filling && workers == 1 ==> t.disk == t.filled)
  {
    InitInv(workers, s);
    RunKeepsInv(workers, s, steps);
  }

  // ---------------------------------------------------------------- the writer comes to an end

  /** The next buffer to write is somewhere in the line once the closing nil is sent. */
  lemma ExpectedInLine(workers: nat, s: State)
    requires Inv(workers, s) && s.nilSent && s.expected < |s.filled|
    ensures Buf(s.expected, s.filled[s.expected]) in Line(s)
  {
    var x := Buf(s.expected, s.filled[s.expected]);
    FlightIsLine(s);
    assert x in Pending(s.filled, s.expected);
    assert x in multiset(Line(s));
  }

  /** How far down the line an item is. */
  function Place(q: seq<Item>, x: Item): nat
  {
    if q == [] || q[0] == x then 0 else 1 + Place(q[1..], x)
  }

  lemma {:induction false} PlaceOfAppended(q: seq<Item>, x: Item, y: Item)
    requires x in q
    ensures Place(q + [y], x) == Place(q, x)
  {
    if q[0] != x {
      PlaceOfAppended(q[1..], x, y);
      assert (q + [y])[1..] == q[1..] + [y];
    }
  }

  /** What is left for the writer: buffers, then steps until the next one is at hand, then receipts. */
  ghost function Left(s: State): (nat, nat, nat)
  {
    var buffers := if s.expected < |s.filled| then |s.filled| - s.expected else 0;
    (buffers,
     if buffers > 0 then Place(Line(s), Buf(s.expected, s.filled[s.expected])) else if s.lastWasNil then 0 else 1,
     if s.writerHand == None then 1 else 0)
  }

  predicate Less(a: (nat, nat, nat), b: (nat, nat, nat))
  {
    a.0 < b.0 || (a.0 == b.0 && (a.1 < b.1 || (a.1 == b.1 && a.2 < b.2)))
  }

  /** The writer's own next step. */
  function WriterStep(s: State): Step { if s.writerHand == None then Receive else Handle }

  function WriterNext(s: State): State
  {
    if s.writerHand != None then HandleHand(s)
    else if s.toDisk != [] then s.(writerHand := Some(s.toDisk[0]), toDisk := s.toDisk[1..])
    else s
  }

  lemma LineNotEmpty(workers: nat, s: State)
    requires Inv(workers, s) && s.nilSent && !s.done
    ensures Line(s) != []
  {
    FlightIsLine(s);
    assert Nil in multiset(Line(s));
  }

  /** Only the nil is left once every buffer is written. */
  lemma NilLeft(workers: nat, s: State)
    requires Inv(workers, s) && s.nilSent && !s.done && s.expected == |s.filled|
    ensures Line(s) == [Nil]
  {
    FlightIsLine(s);
    assert |multiset(Line(s))| == 1;
    assert multiset(Line(s)) == multiset{Nil};
    assert |Line(s)| == 1 && Line(s)[0] in multiset(Line(s));
  }

  /** Once the closing nil is sent the writer can always go on, and every step of it brings the end nearer. */
  lemma WriterAdvances(workers: nat, s: State)
    requires Inv(workers, s) && s.nilSent && !s.done
    ensures Enabled(workers, s, WriterStep(s))
    ensures WriterNext(s).done || Less(Left(WriterNext(s)), Left(s))
  {
    LineNotEmpty(workers, s);
    NoSendBlocks(workers, s, WriterStep(s));
    if s.writerHand == None {
      assert Line(WriterNext(s)) == Line(s);
    } else if s.expected == |s.filled| {
      NilLeft(workers, s);
    } else {
      HandleAdvances(workers, s);
    }
  }

  lemma HandleAdvances(workers: nat, s: State)
    requires Inv(workers, s) && s.nilSent && !s.done && s.writerHand != None && s.expected < |s.filled|
    ensures HandleHand(s).done || Less(Left(HandleHand(s)), Left(s))
  {
    var x, t := Buf(s.expected, s.filled[s.expected]), HandleHand(s);
    ExpectedInLine(workers, s);
    assert Line(s)[1..] == s.toDisk;
    if Line(s)[0] != x && !t.done && t.expected == s.expected {
      PlaceOfAppended(s.toDisk, x, s.writerHand.value);
      assert Line(t) == s.toDisk + [s.writerHand.value];
    }
  }

  lemma WriterNextIs(workers: nat, s: State)
    requires Enabled(workers, s, WriterStep(s))
    ensures Next(workers, s, WriterStep(s)) == WriterNext(s)
    ensures WriterNext(s).nilSent == s.nilSent && WriterNext(s).filled == s.filled
  {
  }

  /** The writer alone, one step on. */
  lemma Advance(workers: nat, s: State)
    requires Inv(workers, s) && s.nilSent && !s.done
    ensures var t := WriterNext(s);
            Inv(workers, t) && t.nilSent && t.filled == s.filled && (t.done || Less(Left(t), Left(s)))
  {
    WriterAdvances(workers, s);
    WriterNextIs(workers, s);
    StepKeepsInv(workers, s, WriterStep(s));
  }

  /** Left to itself after the closing nil, the writer stops, with every buffer on disk in fill order. */
  ghost function Drain(workers: nat, s: State): (t: State)
    requires Inv(workers, s) && s.nilSent && !s.done
    ensures t.done && t.disk == t.filled == s.filled
    decreases Left(s).0, Left(s).1, Left(s).2
  {
    Advance(workers, s);
    if WriterNext(s).done then WriterNext(s) else Drain(workers, WriterNext(s))
  }
}
