/** TOC files: what tocWriter writes and what valueReadTOCEntriesBatched (and its group twin) reads back.
    The entry size is a parameter: 32 for values, 48 for groups. */
module TocFile {
  import opened Base
  import opened Framing

  /** magic:28 bytes, entry size in bytes. */
  datatype Format = Format(magic: Bytes, size: nat)

  predicate FormatOk(fmt: Format) { |fmt.magic| == 28 && fmt.size >= 24 }

  function Ascii(s: string): (r: Bytes)
    ensures |r| == |s|
  {
    seq(|s|, i requires 0 <= i < |s| => (s[i] as int) % 256)
  }

  const VALUE_TOC: Format := Format(Ascii("VALUESTORETOC v0            "), 32)
  const GROUP_TOC: Format := Format(Ascii("GROUPSTORETOC v0            "), 48)

  /** An entry as it stands in the file: keys, timestamp bits:8, offset:4, length:4. */
  type Slot = Bytes

  /** The offset field; zero marks filler. */
  function SlotOffset(s: Slot): U32
  {
    if |s| >= 8 then Get32(s[|s| - 8..|s| - 4]) else 0
  }

  function SlotKeyB(s: Slot): U64
  {
    if |s| >= 16 then Get64(s[8..16]) else 0
  }

  predicate IsLive(s: Slot) { SlotOffset(s) != 0 }

  function Live(ss: seq<Slot>): seq<Slot> { Filter(ss, IsLive) }

  // ---------------------------------------------------------------- writing

  function Header(fmt: Format, interval: nat): Bytes { fmt.magic + PutBE(interval, 4) }

  /** A full interval of zeros ending in the terminator. */
  function TermBlock(interval: nat): Bytes
    requires interval >= TRAILER_SIZE
  {
    Zeros(interval - TRAILER_SIZE) + TERM
  }

  function Logical(fmt: Format, interval: nat, slots: seq<Slot>): Bytes
    requires interval >= TRAILER_SIZE
  {
    Header(fmt, interval) + Flatten(slots) + TermBlock(interval)
  }

  /** A cleanly closed TOC file. */
  function Write(h: Hash, fmt: Format, interval: nat, slots: seq<Slot>): Bytes
    requires interval >= TRAILER_SIZE
  {
    Frame(h, interval, Logical(fmt, interval, slots))
  }

  // ---------------------------------------------------------------- reading, as a function

  /** The whole slots of s, and what is left over. */
  function Slots(size: nat, s: Bytes): seq<Slot>
    requires size > 0
    decreases |s|
  {
    if |s| < size then [] else [s[..size]] + Slots(size, s[size..])
  }

  function Rest(size: nat, s: Bytes): Bytes
    requires size > 0
    decreases |s|
  {
    if |s| < size then s else Rest(size, s[size..])
  }

  /** Slots found, checksum errors, whether the terminator was found; or the read past the end of a chunk
      that makes the reader panic. */
  datatype Scan = Panic | Scan(slots: seq<Slot>, bad: nat, terminated: bool)

  function WithSlots(ss: seq<Slot>, r: Scan): Scan
  {
    match r case Panic => Panic case Scan(t, b, e) => Scan(ss + t, b, e)
  }

  function WithBad(r: Scan): Scan
  {
    match r case Panic => Panic case Scan(t, b, e) => Scan(t, b + 1, e)
  }

  predicate EndsInTerm(s: Bytes) { |s| >= TRAILER_SIZE && s[|s| - TRAILER_SIZE..] == TERM }

  function StripTerm(s: Bytes): Bytes { if EndsInTerm(s) then s[..|s| - TRAILER_SIZE] else s }

  /** What the reader has in hand after skipping or carrying over. */
  function InHand(data: Bytes, carry: Bytes, skip: nat): Bytes
    requires skip <= |data|
  {
    if skip != 0 then data[skip..] else carry + data
  }

  /** The bytes to skip after a corrupt chunk, exactly as the source computes them. */
  function SkipAfter(size: nat, interval: nat, carryLen: nat, skip: nat): nat
    requires size > 0
  {
    size - (skip + carryLen + interval) % size
  }

  /** The read loop on what is left of the file, with the bytes carried over and the bytes to skip. */
  function ReadFrom(h: Hash, size: nat, interval: nat, p: Bytes, carry: Bytes, skip: nat): Scan
    requires size > 0
    decreases |p|
  {
    if |p| >= interval + 4 then
      var data := p[..interval];
      var next := p[interval + 4..];
      if Get32(p[interval..interval + 4]) != h(data) then
        WithBad(ReadFrom(h, size, interval, next, [], SkipAfter(size, interval, |carry|, skip)))
      else if skip > |data| then Panic
      else
        var s := InHand(data, carry, skip);
        WithSlots(Live(Slots(size, s)), ReadFrom(h, size, interval, next, Rest(size, s), 0))
    else if skip > |p| then Panic
    else
      var s := InHand(p, carry, skip);
      Scan(Live(Slots(size, StripTerm(s))), 0, EndsInTerm(s))
  }

  // The two ways a full round of the loop can go.

  lemma CorruptRound(h: Hash, size: nat, interval: nat, p: Bytes, carry: Bytes, skip: nat)
    requires size > 0 && |p| >= interval + 4 && Get32(p[interval..interval + 4]) != h(p[..interval])
    ensures ReadFrom(h, size, interval, p, carry, skip) ==
            WithBad(ReadFrom(h, size, interval, p[interval + 4..], [], SkipAfter(size, interval, |carry|, skip)))
  {
  }

  lemma IntactRound(h: Hash, size: nat, interval: nat, p: Bytes, carry: Bytes, skip: nat)
    requires size > 0 && |p| >= interval + 4 && Get32(p[interval..interval + 4]) == h(p[..interval]) && skip <= interval
    ensures var s := InHand(p[..interval], carry, skip);
            ReadFrom(h, size, interval, p, carry, skip) ==
            WithSlots(Live(Slots(size, s)), ReadFrom(h, size, interval, p[interval + 4..], Rest(size, s), 0))
  {
  }

  datatype Outcome =
    | HeaderError
    | Crashed
    | Read(slots: seq<Slot>, checksumErrors: nat, terminated: bool)

  /** Reads the whole file: header first, then everything from the start again. */
  function ReadToc(h: Hash, fmt: Format, p: Bytes): Outcome
    requires fmt.size > 0
  {
    if |p| < HEADER_SIZE || p[..28] != fmt.magic || Get32(p[28..32]) < HEADER_SIZE then HeaderError
    else
      match ReadFrom(h, fmt.size, Get32(p[28..32]), p, [], HEADER_SIZE)
      case Panic => Crashed
      case Scan(ss, bad, term) => Outcome.Read(ss, bad, term)
  }

  // ---------------------------------------------------------------- slots of a concatenation

  lemma {:induction false} RestLength(size: nat, s: Bytes)
    requires size > 0
    ensures |Rest(size, s)| == |s| % size
    decreases |s|
  {
    if |s| >= size {
      RestLength(size, s[size..]);
      DivStep(|s|, size);
    } else {
      DivUnique(|s|, size, 0, |s|);
    }
  }

  lemma {:induction false} RestIsSuffix(size: nat, s: Bytes)
    requires size > 0
    ensures |Rest(size, s)| <= |s| && Rest(size, s) == s[|s| - |Rest(size, s)|..]
    decreases |s|
  {
    if |s| >= size {
      RestIsSuffix(size, s[size..]);
    }
  }

  lemma {:induction false} FrontSlots(size: nat, s: Bytes)
    requires size > 0
    ensures |Rest(size, s)| <= |s|
    ensures var front := s[..|s| - |Rest(size, s)|];
            Slots(size, front) == Slots(size, s) && Rest(size, front) == []
    decreases |s|
  {
    if |s| < size {
      assert s[..0] == [];
    } else {
      FrontSlots(size, s[size..]);
      var front := s[..|s| - |Rest(size, s)|];
      RestIsSuffix(size, s[size..]);
      assert front[size..] == s[size..][..|s[size..]| - |Rest(size, s[size..])|];
      assert front[..size] == s[..size];
    }
  }

  /** Carrying the rest over loses nothing. */
  lemma {:induction false} SlotsConcat(size: nat, s: Bytes, t: Bytes)
    requires size > 0
    ensures Slots(size, s + t) == Slots(size, s) + Slots(size, Rest(size, s) + t)
    ensures Rest(size, s + t) == Rest(size, Rest(size, s) + t)
    decreases |s|
  {
    if |s| >= size {
      assert (s + t)[size..] == s[size..] + t;
      assert (s + t)[..size] == s[..size];
      SlotsConcat(size, s[size..], t);
    }
  }

  lemma LiveSlotsConcat(size: nat, s: Bytes, t: Bytes)
    requires size > 0
    ensures Live(Slots(size, s + t)) == Live(Slots(size, s)) + Live(Slots(size, Rest(size, s) + t))
  {
    SlotsConcat(size, s, t);
    FilterConcat(Slots(size, s), Slots(size, Rest(size, s) + t), IsLive);
  }

  lemma {:induction false} SlotsOfFlatten(size: nat, slots: seq<Slot>)
    requires size > 0 && forall i :: 0 <= i < |slots| ==> |slots[i]| == size
    ensures Slots(size, Flatten(slots)) == slots && Rest(size, Flatten(slots)) == []
    ensures |Flatten(slots)| == |slots| * size
  {
    if slots != [] {
      var s := Flatten(slots);
      assert s == slots[0] + Flatten(slots[1..]);
      SlotsOfFlatten(size, slots[1..]);
      assert s[..size] == slots[0] && s[size..] == Flatten(slots[1..]);
      assert |slots| * size == (|slots| - 1) * size + size;
    }
  }

  lemma {:induction false} LiveAll(slots: seq<Slot>)
    requires forall i :: 0 <= i < |slots| ==> IsLive(slots[i])
    ensures Live(slots) == slots
  {
    if slots != [] { LiveAll(slots[1..]); }
  }

  lemma ZeroSlotIsFiller(s: Slot)
    requires |s| >= 8 && forall i :: |s| - 8 <= i < |s| - 4 ==> s[i] == 0
    ensures !IsLive(s)
  {
    GetZeros(s[|s| - 8..|s| - 4]);
  }

  lemma {:induction false} ZerosAreFiller(size: nat, n: nat)
    requires size >= 8
    ensures Live(Slots(size, Zeros(n))) == []
    decreases n
  {
    if n >= size {
      assert Zeros(n)[size..] == Zeros(n - size);
      ZeroSlotIsFiller(Zeros(n)[..size]);
      ZerosAreFiller(size, n - size);
    }
  }

  // ---------------------------------------------------------------- the clean round trip

  /** Bytes in hand at the end of a clean stream x ++ tail: the rest of x and the tail. */
  function LastLen(size: nat, interval: nat, carryLen: nat, n: nat): nat
    requires size > 0 && interval > 0
  {
    (carryLen + n - n % interval) % size + n % interval
  }

  /** The terminator is found exactly when the last chunk still has it whole. */
  predicate Found(size: nat, interval: nat, carry: Bytes, d: Bytes)
    requires size > 0 && interval > 0
  {
    LastLen(size, interval, |carry|, |d|) >= TRAILER_SIZE && EndsInTerm(carry + d)
  }

  /** What reading an undamaged stream must find: its slots, without the terminator if that was found. */
  function CleanResult(size: nat, whole: Bytes, found: bool): Scan
    requires size > 0
  {
    Scan(Live(Slots(size, if found then StripTerm(whole) else whole)), 0, found)
  }

  lemma FoundStep(size: nat, interval: nat, carry: Bytes, d: Bytes)
    requires size > 0 && 0 < interval <= |d|
    ensures var s := carry + d[..interval];
            && (Found(size, interval, carry, d) <==> Found(size, interval, Rest(size, s), d[interval..]))
            && (Found(size, interval, carry, d) ==>
                  EndsInTerm(Rest(size, s) + d[interval..]) && EndsInTerm(s + d[interval..]))
  {
    var s, d' := carry + d[..interval], d[interval..];
    RestLength(size, s);
    LastLenStep(size, interval, |carry|, |d|);
    assert carry + d == s + d';
    LastLenAtMost(size, interval, |Rest(size, s)|, |d'|);
    if |Rest(size, s) + d'| >= TRAILER_SIZE { SameEnding(size, s, d'); }
  }

  /** Reading s, then the rest of s with t, is reading s and t together. */
  lemma CleanJoin(size: nat, s: Bytes, t: Bytes, found: bool)
    requires size > 0
    requires found ==> EndsInTerm(Rest(size, s) + t) && EndsInTerm(s + t)
    ensures WithSlots(Live(Slots(size, s)), CleanResult(size, Rest(size, s) + t, found)) ==
            CleanResult(size, s + t, found)
  {
    if found { StripSplit(size, s, t); } else { LiveSlotsConcat(size, s, t); }
  }

  /** Reading in chunks finds what reading the stream as a whole would. */
  lemma {:induction false} ReadClean(h: Hash, size: nat, interval: nat, d: Bytes, carry: Bytes)
    requires size >= TRAILER_SIZE && interval > 0 && |carry| < size
    ensures ReadFrom(h, size, interval, Frame(h, interval, d), carry, 0) ==
            CleanResult(size, carry + d, Found(size, interval, carry, d))
    decreases |d|
  {
    if |d| < interval {
      DivUnique(|d|, interval, 0, |d|);
      DivUnique(|carry|, size, 0, |carry|);
    } else {
      var s, t := carry + d[..interval], d[interval..];
      assert carry + d == s + t;
      RestLength(size, s);
      ReadFullChunk(h, size, interval, d, carry);
      ReadClean(h, size, interval, t, Rest(size, s));
      FoundStep(size, interval, carry, d);
      CleanJoin(size, s, t, Found(size, interval, carry, d));
    }
  }

  /** The first chunk of a framed stream is read and its rest carried over. */
  lemma ReadFullChunk(h: Hash, size: nat, interval: nat, d: Bytes, carry: Bytes)
    requires size > 0 && 0 < interval <= |d|
    ensures var s := carry + d[..interval];
            ReadFrom(h, size, interval, Frame(h, interval, d), carry, 0) ==
            WithSlots(Live(Slots(size, s)),
                      ReadFrom(h, size, interval, Frame(h, interval, d[interval..]), Rest(size, s), 0))
  {
    var p := Frame(h, interval, d);
    FirstChunk(h, interval, d);
  }

  lemma FirstChunk(h: Hash, interval: nat, d: Bytes)
    requires 0 < interval <= |d|
    ensures var p := Frame(h, interval, d);
            && |p| >= interval + 4 && p[..interval] == d[..interval]
            && Get32(p[interval..interval + 4]) == h(d[..interval])
            && p[interval + 4..] == Frame(h, interval, d[interval..])
  {
    var p := Frame(h, interval, d);
    GetPut32(h(d[..interval]));
    assert p[interval..interval + 4] == PutBE(h(d[..interval]), 4);
  }

  lemma LastLenStep(size: nat, interval: nat, carryLen: nat, n: nat)
    requires size > 0 && 0 < interval <= n
    ensures LastLen(size, interval, (carryLen + interval) % size, n - interval) == LastLen(size, interval, carryLen, n)
  {
    DivStep(n, interval);
    var r := n % interval;
    assert r <= n - interval by { assert r == (n - interval) % interval; }
    ModAdd(carryLen + interval, n - interval - r, size);
  }

  lemma ModAtMost(a: nat, m: nat)
    requires m > 0
    ensures a % m <= a
  {
    assert a == m * (a / m) + a % m;
  }

  lemma LastLenAtMost(size: nat, interval: nat, carryLen: nat, n: nat)
    requires size > 0 && interval > 0
    ensures LastLen(size, interval, carryLen, n) <= carryLen + n
  {
    ModAtMost(n, interval);
    ModAtMost(carryLen + n - n % interval, size);
  }

  lemma ModAdd(a: nat, b: nat, m: nat)
    requires m > 0
    ensures (a % m + b) % m == (a + b) % m
  {
    var q := a / m;
    var r := (a % m + b) % m;
    var q' := (a % m + b) / m;
    assert a + b == (q + q') * m + r;
    DivUnique(a + b, m, q + q', r);
  }

  lemma SameEnding(size: nat, s: Bytes, d: Bytes)
    requires size > 0 && |Rest(size, s) + d| >= TRAILER_SIZE
    ensures EndsInTerm(s + d) <==> EndsInTerm(Rest(size, s) + d)
  {
    var c := Rest(size, s);
    RestIsSuffix(size, s);
    assert s + d == s[..|s| - |c|] + (c + d);
    TailOfConcat(s[..|s| - |c|], c + d, TRAILER_SIZE);
  }

  lemma StripShape(front: Bytes, c: Bytes, d: Bytes)
    requires EndsInTerm(front + c + d) && EndsInTerm(c + d)
    ensures StripTerm(front + c + d) == front + StripTerm(c + d)
  {
    assert front + c + d == front + (c + d);
    TailOfConcat(front, c + d, TRAILER_SIZE);
  }

  /** Stripping the terminator commutes with carrying over when it lies past the slots already read. */
  lemma StripSplit(size: nat, s: Bytes, d: Bytes)
    requires size > 0 && EndsInTerm(s + d) && EndsInTerm(Rest(size, s) + d)
    ensures Live(Slots(size, StripTerm(s + d))) ==
              Live(Slots(size, s)) + Live(Slots(size, StripTerm(Rest(size, s) + d)))
  {
    var c := Rest(size, s);
    FrontSlots(size, s);
    var front, t := s[..|s| - |c|], StripTerm(c + d);
    assert s == front + c by { RestIsSuffix(size, s); }
    StripShape(front, c, d);
    LiveSlotsConcat(size, front, t);
    assert [] + t == t;
  }
}
