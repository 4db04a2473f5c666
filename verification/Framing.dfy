/** Checksummed framing: a logical byte stream is cut into intervals, each followed by the 4 bytes of its
    checksum. murmur3 is any function from bytes to 32-bit words. */
module Framing {
  import opened Base

  type Hash = Bytes -> U32

  const HEADER_SIZE: nat := 32
  const TRAILER_SIZE: nat := 8

  /** "TERM v0 " */
  const TERM: Bytes := [84, 69, 82, 77, 32, 118, 48, 32]

  /** The framing of the TOC writer: every full interval has a checksum, a trailing partial one has none. */
  function Frame(h: Hash, interval: nat, d: Bytes): Bytes
    requires interval > 0
    decreases |d|
  {
    if |d| < interval then d
    else d[..interval] + PutBE(h(d[..interval]), 4) + Frame(h, interval, d[interval..])
  }

  /** The framing of a closed value file: the last interval never has a checksum, even when it is full. */
  function FrameOpen(h: Hash, interval: nat, d: Bytes): Bytes
    requires interval > 0
    decreases |d|
  {
    if |d| <= interval then d
    else d[..interval] + PutBE(h(d[..interval]), 4) + FrameOpen(h, interval, d[interval..])
  }

  /** Dropping the checksum bytes. */
  function Unframe(interval: nat, p: Bytes): Bytes
    requires interval > 0
    decreases |p|
  {
    if |p| <= interval then p
    else p[..interval] + Unframe(interval, if |p| < interval + 4 then [] else p[interval + 4..])
  }

  lemma DivStep(n: nat, interval: nat)
    requires 0 < interval <= n
    ensures n / interval == (n - interval) / interval + 1
    ensures n % interval == (n - interval) % interval
  {
    var q, r := (n - interval) / interval, (n - interval) % interval;
    assert n == (q + 1) * interval + r;
    DivUnique(n, interval, q + 1, r);
  }

  lemma MulAtLeast(e: nat, m: nat)
    requires e >= 1
    ensures e * m >= m
  {
    assert e * m == (e - 1) * m + m;
  }

  lemma DivUnique(n: nat, m: nat, q: nat, r: nat)
    requires m > 0 && r < m && n == q * m + r
    ensures n / m == q && n % m == r
  {
    var q', r' := n / m, n % m;
    assert n == m * q' + r';
    assert (q - q') * m == q * m - q' * m;
    assert (q' - q) * m == q' * m - q * m;
    if q > q' {
      MulAtLeast(q - q', m);
    } else if q < q' {
      MulAtLeast(q' - q, m);
    }
  }

  /** Physical length of a TOC file with logical length d. */
  lemma {:induction false} FrameLength(h: Hash, interval: nat, d: Bytes)
    requires interval > 0
    ensures |Frame(h, interval, d)| == |d| + 4 * (|d| / interval)
    decreases |d|
  {
    if |d| >= interval {
      FrameLength(h, interval, d[interval..]);
      DivStep(|d|, interval);
    } else {
      DivUnique(|d|, interval, 0, |d|);
    }
  }

  /** Physical length of a closed value file with logical length d. */
  lemma {:induction false} FrameOpenLength(h: Hash, interval: nat, d: Bytes)
    requires interval > 0 && |d| > 0
    ensures |FrameOpen(h, interval, d)| == |d| + 4 * ((|d| - 1) / interval)
    decreases |d|
  {
    if |d| > interval {
      FrameOpenLength(h, interval, d[interval..]);
      DivStep(|d| - 1, interval);
    } else {
      DivUnique(|d| - 1, interval, 0, |d| - 1);
    }
  }

  /** Dropping the checksums of a closed value file gives its logical bytes back. */
  lemma {:induction false} UnframeFrameOpen(h: Hash, interval: nat, d: Bytes)
    requires interval > 0
    ensures Unframe(interval, FrameOpen(h, interval, d)) == d
    decreases |d|
  {
    if |d| > interval {
      var rest := FrameOpen(h, interval, d[interval..]);
      var p := FrameOpen(h, interval, d);
      UnframeFrameOpen(h, interval, d[interval..]);
      assert p[interval + 4..] == rest;
      assert p[..interval] == d[..interval];
    }
  }
}
