/**
 The reference binary Merkle tree hash (common/bmt/bmt_r.go) and the shape facts
 that tie it to a complete tree of double segments.

 The base hash is a parameter `H`; a segment is `size` bytes, a double segment
 twice that.
 */
module BmtReference {

  type Bytes = seq<bv8>

  /** A span the reference hasher can carry: `size` times a power of two, at least two segments. */
  predicate IsSpan(size: nat, s: nat) {
    size > 0 && s >= 2 * size && (s == 2 * size || (s % 2 == 0 && IsSpan(size, s / 2)))
  }

  /** The value of the halving loop `for ; s >= l; s /= 2`. */
  function HalveBelow(s: nat, l: nat): nat
    requires l > 0
  {
    if s >= l then HalveBelow(s / 2, l) else s
  }

  /** Halving a span that covers at least half the data stops at a span strictly inside it. */
  lemma {:induction false} HalveBelowSpan(size: nat, s: nat, l: nat)
    requires IsSpan(size, s) && 2 * size < l <= 2 * s
    ensures IsSpan(size, HalveBelow(s, l)) && HalveBelow(s, l) < l <= 2 * HalveBelow(s, l)
  {
    if s >= l {
      HalveBelowSpan(size, s / 2, l);
    }
  }

  /** `RefHasher.hash`: the reference value of data `d` under span `s`. */
  function RefHash(H: Bytes -> Bytes, size: nat, d: Bytes, s: nat): Bytes
    requires IsSpan(size, s) && |d| <= 2 * s
    decreases |d|
  {
    if |d| > 2 * size then
      HalveBelowSpan(size, s, |d|);
      var half := HalveBelow(s, |d|);
      var left := RefHash(H, size, d[..half], half);
      var right := if |d| - half > size then RefHash(H, size, d[half..], half) else d[half..];
      H(left + right)
    else
      H(d)
  }

  /** Two covering spans halve to the same split point. */
  lemma {:induction false} HalveUnique(size: nat, s: nat, t: nat, l: nat)
    requires IsSpan(size, s) && IsSpan(size, t) && 2 * size < l <= 2 * s && l <= 2 * t
    ensures HalveBelow(s, l) == HalveBelow(t, l)
    decreases s + t
  {
    if s >= l {
      HalveUnique(size, s / 2, t, l);
    } else if t >= l {
      HalveUnique(size, s, t / 2, l);
    } else {
      NoSpanBetween(size, s, t);
    }
  }

  /** Spans double, so two spans within a factor of two of each other are equal. */
  lemma {:induction false} NoSpanBetween(size: nat, s: nat, t: nat)
    requires IsSpan(size, s) && IsSpan(size, t) && s < 2 * t && t < 2 * s
    ensures s == t
    decreases s
  {
    if s != 2 * size && t != 2 * size {
      NoSpanBetween(size, s / 2, t / 2);
    }
  }

  /** The span does not matter as long as it covers half of the data. */
  lemma SpanIrrelevant(H: Bytes -> Bytes, size: nat, d: Bytes, s: nat, t: nat)
    requires IsSpan(size, s) && IsSpan(size, t) && |d| <= 2 * s && |d| <= 2 * t
    ensures RefHash(H, size, d, s) == RefHash(H, size, d, t)
  {
    if |d| > 2 * size {
      HalveUnique(size, s, t, |d|);
    }
  }

  /** Number of data bytes below a node `h` levels above the double segments. */
  function Width(size: nat, h: nat): (w: nat)
    requires size > 0
    ensures IsSpan(size, w)
  {
    if h == 0 then 2 * size
    else
      var w := 2 * Width(size, h - 1);
      assert w / 2 == Width(size, h - 1) && w % 2 == 0;
      w
  }

  /**
   What a node `h` levels above the double segments hands to its parent: a node
   whose right half is empty hands on its left half unchanged, and a lone segment
   is handed on unhashed.
   */
  function TreeValue(H: Bytes -> Bytes, size: nat, d: Bytes, h: nat): Bytes
    requires size > 0 && |d| <= Width(size, h)
    decreases h
  {
    if h == 0 then
      if |d| > size then H(d) else d
    else
      var half := Width(size, h - 1);
      if |d| > half then
        H(TreeValue(H, size, d[..half], h - 1) + TreeValue(H, size, d[half..], h - 1))
      else
        TreeValue(H, size, d, h - 1)
  }

  /** A complete tree computes the reference hash, except that a lone segment stays raw. */
  lemma {:induction false} TreeValueIsReference(H: Bytes -> Bytes, size: nat, d: Bytes, h: nat)
    requires size > 0 && |d| <= Width(size, h)
    ensures TreeValue(H, size, d, h) ==
            if |d| <= size then d else RefHash(H, size, d, Width(size, h))
  {
    if h == 0 {
    } else {
      var half := Width(size, h - 1);
      if |d| > half {
        TreeValueIsReference(H, size, d[..half], h - 1);
        TreeValueIsReference(H, size, d[half..], h - 1);
        assert HalveBelow(2 * half, |d|) == half;
      } else {
        TreeValueIsReference(H, size, d, h - 1);
        SpanIrrelevant(H, size, d, half, Width(size, h));
      }
    }
  }

  /** The data a hasher of `count` segments covers: everything up to the capacity. */
  function Truncate(d: Bytes, cap: nat): Bytes {
    if |d| > cap then d[..cap] else d
  }

  /** `NewRefHasher`'s span: half the smallest power of two not below `count`, at least two segments. */
  function RefSpan(size: nat, count: nat): (s: nat)
    requires size > 0
    ensures IsSpan(size, s) && count * size <= 2 * s
  {
    DoubleSpan(size, 2, count);
    var c := DoubleUntil(2, count);
    (if c > 2 then c / 2 else c) * size
  }

  function DoubleUntil(c: nat, count: nat): (r: nat)
    requires c > 0
    ensures r >= c && r >= count
    decreases count - c
  {
    if c < count then DoubleUntil(2 * c, count) else c
  }

  /** Doubling keeps spans: the loop ends on a span, and so does half of what it ends on. */
  lemma {:induction false} DoubleSpan(size: nat, c: nat, count: nat)
    requires size > 0 && c >= 2 && IsSpan(size, c * size)
    requires c > 2 ==> c % 2 == 0 && IsSpan(size, c / 2 * size)
    ensures var r := DoubleUntil(c, count);
            && r * size >= count * size
            && IsSpan(size, r * size)
            && (r > 2 ==> IsSpan(size, r / 2 * size) && 2 * (r / 2 * size) == r * size)
    decreases count - c
  {
    if c < count {
      DoubleMul(c, size);
      SpanDouble(size, c * size);
      DoubleSpan(size, 2 * c, count);
    } else {
      MulMonotone(count, c, size);
      if c > 2 {
        DoubleMul(c / 2, size);
      }
    }
  }

  lemma SpanDouble(size: nat, s: nat)
    requires IsSpan(size, s)
    ensures IsSpan(size, 2 * s)
  {
    assert (2 * s) / 2 == s && (2 * s) % 2 == 0;
  }

  lemma DoubleMul(c: nat, size: nat)
    ensures (2 * c) * size == 2 * (c * size) && (2 * c) / 2 == c
  {
  }

  lemma MulMonotone(a: nat, b: nat, c: nat)
    requires a <= b
    ensures a * c <= b * c
  {
  }

  /** `RefHasher.Hash`: truncate to the capacity, then hash. */
  function Reference(H: Bytes -> Bytes, size: nat, count: nat, d: Bytes): Bytes
    requires size > 0
  {
    RefHash(H, size, Truncate(d, count * size), RefSpan(size, count))
  }

  /**
   The reference hash of data that fits is the value of any covering tree, except
   that data of at most one segment is hashed once.
   */
  lemma ReferenceIsTreeValue(H: Bytes -> Bytes, size: nat, count: nat, d: Bytes, h: nat)
    requires size > 0 && |d| <= count * size && |d| <= Width(size, h)
    ensures Reference(H, size, count, d) ==
            if |d| <= size then H(d) else TreeValue(H, size, d, h)
  {
    TreeValueIsReference(H, size, d, h);
    SpanIrrelevant(H, size, d, RefSpan(size, count), Width(size, h));
  }

  /** `NewRefHasher` with its doubling loop. */
  method NewRefHasher(size: nat, count: nat) returns (section: nat, span: nat, cap: nat)
    requires size > 0
    ensures section == 2 * size && cap == count * size && span == RefSpan(size, count)
  {
    cap := size * count;
    var c := 2;
    while c < count
      invariant c >= 2 && DoubleUntil(c, count) == DoubleUntil(2, count)
      decreases count - c
    {
      c := c * 2;
    }
    if c > 2 {
      c := c / 2;
    }
    section, span := 2 * size, c * size;
  }

  /** `RefHasher.hash` with its halving loop. */
  method Hash(H: Bytes -> Bytes, size: nat, d: Bytes, span: nat) returns (r: Bytes)
    requires IsSpan(size, span) && |d| <= 2 * span
    ensures r == RefHash(H, size, d, span)
    decreases |d|
  {
    var left, right := d, [];
    var s: nat := span;
    if |d| > 2 * size {
      HalveBelowSpan(size, span, |d|);
      while s >= |d|
        invariant HalveBelow(s, |d|) == HalveBelow(span, |d|)
      {
        s := s / 2;
      }
      left := Hash(H, size, d[..s], s);
      right := d[s..];
      if |d| - s > size {
        right := Hash(H, size, right, s);
      }
    }
    assert |d| <= 2 * size ==> left + right == d;
    r := H(left + right);
  }
}
