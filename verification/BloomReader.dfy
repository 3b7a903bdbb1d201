/**
 The reader of the matcher's sink (common/bloombits/matcher.go): the loop in
 `Matcher.Start` that turns the bit vector of a section into block numbers, skipping
 zero bytes, in 64-bit arithmetic.

 `ReadExact` says exactly where that arithmetic is right for every vector.
 */
module BloomReader {
  import opened Bits

  const TWO64 := 0x1_0000_0000_0000_0000

  /** Unsigned 64-bit arithmetic. */
  function Wrap(x: int): (r: nat)
    ensures r < TWO64
    ensures 0 <= x < TWO64 ==> r == x
    ensures TWO64 <= x < 2 * TWO64 ==> r == x - TWO64
    ensures -TWO64 <= x < 0 ==> r == x + TWO64
  {
    x % TWO64
  }

  function Max(x: nat, y: nat): nat {
    if x > y then x else y
  }

  ghost predicate Increasing(s: seq<nat>) {
    forall a, b :: 0 <= a < b < |s| ==> s[a] < s[b]
  }

  /** Every listed number is below `bound`. */
  ghost predicate Below(s: seq<nat>, bound: nat) {
    forall a :: 0 <= a < |s| ==> s[a] < bound
  }

  /** The bits of a vector. */
  function Unpack(v: Bytes): (bits: seq<bool>)
    ensures |bits| == 8 * |v|
  {
    seq(8 * |v|, j requires 0 <= j < 8 * |v| => BitAt(v, j))
  }

  // ------------------------------------------------------------------- the answer

  /** Block `n` has its bit set in the vector of the section that starts at `start`. */
  predicate Hit(bits: seq<bool>, start: nat, n: nat) {
    start <= n < start + |bits| && bits[n - start]
  }

  /** The blocks from `i` to `last` with a set bit, one after the other. */
  function Hits(bits: seq<bool>, start: nat, i: nat, last: int): seq<nat>
    decreases last - i
  {
    if i > last then [] else (if Hit(bits, start, i) then [i] else []) + Hits(bits, start, i + 1, last)
  }

  lemma {:induction false} HitsExact(bits: seq<bool>, start: nat, i: nat, last: int)
    ensures var r := Hits(bits, start, i, last);
            Increasing(r) && forall n :: n in r <==> i <= n <= last && Hit(bits, start, n)
    decreases last - i
  {
    if i <= last {
      HitsExact(bits, start, i + 1, last);
      var rest := Hits(bits, start, i + 1, last);
      assert forall a :: 0 <= a < |rest| ==> rest[a] in rest;
    }
  }

  /** Blocks without a bit may be skipped. */
  lemma {:induction false} HitsSkip(bits: seq<bool>, start: nat, i: nat, i': nat, last: int)
    requires i <= i' && forall n :: i <= n < i' ==> !Hit(bits, start, n)
    ensures Hits(bits, start, i, last) == Hits(bits, start, i', last)
    decreases i' - i
  {
    if i < i' && i <= last {
      HitsSkip(bits, start, i + 1, i', last);
    }
  }

  /** The blocks of a section that are asked for and have a set bit. */
  function Wanted(bits: seq<bool>, start: nat, begin: nat, end: nat): seq<nat> {
    Hits(bits, start, Max(begin, start), if end < start + |bits| - 1 then end else start + |bits| - 1)
  }

  /** The list holds exactly the blocks from `begin` to `end`, below `bound`, that are to be kept. */
  ghost predicate ListsKept(results: seq<nat>, keep: nat -> bool, begin: nat, end: nat, bound: nat) {
    && Increasing(results) && Below(results, bound)
    && forall n :: n in results <==> begin <= n <= end && n < bound && keep(n)
  }

  /** A section's blocks extend the list to the end of the section. */
  lemma SectionListed(sofar: seq<nat>, bits: seq<bool>, keep: nat -> bool, begin: nat, end: nat, start: nat)
    requires ListsKept(sofar, keep, begin, end, start)
    requires forall j :: 0 <= j < |bits| ==> (bits[j] <==> keep(start + j))
    ensures ListsKept(sofar + Wanted(bits, start, begin, end), keep, begin, end, start + |bits|)
  {
    var more := Wanted(bits, start, begin, end);
    HitsExact(bits, start, Max(begin, start), if end < start + |bits| - 1 then end else start + |bits| - 1);
    forall n
      ensures n in sofar + more <==> begin <= n <= end && n < start + |bits| && keep(n)
    {
      if start <= n < start + |bits| {
        assert bits[n - start] <==> keep(start + (n - start));
      }
    }
    assert forall a :: 0 <= a < |more| ==> more[a] in more;
    assert forall a :: 0 <= a < |sofar| ==> sofar[a] in sofar;
  }

  // --------------------------------------------------------------------- the loop

  /** The end of the loop: the blocks delivered, or an index out of range. */
  datatype Read = Listed(blocks: seq<nat>) | Panics

  function Before(blocks: seq<nat>, r: Read): Read {
    if r.Listed? then Listed(blocks + r.blocks) else Panics
  }

  /** The next value of the loop variable: past the rest of a zero byte that is processed from its first bit. */
  function NextBlock(zero: bool, i: nat): nat {
    if zero && i % 8 == 0 then Wrap(Wrap(i + 7) + 1) else Wrap(i + 1)
  }

  /** What is delivered for block `i`: the bit test is by the block number's own low bits. */
  function Found(next: bv8, i: nat): seq<nat> {
    if next != 0 && Bit(next, i % 8) then [i] else []
  }

  /** The vector fits below 2^64, or the loop does not run. */
  predicate Fits(bitset: Bytes, start: nat, i: nat, last: nat) {
    && i < TWO64 && last < TWO64 && 8 * |bitset| < TWO64
    && (i > last || start + 8 * |bitset| <= TWO64)
  }

  /** The loop from block `i` on. */
  function Scan(bitset: Bytes, start: nat, i: nat, last: nat): Read
    requires Fits(bitset, start, i, last)
    decreases if i < start then 0 else TWO64 - i
  {
    if i > last then Listed([])
    else
      var k := Wrap(i - start) / 8;
      if k >= |bitset| then Panics
      else
        var next := bitset[k];
        Before(Found(next, i), Scan(bitset, start, NextBlock(next == 0, i), last))
  }

  lemma BeforeTwice(a: seq<nat>, b: seq<nat>, r: Read)
    ensures Before(a, Before(b, r)) == Before(a + b, r)
  {
    if r.Listed? {
      assert a + (b + r.blocks) == a + b + r.blocks;
    }
  }

  /** One turn of the loop. */
  lemma ScanTurn(bitset: Bytes, start: nat, i: nat, last: nat)
    requires Fits(bitset, start, i, last) && i <= last
    ensures var k := Wrap(i - start) / 8;
            if k >= |bitset| then Scan(bitset, start, i, last) == Panics
            else
              var next := bitset[k];
              var i' := NextBlock(next == 0, i);
              && Fits(bitset, start, i', last) && start <= i && (i' < start || i < i')
              && Scan(bitset, start, i, last) == Before(Found(next, i), Scan(bitset, start, i', last))
  {
  }

  /** The loop of `Start` over the blocks of one section. */
  method ReadLoop(bitset: Bytes, start: nat, first: nat, last: nat) returns (r: Read)
    requires Fits(bitset, start, first, last)
    ensures r == Scan(bitset, start, first, last)
  {
    var i: nat, blocks: seq<nat> := first, [];
    ghost var rest := Scan(bitset, start, i, last);
    ghost var whole := rest;
    while i <= last
      invariant Fits(bitset, start, i, last) && rest == Scan(bitset, start, i, last)
      invariant whole == Before(blocks, rest)
      decreases if i < start then 0 else TWO64 - i
    {
      ScanTurn(bitset, start, i, last);
      var k := Wrap(i - start) / 8;
      if k >= |bitset| {
        return Panics;
      }
      var next := bitset[k];
      var found := Found(next, i);
      i := NextBlock(next == 0, i);
      rest := Scan(bitset, start, i, last);
      BeforeTwice(blocks, found, rest);
      blocks := blocks + found;
    }
    return Listed(blocks);
  }

  /** The numbers of a section as the reader computes them. */
  function ReadSection(bitset: Bytes, start: nat, begin: nat, end: nat): Read
    requires 0 < 8 * |bitset| < TWO64 && start <= end < TWO64 && begin < TWO64
  {
    var first := Max(begin, start);
    var last := Wrap(start + 8 * |bitset| - 1);
    Scan(bitset, start, first, if end < last then end else last)
  }

  // ------------------------------------------------------------- where it is right

  /** A byte of the vector is the bits of its eight blocks. */
  lemma ByteHits(bitset: Bytes, start: nat, i: nat)
    requires start % 8 == 0 && start <= i < start + 8 * |bitset|
    ensures Found(bitset[(i - start) / 8], i) == if Hit(Unpack(bitset), start, i) then [i] else []
  {
    assert (i - start) % 8 == i % 8;
    NoBits(i % 8);
  }

  /** The loop variable does not wrap where it matters. */
  predicate Safe(bitset: Bytes, start: nat, i: nat, last: nat) {
    || i > last
    || start + 8 * |bitset| < TWO64
    || last < TWO64 - 8
    || (last < TWO64 - 1 && (i > TWO64 - 8 || (|bitset| == 1 && bitset[0] != 0)))
  }

  lemma SafeNext(bitset: Bytes, start: nat, i: nat, last: nat)
    requires start % 8 == 0 && start <= i <= last < start + 8 * |bitset| <= TWO64 && Safe(bitset, start, i, last)
    ensures var zero := bitset[(i - start) / 8] == 0;
            var i' := NextBlock(zero, i);
            && i' == (if zero && i % 8 == 0 then i + 8 else i + 1)
            && i' < TWO64
            && Safe(bitset, start, i', last)
  {
    var zero := bitset[(i - start) / 8] == 0;
    if zero && i % 8 == 0 {
      assert i + 8 <= start + 8 * |bitset|;
    }
  }

  /** The blocks the loop passes over have no bit. */
  lemma PassedOver(bitset: Bytes, start: nat, i: nat)
    requires start % 8 == 0 && start <= i < start + 8 * |bitset| && bitset[(i - start) / 8] == 0
    ensures forall n :: i <= n < (if i % 8 == 0 then i + 8 else i + 1) ==> !Hit(Unpack(bitset), start, n)
  {
    forall n | i <= n < (if i % 8 == 0 then i + 8 else i + 1) && n < start + 8 * |bitset|
      ensures !Hit(Unpack(bitset), start, n)
    {
      assert (n - start) / 8 == (i - start) / 8;
      ByteHits(bitset, start, n);
    }
  }

  /** Where it cannot wrap, the loop lists the hits. */
  lemma {:induction false} ScanIsHits(bitset: Bytes, start: nat, i: nat, last: nat)
    requires Fits(bitset, start, i, last) && start % 8 == 0 && start <= i && Safe(bitset, start, i, last)
    requires i <= last ==> last < start + 8 * |bitset| <= TWO64
    ensures Scan(bitset, start, i, last) == Listed(Hits(Unpack(bitset), start, i, last))
    decreases TWO64 - i
  {
    if i <= last {
      var next := bitset[(i - start) / 8];
      var i' := NextBlock(next == 0, i);
      SafeNext(bitset, start, i, last);
      ScanStep(bitset, start, i, last);
      ByteHits(bitset, start, i);
      ScanIsHits(bitset, start, i', last);
      if next == 0 {
        PassedOver(bitset, start, i);
        HitsSkip(Unpack(bitset), start, i, i', last);
      }
    }
  }

  // ------------------------------------------------------------- where it is wrong

  /** Inside the section one turn of the loop goes on to the next block. */
  lemma ScanStep(bitset: Bytes, start: nat, i: nat, last: nat)
    requires Fits(bitset, start, i, last) && start <= i <= last && i < start + 8 * |bitset|
    ensures var next := bitset[(i - start) / 8];
            Scan(bitset, start, i, last) == Before(Found(next, i), Scan(bitset, start, NextBlock(next == 0, i), last))
  {
  }

  /** Back at zero the index is out of range. */
  lemma ZeroPanics(bitset: Bytes, start: nat, last: nat)
    requires start + 8 * |bitset| == TWO64 && start > 0 && Fits(bitset, start, 0, last)
    ensures Scan(bitset, start, 0, last) == Panics
  {
    assert Wrap(0 - start) == 8 * |bitset|;
  }

  lemma {:induction false} WrapPanics(bitset: Bytes, start: nat, i: nat, last: nat)
    requires start + 8 * |bitset| == TWO64 && 0 < start <= i <= last < TWO64 && start % 8 == 0
    requires last == TWO64 - 1 || (i <= TWO64 - 8 <= last && bitset[|bitset| - 1] == 0)
    ensures Scan(bitset, start, i, last) == Panics
    decreases TWO64 - i
  {
    var zero := bitset[(i - start) / 8] == 0;
    ScanStep(bitset, start, i, last);
    if (i == TWO64 - 8 && zero) || i == TWO64 - 1 {
      ZeroPanics(bitset, start, last);
    } else {
      StepStays(bitset, start, i, last);
      WrapPanics(bitset, start, NextBlock(zero, i), last);
    }
  }

  lemma StepStays(bitset: Bytes, start: nat, i: nat, last: nat)
    requires start + 8 * |bitset| == TWO64 && 0 < start <= i <= last < TWO64 && start % 8 == 0
    requires last == TWO64 - 1 || (i <= TWO64 - 8 <= last && bitset[|bitset| - 1] == 0)
    requires !(i == TWO64 - 8 && bitset[(i - start) / 8] == 0) && i != TWO64 - 1
    ensures var i' := NextBlock(bitset[(i - start) / 8] == 0, i);
            i < i' <= last && (last == TWO64 - 1 || i' <= TWO64 - 8)
  {
    assert i == TWO64 - 8 ==> (i - start) / 8 == |bitset| - 1;
  }

  /**
   Every vector of a section is read rightly: nothing is asked for, or the section ends
   below 2^64, or it ends there and the loop variable stays clear of the last byte.
   */
  predicate Works(start: nat, size: nat, begin: nat, end: nat) {
    || begin > end
    || begin >= start + size
    || start + size < TWO64
    || (start + size == TWO64 && (end < TWO64 - 8 || (end < TWO64 - 1 && (begin > TWO64 - 8 || size == 8))))
  }

  ghost predicate SomeSet(bitset: Bytes) {
    exists k :: 0 <= k < |bitset| && bitset[k] != 0
  }

  lemma SafeStart(bitset: Bytes, start: nat, begin: nat, end: nat)
    requires 0 < 8 * |bitset| < TWO64 && start <= end < TWO64 && begin < TWO64 && start + 8 * |bitset| <= TWO64
    requires SomeSet(bitset) && Works(start, 8 * |bitset|, begin, end)
    ensures var l := if end < start + 8 * |bitset| - 1 then end else start + 8 * |bitset| - 1;
            Safe(bitset, start, Max(begin, start), l)
  {
  }

  lemma ReadInside(bitset: Bytes, start: nat, begin: nat, end: nat)
    requires 0 < 8 * |bitset| < TWO64 && start % 8 == 0 && start <= end < TWO64 && begin < TWO64
    requires SomeSet(bitset) && Works(start, 8 * |bitset|, begin, end) && start + 8 * |bitset| <= TWO64
    ensures ReadSection(bitset, start, begin, end) == Listed(Wanted(Unpack(bitset), start, begin, end))
  {
    SafeStart(bitset, start, begin, end);
    ScanIsHits(bitset, start, Max(begin, start), if end < start + 8 * |bitset| - 1 then end else start + 8 * |bitset| - 1);
  }

  lemma ReadRight(bitset: Bytes, start: nat, begin: nat, end: nat)
    requires 0 < 8 * |bitset| < TWO64 && start % 8 == 0 && start <= end < TWO64 && begin < TWO64
    requires SomeSet(bitset) && Works(start, 8 * |bitset|, begin, end)
    ensures ReadSection(bitset, start, begin, end) == Listed(Wanted(Unpack(bitset), start, begin, end))
  {
    if start + 8 * |bitset| <= TWO64 {
      ReadInside(bitset, start, begin, end);
    } else {
      MissesAll(start, 8 * |bitset|, begin, end);
    }
  }

  /** What the reader lists for a section extends the list to the end of the section. */
  lemma ReadExtends(bitset: Bytes, start: nat, keep: nat -> bool, begin: nat, end: nat, sofar: seq<nat>)
    requires 0 < 8 * |bitset| < TWO64 && start % 8 == 0 && start <= end < TWO64 && begin < TWO64
    requires SomeSet(bitset) && Works(start, 8 * |bitset|, begin, end)
    requires ListsKept(sofar, keep, begin, end, start)
    requires forall j :: 0 <= j < 8 * |bitset| ==> (Unpack(bitset)[j] <==> keep(start + j))
    ensures var r := ReadSection(bitset, start, begin, end);
            r.Listed? && ListsKept(sofar + r.blocks, keep, begin, end, start + 8 * |bitset|)
  {
    ReadRight(bitset, start, begin, end);
    SectionListed(sofar, Unpack(bitset), keep, begin, end, start);
  }

  /** A vector that is read wrongly: its last byte is zero, or the range ends at the very last block. */
  lemma PanicVector(start: nat, size: nat, begin: nat, end: nat) returns (bitset: Bytes)
    requires 0 < size < TWO64 && size % 8 == 0 && start % 8 == 0 && start <= end < TWO64 && begin < TWO64
    requires !Works(start, size, begin, end) && start + size == TWO64
    ensures 8 * |bitset| == size && SomeSet(bitset)
    ensures ReadSection(bitset, start, begin, end) == Panics
  {
    var n := size / 8;
    bitset := seq(n, k => if k < n - 1 || end == TWO64 - 1 then 0xff else 0);
    assert bitset[0] != 0;
    WrapPanics(bitset, start, Max(begin, start), end);
  }

  /** In a section that crosses 2^64 nothing is found. */
  lemma LostVector(start: nat, size: nat, begin: nat, end: nat) returns (bitset: Bytes)
    requires 0 < size < TWO64 && size % 8 == 0 && start % 8 == 0 && start <= end < TWO64 && begin <= end
    requires begin < start + size && start + size > TWO64
    ensures 8 * |bitset| == size && SomeSet(bitset)
    ensures ReadSection(bitset, start, begin, end) == Listed([]) && Wanted(Unpack(bitset), start, begin, end) != []
  {
    bitset := seq(size / 8, k => 0xff);
    assert bitset[0] != 0;
    var first := Max(begin, start);
    MissesAll(start, size, begin, end);
    AllSet(bitset, start, first);
    HitsExact(Unpack(bitset), start, first, if end < start + size - 1 then end else start + size - 1);
    assert first in Wanted(Unpack(bitset), start, begin, end);
  }

  lemma AllSet(bitset: Bytes, start: nat, n: nat)
    requires start % 8 == 0 && start <= n < start + 8 * |bitset| && forall k :: 0 <= k < |bitset| ==> bitset[k] == 0xff
    ensures Hit(Unpack(bitset), start, n)
  {
    MaskTable();
  }

  /** The last block of a section that crosses 2^64 wraps below its first. */
  lemma MissesAll(start: nat, size: nat, begin: nat, end: nat)
    requires 0 < size < TWO64 && start + size > TWO64 && start <= end < TWO64
    ensures Wrap(start + size - 1) < Max(begin, start)
  {
    assert Wrap(start + size - 1) < start;
  }

  /** The reader lists the wanted blocks of every vector that can reach it exactly when the range `Works`. */
  lemma ReadExact(start: nat, size: nat, begin: nat, end: nat)
    requires 0 < size < TWO64 && size % 8 == 0 && start % 8 == 0 && start <= end < TWO64 && begin < TWO64
    ensures Works(start, size, begin, end) <==>
            forall bitset: Bytes :: 8 * |bitset| == size && SomeSet(bitset) ==>
              ReadSection(bitset, start, begin, end) == Listed(Wanted(Unpack(bitset), start, begin, end))
  {
    if Works(start, size, begin, end) {
      forall bitset: Bytes | 8 * |bitset| == size && SomeSet(bitset)
        ensures ReadSection(bitset, start, begin, end) == Listed(Wanted(Unpack(bitset), start, begin, end))
      {
        ReadRight(bitset, start, begin, end);
      }
    } else {
      var bitset;
      if start + size == TWO64 {
        bitset := PanicVector(start, size, begin, end);
      } else {
        bitset := LostVector(start, size, begin, end);
      }
    }
  }
}
