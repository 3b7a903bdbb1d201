/**
 The rotated bloom index (common/bloombits/generator.go): one bit column per bloom bit,
 holding that bit of every bloom of a section.
 */
module BloomGenerator {
  import opened Bits

  const BLOOM_BYTES := 256
  const BLOOM_BITS := 2048

  type Bloom = b: Bytes | |b| == BLOOM_BYTES witness seq(BLOOM_BYTES, _ => 0)

  /** Bit `i` of a bloom: bytes from the last one, bits from the least significant one. */
  predicate BloomBit(bloom: Bloom, i: nat)
    requires i < BLOOM_BITS
  {
    Bit(bloom[BLOOM_BYTES - 1 - i / 8], 7 - i % 8)
  }

  /** A vector is the column of bit `i` over a list of blooms. */
  ghost predicate IsColumn(col: Bytes, blooms: seq<Bloom>, i: nat)
    requires i < BLOOM_BITS
  {
    && 8 * |col| == |blooms|
    && forall j :: 0 <= j < |blooms| ==> BitAt(col, j) == BloomBit(blooms[j], i)
  }

  /** The blooms determine the column. */
  lemma ColumnUnique(a: Bytes, b: Bytes, blooms: seq<Bloom>, i: nat)
    requires i < BLOOM_BITS && IsColumn(a, blooms, i) && IsColumn(b, blooms, i)
    ensures a == b
  {
    forall k | 0 <= k < |a|
      ensures a[k] == b[k]
    {
      forall j | 0 <= j < 8
        ensures Bit(a[k], j) == Bit(b[k], j)
      {
        assert BitAt(a, 8 * k + j) == BitAt(b, 8 * k + j);
      }
      ByteExt(a[k], b[k]);
    }
  }

  datatype AddError = None | OutOfBounds | UnexpectedIndex

  datatype BitsetResult = Column(col: Bytes) | Incomplete | BitOutOfBounds | IndexPanic

  /** Bit `j` of row `i` of the table. */
  ghost predicate TableBit(t: array2<bv8>, i: nat, j: nat)
    requires i < t.Length0 && j < 8 * t.Length1
    reads t
  {
    Bit(t[i, j / 8], j % 8)
  }

  /** Sets bit `j` of row `i` and no other. */
  method SetTableBit(t: array2<bv8>, i: nat, j: nat)
    requires i < t.Length0 && j < 8 * t.Length1
    modifies t
    ensures forall r, k :: 0 <= r < t.Length0 && 0 <= k < 8 * t.Length1 ==>
      (TableBit(t, r, k) <==> (r == i && k == j) || old(TableBit(t, r, k)))
  {
    var byteIndex := j / 8;
    var bitMask := (1 as bv8) << (7 - j % 8);
    t[i, byteIndex] := t[i, byteIndex] | bitMask;
    forall r, k | 0 <= r < t.Length0 && 0 <= k < 8 * t.Length1
      ensures TableBit(t, r, k) <==> (r == i && k == j) || old(TableBit(t, r, k))
    {
      if r == i && k / 8 == byteIndex {
        SetBit(old(t[i, byteIndex]), j % 8, k % 8);
      }
    }
  }

  method NewGenerator(sections: nat) returns (g: Generator?)
    ensures g == null <==> sections % 8 != 0
    ensures g != null ==> fresh(g) && fresh(g.blooms) && g.sections == sections && g.Represents([])
  {
    if sections % 8 != 0 {
      return null;
    }
    g := new Generator(sections);
  }

  class Generator {
    const blooms: array2<bv8>
    const sections: nat
    var nextBit: nat

    /** The blooms added so far, in order, and nothing else, are in the table. */
    ghost predicate Represents(added: seq<Bloom>)
      reads this, blooms
    {
      && sections % 8 == 0
      && blooms.Length0 == BLOOM_BITS
      && blooms.Length1 == sections / 8
      && nextBit == |added| <= sections
      && forall i, j :: 0 <= i < BLOOM_BITS && 0 <= j < sections ==>
           (TableBit(blooms, i, j) <==> j < |added| && BloomBit(added[j], i))
    }

    constructor (n: nat)
      requires n % 8 == 0
      ensures fresh(blooms) && sections == n && Represents([])
    {
      sections := n;
      nextBit := 0;
      blooms := new bv8[BLOOM_BITS, n / 8]((_, _) => 0);
      new;
      forall i, j | 0 <= i < BLOOM_BITS && 0 <= j < sections
        ensures !TableBit(blooms, i, j)
      {
        NoBits(j % 8);
      }
    }

    /** Sets bit `nextBit` in the columns of the bloom's bits. */
    method AddBloom(index: nat, bloom: Bloom, ghost added: seq<Bloom>) returns (err: AddError)
      requires Represents(added)
      modifies this, blooms
      ensures err == if |added| == sections then OutOfBounds
                     else if |added| != index then UnexpectedIndex
                     else None
      ensures Represents(if err == None then added + [bloom] else added)
    {
      if nextBit >= sections {
        return OutOfBounds;
      }
      if nextBit != index {
        return UnexpectedIndex;
      }
      for i := 0 to BLOOM_BITS
        invariant nextBit == old(nextBit)
        invariant forall r, j :: 0 <= r < BLOOM_BITS && 0 <= j < sections ==>
          (TableBit(blooms, r, j) <==>
            if r < i && j == nextBit then BloomBit(bloom, r) else old(TableBit(blooms, r, j)))
      {
        var bloomByteIndex := BLOOM_BYTES - 1 - i / 8;
        var bloomBitMask := (1 as bv8) << (i % 8);
        if bloom[bloomByteIndex] & bloomBitMask != 0 {
          SetTableBit(blooms, i, nextBit);
        }
      }
      nextBit := nextBit + 1;
      return None;
    }

    /** The column of bit `idx`, once every bloom of the section is in. */
    method Bitset(idx: nat, ghost added: seq<Bloom>) returns (r: BitsetResult)
      requires Represents(added)
      ensures |added| != sections ==> r == Incomplete
      ensures |added| == sections && idx >= sections ==> r == BitOutOfBounds
      ensures |added| == sections && BLOOM_BITS <= idx < sections ==> r == IndexPanic
      ensures |added| == sections && idx < sections && idx < BLOOM_BITS ==> r.Column? && IsColumn(r.col, added, idx)
    {
      if nextBit != sections {
        return Incomplete;
      }
      if idx >= sections {
        return BitOutOfBounds;
      }
      if idx >= BLOOM_BITS {
        return IndexPanic;
      }
      r := Column(seq(sections / 8, k requires 0 <= k < sections / 8 reads this, blooms => blooms[idx, k]));
      assert forall j :: 0 <= j < sections ==> BitAt(r.col, j) == TableBit(blooms, idx, j);
    }
  }

  /** Indexing a whole section and reading one bit back gives that bit's column. */
  method IndexSection(blooms: seq<Bloom>, idx: nat) returns (r: BitsetResult)
    requires |blooms| % 8 == 0
    ensures idx < |blooms| && idx < BLOOM_BITS ==> r.Column? && IsColumn(r.col, blooms, idx)
  {
    var g := NewGenerator(|blooms|);
    for j := 0 to |blooms|
      invariant fresh(g) && fresh(g.blooms) && g.sections == |blooms| && g.Represents(blooms[..j])
    {
      var err := g.AddBloom(j, blooms[j], blooms[..j]);
      assert blooms[..j + 1] == blooms[..j] + [blooms[j]];
    }
    assert blooms[..|blooms|] == blooms;
    r := g.Bitset(idx, blooms);
  }
}
