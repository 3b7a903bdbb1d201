/**
 The sparse bitset compressor (common/bitutil/compress.go).

 A byte string with a non-zero byte is encoded as the encoding of its bitset of
 non-zero positions, followed by the non-zero bytes.
 */
module Compress {
  import opened Bits

  datatype Error = MissingData | UnreferencedData | ExceededTarget | ZeroContent

  datatype Result<T> = Ok(value: T) | Err(error: Error)

  // ---------------------------------------------------------------- encoding

  /** The non-zero bytes, in order. */
  function NonZeroBytes(data: Bytes): Bytes {
    if |data| == 0 then []
    else (if data[0] != 0 then [data[0]] else []) + NonZeroBytes(data[1..])
  }

  predicate Marked(data: Bytes, i: nat) {
    i < |data| && data[i] != 0
  }

  /** Bits `j` to 7 of byte `k` of the bitset. */
  function PackByte(data: Bytes, k: nat, j: nat): bv8
    requires j <= 8
    decreases 8 - j
  {
    if j == 8 then 0
    else if Marked(data, 8 * k + j) then PackByte(data, k, j + 1) | Mask(j)
    else PackByte(data, k, j + 1)
  }

  /** The bitset of non-zero positions. */
  function NonZeroBitset(data: Bytes): (bits: Bytes)
    ensures |bits| == (|data| + 7) / 8
  {
    seq((|data| + 7) / 8, k requires 0 <= k => PackByte(data, k, 0))
  }

  lemma {:induction false} PackByteBit(data: Bytes, k: nat, j: nat, i: nat)
    requires j <= 8 && i < 8
    ensures Bit(PackByte(data, k, j), i) <==> j <= i && Marked(data, 8 * k + i)
    decreases 8 - j
  {
    NoBits(i);
    if j < 8 {
      PackByteBit(data, k, j + 1, i);
      SetBit(PackByte(data, k, j + 1), j, i);
    }
  }

  /** A bit of the bitset says whether the byte at its position is non-zero. */
  lemma BitsetBit(data: Bytes, i: nat)
    requires i < 8 * |NonZeroBitset(data)|
    ensures BitAt(NonZeroBitset(data), i) <==> Marked(data, i)
  {
    PackByteBit(data, i / 8, 0, i % 8);
  }

  lemma UnpackBitset(data: Bytes)
    ensures forall j :: 0 <= j < |Unpack(NonZeroBitset(data))| ==> Unpack(NonZeroBitset(data))[j] == Marked(data, j)
  {
    forall j | 0 <= j < |Unpack(NonZeroBitset(data))|
      ensures Unpack(NonZeroBitset(data))[j] == Marked(data, j)
    {
      BitsetBit(data, j);
    }
  }

  /** A byte string of the right length with the right bits is the bitset. */
  lemma BitsetUnique(data: Bytes, bits: Bytes)
    requires |bits| == (|data| + 7) / 8
    requires forall i :: 0 <= i < |Unpack(bits)| ==> Unpack(bits)[i] == Marked(data, i)
    ensures bits == NonZeroBitset(data)
  {
    var spec := NonZeroBitset(data);
    forall k | 0 <= k < |bits|
      ensures bits[k] == spec[k]
    {
      forall j | 0 <= j < 8
        ensures Bit(bits[k], j) == Bit(spec[k], j)
      {
        var i := 8 * k + j;
        assert i / 8 == k && i % 8 == j;
        assert Unpack(bits)[i] == Marked(data, i);
        BitsetBit(data, i);
      }
      ByteExt(bits[k], spec[k]);
    }
  }

  /** `bitsetEncodeBytes`. */
  function Encode(data: Bytes): Bytes
    decreases |data|
  {
    if |data| == 0 then []
    else if |data| == 1 then
      if data[0] == 0 then [] else data
    else if NonZeroBytes(data) == [] then []
    else Encode(NonZeroBitset(data)) + NonZeroBytes(data)
  }

  /** `CompressBytes`: the encoding if it is shorter, otherwise a copy. */
  function CompressBytes(data: Bytes): (out: Bytes)
    ensures |out| <= |data|
  {
    var out := Encode(data);
    if |out| < |data| then out else data
  }

  // ---------------------------------------------------------------- decoding

  /** The bits of a byte string, one by one. */
  function Unpack(bits: Bytes): (marks: seq<bool>)
    ensures |marks| == 8 * |bits|
  {
    seq(8 * |bits|, i requires 0 <= i < 8 * |bits| => BitAt(bits, i))
  }

  /**
   The loop of `bitsetDecodePartialBytes` from bit `i` on: every set bit moves the next
   input byte into its slot.
   */
  function Distribute(bits: seq<bool>, data: Bytes, i: nat, ptr: nat, decomp: Bytes): Result<(Bytes, nat)>
    requires i <= |bits|
    decreases |bits| - i
  {
    if i == |bits| then Ok((decomp, ptr))
    else if !bits[i] then Distribute(bits, data, i + 1, ptr, decomp)
    else if ptr >= |data| then Err(MissingData)
    else if i >= |decomp| then Err(ExceededTarget)
    else if data[ptr] == 0 then Err(ZeroContent)
    else Distribute(bits, data, i + 1, ptr + 1, decomp[i := data[ptr]])
  }

  function Zeros(n: nat): (z: Bytes)
    ensures |z| == n && forall i :: 0 <= i < n ==> z[i] == 0
  {
    seq(n, i => 0)
  }

  /** `bitsetDecodePartialBytes`: the decoded bytes and the number of input bytes used. */
  function DecodePartial(data: Bytes, target: nat): Result<(Bytes, nat)>
    decreases target
  {
    if target == 0 then Ok(([], 0))
    else if |data| == 0 then Ok((Zeros(target), 0))
    else if target == 1 then Ok(([data[0]], if data[0] != 0 then 1 else 0))
    else
      match DecodePartial(data, (target + 7) / 8)
      case Err(e) => Err(e)
      case Ok((bits, ptr)) => Distribute(Unpack(bits), data, 0, ptr, Zeros(target))
  }

  /** `bitsetDecodeBytes`: all of the input must be used. */
  function Decode(data: Bytes, target: nat): Result<Bytes> {
    match DecodePartial(data, target)
    case Err(e) => Err(e)
    case Ok((out, size)) => if size != |data| then Err(UnreferencedData) else Ok(out)
  }

  /** `DecompressBytes`. */
  function DecompressBytes(data: Bytes, target: nat): Result<Bytes> {
    if |data| > target then Err(ExceededTarget)
    else if |data| == target then Ok(data)
    else Decode(data, target)
  }

  // -------------------------------------------------------------- round trip

  predicate AllZero(data: Bytes) {
    forall i :: 0 <= i < |data| ==> data[i] == 0
  }

  lemma {:induction false} NoNonZeroBytes(data: Bytes)
    ensures NonZeroBytes(data) == [] <==> AllZero(data)
  {
    if |data| > 0 {
      NoNonZeroBytes(data[1..]);
      if AllZero(data) {
        assert data[0] == 0;
      } else {
        var i :| 0 <= i < |data| && data[i] != 0;
        assert i > 0 ==> data[1..][i - 1] != 0;
      }
    }
  }

  lemma {:induction false} NonZeroBytesAreNonZero(data: Bytes)
    ensures forall i :: 0 <= i < |NonZeroBytes(data)| ==> NonZeroBytes(data)[i] != 0
  {
    if |data| > 0 {
      NonZeroBytesAreNonZero(data[1..]);
    }
  }

  /** The bitset of data with a non-zero byte has a non-zero byte. */
  lemma BitsetNotZero(data: Bytes)
    requires !AllZero(data)
    ensures !AllZero(NonZeroBitset(data))
  {
    var i :| 0 <= i < |data| && data[i] != 0;
    BitsetBit(data, i);
    NoBits(i % 8);
    assert NonZeroBitset(data)[i / 8] != 0;
  }

  /** How many bytes before position `i` are non-zero. */
  function Rank(data: Bytes, i: nat): nat {
    if i == 0 then 0 else Rank(data, i - 1) + if Marked(data, i - 1) then 1 else 0
  }

  lemma {:induction false} NonZeroAppend(data: Bytes, b: bv8)
    ensures NonZeroBytes(data + [b]) == NonZeroBytes(data) + if b != 0 then [b] else []
  {
    if |data| > 0 {
      NonZeroAppend(data[1..], b);
      assert (data + [b])[1..] == data[1..] + [b];
    }
  }

  lemma {:induction false} RankIsLength(data: Bytes, i: nat)
    requires i <= |data|
    ensures Rank(data, i) == |NonZeroBytes(data[..i])|
  {
    if i > 0 {
      RankIsLength(data, i - 1);
      NonZeroAppend(data[..i - 1], data[i - 1]);
      assert data[..i] == data[..i - 1] + [data[i - 1]];
    }
  }

  /** The non-zero byte at position `j` is the one its rank says. */
  lemma {:induction false} NonZeroAt(data: Bytes, j: nat, n: nat)
    requires j < n <= |data| && data[j] != 0
    ensures Rank(data, j) < |NonZeroBytes(data[..n])| && NonZeroBytes(data[..n])[Rank(data, j)] == data[j]
    decreases n
  {
    NonZeroAppend(data[..n - 1], data[n - 1]);
    assert data[..n] == data[..n - 1] + [data[n - 1]];
    if j == n - 1 {
      RankIsLength(data, j);
    } else {
      NonZeroAt(data, j, n - 1);
    }
  }

  lemma {:induction false} RankEnd(data: Bytes, i: nat)
    requires i >= |data|
    ensures Rank(data, i) == Rank(data, |data|)
  {
    if i > |data| {
      RankEnd(data, i - 1);
    }
  }

  /** From offset `base` on, the input lists the non-zero bytes of `data`. */
  ghost predicate Lists(input: Bytes, base: nat, data: Bytes) {
    forall j :: 0 <= j < |data| && data[j] != 0 ==>
      base + Rank(data, j) < |input| && input[base + Rank(data, j)] == data[j]
  }

  /** `decomp` is `data` up to position `i` and zero from there on. */
  ghost predicate FilledTo(decomp: Bytes, data: Bytes, i: nat) {
    && |decomp| == |data|
    && (forall j :: 0 <= j < i && j < |data| ==> decomp[j] == data[j])
    && (forall j :: i <= j < |data| ==> decomp[j] == 0)
  }

  /** Distributing the non-zero bytes of `data` over the bits of its non-zero positions rebuilds `data`. */
  lemma {:induction false} DistributeRebuilds(data: Bytes, bits: seq<bool>, input: Bytes, base: nat, i: nat, decomp: Bytes)
    requires i <= |bits| && |data| <= |bits|
    requires forall j :: 0 <= j < |bits| ==> bits[j] == Marked(data, j)
    requires Lists(input, base, data) && FilledTo(decomp, data, i)
    ensures Distribute(bits, input, i, base + Rank(data, i), decomp) == Ok((data, base + Rank(data, |data|)))
    decreases |bits| - i
  {
    if i == |bits| {
      assert decomp == data;
      RankEnd(data, i);
    } else if Marked(data, i) {
      DistributeRebuilds(data, bits, input, base, i + 1, decomp[i := data[i]]);
    } else {
      DistributeRebuilds(data, bits, input, base, i + 1, decomp);
    }
  }

  lemma ListsBehind(data: Bytes, head: Bytes, post: Bytes)
    ensures Lists(head + NonZeroBytes(data) + post, |head|, data)
    ensures Rank(data, |data|) == |NonZeroBytes(data)|
  {
    var input := head + NonZeroBytes(data) + post;
    assert data[..|data|] == data;
    RankIsLength(data, |data|);
    forall j | 0 <= j < |data| && data[j] != 0
      ensures |head| + Rank(data, j) < |input| && input[|head| + Rank(data, j)] == data[j]
    {
      NonZeroAt(data, j, |data|);
    }
  }

  /** Distributing the non-zero bytes found behind `head` over the bitset of `data` gives `data`. */
  lemma DistributeBehind(data: Bytes, input: Bytes, head: nat)
    requires Lists(input, head, data)
    ensures Distribute(Unpack(NonZeroBitset(data)), input, 0, head, Zeros(|data|)) == Ok((data, head + Rank(data, |data|)))
  {
    UnpackBitset(data);
    assert head + Rank(data, 0) == head;
    DistributeRebuilds(data, Unpack(NonZeroBitset(data)), input, head, 0, Zeros(|data|));
  }

  /** If the bitset decodes from the input, so does the data behind it. */
  lemma DecodeStep(data: Bytes, input: Bytes, head: nat, size: nat)
    requires |data| > 1 && |input| > 0 && Lists(input, head, data) && size == head + Rank(data, |data|)
    requires DecodePartial(input, (|data| + 7) / 8) == Ok((NonZeroBitset(data), head))
    ensures DecodePartial(input, |data|) == Ok((data, size))
  {
    DistributeBehind(data, input, head);
  }

  lemma EncodeStep(data: Bytes)
    requires |data| > 1 && !AllZero(data)
    ensures Encode(data) == Encode(NonZeroBitset(data)) + NonZeroBytes(data) && NonZeroBytes(data) != []
  {
    NoNonZeroBytes(data);
  }

  /** The inductive core: decoding an encoding followed by anything gives the data and uses exactly the encoding. */
  lemma {:induction false} PartialRoundTrip(data: Bytes, post: Bytes)
    requires !AllZero(data)
    ensures Encode(data) != []
    ensures DecodePartial(Encode(data) + post, |data|) == Ok((data, |Encode(data)|))
    decreases |data|
  {
    if |data| > 1 {
      BitsetNotZero(data);
      EncodeStep(data);
      PartialRoundTrip(NonZeroBitset(data), NonZeroBytes(data) + post);
      ListsBehind(data, Encode(NonZeroBitset(data)), post);
      Associate(Encode(NonZeroBitset(data)), NonZeroBytes(data), post);
      DecodeStep(data, Encode(data) + post, |Encode(NonZeroBitset(data))|, |Encode(data)|);
    } else {
      SingleRoundTrip(data, post);
    }
  }

  lemma SingleRoundTrip(data: Bytes, post: Bytes)
    requires |data| == 1 && data[0] != 0
    ensures Encode(data) == data && DecodePartial(data + post, 1) == Ok((data, 1))
  {
    assert data == [data[0]] && (data + post)[0] == data[0];
  }

  lemma Associate(a: Bytes, b: Bytes, c: Bytes)
    ensures a + (b + c) == a + b + c
  {
  }

  /** `bitsetDecodeBytes` undoes `bitsetEncodeBytes` on every input. */
  lemma RoundTrip(data: Bytes)
    ensures Decode(Encode(data), |data|) == Ok(data)
  {
    if AllZero(data) {
      NoNonZeroBytes(data);
      assert data == Zeros(|data|);
    } else {
      PartialRoundTrip(data, []);
      assert Encode(data) + [] == Encode(data);
    }
  }

  /** `DecompressBytes` undoes `CompressBytes` on every input. */
  lemma CompressRoundTrip(data: Bytes)
    ensures DecompressBytes(CompressBytes(data), |data|) == Ok(data)
  {
    RoundTrip(data);
  }

  // --------------------------------------------------------------- canonical

  /** What a successful distribution did. */
  lemma {:induction false} DistributeSound(bits: seq<bool>, data: Bytes, i: nat, ptr: nat, decomp: Bytes)
    requires i <= |bits| && ptr <= |data|
    requires forall j :: i <= j < |decomp| ==> decomp[j] == 0
    requires Distribute(bits, data, i, ptr, decomp).Ok?
    ensures var (out, n) := Distribute(bits, data, i, ptr, decomp).value;
            && |out| == |decomp|
            && ptr <= n <= |data|
            && (forall j :: 0 <= j < i && j < |decomp| ==> out[j] == decomp[j])
            && (forall j :: i <= j < |bits| ==> bits[j] == Marked(out, j))
            && (forall j :: |bits| <= j < |out| ==> out[j] == decomp[j])
            && (i <= |out| ==> data[ptr..n] == NonZeroBytes(out[i..]))
            && (i > |out| ==> n == ptr)
    decreases |bits| - i
  {
    if i == |bits| {
      if i <= |decomp| {
        NoNonZeroBytes(decomp[i..]);
      }
    } else {
      var hit := bits[i];
      var (ptr', decomp') := if hit then (ptr + 1, decomp[i := data[ptr]]) else (ptr, decomp);
      DistributeSound(bits, data, i + 1, ptr', decomp');
      var (out, n) := Distribute(bits, data, i, ptr, decomp).value;
      if i < |out| {
        assert out[i] == decomp'[i];
        assert out[i..][1..] == out[i + 1..];
        if hit {
          assert data[ptr..n] == [data[ptr]] + data[ptr + 1..n];
        }
      } else if i == |out| {
        assert out[i..] == [];
      }
    }
  }

  /** Accepted input is the encoding of the output: whatever decodes is canonical. */
  lemma {:induction false} PartialCanonical(data: Bytes, target: nat)
    requires DecodePartial(data, target).Ok?
    ensures var (out, n) := DecodePartial(data, target).value;
            |out| == target && n <= |data| && Encode(out) == data[..n]
    decreases target
  {
    if target == 0 {
    } else if |data| == 0 {
      NoNonZeroBytes(Zeros(target));
    } else if target > 1 {
      PartialCanonical(data, (target + 7) / 8);
      var (bits, ptr) := DecodePartial(data, (target + 7) / 8).value;
      DistributeSound(Unpack(bits), data, 0, ptr, Zeros(target));
      var (out, n) := DecodePartial(data, target).value;
      assert out[0..] == out;
      BitsetUnique(out, bits);
      assert data[..n] == data[..ptr] + data[ptr..n];
      if NonZeroBytes(out) == [] {
        NoNonZeroBytes(out);
        ZeroBitset(out);
      }
    }
  }

  /** The bitset of zeros encodes to nothing. */
  lemma ZeroBitset(data: Bytes)
    requires AllZero(data)
    ensures Encode(NonZeroBitset(data)) == []
  {
    var bits := Zeros((|data| + 7) / 8);
    forall i | 0 <= i < |Unpack(bits)| ensures Unpack(bits)[i] == Marked(data, i) {
      NoBits(i % 8);
    }
    BitsetUnique(data, bits);
    NoNonZeroBytes(bits);
  }

  /** Decoding accepts exactly one encoding per output. */
  lemma DecodeCanonical(data: Bytes, target: nat)
    ensures Decode(data, target).Ok? <==> exists out :: |out| == target && Encode(out) == data
    ensures Decode(data, target).Ok? ==> Encode(Decode(data, target).value) == data
  {
    if Decode(data, target).Ok? {
      PartialCanonical(data, target);
      var out := Decode(data, target).value;
      assert data[..|data|] == data;
      assert |out| == target && Encode(out) == data;
    }
    forall out | |out| == target && Encode(out) == data
      ensures Decode(data, target).Ok?
    {
      RoundTrip(out);
    }
  }

  /**
   Recompressing decompressed data gives the input back exactly when the input was
   compressed, or is as long as the output and cannot be compressed.
   */
  lemma RecompressExact(data: Bytes, target: nat)
    requires DecompressBytes(data, target).Ok?
    ensures CompressBytes(DecompressBytes(data, target).value) == data
            <==> |data| < target || |Encode(data)| >= |data|
  {
    if |data| < target {
      DecodeCanonical(data, target);
      PartialCanonical(data, target);
    }
  }

  // ------------------------------------------------------- the loops themselves

  /** `bitsetEncodeBytes` with the loop that fills the bitset and gathers the non-zero bytes. */
  method EncodeBytes(data: Bytes) returns (out: Bytes)
    ensures out == Encode(data)
    decreases |data|
  {
    if |data| == 0 {
      return [];
    }
    if |data| == 1 {
      return if data[0] == 0 then [] else data;
    }
    var bits, bytes := GatherBytes(data);
    if |bytes| == 0 {
      return [];
    }
    out := EncodeBytes(bits);
    out := out + bytes;
  }

  /** The bits of `bits` mark the non-zero bytes among the first `n`. */
  ghost predicate Packed(bits: Bytes, data: Bytes, n: nat) {
    && |bits| == (|data| + 7) / 8
    && forall m :: 0 <= m < |Unpack(bits)| ==> Unpack(bits)[m] == (m < n && Marked(data, m))
  }

  /** Setting one bit changes the bits at its own position only. */
  lemma SetPackedBit(bits: Bytes, i: nat, m: nat)
    requires i < 8 * |bits| && m < 8 * |bits|
    ensures BitAt(bits[i / 8 := bits[i / 8] | Mask(i % 8)], m) <==> BitAt(bits, m) || m == i
  {
    if m / 8 == i / 8 {
      SetBit(bits[i / 8], i % 8, m % 8);
    }
  }

  /** Setting one bit marks position `i` and no other. */
  lemma PackStep(bits: Bytes, data: Bytes, i: nat)
    requires Packed(bits, data, i) && i < |data|
    ensures Packed(if data[i] != 0 then bits[i / 8 := bits[i / 8] | Mask(i % 8)] else bits, data, i + 1)
  {
    if data[i] != 0 {
      var bits' := bits[i / 8 := bits[i / 8] | Mask(i % 8)];
      forall m | 0 <= m < |Unpack(bits')|
        ensures Unpack(bits')[m] == (m < i + 1 && Marked(data, m))
      {
        assert Unpack(bits)[m] == (m < i && Marked(data, m));
        SetPackedBit(bits, i, m);
      }
    }
  }

  lemma PackStart(data: Bytes)
    ensures Packed(Zeros((|data| + 7) / 8), data, 0)
  {
    var bits := Zeros((|data| + 7) / 8);
    forall m | 0 <= m < |Unpack(bits)| ensures !Unpack(bits)[m] {
      NoBits(m % 8);
    }
  }

  method GatherBytes(data: Bytes) returns (bits: Bytes, bytes: Bytes)
    ensures bits == NonZeroBitset(data) && bytes == NonZeroBytes(data)
  {
    var bitset := new bv8[(|data| + 7) / 8](_ => 0);
    bytes := [];
    assert bitset[..] == Zeros((|data| + 7) / 8);
    PackStart(data);
    for i := 0 to |data|
      invariant bytes == NonZeroBytes(data[..i])
      invariant Packed(bitset[..], data, i)
    {
      NonZeroAppend(data[..i], data[i]);
      assert data[..i + 1] == data[..i] + [data[i]];
      PackStep(bitset[..], data, i);
      if data[i] != 0 {
        bytes := bytes + [data[i]];
        ghost var before := bitset[..];
        bitset[i / 8] := bitset[i / 8] | Mask(i % 8);
        assert bitset[..] == before[i / 8 := before[i / 8] | Mask(i % 8)];
      }
    }
    bits := bitset[..];
    assert data[..|data|] == data;
    BitsetUnique(data, bits);
  }

  /** `bitsetDecodePartialBytes` with the loop that distributes the non-zero bytes. */
  method DecodePartialBytes(data: Bytes, target: nat) returns (r: Result<(Bytes, nat)>)
    ensures r == DecodePartial(data, target)
    decreases target
  {
    if target == 0 {
      return Ok(([], 0));
    }
    if |data| == 0 {
      return Ok((Zeros(target), 0));
    }
    if target == 1 {
      return Ok(([data[0]], if data[0] != 0 then 1 else 0));
    }
    r := DecodePartialBytes(data, (target + 7) / 8);
    if r.Ok? {
      r := DistributeBytes(r.value.0, data, r.value.1, target);
    }
  }

  method DistributeBytes(bits: Bytes, data: Bytes, start: nat, target: nat) returns (r: Result<(Bytes, nat)>)
    ensures r == Distribute(Unpack(bits), data, 0, start, Zeros(target))
  {
    var decomp := new bv8[target](_ => 0);
    assert decomp[..] == Zeros(target);
    var ptr: nat := start;
    for i := 0 to 8 * |bits|
      invariant Distribute(Unpack(bits), data, i, ptr, decomp[..]) == Distribute(Unpack(bits), data, 0, start, Zeros(target))
    {
      if BitAt(bits, i) {
        if ptr >= |data| {
          return Err(MissingData);
        }
        if i >= decomp.Length {
          return Err(ExceededTarget);
        }
        if data[ptr] == 0 {
          return Err(ZeroContent);
        }
        ghost var before := decomp[..];
        decomp[i] := data[ptr];
        assert decomp[..] == before[i := data[ptr]];
        ptr := ptr + 1;
      }
    }
    r := Ok((decomp[..], ptr));
  }
}
