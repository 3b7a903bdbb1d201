/**
 Big-endian bytes of big integers (common/math/big.go), read from the machine words.
 */
module BigBytes {
  import opened BigMath

  type Byte = n: nat | n < 256

  function Pow256(n: nat): (r: nat)
    ensures r > 0
  {
    if n == 0 then 1 else 256 * Pow256(n - 1)
  }

  /** Byte `k` of a number, from the least significant one. */
  function ByteOf(v: nat, k: nat): Byte
    decreases k
  {
    if k == 0 then v % 256 else ByteOf(v / 256, k - 1)
  }

  /** The number of bytes of a number, without leading zeros. */
  function ByteLen(v: nat): nat {
    if v == 0 then 0 else 1 + ByteLen(v / 256)
  }

  function BitLen(v: nat): nat {
    if v == 0 then 0 else 1 + BitLen(v / 2)
  }

  /** The bytes of a number without leading zeros, most significant first. */
  function MinBytes(v: nat): (b: seq<Byte>)
    ensures |b| == ByteLen(v)
  {
    if v == 0 then [] else MinBytes(v / 256) + [v % 256]
  }

  /** The number that big-endian bytes stand for. */
  function BigEndian(b: seq<Byte>): nat {
    if |b| == 0 then 0 else BigEndian(b[..|b| - 1]) * 256 + b[|b| - 1]
  }

  // ------------------------------------------------------------------ words and bytes

  lemma SplitByte(w: nat, m: nat, rest: nat)
    requires m > 0
    ensures (w + Pow256(m) * rest) % 256 == w % 256
    ensures (w + Pow256(m) * rest) / 256 == w / 256 + Pow256(m - 1) * rest
  {
    Associate(256, Pow256(m - 1), rest);
    var q := Pow256(m - 1) * rest;
    assert w + Pow256(m) * rest == w + 256 * q;
  }

  /** A byte below the word boundary is in the word, one above is in the rest. */
  lemma {:induction false} ByteSplit(w: nat, m: nat, rest: nat, k: nat)
    requires w < Pow256(m)
    ensures ByteOf(w + Pow256(m) * rest, k) == if k < m then ByteOf(w, k) else ByteOf(rest, k - m)
    decreases m
  {
    if m > 0 {
      SplitByte(w, m, rest);
      if k > 0 {
        ByteSplit(w / 256, m - 1, rest, k - 1);
      }
    }
  }

  lemma {:induction false} ByteOfZero(k: nat)
    ensures ByteOf(0, k) == 0
  {
    if k > 0 {
      ByteOfZero(k - 1);
    }
  }

  /** Byte `n` of a number in words of `size` bytes. */
  method ByteAt(words: seq<nat>, size: nat, n: nat) returns (b: Byte)
    requires size > 0 && InWords(words, Pow256(size))
    ensures b == ByteOf(Value(words, Pow256(size)), n)
  {
    var i := n / size;
    WordOfByte(words, size, n);
    if i >= |words| {
      return 0;
    }
    b := ByteOf(words[i], n % size);
  }

  /** Which word a byte is in. */
  lemma {:induction false} WordOfByte(words: seq<nat>, size: nat, n: nat)
    requires size > 0 && InWords(words, Pow256(size))
    ensures n / size >= 0
    ensures ByteOf(Value(words, Pow256(size)), n)
            == if n / size < |words| then ByteOf(words[n / size], n % size) else 0
  {
    QuotientStep(n, size);
    if |words| == 0 {
      ByteOfZero(n);
    } else {
      ByteSplit(words[0], size, Value(words[1..], Pow256(size)), n);
      if n >= size {
        WordOfByte(words[1..], size, n - size);
      }
    }
  }

  lemma QuotientStep(n: nat, size: nat)
    requires size > 0
    ensures n < size ==> n / size == 0 && n % size == n
    ensures n >= size ==> n / size == (n - size) / size + 1 && n % size == (n - size) % size
    ensures n / size >= 0
  {
    if n < size {
      RemainderUnique(size, 0, n);
    } else {
      var q, r := (n - size) / size, (n - size) % size;
      assert n == size * (q + 1) + r by { Distribute(size, q, 1); }
      RemainderUnique(size, q + 1, r);
      assert size * (n / size) == size * (q + 1);
      Cancel(size, n / size, q + 1);
    }
    Quotients(n, size);
  }

  lemma Quotients(n: nat, size: nat)
    requires size > 0
    ensures n / size >= 0
  {
  }

  lemma Cancel(m: nat, a: int, b: int)
    requires m > 0 && m * a == m * b
    ensures a == b
  {
    Distribute(m, a - b, b);
    Between(m, a - b, 0);
  }

  /** `Byte`: byte `n` of a number padded to `padlength` bytes, most significant first. */
  method ByteFromLeft(words: seq<nat>, size: nat, padlength: nat, n: nat) returns (b: Byte)
    requires size > 0 && InWords(words, Pow256(size))
    ensures b == if n >= padlength then 0 else ByteOf(Value(words, Pow256(size)), padlength - 1 - n)
  {
    if n >= padlength {
      return 0;
    }
    b := ByteAt(words, size, padlength - 1 - n);
  }

  // ---------------------------------------------------------------- lengths and values

  lemma BitLenHalf(v: nat)
    requires v > 1
    ensures BitLen(v) == 1 + BitLen(v / 2) && v / 2 > 0
  {
  }

  lemma BitLenByte(v: nat)
    requires v >= 256
    ensures BitLen(v) == 8 + BitLen(v / 256)
  {
    BitLenHalf(v);
    BitLenHalf(v / 2);
    BitLenHalf(v / 4);
    BitLenHalf(v / 8);
    BitLenHalf(v / 16);
    BitLenHalf(v / 32);
    BitLenHalf(v / 64);
    BitLenHalf(v / 128);
    assert v / 2 / 2 == v / 4 && v / 4 / 2 == v / 8 && v / 8 / 2 == v / 16 && v / 16 / 2 == v / 32;
    assert v / 32 / 2 == v / 64 && v / 64 / 2 == v / 128 && v / 128 / 2 == v / 256;
  }

  lemma {:induction false} BitLenBelow(v: nat, k: nat)
    requires v < Pow2(k)
    ensures BitLen(v) <= k
  {
    if v > 0 {
      BitLenBelow(v / 2, k - 1);
    }
  }

  lemma BitLenSmall(v: nat)
    requires 0 < v < 256
    ensures 1 <= BitLen(v) <= 8
  {
    assert Pow2(8) == 256;
    BitLenBelow(v, 8);
  }

  /** The length in bytes is the length in bits, rounded up. */
  lemma {:induction false} ByteLenBits(v: nat)
    ensures ByteLen(v) == (BitLen(v) + 7) / 8
  {
    if v >= 256 {
      BitLenByte(v);
      ByteLenBits(v / 256);
    } else if v > 0 {
      BitLenSmall(v);
      assert ByteLen(v / 256) == 0;
    }
  }

  /** Bytes that are the bytes of a number stand for it, if there are enough of them. */
  lemma {:induction false} BytesDetermine(b: seq<Byte>, v: nat)
    requires ByteLen(v) <= |b| && forall k :: 0 <= k < |b| ==> b[|b| - 1 - k] == ByteOf(v, k)
    ensures BigEndian(b) == v
    decreases |b|
  {
    if |b| > 0 {
      var n := |b| - 1;
      var c := b[..n];
      assert b[n] == ByteOf(v, 0);
      forall k | 0 <= k < n
        ensures c[n - 1 - k] == ByteOf(v / 256, k)
      {
        assert b[|b| - 1 - (k + 1)] == ByteOf(v, k + 1);
      }
      BytesDetermine(c, v / 256);
    }
  }

  lemma {:induction false} MinBytesAt(v: nat, k: nat)
    requires k < ByteLen(v)
    ensures MinBytes(v)[ByteLen(v) - 1 - k] == ByteOf(v, k)
  {
    if k > 0 {
      MinBytesAt(v / 256, k - 1);
    }
  }

  /** A number after dropping its `j` lowest bytes. */
  function Shift(v: nat, j: nat): nat
    decreases j
  {
    if j == 0 then v else Shift(v / 256, j - 1)
  }

  lemma {:induction false} ShiftStep(v: nat, j: nat)
    ensures ByteOf(v, j) == Shift(v, j) % 256 && Shift(v, j + 1) == Shift(v, j) / 256
  {
    if j > 0 {
      ShiftStep(v / 256, j - 1);
    }
  }

  // ------------------------------------------------------------------------- buffers

  /** The last `n` bytes of a buffer are the lowest bytes of a number; the others are as they were. */
  ghost predicate Filled(now: seq<Byte>, was: seq<Byte>, v: nat, n: nat) {
    && |now| == |was| && n <= |now|
    && (forall k :: 0 <= k < n ==> now[|now| - 1 - k] == ByteOf(v, k))
    && (forall i :: 0 <= i < |now| - n ==> now[i] == was[i])
  }

  /** One word's bytes, as far as there is room. */
  method ReadWord(word: nat, size: nat, buf: array<Byte>, start: nat, ghost v: nat, ghost was: seq<Byte>, ghost first: nat)
    returns (i: nat)
    requires start <= buf.Length && Filled(buf[..], was, v, buf.Length - start)
    requires start > 0 ==> buf.Length - start == first
    requires forall j :: 0 <= j < size ==> ByteOf(v, first + j) == ByteOf(word, j)
    modifies buf
    ensures i <= start && Filled(buf[..], was, v, buf.Length - i)
    ensures i > 0 ==> buf.Length - i == first + size
    ensures start > 0 && i == 0 ==> buf.Length <= first + size
  {
    i := start;
    var d := word;
    var j := 0;
    while j < size && i > 0
      invariant 0 <= j <= size && i <= start && Filled(buf[..], was, v, buf.Length - i)
      invariant d == Shift(word, j)
      invariant start > 0 ==> i == start - j
      invariant start == 0 ==> j == 0
    {
      ShiftStep(word, j);
      i := i - 1;
      buf[i] := d % 256;
      d := d / 256;
      j := j + 1;
    }
  }

  /** Where a word's bytes begin. */
  function Offset(size: nat, w: nat): nat {
    size * w
  }

  lemma OffsetStep(size: nat, w: nat)
    ensures Offset(size, w + 1) == Offset(size, w) + size
  {
  }

  lemma WordBytes(words: seq<nat>, size: nat, w: nat, j: nat)
    requires size > 0 && InWords(words, Pow256(size)) && w < |words| && j < size
    ensures ByteOf(Value(words, Pow256(size)), Offset(size, w) + j) == ByteOf(words[w], j)
  {
    var n := size * w + j;
    WordOfByte(words, size, n);
    RemainderUnique(size, w, j);
    assert size * (n / size) + n % size == n;
    Cancel(size, n / size, w);
  }

  /** The absolute value's bytes from the end of a buffer, as far as there is room. */
  method ReadBits(words: seq<nat>, size: nat, buf: array<Byte>)
    requires size > 0 && InWords(words, Pow256(size))
    modifies buf
    ensures exists n :: Filled(buf[..], old(buf[..]), Value(words, Pow256(size)), n)
                        && n == if Offset(size, |words|) < buf.Length then Offset(size, |words|) else buf.Length
  {
    ghost var v, was := Value(words, Pow256(size)), buf[..];
    var i := buf.Length;
    for w := 0 to |words|
      invariant i <= buf.Length && Filled(buf[..], was, v, buf.Length - i)
      invariant i > 0 ==> buf.Length - i == Offset(size, w)
      invariant i == 0 ==> buf.Length <= Offset(size, w)
    {
      forall j | 0 <= j < size
        ensures ByteOf(v, Offset(size, w) + j) == ByteOf(words[w], j)
      {
        WordBytes(words, size, w, j);
      }
      OffsetStep(size, w);
      i := ReadWord(words[w], size, buf, i, v, was, Offset(size, w));
    }
  }

  /** Beyond the words a number has only zero bytes. */
  lemma {:induction false} BeyondWords(words: seq<nat>, size: nat, k: nat)
    requires size > 0 && InWords(words, Pow256(size)) && k >= Offset(size, |words|)
    ensures ByteOf(Value(words, Pow256(size)), k) == 0
    decreases |words|
  {
    if |words| == 0 {
      ByteOfZero(k);
    } else {
      OffsetStep(size, |words| - 1);
      ByteSplit(words[0], size, Value(words[1..], Pow256(size)), k);
      BeyondWords(words[1..], size, k - size);
    }
  }

  /** Reading into a zeroed buffer fills it with the number's bytes. */
  method ReadZeroed(words: seq<nat>, size: nat, n: nat) returns (r: seq<Byte>)
    requires size > 0 && InWords(words, Pow256(size))
    ensures |r| == n && forall k :: 0 <= k < n ==> r[n - 1 - k] == ByteOf(Value(words, Pow256(size)), k)
  {
    var buf := new Byte[n](_ => 0);
    ghost var was := buf[..];
    ReadBits(words, size, buf);
    r := buf[..];
    forall k | 0 <= k < n
      ensures r[n - 1 - k] == ByteOf(Value(words, Pow256(size)), k)
    {
      if k >= Offset(size, |words|) {
        BeyondWords(words, size, k);
        assert r[n - 1 - k] == was[n - 1 - k];
      }
    }
  }

  /** Big-endian bytes, padded with zeros in front to at least `n`. */
  method PaddedBigBytes(words: seq<nat>, size: nat, n: nat) returns (r: seq<Byte>)
    requires size > 0 && InWords(words, Pow256(size))
    ensures var v := Value(words, Pow256(size));
            && |r| == (if n > ByteLen(v) then n else ByteLen(v))
            && BigEndian(r) == v
            && forall k :: 0 <= k < |r| ==> r[|r| - 1 - k] == ByteOf(v, k)
  {
    var v := Value(words, Pow256(size));
    ByteLenBits(v);
    if BitLen(v) / 8 >= n {
      r := MinBytes(v);
      forall k | 0 <= k < |r|
        ensures r[|r| - 1 - k] == ByteOf(v, k)
      {
        MinBytesAt(v, k);
      }
    } else {
      r := ReadZeroed(words, size, n);
    }
    BytesDetermine(r, v);
  }

  /** Single bytes agree with the padded bytes when the number fits. */
  method ByteAgrees(words: seq<nat>, size: nat, n: nat, i: nat) returns (b: Byte, r: seq<Byte>)
    requires size > 0 && InWords(words, Pow256(size)) && ByteLen(Value(words, Pow256(size))) <= n && i < n
    ensures |r| == n && BigEndian(r) == Value(words, Pow256(size)) && b == r[i]
  {
    b := ByteFromLeft(words, size, n, i);
    r := PaddedBigBytes(words, size, n);
    assert r[|r| - 1 - (n - 1 - i)] == ByteOf(Value(words, Pow256(size)), n - 1 - i);
  }
}
