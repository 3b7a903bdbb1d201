/**
 Bulk bitwise operations (common/bitutil/bitutil.go): the word-at-a-time forms against
 the byte-at-a-time forms, with the destination allowed to be one of the operands.
 */
module BitUtil {
  import opened Bits
  import opened Words

  datatype Op = And | Or | Xor

  function ByteFn(op: Op): (bv8, bv8) -> bv8 {
    match op
    case And => And8
    case Or => Or8
    case Xor => Xor8
  }

  function ByteOp(op: Op, x: bv8, y: bv8): bv8 {
    ByteFn(op)(x, y)
  }

  /** The kinds of words on machines that read them unaligned. */
  datatype Arch = Little64 | Big64 | Little32

  /** Where unaligned words can be read the bulk forms work word by word, elsewhere byte by byte. */
  datatype Machine = Unaligned(arch: Arch) | Aligned

  function WordSize(arch: Arch): nat {
    if arch.Little32? then 4 else 8
  }

  /** The bytewise operation on the common prefix of two byte strings. */
  function Zip(op: Op, a: Bytes, b: Bytes): (r: Bytes)
    ensures |r| == if |a| < |b| then |a| else |b|
  {
    seq(if |a| < |b| then |a| else |b|, i requires 0 <= i < |a| && i < |b| => ByteOp(op, a[i], b[i]))
  }

  /** An operation on words that acts on each byte combines the bytes they were loaded from. */
  lemma CombineBytes<W(!new)>(op: Op, low: W -> bv8, down: W -> W, f: (W, W) -> W, x: W, y: W, a: Bytes, b: Bytes)
    requires |a| == |b| && LowLifts(low, f, ByteFn(op)) && DownLifts(down, f)
    requires Digits(low, down, x, |a|) == a && Digits(low, down, y, |a|) == b
    ensures Digits(low, down, f(x, y), |a|) == Zip(op, a, b)
  {
    DigitsLiftAll(low, down, f, ByteFn(op), x, y, |a|);
  }

  function WordFn64(op: Op): (bv64, bv64) -> bv64 {
    match op
    case And => And64
    case Or => Or64
    case Xor => Xor64
  }

  lemma Lifts64(op: Op)
    ensures LowLifts(Low64, WordFn64(op), ByteFn(op)) && DownLifts(Down64, WordFn64(op))
  {
    match op
    case And =>
      And64Low();
      And64Down();
    case Or =>
      Or64Low();
      Or64Down();
    case Xor =>
      Xor64Low();
      Xor64Down();
  }

  function WordFn32(op: Op): (bv32, bv32) -> bv32 {
    match op
    case And => And32
    case Or => Or32
    case Xor => Xor32
  }

  lemma Lifts32(op: Op)
    ensures LowLifts(Low32, WordFn32(op), ByteFn(op)) && DownLifts(Down32, WordFn32(op))
  {
    match op
    case And =>
      And32Low();
      And32Down();
    case Or =>
      Or32Low();
      Or32Down();
    case Xor =>
      Xor32Low();
      Xor32Down();
  }

  method Combine64(op: Op, a: Bytes, b: Bytes) returns (r: Bytes)
    requires |a| == |b| == 8
    ensures r == Zip(op, a, b)
  {
    var f := WordFn64(op);
    Load64Store(a);
    Load64Store(b);
    Lifts64(op);
    CombineBytes(op, Low64, Down64, f, Load64(a), Load64(b), a, b);
    r := Digits(Low64, Down64, f(Load64(a), Load64(b)), 8);
  }

  method Combine32(op: Op, a: Bytes, b: Bytes) returns (r: Bytes)
    requires |a| == |b| == 4
    ensures r == Zip(op, a, b)
  {
    var f := WordFn32(op);
    Load32Store(a);
    Load32Store(b);
    Lifts32(op);
    CombineBytes(op, Low32, Down32, f, Load32(a), Load32(b), a, b);
    r := Digits(Low32, Down32, f(Load32(a), Load32(b)), 4);
  }

  lemma ReverseZip(op: Op, a: Bytes, b: Bytes)
    requires |a| == |b|
    ensures Reversed(Zip(op, Reversed(a), Reversed(b))) == Zip(op, a, b)
  {
  }

  /** Loading two words, combining them and laying out the result, in the byte order of the machine. */
  method CombineWords(arch: Arch, op: Op, a: Bytes, b: Bytes) returns (r: Bytes)
    requires |a| == |b| == WordSize(arch)
    ensures r == Zip(op, a, b)
  {
    match arch {
      case Little64 => r := Combine64(op, a, b);
      case Little32 => r := Combine32(op, a, b);
      case Big64 =>
        r := Combine64(op, Reversed(a), Reversed(b));
        ReverseZip(op, a, b);
        r := Reversed(r);
    }
  }

  /** A word is zero exactly when its bytes are. */
  method WordIsZero(arch: Arch, s: Bytes) returns (r: bool)
    requires |s| == WordSize(arch)
    ensures r <==> forall j :: 0 <= j < |s| ==> s[j] == 0
  {
    match arch {
      case Little64 =>
        Zero64(s);
        r := Load64(s) == 0;
      case Little32 =>
        Zero32(s);
        r := Load32(s) == 0;
      case Big64 =>
        Zero64(Reversed(s));
        r := Load64(Reversed(s)) == 0;
        assert forall j :: 0 <= j < |s| ==> s[j] == Reversed(s)[|s| - 1 - j];
    }
  }

  method WriteWord(dst: array<bv8>, k: nat, s: Bytes)
    requires k + |s| <= dst.Length
    modifies dst
    ensures forall i :: 0 <= i < dst.Length ==>
      dst[i] == if k <= i < k + |s| then s[i - k] else old(dst[i])
  {
    for j := 0 to |s|
      invariant forall i :: 0 <= i < dst.Length ==>
        dst[i] == if k <= i < k + j then s[i - k] else old(dst[i])
    {
      dst[k + j] := s[j];
    }
  }

  function Min(x: nat, y: nat): nat {
    if x < y then x else y
  }

  /** The first `k` bytes are done and the others are as they were. */
  ghost predicate Done(op: Op, now: Bytes, was: Bytes, a: Bytes, b: Bytes, k: nat)
    requires k <= |a| && k <= |b|
  {
    && |now| == |was|
    && (forall i :: 0 <= i < k && i < |now| ==> now[i] == ByteOp(op, a[i], b[i]))
    && (forall i :: k <= i < |now| ==> now[i] == was[i])
  }

  lemma WordDone(op: Op, now: Bytes, next: Bytes, was: Bytes, a: Bytes, b: Bytes, k: nat, z: nat)
    requires k + z <= |a| && k + z <= |b| && k + z <= |now|
    requires Done(op, now, was, a, b, k) && |next| == |now|
    requires forall i :: 0 <= i < |now| ==>
      next[i] == if k <= i < k + z then Zip(op, a[k..k + z], b[k..k + z])[i - k] else now[i]
    ensures Done(op, next, was, a, b, k + z)
  {
    forall i | 0 <= i < k + z
      ensures next[i] == ByteOp(op, a[i], b[i])
    {
      if i >= k {
        assert Zip(op, a[k..k + z], b[k..k + z])[i - k] == ByteOp(op, a[k..k + z][i - k], b[k..k + z][i - k]);
      }
    }
  }

  /** What is not done yet is as it was. */
  lemma NotYet(op: Op, now: Bytes, was: Bytes, a: Bytes, b: Bytes, k: nat, z: nat)
    requires k + z <= |a| && k + z <= |b| && k + z <= |now| && Done(op, now, was, a, b, k)
    ensures now[k..k + z] == was[k..k + z]
  {
  }

  /** The bytes of `w` words of `z` bytes. */
  function Span(z: nat, w: nat): nat {
    z * w
  }

  lemma SpanWhole(arch: Arch, n: nat)
    ensures Span(WordSize(arch), n / WordSize(arch)) == n - n % WordSize(arch)
  {
    if arch.Little32? {
      assert Span(4, n / 4) == n - n % 4;
    } else {
      assert Span(8, n / 8) == n - n % 8;
    }
  }

  lemma NextWord(z: nat, i: nat, w: nat)
    requires i < w
    ensures Span(z, i + 1) == Span(z, i) + z <= Span(z, w)
  {
  }

  /** The word-at-a-time part. The destination may be `a` or `b` itself. */
  method WordLoop(arch: Arch, op: Op, dst: array<bv8>, a: array<bv8>, b: array<bv8>, w: nat)
    requires Span(WordSize(arch), w) <= a.Length && Span(WordSize(arch), w) <= b.Length
    requires Span(WordSize(arch), w) <= dst.Length
    modifies dst
    ensures Done(op, dst[..], old(dst[..]), old(a[..]), old(b[..]), Span(WordSize(arch), w))
  {
    ghost var was, as0, bs0 := dst[..], a[..], b[..];
    var z := WordSize(arch);
    var k := 0;
    for i := 0 to w
      invariant k == Span(z, i) <= Span(z, w)
      invariant Done(op, dst[..], was, as0, bs0, k)
      invariant a != dst ==> a[..] == as0
      invariant b != dst ==> b[..] == bs0
    {
      NextWord(z, i, w);
      ghost var now := dst[..];
      NotYet(op, now, was, as0, bs0, k, z);
      assert a[..] == (if a == dst then now else as0) && b[..] == (if b == dst then now else bs0);
      assert a[k..k + z] == a[..][k..k + z] && b[k..k + z] == b[..][k..k + z];
      var r := CombineWords(arch, op, a[k..k + z], b[k..k + z]);
      WriteWord(dst, k, r);
      WordDone(op, now, dst[..], was, as0, bs0, k, z);
      k := k + z;
    }
  }

  /** The byte-at-a-time part, from `start` to `n`. */
  method ByteLoop(op: Op, dst: array<bv8>, a: array<bv8>, b: array<bv8>, start: nat, n: nat,
                  ghost was: Bytes, ghost as0: Bytes, ghost bs0: Bytes)
    requires start <= n <= dst.Length && n <= a.Length == |as0| && n <= b.Length == |bs0|
    requires Done(op, dst[..], was, as0, bs0, start)
    requires if a == dst then as0 == was else a[..] == as0
    requires if b == dst then bs0 == was else b[..] == bs0
    modifies dst
    ensures Done(op, dst[..], was, as0, bs0, n)
  {
    for i := start to n
      invariant Done(op, dst[..], was, as0, bs0, i)
      invariant a != dst ==> a[..] == as0
      invariant b != dst ==> b[..] == bs0
    {
      dst[i] := ByteOp(op, a[i], b[i]);
    }
  }

  /** What is done up to the common length is the whole operation. */
  lemma DoneAll(op: Op, now: Bytes, was: Bytes, a: Bytes, b: Bytes)
    requires Min(|a|, |b|) <= |now| && Done(op, now, was, a, b, Min(|a|, |b|))
    ensures now[..Min(|a|, |b|)] == Zip(op, a, b)
    ensures now[Min(|a|, |b|)..] == was[Min(|a|, |b|)..]
  {
  }

  /** The operation on the common prefix of `a` and `b`, in words and then in bytes, on every kind of machine. */
  method FastBytes(arch: Arch, op: Op, dst: array<bv8>, a: array<bv8>, b: array<bv8>) returns (n: nat)
    requires Min(a.Length, b.Length) <= dst.Length
    modifies dst
    ensures n == Min(a.Length, b.Length)
    ensures dst[..][..n] == Zip(op, old(a[..]), old(b[..]))
    ensures dst[..][n..] == old(dst[..])[n..]
  {
    n := a.Length;
    if b.Length < n {
      n := b.Length;
    }
    ghost var was, as0, bs0 := dst[..], a[..], b[..];
    var z := WordSize(arch);
    SpanWhole(arch, n);
    WordLoop(arch, op, dst, a, b, n / z);
    ByteLoop(op, dst, a, b, n - n % z, n, was, as0, bs0);
    DoneAll(op, dst[..], was, as0, bs0);
  }

  /** The same, in bytes only. */
  method SafeBytes(op: Op, dst: array<bv8>, a: array<bv8>, b: array<bv8>) returns (n: nat)
    requires Min(a.Length, b.Length) <= dst.Length
    modifies dst
    ensures n == Min(a.Length, b.Length)
    ensures dst[..][..n] == Zip(op, old(a[..]), old(b[..]))
    ensures dst[..][n..] == old(dst[..])[n..]
  {
    n := a.Length;
    if b.Length < n {
      n := b.Length;
    }
    ghost var was, as0, bs0 := dst[..], a[..], b[..];
    ByteLoop(op, dst, a, b, 0, n, was, as0, bs0);
    DoneAll(op, dst[..], was, as0, bs0);
  }

  /** Whether any bit is set, a word at a time and then a byte at a time. */
  method FastTest(arch: Arch, p: array<bv8>) returns (r: bool)
    ensures r <==> exists i :: 0 <= i < p.Length && p[i] != 0
  {
    var n, z := p.Length, WordSize(arch);
    var w := n / z;
    SpanWhole(arch, n);
    var k := 0;
    for i := 0 to w
      invariant k == Span(z, i) <= Span(z, w)
      invariant forall j :: 0 <= j < k ==> p[j] == 0
    {
      NextWord(z, i, w);
      var s := p[k..k + z];
      var zero := WordIsZero(arch, s);
      if !zero {
        ghost var j :| 0 <= j < z && s[j] != 0;
        assert p[k + j] != 0;
        return true;
      }
      assert forall j :: k <= j < k + z ==> p[j] == s[j - k];
      k := k + z;
    }
    for i := n - n % z to n
      invariant forall j :: 0 <= j < i ==> p[j] == 0
    {
      if p[i] != 0 {
        return true;
      }
    }
    return false;
  }

  /** The same, a byte at a time. */
  method SafeTest(p: array<bv8>) returns (r: bool)
    ensures r <==> exists i :: 0 <= i < p.Length && p[i] != 0
  {
    for i := 0 to p.Length
      invariant forall j :: 0 <= j < i ==> p[j] == 0
    {
      if p[i] != 0 {
        return true;
      }
    }
    return false;
  }

  /** `ANDBytes`, `ORBytes` and `XORBytes`: the same result on every machine. */
  method OpBytes(machine: Machine, op: Op, dst: array<bv8>, a: array<bv8>, b: array<bv8>) returns (n: nat)
    requires Min(a.Length, b.Length) <= dst.Length
    modifies dst
    ensures n == Min(a.Length, b.Length)
    ensures dst[..][..n] == Zip(op, old(a[..]), old(b[..]))
    ensures dst[..][n..] == old(dst[..])[n..]
  {
    if machine.Unaligned? {
      n := FastBytes(machine.arch, op, dst, a, b);
    } else {
      n := SafeBytes(op, dst, a, b);
    }
  }

  /** `TestBytes`: the same answer on every machine. */
  method TestBytes(machine: Machine, p: array<bv8>) returns (r: bool)
    ensures r <==> exists i :: 0 <= i < p.Length && p[i] != 0
  {
    if machine.Unaligned? {
      r := FastTest(machine.arch, p);
    } else {
      r := SafeTest(p);
    }
  }
}
