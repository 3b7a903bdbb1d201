/**
 256-bit helpers on big integers (common/math/big.go): exponentiation by squaring over the
 machine words of the exponent, and big-endian bytes.

 A magnitude is its words, least significant first; a word has `size` bytes, for any size.
 */
module BigMath {

  function Pow(b: int, n: nat): int {
    if n == 0 then 1 else b * Pow(b, n - 1)
  }

  function Pow2(n: nat): (r: nat)
    ensures r > 0
  {
    if n == 0 then 1 else 2 * Pow2(n - 1)
  }

  /** The number that words stand for, with `base` values per word. */
  function Value(words: seq<nat>, base: nat): nat {
    if |words| == 0 then 0 else words[0] + base * Value(words[1..], base)
  }

  ghost predicate InWords(words: seq<nat>, base: nat) {
    forall i :: 0 <= i < |words| ==> words[i] < base
  }

  // ------------------------------------------------------------------ congruences

  lemma ModShift(x: int, k: int, m: nat)
    requires m > 0
    ensures (x + m * k) % m == x % m
  {
    var q, r := x / m, x % m;
    assert x + m * k == m * (q + k) + r by { Distribute(m, q, k); }
    RemainderUnique(m, q + k, r);
  }

  lemma Distribute(m: int, q: int, k: int)
    ensures m * (q + k) == m * q + m * k
  {
  }

  lemma RemainderUnique(m: nat, q: int, r: nat)
    requires r < m
    ensures (m * q + r) % m == r
  {
    var x := m * q + r;
    var p, t := x / m, x % m;
    assert m * p + t == m * q + r;
    Between(m, p - q, r - t);
  }

  /** A multiple of `m` smaller than `m` in size is zero. */
  lemma Between(m: nat, k: int, d: int)
    requires m > 0 && -(m as int) < d < m
    ensures m * k == d ==> k == 0
  {
    if k > 0 {
      assert m * k >= m;
    } else if k < 0 {
      assert m * k <= -(m as int);
    }
  }

  lemma CongruentMul(a: int, b: int, c: int, m: nat)
    requires m > 0 && a % m == b % m
    ensures (a * c) % m == (b * c) % m
  {
    var k := a / m - b / m;
    assert a == b + m * k;
    assert a * c == b * c + m * (k * c);
    ModShift(b * c, k * c, m);
  }

  lemma Associate(a: int, b: int, c: int)
    ensures a * (b * c) == (a * b) * c
  {
  }

  lemma Commute(a: int, b: int)
    ensures a * b == b * a
  {
  }

  lemma ModMod(a: int, m: nat)
    requires m > 0
    ensures (a % m) % m == a % m
  {
    RemainderUnique(m, 0, a % m);
  }

  // ---------------------------------------------------- powers in any semigroup

  type Op = (int, int) -> int

  ghost predicate Associative(f: Op) {
    forall a, b, c :: f(f(a, b), c) == f(a, f(b, c))
  }

  function Power(f: Op, b: int, n: nat): int
    requires n > 0
  {
    if n == 1 then b else f(b, Power(f, b, n - 1))
  }

  lemma {:induction false} PowerAdd(f: Op, b: int, i: nat, j: nat)
    requires Associative(f) && i > 0 && j > 0
    ensures Power(f, b, i + j) == f(Power(f, b, i), Power(f, b, j))
  {
    if i > 1 {
      PowerAdd(f, b, i - 1, j);
    }
  }

  /** Half the exponent on the square. */
  lemma {:induction false} PowerSquare(f: Op, b: int, n: nat)
    requires Associative(f) && n > 0
    ensures Power(f, f(b, b), n) == Power(f, b, 2 * n)
  {
    if n == 1 {
      assert Power(f, b, 2) == f(b, Power(f, b, 1));
    } else {
      PowerSquare(f, b, n - 1);
      assert Power(f, b, 2 * n) == f(b, Power(f, b, 2 * n - 1)) == f(b, f(b, Power(f, b, 2 * n - 2)));
    }
  }

  /** What the result becomes when the base still has to be raised to `left` and multiplied in. */
  function Pending(f: Op, result: int, base: int, left: nat): int {
    if left == 0 then result else f(result, Power(f, base, left))
  }

  /** One bit of the exponent: multiplying if it is set, and squaring, changes nothing about the outcome. */
  lemma SquareAndMultiply(f: Op, result: int, base: int, left: nat)
    requires Associative(f)
    ensures Pending(f, if left % 2 == 1 then f(result, base) else result, f(base, base), Half(left))
            == Pending(f, result, base, left)
  {
    var n := Half(left);
    if n > 0 {
      PowerSquare(f, base, n);
      if left % 2 == 1 {
        assert Power(f, base, left) == f(base, Power(f, base, 2 * n));
      }
    }
  }

  /** `base` after `t` squarings. */
  function Squared(f: Op, base: int, t: nat): int {
    if t == 0 then base else var b := Squared(f, base, t - 1); f(b, b)
  }

  lemma {:induction false} SquaredIsPower(f: Op, base: int, t: nat)
    requires Associative(f)
    ensures Squared(f, base, t) == Power(f, base, Pow2(t))
  {
    if t > 0 {
      SquaredIsPower(f, base, t - 1);
      PowerAdd(f, base, Pow2(t - 1), Pow2(t - 1));
    }
  }

  // ------------------------------------------------------- multiplication modulo m

  /** Multiplication truncated to the numbers below `m`. */
  function MulMod(m: nat): Op
    requires m > 0
  {
    (a, b) => (a * b) % m
  }

  lemma MulModAssociates(m: nat, a: int, b: int, c: int)
    requires m > 0
    ensures (((a * b) % m) * c) % m == (a * ((b * c) % m)) % m
  {
    ModMod(a * b, m);
    ModMod(b * c, m);
    CongruentMul((a * b) % m, a * b, c, m);
    CongruentMul((b * c) % m, b * c, a, m);
    Commute(a, (b * c) % m);
    Commute(a, b * c);
    Associate(a, b, c);
  }

  lemma MulModAssociative(m: nat)
    requires m > 0
    ensures Associative(MulMod(m))
  {
    var f := MulMod(m);
    forall a, b, c
      ensures f(f(a, b), c) == f(a, f(b, c))
    {
      MulModAssociates(m, a, b, c);
    }
  }

  /** Powers under truncated multiplication are truncated powers. */
  lemma {:induction false} PowerIsPow(b: int, n: nat, m: nat)
    requires m > 0 && n > 0
    ensures Power(MulMod(m), b, n) % m == Pow(b, n) % m
    ensures n > 1 ==> Power(MulMod(m), b, n) == Pow(b, n) % m
  {
    if n == 1 {
      assert Pow(b, 1) == b * Pow(b, 0);
    } else {
      PowerIsPow(b, n - 1, m);
      var x, y := Power(MulMod(m), b, n - 1), Pow(b, n - 1);
      CongruentMul(x, y, b, m);
      Commute(x, b);
      Commute(y, b);
      ModMod(b * x, m);
    }
  }

  // ------------------------------------------------------------------ truncation

  /** The AND of two numbers in two's complement, as far as their low `k` bits. */
  function AndBits(x: int, y: int, k: nat): nat
    decreases k
  {
    if k == 0 then 0 else (if x % 2 == 1 && y % 2 == 1 then 1 else 0) + 2 * AndBits(x / 2, y / 2, k - 1)
  }

  lemma SplitBit(x: int, m: nat)
    requires m > 0
    ensures x % (2 * m) == x % 2 + 2 * ((x / 2) % m)
  {
    var h := x / 2;
    var q, r := h / m, h % m;
    assert h == m * q + r;
    Associate(2, m, q);
    assert x == (2 * m) * q + (x % 2 + 2 * r);
    RemainderUnique(2 * m, q, x % 2 + 2 * r);
  }

  /** However many bits are looked at, AND with `k` ones is the remainder modulo `2^k`, for negative numbers too. */
  lemma {:induction false} AndOnes(x: int, k: nat, n: nat)
    requires k <= n
    ensures AndBits(x, Pow2(k) - 1, n) == x % Pow2(k)
    decreases n
  {
    if k == 0 {
      AndZero(x, n);
      RemainderUnique(1, x, 0);
    } else {
      assert (Pow2(k) - 1) % 2 == 1 && (Pow2(k) - 1) / 2 == Pow2(k - 1) - 1;
      AndOnes(x / 2, k - 1, n - 1);
      SplitBit(x, Pow2(k - 1));
    }
  }

  lemma {:induction false} AndZero(x: int, n: nat)
    ensures AndBits(x, 0, n) == 0
    decreases n
  {
    if n > 0 {
      AndZero(x / 2, n - 1);
    }
  }

  /** A big integer object. */
  class Big {
    var v: int

    constructor (v: int)
      ensures this.v == v
    {
      this.v := v;
    }
  }

  /** The modulus, `2^256`. */
  const TT256: nat := Pow2(256)

  lemma ModulusAboveOne()
    ensures TT256 > 1
  {
    assert Pow2(256) == 2 * Pow2(255);
  }

  /** AND with 256 ones, in place, is truncation modulo `2^256`. */
  method U256(x: Big)
    modifies x
    ensures x.v == old(x.v) % TT256
  {
    AndOnes(x.v, 256, 256);
    x.v := AndBits(x.v, TT256 - 1, 256);
  }

  // -------------------------------------------------------------- exponentiation

  function Half(n: nat): nat {
    n / 2
  }

  /** What is left of the exponent: the rest of a word of which `k` bits are left, and the later words. */
  function Left(word: nat, k: nat, rest: nat): nat {
    word + Pow2(k) * rest
  }

  lemma LeftHalves(word: nat, k: nat, rest: nat)
    requires k > 0
    ensures Left(word, k, rest) % 2 == word % 2 && Half(Left(word, k, rest)) == Left(Half(word), k - 1, rest)
  {
    Associate(2, Pow2(k - 1), rest);
    var q := Pow2(k - 1) * rest;
    assert Left(word, k, rest) == word + 2 * q;
  }

  lemma HalfBelow(word: nat, k: nat)
    requires k > 0 && word < Pow2(k)
    ensures Half(word) < Pow2(k - 1)
  {
  }

  lemma NoneLeft(word: nat, rest: nat)
    requires word < Pow2(0)
    ensures Left(word, 0, rest) == rest
  {
  }

  /** With `left` still to raise the base to, the result will be `goal`. */
  ghost predicate Heading(result: int, base: int, left: nat, goal: int) {
    Pending(MulMod(TT256), result, base, left) == goal
  }

  lemma HeadingOn(result: int, base: int, left: nat, goal: int)
    requires Heading(result, base, left, goal)
    ensures Heading(if left % 2 == 1 then (result * base) % TT256 else result, (base * base) % TT256, Half(left), goal)
  {
    MulModAssociative(TT256);
    SquareAndMultiply(MulMod(TT256), result, base, left);
  }

  /** One bit of a word: multiply if it is set, and square. */
  method ExpBit(result: Big, base: Big, odd: bool, ghost left: nat, ghost goal: int)
    requires result != base && odd == (left % 2 == 1) && Heading(result.v, base.v, left, goal)
    modifies result, base
    ensures Heading(result.v, base.v, Half(left), goal)
    ensures base.v == (old(base.v) * old(base.v)) % TT256
  {
    HeadingOn(result.v, base.v, left, goal);
    if odd {
      result.v := result.v * base.v;
      U256(result);
    }
    base.v := base.v * base.v;
    U256(base);
  }

  /** The bits of one word of the exponent, leading zeros included. */
  method ExpWord(result: Big, base: Big, word: nat, bits: nat, ghost rest: nat, ghost base0: int, ghost t: nat, ghost goal: int)
    requires result != base && word < Pow2(bits) && base.v == Squared(MulMod(TT256), base0, t)
    requires Heading(result.v, base.v, Left(word, bits, rest), goal)
    modifies result, base
    ensures base.v == Squared(MulMod(TT256), base0, t + bits)
    ensures Heading(result.v, base.v, rest, goal)
  {
    var w: nat := word;
    for i := 0 to bits
      invariant w < Pow2(bits - i) && base.v == Squared(MulMod(TT256), base0, t + i)
      invariant Heading(result.v, base.v, Left(w, bits - i, rest), goal)
    {
      LeftHalves(w, bits - i, rest);
      HalfBelow(w, bits - i);
      ExpBit(result, base, w % 2 == 1, Left(w, bits - i, rest), goal);
      w := Half(w);
    }
    NoneLeft(w, rest);
  }

  /** How often the base is squared: once for every bit of every word. */
  function Squarings(words: nat, bits: nat): nat {
    words * bits
  }

  /** The words of a magnitude have no leading zero. */
  predicate Normalised(words: seq<nat>) {
    |words| > 0 ==> words[|words| - 1] != 0
  }

  lemma {:induction false} ZeroHasNoWords(words: seq<nat>, base: nat)
    requires Normalised(words) && base > 0
    ensures Value(words, base) == 0 <==> |words| == 0
  {
    if |words| > 1 {
      ZeroHasNoWords(words[1..], base);
      var v := Value(words[1..], base);
      assert base * v >= v by { Product(base, v); }
    }
  }

  lemma Product(a: nat, b: nat)
    requires a > 0
    ensures a * b >= b
  {
  }

  lemma PendingStart(base: int, e: nat)
    ensures Heading(1, base, e, Pow(base, e) % TT256)
  {
    ModulusAboveOne();
    if e == 0 {
      RemainderUnique(TT256, 0, 1);
    } else {
      PowerIsPow(base, e, TT256);
    }
  }

  /**
   Exponentiation by squaring. The result is the power modulo `2^256`; the base object
   is squared in place along the way, so that it keeps its value only if the exponent is
   zero or the base is 0 or 1.
   */
  method Exp(base: Big, words: seq<nat>, bits: nat) returns (result: Big)
    requires bits > 0 && InWords(words, Pow2(bits)) && Normalised(words)
    modifies base
    ensures fresh(result)
    ensures result.v == Pow(old(base.v), Value(words, Pow2(bits))) % TT256
    ensures base.v == old(base.v) <==> Value(words, Pow2(bits)) == 0 || old(base.v) == 0 || old(base.v) == 1
  {
    ghost var base0 := base.v;
    ghost var goal := Pow(base0, Value(words, Pow2(bits))) % TT256;
    result := new Big(1);
    PendingStart(base0, Value(words, Pow2(bits)));
    assert words[0..] == words;
    for i := 0 to |words|
      invariant fresh(result) && base.v == Squared(MulMod(TT256), base0, Squarings(i, bits))
      invariant Heading(result.v, base.v, Value(words[i..], Pow2(bits)), goal)
    {
      assert words[i..][1..] == words[i + 1..];
      ghost var rest := Value(words[i + 1..], Pow2(bits));
      assert Squarings(i, bits) + bits == Squarings(i + 1, bits);
      ExpWord(result, base, words[i], bits, rest, base0, Squarings(i, bits), goal);
    }
    ZeroHasNoWords(words, Pow2(bits));
    NoSquarings(|words|, bits);
    BaseSurvives(base0, Squarings(|words|, bits));
  }

  lemma NoSquarings(words: nat, bits: nat)
    requires bits > 0
    ensures Squarings(words, bits) == 0 <==> words == 0
  {
    Product(bits, words);
  }

  // ----------------------------------------------------- when the base survives

  ghost predicate Divides(d: int, a: int) {
    exists k: int :: a == d * k
  }

  lemma ParityMul(a: int, b: int)
    ensures (a * b) % 2 == 1 <==> a % 2 == 1 && b % 2 == 1
  {
    var i, j := a / 2, b / 2;
    if a % 2 == 0 {
      assert a * b == 2 * (i * b) by { assert a == 2 * i; Associate(2, i, b); }
    } else if b % 2 == 0 {
      assert a * b == 2 * (a * j) by { assert b == 2 * j; Commute(a, b); Associate(2, j, a); Commute(a, j); }
    } else {
      OddProduct(a, b, i, j);
    }
  }

  lemma OddProduct(a: int, b: int, i: int, j: int)
    requires a == 2 * i + 1 && b == 2 * j + 1
    ensures a * b == 2 * (2 * (i * j) + i + j) + 1
  {
  }

  /** An odd factor contributes nothing to the powers of two that divide a product. */
  lemma {:induction false} OddFactor(k: nat, a: int, s: int)
    requires s % 2 == 1 && Divides(Pow2(k), a * s)
    ensures Divides(Pow2(k), a)
  {
    if k == 0 {
      assert a == Pow2(0) * a;
    } else {
      var q: int :| a * s == Pow2(k) * q;
      var p := Pow2(k - 1);
      Associate(2, p, q);
      ParityMul(a, s);
      var a' := a / 2;
      assert a == 2 * a';
      Associate(2, a', s);
      assert a' * s == p * q;
      OddFactor(k - 1, a', s);
      var j: int :| a' == p * j;
      Associate(2, p, j);
      assert a == Pow2(k) * j;
    }
  }

  /** `1 + x + ... + x^(m-1)`. */
  function Geometric(x: int, m: nat): int {
    if m == 0 then 0 else 1 + x * Geometric(x, m - 1)
  }

  lemma {:induction false} GeometricSum(x: int, m: nat)
    ensures Pow(x, m) - 1 == (x - 1) * Geometric(x, m)
  {
    if m > 0 {
      GeometricSum(x, m - 1);
      GeometricStep(x, Pow(x, m - 1), Geometric(x, m - 1));
    }
  }

  lemma GeometricStep(x: int, p: int, g: int)
    requires p - 1 == (x - 1) * g
    ensures x * p - 1 == (x - 1) * (1 + x * g)
  {
    assert p == 1 + (x - 1) * g;
    assert x * p == x + x * ((x - 1) * g);
    Associate(x, x - 1, g);
    Commute(x, x - 1);
    Associate(x - 1, x, g);
  }

  /** An odd number of terms: one of them is 1, and the rest cancel in parity. */
  lemma {:induction false} GeometricOdd(x: int, m: nat)
    ensures m > 0 && x % 2 == 0 ==> Geometric(x, m) % 2 == 1
    ensures x % 2 == 1 ==> Geometric(x, m) % 2 == m % 2
  {
    if m > 0 {
      GeometricOdd(x, m - 1);
      ParityStep(x, Geometric(x, m - 1));
    }
  }

  lemma ParityStep(x: int, g: int)
    ensures (1 + x * g) % 2 == if x % 2 == 1 && g % 2 == 1 then 0 else 1
  {
    ParityMul(x, g);
    NextParity(x * g);
  }

  lemma NextParity(y: int)
    ensures (1 + y) % 2 == if y % 2 == 1 then 0 else 1
  {
  }

  /** `x^n - x` is `x (x - 1)` times an odd number, for even `n`. */
  lemma PowerMinusSelf(x: int, n: nat)
    requires n > 0 && n % 2 == 0
    ensures Pow(x, n) - x == (x * (x - 1)) * Geometric(x, n - 1)
    ensures Geometric(x, n - 1) % 2 == 1
  {
    GeometricSum(x, n - 1);
    GeometricOdd(x, n - 1);
    var p, g := Pow(x, n - 1), Geometric(x, n - 1);
    assert Pow(x, n) == x * p;
    assert x * p - x == x * (p - 1);
    Associate(x, x - 1, g);
  }

  /** Of two neighbours one is odd, so a power of two that divides their product divides the other. */
  lemma Neighbours(k: nat, x: int)
    requires Divides(Pow2(k), x * (x - 1))
    ensures Divides(Pow2(k), x) || Divides(Pow2(k), x - 1)
  {
    if x % 2 == 0 {
      OddFactor(k, x, x - 1);
    } else {
      Commute(x, x - 1);
      OddFactor(k, x - 1, x);
    }
  }

  lemma SmallMultiple(d: nat, a: int)
    requires 0 <= a < d && Divides(d, a)
    ensures a == 0
  {
    var k: int :| a == d * k;
    Between(d, k, a);
    assert k == 0;
  }

  /** A number that is its own even power modulo `2^k` is 0 or 1. */
  lemma FixedPoints(k: nat, x: int, n: nat)
    requires n > 0 && n % 2 == 0 && Pow(x, n) % Pow2(k) == x
    ensures x == 0 || x == 1
  {
    var m := Pow2(k);
    var q := Pow(x, n) / m;
    assert Pow(x, n) == m * q + x;
    PowerMinusSelf(x, n);
    assert (x * (x - 1)) * Geometric(x, n - 1) == m * q;
    OddFactor(k, x * (x - 1), Geometric(x, n - 1));
    Neighbours(k, x);
    if Divides(m, x) {
      SmallMultiple(m, x);
    } else if x > 0 {
      SmallMultiple(m, x - 1);
    }
  }

  lemma {:induction false} ZeroOneFixed(x: int, t: nat)
    requires x == 0 || x == 1
    ensures Squared(MulMod(TT256), x, t) == x
  {
    ModulusAboveOne();
    if t > 0 {
      ZeroOneFixed(x, t - 1);
      RemainderUnique(TT256, 0, x);
    }
  }

  lemma SquaredModulo(base: int, t: nat)
    requires t > 0
    ensures Squared(MulMod(TT256), base, t) == Pow(base, Pow2(t)) % TT256
    ensures Pow2(t) % 2 == 0
  {
    MulModAssociative(TT256);
    SquaredIsPower(MulMod(TT256), base, t);
    PowerIsPow(base, Pow2(t), TT256);
  }

  /** Squaring modulo `2^256` leaves exactly 0 and 1 as they are. */
  lemma BaseSurvives(base: int, t: nat)
    ensures Squared(MulMod(TT256), base, t) == base <==> t == 0 || base == 0 || base == 1
  {
    if base == 0 || base == 1 {
      ZeroOneFixed(base, t);
    } else if t > 0 {
      SquaredModulo(base, t);
      if Pow(base, Pow2(t)) % TT256 == base {
        FixedPoints(256, base, Pow2(t));
      }
    }
  }
}
