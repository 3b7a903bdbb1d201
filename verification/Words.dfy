/**
 Machine words as rows of bytes. A word is taken apart by reading its least significant
 byte and shifting the rest down; what commutes with both acts on every byte alone.
 */
module Words {
  import opened Bits

  /** The low `n` bytes of a word, least significant first. */
  function Digits<W, B>(low: W -> B, down: W -> W, w: W, n: nat): (r: seq<B>)
    ensures |r| == n
  {
    if n == 0 then [] else [low(w)] + Digits(low, down, down(w), n - 1)
  }

  /** Marks the operands a rule is to be used for. */
  ghost predicate Use<T>(x: T, y: T) {
    true
  }

  ghost predicate LowLifts<W(!new), B(!new)>(low: W -> B, f: (W, W) -> W, g: (B, B) -> B) {
    forall x, y {:trigger Use(x, y)} :: Use(x, y) ==> low(f(x, y)) == g(low(x), low(y))
  }

  ghost predicate DownLifts<W(!new)>(down: W -> W, f: (W, W) -> W) {
    forall x, y {:trigger Use(x, y)} :: Use(x, y) ==> down(f(x, y)) == f(down(x), down(y))
  }

  /** An operation that commutes with reading the low byte and with shifting acts on each byte. */
  lemma {:induction false} DigitsLift<W(!new), B(!new)>(
    low: W -> B, down: W -> W, f: (W, W) -> W, g: (B, B) -> B, x: W, y: W, n: nat, k: nat)
    requires LowLifts(low, f, g) && DownLifts(down, f) && k < n
    ensures Digits(low, down, f(x, y), n)[k] == g(Digits(low, down, x, n)[k], Digits(low, down, y, n)[k])
    decreases n
  {
    assert Use(x, y);
    if k > 0 {
      DigitsLift(low, down, f, g, down(x), down(y), n - 1, k - 1);
    }
  }

  lemma DigitsLiftAll<W(!new), B(!new)>(low: W -> B, down: W -> W, f: (W, W) -> W, g: (B, B) -> B, x: W, y: W, n: nat)
    requires LowLifts(low, f, g) && DownLifts(down, f)
    ensures forall k :: 0 <= k < n ==>
              Digits(low, down, f(x, y), n)[k] == g(Digits(low, down, x, n)[k], Digits(low, down, y, n)[k])
  {
    forall k | 0 <= k < n
      ensures Digits(low, down, f(x, y), n)[k] == g(Digits(low, down, x, n)[k], Digits(low, down, y, n)[k])
    {
      DigitsLift(low, down, f, g, x, y, n, k);
    }
  }

  /** Shifting a packed word down drops its first byte and brings in a zero. */
  ghost predicate Packs<W(!new)>(low: W -> bv8, down: W -> W, pack: Bytes -> W, size: nat) {
    forall s: Bytes {:trigger Use(s, s)} :: Use(s, s) && |s| == size > 0 ==> low(pack(s)) == s[0] && down(pack(s)) == pack(s[1..] + [0])
  }

  lemma {:induction false} DigitsPack<W(!new)>(
    low: W -> bv8, down: W -> W, pack: Bytes -> W, size: nat, s: Bytes, n: nat, k: nat)
    requires Packs(low, down, pack, size) && |s| == size && k < n <= size
    ensures Digits(low, down, pack(s), n)[k] == s[k]
    decreases k
  {
    assert Use(s, s);
    if k > 0 {
      DigitsPack(low, down, pack, size, s[1..] + [0], n - 1, k - 1);
    }
  }

  lemma {:induction false} DigitsZero<W(!new)>(low: W -> bv8, down: W -> W, zero: W, n: nat, k: nat)
    requires low(zero) == 0 && down(zero) == zero && k < n
    ensures Digits(low, down, zero, n)[k] == 0
    decreases n
  {
    if k > 0 {
      DigitsZero(low, down, zero, n - 1, k - 1);
    }
  }

  function Reversed(s: Bytes): (r: Bytes)
    ensures |r| == |s| && forall i :: 0 <= i < |s| ==> r[i] == s[|s| - 1 - i]
  {
    seq(|s|, i requires 0 <= i < |s| => s[|s| - 1 - i])
  }

  function At(s: Bytes, i: nat): bv8 {
    if i < |s| then s[i] else 0
  }

  // ----------------------------------------------------------------- 8 bits

  function And8(x: bv8, y: bv8): bv8 {
    x & y
  }

  function Or8(x: bv8, y: bv8): bv8 {
    x | y
  }

  function Xor8(x: bv8, y: bv8): bv8 {
    x ^ y
  }

  // ---------------------------------------------------------------- 64 bits

  function Low64(w: bv64): bv8 {
    (w & 0xff) as bv8
  }

  function Down64(w: bv64): bv64 {
    w >> 8
  }

  function Pack64(a: bv8, b: bv8, c: bv8, d: bv8, e: bv8, f: bv8, g: bv8, h: bv8): bv64 {
    (a as bv64) | ((b as bv64) << 8) | ((c as bv64) << 16) | ((d as bv64) << 24) |
    ((e as bv64) << 32) | ((f as bv64) << 40) | ((g as bv64) << 48) | ((h as bv64) << 56)
  }

  /** Reading eight bytes as a word. */
  function Load64(s: Bytes): bv64 {
    Pack64(At(s, 0), At(s, 1), At(s, 2), At(s, 3), At(s, 4), At(s, 5), At(s, 6), At(s, 7))
  }

  lemma Pack64Low(a: bv8, b: bv8, c: bv8, d: bv8, e: bv8, f: bv8, g: bv8, h: bv8)
    ensures Low64(Pack64(a, b, c, d, e, f, g, h)) == a
  {
  }

  lemma Pack64Down(a: bv8, b: bv8, c: bv8, d: bv8, e: bv8, f: bv8, g: bv8, h: bv8)
    ensures Down64(Pack64(a, b, c, d, e, f, g, h)) == Pack64(b, c, d, e, f, g, h, 0)
  {
  }

  lemma Load64Packs()
    ensures Packs(Low64, Down64, Load64, 8)
  {
    forall s: Bytes | |s| == 8 ensures Low64(Load64(s)) == s[0] && Down64(Load64(s)) == Load64(s[1..] + [0]) {
      Pack64Low(s[0], s[1], s[2], s[3], s[4], s[5], s[6], s[7]);
      Pack64Down(s[0], s[1], s[2], s[3], s[4], s[5], s[6], s[7]);
    }
  }

  lemma Load64Store(s: Bytes)
    requires |s| == 8
    ensures Digits(Low64, Down64, Load64(s), 8) == s
  {
    Load64Packs();
    forall k | 0 <= k < 8 ensures Digits(Low64, Down64, Load64(s), 8)[k] == s[k] {
      DigitsPack(Low64, Down64, Load64, 8, s, 8, k);
    }
  }

  lemma Zero64(s: Bytes)
    requires |s| == 8
    ensures Load64(s) == 0 <==> forall j :: 0 <= j < |s| ==> s[j] == 0
  {
    if Load64(s) == 0 {
      Load64Store(s);
      forall j | 0 <= j < 8 ensures s[j] == 0 {
        DigitsZero(Low64, Down64, 0, 8, j);
      }
    }
  }

  function And64(x: bv64, y: bv64): bv64 {
    x & y
  }

  function Or64(x: bv64, y: bv64): bv64 {
    x | y
  }

  function Xor64(x: bv64, y: bv64): bv64 {
    x ^ y
  }

  lemma And64Byte(x: bv64, y: bv64)
    ensures Low64(And64(x, y)) == And8(Low64(x), Low64(y))
  {
  }

  lemma And64Low()
    ensures LowLifts(Low64, And64, And8)
  {
    forall x, y ensures Low64(And64(x, y)) == And8(Low64(x), Low64(y)) {
      And64Byte(x, y);
    }
  }

  lemma And64Shift(x: bv64, y: bv64)
    ensures Down64(And64(x, y)) == And64(Down64(x), Down64(y))
  {
  }

  lemma And64Down()
    ensures DownLifts(Down64, And64)
  {
    forall x, y ensures Down64(And64(x, y)) == And64(Down64(x), Down64(y)) {
      And64Shift(x, y);
    }
  }

  lemma Or64Byte(x: bv64, y: bv64)
    ensures Low64(Or64(x, y)) == Or8(Low64(x), Low64(y))
  {
  }

  lemma Or64Low()
    ensures LowLifts(Low64, Or64, Or8)
  {
    forall x, y ensures Low64(Or64(x, y)) == Or8(Low64(x), Low64(y)) {
      Or64Byte(x, y);
    }
  }

  lemma Or64Shift(x: bv64, y: bv64)
    ensures Down64(Or64(x, y)) == Or64(Down64(x), Down64(y))
  {
  }

  lemma Or64Down()
    ensures DownLifts(Down64, Or64)
  {
    forall x, y ensures Down64(Or64(x, y)) == Or64(Down64(x), Down64(y)) {
      Or64Shift(x, y);
    }
  }

  lemma Xor64Byte(x: bv64, y: bv64)
    ensures Low64(Xor64(x, y)) == Xor8(Low64(x), Low64(y))
  {
  }

  lemma Xor64Low()
    ensures LowLifts(Low64, Xor64, Xor8)
  {
    forall x, y ensures Low64(Xor64(x, y)) == Xor8(Low64(x), Low64(y)) {
      Xor64Byte(x, y);
    }
  }

  lemma Xor64Shift(x: bv64, y: bv64)
    ensures Down64(Xor64(x, y)) == Xor64(Down64(x), Down64(y))
  {
  }

  lemma Xor64Down()
    ensures DownLifts(Down64, Xor64)
  {
    forall x, y ensures Down64(Xor64(x, y)) == Xor64(Down64(x), Down64(y)) {
      Xor64Shift(x, y);
    }
  }

  // ---------------------------------------------------------------- 32 bits

  function Low32(w: bv32): bv8 {
    (w & 0xff) as bv8
  }

  function Down32(w: bv32): bv32 {
    w >> 8
  }

  /** Reading four bytes as a word. */
  function Load32(s: Bytes): bv32 {
    (At(s, 0) as bv32) | ((At(s, 1) as bv32) << 8) | ((At(s, 2) as bv32) << 16) | ((At(s, 3) as bv32) << 24)
  }

  lemma Load32Packs()
    ensures Packs(Low32, Down32, Load32, 4)
  {
  }

  lemma Load32Store(s: Bytes)
    requires |s| == 4
    ensures Digits(Low32, Down32, Load32(s), 4) == s
  {
    Load32Packs();
    forall k | 0 <= k < 4 ensures Digits(Low32, Down32, Load32(s), 4)[k] == s[k] {
      DigitsPack(Low32, Down32, Load32, 4, s, 4, k);
    }
  }

  lemma Zero32(s: Bytes)
    requires |s| == 4
    ensures Load32(s) == 0 <==> forall j :: 0 <= j < |s| ==> s[j] == 0
  {
    if Load32(s) == 0 {
      Load32Store(s);
      forall j | 0 <= j < 4 ensures s[j] == 0 {
        DigitsZero(Low32, Down32, 0, 4, j);
      }
    }
  }

  function And32(x: bv32, y: bv32): bv32 {
    x & y
  }

  function Or32(x: bv32, y: bv32): bv32 {
    x | y
  }

  function Xor32(x: bv32, y: bv32): bv32 {
    x ^ y
  }

  lemma And32Byte(x: bv32, y: bv32)
    ensures Low32(And32(x, y)) == And8(Low32(x), Low32(y))
  {
  }

  lemma And32Low()
    ensures LowLifts(Low32, And32, And8)
  {
    forall x, y ensures Low32(And32(x, y)) == And8(Low32(x), Low32(y)) {
      And32Byte(x, y);
    }
  }

  lemma And32Shift(x: bv32, y: bv32)
    ensures Down32(And32(x, y)) == And32(Down32(x), Down32(y))
  {
  }

  lemma And32Down()
    ensures DownLifts(Down32, And32)
  {
    forall x, y ensures Down32(And32(x, y)) == And32(Down32(x), Down32(y)) {
      And32Shift(x, y);
    }
  }

  lemma Or32Byte(x: bv32, y: bv32)
    ensures Low32(Or32(x, y)) == Or8(Low32(x), Low32(y))
  {
  }

  lemma Or32Low()
    ensures LowLifts(Low32, Or32, Or8)
  {
    forall x, y ensures Low32(Or32(x, y)) == Or8(Low32(x), Low32(y)) {
      Or32Byte(x, y);
    }
  }

  lemma Or32Shift(x: bv32, y: bv32)
    ensures Down32(Or32(x, y)) == Or32(Down32(x), Down32(y))
  {
  }

  lemma Or32Down()
    ensures DownLifts(Down32, Or32)
  {
    forall x, y ensures Down32(Or32(x, y)) == Or32(Down32(x), Down32(y)) {
      Or32Shift(x, y);
    }
  }

  lemma Xor32Byte(x: bv32, y: bv32)
    ensures Low32(Xor32(x, y)) == Xor8(Low32(x), Low32(y))
  {
  }

  lemma Xor32Low()
    ensures LowLifts(Low32, Xor32, Xor8)
  {
    forall x, y ensures Low32(Xor32(x, y)) == Xor8(Low32(x), Low32(y)) {
      Xor32Byte(x, y);
    }
  }

  lemma Xor32Shift(x: bv32, y: bv32)
    ensures Down32(Xor32(x, y)) == Xor32(Down32(x), Down32(y))
  {
  }

  lemma Xor32Down()
    ensures DownLifts(Down32, Xor32)
  {
    forall x, y ensures Down32(Xor32(x, y)) == Xor32(Down32(x), Down32(y)) {
      Xor32Shift(x, y);
    }
  }
}
