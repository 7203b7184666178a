/**
 * Integer helper macros of include/xcp-ng/generic/math.h.
 *
 * The rounding macros are used on `size_t` (unsigned 64-bit on the
 * supported x86-64 targets), so they are modelled over `U64` with the C
 * wrap-around written out.  Bitwise `|`, `&` and `~` are defined bit by bit
 * on natural numbers.  XCP_DIV_ROUND_UP is modelled over unbounded integers
 * with C's truncating `/` and `%`.
 */
module XcpMath {

  const U64_LIMIT: nat := 0x1_0000_0000_0000_0000

  /** An unsigned 64-bit value (`size_t`, `unsigned long`). */
  type U64 = x: int | 0 <= x < U64_LIMIT

  /** Unsigned 64-bit wrap-around of a mathematical result. */
  function Wrap(v: int): (r: U64)
    ensures 0 <= v < U64_LIMIT ==> r == v
  {
    v % U64_LIMIT
  }

  function Pow2(k: nat): (r: nat)
    ensures r >= 1
  {
    if k == 0 then 1 else 2 * Pow2(k - 1)
  }

  /** Bitwise or of two naturals, bit by bit from the least significant one. */
  function BitOr(a: nat, b: nat): nat
    decreases a + b
  {
    if a == 0 then b
    else if b == 0 then a
    else 2 * BitOr(a / 2, b / 2) + (if a % 2 == 1 || b % 2 == 1 then 1 else 0)
  }

  /** Bitwise and of two naturals; it never exceeds either operand. */
  function BitAnd(a: nat, b: nat): (r: nat)
    ensures r <= a && r <= b
    decreases a + b
  {
    if a == 0 || b == 0 then 0
    else 2 * BitAnd(a / 2, b / 2) + (if a % 2 == 1 && b % 2 == 1 then 1 else 0)
  }

  /** Bitwise complement in 64 bits. */
  function BitNot(a: U64): (r: U64)
    ensures a + r == U64_LIMIT - 1
  {
    U64_LIMIT - 1 - a
  }

  // ---------------------------------------------------------------------------
  // XCP_MIN / XCP_MAX over mathematical integers.

  function Min(a: int, b: int): (r: int)
    ensures r <= a && r <= b
    ensures r == a || r == b
  {
    if a < b then a else b
  }

  function Max(a: int, b: int): (r: int)
    ensures r >= a && r >= b
    ensures r == a || r == b
  {
    if a > b then a else b
  }

  // ---------------------------------------------------------------------------
  // Reference definitions.

  /** `r` is the least multiple of `y` that is at least `x`. */
  ghost predicate IsLeastMultipleAtLeast(r: int, x: int, y: nat)
    requires y > 0
  {
    r % y == 0 && x <= r && r - y < x
  }

  /** `r` is the largest multiple of `y` that is at most `x`. */
  ghost predicate IsLargestMultipleAtMost(r: int, x: int, y: nat)
    requires y > 0
  {
    r % y == 0 && r <= x && x < r + y
  }

  /** `r` is the mathematical ceiling of the rational number `x / y`. */
  ghost predicate IsCeiling(r: int, x: int, y: int)
  {
    (y > 0 ==> (r - 1) * y < x <= r * y) &&
    (y < 0 ==> r * y <= x < (r - 1) * y)
  }

  // ---------------------------------------------------------------------------
  // The rounding macros as written.

  /** `__XCP_ROUND_MASK_2(X, Y)`: `Y - 1`, computed in `size_t`. */
  function RoundMask2(y: U64): U64 {
    Wrap(y - 1)
  }

  /** `XCP_ROUND_UP_2(X, Y)`: `((X - 1) | mask) + 1` in `size_t`. */
  function RoundUp2(x: U64, y: U64): U64 {
    Wrap(BitOr(Wrap(x - 1), RoundMask2(y)) + 1)
  }

  /** `XCP_ROUND_DOWN_2(X, Y)`: `X & ~mask`. */
  function RoundDown2(x: U64, y: U64): U64 {
    BitAnd(x, BitNot(RoundMask2(y)))
  }

  /** `XCP_ROUND_UP(X, Y)`: `((X + Y - 1) / Y) * Y` in `size_t`. */
  function RoundUp(x: U64, y: U64): (r: U64)
    requires y > 0
  {
    var s := Wrap(x + y - 1);
    QuotientTimesDivisorBound(s, y);
    (s / y) * y
  }

  /** C99 `/` on integers: the quotient truncated toward zero. */
  function CDiv(x: int, y: int): int
    requires y != 0
  {
    var q := Abs(x) / Abs(y);
    if (x < 0) != (y < 0) then -q else q
  }

  /** C99 `%`: the remainder that goes with the truncated quotient. */
  function CRem(x: int, y: int): int
    requires y != 0
  {
    x - y * CDiv(x, y)
  }

  /** `XCP_DIV_ROUND_UP(X, Y)`: the truncated quotient, plus one when the
      division is inexact and `(X > 0) ^ (Y > 0)` is zero. */
  function DivRoundUp(x: int, y: int): int
    requires y != 0
  {
    var xor := (x > 0) != (y > 0);
    CDiv(x, y) + (if CRem(x, y) != 0 then (if !xor then 1 else 0) else 0)
  }

  function Abs(x: int): nat { if x < 0 then -x else x }

  // ---------------------------------------------------------------------------
  // What the rounding macros compute.

  /** For a power of two `y` and any `x` whose rounded value fits in
      `size_t`, XCP_ROUND_UP_2 gives the least multiple of `y` that is at
      least `x` (for `x == 0` the wrap-around of `x - 1` yields 0). */
  lemma {:induction false} RoundUp2IsLeastMultiple(x: U64, y: U64, k: nat)
    requires k < 64 && y == Pow2(k)
    requires x <= U64_LIMIT - y
    ensures IsLeastMultipleAtLeast(RoundUp2(x, y), x, y)
  {
    assert RoundMask2(y) == Pow2(k) - 1;
    if x == 0 {
      var v := U64_LIMIT - 1;
      BitOrLowMask(v, k);
      Pow2DividesLimit(k);
      LastBelowMultiple(U64_LIMIT, y);
      assert RoundUp2(x, y) == 0;
    } else {
      var v := x - 1;
      BitOrLowMask(v, k);
      NextMultiple(v, y);
      assert RoundUp2(x, y) == v - v % y + y;
      NextMultipleIsLeast(RoundUp2(x, y), v, y);
    }
  }

  /** The multiple just above `v` is the least one at or above `v + 1`. */
  lemma {:induction false} NextMultipleIsLeast(r: int, v: nat, y: nat)
    requires y > 0 && r == v - v % y + y
    ensures IsLeastMultipleAtLeast(r, v + 1, y)
  {
    NextMultiple(v, y);
  }

  /** `v - v % y + y` is the multiple of `y` just above `v`. */
  lemma {:induction false} NextMultiple(v: nat, y: nat)
    requires y > 0
    ensures (v - v % y) % y == 0 && (v - v % y + y) % y == 0
    ensures v - v % y <= v < v - v % y + y
  {
    DivRem(v, y);
    MulAddOne(v / y, y);
    DivModUnique(v - v % y, y, v / y, 0);
    DivModUnique(v - v % y + y, y, v / y + 1, 0);
  }

  /** Just below a multiple `l` of `y`, the remainder is `y - 1`. */
  lemma {:induction false} LastBelowMultiple(l: nat, y: nat)
    requires y > 0 && l > 0 && l % y == 0
    ensures (l - 1) % y == y - 1
  {
    DivRem(l, y);
    var q := l / y;
    MulAddOne(q - 1, y);
    assert l - 1 == (q - 1) * y + (y - 1);
    DivModUnique(l - 1, y, q - 1, y - 1);
  }

  /** When the least multiple of `y` at or above `x >= 1` is `2^64`,
      XCP_ROUND_UP_2 wraps around to 0. */
  lemma {:induction false} RoundUp2WrapsToZero(x: U64, y: U64, k: nat)
    requires k < 64 && y == Pow2(k)
    requires x > U64_LIMIT - y
    ensures RoundUp2(x, y) == 0
  {
    assert RoundMask2(y) == Pow2(k) - 1;
    var v := x - 1;
    BitOrLowMask(v, k);
    NextMultiple(v, y);
    var m := v - v % y;
    Pow2DividesLimit(k);
    var top := U64_LIMIT - y;
    assert top % y == 0 by {
      DivRem(U64_LIMIT, y);
      MulAddOne(U64_LIMIT / y - 1, y);
      DivModUnique(top, y, U64_LIMIT / y - 1, 0);
    }
    MultipleBelow(m, U64_LIMIT, y);
    if m < top {
      MultipleBelow(m, top, y);
    }
    assert m == top;
    assert RoundUp2(x, y) == Wrap(U64_LIMIT);
  }

  /** For a power of two `y`, XCP_ROUND_DOWN_2 gives the largest multiple of
      `y` that is at most `x`. */
  lemma {:induction false} RoundDown2IsLargestMultiple(x: U64, y: U64, k: nat)
    requires k < 64 && y == Pow2(k)
    ensures IsLargestMultipleAtMost(RoundDown2(x, y), x, y)
  {
    Pow2Of64();
    assert BitNot(RoundMask2(y)) == Pow2(64) - Pow2(k);
    BitAndHighMask(x, 64, k);
    DivRem(x, y);
    DivModUnique(x - x % y, y, x / y, 0);
  }

  /** For `y > 0` and no overflow of `x + y - 1`, XCP_ROUND_UP gives the
      least multiple of `y` that is at least `x`. */
  lemma {:induction false} RoundUpIsLeastMultiple(x: U64, y: U64)
    requires y > 0 && x + y - 1 < U64_LIMIT
    ensures IsLeastMultipleAtLeast(RoundUp(x, y), x, y)
  {
    var s := x + y - 1;
    DivRem(s, y);
    DivModUnique((s / y) * y, y, s / y, 0);
  }

  /** There is only one least multiple at or above a bound. */
  lemma {:induction false} LeastMultipleUnique(r1: int, r2: int, x: int, y: nat)
    requires y > 0
    requires IsLeastMultipleAtLeast(r1, x, y) && IsLeastMultipleAtLeast(r2, x, y)
    ensures r1 == r2
  {
    if r1 < r2 { MultipleBelow(r1, r2, y); }
    if r2 < r1 { MultipleBelow(r2, r1, y); }
  }

  /** For a power of two, the mask-based and the division-based round-up
      agree wherever neither overflows. */
  lemma {:induction false} RoundUp2AgreesWithRoundUp(x: U64, y: U64, k: nat)
    requires k < 64 && y == Pow2(k)
    requires x + y - 1 < U64_LIMIT
    ensures RoundUp2(x, y) == RoundUp(x, y)
  {
    RoundUp2IsLeastMultiple(x, y, k);
    RoundUpIsLeastMultiple(x, y);
    LeastMultipleUnique(RoundUp2(x, y), RoundUp(x, y), x, y);
  }

  /** XCP_DIV_ROUND_UP, evaluated with C's truncating division, is the
      ceiling of `x / y` for every combination of signs. */
  lemma {:induction false} DivRoundUpIsCeiling(x: int, y: int)
    requires y != 0
    ensures IsCeiling(DivRoundUp(x, y), x, y)
  {
    if x == 0 {
      CRemOfAbs(x, y, 0, 0);
      assert DivRoundUp(x, y) == 0;
    } else {
      var a: int, b: int := Abs(x), Abs(y);
      DivRem(a, b);
      CeilingFromAbs(x, y, a / b, a % b);
    }
  }

  lemma {:induction false} CeilingFromAbs(x: int, y: int, q: int, rem: int)
    requires y != 0 && x != 0 && q == Abs(x) / Abs(y) && rem == Abs(x) % Abs(y)
    requires Abs(x) == q * Abs(y) + rem && 0 <= rem < Abs(y)
    ensures IsCeiling(DivRoundUp(x, y), x, y)
  {
    MulAddOne(q, Abs(y));
    CRemOfAbs(x, y, q, rem);
    var r := DivRoundUp(x, y);
    if (x < 0) == (y < 0) {
      assert r == q + (if rem != 0 then 1 else 0);
      CeilingCase(r, x, y, q, rem, rem != 0);
    } else {
      assert r == -q;
      CeilingCase(r, x, y, q, rem, false);
    }
  }

  /** The C remainder has the sign of the dividend and the magnitude of the
      remainder of the absolute values. */
  lemma {:induction false} CRemOfAbs(x: int, y: int, q: int, rem: int)
    requires y != 0 && q == Abs(x) / Abs(y) && rem == Abs(x) % Abs(y)
    ensures CDiv(x, y) == (if (x < 0) != (y < 0) then -q else q)
    ensures CRem(x, y) == (if x < 0 then -rem else rem)
  {
    var b: int := Abs(y);
    DivRem(Abs(x), b);
    NegMul(q, b);
    Comm(q, b);
    Comm(-q, b);
    Comm(q, -b);
    Comm(-q, -b);
  }

  lemma {:induction false} Comm(a: int, b: int)
    ensures a * b == b * a
  {
  }

  /** The four sign cases of DivRoundUpIsCeiling, with the quotient `q` and
      remainder `rem` of the absolute values named. */
  lemma {:induction false} CeilingCase(r: int, x: int, y: int, q: int, rem: int, up: bool)
    requires y != 0 && 0 <= rem < Abs(y) && Abs(x) == q * Abs(y) + rem
    requires (q + 1) * Abs(y) == q * Abs(y) + Abs(y)
    requires up ==> rem != 0
    requires (x < 0) == (y < 0) ==> r == q + (if up then 1 else 0) && (up <==> rem != 0)
    requires (x < 0) != (y < 0) ==> r == -q && (x == 0 ==> rem == 0)
    ensures IsCeiling(r, x, y)
  {
    var b: int := Abs(y);
    NegMul(q, b);
    NegMul(q + 1, b);
    if y > 0 {
      assert y == b;
      if x >= 0 && up {
        assert (r - 1) * y == q * b;
        assert r * y == q * b + b;
      } else if x >= 0 {
        assert r * y == q * b;
        assert (r - 1) * y == q * b - b;
      } else {
        assert r * y == -(q * b);
        assert (r - 1) * y == -(q * b) - b;
      }
    } else {
      assert y == -b;
      if x > 0 {
        assert r * y == q * b;
        assert (r - 1) * y == q * b + b;
      } else if up {
        assert r * y == -(q * b) - b;
        assert (r - 1) * y == -(q * b);
      } else {
        assert r * y == -(q * b);
        assert (r - 1) * y == -(q * b) + b;
      }
    }
  }

  lemma {:induction false} MulAddOne(q: int, b: int)
    ensures (q + 1) * b == q * b + b
    ensures (q - 1) * b == q * b - b
  {
  }

  lemma {:induction false} NegMul(q: int, b: int)
    ensures (-q) * b == -(q * b) && q * (-b) == -(q * b) && (-q) * (-b) == q * b
    ensures (-q - 1) * b == -(q * b) - b && (q - 1) * (-b) == -(q * b) + b
    ensures (-q - 1) * (-b) == q * b + b
  {
    MulSub(0, q, b);
    MulSub(0, q, -b);
    MulSub(0, q + 1, b);
    MulSub(q, 1, -b);
    MulSub(0, q + 1, -b);
  }

  // ---------------------------------------------------------------------------
  // Arithmetic helpers.

  lemma {:induction false} QuotientTimesDivisorBound(s: nat, y: nat)
    requires y > 0
    ensures 0 <= (s / y) * y <= s
  {
    DivRem(s, y);
  }

  lemma {:induction false} DivRem(v: int, d: int)
    requires d > 0
    ensures v == (v / d) * d + v % d && 0 <= v % d < d
  {
  }

  lemma {:induction false} MulAtLeast(a: int, d: int)
    requires a >= 1 && d > 0
    ensures a * d >= d
  {
  }

  lemma {:induction false} MulSub(a: int, b: int, d: int)
    ensures (a - b) * d == a * d - b * d
  {
  }

  lemma {:induction false} MulNonPositive(a: int, d: int)
    requires a <= 0 && d > 0
    ensures a * d <= 0
  {
  }

  lemma {:induction false} DivModUnique(v: int, d: int, q: int, r: int)
    requires d > 0 && v == q * d + r && 0 <= r < d
    ensures v / d == q && v % d == r
  {
    var q', r' := v / d, v % d;
    DivRem(v, d);
    MulSub(q', q, d);
    assert (q' - q) * d == r - r';
    if q' > q {
      MulAtLeast(q' - q, d);
    } else if q' < q {
      MulSub(q, q', d);
      MulAtLeast(q - q', d);
    }
  }

  /** A multiple of `y` below a multiple `l` of `y` is at most `l - y`. */
  lemma {:induction false} MultipleBelow(m: int, l: int, y: nat)
    requires y > 0 && m % y == 0 && l % y == 0 && m < l
    ensures m <= l - y
  {
    var a, b := m / y, l / y;
    DivRem(m, y);
    DivRem(l, y);
    MulSub(b, a, y);
    assert (b - a) * y == l - m;
    if b - a < 1 { MulNonPositive(b - a, y); }
    MulAtLeast(b - a, y);
  }

  lemma {:induction false} Pow2Split(v: nat, k: nat)
    requires k >= 1
    ensures v % Pow2(k) == 2 * ((v / 2) % Pow2(k - 1)) + v % 2
    ensures v / Pow2(k) == (v / 2) / Pow2(k - 1)
  {
    var p := Pow2(k - 1);
    var h := v / 2;
    DivRem(v, 2);
    DivRem(h, p);
    var q, rr := h / p, h % p;
    assert v == q * (2 * p) + (2 * rr + v % 2);
    DivModUnique(v, 2 * p, q, 2 * rr + v % 2);
  }

  lemma {:induction false} Pow2Monotone(k: nat, n: nat)
    requires k <= n
    ensures Pow2(k) <= Pow2(n)
  {
    if k < n { Pow2Monotone(k, n - 1); }
  }

  lemma {:induction false} Pow2Add(a: nat, b: nat)
    ensures Pow2(a + b) == Pow2(a) * Pow2(b)
  {
    if b > 0 {
      Pow2Add(a, b - 1);
      assert Pow2(a + b) == 2 * Pow2(a + b - 1);
    }
  }

  lemma {:induction false} Pow2Of8()
    ensures Pow2(8) == 0x100
  {
  }

  lemma {:induction false} Pow2Of16()
    ensures Pow2(16) == 0x1_0000
  {
    Pow2Of8();
    Pow2Add(8, 8);
  }

  lemma {:induction false} Pow2Of32()
    ensures Pow2(32) == 0x1_0000_0000
  {
    Pow2Of16();
    Pow2Add(16, 16);
  }

  lemma {:induction false} Pow2Of64()
    ensures Pow2(64) == U64_LIMIT
  {
    Pow2Of32();
    Pow2Add(32, 32);
  }

  /** `Pow2(k)` divides `2^64` for every `k <= 64`. */
  lemma {:induction false} Pow2DividesLimit(k: nat)
    requires k <= 64
    ensures U64_LIMIT % Pow2(k) == 0
  {
    Pow2Add(k, 64 - k);
    ProductMod(Pow2(k), Pow2(64 - k));
    Pow2Of64();
  }

  lemma {:induction false} ProductMod(p: int, q: int)
    requires p > 0
    ensures (p * q) % p == 0
  {
    DivModUnique(p * q, p, q, 0);
  }

  lemma {:induction false} BitOrZero(v: nat)
    ensures BitOr(v, 0) == v
  {
  }

  /** Or-ing in the low `k` bits sets them and keeps the others. */
  lemma {:induction false} BitOrLowMask(v: nat, k: nat)
    ensures BitOr(v, Pow2(k) - 1) == v - v % Pow2(k) + Pow2(k) - 1
    decreases k, 0
  {
    if k == 0 {
      BitOrZero(v);
    } else if v == 0 {
      DivModUnique(0, Pow2(k), 0, 0);
    } else {
      var p, h := Pow2(k - 1), v / 2;
      var m' := p - 1;
      assert Pow2(k) - 1 == 2 * m' + 1;
      BitOrOddStep(v, m');
      BitOrLowMaskAt(h, k - 1, m', p);
      Pow2Split(v, k);
      DivRem(v, 2);
      assert v % Pow2(k) == 2 * (h % p) + v % 2;
    }
  }

  /** `BitOrLowMask` with the mask and the modulus named by the caller. */
  lemma {:induction false} BitOrLowMaskAt(v: nat, k: nat, mask: int, p: int)
    requires mask == Pow2(k) - 1 && p == Pow2(k)
    ensures mask >= 0 && BitOr(v, mask) == v - v % p + p - 1
    decreases k, 1
  {
    BitOrLowMask(v, k);
  }

  lemma {:induction false} BitOrOddStep(v: nat, m': nat)
    requires v > 0
    ensures BitOr(v, 2 * m' + 1) == 2 * BitOr(v / 2, m') + 1
  {
    assert (2 * m' + 1) / 2 == m' && (2 * m' + 1) % 2 == 1;
  }

  /** And-ing with `Pow2(n) - 1` keeps any value below `Pow2(n)`. */
  lemma {:induction false} BitAndAllOnes(v: nat, n: nat)
    requires v < Pow2(n)
    ensures BitAnd(v, Pow2(n) - 1) == v
  {
    if v != 0 {
      assert n >= 1;
      var m' := Pow2(n - 1) - 1;
      assert Pow2(n) - 1 == 2 * m' + 1;
      BitAndOddStep(v, m');
      BitAndAllOnes(v / 2, n - 1);
    }
  }

  lemma {:induction false} BitAndOddStep(v: nat, m': nat)
    requires v > 0
    ensures BitAnd(v, 2 * m' + 1) == 2 * BitAnd(v / 2, m') + v % 2
  {
    assert (2 * m' + 1) / 2 == m' && (2 * m' + 1) % 2 == 1;
  }

  /** And-ing with the bits `k .. n-1` clears the low `k` bits. */
  lemma {:induction false} BitAndHighMask(v: nat, n: nat, k: nat)
    requires k <= n && v < Pow2(n)
    ensures Pow2(k) <= Pow2(n)
    ensures BitAnd(v, Pow2(n) - Pow2(k)) == v - v % Pow2(k)
    decreases n, 1
  {
    Pow2Monotone(k, n);
    if k == 0 {
      BitAndAllOnes(v, n);
    } else if k == n {
      DivModUnique(v, Pow2(n), 0, v);
    } else if v == 0 {
      DivModUnique(0, Pow2(k), 0, 0);
    } else {
      BitAndHighMaskStep(v, n, k);
    }
  }

  lemma {:induction false} BitAndHighMaskStep(v: nat, n: nat, k: nat)
    requires 0 < k < n && 0 < v < Pow2(n)
    ensures Pow2(k) <= Pow2(n)
    ensures BitAnd(v, Pow2(n) - Pow2(k)) == v - v % Pow2(k)
    decreases n, 0
  {
    Pow2Monotone(k, n - 1);
    var p := Pow2(k - 1);
    var m' := Pow2(n - 1) - p;
    assert Pow2(n) - Pow2(k) == 2 * m' && m' > 0;
    BitAndEvenStep(v, m');
    var h := v / 2;
    DivRem(v, 2);
    BitAndHighMaskAt(h, n - 1, k - 1, m', p);
    Pow2Split(v, k);
    assert v % Pow2(k) == 2 * (h % p) + v % 2;
  }

  /** `BitAndHighMask` with the mask and the modulus named by the caller. */
  lemma {:induction false} BitAndHighMaskAt(v: nat, n: nat, k: nat, mask: int, p: int)
    requires k <= n && v < Pow2(n) && mask == Pow2(n) - Pow2(k) && p == Pow2(k)
    ensures mask >= 0 && BitAnd(v, mask) == v - v % p
    decreases n, 2
  {
    BitAndHighMask(v, n, k);
  }

  lemma {:induction false} BitAndEvenStep(v: nat, m': nat)
    requires v > 0 && m' > 0
    ensures BitAnd(v, 2 * m') == 2 * BitAnd(v / 2, m')
  {
    assert (2 * m') / 2 == m' && (2 * m') % 2 == 0;
  }
}
