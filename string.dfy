/**
 * Decimal parsing of src/string.c.
 *
 * `strtoll` with base 10 is given the specification of section 7.22.1.4 of
 * ISO C11 (`StrToLL`): leading white space is skipped, an optional sign and
 * a non-empty run of decimal digits are read, and the end index is the
 * first character not read; without digits nothing is converted, the value
 * is 0 and the end index is that of the string.  An out-of-range value is
 * clamped to `LLONG_MIN`/`LLONG_MAX` and `ERANGE` is stored in `errno`;
 * otherwise `errno` is left alone.
 *
 * `errno` is a field of `CRuntime`, and the `bool *ok` out-parameter a
 * possibly-null `Cell<bool>`.  `long long` is 64 bits wide and `int` 32;
 * the width of `long` depends on the data model of the target.  Narrowing
 * casts keep the low bits in two's complement, as GCC and Clang define them.
 */
module VtbxString {
  import opened Wrappers
  import XcpMath

  const LLONG_MIN: int := -0x8000_0000_0000_0000
  const LLONG_MAX: int := 0x7FFF_FFFF_FFFF_FFFF

  /** The value of `ERANGE` on Linux. */
  const ERANGE: int := 34

  /** The C data model: `long` is 32 bits wide on ILP32 and 64 on LP64. */
  datatype DataModel = ILP32 | LP64

  function LongBits(model: DataModel): nat {
    if model == ILP32 then 32 else 64
  }

  const INT_BITS: nat := 32

  // ---------------------------------------------------------------------------
  // Two's-complement narrowing.

  predicate InSignedRange(v: int, bits: nat)
    requires bits >= 1
  {
    -(XcpMath.Pow2(bits - 1) as int) <= v < XcpMath.Pow2(bits - 1)
  }

  /** A cast to a signed type of `bits` bits: the value modulo `2^bits`. */
  function Narrow(v: int, bits: nat): (r: int)
    requires bits >= 1
    ensures InSignedRange(r, bits)
  {
    NarrowBy(v, XcpMath.Pow2(bits - 1))
  }

  /** The representative of `v` modulo `2h` in `[-h, h)`. */
  function NarrowBy(v: int, h: int): (r: int)
    requires h > 0
    ensures -h <= r < h
  {
    (v + h) % (2 * h) - h
  }

  /** The cast keeps the low `bits` bits: it differs by a multiple of `2^bits`. */
  lemma {:induction false} NarrowIsCongruent(v: int, bits: nat)
    requires bits >= 1
    ensures (Narrow(v, bits) - v) % XcpMath.Pow2(bits) == 0
  {
    var h, m := XcpMath.Pow2(bits - 1), XcpMath.Pow2(bits);
    assert Narrow(v, bits) == NarrowBy(v, h);
    NarrowByIsCongruent(v, h, m);
  }

  /** `NarrowBy(v, h)` differs from `v` by a multiple of `m = 2h`. */
  lemma {:induction false} NarrowByIsCongruent(v: int, h: int, m: int)
    requires h > 0 && m == 2 * h
    ensures (NarrowBy(v, h) - v) % m == 0
  {
    var q := (v + h) / m;
    XcpMath.DivRem(v + h, m);
    XcpMath.NegMul(q, m);
    XcpMath.DivModUnique(NarrowBy(v, h) - v, m, -q, 0);
  }

  lemma {:induction false} NarrowKeepsIffInRange(v: int, bits: nat)
    requires bits >= 1
    ensures Narrow(v, bits) == v <==> InSignedRange(v, bits)
  {
    var h := XcpMath.Pow2(bits - 1);
    if InSignedRange(v, bits) {
      XcpMath.DivModUnique(v + h, 2 * h, 0, v + h);
    }
  }

  // ---------------------------------------------------------------------------
  // The specification of strtoll(str, &end, 10).

  predicate IsSpace(c: char) {
    c == ' ' || c == '\t' || c == '\n' || c == '\U{000B}' || c == '\U{000C}' || c == '\r'
  }

  predicate IsDigit(c: char) {
    '0' <= c <= '9'
  }

  function DigitValue(c: char): nat
    requires IsDigit(c)
  {
    c as int - '0' as int
  }

  /** The first index at or after `i` that is not white space. */
  function SkipSpaces(s: string, i: nat): (r: nat)
    requires i <= |s|
    ensures i <= r <= |s|
    ensures forall k :: i <= k < r ==> IsSpace(s[k])
    ensures r == |s| || !IsSpace(s[r])
    decreases |s| - i
  {
    if i < |s| && IsSpace(s[i]) then SkipSpaces(s, i + 1) else i
  }

  /** The first index at or after `i` that is not a decimal digit. */
  function DigitsEnd(s: string, i: nat): (r: nat)
    requires i <= |s|
    ensures i <= r <= |s|
    ensures forall k :: i <= k < r ==> IsDigit(s[k])
    ensures r == |s| || !IsDigit(s[r])
    decreases |s| - i
  {
    if i < |s| && IsDigit(s[i]) then DigitsEnd(s, i + 1) else i
  }

  /** The number a string of decimal digits denotes. */
  function DecimalValue(d: string): nat
    requires forall k :: 0 <= k < |d| ==> IsDigit(d[k])
  {
    if d == [] then 0 else 10 * DecimalValue(d[..|d| - 1]) + DigitValue(d[|d| - 1])
  }

  datatype Conversion = Conversion(value: int, end: nat, outOfRange: bool)

  /** `strtoll(s, &end, 10)`: the value, `end - s`, and whether it sets `ERANGE`. */
  function StrToLL(s: string): (r: Conversion)
    ensures LLONG_MIN <= r.value <= LLONG_MAX
    ensures r.end <= |s|
    ensures r.end == 0 ==> r.value == 0 && !r.outOfRange
    ensures r.outOfRange ==> r.value == LLONG_MIN || r.value == LLONG_MAX
  {
    ConvertAt(s, SkipSpaces(s, 0))
  }

  /** The conversion of the subject sequence starting at `i`, after the white space. */
  function ConvertAt(s: string, i: nat): (r: Conversion)
    requires i <= |s|
    ensures LLONG_MIN <= r.value <= LLONG_MAX
    ensures r.end == 0 || i < r.end <= |s|
    ensures r.end == 0 ==> r.value == 0 && !r.outOfRange
    ensures r.outOfRange ==> r.value == LLONG_MIN || r.value == LLONG_MAX
  {
    var j := SignEnd(s, i);
    var k := DigitsEnd(s, j);
    if k == j then Conversion(0, 0, false)
    else Clamp(IsNegative(s, i), DecimalValue(s[j..k]), k)
  }

  /** Whether the subject sequence at `i` starts with a minus sign. */
  predicate IsNegative(s: string, i: nat)
    requires i <= |s|
  {
    i < |s| && s[i] == '-'
  }

  /** The index after the optional sign at `i`. */
  function SignEnd(s: string, i: nat): (j: nat)
    requires i <= |s|
    ensures i <= j <= |s|
  {
    if i < |s| && (s[i] == '-' || s[i] == '+') then i + 1 else i
  }

  /** The digits' value `m` with its sign, clamped to `long long`, ending at `k`. */
  function Clamp(negative: bool, m: nat, k: nat): (r: Conversion)
    ensures LLONG_MIN <= r.value <= LLONG_MAX && r.end == k
    ensures r.outOfRange ==> r.value == LLONG_MIN || r.value == LLONG_MAX
  {
    var v: int := if negative then -(m as int) else m;
    if v > LLONG_MAX then Conversion(LLONG_MAX, k, true)
    else if v < LLONG_MIN then Conversion(LLONG_MIN, k, true)
    else Conversion(v, k, false)
  }

  // ---------------------------------------------------------------------------
  // Decimal notation, the inverse of the parse.

  function DigitChar(n: nat): (c: char)
    requires n < 10
    ensures IsDigit(c) && DigitValue(c) == n
  {
    ('0' as int + n) as char
  }

  /** The decimal digits of `n`, without leading zeros. */
  function Digits(n: nat): (d: string)
    ensures |d| >= 1
    ensures forall k :: 0 <= k < |d| ==> IsDigit(d[k])
  {
    if n < 10 then [DigitChar(n)] else Digits(n / 10) + [DigitChar(n % 10)]
  }

  /** `v` in decimal notation, with a minus sign when negative. */
  function Decimal(v: int): string {
    if v < 0 then "-" + Digits(-v) else Digits(v)
  }

  lemma {:induction false} DecimalValueOfDigits(n: nat)
    ensures DecimalValue(Digits(n)) == n
  {
    if n >= 10 {
      var d := Digits(n);
      assert d[..|d| - 1] == Digits(n / 10);
      DecimalValueOfDigits(n / 10);
    }
  }

  /**
   * `strtoll` reads back any decimal notation, whatever follows it when that
   * does not start with a digit: the value is kept when it fits in a
   * `long long` and clamped with `ERANGE` otherwise.
   */
  lemma {:induction false} StrToLLOfDecimal(v: int, rest: string)
    requires rest == [] || !IsDigit(rest[0])
    ensures var r := StrToLL(Decimal(v) + rest);
      r.end == |Decimal(v)|
      && r.outOfRange == !(LLONG_MIN <= v <= LLONG_MAX)
      && r.value == if v > LLONG_MAX then LLONG_MAX else if v < LLONG_MIN then LLONG_MIN else v
  {
    var s := Decimal(v) + rest;
    var n := if v < 0 then -v else v;
    var d := Digits(n);
    var j := if v < 0 then 1 else 0;
    assert s[j..j + |d|] == d;
    assert !IsSpace(s[0]) by {
      if v >= 0 {
        assert s[0] == d[0];
      }
    }
    assert SkipSpaces(s, 0) == 0;
    assert DigitsEnd(s, j) == j + |d| by {
      DigitsEndAt(s, j, j + |d|);
    }
    DecimalValueOfDigits(n);
  }

  lemma {:induction false} DigitsEndAt(s: string, i: nat, k: nat)
    requires i <= k <= |s|
    requires forall m :: i <= m < k ==> IsDigit(s[m])
    requires k == |s| || !IsDigit(s[k])
    ensures DigitsEnd(s, i) == k
    decreases k - i
  {
    if i < k {
      DigitsEndAt(s, i + 1, k);
    }
  }

  /** Leading white space is skipped and not counted as converted. */
  lemma {:induction false} StrToLLSkipsSpace(c: char, s: string)
    requires IsSpace(c)
    ensures var r := StrToLL([c] + s);
      r.value == StrToLL(s).value && r.outOfRange == StrToLL(s).outOfRange
      && r.end == if StrToLL(s).end == 0 then 0 else StrToLL(s).end + 1
  {
    SkipSpacesShift(c, s, 0);
    ConvertAtShift(c, s, SkipSpaces(s, 0));
  }

  /** A conversion seen one character further on: a nonzero end moves by one. */
  function ShiftEnd(r: Conversion): Conversion {
    if r.end == 0 then r else r.(end := r.end + 1)
  }

  lemma {:induction false} ConvertAtShift(c: char, s: string, i: nat)
    requires i <= |s|
    ensures ConvertAt([c] + s, i + 1) == ShiftEnd(ConvertAt(s, i))
  {
    var j := SignEnd(s, i);
    var k := DigitsEnd(s, j);
    SignShift(c, s, i);
    DigitsEndShift(c, s, j);
    if k != j {
      ShiftedDigits(c, s, j, k);
      ClampShift(IsNegative(s, i), DecimalValue(s[j..k]), k);
    }
  }

  lemma {:induction false} SignShift(c: char, s: string, i: nat)
    requires i <= |s|
    ensures IsNegative([c] + s, i + 1) == IsNegative(s, i)
    ensures SignEnd([c] + s, i + 1) == SignEnd(s, i) + 1
  {
    assert i < |s| ==> ([c] + s)[i + 1] == s[i];
  }

  /** The digits `s[j..k]` read the same one place further in `[c] + s`. */
  lemma {:induction false} ShiftedDigits(c: char, s: string, j: nat, k: nat)
    requires j <= k <= |s| && forall m :: j <= m < k ==> IsDigit(s[m])
    ensures forall t :: 0 <= t < k - j ==> IsDigit(s[j..k][t])
    ensures ([c] + s)[j + 1..k + 1] == s[j..k]
  {
    assert ([c] + s)[j + 1..k + 1] == s[j..k];
  }

  /** Moving the end of the digits changes only the end of the conversion. */
  lemma {:induction false} ClampShift(negative: bool, m: nat, k: nat)
    requires k > 0
    ensures Clamp(negative, m, k + 1) == ShiftEnd(Clamp(negative, m, k))
  {
  }

  lemma {:induction false} SkipSpacesShift(c: char, s: string, i: nat)
    requires i <= |s|
    ensures SkipSpaces([c] + s, i + 1) == SkipSpaces(s, i) + 1
    decreases |s| - i
  {
    assert forall k :: 0 <= k < |s| ==> ([c] + s)[k + 1] == s[k];
    if i < |s| && IsSpace(s[i]) {
      SkipSpacesShift(c, s, i + 1);
    }
  }

  lemma {:induction false} DigitsEndShift(c: char, s: string, i: nat)
    requires i <= |s|
    ensures DigitsEnd([c] + s, i + 1) == DigitsEnd(s, i) + 1
    decreases |s| - i
  {
    assert forall k :: 0 <= k < |s| ==> ([c] + s)[k + 1] == s[k];
    if i < |s| && IsDigit(s[i]) {
      DigitsEndShift(c, s, i + 1);
    }
  }

  // ---------------------------------------------------------------------------
  // The C functions.

  /** The state of the C library that the parse touches. */
  class CRuntime {
    var errno: int

    constructor ()
      ensures errno == 0
    {
      errno := 0;
    }

    /** `strtoll(str, &end, 10)`: `errno` changes only on overflow. */
    method StrToLLCall(str: string) returns (value: int, end: nat)
      modifies this
      ensures value == StrToLL(str).value && end == StrToLL(str).end
      ensures errno == if StrToLL(str).outOfRange then ERANGE else old(errno)
    {
      var r := StrToLL(str);
      if r.outOfRange {
        errno := ERANGE;
      }
      return r.value, r.end;
    }

    /**
     * `vtbx_str_to_longlong`: `*ok`, when `ok` is not null, tells whether
     * at least one character was converted without overflow.
     */
    method StrToLongLong(str: string, ok: Cell?<bool>) returns (value: int)
      modifies this, ok
      ensures value == StrToLL(str).value
      ensures errno == if StrToLL(str).outOfRange then ERANGE else 0
      ensures ok != null ==> ok.value == (StrToLL(str).end != 0 && !StrToLL(str).outOfRange)
    {
      errno := 0;
      var end;
      value, end := StrToLLCall(str);
      if ok != null {
        ok.value := end != 0 && errno != ERANGE;
      }
    }

    /**
     * `vtbx_str_to_int`: the `int` cast of the parsed value; `*ok` is also
     * lowered when that cast changes the value.
     */
    method StrToInt(str: string, ok: Cell?<bool>) returns (value: int)
      modifies this, ok
      ensures value == Narrow(StrToLL(str).value, INT_BITS)
      ensures errno == if StrToLL(str).outOfRange then ERANGE else 0
      ensures ok != null ==> ok.value == (StrToLLOk(str) && InSignedRange(StrToLL(str).value, INT_BITS))
    {
      var v := StrToLongLong(str, ok);
      NarrowKeepsIffInRange(v, INT_BITS);
      if ok != null && v != Narrow(v, INT_BITS) {
        ok.value := false;
      }
      value := Narrow(v, INT_BITS);
    }

    /** `vtbx_str_to_long`: the same check against the width of `long`. */
    method StrToLong(model: DataModel, str: string, ok: Cell?<bool>) returns (value: int)
      modifies this, ok
      ensures value == Narrow(StrToLL(str).value, LongBits(model))
      ensures errno == if StrToLL(str).outOfRange then ERANGE else 0
      ensures ok != null ==> ok.value == (StrToLLOk(str) && InSignedRange(StrToLL(str).value, LongBits(model)))
    {
      var v := StrToLongLong(str, ok);
      NarrowKeepsIffInRange(v, LongBits(model));
      if ok != null && v != Narrow(v, LongBits(model)) {
        ok.value := false;
      }
      value := Narrow(v, LongBits(model));
    }
  }

  /** The `*ok` that `vtbx_str_to_longlong` reports. */
  predicate StrToLLOk(str: string) {
    StrToLL(str).end != 0 && !StrToLL(str).outOfRange
  }

  /**
   * With `long` as wide as `long long`, the check of `vtbx_str_to_long`
   * never fires: its result and `*ok` are those of `vtbx_str_to_longlong`.
   */
  lemma {:induction false} StrToLongOnLP64(str: string)
    ensures Narrow(StrToLL(str).value, LongBits(LP64)) == StrToLL(str).value
    ensures InSignedRange(StrToLL(str).value, LongBits(LP64))
  {
    assert XcpMath.Pow2(63) == 0x8000_0000_0000_0000 by {
      Pow2Of63();
    }
    NarrowKeepsIffInRange(StrToLL(str).value, 64);
  }

  lemma {:induction false} Pow2Of63()
    ensures XcpMath.Pow2(63) == 0x8000_0000_0000_0000
  {
    assert XcpMath.Pow2(15) == 0x8000;
    assert XcpMath.Pow2(31) == 0x8000_0000 by {
      XcpMath.Pow2Add(16, 15);
    }
    XcpMath.Pow2Add(32, 31);
  }
}
