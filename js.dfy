/**
 * The few pieces of JavaScript number and string semantics the core relies on:
 * truncation of a time value by `new Date(x)`, the `%` operator on numbers,
 * the decimal rendering of an integer in a template string, and truthiness
 * of strings in `||` chains and `!x` tests.
 */
module Js {

  /** A string is truthy exactly when it is not empty. */
  predicate Truthy(s: string) {
    s != ""
  }

  /** Truncation toward zero (ECMAScript ToIntegerOrInfinity on a finite number). */
  function Trunc(x: real): (r: int)
    ensures x >= 0.0 ==> 0 <= r && r as real <= x < r as real + 1.0
    ensures x < 0.0 ==> r <= 0 && r as real - 1.0 < x <= r as real
  {
    if x >= 0.0 then x.Floor else -((-x).Floor)
  }

  /** Truncation leaves an integral value where it is. */
  lemma TruncIntegral(n: int)
    ensures Trunc(n as real) == n
  {
  }

  /**
   * The `%` operator on numbers: the remainder of a truncating division, so
   * it takes the sign of the dividend (Dafny's own `%` is Euclidean and has
   * no real version).
   */
  function Remainder(a: real, b: real): (r: real)
    requires b != 0.0
    ensures b > 0.0 && a >= 0.0 ==> 0.0 <= r < b
    ensures b > 0.0 && a < 0.0 ==> -b < r <= 0.0
    ensures 0.0 <= a < b ==> r == a
  {
    RemainderBounds(a, b);
    var q := Trunc(a / b);
    a - b * (q as real)
  }

  lemma RemainderBounds(a: real, b: real)
    requires b != 0.0
    ensures var r := a - b * (Trunc(a / b) as real);
            && (b > 0.0 && a >= 0.0 ==> 0.0 <= r < b)
            && (b > 0.0 && a < 0.0 ==> -b < r <= 0.0)
            && (0.0 <= a < b ==> r == a)
  {
    if b > 0.0 {
      RemainderCore(a, b, a / b, Trunc(a / b));
    }
  }

  /** The bounds on `a - b * n` for `n` the truncated quotient `x` of `a` by a positive `b`. */
  lemma RemainderCore(a: real, b: real, x: real, n: int)
    requires b > 0.0 && b * x == a
    requires x >= 0.0 ==> n as real <= x < n as real + 1.0
    requires x < 0.0 ==> n as real - 1.0 < x <= n as real
    ensures a >= 0.0 ==> 0.0 <= a - b * (n as real) < b
    ensures a < 0.0 ==> -b < a - b * (n as real) <= 0.0
    ensures 0.0 <= a < b ==> n == 0
  {
    QuotientSign(a, b, x);
    if a >= 0.0 {
      GapAtLeast(a, b, x, n as real);
      GapBelow(a, b, x, n as real);
    } else {
      GapAbove(a, b, x, n as real);
      GapAtMost(a, b, x, n as real);
    }
  }

  /** A positive divisor keeps the dividend's sign, and a larger one gives a quotient below 1. */
  lemma QuotientSign(a: real, b: real, x: real)
    requires b > 0.0 && b * x == a
    ensures a >= 0.0 <==> x >= 0.0
    ensures 0.0 <= a < b ==> x < 1.0
  {
    if x < 0.0 {
      MulPositive(b, -x);
    } else {
      MulNonNegative(b, x);
    }
    if x >= 1.0 {
      MulNonNegative(b, x - 1.0);
    }
  }

  // One bound each on `a - b * q` when `b * x == a` and `q` is near `x`.

  lemma GapBelow(a: real, b: real, x: real, q: real)
    requires b > 0.0 && b * x == a && x < q + 1.0
    ensures a - b * q < b
  {
    var v := 1.0 - (x - q);
    MulPositive(b, v);
    var p := b * v;
    assert p > 0.0;
    assert p == b - b * x + b * q;
  }

  lemma GapAtLeast(a: real, b: real, x: real, q: real)
    requires b > 0.0 && b * x == a && q <= x
    ensures 0.0 <= a - b * q
  {
    var v := x - q;
    MulNonNegative(b, v);
    var p := b * v;
    assert p >= 0.0;
    assert p == b * x - b * q;
  }

  lemma GapAbove(a: real, b: real, x: real, q: real)
    requires b > 0.0 && b * x == a && q - 1.0 < x
    ensures -b < a - b * q
  {
    var v := 1.0 + (x - q);
    MulPositive(b, v);
    var p := b * v;
    assert p > 0.0;
    assert p == b + b * x - b * q;
  }

  lemma GapAtMost(a: real, b: real, x: real, q: real)
    requires b > 0.0 && b * x == a && x <= q
    ensures a - b * q <= 0.0
  {
    var v := q - x;
    MulNonNegative(b, v);
    var p := b * v;
    assert p >= 0.0;
    assert p == b * q - b * x;
  }

  lemma MulNonNegative(u: real, v: real)
    requires u >= 0.0 && v >= 0.0
    ensures u * v >= 0.0
  {
  }

  lemma MulPositive(u: real, v: real)
    requires u > 0.0 && v > 0.0
    ensures u * v > 0.0
  {
  }

  predicate IsDigit(c: char) {
    '0' <= c <= '9'
  }

  predicate AllDigits(s: string) {
    forall i :: 0 <= i < |s| ==> IsDigit(s[i])
  }

  function DigitChar(d: nat): (c: char)
    requires d < 10
    ensures IsDigit(c) && (c as int) - ('0' as int) == d
  {
    ('0' as int + d) as char
  }

  /** The decimal digits of a natural number, most significant first. */
  function NatToString(n: nat): (s: string)
    ensures |s| >= 1 && AllDigits(s)
    decreases n
  {
    if n < 10 then [DigitChar(n)] else NatToString(n / 10) + [DigitChar(n % 10)]
  }

  /** Reads back a string of decimal digits. */
  function ParseNat(s: string): nat
    requires AllDigits(s)
    decreases |s|
  {
    if s == [] then 0
    else ParseNat(s[..|s| - 1]) * 10 + ((s[|s| - 1] as int) - ('0' as int))
  }

  lemma {:induction false} ParseNatToString(n: nat)
    ensures ParseNat(NatToString(n)) == n
    decreases n
  {
    if n >= 10 {
      var s := NatToString(n);
      assert s[..|s| - 1] == NatToString(n / 10);
      ParseNatToString(n / 10);
    }
  }

  /** `${n}` for an integer n. */
  function IntToString(n: int): (s: string)
    ensures |s| >= 1
    ensures n >= 0 <==> IsDigit(s[0])
  {
    if n < 0 then "-" + NatToString(-n) else NatToString(n)
  }

  /** Distinct natural numbers have distinct digit strings. */
  lemma NatToStringInjective(a: nat, b: nat)
    requires NatToString(a) == NatToString(b)
    ensures a == b
  {
    ParseNatToString(a);
    ParseNatToString(b);
  }

  /** Distinct integers render as distinct strings. */
  lemma IntToStringInjective(a: int, b: int)
    requires IntToString(a) == IntToString(b)
    ensures a == b
  {
    if a < 0 && b < 0 {
      var s := IntToString(a);
      assert NatToString(-a) == s[1..];
      assert NatToString(-b) == s[1..];
      NatToStringInjective(-a, -b);
    } else if a >= 0 && b >= 0 {
      NatToStringInjective(a, b);
    }
  }
}
