/** Numeric helpers shared by the model: Python's `max`, `min`, `abs`, `int()` and `**` on
    exact reals, the square root the source takes from `math.sqrt`, and an
    Option type for methods that return `None`. */
module Numeric {

  datatype Option<+T> = None | Some(value: T)

  function Max(a: real, b: real): (m: real)
    ensures m >= a && m >= b && (m == a || m == b)
  {
    if a >= b then a else b
  }

  function Min(a: real, b: real): (m: real)
    ensures m <= a && m <= b && (m == a || m == b)
  {
    if a <= b then a else b
  }

  /** Python's `abs` on a float. */
  function Abs(x: real): (a: real)
    ensures a >= 0.0 && (a == x || a == -x)
  {
    if x >= 0.0 then x else -x
  }

  /** Dividing and multiplying back by the same nonzero real. */
  lemma QuotientTimesDivisor(a: real, b: real)
    requires b != 0.0
    ensures (a / b) * b == a
  {
  }

  /** A common nonzero factor cancels from a quotient. */
  lemma CancelFactor(a: real, b: real, c: real)
    requires b != 0.0 && c != 0.0
    ensures (c * a) / (b * c) == a / b
  {
    QuotientTimesDivisor(a, b);
    assert (a / b) * (b * c) == c * a;
  }

  /** Multiplying by a positive real keeps the order. */
  lemma MulMonotone(a: real, b: real, c: real)
    requires c > 0.0
    ensures a <= b <==> a * c <= b * c
  {
    assert (b - a) * c == b * c - a * c;
  }

  /** A positive part of a larger whole is a fraction strictly between 0 and 1 of it. */
  lemma FractionBetween(part: real, whole: real)
    requires 0.0 < part < whole
    ensures 0.0 < part / whole < 1.0
  {
    QuotientTimesDivisor(part, whole);
    if part / whole >= 1.0 {
      MulMonotone(1.0, part / whole, whole);
    } else if part / whole <= 0.0 {
      MulMonotone(part / whole, 0.0, whole);
    }
  }

  /** A fraction strictly between 0 and 1 of a positive real is positive
      and below it. */
  lemma FractionOf(f: real, x: real)
    requires 0.0 < f < 1.0 && x > 0.0
    ensures 0.0 < f * x < x
  {
    assert x - f * x == (1.0 - f) * x;
  }

  /** A quotient of a larger positive real by a smaller one exceeds one. */
  lemma QuotientAboveOne(a: real, b: real)
    requires 0.0 < b < a
    ensures a / b > 1.0
  {
    QuotientTimesDivisor(a, b);
    if a / b <= 1.0 {
      MulMonotone(a / b, 1.0, b);
    }
  }

  /** `sqrt` behaves as the exact non-negative square root on the
      non-negative reals (the model's reading of `math.sqrt`). */
  ghost predicate IsSqrt(sqrt: real -> real)
  {
    forall x :: 0.0 <= x ==> 0.0 <= sqrt(x) && sqrt(x) * sqrt(x) == x
  }

  /** A square root that exceeds one belongs to a number above one, and back. */
  lemma RootAboveOne(r: real, x: real)
    requires r >= 0.0 && r * r == x
    ensures r > 1.0 <==> x > 1.0
    ensures r == 1.0 <==> x == 1.0
  {
    if r > 1.0 {
      assert r * r > r * 1.0;
    } else if r < 1.0 {
      assert r * r <= r * 1.0;
    }
  }

  /** Python's `base ** n` for an integer exponent n >= 0. */
  function Pow(base: real, n: nat): real
  {
    if n == 0 then 1.0 else base * Pow(base, n - 1)
  }

  lemma {:induction false} PowPositive(base: real, n: nat)
    requires base > 0.0
    ensures Pow(base, n) > 0.0
  {
    if n > 0 {
      PowPositive(base, n - 1);
      assert base * Pow(base, n - 1) > 0.0;
    }
  }

  /** A base of one stays one under any power. */
  lemma {:induction false} PowOfOne(n: nat)
    ensures Pow(1.0, n) == 1.0
  {
    if n > 0 {
      PowOfOne(n - 1);
    }
  }

  /** A base above one raised to a positive power stays above one. */
  lemma {:induction false} PowAboveOne(base: real, n: nat)
    requires base > 1.0 && n >= 1
    ensures Pow(base, n) > 1.0
  {
    if n > 1 {
      PowAboveOne(base, n - 1);
      assert base * Pow(base, n - 1) > 1.0 * Pow(base, n - 1);
    }
  }

  /** A base in (0, 1) raised to a positive power stays in (0, 1). */
  lemma {:induction false} PowBelowOne(base: real, n: nat)
    requires 0.0 < base < 1.0 && n >= 1
    ensures 0.0 < Pow(base, n) < 1.0
  {
    if n > 1 {
      PowBelowOne(base, n - 1);
      assert base * Pow(base, n - 1) < 1.0 * Pow(base, n - 1);
    }
  }

  /** Python's `int(x)` on a float: truncation toward zero. */
  function TruncToInt(x: real): (r: int)
    ensures 0.0 <= x ==> 0 <= r && r as real <= x < r as real + 1.0
    ensures x < 0.0 ==> r <= 0 && r as real - 1.0 < x <= r as real
  {
    if x >= 0.0 then x.Floor else -((-x).Floor)
  }
}
