/** The parts of <cmath> the renderer calls: sqrt, pow and tan are library code this
    model cannot see, so they are passed in as a value of type CMath whose functions are
    known only through the few facts in Valid(). M_PI is the double constant itself. */
module Numerics {

  /** M_PI as a double literal. */
  const PI: real := 3.141592653589793

  datatype CMath = CMath(sqrt: real -> real, pow: (real, real) -> real, tan: real -> real)
  {
    /** The minimal facts the model relies on. */
    ghost predicate Valid()
    {
      && (forall x :: x >= 0.0 ==> sqrt(x) >= 0.0 && sqrt(x) * sqrt(x) == x)
      && (forall b, e :: b >= 0.0 ==> pow(b, e) >= 0.0)
      && (forall b, e :: b > 0.0 ==> pow(b, e) > 0.0)
    }
  }

  function Max(a: real, b: real): real { if a < b then b else a }

  function Min(a: real, b: real): real { if b < a then b else a }

  /** A square is never negative, and positive away from zero. */
  lemma SquarePositive(x: real)
    ensures !(x * x < 0.0)
    ensures x > 0.0 || x < 0.0 ==> x * x > 0.0
  {
    if x < 0.0 {
      var y := -x;
      assert y * y > 0.0;
      assert x * x == y * y;
    } else if x > 0.0 {
      assert x * x > 0.0;
    }
  }

  /** A sum of three squares is positive when one of them has a non-zero base. */
  lemma SumOfSquaresPositive(a: real, b: real, c: real)
    requires a > 0.0 || a < 0.0
    ensures a * a + b * b + c * c > 0.0
  {
    SquarePositive(a);
    SquarePositive(b);
    SquarePositive(c);
  }

  /** Squaring is strictly increasing on the non-negative reals. */
  lemma SquareMonotone(a: real, b: real)
    requires 0.0 <= a < b
    ensures a * a < b * b
  {
    var d, e := b - a, b + a;
    assert d > 0.0 && e > 0.0;
    assert d * e > 0.0;
    assert b * b - a * a == d * e;
  }

  /** The square root of a square is the non-negative base. */
  lemma SqrtOfSquare(m: CMath, r: real)
    requires m.Valid() && r >= 0.0
    ensures m.sqrt(r * r) == r
  {
    var s := m.sqrt(r * r);
    assert s >= 0.0 && s * s == r * r;
    if s < r {
      SquareMonotone(s, r);
    } else if s > r {
      SquareMonotone(r, s);
    }
  }

  /** The square root of a non-negative number is zero exactly at zero. */
  lemma SqrtZero(m: CMath, x: real)
    requires m.Valid() && x >= 0.0
    ensures m.sqrt(x) == 0.0 <==> x == 0.0
  {
    var r := m.sqrt(x);
    assert r >= 0.0 && r * r == x;
    if r > 0.0 {
      calc {
        x;
      ==
        r * r;
      > { SquarePositive(r); }
        0.0;
      }
    }
  }
}
