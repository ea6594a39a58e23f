/** Vector3.h: an immutable triple of reals and the algebra the renderer uses. */
module Vectors {
  import opened Numerics

  datatype Vector3 = Vector3(x: real, y: real, z: real)

  /** The single-argument constructor: every component equal to `u`. */
  function Uniform(u: real): (v: Vector3)
    ensures v.x == v.y == v.z == u
  {
    Vector3(u, u, u)
  }

  const Zero: Vector3 := Uniform(0.0)

  function Add(v: Vector3, w: Vector3): Vector3 { Vector3(v.x + w.x, v.y + w.y, v.z + w.z) }

  function AddScalar(v: Vector3, s: real): Vector3 { Vector3(v.x + s, v.y + s, v.z + s) }

  function Subtract(v: Vector3, w: Vector3): Vector3 { Vector3(v.x - w.x, v.y - w.y, v.z - w.z) }

  function SubtractScalar(v: Vector3, s: real): Vector3 { Vector3(v.x - s, v.y - s, v.z - s) }

  /** Scale by a scalar. */
  function Scale(v: Vector3, k: real): Vector3 { Vector3(k * v.x, k * v.y, k * v.z) }

  /** Scale element-wise (the Hadamard product). */
  function Hadamard(v: Vector3, w: Vector3): Vector3 { Vector3(v.x * w.x, v.y * w.y, v.z * w.z) }

  function Dot(v: Vector3, w: Vector3): real { v.x * w.x + v.y * w.y + v.z * w.z }

  function Cross(v: Vector3, w: Vector3): Vector3
  {
    Vector3(v.y * w.z - v.z * w.y, v.z * w.x - v.x * w.z, v.x * w.y - v.y * w.x)
  }

  /** Component-wise equality of doubles, which over the reals is equality of vectors. */
  function Equals(v: Vector3, w: Vector3): (b: bool)
    ensures b <==> v == w
  {
    v.x == w.x && v.y == w.y && v.z == w.z
  }

  function IsZero(v: Vector3): (b: bool)
    ensures b <==> v == Zero
  {
    v.x == 0.0 && v.y == 0.0 && v.z == 0.0
  }

  /** Element-wise library power. */
  function Power(m: CMath, v: Vector3, e: real): (p: Vector3)
    requires m.Valid()
    ensures v.x >= 0.0 && v.y >= 0.0 && v.z >= 0.0 ==> p.x >= 0.0 && p.y >= 0.0 && p.z >= 0.0
  {
    Vector3(m.pow(v.x, e), m.pow(v.y, e), m.pow(v.z, e))
  }

  /** Element-wise reciprocal, defined where no component is zero. */
  function Inv(v: Vector3): (w: Vector3)
    requires v.x != 0.0 && v.y != 0.0 && v.z != 0.0
    ensures Hadamard(v, w) == Uniform(1.0)
  {
    Vector3(1.0 / v.x, 1.0 / v.y, 1.0 / v.z)
  }

  /** A vector's squared length is never negative, and positive unless the vector is zero. */
  lemma DotSelfPositive(v: Vector3)
    ensures !(Dot(v, v) < 0.0)
    ensures Dot(v, v) > 0.0 <==> !IsZero(v)
  {
    SquarePositive(v.x);
    SquarePositive(v.y);
    SquarePositive(v.z);
    if v.x > 0.0 || v.x < 0.0 {
      calc {
        Dot(v, v);
      ==
        v.x * v.x + v.y * v.y + v.z * v.z;
      > { SumOfSquaresPositive(v.x, v.y, v.z); }
        0.0;
      }
    } else if v.y > 0.0 || v.y < 0.0 {
      calc {
        Dot(v, v);
      ==
        v.y * v.y + v.x * v.x + v.z * v.z;
      > { SumOfSquaresPositive(v.y, v.x, v.z); }
        0.0;
      }
    } else if v.z > 0.0 || v.z < 0.0 {
      calc {
        Dot(v, v);
      ==
        v.z * v.z + v.x * v.x + v.y * v.y;
      > { SumOfSquaresPositive(v.z, v.x, v.y); }
        0.0;
      }
    }
  }

  /** The length of `v`: the library square root of its squared length. */
  lemma PositiveLengthNonZero(v: Vector3)
    requires Dot(v, v) > 0.0
    ensures !IsZero(v)
  {
    DotSelfPositive(v);
  }

  function Magnitude(m: CMath, v: Vector3): (r: real)
    requires m.Valid()
    ensures r >= 0.0 && r * r == Dot(v, v)
    ensures r == 0.0 <==> IsZero(v)
  {
    DotSelfPositive(v);
    SqrtZero(m, Dot(v, v));
    m.sqrt(Dot(v, v))
  }

  /** The unit vector along `v`. The zero vector, whose normalisation divides by zero
      in the source, is returned unchanged here. */
  function Normalised(m: CMath, v: Vector3): (u: Vector3)
    requires m.Valid()
    ensures IsZero(v) ==> u == v
    ensures !IsZero(v) ==> Dot(u, u) == 1.0 && u == Scale(v, 1.0 / Magnitude(m, v))
  {
    var mag := Magnitude(m, v);
    if mag == 0.0 then v
    else
      var u := Scale(v, 1.0 / mag);
      UnitAfterScaling(v, mag);
      u
  }

  lemma UnitAfterScaling(v: Vector3, mag: real)
    requires mag > 0.0 && mag * mag == Dot(v, v)
    ensures Dot(Scale(v, 1.0 / mag), Scale(v, 1.0 / mag)) == 1.0
  {
    var k := 1.0 / mag;
    assert k * mag == 1.0;
    calc {
      Dot(Scale(v, k), Scale(v, k));
      (k * v.x) * (k * v.x) + (k * v.y) * (k * v.y) + (k * v.z) * (k * v.z);
      (k * k) * Dot(v, v);
      (k * k) * (mag * mag);
      (k * mag) * (k * mag);
    }
  }

  /** Normalising a vector that already has unit length leaves it unchanged. */
  lemma NormalisedUnit(m: CMath, u: Vector3)
    requires m.Valid() && Dot(u, u) == 1.0
    ensures Normalised(m, u) == u
  {
    SqrtOfSquare(m, 1.0);
    assert Magnitude(m, u) == 1.0;
  }

  /** Mirror `v` about the direction `n`: 2(v.n)n - v. */
  function ReflectIn(v: Vector3, n: Vector3): Vector3 { Subtract(Scale(n, 2.0 * Dot(v, n)), v) }

  // Properties of the algebra

  lemma SubtractUndoesAdd(v: Vector3, w: Vector3, s: real)
    ensures Subtract(Add(v, w), w) == v
    ensures SubtractScalar(AddScalar(v, s), s) == v
  {
  }

  lemma DotSymmetric(v: Vector3, w: Vector3)
    ensures Dot(v, w) == Dot(w, v)
  {
  }

  lemma CrossOrthogonal(v: Vector3, w: Vector3)
    ensures Dot(Cross(v, w), v) == 0.0
    ensures Dot(Cross(v, w), w) == 0.0
  {
  }

  lemma HadamardComponentwise(v: Vector3, w: Vector3)
    ensures Hadamard(v, w) == Vector3(v.x * w.x, v.y * w.y, v.z * w.z)
    ensures Hadamard(v, w) == Hadamard(w, v)
    ensures Hadamard(v, Uniform(1.0)) == v
    ensures Scale(v, 1.0) == v
  {
  }

  /** Dot product is linear in its first argument. */
  lemma DotLinear(v: Vector3, w: Vector3, n: Vector3, k: real)
    ensures Dot(Subtract(Scale(w, k), v), n) == k * Dot(w, n) - Dot(v, n)
  {
  }

  /** Reflecting in a unit normal keeps the component along the normal. */
  lemma ReflectInKeepsNormalComponent(v: Vector3, n: Vector3)
    requires Dot(n, n) == 1.0
    ensures Dot(ReflectIn(v, n), n) == Dot(v, n)
  {
    var k := 2.0 * Dot(v, n);
    DotLinear(v, n, n, k);
    assert Dot(Scale(n, k), n) == k * Dot(n, n);
  }

  /** Reflecting in a unit normal preserves squared length. */
  lemma ReflectInPreservesLength(v: Vector3, n: Vector3)
    requires Dot(n, n) == 1.0 || IsZero(n)
    ensures Dot(ReflectIn(v, n), ReflectIn(v, n)) == Dot(v, v)
  {
    var d := Dot(v, n);
    var r := ReflectIn(v, n);
    assert r == Vector3(2.0 * d * n.x - v.x, 2.0 * d * n.y - v.y, 2.0 * d * n.z - v.z);
    calc {
      Dot(r, r);
      (2.0 * d * n.x - v.x) * (2.0 * d * n.x - v.x)
        + (2.0 * d * n.y - v.y) * (2.0 * d * n.y - v.y)
        + (2.0 * d * n.z - v.z) * (2.0 * d * n.z - v.z);
      4.0 * d * d * Dot(n, n) - 4.0 * d * Dot(v, n) + Dot(v, v);
      { if IsZero(n) { assert d == 0.0; } }
      Dot(v, v);
    }
  }
}
