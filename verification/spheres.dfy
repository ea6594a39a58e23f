/** Sphere.h: the sphere of a given radius around `position`. A ray meets it where
    |O + tD - C|^2 = r^2, a quadratic a t^2 + b t + c = 0 in the ray parameter t. */
module Spheres {
  import opened Numerics
  import opened Vectors
  import opened Rays
  import opened SceneObjects
  import opened Hits

  /** Sphere defaults: kD 0.8, kS 1.2, alpha 10, reflectivity 0.3. */
  const SPHERE_KD: real := 0.8
  const SPHERE_KS: real := 1.2
  const SPHERE_ALPHA: real := 10.0
  const SPHERE_REFLECTIVITY: real := 0.3

  datatype Quadratic = Quadratic(a: real, b: real, c: real)
  {
    /** pow(b, 2) - 4ac; pow with exponent 2 is the exact square. */
    function Disc(): real { b * b - 4.0 * a * c }

    predicate IsRoot(t: real) { a * t * t + b * t + c == 0.0 }
  }

  /** a = D.D, b = 2 D.(O - C), c = (O - C).(O - C) - r^2. */
  function Coefficients(position: Vector3, radius: real, ray: Ray): Quadratic
  {
    var oc := Subtract(ray.origin, position);
    Quadratic(Dot(ray.direction, ray.direction), 2.0 * Dot(ray.direction, oc),
              Dot(oc, oc) - radius * radius)
  }

  /** a is never negative and vanishes only for a zero direction, which also makes b and
      the discriminant vanish. */
  lemma CoefficientsFacts(position: Vector3, radius: real, ray: Ray)
    ensures !(Coefficients(position, radius, ray).a < 0.0)
    ensures Coefficients(position, radius, ray).a == 0.0 ==> Coefficients(position, radius, ray).b == 0.0
    ensures Coefficients(position, radius, ray).Disc() > 0.0 ==> Coefficients(position, radius, ray).a > 0.0
  {
    ZeroDirectionFlat(ray.direction, Subtract(ray.origin, position));
    FlatDisc(Coefficients(position, radius, ray));
  }

  lemma ZeroVectorDot(d: Vector3, oc: Vector3)
    ensures IsZero(d) ==> Dot(d, d) == 0.0 && 2.0 * Dot(d, oc) == 0.0
  {
    if IsZero(d) {
      assert d == Vector3(0.0, 0.0, 0.0);
      assert Dot(d, oc) == 0.0 * oc.x + 0.0 * oc.y + 0.0 * oc.z;
    }
  }

  /** A zero direction makes b vanish along with a. */
  lemma ZeroDirectionFlat(d: Vector3, oc: Vector3)
    ensures !(Dot(d, d) < 0.0)
    ensures Dot(d, d) == 0.0 ==> 2.0 * Dot(d, oc) == 0.0
  {
    DotSelfPositive(d);
    if Dot(d, d) == 0.0 {
      assert IsZero(d);
      ZeroVectorDot(d, oc);
    }
  }

  lemma FlatDisc(q: Quadratic)
    ensures q.a == 0.0 && q.b == 0.0 ==> !(q.Disc() > 0.0)
  {
    if q.a == 0.0 && q.b == 0.0 {
      calc {
        q.Disc();
      ==
        q.b * q.b - 4.0 * q.a * q.c;
      ==
        0.0 * 0.0 - 4.0 * 0.0 * q.c;
      ==
        0.0;
      }
    }
  }

  /** One coordinate of |oc + t d|^2, expanded in powers of t. */
  lemma SquareExpansion(o: real, d: real, t: real)
    ensures (o + t * d) * (o + t * d) == (d * d) * t * t + 2.0 * (d * o) * t + o * o
  {
  }

  /** |o + t d|^2 as a polynomial in t. */
  lemma LengthAlongLine(o: Vector3, d: Vector3, t: real)
    ensures var p := Add(o, Scale(d, t));
            Dot(p, p) == Dot(d, d) * t * t + 2.0 * Dot(d, o) * t + Dot(o, o)
  {
    SquareExpansion(o.x, d.x, t);
    SquareExpansion(o.y, d.y, t);
    SquareExpansion(o.z, d.z, t);
  }

  /** The roots of the quadratic are exactly the parameters at which the ray is on the sphere. */
  lemma RootsAreOnSphere(position: Vector3, radius: real, ray: Ray, t: real)
    ensures var p := Subtract(EvaluateAt(ray, t), position);
            Coefficients(position, radius, ray).IsRoot(t) <==> Dot(p, p) == radius * radius
  {
    var oc := Subtract(ray.origin, position);
    var p := Subtract(EvaluateAt(ray, t), position);
    assert p == Add(oc, Scale(ray.direction, t));
    LengthAlongLine(oc, ray.direction, t);
  }

  /** Four a times the quadratic completes the square. */
  lemma CompletedSquare(q: Quadratic, t: real)
    ensures 4.0 * q.a * (q.a * t * t + q.b * t + q.c)
            == (2.0 * q.a * t + q.b) * (2.0 * q.a * t + q.b) - q.Disc()
  {
  }

  /** With a > 0, t is a root exactly when 2at + b is a square root of the discriminant. */
  lemma RootBySquareRoot(q: Quadratic, t: real, s: real)
    requires q.a > 0.0 && 2.0 * q.a * t == -q.b + s
    ensures q.IsRoot(t) <==> s * s == q.Disc()
  {
    CompletedSquare(q, t);
    assert 2.0 * q.a * t + q.b == s;
    var v := q.a * t * t + q.b * t + q.c;
    assert 4.0 * q.a * v == s * s - q.Disc();
    if v > 0.0 || v < 0.0 {
      ProductNonZero(4.0 * q.a, v);
    }
  }

  lemma ProductNonZero(x: real, y: real)
    requires x > 0.0 && (y > 0.0 || y < 0.0)
    ensures x * y > 0.0 || x * y < 0.0
  {
    if y < 0.0 {
      assert x * (-y) > 0.0;
    }
  }

  lemma ProductZero(x: real, y: real)
    requires x * y == 0.0
    ensures x == 0.0 || y == 0.0
  {
    if x > 0.0 && (y > 0.0 || y < 0.0) {
      ProductNonZero(x, y);
    } else if x < 0.0 && (y > 0.0 || y < 0.0) {
      ProductNonZero(-x, y);
    }
  }

  /** With a > 0 and a non-negative discriminant with square root s, every root is
      (-b + s) / 2a or (-b - s) / 2a. */
  lemma RootsAreTheTwoSolutions(q: Quadratic, s: real, t: real)
    requires q.a > 0.0 && s * s == q.Disc() && q.IsRoot(t)
    ensures 2.0 * q.a * t == -q.b + s || 2.0 * q.a * t == -q.b - s
  {
    var u := 2.0 * q.a * t + q.b;
    CompletedSquare(q, t);
    assert 4.0 * q.a * (q.a * t * t + q.b * t + q.c) == 0.0;
    assert u * u - s * s == 0.0;
    assert (u - s) * (u + s) == u * u - s * s;
    ProductZero(u - s, u + s);
  }

  /** A root exists only where the discriminant is non-negative. */
  lemma RootNeedsNonNegativeDisc(q: Quadratic, t: real)
    requires q.a > 0.0 && q.IsRoot(t)
    ensures q.Disc() >= 0.0
  {
    var u := 2.0 * q.a * t + q.b;
    CompletedSquare(q, t);
    assert 4.0 * q.a * (q.a * t * t + q.b * t + q.c) == 0.0;
    calc {
      q.Disc();
    ==
      u * u;
    >= { SquarePositive(u); }
      0.0;
    }
  }

  /** getNormalAt: the unit vector from the centre to the point. */
  function SphereNormalAt(m: CMath, position: Vector3, p: Vector3): Vector3
    requires m.Valid()
  {
    Normalised(m, Subtract(p, position))
  }

  function HitAt(m: CMath, position: Vector3, material: Material, ray: Ray, t: real): Option<RaycastHit>
    requires m.Valid()
  {
    var p := EvaluateAt(ray, t);
    Some(RaycastHit(material, t, p, SphereNormalAt(m, position, p)))
  }

  /** The two solutions of the quadratic when the discriminant is positive, else 0. */
  function Sol1(m: CMath, q: Quadratic): real
    requires m.Valid() && (q.Disc() > 0.0 ==> q.a > 0.0)
  {
    if q.Disc() > 0.0 then (-q.b + m.sqrt(q.Disc())) / (2.0 * q.a) else 0.0
  }

  function Sol2(m: CMath, q: Quadratic): real
    requires m.Valid() && (q.Disc() > 0.0 ==> q.a > 0.0)
  {
    if q.Disc() > 0.0 then (-q.b - m.sqrt(q.Disc())) / (2.0 * q.a) else 0.0
  }

  /** The single solution -b / 2a when the discriminant is zero. When a is also zero (a
      zero direction) the source computes 0 / 0, a NaN that fails every comparison;
      `SolDefined` is false exactly then, and every test on the solution is guarded by it. */
  predicate SolDefined(q: Quadratic)
  {
    q.Disc() == 0.0 && q.a != 0.0
  }

  function Sol(q: Quadratic): real
  {
    if SolDefined(q) then -q.b / (2.0 * q.a) else 0.0
  }

  /** intersectionWith: the sign case analysis on the discriminant and the root selection,
      with every comparison strict as in the source. */
  function SphereIntersection(m: CMath, position: Vector3, radius: real, material: Material, ray: Ray)
    : (h: Option<RaycastHit>)
    requires m.Valid()
    ensures Coefficients(position, radius, ray).Disc() < 0.0 ==> h.None?
    ensures h.Some? ==> && h.value.distance > 0.0
                        && Coefficients(position, radius, ray).IsRoot(h.value.distance)
                        && h == HitAt(m, position, material, ray, h.value.distance)
  {
    var q := Coefficients(position, radius, ray);
    CoefficientsFacts(position, radius, ray);
    var disc := q.Disc();
    var sol1, sol2, sol := Sol1(m, q), Sol2(m, q), Sol(q);
    SolutionsAreRoots(m, q);
    if disc < 0.0 || (sol1 < 0.0 && sol2 < 0.0) || (SolDefined(q) && sol < 0.0) then None
    else if SolDefined(q) && sol > 0.0 then HitAt(m, position, material, ray, sol)
    else if (sol1 > 0.0 && sol2 < 0.0) || (sol1 > 0.0 && sol2 > 0.0 && sol1 < sol2) then
      HitAt(m, position, material, ray, sol1)
    else if (sol2 > 0.0 && sol1 < 0.0) || (sol1 > 0.0 && sol2 > 0.0 && sol1 > sol2) then
      HitAt(m, position, material, ray, sol2)
    else None
  }

  /** Where they are computed, the solutions are roots, and sol2 < sol1. */
  lemma SolutionsAreRoots(m: CMath, q: Quadratic)
    requires m.Valid() && !(q.a < 0.0) && (q.Disc() > 0.0 ==> q.a > 0.0)
    ensures q.Disc() > 0.0 ==> q.IsRoot(Sol1(m, q)) && q.IsRoot(Sol2(m, q)) && Sol2(m, q) < Sol1(m, q)
    ensures SolDefined(q) ==> q.IsRoot(Sol(q))
  {
    if q.Disc() > 0.0 {
      TwoSolutions(m, q);
    }
    if SolDefined(q) {
      DivisionByTwoA(q, -q.b, Sol(q));
      RootBySquareRoot(q, Sol(q), 0.0);
    }
  }

  lemma DivisionByTwoA(q: Quadratic, numerator: real, t: real)
    requires q.a != 0.0 && t == numerator / (2.0 * q.a)
    ensures 2.0 * q.a * t == numerator
  {
  }

  lemma TwoSolutions(m: CMath, q: Quadratic)
    requires m.Valid() && q.Disc() > 0.0 && q.a > 0.0
    ensures q.IsRoot(Sol1(m, q)) && q.IsRoot(Sol2(m, q))
    ensures Sol2(m, q) < Sol1(m, q)
  {
    var s := m.sqrt(q.Disc());
    SqrtZero(m, q.Disc());
    var t1, t2 := Sol1(m, q), Sol2(m, q);
    DivisionByTwoA(q, -q.b + s, t1);
    DivisionByTwoA(q, -q.b - s, t2);
    RootBySquareRoot(q, t1, s);
    assert (-s) * (-s) == s * s;
    RootBySquareRoot(q, t2, -s);
    Ordered(q.a, t1, t2, s);
  }

  lemma Ordered(a: real, t1: real, t2: real, s: real)
    requires a > 0.0 && s > 0.0
    requires 2.0 * a * t1 - 2.0 * a * t2 == 2.0 * s
    ensures t2 < t1
  {
  }

  /** A hit lies on the sphere, and for a sphere of non-zero radius its normal is a unit vector. */
  lemma HitOnSphere(m: CMath, position: Vector3, radius: real, material: Material, ray: Ray)
    requires m.Valid()
    requires SphereIntersection(m, position, radius, material, ray).Some?
    ensures var hit := SphereIntersection(m, position, radius, material, ray).value;
            var offset := Subtract(hit.location, position);
            && Dot(offset, offset) == radius * radius
            && (radius != 0.0 ==> Dot(hit.normal, hit.normal) == 1.0)
  {
    var hit := SphereIntersection(m, position, radius, material, ray).value;
    var offset := Subtract(hit.location, position);
    RootsAreOnSphere(position, radius, ray, hit.distance);
    if radius != 0.0 {
      NonZeroRadius(offset, radius);
      PositiveLengthNonZero(offset);
    }
  }

  lemma NonZeroRadius(offset: Vector3, radius: real)
    requires radius != 0.0 && Dot(offset, offset) == radius * radius
    ensures Dot(offset, offset) > 0.0
  {
    assert radius > 0.0 || radius < 0.0;
    calc {
      Dot(offset, offset);
    ==
      radius * radius;
    > { SquarePositive(radius); }
      0.0;
    }
  }

  /** With a = 0 (so b = 0 too) the source finds no solution and misses. */
  lemma FlatMisses(m: CMath, position: Vector3, radius: real, material: Material, ray: Ray)
    requires m.Valid() && Coefficients(position, radius, ray).a == 0.0
    ensures SphereIntersection(m, position, radius, material, ray).None?
  {
    CoefficientsFacts(position, radius, ray);
    FlatDisc(Coefficients(position, radius, ray));
  }

  /** A ray with a zero direction never hits: the source's -b/2a is 0/0 there. */
  lemma ZeroDirectionMisses(m: CMath, position: Vector3, radius: real, material: Material, ray: Ray)
    requires m.Valid() && ray.direction == Zero
    ensures SphereIntersection(m, position, radius, material, ray).None?
  {
    assert Dot(ray.direction, ray.direction) == 0.0;
    FlatMisses(m, position, radius, material, ray);
  }

  /** Every hit is at the nearest positive root: no root in front of the origin is
      closer than the returned distance. */
  lemma NearestPositiveRoot(m: CMath, position: Vector3, radius: real, material: Material, ray: Ray, t: real)
    requires m.Valid()
    requires SphereIntersection(m, position, radius, material, ray).Some?
    requires t > 0.0 && Coefficients(position, radius, ray).IsRoot(t)
    ensures SphereIntersection(m, position, radius, material, ray).value.distance <= t
  {
    var q := Coefficients(position, radius, ray);
    CoefficientsFacts(position, radius, ray);
    SolutionsAreRoots(m, q);
    if q.a == 0.0 {
      FlatMisses(m, position, radius, material, ray);
      assert false;
    }
    RootNeedsNonNegativeDisc(q, t);
    RootIsASolution(m, q, t);
  }

  /** With a > 0, a root is one of the solutions the source computes. */
  lemma RootIsASolution(m: CMath, q: Quadratic, t: real)
    requires m.Valid() && q.a > 0.0 && q.IsRoot(t) && q.Disc() >= 0.0
    ensures q.Disc() > 0.0 ==> t == Sol1(m, q) || t == Sol2(m, q)
    ensures q.Disc() == 0.0 ==> SolDefined(q) && t == Sol(q)
  {
    if q.Disc() > 0.0 {
      var s := m.sqrt(q.Disc());
      RootsAreTheTwoSolutions(q, s, t);
      DivisionByTwoA(q, -q.b + s, Sol1(m, q));
      DivisionByTwoA(q, -q.b - s, Sol2(m, q));
      SameProduct(2.0 * q.a, t, Sol1(m, q));
      SameProduct(2.0 * q.a, t, Sol2(m, q));
    } else {
      assert 0.0 * 0.0 == q.Disc();
      RootsAreTheTwoSolutions(q, 0.0, t);
      DivisionByTwoA(q, -q.b, Sol(q));
      SameProduct(2.0 * q.a, t, Sol(q));
    }
  }

  lemma SameProduct(k: real, x: real, y: real)
    requires k > 0.0
    ensures k * x == k * y ==> x == y
  {
    if k * x == k * y {
      assert k * (x - y) == 0.0;
      ProductZero(k, x - y);
    }
  }

  /** A miss means no root lies in front of the origin, provided the origin is not on the
      surface (c != 0, so that 0 is not a root). */
  lemma MissMeansNoPositiveRoot(m: CMath, position: Vector3, radius: real, material: Material, ray: Ray, t: real)
    requires m.Valid()
    requires SphereIntersection(m, position, radius, material, ray).None?
    requires Coefficients(position, radius, ray).c != 0.0 && t > 0.0
    ensures !Coefficients(position, radius, ray).IsRoot(t)
  {
    var q := Coefficients(position, radius, ray);
    CoefficientsFacts(position, radius, ray);
    SolutionsAreRoots(m, q);
    if q.IsRoot(t) {
      if q.a == 0.0 {
        FlatRoot(q, t);
      } else {
        RootNeedsNonNegativeDisc(q, t);
        RootIsASolution(m, q, t);
        ZeroIsNotARoot(q);
      }
    }
  }

  lemma FlatRoot(q: Quadratic, t: real)
    requires q.a == 0.0 && q.b == 0.0
    ensures q.IsRoot(t) <==> q.c == 0.0
  {
    calc {
      q.a * t * t + q.b * t + q.c;
    ==
      0.0 * t * t + 0.0 * t + q.c;
    ==
      q.c;
    }
  }

  lemma ZeroIsNotARoot(q: Quadratic)
    ensures q.IsRoot(0.0) <==> q.c == 0.0
  {
  }

  lemma NegativeProduct(x: real, y: real)
    requires x > 0.0 && y < 0.0
    ensures x * y < 0.0
  {
    assert x * (-y) > 0.0;
    assert x * y == -(x * (-y));
  }

  /** Multiplying by a positive k keeps the sign. */
  lemma QuotientSign(k: real, t: real)
    requires k > 0.0
    ensures k * t > 0.0 ==> t > 0.0
    ensures k * t < 0.0 ==> t < 0.0
  {
    if t < 0.0 {
      NegativeProduct(k, t);
    } else if t > 0.0 {
      assert k * t > 0.0;
    } else {
      assert k * t == 0.0;
    }
  }

  /** With c < 0 (the origin strictly inside) the roots straddle zero. */
  lemma InsideRoots(m: CMath, q: Quadratic)
    requires m.Valid() && q.a > 0.0 && q.c < 0.0
    ensures q.Disc() > 0.0 && Sol2(m, q) < 0.0 < Sol1(m, q)
  {
    NegativeProduct(4.0 * q.a, q.c);
    SquarePositive(q.b);
    assert q.Disc() > q.b * q.b;
    var s := m.sqrt(q.Disc());
    RootsStraddleZero(q.b, s);
    QuotientSigns(-q.b + s, 2.0 * q.a);
    QuotientSigns(-q.b - s, 2.0 * q.a);
  }

  /** When s^2 exceeds b^2, the numerators -b + s and -b - s have opposite signs. */
  lemma RootsStraddleZero(b: real, s: real)
    requires s >= 0.0 && s * s > b * b
    ensures -b + s > 0.0 && -b - s < 0.0
  {
    var bb := if b < 0.0 then -b else b;
    assert bb * bb == b * b;
    if s < bb {
      SquareMonotone(s, bb);
    }
    assert s != bb;
  }

  /** Dividing by a positive d keeps the sign. */
  lemma QuotientSigns(n: real, d: real)
    requires d > 0.0
    ensures n > 0.0 ==> n / d > 0.0
    ensures n < 0.0 ==> n / d < 0.0
  {
    var t := n / d;
    assert d * t == n;
    QuotientSign(d, t);
  }

  /** A ray starting strictly inside the sphere leaves it through the far root, sol1. */
  lemma InsideHitsFarRoot(m: CMath, position: Vector3, radius: real, material: Material, ray: Ray)
    requires m.Valid()
    requires Coefficients(position, radius, ray).a > 0.0 && Coefficients(position, radius, ray).c < 0.0
    ensures var q := Coefficients(position, radius, ray);
            SphereIntersection(m, position, radius, material, ray) == HitAt(m, position, material, ray, Sol1(m, q))
  {
    InsideRoots(m, Coefficients(position, radius, ray));
  }

  /** With two roots in front of the origin the nearer one, sol2, is hit. */
  lemma OutsideHitsNearRoot(m: CMath, position: Vector3, radius: real, material: Material, ray: Ray)
    requires m.Valid()
    requires var q := Coefficients(position, radius, ray);
             q.a > 0.0 && q.Disc() > 0.0 && Sol2(m, q) > 0.0
    ensures var q := Coefficients(position, radius, ray);
            SphereIntersection(m, position, radius, material, ray) == HitAt(m, position, material, ray, Sol2(m, q))
  {
    CoefficientsFacts(position, radius, ray);
    SolutionsAreRoots(m, Coefficients(position, radius, ray));
  }

  /** A ray tangent to the sphere (discriminant zero) hits at the touching point -b/2a
      exactly when that point is in front of the origin. */
  lemma TangentHit(m: CMath, position: Vector3, radius: real, material: Material, ray: Ray)
    requires m.Valid()
    requires Coefficients(position, radius, ray).a > 0.0 && Coefficients(position, radius, ray).Disc() == 0.0
    ensures var q := Coefficients(position, radius, ray);
            var h := SphereIntersection(m, position, radius, material, ray);
            && (h.Some? <==> Sol(q) > 0.0)
            && (h.Some? ==> h == HitAt(m, position, material, ray, Sol(q)))
  {
  }

  /** With c = 0, b < 0 and a > 0 the discriminant is b^2, the roots are 0 and -b/a, and
      sol2 is exactly 0. */
  lemma SurfaceRoots(m: CMath, q: Quadratic)
    requires m.Valid() && q.a > 0.0 && q.c == 0.0 && q.b < 0.0
    ensures q.Disc() > 0.0 && Sol2(m, q) == 0.0 && Sol1(m, q) > 0.0
  {
    SquarePositive(q.b);
    calc {
      q.Disc();
    ==
      q.b * q.b - 4.0 * q.a * 0.0;
    ==
      q.b * q.b;
    >
      0.0;
    }
    assert (-q.b) * (-q.b) == q.b * q.b;
    SqrtOfSquare(m, -q.b);
    DivisionByTwoA(q, -q.b + -q.b, Sol1(m, q));
    DivisionByTwoA(q, -q.b - -q.b, Sol2(m, q));
    QuotientSign(2.0 * q.a, Sol1(m, q));
    QuotientSign(2.0 * q.a, Sol2(m, q));
  }

  /** A ray starting on the surface and heading into the sphere misses it, even though the
      far root sol1 lies in front of the origin: the source tests sol2 > 0 and sol2 < 0
      strictly, and sol2 is exactly 0 here. */
  lemma SurfaceOriginHeadingInMisses(m: CMath, position: Vector3, radius: real, material: Material, ray: Ray)
    requires m.Valid()
    requires var q := Coefficients(position, radius, ray);
             q.a > 0.0 && q.c == 0.0 && q.b < 0.0
    ensures var q := Coefficients(position, radius, ray);
            && SphereIntersection(m, position, radius, material, ray).None?
            && Sol1(m, q) > 0.0 && q.IsRoot(Sol1(m, q))
  {
    var q := Coefficients(position, radius, ray);
    SurfaceRoots(m, q);
    SolutionsAreRoots(m, q);
  }
}
