/** Points of the machine frame as real triples, and the facts about Euclidean distance
    that the planner, the tracker and the observation builder rely on.

    The square root is a parameter: every member that needs a length takes a function
    `sqrt` constrained only by `IsSqrt`. */
module Geometry {

  datatype Vec = Vec(x: real, y: real, z: real)

  function Add(a: Vec, b: Vec): Vec { Vec(a.x + b.x, a.y + b.y, a.z + b.z) }

  function Sub(a: Vec, b: Vec): Vec { Vec(a.x - b.x, a.y - b.y, a.z - b.z) }

  function Scale(k: real, a: Vec): Vec { Vec(k * a.x, k * a.y, k * a.z) }

  function Dot(a: Vec, b: Vec): real { a.x * b.x + a.y * b.y + a.z * b.z }

  function Cross(a: Vec, b: Vec): Vec {
    Vec(a.y * b.z - a.z * b.y, a.z * b.x - a.x * b.z, a.x * b.y - a.y * b.x)
  }

  /** The point `a * (1 - t) + b * t`. */
  function Lerp(a: Vec, b: Vec, t: real): Vec { Add(Scale(1.0 - t, a), Scale(t, b)) }

  function Abs(a: real): real { if a >= 0.0 then a else -a }

  function Min(a: real, b: real): real { if a <= b then a else b }

  function Max(a: real, b: real): real { if a >= b then a else b }

  function Clip(a: real, lower: real, upper: real): real { Max(lower, Min(upper, a)) }

  ghost predicate RootAt(sqrt: real -> real, a: real) {
    a >= 0.0 ==> sqrt(a) >= 0.0 && sqrt(a) * sqrt(a) == a
  }

  /** `sqrt` is a square root: the only fact used about it. */
  ghost predicate IsSqrt(sqrt: real -> real) {
    forall a: real :: RootAt(sqrt, a)
  }

  function Norm(sqrt: real -> real, v: Vec): real { sqrt(Dot(v, v)) }

  function Dist(sqrt: real -> real, a: Vec, b: Vec): real { Norm(sqrt, Sub(b, a)) }

  lemma ProductPositive(a: real, b: real)
    requires a > 0.0 && b > 0.0
    ensures a * b > 0.0
  {}

  lemma ProductNonNegative(a: real, b: real)
    requires a >= 0.0 && b >= 0.0
    ensures a * b >= 0.0
  {}

  lemma ProductMonotone(a: real, b: real, k: real)
    requires a <= b && k >= 0.0
    ensures a * k <= b * k
  {
    if a < b && k > 0.0 {
      ProductPositive(b - a, k);
      assert (b - a) * k == b * k - a * k;
    }
  }

  lemma ProductStrict(a: real, b: real, k: real)
    requires a < b && k > 0.0
    ensures a * k < b * k
  {
    ProductPositive(b - a, k);
    assert (b - a) * k == b * k - a * k;
  }

  lemma FactorOrder(a: real, b: real, k: real)
    requires k > 0.0 && a * k <= b * k
    ensures a <= b
  {
    if b < a {
      ProductStrict(b, a, k);
    }
  }

  lemma FactorStrictOrder(a: real, b: real, k: real)
    requires k > 0.0 && a * k < b * k
    ensures a < b
  {
    if b <= a {
      ProductMonotone(b, a, k);
    }
  }

  lemma BetweenUp(u: real, d: real)
    requires 0.0 <= u <= 1.0 && d >= 0.0
    ensures 0.0 <= u * d <= d
  {
    ProductMonotone(0.0, u, d);
    ProductMonotone(u, 1.0, d);
  }

  lemma Negated(u: real, d: real, f: real)
    requires f == -d
    ensures u * f == -(u * d)
  {}

  lemma Between(u: real, d: real, e: real)
    requires 0.0 <= u <= 1.0 && e == u * d
    ensures if d >= 0.0 then 0.0 <= e <= d else d <= e <= 0.0
  {
    if d >= 0.0 {
      BetweenUp(u, d);
    } else {
      BetweenDown(u, -d, d, e);
    }
  }

  lemma BetweenDown(u: real, f: real, d: real, e: real)
    requires 0.0 <= u <= 1.0 && f == -d && f >= 0.0 && e == u * d
    ensures d <= e <= 0.0
  {
    Negated(u, d, f);
    BetweenUp(u, f);
    Flip(u * f, e, f, d);
  }

  lemma Flip(p: real, q: real, f: real, d: real)
    requires p == -q && f == -d && 0.0 <= p <= f
    ensures d <= q <= 0.0
  {}

  lemma SquareMonotone(a: real, b: real)
    requires b >= 0.0
    requires a * a <= b * b
    ensures a <= b
  {
    if a > b {
      assert (a - b) * (a + b) == a * a - b * b;
      ProductPositive(a - b, a + b);
    }
  }

  lemma DotNonNegative(v: Vec)
    ensures Dot(v, v) >= 0.0
  {
    assert v.x * v.x >= 0.0 && v.y * v.y >= 0.0 && v.z * v.z >= 0.0;
  }

  lemma NormFacts(sqrt: real -> real, v: Vec)
    requires IsSqrt(sqrt)
    ensures Norm(sqrt, v) >= 0.0
    ensures Norm(sqrt, v) * Norm(sqrt, v) == Dot(v, v)
  {
    DotNonNegative(v);
    assert RootAt(sqrt, Dot(v, v));
  }

  /** There is only one non-negative root. */
  lemma RootUnique(sqrt: real -> real, a: real, r: real)
    requires IsSqrt(sqrt)
    requires r >= 0.0 && r * r == a
    ensures sqrt(a) == r
  {
    assert RootAt(sqrt, a);
    SquareMonotone(sqrt(a), r);
    SquareMonotone(r, sqrt(a));
  }

  lemma RootOfZero(sqrt: real -> real)
    requires IsSqrt(sqrt)
    ensures sqrt(0.0) == 0.0
  {
    RootUnique(sqrt, 0.0, 0.0);
  }

  lemma ZeroDot(v: Vec)
    requires v == Vec(0.0, 0.0, 0.0)
    ensures Dot(v, v) == 0.0
  {}

  lemma ZeroNorm(sqrt: real -> real, v: Vec)
    requires IsSqrt(sqrt) && v == Vec(0.0, 0.0, 0.0)
    ensures Norm(sqrt, v) == 0.0
  {
    RootOfZero(sqrt);
    ZeroDot(v);
  }

  lemma SelfDistance(sqrt: real -> real, p: Vec)
    requires IsSqrt(sqrt)
    ensures Dist(sqrt, p, p) == 0.0
  {
    ZeroNorm(sqrt, Sub(p, p));
  }

  lemma ProductSquare(a: real, b: real)
    ensures (a * b) * (a * b) == (a * a) * (b * b)
  {}

  lemma DotScale(k: real, v: Vec)
    ensures Dot(Scale(k, v), Scale(k, v)) == (k * k) * Dot(v, v)
  {
    ProductSquare(k, v.x);
    ProductSquare(k, v.y);
    ProductSquare(k, v.z);
  }

  lemma NormScale(sqrt: real -> real, k: real, v: Vec)
    requires IsSqrt(sqrt)
    ensures Norm(sqrt, Scale(k, v)) == Abs(k) * Norm(sqrt, v)
  {
    var n := Norm(sqrt, v);
    NormFacts(sqrt, v);
    DotScale(k, v);
    ProductSquare(Abs(k), n);
    RootUnique(sqrt, Dot(Scale(k, v), Scale(k, v)), Abs(k) * n);
  }

  /** Lagrange's identity gives the Cauchy-Schwarz inequality in squared form. */
  lemma CauchySchwarzSquared(a: Vec, b: Vec)
    ensures Dot(a, b) * Dot(a, b) <= Dot(a, a) * Dot(b, b)
  {
    var c := Cross(a, b);
    DotNonNegative(c);
    assert Dot(a, a) * Dot(b, b) - Dot(a, b) * Dot(a, b) == Dot(c, c);
  }

  lemma CauchySchwarz(sqrt: real -> real, a: Vec, b: Vec)
    requires IsSqrt(sqrt)
    ensures Dot(a, b) <= Norm(sqrt, a) * Norm(sqrt, b)
  {
    var m, n := Norm(sqrt, a), Norm(sqrt, b);
    NormFacts(sqrt, a);
    NormFacts(sqrt, b);
    CauchySchwarzSquared(a, b);
    ProductSquare(m, n);
    SquareMonotone(Dot(a, b), m * n);
  }

  lemma TriangleInequality(sqrt: real -> real, a: Vec, b: Vec)
    requires IsSqrt(sqrt)
    ensures Norm(sqrt, Add(a, b)) <= Norm(sqrt, a) + Norm(sqrt, b)
  {
    var m, n, s := Norm(sqrt, a), Norm(sqrt, b), Norm(sqrt, Add(a, b));
    NormFacts(sqrt, a);
    NormFacts(sqrt, b);
    NormFacts(sqrt, Add(a, b));
    CauchySchwarz(sqrt, a, b);
    assert Dot(Add(a, b), Add(a, b)) == Dot(a, a) + 2.0 * Dot(a, b) + Dot(b, b);
    assert (m + n) * (m + n) == m * m + 2.0 * (m * n) + n * n;
    SquareMonotone(s, m + n);
  }

  lemma DistTriangle(sqrt: real -> real, a: Vec, b: Vec, c: Vec)
    requires IsSqrt(sqrt)
    ensures Dist(sqrt, a, c) <= Dist(sqrt, a, b) + Dist(sqrt, b, c)
  {
    assert Sub(c, a) == Add(Sub(b, a), Sub(c, b));
    TriangleInequality(sqrt, Sub(b, a), Sub(c, b));
  }

  lemma DistSymmetric(sqrt: real -> real, a: Vec, b: Vec)
    ensures Dist(sqrt, a, b) == Dist(sqrt, b, a)
  {
    var d, e := Sub(b, a), Sub(a, b);
    assert e.x == -d.x && e.y == -d.y && e.z == -d.z;
    assert Dot(d, d) == Dot(e, e);
  }

  /** A component is no longer than the vector. */
  lemma ComponentBound(sqrt: real -> real, v: Vec)
    requires IsSqrt(sqrt)
    ensures Abs(v.x) <= Norm(sqrt, v)
    ensures Abs(v.y) <= Norm(sqrt, v)
    ensures Abs(v.z) <= Norm(sqrt, v)
  {
    NormFacts(sqrt, v);
    assert v.x * v.x >= 0.0 && v.y * v.y >= 0.0 && v.z * v.z >= 0.0;
    assert Abs(v.x) * Abs(v.x) == v.x * v.x && Abs(v.y) * Abs(v.y) == v.y * v.y && Abs(v.z) * Abs(v.z) == v.z * v.z;
    SquareMonotone(Abs(v.x), Norm(sqrt, v));
    SquareMonotone(Abs(v.y), Norm(sqrt, v));
    SquareMonotone(Abs(v.z), Norm(sqrt, v));
  }

  /** Two points of one segment are as far apart as their parameters, times its length. */
  lemma LerpDistance(sqrt: real -> real, a: Vec, b: Vec, s: real, t: real)
    requires IsSqrt(sqrt)
    ensures Dist(sqrt, Lerp(a, b, s), Lerp(a, b, t)) == Abs(t - s) * Dist(sqrt, a, b)
  {
    LerpDifference(a, b, s, t, t - s);
    NormScale(sqrt, t - s, Sub(b, a));
  }

  lemma LerpDifference(a: Vec, b: Vec, s: real, t: real, k: real)
    requires k == t - s
    ensures Sub(Lerp(a, b, t), Lerp(a, b, s)) == Scale(k, Sub(b, a))
  {
    LerpAxis(a.x, b.x, s, t);
    LerpAxis(a.y, b.y, s, t);
    LerpAxis(a.z, b.z, s, t);
  }

  lemma LerpAxis(a: real, b: real, s: real, t: real)
    ensures ((1.0 - t) * a + t * b) - ((1.0 - s) * a + s * b) == (t - s) * (b - a)
  {}

  lemma ZeroDistance(sqrt: real -> real, a: Vec, b: Vec)
    requires IsSqrt(sqrt)
    requires Dist(sqrt, a, b) <= 0.0
    ensures a == b
  {
    ComponentBound(sqrt, Sub(b, a));
  }
}
