/** The samples around a point of an edge, and how far around an accepted edge the obstacles
    keep (the sampled check of `localmap_core/simple_bucket_tip_planner.py`). */
module EdgeClearance {
  import opened Geometry
  import opened Collision

  // ------------------------------------------------------------------ the samples around a point

  lemma FloorBelow(w: real, n: nat) returns (i: nat, u: real)
    requires n >= 2 && 0.0 <= w <= (n - 1) as real
    ensures i + 1 < n && 0.0 <= u <= 1.0 && w == i as real + u
  {
    i := if w.Floor == n - 1 then n - 2 else w.Floor;
    u := w - i as real;
  }

  lemma SampleBelow(t: real, n: nat) returns (i: nat, u: real)
    requires 0.0 <= t <= 1.0 && n >= 2
    ensures i + 1 < n && 0.0 <= u <= 1.0
    ensures t * (n - 1) as real == i as real + u
  {
    var m := (n - 1) as real;
    Between(t, m, t * m);
    i, u := FloorBelow(t * m, n);
  }

  lemma Bracketed(i: real, u: real, m: real, t: real, a: real, b: real, j: real)
    requires m > 0.0 && t * m == i + u && a == i / m && b == j / m && j == i + 1.0
    ensures (b - a) * m == 1.0
    ensures t - a == u * (b - a)
  {
    assert a * m == i && b * m == j;
    assert (b - a) * m == 1.0;
    assert (t - a) * m == u;
    var w := b - a;
    SameProduct(t - a, u * w, m, u, w);
  }

  lemma SameProduct(x: real, y: real, m: real, u: real, w: real)
    requires m > 0.0 && x * m == u && y == u * w && w * m == 1.0
    ensures x == y
  {
    assert y * m == u * (w * m);
    FactorOrder(x, y, m);
    FactorOrder(y, x, m);
  }

  lemma ShareOfLength(length: real, s: real, m: real, w: real)
    requires m > 0.0 && w * m == 1.0 && length <= s * m && length >= 0.0
    ensures w >= 0.0 && w * length <= s
  {
    if w < 0.0 {
      ProductPositive(-w, m);
    }
    ProductMonotone(length, s * m, w);
    assert (s * m) * w == s * (w * m);
  }

  /** Every point of the segment lies between two neighbouring samples. */
  lemma BetweenSamples(sqrt: real -> real, start: Vec, end: Vec, step: real, t: real)
    returns (i: nat, u: real, a: real, b: real)
    requires IsSqrt(sqrt) && 0.0 <= t <= 1.0
    ensures
      var n := SampleCount(Dist(sqrt, start, end), step);
      i + 1 < n && Lerp(start, end, a) == SamplePoint(start, end, i, n)
      && Lerp(start, end, b) == SamplePoint(start, end, i + 1, n)
    ensures 0.0 <= u <= 1.0 && t - a == u * (b - a)
    ensures Dist(sqrt, Lerp(start, end, a), Lerp(start, end, b)) <= Max(step, MINIMUM_STEP)
  {
    var n := SampleCount(Dist(sqrt, start, end), step);
    var m := (n - 1) as real;
    i, u := SampleBelow(t, n);
    a, b := i as real / m, (i + 1) as real / m;
    Bracketed(i as real, u, m, t, a, b, (i + 1) as real);
    StepBetween(sqrt, start, end, a, b, b - a, m, step);
  }

  lemma LengthWithinSteps(sqrt: real -> real, start: Vec, end: Vec, step: real, length: real, m: real)
    requires IsSqrt(sqrt) && length == Dist(sqrt, start, end) && m == (SampleCount(length, step) - 1) as real
    ensures 0.0 <= length <= Max(step, MINIMUM_STEP) * m
  {
    NormFacts(sqrt, Sub(end, start));
    SamplesAreDense(length, step);
  }

  lemma StepBetween(sqrt: real -> real, start: Vec, end: Vec, a: real, b: real, w: real, m: real, step: real)
    requires IsSqrt(sqrt) && m > 0.0 && w == b - a && w * m == 1.0
    requires m == (SampleCount(Dist(sqrt, start, end), step) - 1) as real
    ensures Dist(sqrt, Lerp(start, end, a), Lerp(start, end, b)) <= Max(step, MINIMUM_STEP)
  {
    LengthWithinSteps(sqrt, start, end, step, Dist(sqrt, start, end), m);
    ShareOfLength(Dist(sqrt, start, end), Max(step, MINIMUM_STEP), m, w);
    LerpDistance(sqrt, start, end, a, b);
  }

  lemma WithinStep(sqrt: real -> real, v: Vec, s: real)
    requires IsSqrt(sqrt) && Norm(sqrt, v) <= s
    ensures Dot(v, v) <= s * s
  {
    NormFacts(sqrt, v);
    var n := Norm(sqrt, v);
    ProductMonotone(n, s, n);
    ProductMonotone(n, s, s);
  }

  // ------------------------------------------------------------- the tube around an edge

  /** Obstacles grown by `r` and samples at most `s` apart leave everything within `gap` of the
      edge free. */
  predicate TubeCovers(r: real, s: real, gap: real) {
    r >= 0.0 && s * s + 4.0 * (gap * gap) <= 4.0 * (r * r)
  }

  /** Stewart's identity on one axis: `q` divides the segment from `y` to `z` at `u`. */
  lemma StewartAxis(x: real, y: real, z: real, q: real, u: real, v: real)
    requires u + v == 1.0 && q == v * y + u * z
    ensures
      v * ((x - y) * (x - y)) + u * ((x - z) * (x - z))
      == (x - q) * (x - q) + (u * v) * ((z - y) * (z - y))
  {
    var a, b := x - y, x - z;
    Weighted(x, y, z, u, v);
    assert x - q == v * a + u * b;
    assert z - y == a - b;
    StewartSquares(a, b, u, v);
  }

  lemma Weighted(x: real, y: real, z: real, u: real, v: real)
    requires u + v == 1.0
    ensures v * (x - y) + u * (x - z) == x - (v * y + u * z)
  {
    assert v * x + u * x == (u + v) * x;
  }

  lemma StewartSquares(a: real, b: real, u: real, v: real)
    requires u + v == 1.0
    ensures v * (a * a) + u * (b * b) == (v * a + u * b) * (v * a + u * b) + (u * v) * ((a - b) * (a - b))
  {
    var p, q, c := a * a, b * b, a * b;
    SquareOfMix(a, b, u, v);
    assert (a - b) * (a - b) == p - 2.0 * c + q;
    Spread(u * v, p, c, q);
    Absorb(u, v, p);
    Absorb(v, u, q);
  }

  lemma SquareOfMix(a: real, b: real, u: real, v: real)
    ensures (v * a + u * b) * (v * a + u * b)
            == (v * v) * (a * a) + 2.0 * ((u * v) * (a * b)) + (u * u) * (b * b)
  {}

  lemma Spread(k: real, p: real, c: real, q: real)
    ensures k * (p - 2.0 * c + q) == k * p - 2.0 * (k * c) + k * q
  {}

  lemma Absorb(u: real, v: real, p: real)
    requires u + v == 1.0
    ensures v * p == (v * v) * p + (u * v) * p
  {
    assert (v * v) * p + (u * v) * p == ((v + u) * v) * p;
  }

  /** `q` divides the segment from `y` to `z` at `u`. */
  predicate Divides(y: Vec, z: Vec, q: Vec, u: real, v: real) {
    q.x == v * y.x + u * z.x && q.y == v * y.y + u * z.y && q.z == v * y.z + u * z.z
  }

  lemma DotAxes(d: Vec, x: real, y: real, z: real)
    requires d.x * d.x == x && d.y * d.y == y && d.z * d.z == z
    ensures Dot(d, d) == x + y + z
  {}

  /** The weights add up axis by axis. */
  lemma SumOfAxes(u: real, v: real, k: real, a: Vec, b: Vec, c: Vec, d: Vec)
    requires v * a.x + u * b.x == c.x + k * d.x
    requires v * a.y + u * b.y == c.y + k * d.y
    requires v * a.z + u * b.z == c.z + k * d.z
    ensures
      v * (a.x + a.y + a.z) + u * (b.x + b.y + b.z) == (c.x + c.y + c.z) + k * (d.x + d.y + d.z)
  {
    Distribute(v, a.x, a.y, a.z);
    Distribute(u, b.x, b.y, b.z);
    Distribute(k, d.x, d.y, d.z);
  }

  lemma Distribute(k: real, a: real, b: real, c: real)
    ensures k * (a + b + c) == k * a + k * b + k * c
  {}

  function Squares(d: Vec): Vec { Vec(d.x * d.x, d.y * d.y, d.z * d.z) }

  lemma SquaresAdd(d: Vec, s: Vec)
    requires s == Squares(d)
    ensures Dot(d, d) == s.x + s.y + s.z
  {}

  lemma Stewart(x: Vec, y: Vec, z: Vec, q: Vec, u: real, v: real, k: real)
    requires u + v == 1.0 && k == u * v && Divides(y, z, q, u, v)
    ensures
      v * Dot(Sub(x, y), Sub(x, y)) + u * Dot(Sub(x, z), Sub(x, z))
      == Dot(Sub(x, q), Sub(x, q)) + k * Dot(Sub(z, y), Sub(z, y))
  {
    StewartAxis(x.x, y.x, z.x, q.x, u, v);
    StewartAxis(x.y, y.y, z.y, q.y, u, v);
    StewartAxis(x.z, y.z, z.z, q.z, u, v);
    StewartSum(Sub(x, y), Sub(x, z), Sub(x, q), Sub(z, y), u, v, k);
  }

  lemma StewartSum(a: Vec, b: Vec, c: Vec, d: Vec, u: real, v: real, k: real)
    requires v * (a.x * a.x) + u * (b.x * b.x) == c.x * c.x + k * (d.x * d.x)
    requires v * (a.y * a.y) + u * (b.y * b.y) == c.y * c.y + k * (d.y * d.y)
    requires v * (a.z * a.z) + u * (b.z * b.z) == c.z * c.z + k * (d.z * d.z)
    ensures v * Dot(a, a) + u * Dot(b, b) == Dot(c, c) + k * Dot(d, d)
  {
    SumOfAxes(u, v, k, Squares(a), Squares(b), Squares(c), Squares(d));
    SquaresAdd(a, Squares(a));
    SquaresAdd(b, Squares(b));
    SquaresAdd(c, Squares(c));
    SquaresAdd(d, Squares(d));
  }

  lemma MixOfMixes(t: real, a: real, b: real, u: real, v: real)
    requires u + v == 1.0 && t - a == u * (b - a)
    ensures t == v * a + u * b
  {
    assert u * (b - a) == u * b - u * a;
    assert v * a + u * a == (u + v) * a;
  }

  lemma MixFromStart(p: real, d: real, t: real, a: real, b: real, u: real, v: real, y: real, z: real, q: real)
    requires u + v == 1.0 && t == v * a + u * b
    requires y == p + a * d && z == p + b * d && q == p + t * d
    ensures q == v * y + u * z
  {
    Scaled(v, p, a, d, y);
    Scaled(u, p, b, d, z);
    MixTimes(t, v * a, u * b, d);
    WholeOf(p, u, v);
  }

  lemma Scaled(v: real, p: real, a: real, d: real, y: real)
    requires y == p + a * d
    ensures v * y == v * p + (v * a) * d
  {
    assert v * (p + a * d) == v * p + v * (a * d);
  }

  lemma MixTimes(t: real, a: real, b: real, d: real)
    requires t == a + b
    ensures t * d == a * d + b * d
  {}

  lemma WholeOf(m: real, u: real, v: real)
    requires u + v == 1.0
    ensures v * m + u * m == m
  {
    assert v * m + u * m == (u + v) * m;
  }

  lemma LerpPoint(start: Vec, end: Vec, t: real, d: Vec)
    requires d == Sub(end, start)
    ensures Lerp(start, end, t) == Vec(start.x + t * d.x, start.y + t * d.y, start.z + t * d.z)
  {
    OnAxis(start.x, end.x, t, d.x);
    OnAxis(start.y, end.y, t, d.y);
    OnAxis(start.z, end.z, t, d.z);
  }

  lemma OnAxis(p: real, w: real, t: real, d: real)
    requires d == w - p
    ensures (1.0 - t) * p + t * w == p + t * d
  {
    assert (1.0 - t) * p == p - t * p;
    assert t * (w - p) == t * w - t * p;
  }

  lemma DividesFrom(
    p: Vec, d: Vec, a: real, b: real, t: real, u: real, v: real, y: Vec, z: Vec, q: Vec)
    requires u + v == 1.0 && t == v * a + u * b
    requires y == Vec(p.x + a * d.x, p.y + a * d.y, p.z + a * d.z)
    requires z == Vec(p.x + b * d.x, p.y + b * d.y, p.z + b * d.z)
    requires q == Vec(p.x + t * d.x, p.y + t * d.y, p.z + t * d.z)
    ensures Divides(y, z, q, u, v)
  {
    MixFromStart(p.x, d.x, t, a, b, u, v, y.x, z.x, q.x);
    MixFromStart(p.y, d.y, t, a, b, u, v, y.y, z.y, q.y);
    MixFromStart(p.z, d.z, t, a, b, u, v, y.z, z.z, q.z);
  }

  /** A point of the edge divides the step between the samples around it. */
  lemma LerpDivides(start: Vec, end: Vec, a: real, b: real, t: real, u: real, v: real)
    requires u + v == 1.0 && t - a == u * (b - a)
    ensures Divides(Lerp(start, end, a), Lerp(start, end, b), Lerp(start, end, t), u, v)
  {
    var d := Sub(end, start);
    MixOfMixes(t, a, b, u, v);
    LerpPoint(start, end, a, d);
    LerpPoint(start, end, b, d);
    LerpPoint(start, end, t, d);
    DividesFrom(start, d, a, b, t, u, v, Lerp(start, end, a), Lerp(start, end, b), Lerp(start, end, t));
  }

  lemma QuarterAtMost(u: real, v: real)
    requires u + v == 1.0
    ensures u * v <= 0.25
  {
    assert (u - v) * (u - v) >= 0.0;
    assert (u + v) * (u + v) == (u - v) * (u - v) + 4.0 * (u * v);
  }

  /** A weighted mean within a bound has a member within it. */
  lemma OneIsWithin(a: real, b: real, u: real, v: real, m: real)
    requires u >= 0.0 && v >= 0.0 && u + v == 1.0 && v * a + u * b <= m
    ensures a <= m || b <= m
  {
    if a > m && b > m {
      MeanBeyond(a, b, u, v, m);
    }
  }

  lemma MeanBeyond(a: real, b: real, u: real, v: real, m: real)
    requires u >= 0.0 && v >= 0.0 && u + v == 1.0 && a > m && b > m
    ensures v * a + u * b > m
  {
    WholeOf(m, u, v);
    if u > 0.0 {
      ProductMonotone(m, a, v);
      ProductStrict(m, b, u);
      AddUp(v * a, u * b, v * m, u * m, m);
    } else {
      ProductStrict(m, a, v);
      ProductMonotone(m, b, u);
      AddUp(u * b, v * a, u * m, v * m, m);
    }
  }

  lemma AddUp(p: real, q: real, p': real, q': real, m: real)
    requires p >= p' && q > q' && p' + q' == m
    ensures p + q > m
  {}

  lemma SpreadWithin(k: real, d: real, s: real)
    requires 0.0 <= k <= 0.25 && 0.0 <= d <= s * s
    ensures k * d <= s * s / 4.0
  {
    ProductMonotone(k, 0.25, d);
  }

  lemma FromSquare(sqrt: real -> real, a: Vec, b: Vec, bound: real)
    requires IsSqrt(sqrt) && bound >= 0.0 && Dot(Sub(a, b), Sub(a, b)) <= bound * bound
    ensures Dist(sqrt, a, b) <= bound
  {
    NormFacts(sqrt, Sub(a, b));
    SquareMonotone(Norm(sqrt, Sub(a, b)), bound);
    DistSymmetric(sqrt, a, b);
  }

  /** One of two samples with a point `q` of the edge between them is within the radius of
      everything near `q`. */
  lemma OneSampleIsNear(
    sqrt: real -> real, x: Vec, y: Vec, z: Vec, q: Vec, u: real, v: real, r: real, s: real, gap: real)
    requires IsSqrt(sqrt) && u >= 0.0 && v >= 0.0 && u + v == 1.0 && Divides(y, z, q, u, v)
    requires Dist(sqrt, y, z) <= s && Dist(sqrt, q, x) <= gap && TubeCovers(r, s, gap)
    ensures Dist(sqrt, x, y) <= r || Dist(sqrt, x, z) <= r
  {
    SquaresNear(sqrt, x, y, z, q, u, v, u * v, r, s, gap);
    if Dot(Sub(x, y), Sub(x, y)) <= r * r {
      FromSquare(sqrt, x, y, r);
    } else {
      FromSquare(sqrt, x, z, r);
    }
  }

  lemma SquaresNear(
    sqrt: real -> real, x: Vec, y: Vec, z: Vec, q: Vec, u: real, v: real, k: real, r: real, s: real, gap: real)
    requires IsSqrt(sqrt) && u >= 0.0 && v >= 0.0 && u + v == 1.0 && k == u * v && Divides(y, z, q, u, v)
    requires Dist(sqrt, y, z) <= s && Dist(sqrt, q, x) <= gap && TubeCovers(r, s, gap)
    ensures Dot(Sub(x, y), Sub(x, y)) <= r * r || Dot(Sub(x, z), Sub(x, z)) <= r * r
  {
    Stewart(x, y, z, q, u, v, k);
    VectorsNear(sqrt, Sub(x, y), Sub(x, z), Sub(x, q), Sub(z, y), u, v, k, r, s, gap);
  }

  lemma VectorsNear(
    sqrt: real -> real, a: Vec, b: Vec, c: Vec, d: Vec, u: real, v: real, k: real, r: real, s: real, gap: real)
    requires IsSqrt(sqrt) && u >= 0.0 && v >= 0.0 && u + v == 1.0 && k == u * v
    requires v * Dot(a, a) + u * Dot(b, b) == Dot(c, c) + k * Dot(d, d)
    requires Norm(sqrt, d) <= s && Norm(sqrt, c) <= gap && TubeCovers(r, s, gap)
    ensures Dot(a, a) <= r * r || Dot(b, b) <= r * r
  {
    WithinStep(sqrt, c, gap);
    WithinStep(sqrt, d, s);
    OneSquareIsNear(Dot(a, a), Dot(b, b), Dot(c, c), Dot(d, d), u, v, k, r, s, gap);
  }

  lemma OneSquareIsNear(
    a: real, b: real, c: real, d: real, u: real, v: real, k: real, r: real, s: real, gap: real)
    requires u >= 0.0 && v >= 0.0 && u + v == 1.0 && k == u * v && v * a + u * b == c + k * d
    requires c <= gap * gap && d <= s * s && TubeCovers(r, s, gap)
    ensures a <= r * r || b <= r * r
  {
    QuarterAtMost(u, v);
    ProductNonNegative(u, v);
    SpreadAtMost(k, d, s);
    OneIsWithin(a, b, u, v, r * r);
  }

  lemma SpreadAtMost(k: real, d: real, s: real)
    requires 0.0 <= k <= 0.25 && d <= s * s
    ensures k * d <= s * s / 4.0
  {
    if d >= 0.0 {
      SpreadWithin(k, d, s);
    } else {
      ProductNonNegative(k, -d);
      assert k * (-d) == -(k * d);
    }
  }

  lemma SampleKeepsClear(sqrt: real -> real, x: Vec, z: Vec, obstacles: seq<Obstacle>, r: real, up: Axis)
    requires IsSqrt(sqrt) && Dist(sqrt, x, z) <= r
    requires !PointInCollision(sqrt, z, Compile(obstacles, r, up))
    ensures PointClear(sqrt, x, obstacles, up)
  {
    CompiledTestIsGrownTest(sqrt, z, obstacles, r, up);
    forall o <- obstacles
      ensures !InGrown(sqrt, x, o, 0.0, up)
    {
      if InGrown(sqrt, x, o, 0.0, up) {
        GrowthCovers(sqrt, x, z, o, r, up);
      }
    }
  }

  /** Everything within `gap` of an accepted edge is outside the original obstacles. */
  lemma TubeIsClear(
    sqrt: real -> real, start: Vec, end: Vec, obstacles: seq<Obstacle>, r: real, up: Axis, step: real, gap: real,
    t: real, x: Vec)
    requires IsSqrt(sqrt) && TubeCovers(r, Max(step, MINIMUM_STEP), gap)
    requires !SegmentCollides(sqrt, start, end, Compile(obstacles, r, up), step)
    requires 0.0 <= t <= 1.0 && Dist(sqrt, Lerp(start, end, t), x) <= gap
    ensures PointClear(sqrt, x, obstacles, up)
  {
    var n := SampleCount(Dist(sqrt, start, end), step);
    var i, u, a, b := BetweenSamples(sqrt, start, end, step, t);
    LerpDivides(start, end, a, b, t, u, 1.0 - u);
    OneSampleIsNear(
      sqrt, x, Lerp(start, end, a), Lerp(start, end, b), Lerp(start, end, t), u, 1.0 - u, r,
      Max(step, MINIMUM_STEP), gap);
    var k := if Dist(sqrt, x, Lerp(start, end, a)) <= r then i else i + 1;
    SampleKeepsClear(sqrt, x, SamplePoint(start, end, k, n), obstacles, r, up);
  }

  // ------------------------------------------------------------------ the tube is no wider

  /** `x` is within `gap` of an accepted edge. */
  predicate BesideAccepted(
    sqrt: real -> real, r: real, up: Axis, step: real, gap: real, start: Vec, end: Vec, obstacles: seq<Obstacle>,
    t: real, x: Vec)
  {
    && !SegmentCollides(sqrt, start, end, Compile(obstacles, r, up), step)
    && 0.0 <= t <= 1.0 && Dist(sqrt, Lerp(start, end, t), x) <= gap
  }

  /** The tube of half width `gap` around every accepted edge is clear. */
  ghost predicate EdgesClearTubes(sqrt: real -> real, r: real, up: Axis, step: real, gap: real) {
    forall start: Vec, end: Vec, obstacles: seq<Obstacle>, t: real, x: Vec
      | BesideAccepted(sqrt, r, up, step, gap, start, end, obstacles, t, x)
      :: PointClear(sqrt, x, obstacles, up)
  }

  lemma CornerDot(d: Vec, h: real, gap: real)
    requires d.x * d.x == h * h && d.y == gap && d.z == 0.0
    ensures Dot(d, d) == h * h + gap * gap
  {}

  /** A point beside the middle of a one-step edge is too far from both ends. */
  lemma EndIsFar(sqrt: real -> real, d: Vec, h: real, s: real, r: real, gap: real)
    requires IsSqrt(sqrt) && h == s / 2.0 && d.x * d.x == h * h && d.y == gap && d.z == 0.0
    requires r < 0.0 || s * s + 4.0 * (gap * gap) > 4.0 * (r * r)
    ensures Norm(sqrt, d) > r
  {
    var n := Norm(sqrt, d);
    NormFacts(sqrt, d);
    CornerDot(d, h, gap);
    assert 4.0 * (h * h) == s * s;
    if n <= r {
      ProductMonotone(n, r, n);
      ProductMonotone(n, r, r);
    }
  }

  lemma NegatedSquare(a: real, b: real)
    requires a == -b
    ensures a * a == b * b
  {}

  lemma BesideMiddle(sqrt: real -> real, q: Vec, x: Vec, gap: real)
    requires IsSqrt(sqrt) && gap >= 0.0 && x.x == q.x && x.y - q.y == gap && x.z == q.z
    ensures Dist(sqrt, q, x) == gap
  {
    CornerDot(Sub(x, q), 0.0, gap);
    RootUnique(sqrt, Dot(Sub(x, q), Sub(x, q)), gap);
  }

  lemma MiddleOfX(y: Vec, z: Vec, q: Vec, t: real)
    requires t == 0.5 && y.x + z.x == q.x + q.x && y.y == z.y == q.y && y.z == z.z == q.z
    ensures Lerp(y, z, t) == q
  {
    HalfSum(y.x, z.x, q.x, t);
    HalfSum(y.y, z.y, q.y, t);
    HalfSum(y.z, z.z, q.z, t);
  }

  lemma HalfSum(a: real, b: real, c: real, t: real)
    requires t == 0.5 && a + b == c + c
    ensures (1.0 - t) * a + t * b == c
  {}

  lemma StepLength(sqrt: real -> real, y: Vec, z: Vec, s: real)
    requires IsSqrt(sqrt) && s >= 0.0 && z.x - y.x == s && y.y == z.y && y.z == z.z
    ensures Dist(sqrt, y, z) == s
  {
    LengthDot(Sub(z, y), s);
    RootUnique(sqrt, s * s, s);
  }

  lemma LengthDot(d: Vec, s: real)
    requires d == Vec(s, 0.0, 0.0)
    ensures Dot(d, d) == s * s
  {}

  /** The edge is accepted: both ends, the only samples, are out of reach of the point. */
  lemma PointBesideEscapes(
    sqrt: real -> real, r: real, up: Axis, step: real, y: Vec, z: Vec, x: Vec, s: real, h: real, gap: real)
    requires IsSqrt(sqrt) && s == Max(step, MINIMUM_STEP) && h == s / 2.0
    requires x.x - y.x == h && z.x - x.x == h && x.y - y.y == gap && x.y - z.y == gap
    requires x.z == y.z && x.z == z.z && y.y == z.y && y.z == z.z
    requires r < 0.0 || s * s + 4.0 * (gap * gap) > 4.0 * (r * r)
    ensures !SegmentCollides(sqrt, y, z, Compile([SphereObstacle(x, 0.0)], r, up), step)
  {
    NegatedSquare(x.x - z.x, h);
    EndIsFar(sqrt, Sub(x, y), h, s, r, gap);
    EndIsFar(sqrt, Sub(x, z), h, s, r, gap);
    PointObstacleTest(sqrt, y, x, r, up);
    PointObstacleTest(sqrt, z, x, r, up);
    StepLength(sqrt, y, z, s);
    OneStepIsTwoSamples(step);
    TwoSamples(sqrt, y, z, Compile([SphereObstacle(x, 0.0)], r, up), step);
  }

  lemma PointBeside(h: real, gap: real) returns (y: Vec, z: Vec, q: Vec, x: Vec)
    ensures x.x - y.x == h && z.x - x.x == h && x.y - y.y == gap && x.y - z.y == gap
    ensures x.z == y.z && x.z == z.z && y.y == z.y && y.z == z.z
    ensures x.x == q.x && x.y - q.y == gap && x.z == q.z
    ensures y.x + z.x == q.x + q.x && y.y == z.y == q.y && y.z == z.z == q.z
  {
    y, z := Vec(-h, 0.0, 0.0), Vec(h, 0.0, 0.0);
    q, x := Vec(0.0, 0.0, 0.0), Vec(0.0, gap, 0.0);
  }

  lemma TubeNotClear(
    sqrt: real -> real, r: real, up: Axis, step: real, gap: real, y: Vec, z: Vec, q: Vec, x: Vec, t: real)
    requires IsSqrt(sqrt) && 0.0 <= t <= 1.0 && Lerp(y, z, t) == q && Dist(sqrt, q, x) == gap
    requires !SegmentCollides(sqrt, y, z, Compile([SphereObstacle(x, 0.0)], r, up), step)
    ensures !EdgesClearTubes(sqrt, r, up, step, gap)
  {
    assert BesideAccepted(sqrt, r, up, step, gap, y, z, [SphereObstacle(x, 0.0)], t, x);
    PointObstacleHitsItself(sqrt, x, up);
  }

  lemma NarrowTube(sqrt: real -> real, r: real, up: Axis, step: real, gap: real, s: real, h: real)
    requires IsSqrt(sqrt) && gap >= 0.0 && s == Max(step, MINIMUM_STEP) && h == s / 2.0
    requires r < 0.0 || s * s + 4.0 * (gap * gap) > 4.0 * (r * r)
    ensures !EdgesClearTubes(sqrt, r, up, step, gap)
  {
    var t := 0.5;
    var y, z, q, x := PointBeside(h, gap);
    PointBesideEscapes(sqrt, r, up, step, y, z, x, s, h, gap);
    MiddleOfX(y, z, q, t);
    BesideMiddle(sqrt, q, x, gap);
    TubeNotClear(sqrt, r, up, step, gap, y, z, q, x, t);
  }

  /** Everything within `gap` of every accepted edge is clear of the original obstacles if and
      only if the radius reaches, from the nearer of two samples a step apart, a point that far
      beside their middle. */
  lemma TubeConditionIsExact(sqrt: real -> real, r: real, up: Axis, step: real, gap: real)
    requires IsSqrt(sqrt) && gap >= 0.0
    ensures EdgesClearTubes(sqrt, r, up, step, gap) <==> TubeCovers(r, Max(step, MINIMUM_STEP), gap)
  {
    if TubeCovers(r, Max(step, MINIMUM_STEP), gap) {
      forall start: Vec, end: Vec, obstacles: seq<Obstacle>, t: real, x: Vec
        | BesideAccepted(sqrt, r, up, step, gap, start, end, obstacles, t, x)
        ensures PointClear(sqrt, x, obstacles, up)
      {
        TubeIsClear(sqrt, start, end, obstacles, r, up, step, gap, t, x);
      }
    } else {
      NarrowTube(sqrt, r, up, step, gap, Max(step, MINIMUM_STEP), Max(step, MINIMUM_STEP) / 2.0);
    }
  }
}
