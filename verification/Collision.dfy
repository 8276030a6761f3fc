/** Obstacle inflation and the sampled collision check of the bucket-tip planner
    (`localmap_core/simple_bucket_tip_planner.py`), and what the samples say about the
    continuous segment between them. */
module Collision {
  import opened Geometry

  /** Lower bound on the spacing of edge samples, in metres. */
  const MINIMUM_STEP := 0.0001

  datatype Axis = AxisX | AxisY | AxisZ

  /** A LocalMap obstacle. Shapes the planner does not know are carried but never tested. */
  datatype Obstacle =
    | BoxObstacle(center: Vec, size: Vec)
    | SphereObstacle(center: Vec, radius: real)
    | CylinderObstacle(center: Vec, radius: real, height: real)
    | UnknownShape(center: Vec)

  datatype CompiledBox = CompiledBox(center: Vec, halfSize: Vec)
  datatype CompiledSphere = CompiledSphere(center: Vec, radius: real)
  datatype CompiledCylinder = CompiledCylinder(center: Vec, radius: real, halfHeight: real)

  datatype Compiled = Compiled(
    boxes: seq<CompiledBox>,
    spheres: seq<CompiledSphere>,
    cylinders: seq<CompiledCylinder>,
    up: Axis)

  function Along(v: Vec, axis: Axis): real {
    match axis
    case AxisX => v.x
    case AxisY => v.y
    case AxisZ => v.z
  }

  /** The part of `v` orthogonal to `axis`. */
  function Across(v: Vec, axis: Axis): Vec {
    match axis
    case AxisX => v.(x := 0.0)
    case AxisY => v.(y := 0.0)
    case AxisZ => v.(z := 0.0)
  }

  predicate InBox(p: Vec, center: Vec, half: Vec) {
    && Abs(center.x - p.x) <= half.x
    && Abs(center.y - p.y) <= half.y
    && Abs(center.z - p.z) <= half.z
  }

  predicate InSphere(sqrt: real -> real, p: Vec, center: Vec, radius: real) {
    Norm(sqrt, Sub(center, p)) <= radius
  }

  predicate InCylinder(sqrt: real -> real, p: Vec, center: Vec, radius: real, halfHeight: real, up: Axis) {
    && Norm(sqrt, Across(Sub(center, p), up)) <= radius
    && Abs(Along(center, up) - Along(p, up)) <= halfHeight
  }

  /** The half extents of a box of the given size grown by `r` on every side. */
  function Grown(size: Vec, r: real): Vec {
    Vec(size.x * 0.5 + r, size.y * 0.5 + r, size.z * 0.5 + r)
  }

  /** `p` lies in `o` grown by `r`; with `r == 0.0` this is the original obstacle. */
  predicate InGrown(sqrt: real -> real, p: Vec, o: Obstacle, r: real, up: Axis) {
    match o
    case BoxObstacle(c, size) => InBox(p, c, Grown(size, r))
    case SphereObstacle(c, radius) => InSphere(sqrt, p, c, radius + r)
    case CylinderObstacle(c, radius, height) => InCylinder(sqrt, p, c, radius + r, height * 0.5 + r, up)
    case UnknownShape(_) => false
  }

  function AddObstacle(c: Compiled, o: Obstacle, r: real): Compiled {
    match o
    case BoxObstacle(center, size) => c.(boxes := c.boxes + [CompiledBox(center, Grown(size, r))])
    case SphereObstacle(center, radius) => c.(spheres := c.spheres + [CompiledSphere(center, radius + r)])
    case CylinderObstacle(center, radius, height) =>
      c.(cylinders := c.cylinders + [CompiledCylinder(center, radius + r, height * 0.5 + r)])
    case UnknownShape(_) => c
  }

  function Compile(obstacles: seq<Obstacle>, r: real, up: Axis): Compiled {
    if obstacles == [] then Compiled([], [], [], up)
    else AddObstacle(Compile(obstacles[..|obstacles| - 1], r, up), obstacles[|obstacles| - 1], r)
  }

  method CompileObstacles(obstacles: seq<Obstacle>, collisionRadius: real, up: Axis) returns (c: Compiled)
    ensures c == Compile(obstacles, collisionRadius, up)
  {
    var boxes: seq<CompiledBox> := [];
    var spheres: seq<CompiledSphere> := [];
    var cylinders: seq<CompiledCylinder> := [];
    for i := 0 to |obstacles|
      invariant Compiled(boxes, spheres, cylinders, up) == Compile(obstacles[..i], collisionRadius, up)
    {
      assert obstacles[..i + 1][..i] == obstacles[..i];
      match obstacles[i]
      case BoxObstacle(center, size) =>
        boxes := boxes + [CompiledBox(center, Grown(size, collisionRadius))];
      case SphereObstacle(center, radius) =>
        spheres := spheres + [CompiledSphere(center, radius + collisionRadius)];
      case CylinderObstacle(center, radius, height) =>
        cylinders := cylinders + [CompiledCylinder(center, radius + collisionRadius, height * 0.5 + collisionRadius)];
      case UnknownShape(_) =>
    }
    assert obstacles[..|obstacles|] == obstacles;
    c := Compiled(boxes, spheres, cylinders, up);
  }

  predicate PointInCollision(sqrt: real -> real, p: Vec, c: Compiled) {
    || (exists b <- c.boxes :: InBox(p, b.center, b.halfSize))
    || (exists s <- c.spheres :: InSphere(sqrt, p, s.center, s.radius))
    || (exists k <- c.cylinders :: InCylinder(sqrt, p, k.center, k.radius, k.halfHeight, c.up))
  }

  /** The compiled arrays test exactly the grown obstacles, whatever their order and mix. */
  lemma {:induction false} CompiledTestIsGrownTest(
    sqrt: real -> real, p: Vec, obstacles: seq<Obstacle>, r: real, up: Axis)
    ensures
      PointInCollision(sqrt, p, Compile(obstacles, r, up)) <==> exists o <- obstacles :: InGrown(sqrt, p, o, r, up)
    ensures Compile(obstacles, r, up).up == up
  {
    if obstacles != [] {
      var n := |obstacles| - 1;
      var rest, last := obstacles[..n], obstacles[n];
      CompiledTestIsGrownTest(sqrt, p, rest, r, up);
      assert obstacles == rest + [last];
      var c, c' := Compile(rest, r, up), Compile(obstacles, r, up);
      assert PointInCollision(sqrt, p, c') <==> PointInCollision(sqrt, p, c) || InGrown(sqrt, p, last, r, up) by {
        AddObstacleAdds(sqrt, p, c, last, r);
      }
    }
  }

  lemma AddObstacleAdds(sqrt: real -> real, p: Vec, c: Compiled, o: Obstacle, r: real)
    ensures
      PointInCollision(sqrt, p, AddObstacle(c, o, r)) <==> PointInCollision(sqrt, p, c) || InGrown(sqrt, p, o, r, c.up)
  {
    var c' := AddObstacle(c, o, r);
    match o
    case BoxObstacle(center, size) =>
      assert forall b :: b in c'.boxes <==> b in c.boxes || b == CompiledBox(center, Grown(size, r));
    case SphereObstacle(center, radius) =>
      assert forall s :: s in c'.spheres <==> s in c.spheres || s == CompiledSphere(center, radius + r);
    case CylinderObstacle(center, radius, height) =>
      assert forall k :: k in c'.cylinders <==>
        k in c.cylinders || k == CompiledCylinder(center, radius + r, height * 0.5 + r);
    case UnknownShape(_) =>
  }

  /** The smallest integer that is at least `a`. */
  function Ceil(a: real): int { -((-a).Floor) }

  function SampleCount(length: real, step: real): (n: nat)
    ensures n >= 2
  {
    var n := Ceil(length / Max(step, MINIMUM_STEP)) + 1;
    if n > 2 then n else 2
  }

  /** Point `i` of `n` evenly spaced points from `start` to `end`, both included. */
  function SamplePoint(start: Vec, end: Vec, i: nat, n: nat): Vec
    requires n >= 2
  {
    Lerp(start, end, i as real / (n - 1) as real)
  }

  predicate SegmentCollides(sqrt: real -> real, start: Vec, end: Vec, c: Compiled, step: real) {
    var n := SampleCount(Dist(sqrt, start, end), step);
    exists i :: 0 <= i < n && PointInCollision(sqrt, SamplePoint(start, end, i, n), c)
  }

  method SegmentInCollision(sqrt: real -> real, start: Vec, end: Vec, c: Compiled, step: real) returns (hit: bool)
    ensures hit == SegmentCollides(sqrt, start, end, c, step)
  {
    var n := SampleCount(Dist(sqrt, start, end), step);
    for i := 0 to n
      invariant forall k :: 0 <= k < i ==> !PointInCollision(sqrt, SamplePoint(start, end, k, n), c)
    {
      var point := SamplePoint(start, end, i, n);
      if PointInCollision(sqrt, point, c) {
        return true;
      }
    }
    return false;
  }

  // ---------------------------------------------------------------- continuous safety

  lemma CeilBound(a: real)
    ensures a <= Ceil(a) as real
  {}

  /** Consecutive samples are never further apart than the checking step. */
  lemma SamplesAreDense(length: real, step: real)
    ensures length <= Max(step, MINIMUM_STEP) * (SampleCount(length, step) - 1) as real
  {
    var s := Max(step, MINIMUM_STEP);
    var m := (SampleCount(length, step) - 1) as real;
    CeilBound(length / s);
    assert length / s <= m;
    assert length == (length / s) * s;
    ProductMonotone(length / s, m, s);
  }

  /** Some sample index is within half a sample of parameter `t`. */
  lemma NearestSample(t: real, n: nat) returns (i: nat)
    requires 0.0 <= t <= 1.0 && n >= 2
    ensures i < n
    ensures Abs(i as real / (n - 1) as real - t) * (n - 1) as real <= 0.5
  {
    var m := (n - 1) as real;
    ProductMonotone(0.0, t, m);
    ProductMonotone(t, 1.0, m);
    i := (t * m + 0.5).Floor;
    var u := i as real / m;
    assert u * m == i as real;
    assert (u - t) * m == i as real - t * m;
    assert (t - u) * m == t * m - i as real;
  }

  /** Every point of the segment is within half a step of one of the tested samples. */
  lemma SegmentCoveredBySamples(sqrt: real -> real, start: Vec, end: Vec, step: real, t: real) returns (i: nat)
    requires IsSqrt(sqrt)
    requires 0.0 <= t <= 1.0
    ensures i < SampleCount(Dist(sqrt, start, end), step)
    ensures Dist(sqrt, Lerp(start, end, t), SamplePoint(start, end, i, SampleCount(Dist(sqrt, start, end), step)))
         <= Max(step, MINIMUM_STEP) / 2.0
  {
    var length, s := Dist(sqrt, start, end), Max(step, MINIMUM_STEP);
    var n := SampleCount(length, step);
    i := NearestSample(t, n);
    var m := (n - 1) as real;
    SamplesAreDense(length, step);
    NearParameters(sqrt, start, end, t, i as real / m, s, m);
  }

  lemma NearParameters(sqrt: real -> real, start: Vec, end: Vec, t: real, u: real, s: real, m: real)
    requires IsSqrt(sqrt) && s >= 0.0
    requires Abs(u - t) * m <= 0.5 && Dist(sqrt, start, end) <= s * m
    ensures Dist(sqrt, Lerp(start, end, t), Lerp(start, end, u)) <= s / 2.0
  {
    LerpDistance(sqrt, start, end, t, u);
    GapBound(Abs(u - t), Dist(sqrt, start, end), s, m);
  }

  lemma GapBound(gap: real, length: real, s: real, m: real)
    requires gap >= 0.0 && s >= 0.0
    requires gap * m <= 0.5 && length <= s * m
    ensures gap * length <= s / 2.0
  {
    ProductMonotone(length, s * m, gap);
    ProductMonotone(gap * m, 0.5, s);
    assert (s * m) * gap == (gap * m) * s;
  }

  lemma AcrossShorter(sqrt: real -> real, v: Vec, axis: Axis)
    requires IsSqrt(sqrt)
    ensures Norm(sqrt, Across(v, axis)) <= Norm(sqrt, v)
    ensures Abs(Along(v, axis)) <= Norm(sqrt, v)
  {
    ComponentBound(sqrt, v);
    NormFacts(sqrt, v);
    NormFacts(sqrt, Across(v, axis));
    assert v.x * v.x >= 0.0 && v.y * v.y >= 0.0 && v.z * v.z >= 0.0;
    SquareMonotone(Norm(sqrt, Across(v, axis)), Norm(sqrt, v));
  }

  lemma AcrossCovers(sqrt: real -> real, p: Vec, q: Vec, c: Vec, r: real, up: Axis)
    requires IsSqrt(sqrt)
    requires Norm(sqrt, Scale(-1.0, Sub(q, p))) <= r
    ensures Norm(sqrt, Across(Sub(c, q), up)) <= Norm(sqrt, Across(Sub(c, p), up)) + r
    ensures Abs(Along(Sub(q, p), up)) <= r
  {
    var back := Scale(-1.0, Sub(q, p));
    AcrossShorter(sqrt, back, up);
    assert Across(Sub(c, q), up) == Add(Across(Sub(c, p), up), Across(back, up));
    TriangleInequality(sqrt, Across(Sub(c, p), up), Across(back, up));
  }

  /** Growing an obstacle by `r` covers every point within `r` of it. */
  lemma GrowthCovers(sqrt: real -> real, p: Vec, q: Vec, o: Obstacle, r: real, up: Axis)
    requires IsSqrt(sqrt)
    requires Dist(sqrt, p, q) <= r
    requires InGrown(sqrt, p, o, 0.0, up)
    ensures InGrown(sqrt, q, o, r, up)
  {
    var d := Sub(q, p);
    ComponentBound(sqrt, d);
    assert Norm(sqrt, Scale(-1.0, d)) == Norm(sqrt, d) by {
      NormScale(sqrt, -1.0, d);
    }
    match o
    case BoxObstacle(c, _) =>
    case SphereObstacle(c, _) =>
      assert Sub(c, q) == Add(Sub(c, p), Scale(-1.0, d));
      TriangleInequality(sqrt, Sub(c, p), Scale(-1.0, d));
    case CylinderObstacle(c, _, _) =>
      AcrossCovers(sqrt, p, q, c, r, up);
    case UnknownShape(_) =>
  }

  /** The point lies in no original obstacle. */
  ghost predicate PointClear(sqrt: real -> real, p: Vec, obstacles: seq<Obstacle>, up: Axis) {
    forall o <- obstacles :: !InGrown(sqrt, p, o, 0.0, up)
  }

  /** No point of the segment lies in an original obstacle. */
  ghost predicate SegmentClear(sqrt: real -> real, start: Vec, end: Vec, obstacles: seq<Obstacle>, up: Axis) {
    forall t: real :: 0.0 <= t <= 1.0 ==> PointClear(sqrt, Lerp(start, end, t), obstacles, up)
  }

  /** A segment that passes the sampled check against obstacles grown by at least half a
      step has no point, sampled or not, inside any original obstacle. */
  lemma CheckedSegmentIsClear(
    sqrt: real -> real, start: Vec, end: Vec, obstacles: seq<Obstacle>, r: real, up: Axis, step: real)
    requires IsSqrt(sqrt)
    requires r >= Max(step, MINIMUM_STEP) / 2.0
    requires !SegmentCollides(sqrt, start, end, Compile(obstacles, r, up), step)
    ensures SegmentClear(sqrt, start, end, obstacles, up)
  {
    forall t: real, o <- obstacles | 0.0 <= t <= 1.0
      ensures !InGrown(sqrt, Lerp(start, end, t), o, 0.0, up)
    {
      if InGrown(sqrt, Lerp(start, end, t), o, 0.0, up) {
        var i := SegmentCoveredBySamples(sqrt, start, end, step, t);
        var q := SamplePoint(start, end, i, SampleCount(Dist(sqrt, start, end), step));
        GrowthCovers(sqrt, Lerp(start, end, t), q, o, r, up);
        CompiledTestIsGrownTest(sqrt, q, obstacles, r, up);
        assert false;
      }
    }
  }

  /** Passing the check always means the continuous segment is clear. */
  ghost predicate CheckIsSound(sqrt: real -> real, r: real, up: Axis, step: real) {
    forall start: Vec, end: Vec, obstacles: seq<Obstacle> ::
      !SegmentCollides(sqrt, start, end, Compile(obstacles, r, up), step) ==>
        SegmentClear(sqrt, start, end, obstacles, up)
  }

  lemma SegmentOfLength(sqrt: real -> real, s: real) returns (a: Vec, b: Vec)
    requires IsSqrt(sqrt) && s > 0.0
    ensures Dist(sqrt, a, b) == s
  {
    a, b := Vec(0.0, 0.0, 0.0), Vec(s, 0.0, 0.0);
    RootUnique(sqrt, Dot(Sub(b, a), Sub(b, a)), s);
  }

  /** The midpoint is half the length away from both ends. */
  lemma Midpoint(sqrt: real -> real, a: Vec, b: Vec, t: real)
    requires IsSqrt(sqrt)
    requires t == 0.5
    ensures Norm(sqrt, Sub(Lerp(a, b, t), a)) == t * Dist(sqrt, a, b)
    ensures Norm(sqrt, Sub(Lerp(a, b, t), b)) == t * Dist(sqrt, a, b)
  {
    var d := Sub(b, a);
    assert Sub(Lerp(a, b, t), a) == Scale(t, d);
    assert Sub(Lerp(a, b, t), b) == Scale(-t, d);
    NormScale(sqrt, t, d);
    NormScale(sqrt, -t, d);
  }

  lemma OneStepIsTwoSamples(step: real)
    ensures SampleCount(Max(step, MINIMUM_STEP), step) == 2
  {
    var s := Max(step, MINIMUM_STEP);
    assert s / s == 1.0;
  }

  lemma TwoSamples(sqrt: real -> real, start: Vec, end: Vec, c: Compiled, step: real)
    requires SampleCount(Dist(sqrt, start, end), step) == 2
    requires !PointInCollision(sqrt, start, c) && !PointInCollision(sqrt, end, c)
    ensures !SegmentCollides(sqrt, start, end, c, step)
  {
    assert SamplePoint(start, end, 0, 2) == start;
    assert SamplePoint(start, end, 1, 2) == end;
  }

  /** A point obstacle hits what is within the collision radius of it. */
  lemma PointObstacleTest(sqrt: real -> real, p: Vec, at: Vec, r: real, up: Axis)
    ensures PointInCollision(sqrt, p, Compile([SphereObstacle(at, 0.0)], r, up)) <==> Norm(sqrt, Sub(at, p)) <= r
  {
    var obstacles := [SphereObstacle(at, 0.0)];
    CompiledTestIsGrownTest(sqrt, p, obstacles, r, up);
    assert obstacles[0] in obstacles;
    assert InGrown(sqrt, p, obstacles[0], r, up) <==> Norm(sqrt, Sub(at, p)) <= r;
  }

  lemma InPointObstacle(sqrt: real -> real, p: Vec, center: Vec, up: Axis)
    requires Norm(sqrt, Sub(center, p)) <= 0.0
    ensures !PointClear(sqrt, p, [SphereObstacle(center, 0.0)], up)
  {
    var obstacles := [SphereObstacle(center, 0.0)];
    assert obstacles[0] in obstacles && InGrown(sqrt, p, obstacles[0], 0.0, up);
  }

  lemma PointObstacleHitsItself(sqrt: real -> real, p: Vec, up: Axis)
    requires IsSqrt(sqrt)
    ensures !PointClear(sqrt, p, [SphereObstacle(p, 0.0)], up)
  {
    SelfDistance(sqrt, p);
    InPointObstacle(sqrt, p, p, up);
  }

  lemma HitMidway(sqrt: real -> real, start: Vec, end: Vec, obstacles: seq<Obstacle>, up: Axis, t: real, p: Vec)
    requires 0.0 <= t <= 1.0 && Lerp(start, end, t) == p
    requires !PointClear(sqrt, p, obstacles, up)
    ensures !SegmentClear(sqrt, start, end, obstacles, up)
  {}

  /** A point obstacle halfway along a one-step segment escapes too small a radius: only the
      two ends are tested, and both are half a step away. */
  lemma EscapesCheck(sqrt: real -> real, a: Vec, b: Vec, t: real, r: real, up: Axis, step: real)
    requires IsSqrt(sqrt)
    requires t == 0.5
    requires Dist(sqrt, a, b) == Max(step, MINIMUM_STEP) > 2.0 * r
    ensures !SegmentCollides(sqrt, a, b, Compile([SphereObstacle(Lerp(a, b, t), 0.0)], r, up), step)
  {
    var middle := Lerp(a, b, t);
    Midpoint(sqrt, a, b, t);
    PointObstacleTest(sqrt, a, middle, r, up);
    PointObstacleTest(sqrt, b, middle, r, up);
    OneStepIsTwoSamples(step);
    TwoSamples(sqrt, a, b, Compile([SphereObstacle(middle, 0.0)], r, up), step);
  }

  lemma MissedObstacle(sqrt: real -> real, a: Vec, b: Vec, t: real, r: real, up: Axis, step: real)
    requires IsSqrt(sqrt)
    requires t == 0.5
    requires Dist(sqrt, a, b) == Max(step, MINIMUM_STEP) > 2.0 * r
    ensures !CheckIsSound(sqrt, r, up, step)
  {
    var obstacles := [SphereObstacle(Lerp(a, b, t), 0.0)];
    EscapesCheck(sqrt, a, b, t, r, up, step);
    PointObstacleHitsItself(sqrt, Lerp(a, b, t), up);
    HitMidway(sqrt, a, b, obstacles, up, t, Lerp(a, b, t));
    NotSound(sqrt, a, b, obstacles, r, up, step);
  }

  lemma NotSound(
    sqrt: real -> real, a: Vec, b: Vec, obstacles: seq<Obstacle>, r: real, up: Axis, step: real)
    requires !SegmentCollides(sqrt, a, b, Compile(obstacles, r, up), step)
    requires !SegmentClear(sqrt, a, b, obstacles, up)
    ensures !CheckIsSound(sqrt, r, up, step)
  {}

  /** The sampled check is sound for every segment and every obstacle list exactly when the
      collision radius is at least half the (floored) checking step. */
  lemma RadiusConditionIsExact(sqrt: real -> real, r: real, up: Axis, step: real)
    requires IsSqrt(sqrt)
    ensures CheckIsSound(sqrt, r, up, step) <==> r >= Max(step, MINIMUM_STEP) / 2.0
  {
    if r >= Max(step, MINIMUM_STEP) / 2.0 {
      forall start: Vec, end: Vec, obstacles: seq<Obstacle>
        | !SegmentCollides(sqrt, start, end, Compile(obstacles, r, up), step)
        ensures SegmentClear(sqrt, start, end, obstacles, up)
      {
        CheckedSegmentIsClear(sqrt, start, end, obstacles, r, up, step);
      }
    } else {
      var a, b := SegmentOfLength(sqrt, Max(step, MINIMUM_STEP));
      MissedObstacle(sqrt, a, b, 0.5, r, up, step);
    }
  }
}
