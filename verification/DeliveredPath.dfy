/** What the edge checks of the planner say about the polyline it delivers: the waypoints of
    `plan_bucket_tip_path` (`localmap_core/simple_bucket_tip_planner.py`) after resampling. */
module DeliveredPath {
  import opened Geometry
  import opened Collision
  import opened EdgeClearance
  import opened PathShaping
  import opened RrtPlanner
  import opened Workspace
  import opened Wrappers

  // ------------------------------------------------------------- spacing of the waypoints

  /** The arc length at which the point for distance `d` really lies: a segment too short to
      interpolate is represented by its start. */
  function ArcOf(c: seq<real>, d: real): real
    requires |c| >= 2
  {
    ArcAt(c, SegmentIndex(c, d), Ratio(c, SegmentIndex(c, d), d))
  }

  function ArcAt(c: seq<real>, i: nat, r: real): real
    requires i + 1 < |c|
  {
    c[i] + r * (c[i + 1] - c[i])
  }

  lemma ArcIsNear(c: seq<real>, d: real)
    requires |c| >= 2 && c[0] <= d <= c[|c| - 1]
    ensures var i := SegmentIndex(c, d); c[i] <= ArcOf(c, d) <= c[i + 1]
    ensures d - DEGENERATE_LENGTH <= ArcOf(c, d) <= d
  {
    var i := SegmentIndex(c, d);
    SearchHolds(c, d);
    var local := c[i + 1] - c[i];
    if local > DEGENERATE_LENGTH {
      QuotientTimes(d - c[i], local);
    }
  }

  lemma QuotientTimes(a: real, b: real)
    requires b > 0.0
    ensures (a / b) * b == a
  {}

  lemma SearchIsMonotone(c: seq<real>, d: real, e: real, i: nat)
    requires i <= |c| && d <= e
    ensures SearchRight(c, d, i) <= SearchRight(c, e, i)
    decreases |c| - i
  {
    if i < |c| && c[i] <= d {
      SearchIsMonotone(c, d, e, i + 1);
    }
  }

  lemma ToNextVertex(sqrt: real -> real, a: Vec, b: Vec, r: real, local: real)
    requires IsSqrt(sqrt) && 0.0 <= r <= 1.0 && local == Dist(sqrt, a, b)
    ensures Dist(sqrt, Lerp(a, b, r), b) == local - r * local
    ensures Dist(sqrt, a, Lerp(a, b, r)) == r * local
  {
    LerpAtOne(a, b);
    LerpAtZero(a, b);
    LerpDistance(sqrt, a, b, r, 1.0);
    LerpDistance(sqrt, a, b, 0.0, r);
    assert (1.0 - r) * local == local - r * local;
  }

  lemma SameSegment(sqrt: real -> real, a: Vec, b: Vec, r: real, q: real, local: real)
    requires IsSqrt(sqrt) && r <= q && local == Dist(sqrt, a, b)
    ensures Dist(sqrt, Lerp(a, b, r), Lerp(a, b, q)) == q * local - r * local
  {
    LerpDistance(sqrt, a, b, r, q);
    assert (q - r) * local == q * local - r * local;
  }

  lemma RatioGrows(c: seq<real>, i: nat, d: real, e: real)
    requires i + 1 < |c| && d <= e
    ensures Ratio(c, i, d) <= Ratio(c, i, e)
  {
    var local := c[i + 1] - c[i];
    if local > DEGENERATE_LENGTH {
      QuotientGrows(d - c[i], e - c[i], local);
    }
  }

  lemma QuotientGrows(a: real, b: real, k: real)
    requires a <= b && k > 0.0
    ensures a / k <= b / k
  {
    QuotientTimes(a, k);
    QuotientTimes(b, k);
    FactorOrder(a / k, b / k, k);
  }

  /** `c` holds arc lengths along `path`: exact between neighbours, and never less than the
      distance of two points. */
  ghost predicate ArcTable(sqrt: real -> real, path: seq<Vec>, c: seq<real>) {
    && |c| == |path| >= 2
    && (forall i, j :: 0 <= i && j == i + 1 < |c| ==> Dist(sqrt, path[i], path[j]) == c[j] - c[i])
    && (forall i, j :: 0 <= i <= j < |c| ==> Dist(sqrt, path[i], path[j]) <= c[j] - c[i])
  }

  lemma CumulativeIsTable(sqrt: real -> real, path: seq<Vec>)
    requires IsSqrt(sqrt) && |path| >= 2
    ensures ArcTable(sqrt, path, Cumulative(sqrt, path))
  {
    CumulativeSteps(sqrt, path, Cumulative(sqrt, path));
    CumulativeBounds(sqrt, path, Cumulative(sqrt, path));
  }

  lemma CumulativeSteps(sqrt: real -> real, path: seq<Vec>, c: seq<real>)
    requires IsSqrt(sqrt) && |path| >= 2 && c == Cumulative(sqrt, path)
    ensures forall i, j :: 0 <= i && j == i + 1 < |c| ==> Dist(sqrt, path[i], path[j]) == c[j] - c[i]
  {
    forall i, j | 0 <= i && j == i + 1 < |c|
      ensures Dist(sqrt, path[i], path[j]) == c[j] - c[i]
    {
      CumulativeStep(sqrt, path, i);
    }
  }

  lemma CumulativeBounds(sqrt: real -> real, path: seq<Vec>, c: seq<real>)
    requires IsSqrt(sqrt) && |path| >= 2 && c == Cumulative(sqrt, path)
    ensures forall i, j :: 0 <= i <= j < |c| ==> Dist(sqrt, path[i], path[j]) <= c[j] - c[i]
  {
    forall i, j | 0 <= i <= j < |c|
      ensures Dist(sqrt, path[i], path[j]) <= c[j] - c[i]
    {
      ArcBoundsDistance(sqrt, path, i, j);
    }
  }

  /** From a point of one segment to a point of a later one, by way of the ends between them. */
  lemma AroundCorners(
    sqrt: real -> real, a: Vec, b: Vec, u: Vec, v: Vec, r: real, q: real, c: seq<real>, i: nat, j: nat)
    requires IsSqrt(sqrt) && 0.0 <= r <= 1.0 && 0.0 <= q <= 1.0 && i < j && j + 1 < |c|
    requires Dist(sqrt, a, b) == c[i + 1] - c[i] && Dist(sqrt, u, v) == c[j + 1] - c[j]
    requires Dist(sqrt, b, u) <= c[j] - c[i + 1]
    ensures Dist(sqrt, Lerp(a, b, r), Lerp(u, v, q)) <= ArcAt(c, j, q) - ArcAt(c, i, r)
  {
    ToNextVertex(sqrt, a, b, r, c[i + 1] - c[i]);
    ToNextVertex(sqrt, u, v, q, c[j + 1] - c[j]);
    DistTriangle(sqrt, Lerp(a, b, r), b, u);
    DistTriangle(sqrt, Lerp(a, b, r), u, Lerp(u, v, q));
  }

  lemma AlongSegment(sqrt: real -> real, a: Vec, b: Vec, r: real, q: real, c: seq<real>, i: nat)
    requires IsSqrt(sqrt) && r <= q && i + 1 < |c| && Dist(sqrt, a, b) == c[i + 1] - c[i]
    ensures Dist(sqrt, Lerp(a, b, r), Lerp(a, b, q)) == ArcAt(c, i, q) - ArcAt(c, i, r)
  {
    SameSegment(sqrt, a, b, r, q, c[i + 1] - c[i]);
  }

  lemma ChordOnOneSegment(sqrt: real -> real, path: seq<Vec>, c: seq<real>, d: real, e: real, i: nat)
    requires IsSqrt(sqrt) && ArcTable(sqrt, path, c) && d <= e
    requires SegmentIndex(c, d) == i && SegmentIndex(c, e) == i
    ensures Dist(sqrt, PointAt(path, c, d), PointAt(path, c, e)) <= ArcOf(c, e) - ArcOf(c, d)
  {
    TableStep(sqrt, path, c, i);
    RatioGrows(c, i, d, e);
    AlongSegment(sqrt, path[i], path[i + 1], Ratio(c, i, d), Ratio(c, i, e), c, i);
  }

  ghost predicate ChordFits(sqrt: real -> real, p: Vec, q: Vec, a: real, b: real) {
    Dist(sqrt, p, q) <= b - a
  }

  lemma PointOnSegment(path: seq<Vec>, c: seq<real>, d: real, i: nat)
    requires |path| == |c| >= 2 && SegmentIndex(c, d) == i
    ensures PointAt(path, c, d) == Lerp(path[i], path[i + 1], Ratio(c, i, d))
    ensures ArcOf(c, d) == ArcAt(c, i, Ratio(c, i, d))
  {}

  lemma ChordOverSegments(
    sqrt: real -> real, path: seq<Vec>, c: seq<real>, i: nat, j: nat, r: real, q: real)
    requires IsSqrt(sqrt) && ArcTable(sqrt, path, c) && i < j && j + 1 < |c|
    requires 0.0 <= r <= 1.0 && 0.0 <= q <= 1.0
    ensures
      ChordFits(
        sqrt, Lerp(path[i], path[i + 1], r), Lerp(path[j], path[j + 1], q), ArcAt(c, i, r), ArcAt(c, j, q))
  {
    TableStep(sqrt, path, c, i);
    TableStep(sqrt, path, c, j);
    TableBound(sqrt, path, c, i + 1, j);
    AroundCorners(sqrt, path[i], path[i + 1], path[j], path[j + 1], r, q, c, i, j);
  }

  lemma ChordOverCorners(sqrt: real -> real, path: seq<Vec>, c: seq<real>, d: real, e: real, i: nat, j: nat)
    requires IsSqrt(sqrt) && ArcTable(sqrt, path, c) && c[0] <= d <= e <= c[|c| - 1]
    requires SegmentIndex(c, d) == i < SegmentIndex(c, e) == j
    ensures ChordFits(sqrt, PointAt(path, c, d), PointAt(path, c, e), ArcOf(c, d), ArcOf(c, e))
  {
    PointOnSegment(path, c, d, i);
    PointOnSegment(path, c, e, j);
    RatioOfPoint(c, d);
    RatioOfPoint(c, e);
    ChordOverSegments(sqrt, path, c, i, j, Ratio(c, i, d), Ratio(c, j, e));
  }

  /** Two points of the path are no further apart than the arc between them. */
  lemma ChordWithinArc(sqrt: real -> real, path: seq<Vec>, c: seq<real>, d: real, e: real)
    requires IsSqrt(sqrt) && ArcTable(sqrt, path, c)
    requires c[0] <= d <= e <= c[|c| - 1]
    ensures Dist(sqrt, PointAt(path, c, d), PointAt(path, c, e)) <= ArcOf(c, e) - ArcOf(c, d)
  {
    SearchIsMonotone(c, d, e, 1);
    if SegmentIndex(c, d) == SegmentIndex(c, e) {
      ChordOnOneSegment(sqrt, path, c, d, e, SegmentIndex(c, d));
    } else {
      ChordOverCorners(sqrt, path, c, d, e, SegmentIndex(c, d), SegmentIndex(c, e));
    }
  }

  lemma TableBound(sqrt: real -> real, path: seq<Vec>, c: seq<real>, i: nat, j: nat)
    requires ArcTable(sqrt, path, c) && i <= j < |c|
    ensures Dist(sqrt, path[i], path[j]) <= c[j] - c[i]
  {}

  lemma TableStep(sqrt: real -> real, path: seq<Vec>, c: seq<real>, i: nat)
    requires ArcTable(sqrt, path, c) && i + 1 < |c|
    ensures Dist(sqrt, path[i], path[i + 1]) == c[i + 1] - c[i]
  {}

  lemma RatioOfPoint(c: seq<real>, d: real)
    requires |c| >= 2 && c[0] <= d <= c[|c| - 1]
    ensures 0.0 <= Ratio(c, SegmentIndex(c, d), d) <= 1.0
  {
    SearchHolds(c, d);
    RatioInRange(c, SegmentIndex(c, d), d);
  }

  lemma SpacedStep(total: real, k: nat, count: nat)
    requires count >= 2 && k + 1 < count && total >= 0.0
    ensures Spaced(total, k + 1, count) - Spaced(total, k, count) == total / (count - 1) as real
    ensures Spaced(total, k, count) <= Spaced(total, k + 1, count)
  {
    var m := (count - 1) as real;
    var a, b := k as real / m, (k + 1) as real / m;
    QuotientSplits(k as real, 1.0, m);
    assert b - a == 1.0 / m;
    SpreadOver(total, a, b, 1.0 / m, m);
  }

  lemma QuotientSplits(a: real, b: real, m: real)
    requires m > 0.0
    ensures (a + b) / m == a / m + b / m
  {}

  lemma SpreadOver(total: real, a: real, b: real, u: real, m: real)
    requires m > 0.0 && total >= 0.0 && b - a == u && u == 1.0 / m
    ensures total * b - total * a == total / m
    ensures total * a <= total * b
  {
    assert total * b - total * a == total * u;
    UnitShare(total, u, m);
  }

  lemma UnitShare(total: real, u: real, m: real)
    requires m > 0.0 && u == 1.0 / m && total >= 0.0
    ensures total * u == total / m && total * u >= 0.0
  {
    ProductNonNegative(total, u);
  }

  /** The distance between neighbouring waypoints, unless they are the route's own points. */
  function Spacing(sqrt: real -> real, path: seq<Vec>, count: nat): real
    requires path != [] && count >= 2
  {
    ArcLength(sqrt, path) / (count - 1) as real
  }

  /** The chord of two points is no longer than their distance, up to a degenerate segment. */
  lemma ChordWithinDistance(
    sqrt: real -> real, path: seq<Vec>, c: seq<real>, d: real, e: real, p: Vec, q: Vec)
    requires IsSqrt(sqrt) && ArcTable(sqrt, path, c)
    requires c[0] <= d <= e <= c[|c| - 1]
    requires p == PointAt(path, c, d) && q == PointAt(path, c, e)
    ensures Dist(sqrt, p, q) <= e - d + DEGENERATE_LENGTH
  {
    ChordWithinArc(sqrt, path, c, d, e);
    ArcIsNear(c, d);
    ArcIsNear(c, e);
  }

  lemma NeighboursAt(sqrt: real -> real, path: seq<Vec>, count: nat, k: nat)
    requires |path| >= 2 && count >= 2 && k < count && |path| != count
    requires ArcLength(sqrt, path) > DEGENERATE_LENGTH
    ensures |Resample(sqrt, path, Some(count))| == count
    ensures
      Resample(sqrt, path, Some(count))[k]
      == PointAt(path, Cumulative(sqrt, path), Spaced(ArcLength(sqrt, path), k, count))
  {}

  lemma SpacedChord(sqrt: real -> real, path: seq<Vec>, total: real, d: real, e: real, p: Vec, q: Vec)
    requires IsSqrt(sqrt) && |path| >= 2 && total == ArcLength(sqrt, path) && 0.0 <= d <= e <= total
    requires p == PointAt(path, Cumulative(sqrt, path), d) && q == PointAt(path, Cumulative(sqrt, path), e)
    ensures Dist(sqrt, p, q) <= e - d + DEGENERATE_LENGTH
  {
    TotalIsLast(sqrt, path);
    CumulativeIsTable(sqrt, path);
    ChordWithinDistance(sqrt, path, Cumulative(sqrt, path), d, e, p, q);
  }

  lemma RegularNeighbours(sqrt: real -> real, path: seq<Vec>, count: nat, k: nat, j: nat, out: seq<Vec>, total: real)
    requires IsSqrt(sqrt) && |path| >= 2 && count >= 2 && j == k + 1 < count && |path| != count
    requires ArcLength(sqrt, path) == total > DEGENERATE_LENGTH
    requires out == Resample(sqrt, path, Some(count)) && |out| == count
    ensures Dist(sqrt, out[k], out[j]) <= Spaced(total, j, count) - Spaced(total, k, count) + DEGENERATE_LENGTH
  {
    NeighboursAt(sqrt, path, count, k);
    NeighboursAt(sqrt, path, count, j);
    SpacedInOrder(total, k, j, count);
    SpacedChord(sqrt, path, total, Spaced(total, k, count), Spaced(total, j, count), out[k], out[j]);
  }

  lemma SpacedInOrder(total: real, k: nat, j: nat, count: nat)
    requires count >= 2 && j == k + 1 < count && total >= 0.0
    ensures 0.0 <= Spaced(total, k, count) <= Spaced(total, j, count) <= total
  {
    SpacedStep(total, k, count);
    SpacedBounds(total, k, count);
    SpacedBounds(total, j, count);
  }

  lemma DegenerateAt(sqrt: real -> real, path: seq<Vec>, count: nat, k: nat)
    requires |path| >= 2 && count >= 2 && k < count && |path| != count
    requires ArcLength(sqrt, path) <= DEGENERATE_LENGTH
    ensures |Resample(sqrt, path, Some(count))| == count && Resample(sqrt, path, Some(count))[k] == path[0]
  {}

  lemma DegenerateNeighbours(sqrt: real -> real, path: seq<Vec>, count: nat, k: nat, j: nat, out: seq<Vec>)
    requires IsSqrt(sqrt) && |path| >= 2 && count >= 2 && j == k + 1 < count && |path| != count
    requires ArcLength(sqrt, path) <= DEGENERATE_LENGTH
    requires out == Resample(sqrt, path, Some(count)) && |out| == count
    ensures Dist(sqrt, out[k], out[j]) == 0.0
  {
    DegenerateAt(sqrt, path, count, k);
    DegenerateAt(sqrt, path, count, j);
    SelfDistance(sqrt, path[0]);
  }

  lemma NeighboursAreSpaced(sqrt: real -> real, path: seq<Vec>, count: nat, k: nat, j: nat, out: seq<Vec>)
    requires IsSqrt(sqrt) && |path| >= 2 && count >= 2 && j == k + 1 < count && |path| != count
    requires out == Resample(sqrt, path, Some(count)) && |out| == count
    ensures Dist(sqrt, out[k], out[j]) <= Spacing(sqrt, path, count) + DEGENERATE_LENGTH
  {
    if ArcLength(sqrt, path) <= DEGENERATE_LENGTH {
      DegenerateNeighbours(sqrt, path, count, k, j, out);
      SpacingIsNotNegative(sqrt, path, count);
    } else {
      RegularNeighbours(sqrt, path, count, k, j, out, ArcLength(sqrt, path));
      SpacedStep(ArcLength(sqrt, path), k, count);
    }
  }

  lemma TotalIsLast(sqrt: real -> real, path: seq<Vec>)
    requires IsSqrt(sqrt) && path != []
    ensures Cumulative(sqrt, path)[0] == 0.0 && ArcLength(sqrt, path) >= 0.0
  {
    CumulativeStart(sqrt, path);
    CumulativeIncreases(sqrt, path, 0, |path| - 1);
  }

  // -------------------------------------------------------------- clearance of the polyline

  /** Everything within `gap` of an accepted route is outside the original obstacles, when the
      radius covers the tube around its edges. */
  lemma NearRouteIsClear(
    sqrt: real -> real, world: World, b: Bounds, start: Vec, goal: Vec, path: seq<Vec>,
    obstacles: seq<Obstacle>, radius: real, x: Vec, q: Vec, gap: real)
    requires IsSqrt(sqrt) && Route(sqrt, world, b, start, goal, path)
    requires world.obstacles == Compile(obstacles, radius, UP_AXIS)
    requires OnPath(path, q) && Dist(sqrt, x, q) <= gap
    requires TubeCovers(radius, Max(world.step, MINIMUM_STEP), gap)
    ensures PointClear(sqrt, x, obstacles, UP_AXIS)
  {
    var i: nat :| OnSegmentOf(path, i, q);
    var t: real :| 0.0 <= t <= 1.0 && Lerp(path[i], path[i + 1], t) == q;
    assert EdgeOk(sqrt, world, path[i], path[i + 1]);
    DistSymmetric(sqrt, x, q);
    TubeIsClear(sqrt, path[i], path[i + 1], obstacles, radius, UP_AXIS, world.step, gap, t, x);
  }

  /** A point of a chord is within half its length of one of the ends. */
  lemma NearAnEnd(sqrt: real -> real, a: Vec, b: Vec, t: real) returns (end: Vec)
    requires IsSqrt(sqrt) && 0.0 <= t <= 1.0
    ensures (end == a || end == b) && Dist(sqrt, Lerp(a, b, t), end) <= Dist(sqrt, a, b) / 2.0
  {
    var length := Dist(sqrt, a, b);
    NormFacts(sqrt, Sub(b, a));
    ToNextVertex(sqrt, a, b, t, length);
    if t <= 0.5 {
      end := a;
      DistSymmetric(sqrt, a, Lerp(a, b, t));
      HalfAtMost(t, length, 0.5);
    } else {
      end := b;
      var u := 1.0 - t;
      HalfAtMost(u, length, 0.5);
      assert u * length == length - t * length;
    }
  }

  lemma HalfAtMost(u: real, length: real, half: real)
    requires 0.0 <= u <= half && length >= 0.0 && half == 0.5
    ensures u * length <= length / 2.0
  {
    var rest := half - u;
    ProductNonNegative(rest, length);
    assert rest * length == half * length - u * length;
  }

  lemma ChordIsClear(
    sqrt: real -> real, world: World, b: Bounds, start: Vec, goal: Vec, path: seq<Vec>,
    obstacles: seq<Obstacle>, radius: real, p: Vec, q: Vec, gap: real)
    requires IsSqrt(sqrt) && Route(sqrt, world, b, start, goal, path)
    requires world.obstacles == Compile(obstacles, radius, UP_AXIS)
    requires OnPath(path, p) && OnPath(path, q) && Dist(sqrt, p, q) / 2.0 <= gap
    requires TubeCovers(radius, Max(world.step, MINIMUM_STEP), gap)
    ensures SegmentClear(sqrt, p, q, obstacles, UP_AXIS)
  {
    forall t: real | 0.0 <= t <= 1.0
      ensures PointClear(sqrt, Lerp(p, q, t), obstacles, UP_AXIS)
    {
      var end := NearAnEnd(sqrt, p, q, t);
      NearRouteIsClear(sqrt, world, b, start, goal, path, obstacles, radius, Lerp(p, q, t), end, gap);
    }
  }

  /** All segments between neighbouring points are outside the original obstacles. */
  ghost predicate PolylineClear(sqrt: real -> real, points: seq<Vec>, obstacles: seq<Obstacle>) {
    forall i, j :: 0 <= i && j == i + 1 < |points| ==> SegmentClear(sqrt, points[i], points[j], obstacles, UP_AXIS)
  }

  /** Neighbouring points are at most `reach` apart. */
  ghost predicate WithinReach(sqrt: real -> real, points: seq<Vec>, reach: real) {
    forall i, j :: 0 <= i && j == i + 1 < |points| ==> Dist(sqrt, points[i], points[j]) <= reach
  }

  lemma PointsOfRouteAreClear(
    sqrt: real -> real, world: World, b: Bounds, start: Vec, goal: Vec, path: seq<Vec>,
    obstacles: seq<Obstacle>, radius: real, points: seq<Vec>, reach: real)
    requires IsSqrt(sqrt) && Route(sqrt, world, b, start, goal, path)
    requires world.obstacles == Compile(obstacles, radius, UP_AXIS)
    requires (forall p <- points :: OnPath(path, p)) && WithinReach(sqrt, points, reach)
    requires TubeCovers(radius, Max(world.step, MINIMUM_STEP), reach / 2.0)
    ensures PolylineClear(sqrt, points, obstacles)
  {
    forall i, j | 0 <= i && j == i + 1 < |points|
      ensures SegmentClear(sqrt, points[i], points[j], obstacles, UP_AXIS)
    {
      assert points[i] in points && points[j] in points;
      ChordIsClear(
        sqrt, world, b, start, goal, path, obstacles, radius, points[i], points[j], reach / 2.0);
    }
  }

  /** A route resampled to another number of points keeps neighbours within its spacing. */
  lemma ResampledWithinSpacing(sqrt: real -> real, path: seq<Vec>, count: nat)
    requires IsSqrt(sqrt) && |path| >= 2 && count >= 2 && |path| != count
    requires |Resample(sqrt, path, Some(count))| == count
    ensures
      WithinReach(sqrt, Resample(sqrt, path, Some(count)), Spacing(sqrt, path, count) + DEGENERATE_LENGTH)
  {
    var out := Resample(sqrt, path, Some(count));
    forall i, j | 0 <= i && j == i + 1 < |out|
      ensures Dist(sqrt, out[i], out[j]) <= Spacing(sqrt, path, count) + DEGENERATE_LENGTH
    {
      NeighboursAreSpaced(sqrt, path, count, i, j, out);
    }
  }

  /** In terms of the route: the resampled polyline, whose chords nobody checks, is outside every
      original obstacle when the radius covers a tube of half the spacing. */
  lemma SpacedPolylineIsClear(
    sqrt: real -> real, world: World, b: Bounds, start: Vec, goal: Vec, path: seq<Vec>, count: nat,
    obstacles: seq<Obstacle>, radius: real)
    requires IsSqrt(sqrt) && Route(sqrt, world, b, start, goal, path) && count >= 2 && |path| != count
    requires world.obstacles == Compile(obstacles, radius, UP_AXIS)
    requires
      TubeCovers(
        radius, Max(world.step, MINIMUM_STEP), (Spacing(sqrt, path, count) + DEGENERATE_LENGTH) / 2.0)
    ensures PolylineClear(sqrt, Resample(sqrt, path, Some(count)), obstacles)
  {
    ResampledPointsOnPath(sqrt, path, Some(count));
    ResampledWithinSpacing(sqrt, path, count);
    PointsOfRouteAreClear(
      sqrt, world, b, start, goal, path, obstacles, radius, Resample(sqrt, path, Some(count)),
      Spacing(sqrt, path, count) + DEGENERATE_LENGTH);
  }

  /** Half a step plus half the reach is more than enough, and so not necessary. */
  lemma HalvesCover(radius: real, s: real, reach: real) returns (less: real)
    requires s > 0.0 && reach > 0.0
    ensures radius >= s / 2.0 + reach / 2.0 ==> TubeCovers(radius, s, reach / 2.0)
    ensures less < s / 2.0 + reach / 2.0 && TubeCovers(less, s, reach / 2.0)
  {
    var h, g := s / 2.0, reach / 2.0;
    SumSquared(h, g);
    assert s * s == 4.0 * (h * h);
    if radius >= h + g {
      ProductMonotone(h + g, radius, h + g);
      ProductMonotone(h + g, radius, radius);
    }
    less := LessThanSum(h, g, s);
  }

  lemma SumSquared(h: real, g: real)
    requires h > 0.0 && g > 0.0
    ensures (h + g) * (h + g) == h * h + 2.0 * (h * g) + g * g && h * g > 0.0
  {
    ProductPositive(h, g);
  }

  /** For the longer `l` of two lengths and the shorter `k`, already `l + 3/4 k` will do. */
  lemma ThreeQuarters(l: real, k: real, c: real)
    requires l >= k > 0.0 && c == l + 0.75 * k
    ensures l * l + k * k <= c * c
  {
    assert c * c == l * l + 1.5 * (l * k) + 0.5625 * (k * k);
    ProductMonotone(k, l, k);
  }

  lemma LessThanSum(h: real, g: real, s: real) returns (less: real)
    requires h > 0.0 && g > 0.0 && s == h + h
    ensures less < h + g && TubeCovers(less, s, g)
  {
    less := if h >= g then h + 0.75 * g else g + 0.75 * h;
    if h >= g {
      ThreeQuarters(h, g, less);
    } else {
      ThreeQuarters(g, h, less);
    }
    assert s * s == 4.0 * (h * h);
  }

  lemma SpacingIsNotNegative(sqrt: real -> real, path: seq<Vec>, count: nat)
    requires IsSqrt(sqrt) && path != [] && count >= 2
    ensures Spacing(sqrt, path, count) >= 0.0
  {
    TotalIsLast(sqrt, path);
    UnitShare(ArcLength(sqrt, path), 1.0 / (count - 1) as real, (count - 1) as real);
  }

  // ------------------------------------------------------ when the delivered edges are checked

  /** The arguments of a planning call, except for the samples and the counts. */
  datatype Request = Request(
    start: Vec, goal: Vec, obstacles: seq<Obstacle>, bounds: Option<Bounds>,
    collisionRadius: real, stepSize: real, edgeCheckStep: real, workspace: Option<Workspace>)

  function ProblemFor(r: Request): Problem {
    ProblemOf(r.start, r.goal, r.obstacles, r.bounds, r.collisionRadius, r.stepSize, r.edgeCheckStep, r.workspace)
  }

  /** The planner answers the request with a path. */
  ghost predicate Delivers(
    sqrt: real -> real, r: Request, draw: nat -> Vec, maxIterations: nat, count: Option<int>, plan: PlannedPath)
  {
    && r.stepSize >= 0.0
    && PlanAnswers(sqrt, ProblemFor(r), draw, maxIterations, count, plan)
    && (plan.reason == StraightLine || plan.reason == Planned)
  }

  lemma DeliveredResamplesRoute(
    sqrt: real -> real, r: Request, draw: nat -> Vec, maxIterations: nat, count: Option<int>, plan: PlannedPath)
    returns (path: seq<Vec>)
    requires IsSqrt(sqrt) && Delivers(sqrt, r, draw, maxIterations, count, plan)
    ensures var p := ProblemFor(r); Route(sqrt, p.world, p.b, r.start, r.goal, path)
    ensures plan.waypoints == Resample(sqrt, path, count)
  {
    var p := ProblemFor(r);
    AnswerResamplesRoute(sqrt, p, draw, maxIterations, count, plan);
    path :| Route(sqrt, p.world, p.b, p.start, p.goal, path) && plan.waypoints == Resample(sqrt, path, count);
  }

  lemma AnswerResamplesRoute(
    sqrt: real -> real, p: Problem, draw: nat -> Vec, maxIterations: nat, count: Option<int>, plan: PlannedPath)
    requires IsSqrt(sqrt) && p.stepSize >= 0.0 && PlanAnswers(sqrt, p, draw, maxIterations, count, plan)
    requires plan.reason == StraightLine || plan.reason == Planned
    ensures ResamplesARoute(sqrt, p.world, p.b, p.start, p.goal, count, plan.waypoints)
  {
    if EdgeOk(sqrt, p.world, p.start, p.goal) {
      StraightResamplesRoute(sqrt, p, count);
    } else {
      GrowthIsTree(sqrt, p, draw, maxIterations);
      FoundResamplesRoute(sqrt, p, GrowthAfter(sqrt, p, draw, maxIterations), count);
    }
  }

  /** Every delivered polyline, whatever the samples and the count: it is outside every original
      obstacle when the radius covers a tube of half its longest edge. */
  lemma DeliveredPolylineIsClear(
    sqrt: real -> real, r: Request, draw: nat -> Vec, maxIterations: nat, count: Option<int>, plan: PlannedPath,
    reach: real)
    requires IsSqrt(sqrt) && Delivers(sqrt, r, draw, maxIterations, count, plan)
    requires WithinReach(sqrt, plan.waypoints, reach)
    requires TubeCovers(r.collisionRadius, Max(r.edgeCheckStep, MINIMUM_STEP), reach / 2.0)
    ensures PolylineClear(sqrt, plan.waypoints, r.obstacles)
  {
    var p := ProblemFor(r);
    var path := DeliveredResamplesRoute(sqrt, r, draw, maxIterations, count, plan);
    ResampledPointsOnPath(sqrt, path, count);
    PointsOfRouteAreClear(
      sqrt, p.world, p.b, r.start, r.goal, path, r.obstacles, r.collisionRadius, plan.waypoints, reach);
  }

  lemma FewWaypointsAreChecked(
    sqrt: real -> real, r: Request, draw: nat -> Vec, maxIterations: nat, count: Option<int>, plan: PlannedPath)
    requires IsSqrt(sqrt) && Delivers(sqrt, r, draw, maxIterations, count, plan)
    requires count.None? || count.value <= 1
    ensures AllEdgesOk(sqrt, ProblemFor(r).world, plan.waypoints)
  {
    var path := DeliveredResamplesRoute(sqrt, r, draw, maxIterations, count, plan);
    if Unchanged(path, count) {
      UnsampledPlanEdgesAreChecked(sqrt, ProblemFor(r).world, ProblemFor(r).b, r.start, r.goal, count, path);
    } else {
      ResampledPointsOnPath(sqrt, path, count);
    }
  }

  // ----------------------------------------------------------------- answers of the planner

  lemma ClearEndsAreAdmissible(sqrt: real -> real, p: Problem)
    requires p.world.workspace.None? && BoundsContain(p.b, p.start) && BoundsContain(p.b, p.goal)
    requires !PointInCollision(sqrt, p.start, p.world.obstacles) && !PointInCollision(sqrt, p.goal, p.world.obstacles)
    ensures Admissible(sqrt, p.world, p.b, p.start, p.goal)
  {}

  lemma StraightAnswer(
    sqrt: real -> real, p: Problem, draw: nat -> Vec, maxIterations: nat, count: Option<int>, plan: PlannedPath)
    requires p.stepSize >= 0.0 && Admissible(sqrt, p.world, p.b, p.start, p.goal)
    requires EdgeOk(sqrt, p.world, p.start, p.goal)
    requires plan == PlannedPath(true, Resample(sqrt, [p.start, p.goal], count), StraightLine, 0)
    ensures PlanAnswers(sqrt, p, draw, maxIterations, count, plan)
  {}

  lemma SearchAnswer(
    sqrt: real -> real, p: Problem, draw: nat -> Vec, count: Option<int>, plan: PlannedPath, g: Growth)
    requires p.stepSize >= 0.0 && Admissible(sqrt, p.world, p.b, p.start, p.goal)
    requires !EdgeOk(sqrt, p.world, p.start, p.goal)
    requires GrowthAfter(sqrt, p, draw, 1) == g && g.found
    requires plan.reason == Planned && plan.waypoints == WaypointsOf(sqrt, p.world, g, count) && plan.iterations == 1
    ensures PlanAnswers(sqrt, p, draw, 1, count, plan)
  {
    assert !GrowthAfter(sqrt, p, draw, 0).found;
  }

  lemma CollidingEdge(sqrt: real -> real, world: World, points: seq<Vec>, i: nat, j: nat)
    requires j == i + 1 < |points| && SegmentCollides(sqrt, points[i], points[j], world.obstacles, world.step)
    ensures !AllEdgesOk(sqrt, world, points)
  {
    assert !EdgeOk(sqrt, world, points[i], points[j]);
  }

  /** One sample from which the goal can be reached ends the search. */
  lemma OneSampleSuffices(sqrt: real -> real, p: Problem, c: Vec)
    requires p.stepSize >= 0.0 && BoundsContain(p.b, c)
    requires Steer(sqrt, p.start, c, p.stepSize) == c && Dist(sqrt, c, p.goal) <= p.stepSize
    requires EdgeOk(sqrt, p.world, p.start, c) && EdgeOk(sqrt, p.world, c, p.goal)
    ensures
      Extended(sqrt, p, Growth([p.start], [-1], false), c) == Growth([p.start, c, p.goal], [-1, 0, 1], true)
  {}

  // ------------------------------------------------------------------ an obstacle that touches

  /** The obstacle below `m` that, grown by `radius`, touches the height of `m` in `m` alone: a
      sphere whose grown radius is `g`. */
  function Below(m: Vec, radius: real, g: real): seq<Obstacle> {
    [SphereObstacle(Vec(m.x, m.y - g, m.z), g - radius)]
  }

  lemma SphereTest(sqrt: real -> real, p: Vec, at: Vec, size: real, radius: real)
    ensures
      PointInCollision(sqrt, p, Compile([SphereObstacle(at, size)], radius, UP_AXIS))
      <==> Norm(sqrt, Sub(at, p)) <= size + radius
  {
    var obstacles := [SphereObstacle(at, size)];
    CompiledTestIsGrownTest(sqrt, p, obstacles, radius, UP_AXIS);
    assert obstacles[0] in obstacles;
    assert InGrown(sqrt, p, obstacles[0], radius, UP_AXIS) <==> Norm(sqrt, Sub(at, p)) <= size + radius;
  }

  lemma SumOfSquares(x: real, y: real, z: real, g: real)
    requires g >= 0.0 && y <= -g && x * x + y * y + z * z <= g * g
    ensures x == 0.0 && y == -g && z == 0.0
  {
    var w := -y;
    assert w * w == y * y;
    ProductMonotone(g, w, g);
    ProductMonotone(g, w, w);
    assert x * x >= 0.0 && z * z >= 0.0;
    SquareMonotone(w, g);
    assert x * x <= 0.0 && z * z <= 0.0;
    NoSquare(x);
    NoSquare(z);
  }

  lemma NoSquare(x: real)
    requires x * x <= 0.0
    ensures x == 0.0
  {
    var a, k := Abs(x), 0.0;
    assert a * a == x * x;
    SquareMonotone(a, k);
  }

  lemma StraightDown(sqrt: real -> real, d: Vec, g: real)
    requires IsSqrt(sqrt) && g >= 0.0 && d == Vec(0.0, -g, 0.0)
    ensures Norm(sqrt, d) == g
  {
    DownDot(d, g);
    RootUnique(sqrt, g * g, g);
  }

  lemma DownDot(d: Vec, g: real)
    requires d == Vec(0.0, -g, 0.0)
    ensures Dot(d, d) == g * g
  {}

  lemma DownOnly(sqrt: real -> real, d: Vec, g: real)
    requires IsSqrt(sqrt) && g >= 0.0 && d.y <= -g
    ensures Norm(sqrt, d) <= g <==> d == Vec(0.0, -g, 0.0)
  {
    if Norm(sqrt, d) <= g {
      WithinStep(sqrt, d, g);
      SumOfSquares(d.x, d.y, d.z, g);
    }
    if d == Vec(0.0, -g, 0.0) {
      StraightDown(sqrt, d, g);
    }
  }

  /** Of the points not below `m` only `m` itself is in collision. */
  lemma HitsOnly(sqrt: real -> real, p: Vec, m: Vec, radius: real, g: real)
    requires IsSqrt(sqrt) && g >= 0.0 && p.y >= m.y
    ensures PointInCollision(sqrt, p, Compile(Below(m, radius, g), radius, UP_AXIS)) <==> p == m
  {
    var at := Vec(m.x, m.y - g, m.z);
    SphereTest(sqrt, p, at, g - radius, radius);
    DownOnly(sqrt, Sub(at, p), g);
    assert Sub(at, p) == Vec(0.0, -g, 0.0) <==> p == m;
  }

  lemma EndIsSampled(sqrt: real -> real, a: Vec, b: Vec, c: Compiled, step: real)
    requires PointInCollision(sqrt, b, c)
    ensures SegmentCollides(sqrt, a, b, c, step)
  {
    LastSample(a, b, SampleCount(Dist(sqrt, a, b), step));
  }

  lemma LastSample(a: Vec, b: Vec, n: nat)
    requires n >= 2
    ensures SamplePoint(a, b, n - 1, n) == b
  {
    WholeQuotient((n - 1) as real);
    LerpAtOne(a, b);
  }

  lemma WholeQuotient(m: real)
    requires m > 0.0
    ensures m / m == 1.0
  {}

  /** The planner answers with the straight line. */
  ghost predicate LineIsClear(sqrt: real -> real, p: Problem) {
    && p.stepSize >= 0.0 && p.world.workspace.None?
    && BoundsContain(p.b, p.start) && BoundsContain(p.b, p.goal)
    && !PointInCollision(sqrt, p.start, p.world.obstacles) && !PointInCollision(sqrt, p.goal, p.world.obstacles)
    && !SegmentCollides(sqrt, p.start, p.goal, p.world.obstacles, p.world.step)
  }

  lemma ClearLineIsDelivered(
    sqrt: real -> real, r: Request, p: Problem, draw: nat -> Vec, count: Option<int>, plan: PlannedPath)
    requires p == ProblemFor(r) && LineIsClear(sqrt, p)
    requires plan == PlannedPath(true, Resample(sqrt, [p.start, p.goal], count), StraightLine, 0)
    ensures Delivers(sqrt, r, draw, 0, count, plan)
  {
    ClearEndsAreAdmissible(sqrt, p);
    StraightAnswer(sqrt, p, draw, 0, count, plan);
  }

  // ------------------------------------------------------------------- three waypoints or more

  lemma CumulativeOfTwo(sqrt: real -> real, a: Vec, b: Vec)
    ensures Cumulative(sqrt, [a, b]) == [0.0, Dist(sqrt, a, b)]
  {
    assert [a, b][..1] == [a];
    assert Cumulative(sqrt, [a]) == [0.0];
  }

  lemma ShareBetween(s: real, count: nat)
    requires s > 0.0 && count >= 3
    ensures 0.0 < Spaced(s, 1, count) < s
  {
    var m := (count - 1) as real;
    assert m >= 2.0;
    assert 0.0 < 1.0 / m < 1.0;
    ProductPositive(s, 1.0 / m);
    ProductStrict(1.0 / m, 1.0, s);
  }

  lemma InnerShare(d: real, s: real)
    requires 0.0 < d < s
    ensures 0.0 < d / s < 1.0
  {
    var q := d / s;
    assert q * s == d;
    FactorStrictOrder(0.0, q, s);
    FactorStrictOrder(q, 1.0, s);
  }

  lemma InnerOfTwo(a: Vec, b: Vec, s: real, d: real)
    requires 0.0 < d < s && s > DEGENERATE_LENGTH
    ensures PointAt([a, b], [0.0, s], d) == Lerp(a, b, d / s)
  {
    var c := [0.0, s];
    assert SearchRight(c, d, 1) == 1;
    assert Ratio(c, 0, d) == d / s;
  }

  lemma InnerLerp(a: Vec, b: Vec, t: real, s: real)
    requires 0.0 < t < 1.0 && s > 0.0 && b == Vec(a.x + s, a.y, a.z)
    ensures Lerp(a, b, t).x > a.x && Lerp(a, b, t).x < b.x && Lerp(a, b, t).y == a.y
  {
    SameHeight(a.y, t);
    InnerSum(a.x, b.x, Lerp(a, b, t).x, t, s);
  }

  lemma InnerSum(x: real, y: real, z: real, t: real, s: real)
    requires 0.0 < t < 1.0 && s > 0.0 && s == y - x && z == (1.0 - t) * x + t * y
    ensures x < z < y
  {
    OnAxis(x, y, t, s);
    PartIsPositive(t, s, t * s);
    PartIsLess(t, s, t * s);
    InOrder(x, y, z, t * s, s);
  }

  lemma PartIsPositive(t: real, s: real, k: real)
    requires t > 0.0 && s > 0.0 && k == t * s
    ensures k > 0.0
  {
    ProductPositive(t, s);
  }

  lemma PartIsLess(t: real, s: real, k: real)
    requires t < 1.0 && s > 0.0 && k == t * s
    ensures k < s
  {
    LessThanWhole(t, s);
  }

  lemma LessThanWhole(t: real, s: real)
    requires t < 1.0 && s > 0.0
    ensures t * s < s
  {
    var rest := 1.0 - t;
    ProductPositive(rest, s);
    assert rest * s == s - t * s;
  }

  lemma InOrder(x: real, y: real, z: real, k: real, s: real)
    requires z == x + k && 0.0 < k < s && y == x + s
    ensures x < z < y
  {}

  lemma SameHeight(y: real, t: real)
    ensures (1.0 - t) * y + t * y == y
  {
    assert (1.0 - t) * y == y - t * y;
  }

  /** The second of three or more waypoints on one edge along the axis. */
  lemma SecondWaypoint(sqrt: real -> real, a: Vec, b: Vec, s: real, count: nat) returns (q: Vec)
    requires IsSqrt(sqrt) && count >= 3 && s > DEGENERATE_LENGTH && b == Vec(a.x + s, a.y, a.z)
    requires Dist(sqrt, a, b) == s
    ensures
      var out := Resample(sqrt, [a, b], Some(count));
      |out| == count && out[1] == q && q != a && q != b && q.y == a.y
  {
    var d := Spaced(s, 1, count);
    CumulativeOfTwo(sqrt, a, b);
    NeighboursAt(sqrt, [a, b], count, 1);
    ShareBetween(s, count);
    InnerShare(d, s);
    InnerOfTwo(a, b, s, d);
    InnerLerp(a, b, d / s, s);
    q := Resample(sqrt, [a, b], Some(count))[1];
  }

  /** An edge one step long over an obstacle that touches it between its ends is accepted. */
  lemma OneStepIsAccepted(
    sqrt: real -> real, a: Vec, b: Vec, q: Vec, radius: real, g: real, step: real)
    requires IsSqrt(sqrt) && g >= 0.0 && a.y == q.y && b.y == q.y && q != a && q != b
    requires Dist(sqrt, a, b) == Max(step, MINIMUM_STEP)
    ensures
      var c := Compile(Below(q, radius, g), radius, UP_AXIS);
      && !PointInCollision(sqrt, a, c) && !PointInCollision(sqrt, b, c)
      && !SegmentCollides(sqrt, a, b, c, step)
  {
    HitsOnly(sqrt, a, q, radius, g);
    HitsOnly(sqrt, b, q, radius, g);
    OneStepIsTwoSamples(step);
    TwoSamples(sqrt, a, b, Compile(Below(q, radius, g), radius, UP_AXIS), step);
  }

  lemma EdgeToHitFails(sqrt: real -> real, world: World, q: Vec, radius: real, g: real, points: seq<Vec>)
    requires IsSqrt(sqrt) && g >= 0.0 && world.obstacles == Compile(Below(q, radius, g), radius, UP_AXIS)
    requires |points| >= 2 && points[1] == q
    ensures !AllEdgesOk(sqrt, world, points)
  {
    HitsOnly(sqrt, q, q, radius, g);
    EndIsSampled(sqrt, points[0], q, world.obstacles, world.step);
    CollidingEdge(sqrt, world, points, 0, 1);
  }

  function Cube(k: real): Bounds { Bounds(Vec(-k, -k, -k), Vec(k, k, k)) }

  lemma InCube(v: Vec, k: real)
    requires Abs(v.x) <= k && Abs(v.y) <= k && Abs(v.z) <= k
    ensures BoundsContain(Cube(k), v)
  {}

  function RequestOver(
    a: Vec, b: Vec, m: Vec, radius: real, g: real, step: real, size: real): Request
  {
    Request(a, b, Below(m, radius, g), Some(Cube(size)), radius, size, step, None)
  }

  lemma ProblemOver(a: Vec, b: Vec, m: Vec, radius: real, g: real, step: real, size: real)
    ensures
      ProblemFor(RequestOver(a, b, m, radius, g, step, size)) ==
      Problem(
        World(Compile(Below(m, radius, g), radius, UP_AXIS), step, None), Cube(size), a, b, size)
  {}

  lemma UnitEdge(s: real) returns (a: Vec, b: Vec)
    requires s > 0.0
    ensures b == Vec(a.x + s, a.y, a.z)
    ensures BoundsContain(Cube(s), a) && BoundsContain(Cube(s), b)
  {
    a, b := Vec(0.0, 0.0, 0.0), Vec(s, 0.0, 0.0);
    InCube(a, s);
    InCube(b, s);
  }

  /** An obstacle that touches a straight line, one step long, in an inner waypoint: the line is
      accepted, its two ends being clear, and the delivered edges at that waypoint are not. So it
      is for every radius and every step. */
  lemma ManyWaypointsEscapeTheCheck(sqrt: real -> real, radius: real, step: real, count: nat)
    returns (r: Request, plan: PlannedPath)
    requires IsSqrt(sqrt) && count >= 3
    ensures r.collisionRadius == radius && r.edgeCheckStep == step
    ensures forall draw: nat -> Vec :: Delivers(sqrt, r, draw, 0, Some(count), plan)
    ensures !AllEdgesOk(sqrt, ProblemFor(r).world, plan.waypoints)
  {
    var s, g := Max(step, MINIMUM_STEP), Max(radius, 0.0);
    var a, b := UnitEdge(s);
    StepLength(sqrt, a, b, s);
    var q := SecondWaypoint(sqrt, a, b, s, count);
    r := RequestOver(a, b, q, radius, g, step, s);
    plan := PlannedPath(true, Resample(sqrt, [a, b], Some(count)), StraightLine, 0);
    ProblemOver(a, b, q, radius, g, step, s);
    OneStepIsAccepted(sqrt, a, b, q, radius, g, step);
    LineOver(sqrt, r, ProblemFor(r), count, plan);
    EdgeToHitFails(sqrt, ProblemFor(r).world, q, radius, g, plan.waypoints);
  }

  lemma LineOver(sqrt: real -> real, r: Request, p: Problem, count: nat, plan: PlannedPath)
    requires p == ProblemFor(r) && LineIsClear(sqrt, p)
    requires plan == PlannedPath(true, Resample(sqrt, [p.start, p.goal], Some(count)), StraightLine, 0)
    ensures forall draw: nat -> Vec :: Delivers(sqrt, r, draw, 0, Some(count), plan)
  {
    forall draw: nat -> Vec
      ensures Delivers(sqrt, r, draw, 0, Some(count), plan)
    {
      ClearLineIsDelivered(sqrt, r, p, draw, Some(count), plan);
    }
  }

  // ----------------------------------------------------------------------------- two waypoints

  /** A line over an obstacle that touches it in its middle `m`, and a point `c` above that. */
  predicate Arch(a: Vec, b: Vec, c: Vec, m: Vec, s: real) {
    && s > DEGENERATE_LENGTH && m == Vec(a.x + s, a.y, a.z) && b == Vec(m.x + s, m.y, m.z)
    && c == Vec(m.x, m.y + s, m.z)
  }

  lemma ArchOf(s: real) returns (a: Vec, b: Vec, c: Vec, m: Vec)
    requires s > DEGENERATE_LENGTH
    ensures Arch(a, b, c, m, s)
    ensures BoundsContain(Cube(s + s), a) && BoundsContain(Cube(s + s), b) && BoundsContain(Cube(s + s), c)
  {
    a, b, c, m := Vec(0.0, 0.0, 0.0), Vec(s + s, 0.0, 0.0), Vec(s, s, 0.0), Vec(s, 0.0, 0.0);
    InCube(a, s + s);
    InCube(b, s + s);
    InCube(c, s + s);
  }

  lemma SampleShare(i: nat, n: nat)
    requires i < n && n >= 2
    ensures 0.0 <= i as real / (n - 1) as real <= 1.0
  {
    FractionBounds(i as real, (n - 1) as real);
  }

  lemma RisesFrom(low: real, high: real, t: real)
    requires 0.0 <= t <= 1.0 && low <= high
    ensures (1.0 - t) * low + t * high >= low
    ensures t > 0.0 && low < high ==> (1.0 - t) * low + t * high > low
  {
    var d := high - low;
    OnAxis(low, high, t, d);
    Rise(low, t, d);
  }

  lemma Rise(low: real, t: real, d: real)
    requires t >= 0.0 && d >= 0.0
    ensures low + t * d >= low && (t > 0.0 && d > 0.0 ==> low + t * d > low)
  {
    ProductNonNegative(t, d);
    if t > 0.0 && d > 0.0 {
      ProductPositive(t, d);
    }
  }

  /** An edge with one end at the height of `m` and the other above meets that height there only. */
  lemma RisingEdgeMisses(a: Vec, c: Vec, m: Vec, t: real)
    requires 0.0 <= t <= 1.0 && a.y == m.y < c.y && a != m
    ensures Lerp(a, c, t).y >= m.y && Lerp(a, c, t) != m
  {
    RisesFrom(a.y, c.y, t);
    if t == 0.0 {
      LerpAtZero(a, c);
    }
  }

  lemma Backwards(a: Vec, c: Vec, t: real, u: real)
    requires u == 1.0 - t
    ensures Lerp(c, a, t) == Lerp(a, c, u)
  {}

  lemma MissesHit(sqrt: real -> real, a: Vec, c: Vec, m: Vec, radius: real, g: real, step: real)
    requires IsSqrt(sqrt) && g >= 0.0
    requires forall t: real :: 0.0 <= t <= 1.0 ==> Lerp(a, c, t).y >= m.y && Lerp(a, c, t) != m
    ensures !SegmentCollides(sqrt, a, c, Compile(Below(m, radius, g), radius, UP_AXIS), step)
  {
    var n := SampleCount(Dist(sqrt, a, c), step);
    forall i | 0 <= i < n
      ensures !PointInCollision(sqrt, SamplePoint(a, c, i, n), Compile(Below(m, radius, g), radius, UP_AXIS))
    {
      SampleShare(i, n);
      HitsOnly(sqrt, SamplePoint(a, c, i, n), m, radius, g);
    }
  }

  lemma TwoSteps(step: real, s: real)
    requires s == Max(step, MINIMUM_STEP)
    ensures SampleCount(s + s, step) == 3
  {
    DoubleShare(s);
  }

  lemma DoubleShare(s: real)
    requires s > 0.0
    ensures (s + s) / s == 2.0
  {
    var q := (s + s) / s;
    assert q * s == s + s;
    FactorOrder(q, 2.0, s);
    FactorOrder(2.0, q, s);
  }

  lemma MiddleSample(a: Vec, b: Vec, m: Vec, c: Vec, s: real)
    requires Arch(a, b, c, m, s)
    ensures SamplePoint(a, b, 1, 3) == m
  {
    MiddleOfX(a, b, m, 1.0 / 2.0);
  }

  lemma MiddleCollides(
    sqrt: real -> real, a: Vec, b: Vec, c: Vec, m: Vec, radius: real, g: real, step: real, s: real)
    requires IsSqrt(sqrt) && g >= 0.0 && s == Max(step, MINIMUM_STEP) && Arch(a, b, c, m, s)
    ensures SegmentCollides(sqrt, a, b, Compile(Below(m, radius, g), radius, UP_AXIS), step)
  {
    StepLength(sqrt, a, b, s + s);
    TwoSteps(step, s);
    MiddleSample(a, b, m, c, s);
    HitsOnly(sqrt, m, m, radius, g);
  }

  lemma ArchEdges(
    sqrt: real -> real, a: Vec, b: Vec, c: Vec, m: Vec, radius: real, g: real, step: real, s: real)
    requires IsSqrt(sqrt) && g >= 0.0 && Arch(a, b, c, m, s)
    ensures
      var k := Compile(Below(m, radius, g), radius, UP_AXIS);
      !SegmentCollides(sqrt, a, c, k, step) && !SegmentCollides(sqrt, c, b, k, step)
  {
    forall t: real | 0.0 <= t <= 1.0
      ensures Lerp(a, c, t).y >= m.y && Lerp(a, c, t) != m
    {
      RisingEdgeMisses(a, c, m, t);
    }
    MissesHit(sqrt, a, c, m, radius, g, step);
    forall t: real | 0.0 <= t <= 1.0
      ensures Lerp(c, b, t).y >= m.y && Lerp(c, b, t) != m
    {
      RisingEdgeMisses(b, c, m, 1.0 - t);
      Backwards(b, c, t, 1.0 - t);
    }
    MissesHit(sqrt, c, b, m, radius, g, step);
  }

  lemma DiagonalDot(d: Vec, s: real, bound: real)
    requires d.x * d.x == s * s && d.y * d.y == s * s && d.z == 0.0 && bound == s + s && s >= 0.0
    ensures Dot(d, d) <= bound * bound
  {
    assert bound * bound == 4.0 * (s * s);
  }

  lemma ArchLengths(sqrt: real -> real, a: Vec, b: Vec, c: Vec, m: Vec, s: real)
    requires IsSqrt(sqrt) && Arch(a, b, c, m, s)
    ensures Dist(sqrt, a, c) <= s + s && Dist(sqrt, c, b) <= s + s
  {
    NegatedSquare(Sub(a, c).x, s);
    NegatedSquare(Sub(a, c).y, s);
    DiagonalDot(Sub(a, c), s, s + s);
    FromSquare(sqrt, a, c, s + s);
    NegatedSquare(Sub(c, b).x, s);
    DiagonalDot(Sub(c, b), s, s + s);
    FromSquare(sqrt, c, b, s + s);
  }

  /** The first sample `c` joins the start to the goal. */
  ghost predicate JoinsEnds(sqrt: real -> real, p: Problem, c: Vec) {
    && p.stepSize >= 0.0 && BoundsContain(p.b, c)
    && Steer(sqrt, p.start, c, p.stepSize) == c && Dist(sqrt, c, p.goal) <= p.stepSize
    && EdgeOk(sqrt, p.world, p.start, c) && EdgeOk(sqrt, p.world, c, p.goal)
  }

  lemma GrowthByOne(sqrt: real -> real, p: Problem, draw: nat -> Vec, c: Vec)
    requires draw(1) == c && JoinsEnds(sqrt, p, c)
    ensures GrowthAfter(sqrt, p, draw, 1) == Growth([p.start, c, p.goal], [-1, 0, 1], true)
  {
    OneSampleSuffices(sqrt, p, c);
    FirstGrowth(sqrt, p, draw);
  }

  lemma FirstGrowth(sqrt: real -> real, p: Problem, draw: nat -> Vec)
    requires p.stepSize >= 0.0
    ensures GrowthAfter(sqrt, p, draw, 1) == Extended(sqrt, p, Growth([p.start], [-1], false), draw(1))
  {
    assert GrowthAfter(sqrt, p, draw, 0) == Growth([p.start], [-1], false);
  }

  /** The tree with one node `c` between the ends. */
  function Around(a: Vec, c: Vec, b: Vec): (g: Growth)
    ensures ParentsPrecede(g.nodes, g.parents)
  {
    Growth([a, c, b], [-1, 0, 1], true)
  }

  /** The planner goes by way of the first sample `c` to a goal that it cannot reach directly, and
      the goal is well beyond both others. */
  ghost predicate GoesRound(sqrt: real -> real, p: Problem, c: Vec) {
    && JoinsEnds(sqrt, p, c)
    && Admissible(sqrt, p.world, p.b, p.start, p.goal) && !EdgeOk(sqrt, p.world, p.start, p.goal)
    && p.goal.x - p.start.x > DEGENERATE_LENGTH && p.goal.x - c.x > DEGENERATE_LENGTH
  }

  lemma RoundGrowth(sqrt: real -> real, p: Problem, draw: nat -> Vec, c: Vec)
    requires draw(1) == c && GoesRound(sqrt, p, c)
    ensures GrowthAfter(sqrt, p, draw, 1) == Around(p.start, c, p.goal)
  {
    GrowthByOne(sqrt, p, draw, c);
  }

  lemma PathEnd(sqrt: real -> real, path: seq<Vec>, a: Vec, c: Vec, b: Vec)
    requires IsSqrt(sqrt) && IsSubpath([a, c, b], path) && |path| >= 2
    requires b.x - a.x > DEGENERATE_LENGTH && b.x - c.x > DEGENERATE_LENGTH
    ensures Dist(sqrt, path[|path| - 2], b) > DEGENERATE_LENGTH
  {
    var index: seq<nat> :| Selects([a, c, b], index, path);
    var k := |path| - 2;
    assert index[k] < index[k + 1] == 2;
    ComponentBound(sqrt, Sub(b, path[k]));
  }

  lemma AroundTrace(a: Vec, c: Vec, b: Vec)
    ensures Trace(Around(a, c, b).nodes, Around(a, c, b).parents, 2) == [a, c, b]
  {
    assert Trace(Around(a, c, b).nodes, Around(a, c, b).parents, 0) == [a];
    assert Trace(Around(a, c, b).nodes, Around(a, c, b).parents, 1) == [a, c];
  }

  lemma RoundRoute(sqrt: real -> real, p: Problem, draw: nat -> Vec, c: Vec)
    requires IsSqrt(sqrt) && draw(1) == c && GoesRound(sqrt, p, c)
    ensures Route(sqrt, p.world, p.b, p.start, p.goal, Shortcut(sqrt, p.world, [p.start, c, p.goal], 2))
    ensures AllEdgesOk(sqrt, p.world, [p.start, c, p.goal])
  {
    var g := Around(p.start, c, p.goal);
    RoundGrowth(sqrt, p, draw, c);
    GrowthIsTree(sqrt, p, draw, 1);
    AroundTrace(p.start, c, p.goal);
    TraceIsChecked(sqrt, p.world, p.b, p.start, p.stepSize, g.nodes, g.parents, 2);
    FoundRoute(sqrt, p.world, p.b, p.start, p.goal, p.stepSize, g.nodes, g.parents);
  }

  lemma PathIsCut(sqrt: real -> real, p: Problem, path: seq<Vec>, c: Vec)
    requires IsSqrt(sqrt) && Route(sqrt, p.world, p.b, p.start, p.goal, path)
    requires GoesRound(sqrt, p, c) && IsSubpath([p.start, c, p.goal], path)
    ensures !AllEdgesOk(sqrt, p.world, Resample(sqrt, path, Some(2)))
  {
    PathEnd(sqrt, path, p.start, c, p.goal);
    TwoWaypointsCutTheCorner(sqrt, p.world, p.b, p.start, p.goal, path);
  }

  lemma RoundIsCut(sqrt: real -> real, p: Problem, draw: nat -> Vec, c: Vec)
    requires IsSqrt(sqrt) && draw(1) == c && GoesRound(sqrt, p, c)
    ensures !AllEdgesOk(sqrt, p.world, WaypointsOf(sqrt, p.world, Around(p.start, c, p.goal), Some(2)))
  {
    RoundRoute(sqrt, p, draw, c);
    ShortcutPreservesRoute(sqrt, p.world, [p.start, c, p.goal], 2);
    PathIsCut(sqrt, p, Shortcut(sqrt, p.world, [p.start, c, p.goal], 2), c);
    AroundTrace(p.start, c, p.goal);
  }

  lemma RoundIsDelivered(sqrt: real -> real, r: Request, p: Problem, draw: nat -> Vec, c: Vec, plan: PlannedPath)
    requires IsSqrt(sqrt) && p == ProblemFor(r) && draw(1) == c && GoesRound(sqrt, p, c)
    requires
      plan == PlannedPath(true, WaypointsOf(sqrt, p.world, Around(p.start, c, p.goal), Some(2)), Planned, 1)
    ensures Delivers(sqrt, r, draw, 1, Some(2), plan)
    ensures !AllEdgesOk(sqrt, p.world, plan.waypoints)
  {
    RoundGrowth(sqrt, p, draw, c);
    SearchAnswer(sqrt, p, draw, Some(2), plan, Around(p.start, c, p.goal));
    RoundIsCut(sqrt, p, draw, c);
  }

  lemma ArchGoesRound(
    sqrt: real -> real, p: Problem, a: Vec, b: Vec, c: Vec, m: Vec, radius: real, g: real, step: real, s: real,
    size: real)
    requires IsSqrt(sqrt) && g >= 0.0 && s == Max(step, MINIMUM_STEP) && Arch(a, b, c, m, s) && size == s + s
    requires BoundsContain(Cube(size), a) && BoundsContain(Cube(size), b) && BoundsContain(Cube(size), c)
    requires
      p == Problem(
        World(Compile(Below(m, radius, g), radius, UP_AXIS), step, None), Cube(size), a, b, size)
    ensures GoesRound(sqrt, p, c)
  {
    ArchEdges(sqrt, a, b, c, m, radius, g, step, s);
    ArchLengths(sqrt, a, b, c, m, s);
    MiddleCollides(sqrt, a, b, c, m, radius, g, step, s);
    HitsOnly(sqrt, a, m, radius, g);
    HitsOnly(sqrt, b, m, radius, g);
    ClearEndsAreAdmissible(sqrt, p);
  }

  lemma ArchRequest(sqrt: real -> real, radius: real, step: real) returns (r: Request, c: Vec)
    requires IsSqrt(sqrt)
    ensures r.collisionRadius == radius && r.edgeCheckStep == step && GoesRound(sqrt, ProblemFor(r), c)
  {
    var s, g := Max(step, MINIMUM_STEP), Max(radius, 0.0);
    var a, b, m;
    a, b, c, m := ArchOf(s);
    r := RequestOver(a, b, m, radius, g, step, s + s);
    ProblemOver(a, b, m, radius, g, step, s + s);
    ArchGoesRound(sqrt, ProblemFor(r), a, b, c, m, radius, g, step, s, s + s);
  }

  /** One sample above an obstacle that touches the line in its middle: the planner goes round it,
      and with two waypoints delivers the rejected line. So it is for every radius and step. */
  lemma TwoWaypointsEscapeTheCheck(sqrt: real -> real, radius: real, step: real)
    returns (r: Request, draw: nat -> Vec, plan: PlannedPath)
    requires IsSqrt(sqrt)
    ensures r.collisionRadius == radius && r.edgeCheckStep == step
    ensures Delivers(sqrt, r, draw, 1, Some(2), plan)
    ensures !AllEdgesOk(sqrt, ProblemFor(r).world, plan.waypoints)
  {
    var c;
    r, c := ArchRequest(sqrt, radius, step);
    var p := ProblemFor(r);
    draw := (_: nat) => c;
    plan := PlannedPath(true, WaypointsOf(sqrt, p.world, Around(p.start, c, p.goal), Some(2)), Planned, 1);
    RoundIsDelivered(sqrt, r, p, draw, c, plan);
  }

  /** All edges of all paths delivered for this radius, step and count were accepted. */
  ghost predicate EdgesAlwaysChecked(sqrt: real -> real, radius: real, step: real, count: Option<int>) {
    forall r: Request, draw: nat -> Vec, maxIterations: nat, plan: PlannedPath
      | r.collisionRadius == radius && r.edgeCheckStep == step
        && Delivers(sqrt, r, draw, maxIterations, count, plan)
      :: AllEdgesOk(sqrt, ProblemFor(r).world, plan.waypoints)
  }

  /** For every collision radius, every checking step and every waypoint count: all edges of all
      delivered paths were accepted if and only if the count is missing or at most one. */
  lemma DeliveredEdgesCheckedIff(sqrt: real -> real, radius: real, step: real, count: Option<int>)
    requires IsSqrt(sqrt)
    ensures EdgesAlwaysChecked(sqrt, radius, step, count) <==> (count.None? || count.value <= 1)
  {
    if count.None? || count.value <= 1 {
      forall r: Request, draw: nat -> Vec, maxIterations: nat, plan: PlannedPath
        | Delivers(sqrt, r, draw, maxIterations, count, plan)
        ensures AllEdgesOk(sqrt, ProblemFor(r).world, plan.waypoints)
      {
        FewWaypointsAreChecked(sqrt, r, draw, maxIterations, count, plan);
      }
    } else if count.value == 2 {
      var r, draw, plan := TwoWaypointsEscapeTheCheck(sqrt, radius, step);
      assert Delivers(sqrt, r, draw, 1, count, plan);
    } else {
      var r, plan := ManyWaypointsEscapeTheCheck(sqrt, radius, step, count.value);
      var draw := (_: nat) => r.start;
      assert Delivers(sqrt, r, draw, 0, count, plan);
    }
  }
}
