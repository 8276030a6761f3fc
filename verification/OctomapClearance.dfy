/** What an accepted edge says about the occupied voxels behind the boxes
    (`localmap_core/octomap_obstacle_adapter.py` below the edge check of
    `localmap_core/simple_bucket_tip_planner.py`), and the exact condition for it. */
module OctomapClearance {
  import opened Geometry
  import opened Collision
  import opened EdgeClearance
  import opened Octomap

  /** A cube of half size `margin` around `center` meets the segment. */
  ghost predicate MeetsCube(start: Vec, end: Vec, center: Vec, margin: real) {
    exists t: real :: 0.0 <= t <= 1.0 && InBox(Lerp(start, end, t), center, Vec(margin, margin, margin))
  }

  /** What the collision radius leaves beyond a margin cube at the far end of a cell. */
  function Surplus(r: real, boxSize: real, margin: real): real { r - boxSize / 2.0 - margin }

  /** Two neighbouring samples, at most `s` apart, cannot leave a grown box on either side of a
      margin cube: neither round an edge of the box nor across all of it. */
  predicate RadiusCovers(r: real, boxSize: real, s: real, margin: real) {
    var g := Surplus(r, boxSize, margin);
    g >= 0.0 && s * s <= 8.0 * (g * g) && s <= boxSize + 2.0 * r
  }

  /** Every accepted edge keeps the cube of every cropped centre free, as long as no cell is cut
      off. */
  ghost predicate EdgesAvoidCubes(sqrt: real -> real, r: real, up: Axis, step: real, boxSize: real, margin: real)
    requires boxSize > 0.0
  {
    forall centers: seq<Vec>, crop: Crop, maxObstacles: nat, obstacles: seq<Obstacle>, start: Vec, end: Vec, p: Vec
      | EdgeAccepted(sqrt, r, up, step, boxSize, centers, crop, maxObstacles, obstacles, start, end)
        && p in Cropped(centers, crop)
      :: !MeetsCube(start, end, p, margin)
  }

  ghost predicate EdgeAccepted(
    sqrt: real -> real, r: real, up: Axis, step: real, boxSize: real,
    centers: seq<Vec>, crop: Crop, maxObstacles: nat, obstacles: seq<Obstacle>, start: Vec, end: Vec)
    requires boxSize > 0.0
  {
    && IsAdapted(centers, boxSize, crop, maxObstacles, obstacles)
    && |UniqueCells(Cropped(centers, crop), boxSize)| <= maxObstacles
    && !SegmentCollides(sqrt, start, end, Compile(obstacles, r, up), step)
  }

  // ------------------------------------------------------------------ the radius is enough

  lemma Regroup(u: real, w: real, d: real)
    ensures (u * w) * d == u * (w * d)
  {}

  lemma AlongLerp(start: Vec, end: Vec, s: real, t: real, d: real, w: real, axis: Axis)
    requires w == t - s && d == Along(end, axis) - Along(start, axis)
    ensures Along(Lerp(start, end, t), axis) - Along(Lerp(start, end, s), axis) == w * d
  {
    LerpAxis(Along(start, axis), Along(end, axis), s, t);
  }

  /** On every axis the point at `t` divides the step from `a` to `b` at `u`. */
  lemma DividesStep(start: Vec, end: Vec, a: real, b: real, t: real, u: real, axis: Axis) returns (d: real, e: real)
    requires t - a == u * (b - a)
    ensures d == Along(Lerp(start, end, b), axis) - Along(Lerp(start, end, a), axis)
    ensures e == Along(Lerp(start, end, t), axis) - Along(Lerp(start, end, a), axis)
    ensures e == u * d
  {
    var k, w := Along(end, axis) - Along(start, axis), b - a;
    AlongLerp(start, end, a, b, k, w, axis);
    AlongLerp(start, end, a, t, k, t - a, axis);
    d, e := w * k, (t - a) * k;
    Share(t - a, u, w, k, d);
  }

  lemma Share(q: real, u: real, w: real, k: real, d: real)
    requires q == u * w && d == w * k
    ensures q * k == u * d
  {
    Regroup(u, w, k);
  }

  lemma OutsideAxis(q: Vec, c: Vec, h: real) returns (axis: Axis)
    requires !InBox(q, c, Vec(h, h, h))
    ensures !CloseOn(c, q, axis, h)
  {
    axis := if Abs(c.x - q.x) > h then AxisX else if Abs(c.y - q.y) > h then AxisY else AxisZ;
  }

  lemma PairProduct(a: real, b: real, u: real, v: real, g: real)
    requires a > 0.0 && b > 0.0 && u + v == 1.0
    requires u * a > g && v * b > g
    ensures a * b > g * (a + b)
  {
    ProductStrict(g, u * a, b);
    ProductStrict(g, v * b, a);
    Shares(a, b, u, v);
    assert g * b + g * a == g * (a + b);
  }

  lemma Shares(a: real, b: real, u: real, v: real)
    requires u + v == 1.0
    ensures (u * a) * b + (v * b) * a == a * b
  {
    assert (u * a) * b + (v * b) * a == (u + v) * (a * b);
  }

  lemma SumBeyond(a: real, b: real, g: real, s: real)
    requires s == a + b && s > 0.0 && a * b > g * s
    ensures s > 4.0 * g
  {
    FourProducts(a, b, s);
    var k := 4.0 * g;
    assert k * s == 4.0 * (g * s);
    FactorStrictOrder(k, s, s);
  }

  lemma FourProducts(a: real, b: real, s: real)
    requires s == a + b
    ensures s * s >= 4.0 * (a * b)
  {
    assert (a - b) * (a - b) >= 0.0;
    assert s * s == (a - b) * (a - b) + 4.0 * (a * b);
  }

  lemma SquareStrict(k: real, s: real)
    requires 0.0 <= k < s
    ensures k * k < s * s
  {
    ProductPositive(s - k, s + k);
    assert (s - k) * (s + k) == s * s - k * k;
  }

  lemma SquaresOfSum(a: real, b: real, s: real)
    requires s == a + b
    ensures 2.0 * (a * a + b * b) >= s * s
  {
    assert (a - b) * (a - b) >= 0.0;
    assert 2.0 * (a * a + b * b) == s * s + (a - b) * (a - b);
  }

  lemma FourTimesSquared(g: real, k: real)
    requires k == 4.0 * g
    ensures k * k == 16.0 * (g * g)
  {}

  lemma SquaresBeyond(a: real, b: real, g: real, s: real)
    requires s == a + b && s > 4.0 * g && g >= 0.0
    ensures a * a + b * b > 8.0 * (g * g)
  {
    SquareStrict(4.0 * g, s);
    FourTimesSquared(g, 4.0 * g);
    SquaresOfSum(a, b, s);
  }

  /** Going round an edge of a box takes a long step. */
  lemma RoundAnEdge(a: real, b: real, u: real, v: real, g: real)
    requires a >= 0.0 && b >= 0.0 && g >= 0.0 && u >= 0.0 && v >= 0.0 && u + v == 1.0
    requires u * a > g && v * b > g
    ensures a * a + b * b > 8.0 * (g * g)
  {
    PositiveFactor(u, a, g);
    PositiveFactor(v, b, g);
    PairProduct(a, b, u, v, g);
    SumBeyond(a, b, g, a + b);
    SquaresBeyond(a, b, g, a + b);
  }

  lemma PositiveFactor(u: real, a: real, g: real)
    requires u >= 0.0 && a >= 0.0 && g >= 0.0 && u * a > g
    ensures a > 0.0
  {}

  lemma TwoAxesWithin(v: Vec, j: Axis, l: Axis)
    requires j != l
    ensures Along(v, j) * Along(v, j) + Along(v, l) * Along(v, l) <= Dot(v, v)
  {
    assert v.x * v.x >= 0.0 && v.y * v.y >= 0.0 && v.z * v.z >= 0.0;
  }

  lemma AbsSquare(a: real)
    ensures Abs(a) * Abs(a) == a * a
  {}

  lemma AbsFactor(u: real, d: real, e: real)
    requires u >= 0.0 && e == u * d
    ensures Abs(e) == u * Abs(d)
  {
    var a, f := Abs(d), -d;
    Negated(u, d, f);
    ProductNonNegative(u, a);
    assert a == d || a == f;
    if a == d {
      SameFactor(u, d, a);
    } else {
      SameFactor(u, f, a);
    }
  }

  lemma SameFactor(u: real, a: real, b: real)
    requires a == b
    ensures u * a == u * b
  {}

  /** How far the sample outside on an axis is from the point between. */
  lemma FarOnAxis(c: real, x: real, y: real, u: real, d: real, e: real, h: real, g: real)
    requires u >= 0.0 && e == u * d && Abs(x - y) == Abs(e) && Abs(c - x) <= h - g && Abs(c - y) > h
    ensures u * Abs(d) > g
  {
    AbsFactor(u, d, e);
  }

  lemma Rest(u: real, d: real, e: real)
    requires e == u * d
    ensures d - e == (1.0 - u) * d
  {}

  /** On one axis both samples are outside only when the step goes across the whole box. */
  lemma AcrossTheBox(c: real, x: real, y: real, z: real, u: real, d: real, e: real, h: real, g: real)
    requires 0.0 <= u <= 1.0 && g >= 0.0 && z - y == d && x - y == e && e == u * d
    requires Abs(c - x) <= h - g && Abs(c - y) > h && Abs(c - z) > h
    ensures Abs(d) > 2.0 * h
  {
    Between(u, d, e);
  }

  lemma DifferentAxes(
    sqrt: real -> real, step: Vec, j: Axis, l: Axis, u: real, v: real, d: real, d': real, g: real, s: real)
    requires IsSqrt(sqrt) && j != l && Norm(sqrt, step) <= s
    requires g >= 0.0 && u >= 0.0 && v >= 0.0 && u + v == 1.0
    requires d == Along(step, j) && d' == Along(step, l)
    requires u * Abs(d) > g && v * Abs(d') > g
    ensures s * s > 8.0 * (g * g)
  {
    RoundAnEdge(Abs(d), Abs(d'), u, v, g);
    AbsSquare(d);
    AbsSquare(d');
    TwoAxesWithin(step, j, l);
    WithinStep(sqrt, step, s);
  }

  /** Two neighbouring samples with a point near the centre between them: they are not both
      outside the box, on whichever axes. */
  lemma NotBothOutside(
    sqrt: real -> real, start: Vec, end: Vec, a: real, b: real, t: real, u: real, c: Vec, h: real, g: real, s: real,
    j: Axis, l: Axis)
    requires IsSqrt(sqrt) && 0.0 <= u <= 1.0 && t - a == u * (b - a)
    requires Dist(sqrt, Lerp(start, end, a), Lerp(start, end, b)) <= s
    requires g >= 0.0 && s * s <= 8.0 * (g * g) && s <= 2.0 * h
    requires CloseOn(c, Lerp(start, end, t), j, h - g) && CloseOn(c, Lerp(start, end, t), l, h - g)
    ensures CloseOn(c, Lerp(start, end, a), j, h) || CloseOn(c, Lerp(start, end, b), l, h)
  {
    var y, z, x := Lerp(start, end, a), Lerp(start, end, b), Lerp(start, end, t);
    var d, e := DividesStep(start, end, a, b, t, u, j);
    var d', e' := DividesStep(start, end, a, b, t, u, l);
    if !CloseOn(c, y, j, h) && !CloseOn(c, z, l, h) {
      if j == l {
        AcrossOnAxis(sqrt, x, y, z, c, u, d, e, h, g, s, j);
      } else {
        RoundOnAxes(sqrt, x, y, z, c, u, d, e, d', e', h, g, s, j, l);
      }
      assert false;
    }
  }

  predicate CloseOn(c: Vec, q: Vec, axis: Axis, h: real) {
    Abs(Along(c, axis) - Along(q, axis)) <= h
  }

  lemma AcrossOnAxis(
    sqrt: real -> real, x: Vec, y: Vec, z: Vec, c: Vec, u: real, d: real, e: real, h: real, g: real, s: real, j: Axis)
    requires IsSqrt(sqrt) && 0.0 <= u <= 1.0 && g >= 0.0 && Dist(sqrt, y, z) <= s
    requires d == Along(z, j) - Along(y, j) && e == Along(x, j) - Along(y, j) && e == u * d
    requires CloseOn(c, x, j, h - g) && !CloseOn(c, y, j, h) && !CloseOn(c, z, j, h)
    ensures s > 2.0 * h
  {
    AcrossTheBox(Along(c, j), Along(x, j), Along(y, j), Along(z, j), u, d, e, h, g);
    AxisWithinNorm(sqrt, y, z, j);
  }

  lemma RoundOnAxes(
    sqrt: real -> real, x: Vec, y: Vec, z: Vec, c: Vec, u: real, d: real, e: real, d': real, e': real,
    h: real, g: real, s: real, j: Axis, l: Axis)
    requires IsSqrt(sqrt) && 0.0 <= u <= 1.0 && g >= 0.0 && Dist(sqrt, y, z) <= s && j != l
    requires d == Along(z, j) - Along(y, j) && e == Along(x, j) - Along(y, j) && e == u * d
    requires d' == Along(z, l) - Along(y, l) && e' == Along(x, l) - Along(y, l) && e' == u * d'
    requires CloseOn(c, x, j, h - g) && CloseOn(c, x, l, h - g) && !CloseOn(c, y, j, h) && !CloseOn(c, z, l, h)
    ensures s * s > 8.0 * (g * g)
  {
    var v := 1.0 - u;
    RoundFar(x, y, z, c, u, v, d, e, d', e', h, g, j, l);
    AlongSub(z, y, j);
    AlongSub(z, y, l);
    DifferentAxes(sqrt, Sub(z, y), j, l, u, v, d, d', g, s);
  }

  lemma RoundFar(
    x: Vec, y: Vec, z: Vec, c: Vec, u: real, v: real, d: real, e: real, d': real, e': real,
    h: real, g: real, j: Axis, l: Axis)
    requires u >= 0.0 && v >= 0.0 && v == 1.0 - u
    requires d == Along(z, j) - Along(y, j) && e == Along(x, j) - Along(y, j) && e == u * d
    requires d' == Along(z, l) - Along(y, l) && e' == Along(x, l) - Along(y, l) && e' == u * d'
    requires CloseOn(c, x, j, h - g) && CloseOn(c, x, l, h - g) && !CloseOn(c, y, j, h) && !CloseOn(c, z, l, h)
    ensures u * Abs(d) > g && v * Abs(d') > g
  {
    FarOnAxis(Along(c, j), Along(x, j), Along(y, j), u, d, e, h, g);
    FarOnOther(Along(c, l), Along(x, l), Along(y, l), Along(z, l), u, v, d', e', h, g);
  }

  lemma FarOnOther(c: real, x: real, y: real, z: real, u: real, v: real, d: real, e: real, h: real, g: real)
    requires v >= 0.0 && v == 1.0 - u && d == z - y && e == x - y && e == u * d
    requires Abs(c - x) <= h - g && Abs(c - z) > h
    ensures v * Abs(d) > g
  {
    Rest(u, d, e);
    FarOnAxis(c, x, z, v, d, d - e, h, g);
  }

  lemma AxisWithinNorm(sqrt: real -> real, y: Vec, z: Vec, axis: Axis)
    requires IsSqrt(sqrt)
    ensures Abs(Along(z, axis) - Along(y, axis)) <= Dist(sqrt, y, z)
  {
    ComponentBound(sqrt, Sub(z, y));
  }

  lemma AlongSub(z: Vec, y: Vec, axis: Axis)
    ensures Along(Sub(z, y), axis) == Along(z, axis) - Along(y, axis)
  {}

  lemma NearMean(x: Vec, p: Vec, c: Vec, boxSize: real, margin: real, h: real, g: real, r: real, axis: Axis)
    requires InBox(x, p, Vec(margin, margin, margin)) && InBox(p, c, Vec(boxSize, boxSize, boxSize))
    requires g == Surplus(r, boxSize, margin) && h == boxSize * 0.5 + r
    ensures CloseOn(c, x, axis, h - g)
  {}

  /** One of two neighbouring samples with a point of the margin cube between them is in the
      grown box. */
  lemma OneSampleIsInside(
    sqrt: real -> real, start: Vec, end: Vec, a: real, b: real, t: real, u: real, p: Vec, c: Vec,
    boxSize: real, margin: real, h: real, r: real, s: real)
    requires IsSqrt(sqrt) && 0.0 <= u <= 1.0 && t - a == u * (b - a)
    requires Dist(sqrt, Lerp(start, end, a), Lerp(start, end, b)) <= s
    requires RadiusCovers(r, boxSize, s, margin) && h == boxSize * 0.5 + r
    requires InBox(Lerp(start, end, t), p, Vec(margin, margin, margin))
    requires InBox(p, c, Vec(boxSize, boxSize, boxSize))
    ensures InBox(Lerp(start, end, a), c, Vec(h, h, h)) || InBox(Lerp(start, end, b), c, Vec(h, h, h))
  {
    var g := Surplus(r, boxSize, margin);
    if !InBox(Lerp(start, end, a), c, Vec(h, h, h)) && !InBox(Lerp(start, end, b), c, Vec(h, h, h)) {
      var j := OutsideAxis(Lerp(start, end, a), c, h);
      var l := OutsideAxis(Lerp(start, end, b), c, h);
      NearMean(Lerp(start, end, t), p, c, boxSize, margin, h, g, r, j);
      NearMean(Lerp(start, end, t), p, c, boxSize, margin, h, g, r, l);
      NotBothOutside(sqrt, start, end, a, b, t, u, c, h, g, s, j, l);
      assert false;
    }
  }

  /** A sample in a grown box is a collision. */
  lemma SampleHits(
    sqrt: real -> real, obstacles: seq<Obstacle>, o: Obstacle, r: real, up: Axis, step: real,
    start: Vec, end: Vec, i: nat, h: real)
    requires o in obstacles && o.BoxObstacle? && Grown(o.size, r) == Vec(h, h, h)
    requires i < SampleCount(Dist(sqrt, start, end), step)
    requires InBox(SamplePoint(start, end, i, SampleCount(Dist(sqrt, start, end), step)), o.center, Vec(h, h, h))
    ensures SegmentCollides(sqrt, start, end, Compile(obstacles, r, up), step)
  {
    var q := SamplePoint(start, end, i, SampleCount(Dist(sqrt, start, end), step));
    assert InGrown(sqrt, q, o, r, up);
    CompiledTestIsGrownTest(sqrt, q, obstacles, r, up);
  }

  lemma CubeAvoided(
    sqrt: real -> real, points: seq<Vec>, boxSize: real, obstacles: seq<Obstacle>,
    r: real, up: Axis, step: real, margin: real, start: Vec, end: Vec, p: Vec)
    requires IsSqrt(sqrt) && boxSize > 0.0
    requires EveryCellHasBox(points, boxSize, obstacles) && p in points
    requires RadiusCovers(r, boxSize, Max(step, MINIMUM_STEP), margin)
    requires !SegmentCollides(sqrt, start, end, Compile(obstacles, r, up), step)
    ensures !MeetsCube(start, end, p, margin)
  {
    if MeetsCube(start, end, p, margin) {
      var t: real :| 0.0 <= t <= 1.0 && InBox(Lerp(start, end, t), p, Vec(margin, margin, margin));
      MeansCollision(sqrt, points, boxSize, obstacles, r, up, step, margin, start, end, p, t);
      assert false;
    }
  }

  lemma MeansCollision(
    sqrt: real -> real, points: seq<Vec>, boxSize: real, obstacles: seq<Obstacle>,
    r: real, up: Axis, step: real, margin: real, start: Vec, end: Vec, p: Vec, t: real)
    requires IsSqrt(sqrt) && boxSize > 0.0
    requires EveryCellHasBox(points, boxSize, obstacles) && p in points
    requires RadiusCovers(r, boxSize, Max(step, MINIMUM_STEP), margin)
    requires 0.0 <= t <= 1.0 && InBox(Lerp(start, end, t), p, Vec(margin, margin, margin))
    ensures SegmentCollides(sqrt, start, end, Compile(obstacles, r, up), step)
  {
    var size := Vec(boxSize, boxSize, boxSize);
    var c, h := Mean(Members(points, boxSize, CellOf(p, boxSize))), boxSize * 0.5 + r;
    var i, u, a, b := BetweenSamples(sqrt, start, end, step, t);
    MeanNearMembers(points, boxSize, p);
    OneSampleIsInside(
      sqrt, start, end, a, b, t, u, p, c, boxSize, margin, h, r, Max(step, MINIMUM_STEP));
    SampleHits(
      sqrt, obstacles, BoxObstacle(c, size), r, up, step, start, end,
      if InBox(Lerp(start, end, a), c, Vec(h, h, h)) then i else i + 1, h);
  }

  /** An edge accepted by the planner keeps a whole cube around every in-bounds occupied
      centre free, as long as no cell was cut off and the radius covers. With `margin == 0.0`
      the edge passes through no occupied centre; with half a voxel it touches no occupied
      voxel. */
  lemma AcceptedEdgeAvoidsOccupiedCentres(
    sqrt: real -> real, r: real, up: Axis, step: real, boxSize: real, margin: real)
    requires IsSqrt(sqrt) && boxSize > 0.0 && RadiusCovers(r, boxSize, Max(step, MINIMUM_STEP), margin)
    ensures EdgesAvoidCubes(sqrt, r, up, step, boxSize, margin)
  {
    forall centers: seq<Vec>, crop: Crop, maxObstacles: nat, obstacles: seq<Obstacle>, start: Vec, end: Vec, p: Vec
      | EdgeAccepted(sqrt, r, up, step, boxSize, centers, crop, maxObstacles, obstacles, start, end)
        && p in Cropped(centers, crop)
      ensures !MeetsCube(start, end, p, margin)
    {
      AllCellsKept(centers, boxSize, crop, maxObstacles, obstacles);
      CubeAvoided(sqrt, Cropped(centers, crop), boxSize, obstacles, r, up, step, margin, start, end, p);
    }
  }

  // ---------------------------------------------------------- no smaller radius is enough

  const EVERYWHERE := Crop(Unbounded, Unbounded, Unbounded)

  lemma {:induction false} FilterAll(points: seq<Vec>, keep: Vec -> bool)
    requires forall p <- points :: keep(p)
    ensures Filter(points, keep) == points
  {
    if points != [] {
      FilterAll(points[..|points| - 1], keep);
    }
  }

  /** Points of one cell give one box. */
  lemma OneCell(points: seq<Vec>, boxSize: real, cell: Cell)
    requires boxSize > 0.0 && points != [] && forall p <- points :: CellOf(p, boxSize) == cell
    ensures Cropped(points, EVERYWHERE) == points && UniqueCells(points, boxSize) == [cell]
    ensures
      IsAdapted(
        points, boxSize, EVERYWHERE, 1, [BoxObstacle(Mean(points), Vec(boxSize, boxSize, boxSize))])
  {
    FilterAll(points, p => InCrop(p, EVERYWHERE));
    FilterAll(points, p => CellOf(p, boxSize) == cell);
    var cells := UniqueCells(points, boxSize);
    assert points[0] in points;
    assert cell in cells;
    forall c <- cells
      ensures c == cell
    {
      var p :| p in points && CellOf(p, boxSize) == c;
    }
    Single(cells, cell);
  }

  lemma Single(cells: seq<Cell>, cell: Cell)
    requires StrictlySorted(cells) && cells != [] && forall c <- cells :: c == cell
    ensures cells == [cell]
  {
    forall k | 0 <= k < |cells|
      ensures cells[k] == cell
    {
      assert cells[k] in cells;
    }
    assert |cells| >= 2 ==> CellLess(cells[0], cells[1]);
  }

  lemma OneBoxTest(sqrt: real -> real, q: Vec, c: Vec, size: Vec, r: real, up: Axis, h: real)
    requires Grown(size, r) == Vec(h, h, h)
    ensures PointInCollision(sqrt, q, Compile([BoxObstacle(c, size)], r, up)) <==> InBox(q, c, Vec(h, h, h))
  {
    var obstacles := [BoxObstacle(c, size)];
    CompiledTestIsGrownTest(sqrt, q, obstacles, r, up);
    assert obstacles[0] in obstacles;
    assert InGrown(sqrt, q, obstacles[0], r, up) <==> InBox(q, c, Vec(h, h, h));
  }

  lemma WithinOneStep(length: real, s: real)
    requires 0.0 <= length <= s && s > 0.0
    ensures Ceil(length / s) <= 1
  {
    var q := length / s;
    assert q * s == length;
    FactorOrder(q, 1.0, s);
  }

  /** No more than a step apart, only the two ends are tested. */
  lemma ShortEdge(sqrt: real -> real, y: Vec, z: Vec, step: real)
    requires IsSqrt(sqrt) && Dist(sqrt, y, z) <= Max(step, MINIMUM_STEP)
    ensures SampleCount(Dist(sqrt, y, z), step) == 2
  {
    NormFacts(sqrt, Sub(z, y));
    WithinOneStep(Dist(sqrt, y, z), Max(step, MINIMUM_STEP));
  }

  /** A short edge with both ends outside the only box and a point of a margin cube on it. */
  lemma EscapingEdge(
    sqrt: real -> real, r: real, up: Axis, step: real, boxSize: real, margin: real, h: real,
    points: seq<Vec>, cell: Cell, y: Vec, z: Vec, t: real, p: Vec)
    requires IsSqrt(sqrt) && boxSize > 0.0 && h == boxSize * 0.5 + r
    requires p in points && forall q <- points :: CellOf(q, boxSize) == cell
    requires Dist(sqrt, y, z) <= Max(step, MINIMUM_STEP)
    requires !InBox(y, Mean(points), Vec(h, h, h)) && !InBox(z, Mean(points), Vec(h, h, h))
    requires 0.0 <= t <= 1.0 && InBox(Lerp(y, z, t), p, Vec(margin, margin, margin))
    ensures !EdgesAvoidCubes(sqrt, r, up, step, boxSize, margin)
  {
    var size := Vec(boxSize, boxSize, boxSize);
    var obstacles := [BoxObstacle(Mean(points), size)];
    OneCell(points, boxSize, cell);
    OneBoxTest(sqrt, y, Mean(points), size, r, up, h);
    OneBoxTest(sqrt, z, Mean(points), size, r, up, h);
    ShortEdge(sqrt, y, z, step);
    TwoSamples(sqrt, y, z, Compile(obstacles, r, up), step);
    assert EdgeAccepted(sqrt, r, up, step, boxSize, points, EVERYWHERE, 1, obstacles, y, z);
    assert MeetsCube(y, z, p, margin);
  }

  const ORIGIN := Vec(0.0, 0.0, 0.0)

  /** A step longer than the grown box goes across it. */
  lemma StepAcross(sqrt: real -> real, r: real, up: Axis, step: real, boxSize: real, margin: real, s: real, half: real)
    requires IsSqrt(sqrt) && boxSize > 0.0 && margin >= 0.0
    requires s == Max(step, MINIMUM_STEP) && s > boxSize + 2.0 * r && half == s / 2.0
    ensures !EdgesAvoidCubes(sqrt, r, up, step, boxSize, margin)
  {
    var y, z := Vec(-half, 0.0, 0.0), Vec(half, 0.0, 0.0);
    OnlyItself(ORIGIN);
    OriginCell(boxSize);
    AlongX(sqrt, y, z, s);
    MiddlePoint(y, z, ORIGIN, 0.5);
    EscapingEdge(
      sqrt, r, up, step, boxSize, margin, boxSize * 0.5 + r, [ORIGIN], Cell(0, 0, 0), y, z, 0.5, ORIGIN);
  }

  lemma MiddleAxis(a: real, b: real, c: real, t: real)
    requires t == 0.5 && a + b == c + c
    ensures (1.0 - t) * a + t * b == c
  {}

  lemma MiddlePoint(y: Vec, z: Vec, x: Vec, t: real)
    requires t == 0.5 && y.x + z.x == x.x + x.x && y.y + z.y == x.y + x.y && y.z + z.z == x.z + x.z
    ensures Lerp(y, z, t) == x
  {
    MiddleAxis(y.x, z.x, x.x, t);
    MiddleAxis(y.y, z.y, x.y, t);
    MiddleAxis(y.z, z.z, x.z, t);
  }

  lemma OnlyItself(p: Vec)
    ensures Mean([p]) == p
  {
    var points := [p];
    assert points[..|points| - 1] == [];
    assert Sum(points) == Add(Sum([]), p);
    OfOne(Sum([p]), p);
  }

  lemma OfOne(s: Vec, p: Vec)
    requires s == Add(ORIGIN, p)
    ensures Vec(s.x / 1.0, s.y / 1.0, s.z / 1.0) == p
  {}

  lemma OriginCell(boxSize: real)
    requires boxSize > 0.0
    ensures CellOf(ORIGIN, boxSize) == Cell(0, 0, 0)
  {}

  lemma AlongX(sqrt: real -> real, y: Vec, z: Vec, s: real)
    requires IsSqrt(sqrt) && s >= 0.0 && z.x - y.x == s && y.y == z.y && y.z == z.z
    ensures Dist(sqrt, y, z) == s
  {
    XDot(Sub(z, y), s);
    RootUnique(sqrt, s * s, s);
  }

  lemma XDot(v: Vec, s: real)
    requires v == Vec(s, 0.0, 0.0)
    ensures Dot(v, v) == s * s
  {}

  // A cell with many points at its corner and one far from it.

  function Copies(m: nat): seq<Vec> { seq(m, _ => ORIGIN) }

  lemma {:induction false} SumOfCopies(m: nat)
    ensures Sum(Copies(m)) == ORIGIN
  {
    if m > 0 {
      SumOfCopies(m - 1);
      assert Copies(m)[..m - 1] == Copies(m - 1);
    }
  }

  function Crowd(m: nat, q: real): seq<Vec> { Copies(m) + [Vec(q, q, 0.0)] }

  lemma MeanOfCrowd(m: nat, q: real, n: real)
    requires n == (m + 1) as real
    ensures Mean(Crowd(m, q)) == Vec(q / n, q / n, 0.0 / n)
  {
    SumOfCopies(m);
    assert Crowd(m, q)[..m] == Copies(m);
  }

  lemma CrowdInCell(m: nat, q: real, boxSize: real)
    requires 0.0 <= q < boxSize
    ensures forall p <- Crowd(m, q) :: CellOf(p, boxSize) == Cell(0, 0, 0)
  {
    OriginCell(boxSize);
    InFirstCell(q, boxSize);
    forall p <- Crowd(m, q)
      ensures CellOf(p, boxSize) == Cell(0, 0, 0)
    {
      assert p == ORIGIN || p == Vec(q, q, 0.0);
    }
  }

  lemma InFirstCell(q: real, boxSize: real)
    requires 0.0 <= q < boxSize
    ensures CellOf(Vec(q, q, 0.0), boxSize) == Cell(0, 0, 0)
  {
    FloorIs(q, 0, boxSize, 0.0);
    FloorIs(0.0, 0, boxSize, 0.0);
  }

  /** A point nearly one cell away from the mean, on two axes. */
  lemma FarFromMean(boxSize: real, epsilon: real) returns (m: nat, q: real, c: real)
    requires boxSize > 0.0 && epsilon > 0.0
    ensures 0.0 <= q < boxSize && c == q / (m + 1) as real && q - c > boxSize - epsilon
  {
    var share := epsilon / 2.0;
    q := boxSize - Min(share, boxSize / 2.0);
    m := Enough(boxSize, share);
    c := q / (m + 1) as real;
    SmallShare(q, boxSize, share, (m + 1) as real, c);
  }

  lemma Enough(boxSize: real, share: real) returns (m: nat)
    requires boxSize > 0.0 && share > 0.0
    ensures share * (m + 1) as real > boxSize
  {
    var k := boxSize / share;
    assert k * share == boxSize;
    if k < 0.0 {
      ProductPositive(-k, share);
    }
    m := k.Floor;
    ProductStrict(k, (m + 1) as real, share);
  }

  lemma SmallShare(q: real, boxSize: real, share: real, n: real, c: real)
    requires n > 0.0 && 0.0 <= q <= boxSize && share * n > boxSize && c == q / n
    ensures c < share
  {
    assert c * n == q;
    FactorStrictOrder(c, share, n);
  }

  lemma DiagonalDot(v: Vec, w: real)
    requires v.x == -(w + w) && v.y == w + w && v.z == 0.0
    ensures Dot(v, v) == 8.0 * (w * w)
  {}

  lemma DiagonalLength(sqrt: real -> real, y: Vec, z: Vec, w: real, s: real)
    requires IsSqrt(sqrt) && s >= 0.0 && 8.0 * (w * w) <= s * s
    requires z.x - y.x == -(w + w) && z.y - y.y == w + w && z.z - y.z == 0.0
    ensures Dist(sqrt, y, z) <= s
  {
    DiagonalDot(Sub(z, y), w);
    NormFacts(sqrt, Sub(z, y));
    SquareMonotone(Dist(sqrt, y, z), s);
  }

  /** The ends of a diagonal step of half widths `w` about a point beyond the far corner. */
  lemma BothEndsOutside(mean: Vec, y: Vec, z: Vec, x: real, w: real, h: real)
    requires mean.x == mean.y && x + w - mean.x > h
    requires y.x == x + w && z.y == x + w
    ensures !InBox(y, mean, Vec(h, h, h)) && !InBox(z, mean, Vec(h, h, h))
  {}

  lemma StepRoundCrowd(
    sqrt: real -> real, r: real, up: Axis, step: real, boxSize: real, margin: real, w: real, s: real,
    m: nat, q: real, c: real, h: real, t: real, x: real)
    requires IsSqrt(sqrt) && boxSize > 0.0 && margin >= 0.0 && t == 0.5
    requires s == Max(step, MINIMUM_STEP) && 8.0 * (w * w) <= s * s
    requires 0.0 <= q < boxSize && Mean(Crowd(m, q)).x == Mean(Crowd(m, q)).y == c
    requires h == boxSize * 0.5 + r && x == q + margin && x + w - c > h
    ensures !EdgesAvoidCubes(sqrt, r, up, step, boxSize, margin)
  {
    var p, y, z := Vec(q, q, 0.0), Vec(x + w, x - w, 0.0), Vec(x - w, x + w, 0.0);
    CrowdInCell(m, q, boxSize);
    DiagonalLength(sqrt, y, z, w, s);
    MiddlePoint(y, z, Vec(x, x, 0.0), t);
    BothEndsOutside(Mean(Crowd(m, q)), y, z, x, w, h);
    assert Crowd(m, q)[m] == p;
    EscapingEdge(sqrt, r, up, step, boxSize, margin, h, Crowd(m, q), Cell(0, 0, 0), y, z, t, p);
  }

  lemma StepRound(
    sqrt: real -> real, r: real, up: Axis, step: real, boxSize: real, margin: real, w: real, s: real)
    requires IsSqrt(sqrt) && boxSize > 0.0 && margin >= 0.0
    requires w > Surplus(r, boxSize, margin) && s == Max(step, MINIMUM_STEP) && 8.0 * (w * w) <= s * s
    ensures !EdgesAvoidCubes(sqrt, r, up, step, boxSize, margin)
  {
    var m, q, c := FarFromMean(boxSize, w - Surplus(r, boxSize, margin));
    MeanOfCrowd(m, q, (m + 1) as real);
    StepRoundCrowd(
      sqrt, r, up, step, boxSize, margin, w, s, m, q, c, boxSize * 0.5 + r, 0.5, q + margin);
  }

  lemma EighthRoot(sqrt: real -> real, s: real, g: real) returns (w: real)
    requires IsSqrt(sqrt) && g >= 0.0 && s * s > 8.0 * (g * g)
    ensures w > g && 8.0 * (w * w) <= s * s
  {
    var e := s * s / 8.0;
    assert RootAt(sqrt, e);
    w := sqrt(e);
    if w <= g {
      ProductMonotone(w, g, w);
      ProductMonotone(w, g, g);
    }
  }

  /** Every accepted edge, over every list of voxels, keeps the margin cubes free if and only if
      the radius covers: it exceeds half a box and the margin by at least the checking step
      over the root of eight, and with the box it is at least half a step. */
  lemma RadiusCoversIffEdgesAvoidCubes(
    sqrt: real -> real, r: real, up: Axis, step: real, boxSize: real, margin: real)
    requires IsSqrt(sqrt) && boxSize > 0.0 && margin >= 0.0
    ensures
      EdgesAvoidCubes(sqrt, r, up, step, boxSize, margin)
      <==> RadiusCovers(r, boxSize, Max(step, MINIMUM_STEP), margin)
  {
    var s, g := Max(step, MINIMUM_STEP), Surplus(r, boxSize, margin);
    if RadiusCovers(r, boxSize, s, margin) {
      AcceptedEdgeAvoidsOccupiedCentres(sqrt, r, up, step, boxSize, margin);
    } else if s > boxSize + 2.0 * r {
      StepAcross(sqrt, r, up, step, boxSize, margin, s, s / 2.0);
    } else if g < 0.0 {
      StepRound(sqrt, r, up, step, boxSize, margin, 0.0, s);
    } else {
      var w := EighthRoot(sqrt, s, g);
      StepRound(sqrt, r, up, step, boxSize, margin, w, s);
    }
  }
}
