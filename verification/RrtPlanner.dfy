/** The bucket-tip RRT planner (`plan_bucket_tip_path` of
    `localmap_core/simple_bucket_tip_planner.py`). The random generator is a parameter: an
    arbitrary function from iteration number to the point drawn. */
module RrtPlanner {
  import opened Geometry
  import opened Collision
  import opened Workspace
  import opened PathShaping
  import opened Wrappers

  /** The planner always compiles cylinders along this axis. */
  const UP_AXIS := AxisY

  const BOUNDS_MARGIN := 0.5

  datatype Bounds = Bounds(minimum: Vec, maximum: Vec)

  datatype Reason =
    | StartOutOfBounds | GoalOutOfBounds
    | StartOutOfReachableWorkspace | GoalOutOfReachableWorkspace
    | StartInCollision | GoalInCollision
    | StraightLine | Planned | MaxIterations

  datatype PlannedPath = PlannedPath(success: bool, waypoints: seq<Vec>, reason: Reason, iterations: nat)

  predicate BoundsContain(b: Bounds, p: Vec) { InBounds(p, b.minimum, b.maximum, 0.0) }

  function InferBounds(start: Vec, goal: Vec, obstacles: seq<Obstacle>): Bounds {
    var points := [start, goal] + seq(|obstacles|, i requires 0 <= i < |obstacles| => obstacles[i].center);
    var margin := Vec(BOUNDS_MARGIN, BOUNDS_MARGIN, BOUNDS_MARGIN);
    Bounds(Sub(Lowest(points), margin), Add(Highest(points), margin))
  }

  /** The start, the goal or the centre of an obstacle. */
  ghost predicate InRequest(start: Vec, goal: Vec, obstacles: seq<Obstacle>, q: Vec) {
    q == start || q == goal || exists o <- obstacles :: o.center == q
  }

  function Along(v: Vec, axis: nat): real { if axis == 0 then v.x else if axis == 1 then v.y else v.z }

  /** Along an axis, half a metre around what the request spans. */
  ghost predicate WithinReach(start: Vec, goal: Vec, obstacles: seq<Obstacle>, axis: nat, p: Vec) {
    exists q: Vec, r: Vec ::
      && InRequest(start, goal, obstacles, q) && InRequest(start, goal, obstacles, r)
      && Along(q, axis) - 0.5 <= Along(p, axis) <= Along(r, axis) + 0.5
  }

  lemma WithinReachIff(
    start: Vec, goal: Vec, obstacles: seq<Obstacle>, points: seq<Vec>, axis: nat, p: Vec, lo: real, hi: real)
    requires forall q :: q in points <==> InRequest(start, goal, obstacles, q)
    requires forall q <- points :: lo <= Along(q, axis) <= hi
    requires (exists q <- points :: Along(q, axis) == lo) && (exists q <- points :: Along(q, axis) == hi)
    ensures WithinReach(start, goal, obstacles, axis, p) <==> lo - 0.5 <= Along(p, axis) <= hi + 0.5
  {
    var q :| q in points && Along(q, axis) == lo;
    var r :| r in points && Along(r, axis) == hi;
    assert InRequest(start, goal, obstacles, q) && InRequest(start, goal, obstacles, r);
  }

  lemma RequestPoints(start: Vec, goal: Vec, obstacles: seq<Obstacle>, points: seq<Vec>)
    requires points == [start, goal] + seq(|obstacles|, i requires 0 <= i < |obstacles| => obstacles[i].center)
    ensures forall q :: q in points <==> InRequest(start, goal, obstacles, q)
  {
    forall q
      ensures q in points <==> InRequest(start, goal, obstacles, q)
    {
      if q in points {
        var i :| 0 <= i < |points| && points[i] == q;
        assert i >= 2 ==> obstacles[i - 2] in obstacles;
      }
      if o :| o in obstacles && o.center == q {
        var i :| 0 <= i < |obstacles| && obstacles[i] == o;
        assert points[i + 2] == q;
      }
      assert points[0] == start && points[1] == goal;
    }
  }

  lemma SpanAlong(points: seq<Vec>, axis: nat, lo: Vec, hi: Vec)
    requires points != [] && lo == Lowest(points) && hi == Highest(points)
    ensures forall q <- points :: Along(lo, axis) <= Along(q, axis) <= Along(hi, axis)
    ensures exists q <- points :: Along(q, axis) == Along(lo, axis)
    ensures exists q <- points :: Along(q, axis) == Along(hi, axis)
  {
    BoxIsTight(points);
  }

  lemma InferredBy(start: Vec, goal: Vec, obstacles: seq<Obstacle>, p: Vec, lo: Vec, hi: Vec)
    requires InferBounds(start, goal, obstacles)
             == Bounds(Vec(lo.x - 0.5, lo.y - 0.5, lo.z - 0.5), Vec(hi.x + 0.5, hi.y + 0.5, hi.z + 0.5))
    ensures BoundsContain(InferBounds(start, goal, obstacles), p) <==>
      forall axis: nat :: axis < 3 ==> Along(lo, axis) - 0.5 <= Along(p, axis) <= Along(hi, axis) + 0.5
  {
    assert Along(p, 0) == p.x && Along(p, 1) == p.y && Along(p, 2) == p.z;
    assert Along(lo, 0) == lo.x && Along(lo, 1) == lo.y && Along(lo, 2) == lo.z;
    assert Along(hi, 0) == hi.x && Along(hi, 1) == hi.y && Along(hi, 2) == hi.z;
  }

  /** The bounds inferred for a request hold a point exactly when along each axis it is within
      half a metre of what start, goal and obstacle centres span. */
  lemma InferredBoundsMean(start: Vec, goal: Vec, obstacles: seq<Obstacle>, p: Vec)
    ensures BoundsContain(InferBounds(start, goal, obstacles), p) <==>
      forall axis: nat :: axis < 3 ==> WithinReach(start, goal, obstacles, axis, p)
  {
    var points := [start, goal] + seq(|obstacles|, i requires 0 <= i < |obstacles| => obstacles[i].center);
    var lo, hi := Lowest(points), Highest(points);
    InferredBy(start, goal, obstacles, p, lo, hi);
    RequestPoints(start, goal, obstacles, points);
    forall axis: nat | axis < 3
      ensures WithinReach(start, goal, obstacles, axis, p) <==>
        Along(lo, axis) - 0.5 <= Along(p, axis) <= Along(hi, axis) + 0.5
    {
      SpanAlong(points, axis, lo, hi);
      WithinReachIff(start, goal, obstacles, points, axis, p, Along(lo, axis), Along(hi, axis));
    }
  }

  function Steer(sqrt: real -> real, from: Vec, target: Vec, stepSize: real): Vec
    requires stepSize >= 0.0
  {
    var delta := Sub(target, from);
    var distance := Norm(sqrt, delta);
    if distance <= stepSize then target
    else Add(from, Scale(stepSize, Vec(delta.x / distance, delta.y / distance, delta.z / distance)))
  }

  /** A steered point lies on the segment to the target, at the step's distance or at the
      target itself if that is nearer. */
  lemma SteerReach(sqrt: real -> real, from: Vec, target: Vec, stepSize: real)
    requires IsSqrt(sqrt)
    requires stepSize >= 0.0
    ensures Dist(sqrt, from, Steer(sqrt, from, target, stepSize)) == Min(stepSize, Dist(sqrt, from, target))
    ensures exists t: real :: 0.0 <= t <= 1.0 && Steer(sqrt, from, target, stepSize) == Lerp(from, target, t)
  {
    var distance := Dist(sqrt, from, target);
    if distance <= stepSize {
      var t := 1.0;
      LerpAtOne(from, target);
      assert Steer(sqrt, from, target, stepSize) == Lerp(from, target, t);
    } else {
      StepAlong(sqrt, from, target, stepSize, distance);
      var delta := Sub(target, from);
      FractionInRange(stepSize, distance);
      DividedBack(delta.x, distance);
      DividedBack(delta.y, distance);
      DividedBack(delta.z, distance);
      StepIsLerp(
        from, target, Vec(delta.x / distance, delta.y / distance, delta.z / distance),
        stepSize, distance, stepSize / distance);
    }
  }

  lemma StepAlong(sqrt: real -> real, from: Vec, target: Vec, stepSize: real, distance: real)
    requires IsSqrt(sqrt) && 0.0 <= stepSize < distance == Dist(sqrt, from, target)
    ensures Dist(sqrt, from, Steer(sqrt, from, target, stepSize)) == stepSize
  {
    var delta := Sub(target, from);
    var unit := Vec(delta.x / distance, delta.y / distance, delta.z / distance);
    assert unit == Scale(1.0 / distance, delta) by {
      QuotientAsProduct(delta.x, distance);
      QuotientAsProduct(delta.y, distance);
      QuotientAsProduct(delta.z, distance);
    }
    NormScale(sqrt, 1.0 / distance, delta);
    UnitLength(distance);
    NormScale(sqrt, stepSize, unit);
    assert Sub(Add(from, Scale(stepSize, unit)), from) == Scale(stepSize, unit);
  }

  lemma StepIsLerp(from: Vec, target: Vec, unit: Vec, stepSize: real, distance: real, t: real)
    requires t * distance == stepSize
    requires unit.x * distance == target.x - from.x
    requires unit.y * distance == target.y - from.y
    requires unit.z * distance == target.z - from.z
    ensures Add(from, Scale(stepSize, unit)) == Lerp(from, target, t)
  {
    StepAxis(from.x, target.x, unit.x, stepSize, distance, t);
    StepAxis(from.y, target.y, unit.y, stepSize, distance, t);
    StepAxis(from.z, target.z, unit.z, stepSize, distance, t);
  }

  lemma FractionInRange(a: real, b: real)
    requires 0.0 <= a < b
    ensures 0.0 <= a / b <= 1.0
    ensures (a / b) * b == a
  {}

  lemma DividedBack(a: real, d: real)
    requires d != 0.0
    ensures (a / d) * d == a
  {}

  lemma StepAxis(a: real, b: real, q: real, stepSize: real, distance: real, t: real)
    requires q * distance == b - a && t * distance == stepSize
    ensures a + stepSize * q == (1.0 - t) * a + t * b
  {
    ProductSwap(t, distance, q);
    assert t * (b - a) == t * b - t * a;
  }

  lemma ProductSwap(t: real, d: real, q: real)
    ensures (t * d) * q == t * (q * d)
  {}

  lemma UnitLength(d: real)
    requires d > 0.0
    ensures Abs(1.0 / d) * d == 1.0
  {
    assert 1.0 / d > 0.0;
  }

  function NearestIndex(sqrt: real -> real, nodes: seq<Vec>, sample: Vec): (best: nat)
    requires nodes != []
    ensures best < |nodes|
  {
    var n := |nodes| - 1;
    if n == 0 then 0
    else
      var best := NearestIndex(sqrt, nodes[..n], sample);
      if Dist(sqrt, sample, nodes[n]) < Dist(sqrt, sample, nodes[best]) then n else best
  }

  /** It is the first index with the least distance to the sample. */
  lemma {:induction false} NearestIsFirstLeast(sqrt: real -> real, nodes: seq<Vec>, sample: Vec, k: nat)
    requires k < |nodes|
    ensures
      var best := NearestIndex(sqrt, nodes, sample);
      && Dist(sqrt, sample, nodes[best]) <= Dist(sqrt, sample, nodes[k])
      && (k < best ==> Dist(sqrt, sample, nodes[best]) < Dist(sqrt, sample, nodes[k]))
  {
    var n := |nodes| - 1;
    if n > 0 {
      if k < n {
        NearestIsFirstLeast(sqrt, nodes[..n], sample, k);
      } else {
        NearestIsFirstLeast(sqrt, nodes[..n], sample, NearestIndex(sqrt, nodes[..n], sample));
      }
    }
  }

  method Nearest(sqrt: real -> real, nodes: seq<Vec>, sample: Vec) returns (best: nat)
    requires nodes != []
    ensures best == NearestIndex(sqrt, nodes, sample)
  {
    best := 0;
    for i := 1 to |nodes|
      invariant best == NearestIndex(sqrt, nodes[..i], sample)
    {
      assert nodes[..i + 1][..i] == nodes[..i];
      if Dist(sqrt, sample, nodes[i]) < Dist(sqrt, sample, nodes[best]) {
        best := i;
      }
    }
    assert nodes[..|nodes|] == nodes;
  }

  // ------------------------------------------------------------------------- the tree

  /** Every parent comes before its child; the root is its own tree. */
  predicate ParentsPrecede(nodes: seq<Vec>, parents: seq<int>) {
    && |nodes| == |parents| > 0
    && parents[0] == -1
    && forall i :: 1 <= i < |parents| ==> 0 <= parents[i] < i
  }

  ghost predicate IsTree(
    sqrt: real -> real, world: World, b: Bounds, start: Vec, stepSize: real, nodes: seq<Vec>, parents: seq<int>)
  {
    && ParentsPrecede(nodes, parents)
    && nodes[0] == start
    && (forall i :: 0 <= i < |nodes| ==> BoundsContain(b, nodes[i]))
    && forall i :: 1 <= i < |nodes| ==>
         && EdgeOk(sqrt, world, nodes[parents[i]], nodes[i])
         && Dist(sqrt, nodes[parents[i]], nodes[i]) <= stepSize
  }

  function Trace(nodes: seq<Vec>, parents: seq<int>, i: nat): (path: seq<Vec>)
    requires ParentsPrecede(nodes, parents) && i < |nodes|
    ensures path != [] && path[0] == nodes[0] && path[|path| - 1] == nodes[i]
  {
    if i == 0 then [nodes[0]] else Trace(nodes, parents, parents[i]) + [nodes[i]]
  }

  function Reversed(s: seq<Vec>): (r: seq<Vec>)
    ensures |r| == |s|
  {
    if s == [] then [] else Reversed(s[1..]) + [s[0]]
  }

  lemma {:induction false} ReversedAppend(s: seq<Vec>, v: Vec)
    ensures Reversed(s + [v]) == [v] + Reversed(s)
  {
    if s == [] {
      assert Reversed([v]) == [v];
    } else {
      ReversedAppend(s[1..], v);
      assert (s + [v])[1..] == s[1..] + [v];
    }
  }

  method ReconstructPath(nodes: seq<Vec>, parents: seq<int>, index: nat) returns (path: seq<Vec>)
    requires ParentsPrecede(nodes, parents) && index < |nodes|
    ensures path == Trace(nodes, parents, index)
  {
    var reversedPoints: seq<Vec> := [];
    var node: int := index;
    while node >= 0
      invariant -1 <= node < |nodes|
      invariant (if node >= 0 then Trace(nodes, parents, node) else []) + Reversed(reversedPoints)
             == Trace(nodes, parents, index)
      decreases node
    {
      ReversedAppend(reversedPoints, nodes[node]);
      assert
        (if node == 0 then [] else Trace(nodes, parents, parents[node])) + ([nodes[node]] + Reversed(reversedPoints))
          == Trace(nodes, parents, node) + Reversed(reversedPoints);
      reversedPoints := reversedPoints + [nodes[node]];
      node := parents[node];
    }
    path := Reversed(reversedPoints);
  }

  /** A checked path from start to goal inside the bounds. */
  ghost predicate Route(sqrt: real -> real, world: World, b: Bounds, start: Vec, goal: Vec, path: seq<Vec>) {
    && |path| >= 2
    && path[0] == start && path[|path| - 1] == goal
    && AllEdgesOk(sqrt, world, path)
    && forall p <- path :: BoundsContain(b, p)
  }

  lemma {:induction false} TraceIsChecked(
    sqrt: real -> real, world: World, b: Bounds, start: Vec, stepSize: real, nodes: seq<Vec>, parents: seq<int>, i: nat)
    requires IsTree(sqrt, world, b, start, stepSize, nodes, parents) && i < |nodes|
    ensures
      var path := Trace(nodes, parents, i);
      && AllEdgesOk(sqrt, world, path)
      && (forall p <- path :: BoundsContain(b, p))
      && (i > 0 ==> |path| >= 2)
      && forall j, k :: 0 <= j && k == j + 1 < |path| ==> Dist(sqrt, path[j], path[k]) <= stepSize
  {
    if i > 0 {
      TraceIsChecked(sqrt, world, b, start, stepSize, nodes, parents, parents[i]);
    }
  }

  lemma ShortcutKeepsRoute(
    sqrt: real -> real, world: World, b: Bounds, start: Vec, goal: Vec, path: seq<Vec>, passes: nat)
    requires IsSqrt(sqrt)
    requires Route(sqrt, world, b, start, goal, path)
    ensures Route(sqrt, world, b, start, goal, Shortcut(sqrt, world, path, passes))
    ensures Length(sqrt, Shortcut(sqrt, world, path, passes)) <= Length(sqrt, path)
  {
    ShortcutPreservesRoute(sqrt, world, path, passes);
    var out := Shortcut(sqrt, world, path, passes);
    var index: seq<nat> :| Selects(path, index, out);
    assert |out| >= 2;
    forall p <- out
      ensures BoundsContain(b, p)
    {
      var k :| 0 <= k < |out| && out[k] == p;
      assert path[index[k]] in path;
    }
  }

  // ----------------------------------------------------------------------- the planner

  function EffectiveBounds(bounds: Option<Bounds>, start: Vec, goal: Vec, obstacles: seq<Obstacle>): Bounds {
    if bounds.Some? then bounds.value else InferBounds(start, goal, obstacles)
  }

  predicate Reachable(world: World, p: Vec) {
    world.workspace.Some? ==> Contains(world.workspace.value, p, CONTAINS_EPSILON)
  }

  /** Start and goal pass all the checks made before any search. */
  predicate Admissible(sqrt: real -> real, world: World, b: Bounds, start: Vec, goal: Vec) {
    && BoundsContain(b, start) && BoundsContain(b, goal)
    && Reachable(world, start) && Reachable(world, goal)
    && !PointInCollision(sqrt, start, world.obstacles) && !PointInCollision(sqrt, goal, world.obstacles)
  }

  /** The waypoints are the resampling of some checked route. */
  ghost predicate ResamplesARoute(
    sqrt: real -> real, world: World, b: Bounds, start: Vec, goal: Vec, count: Option<int>, waypoints: seq<Vec>)
  {
    exists path :: Route(sqrt, world, b, start, goal, path) && waypoints == Resample(sqrt, path, count)
  }

  lemma AddNode(
    sqrt: real -> real, world: World, b: Bounds, start: Vec, stepSize: real,
    nodes: seq<Vec>, parents: seq<int>, node: Vec, parent: nat)
    requires IsTree(sqrt, world, b, start, stepSize, nodes, parents)
    requires parent < |nodes| && BoundsContain(b, node)
    requires EdgeOk(sqrt, world, nodes[parent], node) && Dist(sqrt, nodes[parent], node) <= stepSize
    ensures IsTree(sqrt, world, b, start, stepSize, nodes + [node], parents + [parent])
  {}

  /** The tree of the search; `found` when the goal is its last node. */
  datatype Growth = Growth(nodes: seq<Vec>, parents: seq<int>, found: bool)

  /** What the search is given. */
  datatype Problem = Problem(world: World, b: Bounds, start: Vec, goal: Vec, stepSize: real)

  predicate ProblemOk(p: Problem) {
    p.stepSize >= 0.0 && BoundsContain(p.b, p.start) && BoundsContain(p.b, p.goal)
  }

  /** One sample: it is dropped, it adds a node, or it adds a node and the goal. */
  function Extended(sqrt: real -> real, p: Problem, g: Growth, sample: Vec): (next: Growth)
    requires p.stepSize >= 0.0 && ParentsPrecede(g.nodes, g.parents)
    ensures ParentsPrecede(next.nodes, next.parents)
  {
    if !BoundsContain(p.b, sample) then g
    else
      var nearest := NearestIndex(sqrt, g.nodes, sample);
      var candidate := Steer(sqrt, g.nodes[nearest], sample, p.stepSize);
      if !BoundsContain(p.b, candidate) || !EdgeOk(sqrt, p.world, g.nodes[nearest], candidate) then g
      else
        var nodes, parents := g.nodes + [candidate], g.parents + [nearest];
        if Dist(sqrt, candidate, p.goal) <= p.stepSize && EdgeOk(sqrt, p.world, candidate, p.goal) then
          Growth(nodes + [p.goal], parents + [|g.nodes|], true)
        else Growth(nodes, parents, false)
  }

  /** The tree after the first `k` samples; finding the goal ends the growth. */
  function GrowthAfter(sqrt: real -> real, p: Problem, draw: nat -> Vec, k: nat): (g: Growth)
    requires p.stepSize >= 0.0
    ensures ParentsPrecede(g.nodes, g.parents)
  {
    if k == 0 then Growth([p.start], [-1], false)
    else
      var g := GrowthAfter(sqrt, p, draw, k - 1);
      if g.found then g else Extended(sqrt, p, g, draw(k))
  }

  ghost predicate GrowthOk(sqrt: real -> real, p: Problem, g: Growth) {
    && IsTree(sqrt, p.world, p.b, p.start, p.stepSize, g.nodes, g.parents)
    && (g.found ==> |g.nodes| >= 2 && g.nodes[|g.nodes| - 1] == p.goal)
  }

  lemma ExtendedIsTree(sqrt: real -> real, p: Problem, g: Growth, sample: Vec)
    requires IsSqrt(sqrt) && ProblemOk(p) && GrowthOk(sqrt, p, g) && !g.found
    ensures GrowthOk(sqrt, p, Extended(sqrt, p, g, sample))
  {
    var next := Extended(sqrt, p, g, sample);
    if next != g {
      var nearest := NearestIndex(sqrt, g.nodes, sample);
      var candidate := Steer(sqrt, g.nodes[nearest], sample, p.stepSize);
      SteerReach(sqrt, g.nodes[nearest], sample, p.stepSize);
      AddNode(sqrt, p.world, p.b, p.start, p.stepSize, g.nodes, g.parents, candidate, nearest);
      if next.found {
        AddNode(
          sqrt, p.world, p.b, p.start, p.stepSize, g.nodes + [candidate], g.parents + [nearest], p.goal, |g.nodes|);
      }
    }
  }

  /** For every sequence of samples and at every moment the search holds a tree: parents
      before children, every edge accepted and no longer than a step, every node in bounds. */
  lemma {:induction false} GrowthIsTree(sqrt: real -> real, p: Problem, draw: nat -> Vec, k: nat)
    requires IsSqrt(sqrt) && ProblemOk(p)
    ensures GrowthOk(sqrt, p, GrowthAfter(sqrt, p, draw, k))
  {
    if k > 0 {
      GrowthIsTree(sqrt, p, draw, k - 1);
      var g := GrowthAfter(sqrt, p, draw, k - 1);
      if !g.found {
        ExtendedIsTree(sqrt, p, g, draw(k));
      }
    }
  }

  /** What holds at zero and from each number to the next one holds up to `n`. */
  lemma {:induction false} Climb(holds: nat -> bool, n: nat)
    requires holds(0) && forall k: nat, j: nat :: j == k + 1 <= n && holds(k) ==> holds(j)
    ensures holds(n)
    decreases n
  {
    if n > 0 {
      Climb(holds, n - 1);
    }
  }

  /** The state after `k` turns from `start`. */
  function Iterated(turn: (Growth, nat) -> Growth, start: Growth, k: nat): Growth {
    if k == 0 then start else turn(Iterated(turn, start, k - 1), k)
  }

  lemma {:induction false} IteratedStops(turn: (Growth, nat) -> Growth, start: Growth, k: nat, more: nat)
    requires k <= more && Iterated(turn, start, k).found
    requires forall g: Growth, i: nat :: g.found ==> turn(g, i) == g
    ensures Iterated(turn, start, more) == Iterated(turn, start, k)
    decreases more
  {
    if k < more {
      IteratedStops(turn, start, k, more - 1);
    }
  }

  function Turn(sqrt: real -> real, p: Problem, g: Growth, sample: Vec): Growth
    requires p.stepSize >= 0.0
  {
    if g.found || !ParentsPrecede(g.nodes, g.parents) then g else Extended(sqrt, p, g, sample)
  }

  lemma OneTurn(sqrt: real -> real, p: Problem, draw: nat -> Vec, k: nat, j: nat)
    requires p.stepSize >= 0.0 && j == k + 1
    ensures GrowthAfter(sqrt, p, draw, j) == Turn(sqrt, p, GrowthAfter(sqrt, p, draw, k), draw(j))
  {}

  lemma {:induction false} GrowthIsIterated(
    sqrt: real -> real, p: Problem, draw: nat -> Vec, turn: (Growth, nat) -> Growth, k: nat)
    requires p.stepSize >= 0.0 && forall g: Growth, i: nat :: turn(g, i) == Turn(sqrt, p, g, draw(i))
    ensures GrowthAfter(sqrt, p, draw, k) == Iterated(turn, Growth([p.start], [-1], false), k)
  {
    if k > 0 {
      GrowthIsIterated(sqrt, p, draw, turn, k - 1);
      OneTurn(sqrt, p, draw, k - 1, k);
    }
  }

  lemma GrowthStops(sqrt: real -> real, p: Problem, draw: nat -> Vec, k: nat, more: nat)
    requires p.stepSize >= 0.0 && k <= more && GrowthAfter(sqrt, p, draw, k).found
    ensures GrowthAfter(sqrt, p, draw, more) == GrowthAfter(sqrt, p, draw, k)
  {
    var turn := (g: Growth, i: nat) => if p.stepSize >= 0.0 then Turn(sqrt, p, g, draw(i)) else g;
    GrowthIsIterated(sqrt, p, draw, turn, k);
    GrowthIsIterated(sqrt, p, draw, turn, more);
    IteratedStops(turn, Growth([p.start], [-1], false), k, more);
  }

  lemma FoundStays(sqrt: real -> real, p: Problem, draw: nat -> Vec, k: nat, more: nat)
    requires p.stepSize >= 0.0 && k <= more && GrowthAfter(sqrt, p, draw, k).found
    ensures GrowthAfter(sqrt, p, draw, more).found
  {
    GrowthStops(sqrt, p, draw, k, more);
  }

  // -------------------------------------------------------------------- how the tree grows

  /** Node `near` is the first of those nearest to the sample. */
  predicate FirstNearest(sqrt: real -> real, nodes: seq<Vec>, sample: Vec, near: nat) {
    && near < |nodes|
    && (forall j :: 0 <= j < |nodes| ==> Dist(sqrt, sample, nodes[near]) <= Dist(sqrt, sample, nodes[j]))
    && (forall j :: 0 <= j < near ==> Dist(sqrt, sample, nodes[near]) < Dist(sqrt, sample, nodes[j]))
  }

  lemma FirstNearestIsUnique(sqrt: real -> real, nodes: seq<Vec>, sample: Vec, near: nat)
    requires nodes != [] && FirstNearest(sqrt, nodes, sample, near)
    ensures NearestIndex(sqrt, nodes, sample) == near
  {
    NearestIsFirstLeast(sqrt, nodes, sample, near);
    var best := NearestIndex(sqrt, nodes, sample);
    assert Dist(sqrt, sample, nodes[near]) <= Dist(sqrt, sample, nodes[best]);
  }

  /** A sample in the bounds from which a step leads to a point in the bounds by an accepted edge. */
  predicate Kept(sqrt: real -> real, p: Problem, from: Vec, sample: Vec, candidate: Vec) {
    BoundsContain(p.b, sample) && BoundsContain(p.b, candidate) && EdgeOk(sqrt, p.world, from, candidate)
  }

  /** The goal is at most a step away, by an accepted edge. */
  predicate Attaches(sqrt: real -> real, p: Problem, candidate: Vec) {
    Dist(sqrt, candidate, p.goal) <= p.stepSize && EdgeOk(sqrt, p.world, candidate, p.goal)
  }

  /** What each sample does to a tree without the goal: the point steered towards it from the
      first nearest node becomes a new node below that node exactly when sample, point and edge
      pass the checks; the goal becomes a node below the point exactly when it can be attached. */
  lemma SampleGrowsTree(sqrt: real -> real, p: Problem, draw: nat -> Vec, k: nat, near: nat)
    requires p.stepSize >= 0.0 && !GrowthAfter(sqrt, p, draw, k).found
    requires FirstNearest(sqrt, GrowthAfter(sqrt, p, draw, k).nodes, draw(k + 1), near)
    ensures
      var g, next := GrowthAfter(sqrt, p, draw, k), GrowthAfter(sqrt, p, draw, k + 1);
      var candidate := Steer(sqrt, g.nodes[near], draw(k + 1), p.stepSize);
      var kept := Kept(sqrt, p, g.nodes[near], draw(k + 1), candidate);
      var attached := kept && Attaches(sqrt, p, candidate);
      && next.nodes == g.nodes + (if kept then [candidate] else []) + (if attached then [p.goal] else [])
      && next.parents == g.parents + (if kept then [near] else []) + (if attached then [|g.nodes|] else [])
      && next.found == attached
  {
    var g := GrowthAfter(sqrt, p, draw, k);
    FirstNearestIsUnique(sqrt, g.nodes, draw(k + 1), near);
    assert g.nodes + [] + [] == g.nodes && g.parents + [] + [] == g.parents;
  }

  /** A way from start to goal in steps that the search can take: inside the bounds, by accepted
      edges no longer than a step, and each point nearer to the one before it than to any
      earlier one. */
  ghost predicate Chain(sqrt: real -> real, p: Problem, points: seq<Vec>) {
    && |points| >= 3 && points[0] == p.start && points[|points| - 1] == p.goal
    && (forall q <- points :: BoundsContain(p.b, q))
    && (forall i, j :: 0 <= i && j == i + 1 < |points| ==>
          EdgeOk(sqrt, p.world, points[i], points[j]) && Dist(sqrt, points[i], points[j]) <= p.stepSize)
    && (forall h, i, j :: 0 <= h < i && j == i + 1 < |points| - 1 ==>
          Dist(sqrt, points[j], points[i]) < Dist(sqrt, points[j], points[h]))
  }

  /** The samples are the inner points of the chain. */
  ghost predicate Draws(draw: nat -> Vec, points: seq<Vec>) {
    forall i :: 1 <= i < |points| - 1 ==> draw(i) == points[i]
  }

  lemma LastIsNearest(sqrt: real -> real, p: Problem, points: seq<Vec>, k: nat, j: nat)
    requires Chain(sqrt, p, points) && j == k + 1 < |points| - 1
    ensures FirstNearest(sqrt, points[..j], points[j], k)
  {
    forall h | 0 <= h < k
      ensures Dist(sqrt, points[j], points[k]) < Dist(sqrt, points[j], points[..j][h])
    {
      assert points[..j][h] == points[h];
    }
  }

  /** Before the last inner point the tree is the chain so far; then the goal is found. */
  predicate FollowsChain(g: Growth, points: seq<Vec>, k: nat) {
    g.found || (k + 2 < |points| && g.nodes == points[..k + 1])
  }

  lemma SteerToNear(sqrt: real -> real, from: Vec, target: Vec, stepSize: real)
    requires stepSize >= 0.0 && Dist(sqrt, from, target) <= stepSize
    ensures Steer(sqrt, from, target, stepSize) == target
  {}

  lemma ChainLink(sqrt: real -> real, p: Problem, points: seq<Vec>, i: nat, j: nat)
    requires Chain(sqrt, p, points) && j == i + 1 < |points|
    ensures EdgeOk(sqrt, p.world, points[i], points[j]) && Dist(sqrt, points[i], points[j]) <= p.stepSize
    ensures BoundsContain(p.b, points[j])
  {
    assert points[j] in points;
  }

  /** The step that the chain prescribes is kept, and the goal attached from its last inner point. */
  lemma ChainStepIsKept(sqrt: real -> real, p: Problem, points: seq<Vec>, k: nat, j: nat)
    requires p.stepSize >= 0.0 && Chain(sqrt, p, points) && j == k + 1 < |points| - 1
    ensures Steer(sqrt, points[k], points[j], p.stepSize) == points[j]
    ensures Kept(sqrt, p, points[k], points[j], points[j])
    ensures j == |points| - 2 ==> Attaches(sqrt, p, points[j])
  {
    ChainLink(sqrt, p, points, k, j);
    ChainLink(sqrt, p, points, j, j + 1);
    SteerToNear(sqrt, points[k], points[j], p.stepSize);
  }

  lemma ChainContinues(g: Growth, next: Growth, points: seq<Vec>, k: nat, j: nat, attached: bool, goal: Vec)
    requires j == k + 1 < |points| - 1 && g.nodes == points[..j] && next.found == attached
    requires next.nodes == g.nodes + [points[j]] + (if attached then [goal] else [])
    requires j == |points| - 2 ==> attached
    ensures FollowsChain(next, points, j)
  {
    assert points[..j] + [points[j]] + [] == points[..j + 1];
  }

  lemma ChainStep(sqrt: real -> real, p: Problem, draw: nat -> Vec, points: seq<Vec>, k: nat, j: nat)
    requires p.stepSize >= 0.0 && Chain(sqrt, p, points) && Draws(draw, points) && j == k + 1 < |points| - 1
    requires !GrowthAfter(sqrt, p, draw, k).found && FollowsChain(GrowthAfter(sqrt, p, draw, k), points, k)
    ensures FollowsChain(GrowthAfter(sqrt, p, draw, j), points, j)
  {
    LastIsNearest(sqrt, p, points, k, j);
    SampleGrowsTree(sqrt, p, draw, k, k);
    ChainStepIsKept(sqrt, p, points, k, j);
    ChainContinues(
      GrowthAfter(sqrt, p, draw, k), GrowthAfter(sqrt, p, draw, j), points, k, j, Attaches(sqrt, p, points[j]), p.goal);
  }

  lemma ChainOneMore(sqrt: real -> real, p: Problem, draw: nat -> Vec, points: seq<Vec>, k: nat, j: nat)
    requires p.stepSize >= 0.0 && Chain(sqrt, p, points) && Draws(draw, points) && j == k + 1 < |points| - 1
    requires FollowsChain(GrowthAfter(sqrt, p, draw, k), points, k)
    ensures FollowsChain(GrowthAfter(sqrt, p, draw, j), points, j)
  {
    if GrowthAfter(sqrt, p, draw, k).found {
      FoundStays(sqrt, p, draw, k, j);
    } else {
      ChainStep(sqrt, p, draw, points, k, j);
    }
  }

  lemma ChainBegins(sqrt: real -> real, p: Problem, draw: nat -> Vec, points: seq<Vec>)
    requires p.stepSize >= 0.0 && Chain(sqrt, p, points)
    ensures FollowsChain(GrowthAfter(sqrt, p, draw, 0), points, 0)
  {
    assert points[..1] == [p.start];
  }

  /** The tree has followed the chain up to point `k`. */
  ghost predicate FollowedUpTo(sqrt: real -> real, p: Problem, draw: nat -> Vec, points: seq<Vec>, k: nat)
    requires p.stepSize >= 0.0
  {
    k + 1 < |points| && FollowsChain(GrowthAfter(sqrt, p, draw, k), points, k)
  }

  lemma FollowsOneMore(sqrt: real -> real, p: Problem, draw: nat -> Vec, points: seq<Vec>, k: nat, j: nat)
    requires p.stepSize >= 0.0 && Chain(sqrt, p, points) && Draws(draw, points) && j == k + 1 < |points| - 1
    requires FollowedUpTo(sqrt, p, draw, points, k)
    ensures FollowedUpTo(sqrt, p, draw, points, j)
  {
    ChainOneMore(sqrt, p, draw, points, k, j);
  }

  lemma ChainGrows(sqrt: real -> real, p: Problem, draw: nat -> Vec, points: seq<Vec>, n: nat)
    requires p.stepSize >= 0.0 && Chain(sqrt, p, points) && Draws(draw, points) && n + 1 < |points|
    ensures FollowedUpTo(sqrt, p, draw, points, n)
  {
    var holds := (k: nat) => FollowedUpTo(sqrt, p, draw, points, k);
    ChainBegins(sqrt, p, draw, points);
    forall k: nat, j: nat | j == k + 1 <= n && holds(k)
      ensures holds(j)
    {
      FollowsOneMore(sqrt, p, draw, points, k, j);
    }
    Climb(holds, n);
  }

  lemma ChainEnds(g: Growth, points: seq<Vec>, k: nat)
    requires k + 2 == |points| && FollowsChain(g, points, k)
    ensures g.found
  {}

  /** The search does not miss a way that the samples show it: drawing the inner points of a chain
      makes it succeed no later than at the last of them. */
  lemma ChainIsFound(sqrt: real -> real, p: Problem, draw: nat -> Vec, points: seq<Vec>, last: nat)
    requires p.stepSize >= 0.0 && Chain(sqrt, p, points) && Draws(draw, points) && last + 2 == |points|
    ensures GrowthAfter(sqrt, p, draw, last).found
  {
    ChainGrows(sqrt, p, draw, points, last);
    ChainEnds(GrowthAfter(sqrt, p, draw, last), points, last);
  }

  // ------------------------------------------------------------------------- the search

  /** The waypoints made of a finished growth. */
  function WaypointsOf(sqrt: real -> real, world: World, g: Growth, count: Option<int>): seq<Vec>
    requires ParentsPrecede(g.nodes, g.parents)
  {
    Resample(sqrt, Shortcut(sqrt, world, Trace(g.nodes, g.parents, |g.nodes| - 1), 2), count)
  }

  /** The body of the search loop. */
  method GrowOnce(sqrt: real -> real, p: Problem, g: Growth, sample: Vec) returns (next: Growth)
    requires p.stepSize >= 0.0 && ParentsPrecede(g.nodes, g.parents)
    ensures next == Extended(sqrt, p, g, sample)
  {
    if !BoundsContain(p.b, sample) {
      return g;
    }
    var nearest := Nearest(sqrt, g.nodes, sample);
    var candidate := Steer(sqrt, g.nodes[nearest], sample, p.stepSize);
    if !BoundsContain(p.b, candidate) {
      return g;
    }
    var edgeOk := CheckEdge(sqrt, p.world, g.nodes[nearest], candidate);
    if !edgeOk {
      return g;
    }
    var nodes, parents := g.nodes + [candidate], g.parents + [nearest];
    var index := |nodes| - 1;
    var finalOk := CheckEdge(sqrt, p.world, candidate, p.goal);
    if Dist(sqrt, candidate, p.goal) <= p.stepSize && finalOk {
      return Growth(nodes + [p.goal], parents + [index], true);
    }
    return Growth(nodes, parents, false);
  }

  /** Backtracking, shortcutting and resampling of a finished tree. */
  method FinishSearch(sqrt: real -> real, world: World, g: Growth, waypointCount: Option<int>)
    returns (waypoints: seq<Vec>)
    requires ParentsPrecede(g.nodes, g.parents)
    ensures waypoints == WaypointsOf(sqrt, world, g, waypointCount)
  {
    var rawPath := ReconstructPath(g.nodes, g.parents, |g.nodes| - 1);
    var simplified := ShortcutPath(sqrt, world, rawPath);
    waypoints := ResamplePath(sqrt, simplified, waypointCount);
  }

  /** The search loop: grow the tree until the goal can be attached. It succeeds exactly when
      the growth finds the goal within the iterations, at the first of them that does. */
  method Search(
    sqrt: real -> real, p: Problem, maxIterations: nat, waypointCount: Option<int>, draw: nat -> Vec)
    returns (found: Option<seq<Vec>>, iterations: nat)
    requires p.stepSize >= 0.0
    ensures
      var g := GrowthAfter(sqrt, p, draw, maxIterations);
      && (found.Some? <==> g.found)
      && (found.Some? ==> found.value == WaypointsOf(sqrt, p.world, g, waypointCount))
    ensures found.Some? ==> iterations <= maxIterations && FirstFound(sqrt, p, draw, iterations)
    ensures found.None? ==> iterations == maxIterations
  {
    var g := Growth([p.start], [-1], false);
    for iteration := 0 to maxIterations
      invariant g == GrowthAfter(sqrt, p, draw, iteration) && !g.found
    {
      g := GrowOnce(sqrt, p, g, draw(iteration + 1));
      if g.found {
        GrowthStops(sqrt, p, draw, iteration + 1, maxIterations);
        var waypoints := FinishSearch(sqrt, p.world, g, waypointCount);
        return Some(waypoints), iteration + 1;
      }
    }
    return None, maxIterations;
  }

  /** Once the goal is the last node of the tree, tracing and shortcutting give a route. */
  lemma FoundRoute(
    sqrt: real -> real, world: World, b: Bounds, start: Vec, goal: Vec, stepSize: real,
    nodes: seq<Vec>, parents: seq<int>)
    requires IsSqrt(sqrt)
    requires IsTree(sqrt, world, b, start, stepSize, nodes, parents)
    requires |nodes| >= 2 && nodes[|nodes| - 1] == goal
    ensures Route(sqrt, world, b, start, goal, Shortcut(sqrt, world, Trace(nodes, parents, |nodes| - 1), 2))
  {
    TraceIsChecked(sqrt, world, b, start, stepSize, nodes, parents, |nodes| - 1);
    ShortcutKeepsRoute(sqrt, world, b, start, goal, Trace(nodes, parents, |nodes| - 1), 2);
  }

  lemma FoundResamplesRoute(sqrt: real -> real, p: Problem, g: Growth, count: Option<int>)
    requires IsSqrt(sqrt) && GrowthOk(sqrt, p, g) && g.found
    ensures ResamplesARoute(sqrt, p.world, p.b, p.start, p.goal, count, WaypointsOf(sqrt, p.world, g, count))
  {
    FoundRoute(sqrt, p.world, p.b, p.start, p.goal, p.stepSize, g.nodes, g.parents);
    RouteResamples(
      sqrt, p.world, p.b, p.start, p.goal, count,
      Shortcut(sqrt, p.world, Trace(g.nodes, g.parents, |g.nodes| - 1), 2), WaypointsOf(sqrt, p.world, g, count));
  }

  lemma RouteResamples(
    sqrt: real -> real, world: World, b: Bounds, start: Vec, goal: Vec, count: Option<int>, path: seq<Vec>,
    waypoints: seq<Vec>)
    requires Route(sqrt, world, b, start, goal, path) && waypoints == Resample(sqrt, path, count)
    ensures ResamplesARoute(sqrt, world, b, start, goal, count, waypoints)
  {}

  /** The goal is found at sample `k` and not before. */
  ghost predicate FirstFound(sqrt: real -> real, p: Problem, draw: nat -> Vec, k: nat)
    requires p.stepSize >= 0.0
  {
    1 <= k && GrowthAfter(sqrt, p, draw, k).found && !GrowthAfter(sqrt, p, draw, k - 1).found
  }

  /** Whether the search succeeds, when, and with which waypoints. */
  ghost predicate SearchDecides(
    sqrt: real -> real, p: Problem, draw: nat -> Vec, maxIterations: nat, count: Option<int>, plan: PlannedPath)
    requires p.stepSize >= 0.0
  {
    var g := GrowthAfter(sqrt, p, draw, maxIterations);
    if g.found then
      && plan.reason == Planned && plan.waypoints == WaypointsOf(sqrt, p.world, g, count)
      && plan.iterations <= maxIterations && FirstFound(sqrt, p, draw, plan.iterations)
    else plan.reason == MaxIterations && plan.iterations == maxIterations
  }

  method PlanBySearch(
    sqrt: real -> real, p: Problem, maxIterations: nat, waypointCount: Option<int>, draw: nat -> Vec)
    returns (plan: PlannedPath)
    requires IsSqrt(sqrt) && ProblemOk(p)
    ensures plan.success <==> plan.reason == Planned
    ensures SearchDecides(sqrt, p, draw, maxIterations, waypointCount, plan)
    ensures plan.success ==> ResamplesARoute(sqrt, p.world, p.b, p.start, p.goal, waypointCount, plan.waypoints)
    ensures !plan.success ==> plan.waypoints == []
    ensures plan.iterations <= maxIterations
  {
    var found, iterations := Search(sqrt, p, maxIterations, waypointCount, draw);
    if found.Some? {
      GrowthIsTree(sqrt, p, draw, maxIterations);
      FoundResamplesRoute(sqrt, p, GrowthAfter(sqrt, p, draw, maxIterations), waypointCount);
      return PlannedPath(true, found.value, Planned, iterations);
    }
    return PlannedPath(false, [], MaxIterations, maxIterations);
  }

  /** Each refusal means that its check is the first one to fail. */
  predicate RefusedFor(sqrt: real -> real, world: World, b: Bounds, start: Vec, goal: Vec, reason: Reason) {
    var inBounds := BoundsContain(b, start) && BoundsContain(b, goal);
    var reachable := Reachable(world, start) && Reachable(world, goal);
    match reason
    case StartOutOfBounds => !BoundsContain(b, start)
    case GoalOutOfBounds => BoundsContain(b, start) && !BoundsContain(b, goal)
    case StartOutOfReachableWorkspace => inBounds && !Reachable(world, start)
    case GoalOutOfReachableWorkspace => inBounds && Reachable(world, start) && !Reachable(world, goal)
    case StartInCollision => inBounds && reachable && PointInCollision(sqrt, start, world.obstacles)
    case GoalInCollision =>
      inBounds && reachable
      && !PointInCollision(sqrt, start, world.obstacles) && PointInCollision(sqrt, goal, world.obstacles)
    case _ => false
  }

  /** The checks before any planning. */
  method CheckEnds(sqrt: real -> real, world: World, b: Bounds, start: Vec, goal: Vec) returns (refusal: Option<Reason>)
    ensures refusal.None? <==> Admissible(sqrt, world, b, start, goal)
    ensures refusal.Some? ==> RefusedFor(sqrt, world, b, start, goal, refusal.value)
  {
    if !BoundsContain(b, start) {
      return Some(StartOutOfBounds);
    }
    if !BoundsContain(b, goal) {
      return Some(GoalOutOfBounds);
    }
    if !Reachable(world, start) {
      return Some(StartOutOfReachableWorkspace);
    }
    if !Reachable(world, goal) {
      return Some(GoalOutOfReachableWorkspace);
    }
    if PointInCollision(sqrt, start, world.obstacles) {
      return Some(StartInCollision);
    }
    if PointInCollision(sqrt, goal, world.obstacles) {
      return Some(GoalInCollision);
    }
    return None;
  }

  /** The planner's whole answer: a refusal with its reason, the straight line when it is
      accepted, and otherwise what the search decides. */
  ghost predicate PlanAnswers(
    sqrt: real -> real, p: Problem, draw: nat -> Vec, maxIterations: nat, count: Option<int>, plan: PlannedPath)
    requires p.stepSize >= 0.0
  {
    if !Admissible(sqrt, p.world, p.b, p.start, p.goal) then
      RefusedFor(sqrt, p.world, p.b, p.start, p.goal, plan.reason) && plan.iterations == 0
    else if EdgeOk(sqrt, p.world, p.start, p.goal) then
      plan.reason == StraightLine && plan.waypoints == Resample(sqrt, [p.start, p.goal], count) && plan.iterations == 0
    else SearchDecides(sqrt, p, draw, maxIterations, count, plan)
  }

  lemma StraightResamplesRoute(sqrt: real -> real, p: Problem, count: Option<int>)
    requires BoundsContain(p.b, p.start) && BoundsContain(p.b, p.goal) && EdgeOk(sqrt, p.world, p.start, p.goal)
    ensures ResamplesARoute(sqrt, p.world, p.b, p.start, p.goal, count, Resample(sqrt, [p.start, p.goal], count))
  {
    assert Route(sqrt, p.world, p.b, p.start, p.goal, [p.start, p.goal]);
  }

  function ProblemOf(
    start: Vec, goal: Vec, obstacles: seq<Obstacle>, bounds: Option<Bounds>,
    collisionRadius: real, stepSize: real, edgeCheckStep: real, workspace: Option<Workspace>): Problem
  {
    Problem(
      World(Compile(obstacles, collisionRadius, UP_AXIS), edgeCheckStep, workspace),
      EffectiveBounds(bounds, start, goal, obstacles), start, goal, stepSize)
  }

  method PlanBucketTipPath(
    sqrt: real -> real, start: Vec, goal: Vec, obstacles: seq<Obstacle>, bounds: Option<Bounds>,
    collisionRadius: real, stepSize: real, edgeCheckStep: real, maxIterations: nat,
    waypointCount: Option<int>, workspace: Option<Workspace>, draw: nat -> Vec)
    returns (plan: PlannedPath)
    requires IsSqrt(sqrt)
    requires stepSize >= 0.0
    ensures
      var p := ProblemOf(start, goal, obstacles, bounds, collisionRadius, stepSize, edgeCheckStep, workspace);
      && PlanAnswers(sqrt, p, draw, maxIterations, waypointCount, plan)
      && (plan.success ==> ResamplesARoute(sqrt, p.world, p.b, start, goal, waypointCount, plan.waypoints))
    ensures plan.success <==> plan.reason == StraightLine || plan.reason == Planned
    ensures !plan.success ==> plan.waypoints == []
    ensures plan.iterations <= maxIterations
  {
    var b := EffectiveBounds(bounds, start, goal, obstacles);
    var compiled := CompileObstacles(obstacles, collisionRadius, UP_AXIS);
    var world := World(compiled, edgeCheckStep, workspace);
    var problem := Problem(world, b, start, goal, stepSize);
    var refusal := CheckEnds(sqrt, world, b, start, goal);
    if refusal.Some? {
      return PlannedPath(false, [], refusal.value, 0);
    }
    var straight := CheckEdge(sqrt, world, start, goal);
    if straight {
      var waypoints := ResamplePath(sqrt, [start, goal], waypointCount);
      StraightResamplesRoute(sqrt, problem, waypointCount);
      return PlannedPath(true, waypoints, StraightLine, 0);
    }
    plan := PlanBySearch(sqrt, problem, maxIterations, waypointCount, draw);
  }

  lemma FirstFoundIsEarly(sqrt: real -> real, p: Problem, draw: nat -> Vec, first: nat, before: nat, k: nat)
    requires p.stepSize >= 0.0 && FirstFound(sqrt, p, draw, first) && GrowthAfter(sqrt, p, draw, k).found
    requires before == first - 1
    ensures first <= k
  {
    if k <= before {
      FoundStays(sqrt, p, draw, k, before);
    }
  }

  lemma SearchDecidesFound(
    sqrt: real -> real, p: Problem, draw: nat -> Vec, maxIterations: nat, count: Option<int>, plan: PlannedPath, k: nat)
    requires p.stepSize >= 0.0 && SearchDecides(sqrt, p, draw, maxIterations, count, plan)
    requires k <= maxIterations && GrowthAfter(sqrt, p, draw, k).found
    ensures plan.reason == Planned && FirstFound(sqrt, p, draw, plan.iterations)
  {
    FoundStays(sqrt, p, draw, k, maxIterations);
  }

  lemma SearchFindsChain(
    sqrt: real -> real, p: Problem, draw: nat -> Vec, maxIterations: nat, count: Option<int>, plan: PlannedPath,
    points: seq<Vec>, last: nat)
    requires p.stepSize >= 0.0 && SearchDecides(sqrt, p, draw, maxIterations, count, plan)
    requires Chain(sqrt, p, points) && Draws(draw, points) && last + 2 == |points| && last <= maxIterations
    ensures plan.reason == Planned && plan.iterations <= last
  {
    ChainIsFound(sqrt, p, draw, points, last);
    SearchDecidesFound(sqrt, p, draw, maxIterations, count, plan, last);
    FirstFoundIsEarly(sqrt, p, draw, plan.iterations, plan.iterations - 1, last);
  }

  /** The planner does not miss a way that the samples show it: when they are the inner points of
      a chain, it succeeds, no later than at the last of them. */
  lemma ChainIsPlanned(
    sqrt: real -> real, p: Problem, draw: nat -> Vec, maxIterations: nat, count: Option<int>, plan: PlannedPath,
    points: seq<Vec>)
    requires p.stepSize >= 0.0 && PlanAnswers(sqrt, p, draw, maxIterations, count, plan)
    requires Admissible(sqrt, p.world, p.b, p.start, p.goal)
    requires Chain(sqrt, p, points) && Draws(draw, points) && |points| - 2 <= maxIterations
    ensures plan.reason == StraightLine || plan.reason == Planned
    ensures plan.iterations <= |points| - 2
  {
    if !EdgeOk(sqrt, p.world, p.start, p.goal) {
      SearchFindsChain(sqrt, p, draw, maxIterations, count, plan, points, |points| - 2);
    }
  }

  lemma LerpBetween(a: real, b: real, t: real, lo: real, hi: real)
    requires lo <= a <= hi && lo <= b <= hi && 0.0 <= t <= 1.0
    ensures lo <= (1.0 - t) * a + t * b <= hi
  {
    var u := 1.0 - t;
    ProductNonNegative(u, a - lo);
    ProductNonNegative(t, b - lo);
    ProductNonNegative(u, hi - a);
    ProductNonNegative(t, hi - b);
    assert u * a + t * b - lo == u * (a - lo) + t * (b - lo);
    assert hi - (u * a + t * b) == u * (hi - a) + t * (hi - b);
  }

  /** The bounds are convex. */
  lemma SegmentInBounds(b: Bounds, a: Vec, c: Vec, t: real)
    requires BoundsContain(b, a) && BoundsContain(b, c) && 0.0 <= t <= 1.0
    ensures BoundsContain(b, Lerp(a, c, t))
  {
    LerpBetween(a.x, c.x, t, b.minimum.x, b.maximum.x);
    LerpBetween(a.y, c.y, t, b.minimum.y, b.maximum.y);
    LerpBetween(a.z, c.z, t, b.minimum.z, b.maximum.z);
  }

  /** A point of a checked route is inside the bounds and, when the collision radius covers
      half a checking step, outside every original obstacle. */
  lemma RoutePointIsSafe(
    sqrt: real -> real, world: World, b: Bounds, start: Vec, goal: Vec, path: seq<Vec>,
    obstacles: seq<Obstacle>, radius: real, p: Vec)
    requires IsSqrt(sqrt)
    requires Route(sqrt, world, b, start, goal, path)
    requires world.obstacles == Compile(obstacles, radius, UP_AXIS)
    requires OnPath(path, p)
    ensures BoundsContain(b, p)
    ensures radius >= Max(world.step, MINIMUM_STEP) / 2.0 ==> PointClear(sqrt, p, obstacles, UP_AXIS)
  {
    var i: nat :| OnSegmentOf(path, i, p);
    var t: real :| 0.0 <= t <= 1.0 && Lerp(path[i], path[i + 1], t) == p;
    assert path[i] in path && path[i + 1] in path;
    SegmentInBounds(b, path[i], path[i + 1], t);
    assert EdgeOk(sqrt, world, path[i], path[i + 1]);
    if radius >= Max(world.step, MINIMUM_STEP) / 2.0 {
      CheckedSegmentIsClear(sqrt, path[i], path[i + 1], obstacles, radius, UP_AXIS, world.step);
    }
  }

  /** Every waypoint of a successful plan is inside the planning bounds; it is outside every
      original obstacle when the collision radius covers half a checking step. */
  lemma PlannedWaypointsAreSafe(
    sqrt: real -> real, world: World, b: Bounds, start: Vec, goal: Vec, count: Option<int>, waypoints: seq<Vec>,
    obstacles: seq<Obstacle>, radius: real)
    requires IsSqrt(sqrt)
    requires ResamplesARoute(sqrt, world, b, start, goal, count, waypoints)
    requires world.obstacles == Compile(obstacles, radius, UP_AXIS)
    ensures forall p <- waypoints :: BoundsContain(b, p)
    ensures radius >= Max(world.step, MINIMUM_STEP) / 2.0 ==>
      forall p <- waypoints :: PointClear(sqrt, p, obstacles, AxisY)
  {
    var path :| Route(sqrt, world, b, start, goal, path) && waypoints == Resample(sqrt, path, count);
    ResampledPointsOnPath(sqrt, path, count);
    forall p <- waypoints
      ensures BoundsContain(b, p)
      ensures radius >= Max(world.step, MINIMUM_STEP) / 2.0 ==> PointClear(sqrt, p, obstacles, UP_AXIS)
    {
      RoutePointIsSafe(sqrt, world, b, start, goal, path, obstacles, radius, p);
    }
  }

  /** A plan with a fixed number of waypoints starts exactly at the start and ends within the
      degenerate length of the goal. */
  lemma PlannedWaypointsReachGoal(
    sqrt: real -> real, world: World, b: Bounds, start: Vec, goal: Vec, count: nat, waypoints: seq<Vec>)
    requires IsSqrt(sqrt)
    requires count >= 2
    requires ResamplesARoute(sqrt, world, b, start, goal, Some(count), waypoints)
    ensures |waypoints| == count && waypoints[0] == start
    ensures Dist(sqrt, waypoints[count - 1], goal) <= DEGENERATE_LENGTH
  {
    var path :| Route(sqrt, world, b, start, goal, path) && waypoints == Resample(sqrt, path, Some(count));
    ResampleKeepsEnds(sqrt, path, count);
  }

  /** The waypoints are joined by checked edges when resampling leaves the route as it is. */
  lemma UnsampledPlanEdgesAreChecked(
    sqrt: real -> real, world: World, b: Bounds, start: Vec, goal: Vec, count: Option<int>, path: seq<Vec>)
    requires Route(sqrt, world, b, start, goal, path)
    requires Unchanged(path, count)
    ensures AllEdgesOk(sqrt, world, Resample(sqrt, path, count))
  {}

  /** With two waypoints, resampling cuts the corners of any longer route: unless its last
      segment is degenerate, the plan is the very edge from start to goal that the planner
      had rejected before it searched. */
  lemma TwoWaypointsCutTheCorner(
    sqrt: real -> real, world: World, b: Bounds, start: Vec, goal: Vec, path: seq<Vec>)
    requires IsSqrt(sqrt)
    requires Route(sqrt, world, b, start, goal, path)
    requires !EdgeOk(sqrt, world, start, goal)
    requires Dist(sqrt, path[|path| - 2], goal) > DEGENERATE_LENGTH
    ensures Resample(sqrt, path, Some(2)) == [start, goal]
    ensures !AllEdgesOk(sqrt, world, [start, goal])
  {
    var n := |path| - 1;
    assert !AllEdgesOk(sqrt, world, [start, goal]) by {
      assert [start, goal][0] == start && [start, goal][0 + 1] == goal;
    }
    assert n >= 2 by {
      assert EdgeOk(sqrt, world, path[0], path[1]);
    }
    var c := Cumulative(sqrt, path);
    CumulativeShape(sqrt, path);
    CumulativeStep(sqrt, path, n - 1);
    assert c[n - 1] >= 0.0 by {
      CumulativeIncreases(sqrt, path, 0, n - 1);
    }
    SampledEnds(sqrt, path, 2, c, c[n]);
    PointAtStart(path, c);
    PointAtEnd(path, c);
    TwoPoints(Resample(sqrt, path, Some(2)), start, goal);
  }

  lemma TwoPoints(out: seq<Vec>, a: Vec, b: Vec)
    requires |out| == 2 && out[0] == a && out[1] == b
    ensures out == [a, b]
  {}
}
