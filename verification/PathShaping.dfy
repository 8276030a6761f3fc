/** Greedy shortcutting and arc-length resampling of a planned path
    (`shortcut_path` and `resample_path` of `localmap_core/simple_bucket_tip_planner.py`). */
module PathShaping {
  import opened Geometry
  import opened Collision
  import opened Workspace
  import opened Wrappers

  /** Lengths up to this are treated as zero by the resampler. */
  const DEGENERATE_LENGTH := 0.000000001

  /** What an edge is checked against. */
  datatype World = World(obstacles: Compiled, step: real, workspace: Option<Workspace>)

  predicate EdgeOk(sqrt: real -> real, world: World, a: Vec, b: Vec) {
    && (world.workspace.Some? ==> SegmentStaysInside(sqrt, world.workspace.value, a, b, world.step))
    && !SegmentCollides(sqrt, a, b, world.obstacles, world.step)
  }

  method CheckEdge(sqrt: real -> real, world: World, a: Vec, b: Vec) returns (ok: bool)
    ensures ok == EdgeOk(sqrt, world, a, b)
  {
    if world.workspace.Some? {
      var inside := SegmentInside(sqrt, world.workspace.value, a, b, world.step);
      if !inside {
        return false;
      }
    }
    var hit := SegmentInCollision(sqrt, a, b, world.obstacles, world.step);
    return !hit;
  }

  ghost predicate AllEdgesOk(sqrt: real -> real, world: World, path: seq<Vec>) {
    forall i, j :: 0 <= i && j == i + 1 < |path| ==> EdgeOk(sqrt, world, path[i], path[j])
  }

  function Length(sqrt: real -> real, path: seq<Vec>): real {
    if |path| <= 1 then 0.0 else Dist(sqrt, path[0], path[1]) + Length(sqrt, path[1..])
  }

  // ------------------------------------------------------------------------ shortcuts

  /** The furthest index up to `candidate` that `current` may jump to. */
  function NextKept(sqrt: real -> real, world: World, path: seq<Vec>, current: nat, candidate: nat): (next: nat)
    requires current < candidate < |path|
    ensures current < next <= candidate
    ensures next == current + 1 || EdgeOk(sqrt, world, path[current], path[next])
    ensures forall j :: next < j <= candidate ==> !EdgeOk(sqrt, world, path[current], path[j])
  {
    if candidate == current + 1 || EdgeOk(sqrt, world, path[current], path[candidate]) then candidate
    else NextKept(sqrt, world, path, current, candidate - 1)
  }

  /** The points kept from index `current` to the end. */
  function KeptFrom(sqrt: real -> real, world: World, path: seq<Vec>, current: nat): (kept: seq<Vec>)
    requires current < |path|
    ensures kept != [] && kept[0] == path[current] && kept[|kept| - 1] == path[|path| - 1]
    decreases |path| - current
  {
    if current == |path| - 1 then [path[current]]
    else [path[current]] + KeptFrom(sqrt, world, path, NextKept(sqrt, world, path, current, |path| - 1))
  }

  function ShortcutPasses(sqrt: real -> real, world: World, path: seq<Vec>, passes: nat): (out: seq<Vec>)
    requires path != []
    ensures out != []
  {
    if passes == 0 then path
    else KeptFrom(sqrt, world, ShortcutPasses(sqrt, world, path, passes - 1), 0)
  }

  function Shortcut(sqrt: real -> real, world: World, path: seq<Vec>, passes: nat): seq<Vec> {
    if |path| <= 2 then path else ShortcutPasses(sqrt, world, path, passes)
  }

  /** The inner loop of a pass: walk back from the end to a reachable point. */
  method FindNext(sqrt: real -> real, world: World, path: seq<Vec>, current: nat) returns (next: nat)
    requires current + 1 < |path|
    ensures next == NextKept(sqrt, world, path, current, |path| - 1)
  {
    next := |path| - 1;
    while next > current + 1
      invariant current < next < |path|
      invariant NextKept(sqrt, world, path, current, next) == NextKept(sqrt, world, path, current, |path| - 1)
    {
      var ok := CheckEdge(sqrt, world, path[current], path[next]);
      if ok {
        break;
      }
      next := next - 1;
    }
  }

  lemma KeptStep(sqrt: real -> real, world: World, path: seq<Vec>, current: nat, done: seq<Vec>)
    requires current + 1 < |path|
    ensures
      var next := NextKept(sqrt, world, path, current, |path| - 1);
      done + KeptFrom(sqrt, world, path, current) == (done + [path[current]]) + KeptFrom(sqrt, world, path, next)
  {
    var rest := KeptFrom(sqrt, world, path, NextKept(sqrt, world, path, current, |path| - 1));
    assert done + ([path[current]] + rest) == (done + [path[current]]) + rest;
  }

  method ShortcutPass(sqrt: real -> real, world: World, path: seq<Vec>) returns (kept: seq<Vec>)
    requires path != []
    ensures kept == KeptFrom(sqrt, world, path, 0)
  {
    kept := [path[0]];
    var current := 0;
    ghost var done: seq<Vec> := [];
    while current < |path| - 1
      invariant current < |path|
      invariant kept == done + [path[current]]
      invariant done + KeptFrom(sqrt, world, path, current) == KeptFrom(sqrt, world, path, 0)
      decreases |path| - current
    {
      var next := FindNext(sqrt, world, path, current);
      KeptStep(sqrt, world, path, current, done);
      done := kept;
      kept := kept + [path[next]];
      current := next;
    }
  }

  method ShortcutPath(sqrt: real -> real, world: World, path: seq<Vec>, passes: nat := 2) returns (simplified: seq<Vec>)
    ensures simplified == Shortcut(sqrt, world, path, passes)
  {
    if |path| <= 2 {
      return path;
    }
    simplified := path;
    for pass := 0 to passes
      invariant simplified == ShortcutPasses(sqrt, world, path, pass)
    {
      simplified := ShortcutPass(sqrt, world, simplified);
    }
  }

  /** `out` is `path` with some inner points left out: `index` says which were kept. */
  ghost predicate Selects(path: seq<Vec>, index: seq<nat>, out: seq<Vec>) {
    && |index| == |out| > 0
    && index[0] == 0 && index[|index| - 1] == |path| - 1
    && (forall k :: 0 <= k < |index| ==> index[k] < |path| && out[k] == path[index[k]])
    && (forall j, k :: 0 <= j < k < |index| ==> index[j] < index[k])
  }

  ghost predicate IsSubpath(path: seq<Vec>, out: seq<Vec>) {
    exists index: seq<nat> :: Selects(path, index, out)
  }

  /** The indices `KeptFrom` keeps. */
  function KeptIndices(sqrt: real -> real, world: World, path: seq<Vec>, current: nat): (index: seq<nat>)
    requires current < |path|
    ensures |index| > 0 && index[0] == current && index[|index| - 1] == |path| - 1
    decreases |path| - current
  {
    if current == |path| - 1 then [current]
    else [current] + KeptIndices(sqrt, world, path, NextKept(sqrt, world, path, current, |path| - 1))
  }

  lemma {:induction false} KeptIsSelection(sqrt: real -> real, world: World, path: seq<Vec>, current: nat)
    requires current < |path|
    ensures
      var index, kept := KeptIndices(sqrt, world, path, current), KeptFrom(sqrt, world, path, current);
      && |index| == |kept|
      && (forall k :: 0 <= k < |index| ==> index[k] < |path| && kept[k] == path[index[k]])
      && (forall j, k :: 0 <= j < k < |index| ==> index[j] < index[k])
    decreases |path| - current
  {
    if current < |path| - 1 {
      KeptIsSelection(sqrt, world, path, NextKept(sqrt, world, path, current, |path| - 1));
    }
  }

  lemma {:induction false} KeptEdgesOk(sqrt: real -> real, world: World, path: seq<Vec>, current: nat)
    requires current < |path|
    requires AllEdgesOk(sqrt, world, path)
    ensures AllEdgesOk(sqrt, world, KeptFrom(sqrt, world, path, current))
    decreases |path| - current
  {
    if current < |path| - 1 {
      var next := NextKept(sqrt, world, path, current, |path| - 1);
      KeptEdgesOk(sqrt, world, path, next);
      assert EdgeOk(sqrt, world, path[current], path[next]);
    }
  }

  /** A chord is no longer than the stretch of path it replaces. */
  lemma {:induction false} ChordNoLonger(sqrt: real -> real, path: seq<Vec>, first: nat, last: nat)
    requires IsSqrt(sqrt)
    requires first <= last < |path|
    ensures Dist(sqrt, path[first], path[last]) + Length(sqrt, path[last..]) <= Length(sqrt, path[first..])
    decreases last - first
  {
    if first == last {
      SelfDistance(sqrt, path[first]);
    } else {
      ChordNoLonger(sqrt, path, first + 1, last);
      DistTriangle(sqrt, path[first], path[first + 1], path[last]);
      assert path[first..][1..] == path[first + 1..];
    }
  }

  lemma {:induction false} KeptNoLonger(sqrt: real -> real, world: World, path: seq<Vec>, current: nat)
    requires IsSqrt(sqrt)
    requires current < |path|
    ensures Length(sqrt, KeptFrom(sqrt, world, path, current)) <= Length(sqrt, path[current..])
    decreases |path| - current
  {
    if current < |path| - 1 {
      var next := NextKept(sqrt, world, path, current, |path| - 1);
      var kept := KeptFrom(sqrt, world, path, current);
      KeptNoLonger(sqrt, world, path, next);
      ChordNoLonger(sqrt, path, current, next);
      assert kept[1..] == KeptFrom(sqrt, world, path, next);
    }
  }

  lemma SubpathReflexive(path: seq<Vec>)
    requires path != []
    ensures IsSubpath(path, path)
  {
    var index: seq<nat> := seq(|path|, k => k);
    assert Selects(path, index, path);
  }

  lemma SelectsTransitive(path: seq<Vec>, mid: seq<Vec>, out: seq<Vec>)
    requires IsSubpath(path, mid) && IsSubpath(mid, out)
    ensures IsSubpath(path, out)
  {
    var f: seq<nat> :| Selects(path, f, mid);
    var g: seq<nat> :| Selects(mid, g, out);
    var h: seq<nat> := seq(|out|, k requires 0 <= k < |out| => f[g[k]]);
    assert Selects(path, h, out);
  }

  lemma OnePassPreserves(sqrt: real -> real, world: World, path: seq<Vec>)
    requires IsSqrt(sqrt)
    requires path != [] && AllEdgesOk(sqrt, world, path)
    ensures
      var out := KeptFrom(sqrt, world, path, 0);
      IsSubpath(path, out) && AllEdgesOk(sqrt, world, out) && Length(sqrt, out) <= Length(sqrt, path)
  {
    KeptIsSelection(sqrt, world, path, 0);
    assert Selects(path, KeptIndices(sqrt, world, path, 0), KeptFrom(sqrt, world, path, 0));
    KeptEdgesOk(sqrt, world, path, 0);
    KeptNoLonger(sqrt, world, path, 0);
    assert path[0..] == path;
  }

  lemma {:induction false} PassesPreserve(sqrt: real -> real, world: World, path: seq<Vec>, passes: nat)
    requires IsSqrt(sqrt)
    requires path != [] && AllEdgesOk(sqrt, world, path)
    ensures
      var out := ShortcutPasses(sqrt, world, path, passes);
      IsSubpath(path, out) && AllEdgesOk(sqrt, world, out) && Length(sqrt, out) <= Length(sqrt, path)
  {
    if passes == 0 {
      SubpathReflexive(path);
    } else {
      var mid := ShortcutPasses(sqrt, world, path, passes - 1);
      PassesPreserve(sqrt, world, path, passes - 1);
      OnePassPreserves(sqrt, world, mid);
      SelectsTransitive(path, mid, KeptFrom(sqrt, world, mid, 0));
    }
  }

  /** Any number of shortcut passes over a checked path keeps its two ends, selects from its
      points in order, keeps every edge checked (kept neighbours are never re-checked) and
      never makes it longer. */
  lemma ShortcutPreservesRoute(sqrt: real -> real, world: World, path: seq<Vec>, passes: nat)
    requires IsSqrt(sqrt)
    requires path != [] && AllEdgesOk(sqrt, world, path)
    ensures
      var out := Shortcut(sqrt, world, path, passes);
      && out != [] && IsSubpath(path, out)
      && out[0] == path[0] && out[|out| - 1] == path[|path| - 1]
      && AllEdgesOk(sqrt, world, out)
      && Length(sqrt, out) <= Length(sqrt, path)
  {
    if |path| <= 2 {
      SubpathReflexive(path);
    } else {
      PassesPreserve(sqrt, world, path, passes);
    }
    SubpathEnds(path, Shortcut(sqrt, world, path, passes));
  }

  lemma SubpathEnds(path: seq<Vec>, out: seq<Vec>)
    requires IsSubpath(path, out)
    ensures path != [] && out != []
    ensures out[0] == path[0] && out[|out| - 1] == path[|path| - 1]
  {
    var index: seq<nat> :| Selects(path, index, out);
  }

  /** Every kept point sees no later point of the path than the next kept one, and does see that
      one unless it is the very next point. */
  ghost predicate JumpsFurthest(sqrt: real -> real, world: World, path: seq<Vec>, index: seq<nat>)
    requires forall k :: 0 <= k < |index| ==> index[k] < |path|
  {
    forall j, k :: 0 <= j && k == j + 1 < |index| ==>
      && (index[k] == index[j] + 1 || EdgeOk(sqrt, world, path[index[j]], path[index[k]]))
      && forall m :: index[k] < m < |path| ==> !EdgeOk(sqrt, world, path[index[j]], path[m])
  }

  lemma {:induction false} KeptJumpsFurthest(sqrt: real -> real, world: World, path: seq<Vec>, current: nat)
    requires current < |path|
    ensures forall k :: 0 <= k < |KeptIndices(sqrt, world, path, current)| ==>
              KeptIndices(sqrt, world, path, current)[k] < |path|
    ensures JumpsFurthest(sqrt, world, path, KeptIndices(sqrt, world, path, current))
    decreases |path| - current
  {
    if current < |path| - 1 {
      var next := NextKept(sqrt, world, path, current, |path| - 1);
      KeptJumpsFurthest(sqrt, world, path, next);
    }
  }

  /** No point but the next one is in sight of any point. */
  ghost predicate SeesNeighboursOnly(sqrt: real -> real, world: World, path: seq<Vec>) {
    forall i, j :: 0 <= i && i + 1 < j < |path| ==> !EdgeOk(sqrt, world, path[i], path[j])
  }

  lemma {:induction false} NothingToSkip(sqrt: real -> real, world: World, path: seq<Vec>, current: nat)
    requires current < |path| && SeesNeighboursOnly(sqrt, world, path)
    ensures KeptFrom(sqrt, world, path, current) == path[current..]
    decreases |path| - current
  {
    if current < |path| - 1 {
      NothingToSkip(sqrt, world, path, current + 1);
    }
  }

  lemma SelectionSeesNeighboursOnly(
    sqrt: real -> real, world: World, path: seq<Vec>, index: seq<nat>, out: seq<Vec>)
    requires Selects(path, index, out) && JumpsFurthest(sqrt, world, path, index)
    ensures SeesNeighboursOnly(sqrt, world, out)
  {
    forall i, j | 0 <= i && i + 1 < j < |out|
      ensures !EdgeOk(sqrt, world, out[i], out[j])
    {
      assert index[i + 1] < index[j];
    }
  }

  lemma {:induction false} MorePassesChangeNothing(sqrt: real -> real, world: World, path: seq<Vec>, passes: nat)
    requires path != [] && SeesNeighboursOnly(sqrt, world, path)
    ensures ShortcutPasses(sqrt, world, path, passes) == path
  {
    if passes > 0 {
      MorePassesChangeNothing(sqrt, world, path, passes - 1);
      NothingToSkip(sqrt, world, path, 0);
    }
  }

  lemma {:induction false} PassesSplit(sqrt: real -> real, world: World, path: seq<Vec>, passes: nat)
    requires path != []
    ensures
      ShortcutPasses(sqrt, world, path, passes + 1)
      == ShortcutPasses(sqrt, world, KeptFrom(sqrt, world, path, 0), passes)
  {
    if passes > 0 {
      PassesSplit(sqrt, world, path, passes - 1);
    }
  }

  /** There is only one selection that always jumps to the furthest point in sight. */
  lemma {:induction false} FurthestIsUnique(
    sqrt: real -> real, world: World, path: seq<Vec>, a: seq<nat>, b: seq<nat>, out: seq<Vec>, other: seq<Vec>, k: nat)
    requires Selects(path, a, out) && JumpsFurthest(sqrt, world, path, a)
    requires Selects(path, b, other) && JumpsFurthest(sqrt, world, path, b)
    requires k < |a|
    ensures k < |b| && a[k] == b[k]
  {
    if k > 0 {
      var j := k - 1;
      FurthestIsUnique(sqrt, world, path, a, b, out, other, j);
      assert a[j] < a[k] < |path|;
      assert j != |b| - 1;
      assert b[j] < b[k];
    }
  }

  lemma SelectionIsUnique(
    sqrt: real -> real, world: World, path: seq<Vec>, a: seq<nat>, b: seq<nat>, out: seq<Vec>, other: seq<Vec>)
    requires Selects(path, a, out) && JumpsFurthest(sqrt, world, path, a)
    requires Selects(path, b, other) && JumpsFurthest(sqrt, world, path, b)
    ensures out == other
  {
    forall k | 0 <= k < |a|
      ensures k < |b| && a[k] == b[k]
    {
      FurthestIsUnique(sqrt, world, path, a, b, out, other, k);
    }
    FurthestIsUnique(sqrt, world, path, b, a, other, out, |b| - 1);
  }

  /** `out` is `path` with every jump as far as can be seen. */
  ghost predicate IsGreedy(sqrt: real -> real, world: World, path: seq<Vec>, out: seq<Vec>) {
    exists index: seq<nat> :: Selects(path, index, out) && JumpsFurthest(sqrt, world, path, index)
  }

  lemma OnePassIsGreedy(sqrt: real -> real, world: World, path: seq<Vec>)
    requires path != []
    ensures IsGreedy(sqrt, world, path, KeptFrom(sqrt, world, path, 0))
  {
    KeptIsSelection(sqrt, world, path, 0);
    KeptJumpsFurthest(sqrt, world, path, 0);
    assert Selects(path, KeptIndices(sqrt, world, path, 0), KeptFrom(sqrt, world, path, 0));
  }

  lemma GreedyIsUnique(sqrt: real -> real, world: World, path: seq<Vec>, out: seq<Vec>, other: seq<Vec>)
    requires IsGreedy(sqrt, world, path, out) && IsGreedy(sqrt, world, path, other)
    ensures out == other
  {
    var a: seq<nat> :| Selects(path, a, out) && JumpsFurthest(sqrt, world, path, a);
    var b: seq<nat> :| Selects(path, b, other) && JumpsFurthest(sqrt, world, path, b);
    SelectionIsUnique(sqrt, world, path, a, b, out, other);
  }

  lemma GreedySeesNeighboursOnly(sqrt: real -> real, world: World, path: seq<Vec>, out: seq<Vec>)
    requires IsGreedy(sqrt, world, path, out)
    ensures SeesNeighboursOnly(sqrt, world, out)
  {
    var index: seq<nat> :| Selects(path, index, out) && JumpsFurthest(sqrt, world, path, index);
    SelectionSeesNeighboursOnly(sqrt, world, path, index, out);
  }

  /** All passes after the first leave the path as it is. */
  lemma OnePassIsEnough(sqrt: real -> real, world: World, path: seq<Vec>, passes: nat)
    requires path != [] && passes > 0
    ensures Shortcut(sqrt, world, path, passes) == KeptFrom(sqrt, world, path, 0)
  {
    var kept := KeptFrom(sqrt, world, path, 0);
    OnePassIsGreedy(sqrt, world, path);
    GreedySeesNeighboursOnly(sqrt, world, path, kept);
    if |path| <= 2 {
      NothingToSkip(sqrt, world, path, 0);
    } else {
      PassesSplit(sqrt, world, path, passes - 1);
      MorePassesChangeNothing(sqrt, world, kept, passes - 1);
    }
  }

  /** One pass or more always answers the one greedy selection: from each kept point the furthest
      point in sight comes next. So a second pass never changes what the first has left. */
  lemma ShortcutIsGreedy(sqrt: real -> real, world: World, path: seq<Vec>, passes: nat, out: seq<Vec>)
    requires path != [] && passes > 0
    ensures out == Shortcut(sqrt, world, path, passes) <==> IsGreedy(sqrt, world, path, out)
  {
    OnePassIsEnough(sqrt, world, path, passes);
    OnePassIsGreedy(sqrt, world, path);
    if IsGreedy(sqrt, world, path, out) {
      GreedyIsUnique(sqrt, world, path, out, KeptFrom(sqrt, world, path, 0));
    }
  }

  // ----------------------------------------------------------------------- resampling

  /** Arc length from the first point to each point. */
  function Cumulative(sqrt: real -> real, path: seq<Vec>): (c: seq<real>)
    requires path != []
    ensures |c| == |path|
  {
    var n := |path| - 1;
    if n == 0 then [0.0]
    else
      var c := Cumulative(sqrt, path[..n]);
      c + [c[n - 1] + Dist(sqrt, path[n - 1], path[n])]
  }

  /** The first index from `i` on whose value exceeds `d`. */
  function SearchRight(c: seq<real>, d: real, i: nat): (r: nat)
    requires i <= |c|
    ensures i <= r <= |c|
    ensures forall k :: i <= k < r ==> c[k] <= d
    ensures r < |c| ==> c[r] > d
    decreases |c| - i
  {
    if i < |c| && c[i] <= d then SearchRight(c, d, i + 1) else i
  }

  /** The segment a non-negative distance falls in. The first value is zero, so the search
      can start after it. */
  function SegmentIndex(c: seq<real>, d: real): (index: nat)
    requires |c| >= 2
    ensures index <= |c| - 2
  {
    var index := SearchRight(c, d, 1) - 1;
    if index <= |c| - 2 then index else |c| - 2
  }

  function Ratio(c: seq<real>, index: nat, d: real): real
    requires index + 1 < |c|
  {
    var local := c[index + 1] - c[index];
    if local <= DEGENERATE_LENGTH then 0.0 else (d - c[index]) / local
  }

  function PointAt(path: seq<Vec>, c: seq<real>, d: real): Vec
    requires |path| == |c| >= 2
  {
    var index := SegmentIndex(c, d);
    Lerp(path[index], path[index + 1], Ratio(c, index, d))
  }

  /** Distance number `k` of `count` evenly spaced ones from zero to `total`. */
  function Spaced(total: real, k: nat, count: nat): real
    requires k < count
  {
    if count == 1 then 0.0 else total * (k as real / (count - 1) as real)
  }

  predicate Unchanged(path: seq<Vec>, count: Option<int>) {
    count.None? || count.value <= 0 || |path| <= 1 || |path| == count.value
  }

  /** Total arc length. */
  function ArcLength(sqrt: real -> real, path: seq<Vec>): real
    requires path != []
  {
    Cumulative(sqrt, path)[|path| - 1]
  }

  function Resample(sqrt: real -> real, path: seq<Vec>, count: Option<int>): seq<Vec> {
    if Unchanged(path, count) then path
    else if ArcLength(sqrt, path) <= DEGENERATE_LENGTH then seq(count.value, _ => path[0])
    else
      seq(count.value, k requires 0 <= k < count.value =>
        PointAt(path, Cumulative(sqrt, path), Spaced(ArcLength(sqrt, path), k, count.value)))
  }

  method ResamplePath(sqrt: real -> real, path: seq<Vec>, count: Option<int>) returns (output: seq<Vec>)
    ensures output == Resample(sqrt, path, count)
  {
    if count.None? || count.value <= 0 || |path| <= 1 {
      return path;
    }
    var n := count.value;
    if |path| == n {
      return path;
    }
    var cumulative := Cumulative(sqrt, path);
    var total := cumulative[|path| - 1];
    if total <= DEGENERATE_LENGTH {
      return seq(n, _ => path[0]);
    }
    output := [];
    for k := 0 to n
      invariant |output| == k
      invariant forall i :: 0 <= i < k ==> output[i] == PointAt(path, cumulative, Spaced(total, i, n))
    {
      var distance := Spaced(total, k, n);
      var index := SegmentIndex(cumulative, distance);
      var ratio := Ratio(cumulative, index, distance);
      output := output + [Lerp(path[index], path[index + 1], ratio)];
    }
  }

  lemma {:induction false} CumulativeStart(sqrt: real -> real, path: seq<Vec>)
    requires path != []
    ensures Cumulative(sqrt, path)[0] == 0.0
  {
    if |path| > 1 {
      CumulativeStart(sqrt, path[..|path| - 1]);
    }
  }

  lemma FractionBounds(k: real, n: real)
    requires 0.0 <= k <= n && n > 0.0
    ensures 0.0 <= k / n <= 1.0
  {}

  lemma Portion(total: real, r: real)
    requires total >= 0.0 && 0.0 <= r <= 1.0
    ensures 0.0 <= total * r <= total
  {
    ProductMonotone(r, 1.0, total);
  }

  lemma SpacedBounds(total: real, k: nat, count: nat)
    requires total >= 0.0 && k < count
    ensures 0.0 <= Spaced(total, k, count) <= total
  {
    if count > 1 {
      var r := k as real / (count - 1) as real;
      FractionBounds(k as real, (count - 1) as real);
      Portion(total, r);
    }
  }

  lemma {:induction false} CumulativeStep(sqrt: real -> real, path: seq<Vec>, i: nat)
    requires i + 1 < |path|
    ensures
      var c := Cumulative(sqrt, path);
      c[i + 1] == c[i] + Dist(sqrt, path[i], path[i + 1])
  {
    if i + 2 < |path| {
      CumulativeStep(sqrt, path[..|path| - 1], i);
    }
  }

  lemma {:induction false} CumulativeIncreases(sqrt: real -> real, path: seq<Vec>, i: nat, j: nat)
    requires IsSqrt(sqrt)
    requires i <= j < |path|
    ensures Cumulative(sqrt, path)[i] <= Cumulative(sqrt, path)[j]
    decreases j - i
  {
    if i < j {
      CumulativeIncreases(sqrt, path, i, j - 1);
      CumulativeStep(sqrt, path, j - 1);
      NormFacts(sqrt, Sub(path[j], path[j - 1]));
    }
  }

  /** Two points of the path are no further apart than the arc between them. */
  lemma {:induction false} ArcBoundsDistance(sqrt: real -> real, path: seq<Vec>, i: nat, j: nat)
    requires IsSqrt(sqrt)
    requires i <= j < |path|
    ensures Dist(sqrt, path[i], path[j]) <= Cumulative(sqrt, path)[j] - Cumulative(sqrt, path)[i]
    decreases j - i
  {
    if i == j {
      SelfDistance(sqrt, path[i]);
    } else {
      ArcBoundsDistance(sqrt, path, i, j - 1);
      CumulativeStep(sqrt, path, j - 1);
      DistTriangle(sqrt, path[i], path[j - 1], path[j]);
    }
  }

  /** The segment found holds the distance. */
  lemma SearchHolds(c: seq<real>, d: real)
    requires |c| >= 2
    requires c[0] <= d <= c[|c| - 1]
    ensures c[SegmentIndex(c, d)] <= d <= c[SegmentIndex(c, d) + 1]
  {
    var r := SearchRight(c, d, 1);
    assert r >= 2 ==> c[r - 1] <= d;
    assert r == |c| >= 3 ==> c[|c| - 2] <= d;
  }

  lemma RatioInRange(c: seq<real>, index: nat, d: real)
    requires index + 1 < |c| && c[index] <= d <= c[index + 1]
    ensures 0.0 <= Ratio(c, index, d) <= 1.0
  {
    if c[index + 1] - c[index] > DEGENERATE_LENGTH {
      FractionBounds(d - c[index], c[index + 1] - c[index]);
    }
  }

  ghost predicate OnSegment(a: Vec, b: Vec, p: Vec) {
    exists t: real :: 0.0 <= t <= 1.0 && Lerp(a, b, t) == p
  }

  ghost predicate OnSegmentOf(path: seq<Vec>, i: nat, p: Vec) {
    i + 1 < |path| && OnSegment(path[i], path[i + 1], p)
  }

  /** The point lies on a segment of the path. */
  ghost predicate OnPath(path: seq<Vec>, p: Vec) {
    exists i: nat :: OnSegmentOf(path, i, p)
  }

  lemma LerpAtZero(a: Vec, b: Vec)
    ensures Lerp(a, b, 0.0) == a
  {}

  lemma LerpAtOne(a: Vec, b: Vec)
    ensures Lerp(a, b, 1.0) == b
  {}

  lemma VerticesOnPath(path: seq<Vec>, i: nat)
    requires |path| >= 2 && i < |path|
    ensures OnPath(path, path[i])
  {
    if i == 0 {
      LerpAtZero(path[0], path[1]);
      assert OnSegmentOf(path, 0, path[i]);
    } else {
      LerpAtOne(path[i - 1], path[i]);
      assert OnSegmentOf(path, i - 1, path[i]);
    }
  }

  lemma PointAtIsOnPath(path: seq<Vec>, c: seq<real>, d: real)
    requires |path| == |c| >= 2
    requires c[0] <= d <= c[|c| - 1]
    ensures OnPath(path, PointAt(path, c, d))
  {
    SearchHolds(c, d);
    RatioInRange(c, SegmentIndex(c, d), d);
    assert OnSegmentOf(path, SegmentIndex(c, d), PointAt(path, c, d));
  }

  /** Resampling leaves no point off the path, and gives the requested number of points. */
  lemma ResampledPointsOnPath(sqrt: real -> real, path: seq<Vec>, count: Option<int>)
    requires |path| >= 2
    ensures forall p <- Resample(sqrt, path, count) :: OnPath(path, p)
    ensures count.Some? && count.value > 0 ==> |Resample(sqrt, path, count)| == count.value
  {
    var out := Resample(sqrt, path, count);
    forall k | 0 <= k < |out|
      ensures OnPath(path, out[k])
    {
      if Unchanged(path, count) {
        VerticesOnPath(path, k);
      } else if ArcLength(sqrt, path) <= DEGENERATE_LENGTH {
        VerticesOnPath(path, 0);
      } else {
        CumulativeStart(sqrt, path);
        SpacedBounds(ArcLength(sqrt, path), k, count.value);
        PointAtIsOnPath(path, Cumulative(sqrt, path), Spaced(ArcLength(sqrt, path), k, count.value));
      }
    }
  }

  /** No value is negative, and points at distance zero coincide with the first point. */
  ghost predicate StartsTogether(path: seq<Vec>, c: seq<real>) {
    |path| == |c| && forall i :: 0 <= i < |c| ==> c[i] >= 0.0 && (c[i] == 0.0 ==> path[i] == path[0])
  }

  /** No value exceeds the last one. */
  ghost predicate LastIsGreatest(c: seq<real>) {
    forall i :: 0 <= i < |c| ==> c[i] <= c[|c| - 1]
  }

  lemma CumulativeShape(sqrt: real -> real, path: seq<Vec>)
    requires IsSqrt(sqrt)
    requires path != []
    ensures
      var c := Cumulative(sqrt, path);
      c[0] == 0.0 && StartsTogether(path, c) && LastIsGreatest(c)
  {
    var c := Cumulative(sqrt, path);
    CumulativeStart(sqrt, path);
    forall i | 0 <= i < |c|
      ensures c[i] >= 0.0 && (c[i] == 0.0 ==> path[i] == path[0])
      ensures c[i] <= c[|c| - 1]
    {
      CumulativeIncreases(sqrt, path, 0, i);
      CumulativeIncreases(sqrt, path, i, |c| - 1);
      StartOfRun(sqrt, path, i);
    }
  }

  lemma StartOfRun(sqrt: real -> real, path: seq<Vec>, i: nat)
    requires IsSqrt(sqrt)
    requires i < |path|
    requires Cumulative(sqrt, path)[0] == 0.0
    ensures Cumulative(sqrt, path)[i] <= 0.0 ==> path[i] == path[0]
  {
    ArcBoundsDistance(sqrt, path, 0, i);
    if Cumulative(sqrt, path)[i] <= 0.0 {
      ZeroDistance(sqrt, path[0], path[i]);
    }
  }

  /** Distance zero is the first point, even when the path starts with repeated points. */
  lemma PointAtStart(path: seq<Vec>, c: seq<real>)
    requires |path| == |c| >= 2
    requires c[0] == 0.0 && StartsTogether(path, c) && LastIsGreatest(c)
    ensures PointAt(path, c, 0.0) == path[0]
  {
    var index := SegmentIndex(c, 0.0);
    assert c[0] <= c[|c| - 1];
    SearchHolds(c, 0.0);
    RatioAtSegmentStart(c, index);
    LerpAtZero(path[index], path[index + 1]);
  }

  lemma RatioAtSegmentStart(c: seq<real>, index: nat)
    requires index + 1 < |c|
    ensures Ratio(c, index, c[index]) == 0.0
  {}

  lemma SearchExhausted(c: seq<real>, d: real, i: nat)
    requires i <= |c|
    requires forall k :: i <= k < |c| ==> c[k] <= d
    ensures SearchRight(c, d, i) == |c|
  {}

  lemma FullRatio(a: real, b: real)
    requires b - a > 0.0
    ensures (b - a) / (b - a) == 1.0
  {}

  /** The last distance falls in the last segment: on its end, unless that segment is too
      short to interpolate, when it is its start. */
  lemma PointAtEnd(path: seq<Vec>, c: seq<real>)
    requires |path| == |c| >= 2
    requires LastIsGreatest(c)
    ensures
      var n := |path| - 1;
      PointAt(path, c, c[n]) == if c[n] - c[n - 1] <= DEGENERATE_LENGTH then path[n - 1] else path[n]
  {
    var n := |path| - 1;
    SearchExhausted(c, c[n], 1);
    LerpAtZero(path[n - 1], path[n]);
    LerpAtOne(path[n - 1], path[n]);
    if c[n] - c[n - 1] > DEGENERATE_LENGTH {
      FullRatio(c[n - 1], c[n]);
    }
  }

  lemma SpacedEnds(total: real, count: nat)
    requires count >= 2
    ensures Spaced(total, 0, count) == 0.0
    ensures Spaced(total, count - 1, count) == total
  {
    var m := (count - 1) as real;
    assert m / m == 1.0;
    assert 0.0 / m == 0.0;
  }

  lemma SampledEnds(sqrt: real -> real, path: seq<Vec>, count: nat, c: seq<real>, total: real)
    requires |path| >= 2 && count >= 2
    requires c == Cumulative(sqrt, path) && total == ArcLength(sqrt, path)
    requires total > DEGENERATE_LENGTH && |path| != count
    ensures
      var out := Resample(sqrt, path, Some(count));
      && |out| == count
      && out[0] == PointAt(path, c, 0.0)
      && out[count - 1] == PointAt(path, c, total)
  {
    SpacedEnds(total, count);
    var out := Resample(sqrt, path, Some(count));
    assert out[0] == PointAt(path, c, Spaced(total, 0, count));
    assert out[count - 1] == PointAt(path, c, Spaced(total, count - 1, count));
  }

  lemma EitherIsClose(sqrt: real -> real, p: Vec, a: Vec, b: Vec)
    requires IsSqrt(sqrt)
    requires (p == a && Dist(sqrt, a, b) <= DEGENERATE_LENGTH) || p == b
    ensures Dist(sqrt, p, b) <= DEGENERATE_LENGTH
  {
    if p == b {
      SelfDistance(sqrt, b);
    }
  }

  lemma LastPointClose(sqrt: real -> real, path: seq<Vec>, c: seq<real>, last: Vec)
    requires IsSqrt(sqrt)
    requires |path| >= 2 && c == Cumulative(sqrt, path)
    requires last == PointAt(path, c, c[|c| - 1])
    ensures Dist(sqrt, last, path[|path| - 1]) <= DEGENERATE_LENGTH
  {
    CumulativeShape(sqrt, path);
    CumulativeStep(sqrt, path, |path| - 2);
    PointAtEnd(path, c);
    EitherIsClose(sqrt, last, path[|path| - 2], path[|path| - 1]);
  }

  lemma DegenerateEnds(sqrt: real -> real, path: seq<Vec>)
    requires IsSqrt(sqrt)
    requires |path| >= 2 && ArcLength(sqrt, path) <= DEGENERATE_LENGTH
    ensures Dist(sqrt, path[0], path[|path| - 1]) <= DEGENERATE_LENGTH
  {
    CumulativeStart(sqrt, path);
    ArcBoundsDistance(sqrt, path, 0, |path| - 1);
  }

  /** A resampled path starts exactly at the first point and ends within the degenerate
      length of the last one. */
  lemma ResampleKeepsEnds(sqrt: real -> real, path: seq<Vec>, count: nat)
    requires IsSqrt(sqrt)
    requires |path| >= 2 && count >= 2
    ensures
      var out := Resample(sqrt, path, Some(count));
      && |out| == count
      && out[0] == path[0]
      && Dist(sqrt, out[count - 1], path[|path| - 1]) <= DEGENERATE_LENGTH
  {
    if |path| == count {
      SelfDistance(sqrt, path[count - 1]);
    } else if ArcLength(sqrt, path) <= DEGENERATE_LENGTH {
      DegenerateEnds(sqrt, path);
    } else {
      var c := Cumulative(sqrt, path);
      CumulativeShape(sqrt, path);
      SampledEnds(sqrt, path, count, c, ArcLength(sqrt, path));
      PointAtStart(path, c);
      LastPointClose(sqrt, path, c, Resample(sqrt, path, Some(count))[count - 1]);
    }
  }
}
