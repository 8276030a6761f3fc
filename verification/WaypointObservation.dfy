/** The waypoint part of the policy's observation (`localmap/localmap_core/trajectory.py`). */
module WaypointObservation {
  import opened Geometry
  import opened Wrappers

  /** Squared length up to which a segment counts as a point. */
  const DEGENERATE_SQUARED := 0.000000000001

  /** Its root. */
  const DEGENERATE_LENGTH := 0.000001

  datatype ObservationError = NoWaypoints | NoLookahead | IndexOutOfRange | WrongLength

  function SelectedIndex(current: nat, offset: nat, count: nat): nat
    requires count > 0
  {
    if current + offset <= count - 1 then current + offset else count - 1
  }

  /** The next `lookahead` waypoints, the last one repeated beyond the end. */
  function Lookahead(waypoints: seq<Vec>, current: nat, lookahead: nat): (selected: seq<Vec>)
    requires waypoints != []
    ensures |selected| == lookahead
    ensures forall k :: 0 <= k < lookahead ==> selected[k] == waypoints[SelectedIndex(current, k, |waypoints|)]
  {
    if lookahead == 0 then []
    else Lookahead(waypoints, current, lookahead - 1) + [waypoints[SelectedIndex(current, lookahead - 1, |waypoints|)]]
  }

  method LookaheadWaypoints(waypoints: seq<Vec>, current: nat, lookahead: nat)
    returns (r: Result<seq<Vec>, ObservationError>)
    ensures r == if waypoints == [] then Err(NoWaypoints) else Ok(Lookahead(waypoints, current, lookahead))
  {
    if waypoints == [] {
      return Err(NoWaypoints);
    }
    var selected: seq<Vec> := [];
    for offset := 0 to lookahead
      invariant selected == Lookahead(waypoints, current, offset)
    {
      var index := if current + offset <= |waypoints| - 1 then current + offset else |waypoints| - 1;
      selected := selected + [waypoints[index]];
    }
    return Ok(selected);
  }

  // ------------------------------------------------------------- distance to a segment

  /** The parameter of the nearest point of a segment. */
  function Nearest(along: real, lengthSquared: real): real
    requires lengthSquared > 0.0
  {
    Clip(along / lengthSquared, 0.0, 1.0)
  }

  function PointToSegmentDistance(sqrt: real -> real, p: Vec, a: Vec, b: Vec): real {
    var segment := Sub(b, a);
    var lengthSquared := Dot(segment, segment);
    if lengthSquared <= DEGENERATE_SQUARED then Norm(sqrt, Sub(p, a))
    else Norm(sqrt, Sub(p, Add(a, Scale(Nearest(Dot(Sub(p, a), segment), lengthSquared), segment))))
  }

  /** The squared distance from `u` to `t` times a vector of squared length `l`, with `c` their
      dot product. */
  function Parabola(uu: real, c: real, l: real, t: real): real { uu - 2.0 * (t * c) + (t * t) * l }

  lemma SquaredDistanceIsParabola(u: Vec, s: Vec, t: real)
    ensures Dot(Sub(u, Scale(t, s)), Sub(u, Scale(t, s))) == Parabola(Dot(u, u), Dot(u, s), Dot(s, s), t)
  {
    AxisParabola(u.x, s.x, t);
    AxisParabola(u.y, s.y, t);
    AxisParabola(u.z, s.z, t);
    Collect(t, u.x * s.x, u.y * s.y, u.z * s.z);
    Collect(t * t, s.x * s.x, s.y * s.y, s.z * s.z);
  }

  lemma AxisParabola(u: real, s: real, t: real)
    ensures (u - t * s) * (u - t * s) == u * u - 2.0 * (t * (u * s)) + (t * t) * (s * s)
  {}

  lemma Collect(k: real, a: real, b: real, c: real)
    ensures k * (a + b + c) == k * a + k * b + k * c
  {}

  /** The clipped parameter minimises the distance over the segment. */
  lemma NearestMinimises(uu: real, c: real, l: real, t: real)
    requires l > 0.0 && 0.0 <= t <= 1.0
    ensures Parabola(uu, c, l, Nearest(c, l)) <= Parabola(uu, c, l, t)
  {
    var q, n := c / l, Nearest(c, l);
    assert q * l == c;
    if q < 0.0 {
      NearestAtStart(uu, c, l, t, q);
    } else if q > 1.0 {
      NearestAtEnd(uu, c, l, t, q);
    } else {
      NearestInside(uu, c, l, t, q);
    }
  }

  lemma NearestAtStart(uu: real, c: real, l: real, t: real, q: real)
    requires l > 0.0 && t >= 0.0 && q < 0.0 && q * l == c
    ensures Parabola(uu, c, l, 0.0) <= Parabola(uu, c, l, t)
  {
    ProductPositive(-q, l);
    assert (-q) * l == -c;
    ProductNonNegative(t, -c);
    ProductNonNegative(t * t, l);
  }

  lemma NearestInside(uu: real, c: real, l: real, t: real, q: real)
    requires l > 0.0 && q * l == c
    ensures Parabola(uu, c, l, q) <= Parabola(uu, c, l, t)
  {
    var d := t - q;
    ProductNonNegative(d * d, l);
    SquareGap(t, q, l);
    Regroup(t, q, l);
    Regroup(q, q, l);
  }

  lemma SquareGap(t: real, q: real, l: real)
    ensures ((t - q) * (t - q)) * l == (t * t) * l - 2.0 * ((t * q) * l) + (q * q) * l
  {
    assert (t - q) * (t - q) == t * t - 2.0 * (t * q) + q * q;
  }

  lemma Regroup(t: real, q: real, l: real)
    ensures t * (q * l) == (t * q) * l
  {}

  lemma NearestAtEnd(uu: real, c: real, l: real, t: real, q: real)
    requires l > 0.0 && 0.0 <= t <= 1.0 && q > 1.0 && q * l == c
    ensures Parabola(uu, c, l, 1.0) <= Parabola(uu, c, l, t)
  {
    ProductStrict(1.0, q, l);
    var d := 1.0 - t;
    ProductMonotone(l, c, d);
    ProductNonNegative(d * d, l);
    EndGap(c, l, t);
  }

  lemma EndGap(c: real, l: real, t: real)
    ensures
      (- 2.0 * (t * c) + (t * t) * l) - (- 2.0 * c + l)
      == 2.0 * (c * (1.0 - t)) - 2.0 * (l * (1.0 - t)) + ((1.0 - t) * (1.0 - t)) * l
  {
    assert (1.0 - t) * (1.0 - t) == 1.0 - 2.0 * t + t * t;
    EndExpand(l, t);
    assert c * (1.0 - t) == c - t * c;
  }

  lemma EndExpand(l: real, t: real)
    ensures ((1.0 - t) * (1.0 - t)) * l == l - 2.0 * (l * t) + (t * t) * l
  {
    assert (1.0 - t) * (1.0 - t) == 1.0 - 2.0 * t + t * t;
  }

  /** No point of the segment is nearer than the reported distance, up to the length of a
      degenerate segment; and outside that case some point is exactly that near. */
  lemma DistanceIsMinimum(sqrt: real -> real, p: Vec, a: Vec, b: Vec, t: real)
    requires IsSqrt(sqrt) && 0.0 <= t <= 1.0
    ensures
      var s := Sub(b, a);
      var slack := if Dot(s, s) <= DEGENERATE_SQUARED then DEGENERATE_LENGTH else 0.0;
      PointToSegmentDistance(sqrt, p, a, b) <= Norm(sqrt, Sub(p, Add(a, Scale(t, s)))) + slack
    ensures
      var s := Sub(b, a);
      Dot(s, s) > DEGENERATE_SQUARED ==>
        exists n: real ::
          0.0 <= n <= 1.0 && PointToSegmentDistance(sqrt, p, a, b) == Norm(sqrt, Sub(p, Add(a, Scale(n, s))))
  {
    var s, u := Sub(b, a), Sub(p, a);
    if Dot(s, s) <= DEGENERATE_SQUARED {
      DegenerateDistance(sqrt, p, a, b, t);
    } else {
      var n := Nearest(Dot(u, s), Dot(s, s));
      FromStart(p, a, s, t);
      FromStart(p, a, s, n);
      SquaredDistanceIsParabola(u, s, t);
      SquaredDistanceIsParabola(u, s, n);
      NearestMinimises(Dot(u, u), Dot(u, s), Dot(s, s), t);
      ShorterNorm(sqrt, Sub(u, Scale(n, s)), Sub(u, Scale(t, s)));
      assert 0.0 <= n <= 1.0;
    }
  }

  lemma FromStart(p: Vec, a: Vec, s: Vec, t: real)
    ensures Sub(p, Add(a, Scale(t, s))) == Sub(Sub(p, a), Scale(t, s))
  {}

  lemma ShorterNorm(sqrt: real -> real, v: Vec, w: Vec)
    requires IsSqrt(sqrt) && Dot(v, v) <= Dot(w, w)
    ensures Norm(sqrt, v) <= Norm(sqrt, w)
  {
    NormFacts(sqrt, v);
    NormFacts(sqrt, w);
    SquareMonotone(Norm(sqrt, v), Norm(sqrt, w));
  }

  lemma ShrunkLength(t: real, n: real)
    requires 0.0 <= t <= 1.0 && 0.0 <= n <= DEGENERATE_LENGTH
    ensures t * n <= DEGENERATE_LENGTH
  {
    var rest := 1.0 - t;
    ProductNonNegative(rest, n);
    assert rest * n == n - t * n;
  }

  lemma DegenerateDistance(sqrt: real -> real, p: Vec, a: Vec, b: Vec, t: real)
    requires IsSqrt(sqrt) && 0.0 <= t <= 1.0 && Dot(Sub(b, a), Sub(b, a)) <= DEGENERATE_SQUARED
    ensures Norm(sqrt, Sub(p, a)) <= Norm(sqrt, Sub(p, Add(a, Scale(t, Sub(b, a))))) + DEGENERATE_LENGTH
  {
    var s := Sub(b, a);
    NormFacts(sqrt, s);
    SquareMonotone(Norm(sqrt, s), DEGENERATE_LENGTH);
    NormScale(sqrt, t, s);
    ShrunkLength(t, Norm(sqrt, s));
    FromStart(p, a, s, t);
    assert Sub(p, a) == Add(Sub(Sub(p, a), Scale(t, s)), Scale(t, s));
    TriangleInequality(sqrt, Sub(Sub(p, a), Scale(t, s)), Scale(t, s));
  }

  // --------------------------------------------------------------------------- the slice

  function SegmentStart(current: nat): nat { if current >= 1 then current - 1 else 0 }

  /** The end of the segment in progress; a start past the last waypoint is an index error. */
  function SegmentEnd(current: nat, n: nat): nat
    requires n >= 2
  {
    var start := SegmentStart(current);
    var stop := if current <= n - 1 then current else n - 1;
    if start == stop then (if start + 1 <= n - 1 then start + 1 else n - 1) else stop
  }

  function TubeSigned(sqrt: real -> real, waypoints: seq<Vec>, tip: Vec, current: nat, tubeRadius: real):
    (r: Result<real, ObservationError>)
    ensures r.Ok? ==> 0.0 <= r.value <= 1.0
    ensures r.Err? <==> |waypoints| >= 2 && current > |waypoints|
  {
    var n := |waypoints|;
    if n < 2 then Ok(0.0)
    else
      var start := SegmentStart(current);
      if start >= n then Err(IndexOutOfRange)
      else
        var distance := PointToSegmentDistance(sqrt, tip, waypoints[start], waypoints[SegmentEnd(current, n)]);
        if tubeRadius <= 0.0 then Ok(1.0) else Ok(Clip(distance / tubeRadius, 0.0, 1.0))
  }

  /** The scaled difference of a waypoint and the tip, as three numbers. */
  function ErrorOf(waypoint: Vec, tip: Vec, normalizer: real): Vec
    requires normalizer != 0.0
  {
    Vec((waypoint.x - tip.x) / normalizer, (waypoint.y - tip.y) / normalizer, (waypoint.z - tip.z) / normalizer)
  }

  function Flat(v: Vec): seq<real> { [v.x, v.y, v.z] }

  function Errors(selected: seq<Vec>, tip: Vec, normalizer: real): (values: seq<real>)
    requires normalizer != 0.0
    ensures |values| == 3 * |selected|
  {
    if selected == [] then []
    else
      Errors(selected[..|selected| - 1], tip, normalizer) + Flat(ErrorOf(selected[|selected| - 1], tip, normalizer))
  }

  datatype Setup = Setup(lookahead: nat, normalizer: real, tubeRadius: real, waypointCount: int)

  function Progress(s: Setup, current: nat): real {
    var steps := if s.waypointCount - 1 >= 1 then s.waypointCount - 1 else 1;
    Clip(current as real / steps as real, 0.0, 1.0)
  }

  function IsFinal(s: Setup, current: nat): real { if current >= s.waypointCount - 1 then 1.0 else 0.0 }

  function Slice(sqrt: real -> real, s: Setup, waypoints: seq<Vec>, tip: Vec, current: nat):
    (r: Result<seq<real>, ObservationError>)
    requires s.normalizer != 0.0
    ensures r.Ok? ==> |r.value| == 3 * s.lookahead + 3
    ensures r.Ok? <==> waypoints != [] && s.lookahead > 0 && (|waypoints| < 2 || current <= |waypoints|)
  {
    if waypoints == [] then Err(NoWaypoints)
    else if s.lookahead == 0 then Err(NoLookahead)
    else
      match TubeSigned(sqrt, waypoints, tip, current, s.tubeRadius)
      case Err(e) => Err(e)
      case Ok(tube) =>
        Ok(Errors(Lookahead(waypoints, current, s.lookahead), tip, s.normalizer)
           + [Progress(s, current), tube, IsFinal(s, current)])
  }

  method BuildWaypointObservationSlice(sqrt: real -> real, s: Setup, waypoints: seq<Vec>, tip: Vec, current: nat)
    returns (r: Result<seq<real>, ObservationError>)
    requires s.normalizer != 0.0
    ensures r == Slice(sqrt, s, waypoints, tip, current)
  {
    var future := LookaheadWaypoints(waypoints, current, s.lookahead);
    if future.Err? {
      return Err(future.error);
    }
    if s.lookahead == 0 {
      return Err(NoLookahead);
    }
    var values: seq<real> := [];
    for k := 0 to |future.value|
      invariant values == Errors(future.value[..k], tip, s.normalizer)
    {
      assert future.value[..k + 1][..k] == future.value[..k];
      values := values + Flat(ErrorOf(future.value[k], tip, s.normalizer));
    }
    assert future.value[..|future.value|] == future.value;
    var tube := TubeSigned(sqrt, waypoints, tip, current, s.tubeRadius);
    if tube.Err? {
      return Err(tube.error);
    }
    return Ok(values + [Progress(s, current), tube.value, IsFinal(s, current)]);
  }

  // --------------------------------------------------------------- reading it back

  function TripleAt(values: seq<real>, k: nat): Vec
    requires 3 * k + 3 <= |values|
  {
    Vec(values[3 * k], values[3 * k + 1], values[3 * k + 2])
  }

  lemma {:induction false} ErrorAt(selected: seq<Vec>, tip: Vec, normalizer: real, k: nat)
    requires normalizer != 0.0 && k < |selected|
    ensures TripleAt(Errors(selected, tip, normalizer), k) == ErrorOf(selected[k], tip, normalizer)
    decreases |selected|
  {
    var n := |selected| - 1;
    if k < n {
      ErrorAt(selected[..n], tip, normalizer, k);
    }
  }

  lemma QuotientBack(a: real, n: real)
    requires n != 0.0
    ensures n * (a / n) == a
  {}

  lemma ErrorBack(w: Vec, tip: Vec, normalizer: real)
    requires normalizer != 0.0
    ensures Add(tip, Scale(normalizer, ErrorOf(w, tip, normalizer))) == w
  {
    QuotientBack(w.x - tip.x, normalizer);
    QuotientBack(w.y - tip.y, normalizer);
    QuotientBack(w.z - tip.z, normalizer);
  }

  /** The observation determines what it observes: scaling a triple back and adding the tip
      gives the waypoint it stands for. */
  lemma SliceRecoversWaypoints(sqrt: real -> real, s: Setup, waypoints: seq<Vec>, tip: Vec, current: nat, k: nat)
    requires s.normalizer != 0.0 && k < s.lookahead
    requires Slice(sqrt, s, waypoints, tip, current).Ok?
    ensures
      Add(tip, Scale(s.normalizer, TripleAt(Slice(sqrt, s, waypoints, tip, current).value, k)))
      == waypoints[if current + k < |waypoints| then current + k else |waypoints| - 1]
  {
    var selected := Lookahead(waypoints, current, s.lookahead);
    var errors := Errors(selected, tip, s.normalizer);
    ErrorAt(selected, tip, s.normalizer, k);
    ErrorBack(selected[k], tip, s.normalizer);
    assert TripleAt(Slice(sqrt, s, waypoints, tip, current).value, k) == TripleAt(errors, k);
  }

  lemma RatioBelowOne(a: real, r: real)
    requires a >= 0.0 && r > 0.0
    ensures Clip(a / r, 0.0, 1.0) < 1.0 <==> a < r
  {
    var q := a / r;
    assert q * r == a;
    if q < 1.0 {
      ProductStrict(q, 1.0, r);
    } else {
      ProductMonotone(1.0, q, r);
    }
  }

  /** The tip is closer than `radius` to some point of the segment. */
  ghost predicate InTube(sqrt: real -> real, tip: Vec, a: Vec, b: Vec, radius: real) {
    exists t: real :: 0.0 <= t <= 1.0 && Norm(sqrt, Sub(tip, Add(a, Scale(t, Sub(b, a))))) < radius
  }

  /** On a path with a segment in progress that is not degenerate - from the waypoint before the
      current one, or from the first to the second at the start - the tube term is below one
      exactly when the tip is inside the tube around that segment. */
  lemma TubeBelowOneIffInside(sqrt: real -> real, waypoints: seq<Vec>, tip: Vec, current: nat, radius: real, k: nat)
    requires IsSqrt(sqrt) && radius > 0.0
    requires |waypoints| >= 2 && current < |waypoints| && k == (if current == 0 then 1 else current)
    requires Dot(Sub(waypoints[k], waypoints[k - 1]), Sub(waypoints[k], waypoints[k - 1])) > DEGENERATE_SQUARED
    ensures TubeSigned(sqrt, waypoints, tip, current, radius).Ok?
    ensures
      TubeSigned(sqrt, waypoints, tip, current, radius).value < 1.0 <==>
      InTube(sqrt, tip, waypoints[k - 1], waypoints[k], radius)
  {
    assert SegmentStart(current) == k - 1 && SegmentEnd(current, |waypoints|) == k;
    var a, b := waypoints[k - 1], waypoints[k];
    var d := PointToSegmentDistance(sqrt, tip, a, b);
    DistanceIsMinimum(sqrt, tip, a, b, 0.0);
    var n: real :| 0.0 <= n <= 1.0 && d == Norm(sqrt, Sub(tip, Add(a, Scale(n, Sub(b, a)))));
    NormFacts(sqrt, Sub(tip, Add(a, Scale(n, Sub(b, a)))));
    RatioBelowOne(d, radius);
    if InTube(sqrt, tip, a, b, radius) {
      var t: real :| 0.0 <= t <= 1.0 && Norm(sqrt, Sub(tip, Add(a, Scale(t, Sub(b, a))))) < radius;
      DistanceIsMinimum(sqrt, tip, a, b, t);
    }
  }

  lemma OnAxis(sqrt: real -> real, v: Vec, d: real)
    requires IsSqrt(sqrt) && d >= 0.0 && v == Vec(0.0, d, 0.0)
    ensures Norm(sqrt, v) == d
  {
    AxisDot(v, d);
    RootUnique(sqrt, d * d, d);
  }

  lemma AxisDot(v: Vec, d: real)
    requires v == Vec(0.0, d, 0.0)
    ensures Dot(v, v) == d * d
  {}

  lemma UnitSegment(s: Vec, u: Vec, d: real)
    requires s == Vec(1.0, 0.0, 0.0) && u == Vec(0.0, d, 0.0)
    ensures Dot(s, s) == 1.0 && Dot(u, s) == 0.0
  {}

  lemma NearestIsStart(c: real, l: real)
    requires c == 0.0 && l == 1.0
    ensures Nearest(c, l) == 0.0
  {}

  lemma AtStart(p: Vec, a: Vec, s: Vec, t: real)
    requires t == 0.0
    ensures Sub(p, Add(a, Scale(t, s))) == Sub(p, a)
  {}

  /** A point beside the start of a segment of length one. */
  lemma BesideStart(sqrt: real -> real, p: Vec, a: Vec, b: Vec, d: real)
    requires IsSqrt(sqrt) && d >= 0.0 && Sub(b, a) == Vec(1.0, 0.0, 0.0) && Sub(p, a) == Vec(0.0, d, 0.0)
    ensures PointToSegmentDistance(sqrt, p, a, b) == d
    ensures Norm(sqrt, Sub(p, Add(a, Scale(0.0, Sub(b, a))))) == d
  {
    UnitSegment(Sub(b, a), Sub(p, a), d);
    NearestIsStart(Dot(Sub(p, a), Sub(b, a)), Dot(Sub(b, a), Sub(b, a)));
    AtStart(p, a, Sub(b, a), 0.0);
    OnAxis(sqrt, Sub(p, a), d);
  }

  lemma ShareOfRadius(v: real, radius: real, d: real)
    requires 0.0 <= v < 1.0 && radius > 0.0 && d == v * radius
    ensures 0.0 <= d < radius && d / radius == v
  {
    ProductNonNegative(v, radius);
    ProductStrict(v, 1.0, radius);
    assert (d / radius) * radius == d;
    FactorOrder(d / radius, v, radius);
    FactorOrder(v, d / radius, radius);
  }

  lemma TubeOfTwo(sqrt: real -> real, waypoints: seq<Vec>, tip: Vec, radius: real, d: real, v: real)
    requires |waypoints| == 2 && PointToSegmentDistance(sqrt, tip, waypoints[0], waypoints[1]) == d
    requires radius > 0.0 && d / radius == v && 0.0 <= v <= 1.0
    ensures TubeSigned(sqrt, waypoints, tip, 1, radius) == Ok(v)
  {}

  lemma InTubeAtStart(sqrt: real -> real, tip: Vec, a: Vec, b: Vec, radius: real)
    requires Norm(sqrt, Sub(tip, Add(a, Scale(0.0, Sub(b, a))))) < radius
    ensures InTube(sqrt, tip, a, b, radius)
  {}

  lemma BesideSegment(sqrt: real -> real, waypoints: seq<Vec>, tip: Vec, radius: real, d: real, v: real)
    requires IsSqrt(sqrt) && |waypoints| == 2 && radius > 0.0 && 0.0 <= v < 1.0 && d == v * radius
    requires Sub(waypoints[1], waypoints[0]) == Vec(1.0, 0.0, 0.0) && Sub(tip, waypoints[0]) == Vec(0.0, d, 0.0)
    ensures TubeSigned(sqrt, waypoints, tip, 1, radius) == Ok(v)
    ensures InTube(sqrt, tip, waypoints[0], waypoints[1], radius)
  {
    ShareOfRadius(v, radius, d);
    BesideStart(sqrt, tip, waypoints[0], waypoints[1], d);
    TubeOfTwo(sqrt, waypoints, tip, radius, d, v);
    InTubeAtStart(sqrt, tip, waypoints[0], waypoints[1], radius);
  }

  lemma UnitTask(d: real) returns (waypoints: seq<Vec>, tip: Vec)
    ensures |waypoints| == 2
    ensures Sub(waypoints[1], waypoints[0]) == Vec(1.0, 0.0, 0.0) && Sub(tip, waypoints[0]) == Vec(0.0, d, 0.0)
  {
    waypoints, tip := [Vec(0.0, 0.0, 0.0), Vec(1.0, 0.0, 0.0)], Vec(0.0, d, 0.0);
    FromOrigin(waypoints[1], waypoints[0]);
    FromOrigin(tip, waypoints[0]);
  }

  lemma FromOrigin(v: Vec, o: Vec)
    requires o == Vec(0.0, 0.0, 0.0)
    ensures Sub(v, o) == v
  {}

  /** Inside the tube the term takes every value from zero up to one: for each there are two
      waypoints and a tip inside the tube around them. */
  lemma TubeTermIsGraded(sqrt: real -> real, v: real, radius: real) returns (waypoints: seq<Vec>, tip: Vec)
    requires IsSqrt(sqrt) && 0.0 <= v < 1.0 && radius > 0.0
    ensures |waypoints| == 2 && TubeSigned(sqrt, waypoints, tip, 1, radius) == Ok(v)
    ensures InTube(sqrt, tip, waypoints[0], waypoints[1], radius)
  {
    var d := v * radius;
    waypoints, tip := UnitTask(d);
    BesideSegment(sqrt, waypoints, tip, radius, d, v);
  }

  lemma FractionBelowOne(a: real, b: real)
    requires b > 0.0
    ensures a / b >= 1.0 <==> a >= b
  {
    var q := a / b;
    assert q * b == a;
    if q < 1.0 {
      ProductStrict(q, 1.0, b);
    } else {
      ProductMonotone(1.0, q, b);
    }
  }

  /** Full progress and the final flag agree, except for a path of fewer than two waypoints
      before its first waypoint has been reached. */
  lemma FullProgressIffFinal(s: Setup, current: nat)
    ensures (Progress(s, current) == 1.0 <==> IsFinal(s, current) == 1.0) <==> (s.waypointCount >= 2 || current >= 1)
  {
    var steps := if s.waypointCount - 1 >= 1 then s.waypointCount - 1 else 1;
    FractionBelowOne(current as real, steps as real);
  }

  lemma ShareOfSteps(a: real, n: real)
    requires a >= 0.0 && n > 0.0
    ensures n * Clip(a / n, 0.0, 1.0) == Min(a, n)
  {
    var q := a / n;
    assert q * n == a;
    if q < 1.0 {
      ProductStrict(q, 1.0, n);
    } else {
      ProductMonotone(1.0, q, n);
    }
  }

  /** `progress` counts the steps of a path of `count` waypoints in equal shares from zero to one
      and stays at one. */
  predicate CountsSteps(count: int, current: nat, progress: real) {
    if count >= 2 then (count - 1) as real * progress == Min(current as real, (count - 1) as real)
    else progress == if current == 0 then 0.0 else 1.0
  }

  lemma ProgressCounts(s: Setup, current: nat)
    ensures CountsSteps(s.waypointCount, current, Progress(s, current))
  {
    if s.waypointCount >= 2 {
      ShareOfSteps(current as real, (s.waypointCount - 1) as real);
    } else {
      ShareOfSteps(current as real, 1.0);
    }
  }

  /** The three numbers behind the triples: the progress; the tube term, which is zero for fewer
      than two waypoints and one without a tube; and whether the last configured waypoint is
      current. */
  lemma SliceTerms(sqrt: real -> real, s: Setup, waypoints: seq<Vec>, tip: Vec, current: nat)
    requires s.normalizer != 0.0 && Slice(sqrt, s, waypoints, tip, current).Ok?
    ensures
      var values := Slice(sqrt, s, waypoints, tip, current).value;
      var progress, tube, final := values[|values| - 3], values[|values| - 2], values[|values| - 1];
      && CountsSteps(s.waypointCount, current, progress)
      && Ok(tube) == TubeSigned(sqrt, waypoints, tip, current, s.tubeRadius)
      && (|waypoints| < 2 ==> tube == 0.0)
      && (|waypoints| >= 2 && s.tubeRadius <= 0.0 ==> tube == 1.0)
      && final == if s.waypointCount <= current + 1 then 1.0 else 0.0
  {
    ProgressCounts(s, current);
  }

  /** The first of the checks that fails decides the error. */
  lemma SliceErrors(sqrt: real -> real, s: Setup, waypoints: seq<Vec>, tip: Vec, current: nat)
    requires s.normalizer != 0.0 && Slice(sqrt, s, waypoints, tip, current).Err?
    ensures
      var e := Slice(sqrt, s, waypoints, tip, current).error;
      if waypoints == [] then e == NoWaypoints
      else if s.lookahead == 0 then e == NoLookahead
      else e == IndexOutOfRange && |waypoints| >= 2 && current > |waypoints|
  {}
}
