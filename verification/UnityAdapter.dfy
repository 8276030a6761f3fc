/** The change from ROS to Unity axes (`runtime_bridge/unity_observation_adapter.py`). */
module UnityAdapter {
  import opened Geometry
  import opened Wrappers
  import opened WaypointObservation

  /** The lookahead the fixed observation layout is made for. */
  const UNITY_LOOKAHEAD := 3

  function ToUnity(v: Vec): Vec { Vec(-v.y, v.z, v.x) }

  function FromUnity(u: Vec): Vec { Vec(u.z, -u.x, u.y) }

  function AllToUnity(vs: seq<Vec>): (us: seq<Vec>)
    ensures |us| == |vs|
    ensures forall i :: 0 <= i < |vs| ==> us[i] == ToUnity(vs[i])
  {
    if vs == [] then [] else AllToUnity(vs[..|vs| - 1]) + [ToUnity(vs[|vs| - 1])]
  }

  function UnityTriples(values: seq<real>, k: nat): seq<real>
    requires 3 * k <= |values|
  {
    if k == 0 then [] else UnityTriples(values, k - 1) + Flat(ToUnity(TripleAt(values, k - 1)))
  }

  function ValuesToUnity(values: seq<real>): Result<seq<real>, ObservationError> {
    if |values| != 3 * UNITY_LOOKAHEAD + 3 then Err(WrongLength)
    else Ok(UnityTriples(values, UNITY_LOOKAHEAD) + values[3 * UNITY_LOOKAHEAD..])
  }

  method WaypointValuesToUnity(values: seq<real>) returns (r: Result<seq<real>, ObservationError>)
    ensures r == ValuesToUnity(values)
  {
    if |values| != 12 {
      return Err(WrongLength);
    }
    var unity: seq<real> := [];
    for k := 0 to 3
      invariant unity == UnityTriples(values, k)
    {
      unity := unity + [-values[3 * k + 1], values[3 * k + 2], values[3 * k]];
    }
    return Ok(unity + values[9..]);
  }

  /** The axes can be changed back. */
  lemma UnityIsInvertible(v: Vec, u: Vec)
    ensures FromUnity(ToUnity(v)) == v && ToUnity(FromUnity(u)) == u
    ensures ToUnity(v) == u <==> v == FromUnity(u)
  {}

  /** Lengths and angles are kept; orientation is reversed, so this is not a rotation. */
  lemma UnityKeepsLengthsAndFlipsHands(a: Vec, b: Vec)
    ensures Dot(ToUnity(a), ToUnity(b)) == Dot(a, b)
    ensures Cross(ToUnity(a), ToUnity(b)) == Scale(-1.0, ToUnity(Cross(a, b)))
  {
    assert (-a.y) * (-b.y) == a.y * b.y;
    assert (-a.y) * b.z == -(a.y * b.z) && (-b.y) * a.z == -(b.y * a.z);
    assert (-a.y) * b.x == -(a.y * b.x) && (-b.y) * a.x == -(b.y * a.x);
  }

  lemma UnityKeepsDot(a: Vec, b: Vec)
    ensures Dot(ToUnity(a), ToUnity(b)) == Dot(a, b)
  {
    assert (-a.y) * (-b.y) == a.y * b.y;
  }

  lemma UnityIsLinear(a: Vec, b: Vec, k: real)
    ensures Sub(ToUnity(a), ToUnity(b)) == ToUnity(Sub(a, b))
    ensures Add(ToUnity(a), ToUnity(b)) == ToUnity(Add(a, b))
    ensures Scale(k, ToUnity(a)) == ToUnity(Scale(k, a))
  {
    assert k * (-a.y) == -(k * a.y);
  }

  lemma UnityKeepsNorm(sqrt: real -> real, v: Vec)
    ensures Norm(sqrt, ToUnity(v)) == Norm(sqrt, v)
  {
    UnityKeepsDot(v, v);
  }

  /** The clipped projection, and with it the distance to a segment, is the same in both frames. */
  lemma UnityKeepsSegmentDistance(sqrt: real -> real, p: Vec, a: Vec, b: Vec)
    ensures PointToSegmentDistance(sqrt, ToUnity(p), ToUnity(a), ToUnity(b)) == PointToSegmentDistance(sqrt, p, a, b)
  {
    var s := Sub(b, a);
    UnityIsLinear(b, a, 1.0);
    UnityIsLinear(p, a, 1.0);
    UnityKeepsDot(s, s);
    UnityKeepsDot(Sub(p, a), s);
    if Dot(s, s) <= DEGENERATE_SQUARED {
      UnityKeepsNorm(sqrt, Sub(p, a));
    } else {
      var t := Nearest(Dot(Sub(p, a), s), Dot(s, s));
      UnityIsLinear(s, s, t);
      UnityIsLinear(a, Scale(t, s), 1.0);
      UnityIsLinear(p, Add(a, Scale(t, s)), 1.0);
      UnityKeepsNorm(sqrt, Sub(p, Add(a, Scale(t, s))));
    }
  }

  lemma UnityKeepsTube(sqrt: real -> real, waypoints: seq<Vec>, tip: Vec, current: nat, tubeRadius: real)
    ensures
      TubeSigned(sqrt, AllToUnity(waypoints), ToUnity(tip), current, tubeRadius)
      == TubeSigned(sqrt, waypoints, tip, current, tubeRadius)
  {
    if |waypoints| >= 2 && SegmentStart(current) < |waypoints| {
      UnityKeepsSegmentDistance(
        sqrt, tip, waypoints[SegmentStart(current)], waypoints[SegmentEnd(current, |waypoints|)]);
    }
  }

  lemma UnityOfError(w: Vec, tip: Vec, normalizer: real)
    requires normalizer != 0.0
    ensures ErrorOf(ToUnity(w), ToUnity(tip), normalizer) == ToUnity(ErrorOf(w, tip, normalizer))
  {
    NegatedQuotient(w.y - tip.y, normalizer);
    assert -w.y - -tip.y == -(w.y - tip.y);
  }

  lemma NegatedQuotient(a: real, n: real)
    requires n != 0.0
    ensures (-a) / n == -(a / n)
  {}

  lemma {:induction false} TriplesOfErrors(selected: seq<Vec>, tip: Vec, normalizer: real, tail: seq<real>, k: nat)
    requires normalizer != 0.0 && k <= |selected|
    ensures
      UnityTriples(Errors(selected, tip, normalizer) + tail, k)
      == Errors(AllToUnity(selected[..k]), ToUnity(tip), normalizer)
  {
    if k > 0 {
      TriplesOfErrors(selected, tip, normalizer, tail, k - 1);
      ErrorAt(selected, tip, normalizer, k - 1);
      UnityOfError(selected[k - 1], tip, normalizer);
      var values := Errors(selected, tip, normalizer);
      assert TripleAt(values + tail, k - 1) == TripleAt(values, k - 1);
      var now, before := AllToUnity(selected[..k]), AllToUnity(selected[..k - 1]);
      assert now[..k - 1] == before;
    }
  }

  lemma {:induction false} TripleErrorsToUnity(selected: seq<Vec>, tip: Vec, normalizer: real, tail: seq<real>)
    requires normalizer != 0.0 && |selected| == UNITY_LOOKAHEAD && |tail| == 3
    ensures
      ValuesToUnity(Errors(selected, tip, normalizer) + tail)
      == Ok(Errors(AllToUnity(selected), ToUnity(tip), normalizer) + tail)
  {
    TriplesOfErrors(selected, tip, normalizer, tail, UNITY_LOOKAHEAD);
    assert selected[..UNITY_LOOKAHEAD] == selected;
  }

  lemma SlicesFailAlike(sqrt: real -> real, s: Setup, waypoints: seq<Vec>, tip: Vec, current: nat)
    requires s.normalizer != 0.0
    ensures
      var ros := Slice(sqrt, s, waypoints, tip, current);
      var unity := Slice(sqrt, s, AllToUnity(waypoints), ToUnity(tip), current);
      (ros.Err? <==> unity.Err?) && (ros.Err? ==> unity.error == ros.error)
  {
    UnityKeepsTube(sqrt, waypoints, tip, current, s.tubeRadius);
  }

  lemma LookaheadToUnity(waypoints: seq<Vec>, current: nat, lookahead: nat)
    requires waypoints != []
    ensures AllToUnity(Lookahead(waypoints, current, lookahead)) == Lookahead(AllToUnity(waypoints), current, lookahead)
  {}

  lemma TripleSliceCommutes(sqrt: real -> real, s: Setup, waypoints: seq<Vec>, tip: Vec, current: nat)
    requires s.normalizer != 0.0 && s.lookahead == UNITY_LOOKAHEAD
    requires Slice(sqrt, s, waypoints, tip, current).Ok?
    ensures
      Slice(sqrt, s, AllToUnity(waypoints), ToUnity(tip), current).Ok?
      && ValuesToUnity(Slice(sqrt, s, waypoints, tip, current).value)
         == Ok(Slice(sqrt, s, AllToUnity(waypoints), ToUnity(tip), current).value)
  {
    UnityKeepsTube(sqrt, waypoints, tip, current, s.tubeRadius);
    var tube := TubeSigned(sqrt, waypoints, tip, current, s.tubeRadius);
    LookaheadToUnity(waypoints, current, s.lookahead);
    TripleErrorsToUnity(
      Lookahead(waypoints, current, s.lookahead), tip, s.normalizer,
      [Progress(s, current), tube.value, IsFinal(s, current)]);
  }

  /** Converting the observation is observing the converted scene: for the lookahead of three,
      the Unity form of the slice built from ROS waypoints and tip equals the slice built from
      the converted waypoints and tip, the tube term included. A slice of any other lookahead is
      refused, and both slices fail alike. */
  lemma UnityCommutesWithObservation(sqrt: real -> real, s: Setup, waypoints: seq<Vec>, tip: Vec, current: nat)
    requires s.normalizer != 0.0
    ensures
      var ros := Slice(sqrt, s, waypoints, tip, current);
      var unity := Slice(sqrt, s, AllToUnity(waypoints), ToUnity(tip), current);
      && (ros.Err? <==> unity.Err?) && (ros.Err? ==> unity.error == ros.error)
      && (ros.Ok? ==> (ValuesToUnity(ros.value).Ok? <==> s.lookahead == UNITY_LOOKAHEAD))
      && (ros.Ok? && s.lookahead == UNITY_LOOKAHEAD ==> ValuesToUnity(ros.value) == Ok(unity.value))
  {
    SlicesFailAlike(sqrt, s, waypoints, tip, current);
    if Slice(sqrt, s, waypoints, tip, current).Ok? && s.lookahead == UNITY_LOOKAHEAD {
      TripleSliceCommutes(sqrt, s, waypoints, tip, current);
    }
  }
}
