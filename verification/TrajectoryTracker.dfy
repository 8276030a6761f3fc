/** The immutable waypoint tracker (`mission/trajectory_tracker.py`) and what its completion
    says about the whole history of bucket-tip samples. */
module TrajectoryTracker {
  import opened Geometry
  import opened Wrappers

  /** Slack of the dwell comparison, in seconds. */
  const DWELL_SLACK := 0.000000000001

  datatype TrackerError = NoWaypoints | NotPositive | TimeRegression

  datatype Update = Update(index: nat, distance: real, advanced: bool, completed: bool, timedOut: bool)

  datatype Tracker = Tracker(
    waypoints: seq<Vec>,
    tolerance: real,
    dwell: real,
    timeout: real,
    index: nat,
    startedAt: Option<real>,
    withinSince: Option<real>,
    lastUpdate: Option<real>,
    completed: bool)

  function NewTracker(waypoints: seq<Vec>, tolerance: real, dwell: real, timeout: real):
    (r: Result<Tracker, TrackerError>)
    ensures r.Ok? <==> waypoints != [] && tolerance > 0.0 && dwell > 0.0 && timeout > 0.0
    ensures r.Err? ==> (r.error == NoWaypoints <==> waypoints == []) && r.error != TimeRegression
    ensures r.Ok? ==> Valid(r.value) && Fresh(r.value) && r.value.waypoints == waypoints
    ensures r.Ok? ==> r.value.tolerance == tolerance && r.value.dwell == dwell && r.value.timeout == timeout
  {
    if waypoints == [] then Err(NoWaypoints)
    else if tolerance <= 0.0 || dwell <= 0.0 || timeout <= 0.0 then Err(NotPositive)
    else Ok(Tracker(waypoints, tolerance, dwell, timeout, 0, None, None, None, false))
  }

  /** What construction and every step keep. */
  predicate Valid(t: Tracker) { t.index < |t.waypoints| }

  function Advance(sqrt: real -> real, t: Tracker, tip: Vec, now: real): (r: Result<(Tracker, Update), TrackerError>)
    requires Valid(t)
    ensures r.Ok? ==> Valid(r.value.0)
  {
    if t.lastUpdate.Some? && now < t.lastUpdate.value then Err(TimeRegression)
    else
      var distance := Dist(sqrt, t.waypoints[t.index], tip);
      if t.completed then Ok((t, Update(t.index, distance, false, true, false)))
      else
        var started := if t.startedAt.None? then now else t.startedAt.value;
        if now - started > t.timeout then
          Ok((t.(startedAt := Some(started), lastUpdate := Some(now)), Update(t.index, distance, false, false, true)))
        else
          var since :=
            if distance > t.tolerance then None else if t.withinSince.None? then Some(now) else t.withinSince;
          var base := t.(startedAt := Some(started), lastUpdate := Some(now));
          if since.Some? && now - since.value + DWELL_SLACK >= t.dwell then
            if t.index == |t.waypoints| - 1 then
              Ok((base.(withinSince := None, completed := true), Update(t.index, distance, true, true, false)))
            else
              var next := t.index + 1;
              Ok((base.(withinSince := None, index := next),
                  Update(next, Dist(sqrt, t.waypoints[next], tip), true, false, false)))
          else
            Ok((base.(withinSince := since), Update(t.index, distance, false, false, false)))
  }

  /** The report of a step describes the tracker after it: its waypoint, the distance to that
      waypoint, and whether this sample closed a window. */
  lemma UpdateDescribesStep(sqrt: real -> real, t: Tracker, tip: Vec, now: real)
    requires Valid(t) && t.timeout > 0.0 && Advance(sqrt, t, tip, now).Ok?
    ensures
      var (after, u) := Advance(sqrt, t, tip, now).value;
      && u.index == after.index && u.completed == after.completed
      && u.distance == Dist(sqrt, after.waypoints[after.index], tip)
      && (u.advanced <==> after.index == t.index + 1 || (after.completed && !t.completed))
      && (u.timedOut <==> !t.completed && t.startedAt.Some? && now - t.startedAt.value > t.timeout)
  {}

  datatype Sample = Sample(tip: Vec, at: real)

  /** The tracker after a whole history; the first error ends the run. */
  function Run(sqrt: real -> real, t: Tracker, samples: seq<Sample>): (r: Result<Tracker, TrackerError>)
    requires Valid(t)
    ensures r.Ok? ==> Valid(r.value)
  {
    if samples == [] then Ok(t)
    else
      var n := |samples| - 1;
      match Run(sqrt, t, samples[..n])
      case Err(e) => Err(e)
      case Ok(u) =>
        match Advance(sqrt, u, samples[n].tip, samples[n].at)
        case Err(e) => Err(e)
        case Ok((v, _)) => Ok(v)
  }

  lemma RunOneMore(sqrt: real -> real, t: Tracker, samples: seq<Sample>, x: Sample)
    requires Valid(t)
    ensures
      var before, after := Run(sqrt, t, samples), Run(sqrt, t, samples + [x]);
      match before
      case Err(_) => after == before
      case Ok(u) =>
        match Advance(sqrt, u, x.tip, x.at)
        case Err(e) => after == Err(e)
        case Ok((v, _)) => after == Ok(v)
  {
    assert (samples + [x])[..|samples|] == samples;
  }

  predicate NonDecreasing(samples: seq<Sample>) {
    forall i, j :: 0 <= i < j < |samples| ==> samples[i].at <= samples[j].at
  }

  // ------------------------------------------------------------- the run as windows

  datatype Window = Window(first: nat, last: nat)

  predicate Near(sqrt: real -> real, waypoint: Vec, tip: Vec, tolerance: real) {
    Dist(sqrt, waypoint, tip) <= tolerance
  }

  /** All samples from `first` up to (not including) `end` are near waypoint `k`. */
  ghost predicate AllNear(sqrt: real -> real, t: Tracker, samples: seq<Sample>, k: nat, first: nat, end: nat) {
    k < |t.waypoints| && end <= |samples| &&
    forall i :: first <= i < end ==> Near(sqrt, t.waypoints[k], samples[i].tip, t.tolerance)
  }

  /** Window `k`: a stretch of samples near waypoint `k`, long enough, ending in time. */
  ghost predicate GoodWindow(sqrt: real -> real, t: Tracker, samples: seq<Sample>, k: nat, w: Window) {
    && w.first <= w.last < |samples|
    && AllNear(sqrt, t, samples, k, w.first, w.last + 1)
    && samples[w.last].at - samples[w.first].at + DWELL_SLACK >= t.dwell
    && samples[w.last].at - samples[0].at <= t.timeout
  }

  /** Good windows for the first `|ws|` waypoints, disjoint and in order. */
  ghost predicate GoodWindows(sqrt: real -> real, t: Tracker, samples: seq<Sample>, ws: seq<Window>) {
    && (forall k :: 0 <= k < |ws| ==> GoodWindow(sqrt, t, samples, k, ws[k]))
    && forall j, k :: 0 <= j < k < |ws| ==> ws[j].last < ws[k].first
  }

  ghost predicate HasAllWindows(sqrt: real -> real, t: Tracker, samples: seq<Sample>) {
    exists ws: seq<Window> :: |ws| == |t.waypoints| && GoodWindows(sqrt, t, samples, ws)
  }

  predicate Fresh(t: Tracker) {
    t.index == 0 && t.startedAt.None? && t.withinSince.None? && t.lastUpdate.None? && !t.completed
  }

  predicate SameTask(t: Tracker, u: Tracker) {
    t.waypoints == u.waypoints && t.tolerance == u.tolerance && t.dwell == u.dwell && t.timeout == u.timeout
  }

  /** How the tracker state reads its history: `ws` are the closed windows, `open` the start
      of the window in progress. */
  ghost predicate Explains(
    sqrt: real -> real, t: Tracker, u: Tracker, samples: seq<Sample>, ws: seq<Window>, open: nat)
  {
    && SameTask(t, u) && Valid(u)
    && GoodWindows(sqrt, t, samples, ws)
    && |ws| == (if u.completed then |t.waypoints| else u.index)
    && (u.startedAt.None? <==> samples == [])
    && (samples != [] ==> u.startedAt == Some(samples[0].at))
    && (u.lastUpdate.Some? ==> samples != [] && u.lastUpdate.value <= samples[|samples| - 1].at)
    && (u.withinSince.Some? ==>
          && !u.completed
          && open < |samples|
          && samples[open].at == u.withinSince.value
          && (ws != [] ==> ws[|ws| - 1].last < open))
    && (u.withinSince.Some? && samples[|samples| - 1].at - samples[0].at <= t.timeout ==>
          AllNear(sqrt, t, samples, u.index, open, |samples|))
  }

  lemma WindowsOfPrefix(sqrt: real -> real, t: Tracker, samples: seq<Sample>, longer: seq<Sample>, ws: seq<Window>)
    requires samples <= longer
    requires GoodWindows(sqrt, t, samples, ws)
    ensures GoodWindows(sqrt, t, longer, ws)
  {
    forall k | 0 <= k < |ws|
      ensures GoodWindow(sqrt, t, longer, k, ws[k])
    {
      assert GoodWindow(sqrt, t, samples, k, ws[k]);
    }
  }

  /** One step extends the reading of the history. */
  lemma StepExplained(
    sqrt: real -> real, t: Tracker, u: Tracker, samples: seq<Sample>, s: Sample, ws: seq<Window>, open: nat)
    returns (ws': seq<Window>, open': nat)
    requires Valid(t) && Explains(sqrt, t, u, samples, ws, open)
    requires NonDecreasing(samples + [s])
    ensures
      var r := Advance(sqrt, u, s.tip, s.at);
      r.Ok? && Explains(sqrt, t, r.value.0, samples + [s], ws', open')
  {
    var longer := samples + [s];
    assert samples <= longer && longer[|samples|] == s;
    assert samples != [] ==> longer[0] == samples[0];
    WindowsOfPrefix(sqrt, t, samples, longer, ws);
    LastUpdateIsPast(samples, s);
    ws', open' := ws, open;
    if !u.completed && s.at - longer[0].at <= t.timeout {
      if Near(sqrt, t.waypoints[u.index], s.tip, t.tolerance) {
        ws', open' := NearStepExplained(sqrt, t, u, samples, s, ws, open);
      } else {
        MovedExplains(sqrt, t, Advance(sqrt, u, s.tip, s.at).value.0, longer, ws, open);
      }
    }
  }

  lemma LastUpdateIsPast(samples: seq<Sample>, s: Sample)
    requires NonDecreasing(samples + [s])
    ensures samples != [] ==> samples[|samples| - 1].at <= s.at
  {
    var longer, n := samples + [s], |samples|;
    assert samples != [] ==> longer[n - 1] == samples[n - 1] && longer[n - 1].at <= longer[n].at;
  }

  lemma NearStepExplained(
    sqrt: real -> real, t: Tracker, u: Tracker, samples: seq<Sample>, s: Sample, ws: seq<Window>, open: nat)
    returns (ws': seq<Window>, open': nat)
    requires Valid(t) && Explains(sqrt, t, u, samples, ws, open)
    requires NonDecreasing(samples + [s])
    requires GoodWindows(sqrt, t, samples + [s], ws)
    requires !u.completed && s.at - (samples + [s])[0].at <= t.timeout
    requires Near(sqrt, t.waypoints[u.index], s.tip, t.tolerance)
    ensures
      var r := Advance(sqrt, u, s.tip, s.at);
      r.Ok? && Explains(sqrt, t, r.value.0, samples + [s], ws', open')
  {
    var longer, n := samples + [s], |samples|;
    open' := OpensAt(sqrt, t, u, samples, s, ws, open);
    ws' := ws;
    if s.at - longer[open'].at + DWELL_SLACK >= t.dwell {
      CloseWindow(sqrt, t, longer, u.index, ws, open', n);
      ws' := ws + [Window(open', n)];
    }
    NearMoved(sqrt, t, u, s, longer, ws', open');
  }

  lemma NearMoved(
    sqrt: real -> real, t: Tracker, u: Tracker, s: Sample, longer: seq<Sample>, ws: seq<Window>, open: nat)
    requires SameTask(t, u) && Valid(u) && !u.completed
    requires longer != [] && longer[|longer| - 1] == s && s.at - longer[0].at <= t.timeout
    requires u.lastUpdate.Some? ==> u.lastUpdate.value <= s.at
    requires if u.startedAt.None? then longer[0] == s else u.startedAt.value == longer[0].at
    requires Near(sqrt, u.waypoints[u.index], s.tip, u.tolerance)
    requires open < |longer| && AllNear(sqrt, t, longer, u.index, open, |longer|)
    requires longer[open].at == if u.withinSince.None? then s.at else u.withinSince.value
    requires GoodWindows(sqrt, t, longer, ws)
    requires
      if s.at - longer[open].at + DWELL_SLACK >= t.dwell then |ws| == u.index + 1
      else |ws| == u.index && (ws != [] ==> ws[|ws| - 1].last < open)
    ensures Advance(sqrt, u, s.tip, s.at).Ok?
    ensures Explains(sqrt, t, Advance(sqrt, u, s.tip, s.at).value.0, longer, ws, open)
  {
    NearAdvance(sqrt, u, s.tip, s.at);
    MovedExplains(sqrt, t, Advance(sqrt, u, s.tip, s.at).value.0, longer, ws, open);
  }

  /** What a sample near the current waypoint does to an unfinished tracker. */
  lemma NearAdvance(sqrt: real -> real, u: Tracker, tip: Vec, now: real)
    requires Valid(u) && !u.completed && (u.lastUpdate.Some? ==> u.lastUpdate.value <= now)
    requires u.startedAt.Some? ==> now - u.startedAt.value <= u.timeout
    requires u.startedAt.None? ==> u.timeout >= 0.0
    requires Near(sqrt, u.waypoints[u.index], tip, u.tolerance)
    ensures Advance(sqrt, u, tip, now).Ok?
    ensures
      var v := Advance(sqrt, u, tip, now).value.0;
      var since := if u.withinSince.None? then now else u.withinSince.value;
      && SameTask(u, v) && v.lastUpdate == Some(now)
      && v.startedAt == Some(if u.startedAt.None? then now else u.startedAt.value)
      && (if now - since + DWELL_SLACK >= u.dwell then
            v.withinSince.None? && (if v.completed then u.index == |u.waypoints| - 1 else v.index == u.index + 1)
          else v.withinSince == Some(since) && v.index == u.index && !v.completed)
  {}

  /** The reading of a tracker that was moved by the last sample. */
  lemma MovedExplains(sqrt: real -> real, t: Tracker, v: Tracker, samples: seq<Sample>, ws: seq<Window>, open: nat)
    requires samples != [] && SameTask(t, v) && Valid(v)
    requires GoodWindows(sqrt, t, samples, ws) && |ws| == (if v.completed then |t.waypoints| else v.index)
    requires v.startedAt == Some(samples[0].at) && v.lastUpdate == Some(samples[|samples| - 1].at)
    requires v.withinSince.Some? ==>
               && !v.completed && open < |samples| && samples[open].at == v.withinSince.value
               && (ws != [] ==> ws[|ws| - 1].last < open)
               && AllNear(sqrt, t, samples, v.index, open, |samples|)
    ensures Explains(sqrt, t, v, samples, ws, open)
  {}

  /** Where the window in progress begins once a near sample has been added. */
  lemma OpensAt(
    sqrt: real -> real, t: Tracker, u: Tracker, samples: seq<Sample>, s: Sample, ws: seq<Window>, open: nat)
    returns (open': nat)
    requires Valid(t) && Explains(sqrt, t, u, samples, ws, open)
    requires NonDecreasing(samples + [s])
    requires !u.completed && s.at - (samples + [s])[0].at <= t.timeout
    requires Near(sqrt, t.waypoints[u.index], s.tip, t.tolerance)
    ensures open' <= |samples| && AllNear(sqrt, t, samples + [s], u.index, open', |samples| + 1)
    ensures (samples + [s])[open'].at == if u.withinSince.None? then s.at else u.withinSince.value
    ensures ws != [] ==> ws[|ws| - 1].last < open'
    ensures u.startedAt.Some? ==> u.startedAt.value == (samples + [s])[0].at
    ensures u.lastUpdate.Some? ==> u.lastUpdate.value <= s.at
  {
    var longer, n := samples + [s], |samples|;
    assert samples != [] ==> longer[0] == samples[0] && samples[n - 1].at <= longer[n].at by {
      assert samples != [] ==> longer[n - 1] == samples[n - 1];
    }
    open' := if u.withinSince.None? then n else open;
    if u.withinSince.Some? {
      ExtendNear(sqrt, t, samples, s, u.index, open);
    } else if ws != [] {
      assert GoodWindow(sqrt, t, samples, |ws| - 1, ws[|ws| - 1]);
    }
  }

  lemma CloseWindow(sqrt: real -> real, t: Tracker, samples: seq<Sample>, k: nat, ws: seq<Window>, open: nat, n: nat)
    requires GoodWindows(sqrt, t, samples, ws) && |ws| == k
    requires ws != [] ==> ws[k - 1].last < open
    requires open <= n < |samples| && AllNear(sqrt, t, samples, k, open, n + 1)
    requires samples[n].at - samples[open].at + DWELL_SLACK >= t.dwell && samples[n].at - samples[0].at <= t.timeout
    ensures GoodWindows(sqrt, t, samples, ws + [Window(open, n)])
  {
    assert GoodWindow(sqrt, t, samples, k, Window(open, n));
    AddWindow(sqrt, t, samples, ws, Window(open, n));
  }

  lemma AddWindow(sqrt: real -> real, t: Tracker, samples: seq<Sample>, ws: seq<Window>, w: Window)
    requires GoodWindows(sqrt, t, samples, ws)
    requires GoodWindow(sqrt, t, samples, |ws|, w)
    requires ws != [] ==> ws[|ws| - 1].last < w.first
    ensures GoodWindows(sqrt, t, samples, ws + [w])
  {
    forall j | 0 <= j < |ws|
      ensures ws[j].last < w.first
    {
      assert GoodWindow(sqrt, t, samples, |ws| - 1, ws[|ws| - 1]);
    }
    forall k | 0 <= k < |ws|
      ensures GoodWindow(sqrt, t, samples, k, (ws + [w])[k])
    {
      assert GoodWindow(sqrt, t, samples, k, ws[k]);
    }
  }

  lemma ExtendNear(sqrt: real -> real, t: Tracker, samples: seq<Sample>, s: Sample, k: nat, open: nat)
    requires AllNear(sqrt, t, samples, k, open, |samples|)
    requires Near(sqrt, t.waypoints[k], s.tip, t.tolerance)
    ensures AllNear(sqrt, t, samples + [s], k, open, |samples| + 1)
  {}

  lemma {:induction false} RunExplained(sqrt: real -> real, t: Tracker, samples: seq<Sample>)
    returns (ws: seq<Window>, open: nat)
    requires Valid(t) && Fresh(t)
    requires NonDecreasing(samples)
    ensures
      var r := Run(sqrt, t, samples);
      r.Ok? && Explains(sqrt, t, r.value, samples, ws, open)
  {
    if samples == [] {
      ws, open := [], 0;
    } else {
      var n := |samples| - 1;
      ws, open := RunExplained(sqrt, t, samples[..n]);
      assert samples == samples[..n] + [samples[n]];
      ws, open := StepExplained(sqrt, t, Run(sqrt, t, samples[..n]).value, samples[..n], samples[n], ws, open);
    }
  }

  // --------------------------------------------------------- windows force completion

  /** The tracker is at least as far as windows `ws` say it should be after `n` samples. */
  ghost predicate KeepsUp(u: Tracker, samples: seq<Sample>, ws: seq<Window>, n: nat) {
    u.completed ||
    forall k :: 0 <= k < |ws| ==>
      && (ws[k].last < n ==> u.index > k)
      && (ws[k].first < n <= ws[k].last && ws[k].first < |samples| ==>
            u.index > k ||
            (u.index == k && u.withinSince.Some? && u.withinSince.value <= samples[ws[k].first].at))
  }

  lemma StepKeepsUp(
    sqrt: real -> real, t: Tracker, u: Tracker, samples: seq<Sample>, n: nat, ws: seq<Window>)
    requires Valid(t) && Valid(u) && SameTask(t, u)
    requires NonDecreasing(samples) && n < |samples|
    requires |ws| == |t.waypoints| && GoodWindows(sqrt, t, samples, ws)
    requires u.startedAt == if n == 0 then None else Some(samples[0].at)
    requires n == 0 ==> Fresh(u)
    requires u.withinSince.Some? ==> u.withinSince.value <= samples[n].at
    requires KeepsUp(u, samples, ws, n)
    requires Advance(sqrt, u, samples[n].tip, samples[n].at).Ok?
    ensures KeepsUp(Advance(sqrt, u, samples[n].tip, samples[n].at).value.0, samples, ws, n + 1)
  {
    var v := Advance(sqrt, u, samples[n].tip, samples[n].at).value.0;
    if !v.completed {
      forall k | 0 <= k < |ws|
        ensures ws[k].last < n + 1 ==> v.index > k
        ensures ws[k].first < n + 1 <= ws[k].last ==>
          v.index > k || (v.index == k && v.withinSince.Some? && v.withinSince.value <= samples[ws[k].first].at)
      {
        if ws[k].first <= n <= ws[k].last {
          InsideWindow(sqrt, t, u, samples, n, ws, k);
        }
      }
    }
  }

  /** While the history is inside window `k`, a tracker that keeps up does not time out, and
      is past waypoint `k` once the window ends. */
  lemma InsideWindow(
    sqrt: real -> real, t: Tracker, u: Tracker, samples: seq<Sample>, n: nat, ws: seq<Window>, k: nat)
    requires Valid(t) && Valid(u) && SameTask(t, u)
    requires NonDecreasing(samples) && n < |samples|
    requires |ws| == |t.waypoints| && GoodWindows(sqrt, t, samples, ws)
    requires u.startedAt == if n == 0 then None else Some(samples[0].at)
    requires n == 0 ==> Fresh(u)
    requires u.withinSince.Some? ==> u.withinSince.value <= samples[n].at
    requires !u.completed && KeepsUp(u, samples, ws, n)
    requires Advance(sqrt, u, samples[n].tip, samples[n].at).Ok?
    requires k < |ws| && ws[k].first <= n <= ws[k].last
    ensures
      var v := Advance(sqrt, u, samples[n].tip, samples[n].at).value.0;
      v.completed || v.index > k ||
      (n < ws[k].last && v.index == k && v.withinSince.Some? && v.withinSince.value <= samples[ws[k].first].at)
  {
    assert GoodWindow(sqrt, t, samples, k, ws[k]);
    assert u.index >= k by {
      if k > 0 {
        assert ws[k - 1].last < ws[k].first;
      }
    }
    assert samples[n].at <= samples[ws[k].last].at;
    assert Near(sqrt, t.waypoints[k], samples[n].tip, t.tolerance);
  }

  lemma {:induction false} RunKeepsUp(sqrt: real -> real, t: Tracker, samples: seq<Sample>, n: nat, ws: seq<Window>)
    requires Valid(t) && Fresh(t)
    requires NonDecreasing(samples) && n <= |samples|
    requires |ws| == |t.waypoints| && GoodWindows(sqrt, t, samples, ws)
    ensures Run(sqrt, t, samples[..n]).Ok?
    ensures KeepsUp(Run(sqrt, t, samples[..n]).value, samples, ws, n)
  {
    if n == 0 {
      assert samples[..0] == [];
    } else {
      RunKeepsUp(sqrt, t, samples, n - 1, ws);
      NextKeepsUp(sqrt, t, samples, n - 1, n, ws);
    }
  }

  lemma NextKeepsUp(sqrt: real -> real, t: Tracker, samples: seq<Sample>, k: nat, n: nat, ws: seq<Window>)
    requires Valid(t) && Fresh(t)
    requires NonDecreasing(samples) && n == k + 1 <= |samples|
    requires |ws| == |t.waypoints| && GoodWindows(sqrt, t, samples, ws)
    requires Run(sqrt, t, samples[..k]).Ok? && KeepsUp(Run(sqrt, t, samples[..k]).value, samples, ws, k)
    ensures Run(sqrt, t, samples[..n]).Ok?
    ensures KeepsUp(Run(sqrt, t, samples[..n]).value, samples, ws, n)
  {
    BeforeStep(sqrt, t, samples, k);
    StepKeepsUp(sqrt, t, Run(sqrt, t, samples[..k]).value, samples, k, ws);
    RunOneMore(sqrt, t, samples[..k], samples[k]);
    assert samples[..k] + [samples[k]] == samples[..n];
  }

  /** The state in which sample `n` finds the tracker. */
  lemma BeforeStep(sqrt: real -> real, t: Tracker, samples: seq<Sample>, n: nat)
    requires Valid(t) && Fresh(t)
    requires NonDecreasing(samples) && n < |samples|
    ensures Run(sqrt, t, samples[..n]).Ok?
    ensures
      var u := Run(sqrt, t, samples[..n]).value;
      && SameTask(t, u) && (n == 0 ==> Fresh(u))
      && u.startedAt == (if n == 0 then None else Some(samples[0].at))
      && (u.withinSince.Some? ==> u.withinSince.value <= samples[n].at)
      && Advance(sqrt, u, samples[n].tip, samples[n].at).Ok?
  {
    var w, o := RunExplained(sqrt, t, samples[..n]);
  }

  /** On any history with a clock that does not run backwards, a fresh tracker never raises,
      and it completes exactly when the history holds one window per waypoint: disjoint, in
      order, each spent within tolerance for the dwell time, and all over before the timeout. */
  lemma CompletesIffWindows(sqrt: real -> real, t: Tracker, samples: seq<Sample>)
    requires Valid(t) && Fresh(t)
    requires NonDecreasing(samples)
    ensures Run(sqrt, t, samples).Ok?
    ensures Run(sqrt, t, samples).value.completed <==> HasAllWindows(sqrt, t, samples)
  {
    var found, open := RunExplained(sqrt, t, samples);
    if HasAllWindows(sqrt, t, samples) {
      var ws: seq<Window> :| |ws| == |t.waypoints| && GoodWindows(sqrt, t, samples, ws);
      RunKeepsUp(sqrt, t, samples, |samples|, ws);
      assert samples[..|samples|] == samples;
      var k := |ws| - 1;
      assert GoodWindow(sqrt, t, samples, k, ws[k]);
    }
  }

  /** The first `k` windows cannot end sooner than `k` dwell times after the first sample. */
  lemma {:induction false} WindowsTakeTime(
    sqrt: real -> real, t: Tracker, samples: seq<Sample>, ws: seq<Window>, k: nat)
    requires NonDecreasing(samples)
    requires GoodWindows(sqrt, t, samples, ws)
    requires 1 <= k <= |ws|
    ensures ws[k - 1].last < |samples|
    ensures samples[ws[k - 1].last].at - samples[0].at >= k as real * (t.dwell - DWELL_SLACK)
  {
    assert GoodWindow(sqrt, t, samples, k - 1, ws[k - 1]);
    if k > 1 {
      WindowsTakeTime(sqrt, t, samples, ws, k - 1);
      assert ws[k - 2].last < ws[k - 1].first;
      OneMoreTime((k - 1) as real, t.dwell - DWELL_SLACK);
    }
  }

  lemma OneMoreTime(n: real, a: real)
    ensures (n + 1.0) * a == n * a + a
  {}

  lemma AllWindowsFitTimeout(sqrt: real -> real, t: Tracker, samples: seq<Sample>)
    requires Valid(t)
    requires NonDecreasing(samples)
    requires HasAllWindows(sqrt, t, samples)
    ensures |t.waypoints| as real * (t.dwell - DWELL_SLACK) <= t.timeout
  {
    var ws: seq<Window> :| |ws| == |t.waypoints| && GoodWindows(sqrt, t, samples, ws);
    WindowsTakeTime(sqrt, t, samples, ws, |ws|);
    assert GoodWindow(sqrt, t, samples, |ws| - 1, ws[|ws| - 1]);
  }

  /** A task whose dwell times alone exceed its timeout never completes. */
  lemma TooManyWaypointsNeverComplete(sqrt: real -> real, t: Tracker, samples: seq<Sample>)
    requires Valid(t) && Fresh(t)
    requires NonDecreasing(samples)
    requires |t.waypoints| as real * (t.dwell - DWELL_SLACK) > t.timeout
    ensures Run(sqrt, t, samples).Ok? && !Run(sqrt, t, samples).value.completed
  {
    CompletesIffWindows(sqrt, t, samples);
    if HasAllWindows(sqrt, t, samples) {
      AllWindowsFitTimeout(sqrt, t, samples);
    }
  }

  // ------------------------------------------------------------- which tasks can complete

  /** The time of arrival at waypoint `k` for one who spends `stay` at each. */
  function Arrival(k: nat, stay: real): real { if k == 0 then 0.0 else Arrival(k - 1, stay) + stay }

  lemma {:induction false} ArrivalIsProduct(k: nat, stay: real)
    ensures Arrival(k, stay) == k as real * stay
  {
    if k > 0 {
      ArrivalIsProduct(k - 1, stay);
      OneMoreTime((k - 1) as real, stay);
    }
  }

  lemma {:induction false} ArrivalsInOrder(j: nat, k: nat, stay: real)
    requires j <= k && stay >= 0.0
    ensures Arrival(j, stay) <= Arrival(k, stay)
    decreases k
  {
    if j < k {
      ArrivalsInOrder(j, k - 1, stay);
    }
  }

  /** Two samples at every waypoint, on arrival and on departure. */
  function VisitSamples(waypoints: seq<Vec>, stay: real): (samples: seq<Sample>)
    ensures |samples| == 2 * |waypoints|
  {
    seq(2 * |waypoints|, i requires 0 <= i < 2 * |waypoints| => Sample(waypoints[i / 2], Arrival((i + 1) / 2, stay)))
  }

  lemma VisitsInOrder(waypoints: seq<Vec>, stay: real)
    requires stay >= 0.0
    ensures NonDecreasing(VisitSamples(waypoints, stay))
  {
    forall i, j | 0 <= i < j < 2 * |waypoints|
      ensures VisitSamples(waypoints, stay)[i].at <= VisitSamples(waypoints, stay)[j].at
    {
      ArrivalsInOrder((i + 1) / 2, (j + 1) / 2, stay);
    }
  }

  lemma NearItself(sqrt: real -> real, p: Vec, tip: Vec, tolerance: real)
    requires IsSqrt(sqrt) && tolerance >= 0.0 && tip == p
    ensures Near(sqrt, p, tip, tolerance)
  {
    SelfDistance(sqrt, p);
  }

  lemma StandsStill(sqrt: real -> real, t: Tracker, samples: seq<Sample>, k: nat, a: nat, b: nat, end: nat)
    requires IsSqrt(sqrt) && t.tolerance >= 0.0
    requires k < |t.waypoints| && b == a + 1 && end == b + 1 <= |samples|
    requires samples[a].tip == t.waypoints[k] && samples[b].tip == t.waypoints[k]
    ensures AllNear(sqrt, t, samples, k, a, end)
  {
    forall i | a <= i < end
      ensures Near(sqrt, t.waypoints[k], samples[i].tip, t.tolerance)
    {
      assert i == a || i == b;
      NearItself(sqrt, t.waypoints[k], samples[i].tip, t.tolerance);
    }
  }

  lemma VisitAt(waypoints: seq<Vec>, stay: real, k: nat)
    requires k < |waypoints|
    ensures
      var samples := VisitSamples(waypoints, stay);
      && samples[0].at == Arrival(0, stay)
      && samples[2 * k] == Sample(waypoints[k], Arrival(k, stay))
      && samples[2 * k + 1] == Sample(waypoints[k], Arrival(k + 1, stay))
  {}

  lemma VisitTimes(n: nat, stay: real, k: nat, timeout: real)
    requires k < n && stay >= 0.0 && Arrival(n, stay) <= timeout
    ensures Arrival(k + 1, stay) - Arrival(k, stay) == stay
    ensures Arrival(k + 1, stay) - Arrival(0, stay) <= timeout
  {
    ArrivalsInOrder(k + 1, n, stay);
  }

  lemma VisitIsWindow(sqrt: real -> real, t: Tracker, samples: seq<Sample>, k: nat, w: Window)
    requires IsSqrt(sqrt) && t.tolerance >= 0.0
    requires k < |t.waypoints| && w.last == w.first + 1 < |samples|
    requires samples[w.first].tip == t.waypoints[k] && samples[w.last].tip == t.waypoints[k]
    requires samples[w.last].at - samples[w.first].at + DWELL_SLACK >= t.dwell
    requires samples[w.last].at - samples[0].at <= t.timeout
    ensures GoodWindow(sqrt, t, samples, k, w)
  {
    StandsStill(sqrt, t, samples, k, w.first, w.last, w.last + 1);
  }

  lemma VisitCounts(sqrt: real -> real, t: Tracker, stay: real, k: nat)
    requires IsSqrt(sqrt) && k < |t.waypoints| && t.tolerance >= 0.0
    requires stay >= 0.0 && stay + DWELL_SLACK >= t.dwell && Arrival(|t.waypoints|, stay) <= t.timeout
    ensures GoodWindow(sqrt, t, VisitSamples(t.waypoints, stay), k, Window(2 * k, 2 * k + 1))
  {
    VisitAt(t.waypoints, stay, k);
    VisitTimes(|t.waypoints|, stay, k, t.timeout);
    VisitIsWindow(sqrt, t, VisitSamples(t.waypoints, stay), k, Window(2 * k, 2 * k + 1));
  }

  lemma VisitsComplete(sqrt: real -> real, t: Tracker, stay: real)
    requires IsSqrt(sqrt) && t.tolerance >= 0.0
    requires stay >= 0.0 && stay + DWELL_SLACK >= t.dwell && Arrival(|t.waypoints|, stay) <= t.timeout
    ensures HasAllWindows(sqrt, t, VisitSamples(t.waypoints, stay))
  {
    var ws := seq(|t.waypoints|, k requires 0 <= k < |t.waypoints| => Window(2 * k, 2 * k + 1));
    forall k | 0 <= k < |ws|
      ensures GoodWindow(sqrt, t, VisitSamples(t.waypoints, stay), k, ws[k])
    {
      VisitCounts(sqrt, t, stay, k);
    }
    assert GoodWindows(sqrt, t, VisitSamples(t.waypoints, stay), ws);
  }

  /** The tracker completes on these samples. */
  predicate CompletesOn(sqrt: real -> real, t: Tracker, samples: seq<Sample>)
    requires Valid(t)
  {
    NonDecreasing(samples) && Run(sqrt, t, samples).Ok? && Run(sqrt, t, samples).value.completed
  }

  /** A task can be completed if and only if the dwell times of its waypoints, less the slack of
      the comparison, fit into its timeout. */
  lemma CompletableIff(sqrt: real -> real, waypoints: seq<Vec>, tolerance: real, dwell: real, timeout: real)
    requires IsSqrt(sqrt) && NewTracker(waypoints, tolerance, dwell, timeout).Ok?
    ensures
      var t := NewTracker(waypoints, tolerance, dwell, timeout).value;
      (exists samples: seq<Sample> :: CompletesOn(sqrt, t, samples))
      <==> |waypoints| as real * (dwell - DWELL_SLACK) <= timeout
  {
    var t := NewTracker(waypoints, tolerance, dwell, timeout).value;
    if |waypoints| as real * (dwell - DWELL_SLACK) <= timeout {
      var stay := Max(dwell - DWELL_SLACK, 0.0);
      ArrivalIsProduct(|waypoints|, stay);
      VisitsInOrder(waypoints, stay);
      VisitsComplete(sqrt, t, stay);
      CompletesIffWindows(sqrt, t, VisitSamples(waypoints, stay));
      assert CompletesOn(sqrt, t, VisitSamples(waypoints, stay));
    } else {
      forall samples: seq<Sample>
        ensures !CompletesOn(sqrt, t, samples)
      {
        if NonDecreasing(samples) {
          TooManyWaypointsNeverComplete(sqrt, t, samples);
        }
      }
    }
  }

  /** Completed and timed out are absorbing: whatever follows reports the same outcome, and
      the waypoint index does not move again. */
  lemma OutcomeIsFinal(
    sqrt: real -> real, t: Tracker, tip: Vec, now: real, later: seq<Sample>, next: Sample)
    requires Valid(t)
    requires Advance(sqrt, t, tip, now).Ok?
    requires NonDecreasing([Sample(tip, now)] + later + [next])
    ensures
      var (u, update) := Advance(sqrt, t, tip, now).value;
      update.completed || update.timedOut ==>
        var r := Run(sqrt, u, later);
        && r.Ok? && r.value.index == u.index && SameTask(u, r.value)
        && var last := Advance(sqrt, r.value, next.tip, next.at);
           last.Ok? && last.value.1.completed == update.completed && last.value.1.timedOut == update.timedOut
  {
    var (u, update) := Advance(sqrt, t, tip, now).value;
    if update.completed || update.timedOut {
      var times := [Sample(tip, now)] + later + [next];
      assert times[0] == Sample(tip, now) && times[|times| - 1] == next;
      assert forall i :: 0 <= i < |later| ==> times[i + 1] == later[i];
      SettledRun(sqrt, u, update.completed, now, later);
      SettledStep(sqrt, Run(sqrt, u, later).value, update.completed, LastTime(now, later), next);
    }
  }

  /** Nothing after time `at` can change the outcome. */
  predicate Settled(u: Tracker, completed: bool, at: real) {
    && Valid(u) && (u.lastUpdate.Some? ==> u.lastUpdate.value <= at)
    && (if completed then u.completed else !u.completed && u.startedAt.Some? && at - u.startedAt.value > u.timeout)
  }

  lemma SettledStep(sqrt: real -> real, u: Tracker, completed: bool, at: real, s: Sample)
    requires Settled(u, completed, at) && at <= s.at
    ensures Advance(sqrt, u, s.tip, s.at).Ok?
    ensures
      var (v, update) := Advance(sqrt, u, s.tip, s.at).value;
      && update.completed == completed && update.timedOut == !completed
      && Settled(v, completed, s.at) && SameTask(u, v) && v.index == u.index
  {}

  function LastTime(at: real, later: seq<Sample>): real { if later == [] then at else later[|later| - 1].at }

  lemma {:induction false} SettledRun(sqrt: real -> real, u: Tracker, completed: bool, at: real, later: seq<Sample>)
    requires Settled(u, completed, at)
    requires NonDecreasing(later) && forall s <- later :: at <= s.at
    ensures Run(sqrt, u, later).Ok?
    ensures
      var v := Run(sqrt, u, later).value;
      Settled(v, completed, LastTime(at, later)) && SameTask(u, v) && v.index == u.index
  {
    if later != [] {
      var n := |later| - 1;
      SettledRun(sqrt, u, completed, at, later[..n]);
      SettledStep(sqrt, Run(sqrt, u, later[..n]).value, completed, LastTime(at, later[..n]), later[n]);
    }
  }

  // ---------------------------------------------------------------------- the clock

  /** Some sample is earlier than one before it that the tracker, not yet completed, has taken. */
  ghost predicate TimeGoesBack(sqrt: real -> real, t: Tracker, samples: seq<Sample>) {
    exists i: nat, j: nat :: GoesBackAt(sqrt, t, samples, i, j)
  }

  ghost predicate GoesBackAt(sqrt: real -> real, t: Tracker, samples: seq<Sample>, i: nat, j: nat) {
    i < j < |samples| && samples[j].at < samples[i].at && !HasAllWindows(sqrt, t, samples[..i])
  }

  /** The first `k` samples moved the clock, to `last`; the others came when all windows had
      been seen. */
  ghost predicate ClockStopsAt(
    sqrt: real -> real, t: Tracker, samples: seq<Sample>, last: Option<real>, done: bool, k: nat)
  {
    && k <= |samples| && NonDecreasing(samples[..k])
    && last == (if k == 0 then None else Some(samples[k - 1].at))
    && (forall i :: 0 <= i < k ==> !HasAllWindows(sqrt, t, samples[..i]))
    && (if done then HasAllWindows(sqrt, t, samples[..k]) else k == |samples|)
  }

  lemma ClockStays(
    sqrt: real -> real, t: Tracker, samples: seq<Sample>, longer: seq<Sample>, last: Option<real>, k: nat)
    requires ClockStopsAt(sqrt, t, samples, last, true, k) && samples <= longer
    ensures ClockStopsAt(sqrt, t, longer, last, true, k)
  {
    assert forall i :: 0 <= i <= k ==> samples[..i] == longer[..i];
  }

  lemma ClockMoves(
    sqrt: real -> real, t: Tracker, samples: seq<Sample>, x: Sample, last: Option<real>, k: nat, done: bool)
    requires ClockStopsAt(sqrt, t, samples, last, false, k)
    requires last.Some? ==> last.value <= x.at
    requires !HasAllWindows(sqrt, t, samples) && (done ==> HasAllWindows(sqrt, t, samples + [x]))
    ensures ClockStopsAt(sqrt, t, samples + [x], Some(x.at), done, |samples| + 1)
  {
    var longer := samples + [x];
    assert samples[..|samples|] == samples && longer[..|longer|] == longer;
    assert forall i :: 0 <= i <= |samples| ==> samples[..i] == longer[..i];
  }

  lemma AdvanceMovesClock(sqrt: real -> real, u: Tracker, x: Sample)
    requires Valid(u)
    ensures Advance(sqrt, u, x.tip, x.at).Err? <==> u.lastUpdate.Some? && x.at < u.lastUpdate.value
    ensures
      var r := Advance(sqrt, u, x.tip, x.at);
      match r
      case Err(e) => e == TimeRegression
      case Ok((v, _)) => if u.completed then v == u else v.lastUpdate == Some(x.at)
  {}

  lemma {:induction false} ClockOf(sqrt: real -> real, t: Tracker, samples: seq<Sample>) returns (k: nat)
    requires Valid(t) && Fresh(t) && Run(sqrt, t, samples).Ok?
    ensures
      var u := Run(sqrt, t, samples).value;
      ClockStopsAt(sqrt, t, samples, u.lastUpdate, u.completed, k)
  {
    if samples == [] {
      k := 0;
    } else {
      var n := |samples| - 1;
      var before, x := samples[..n], samples[n];
      assert samples == before + [x];
      k := ClockOf(sqrt, t, before);
      var u := Run(sqrt, t, before).value;
      AdvanceMovesClock(sqrt, u, x);
      if u.completed {
        ClockStays(sqrt, t, before, samples, u.lastUpdate, k);
      } else {
        OrderedOneMore(before, x, u.lastUpdate, k);
        CompletesIffWindows(sqrt, t, before);
        CompletesIffWindows(sqrt, t, samples);
        ClockMoves(sqrt, t, before, x, u.lastUpdate, k, Run(sqrt, t, samples).value.completed);
        k := |samples|;
      }
    }
  }

  lemma OrderedOneMore(samples: seq<Sample>, x: Sample, last: Option<real>, k: nat)
    requires k == |samples| && NonDecreasing(samples[..k])
    requires last == (if k == 0 then None else Some(samples[k - 1].at))
    requires last.Some? ==> last.value <= x.at
    ensures NonDecreasing(samples) && NonDecreasing(samples + [x])
  {
    assert samples[..k] == samples;
  }

  lemma WindowsStay(sqrt: real -> real, t: Tracker, samples: seq<Sample>, longer: seq<Sample>)
    requires HasAllWindows(sqrt, t, samples) && samples <= longer
    ensures HasAllWindows(sqrt, t, longer)
  {
    var ws: seq<Window> :| |ws| == |t.waypoints| && GoodWindows(sqrt, t, samples, ws);
    WindowsOfPrefix(sqrt, t, samples, longer, ws);
  }

  /** What a sample must not precede: the one at which the clock stopped. */
  lemma LastSampleGoesBack(
    sqrt: real -> real, t: Tracker, samples: seq<Sample>, x: Sample, last: Option<real>, done: bool, k: nat, i: nat)
    requires ClockStopsAt(sqrt, t, samples, last, done, k)
    ensures last.Some? && x.at < last.value ==> GoesBackAt(sqrt, t, samples + [x], k - 1, |samples|)
    ensures GoesBackAt(sqrt, t, samples + [x], i, |samples|) ==> last.Some? && x.at < last.value
  {
    var longer := samples + [x];
    assert forall m :: 0 <= m <= |samples| ==> samples[..m] == longer[..m];
    if GoesBackAt(sqrt, t, longer, i, |samples|) {
      if i < k {
        assert samples[..k][i] == samples[i] && samples[..k][k - 1] == samples[k - 1];
      } else {
        WindowsStay(sqrt, t, samples[..k], samples[..i]);
        assert false;
      }
    }
  }

  /** One more sample: the history goes back if it did before, or if this sample does. */
  lemma GoesBackOneMore(sqrt: real -> real, t: Tracker, samples: seq<Sample>, x: Sample)
    ensures TimeGoesBack(sqrt, t, samples + [x]) <==>
      TimeGoesBack(sqrt, t, samples) || exists i: nat :: GoesBackAt(sqrt, t, samples + [x], i, |samples|)
  {
    var longer := samples + [x];
    assert forall m :: 0 <= m <= |samples| ==> samples[..m] == longer[..m];
    if TimeGoesBack(sqrt, t, samples) {
      var i: nat, j: nat :| GoesBackAt(sqrt, t, samples, i, j);
      assert GoesBackAt(sqrt, t, longer, i, j);
    }
    if TimeGoesBack(sqrt, t, longer) {
      var i: nat, j: nat :| GoesBackAt(sqrt, t, longer, i, j);
      if j < |samples| {
        assert GoesBackAt(sqrt, t, samples, i, j);
      }
    }
  }

  /** The tracker refuses a history exactly when time goes back in it: some sample is earlier than
      one that came before it and found the task not yet completed. Samples that follow the
      completion may be out of order among themselves. */
  lemma {:induction false} RefusesIffTimeGoesBack(sqrt: real -> real, t: Tracker, samples: seq<Sample>)
    requires Valid(t) && Fresh(t)
    ensures Run(sqrt, t, samples).Err? <==> TimeGoesBack(sqrt, t, samples)
    ensures Run(sqrt, t, samples).Err? ==> Run(sqrt, t, samples) == Err(TimeRegression)
  {
    if samples != [] {
      var n := |samples| - 1;
      var before, x := samples[..n], samples[n];
      assert samples == before + [x];
      RefusesIffTimeGoesBack(sqrt, t, before);
      GoesBackOneMore(sqrt, t, before, x);
      if Run(sqrt, t, before).Ok? {
        var u := Run(sqrt, t, before).value;
        var k := ClockOf(sqrt, t, before);
        AdvanceMovesClock(sqrt, u, x);
        LastSampleGoesBack(sqrt, t, before, x, u.lastUpdate, u.completed, k, 0);
        forall i: nat | GoesBackAt(sqrt, t, before + [x], i, n)
          ensures Advance(sqrt, u, x.tip, x.at).Err?
        {
          LastSampleGoesBack(sqrt, t, before, x, u.lastUpdate, u.completed, k, i);
        }
      }
    }
  }
}
