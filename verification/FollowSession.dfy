/** The immutable Follow session (`mission/follow.py`): it hands the tracker only samples whose
    source stamp is new. */
module FollowSession {
  import opened Geometry
  import opened Wrappers
  import opened TrajectoryTracker

  /** `lastDistance` is `None` for the infinite distance a session starts with. */
  datatype Session = Session(tracker: Tracker, acceptedAt: real, lastStamp: Option<real>, lastDistance: Option<real>)

  datatype FollowUpdate = FollowUpdate(
    sampleAccepted: bool, index: nat, count: nat, distance: Option<real>, elapsed: real,
    advanced: bool, completed: bool, timedOut: bool)

  function Start(
    waypoints: seq<Vec>, tolerance: real, dwell: real, timeout: real, acceptedAt: real): Result<Session, TrackerError>
  {
    match NewTracker(waypoints, tolerance, dwell, timeout)
    case Err(e) => Err(e)
    case Ok(t) => Ok(Session(t, acceptedAt, None, None))
  }

  function UpdateOf(
    s: Session, accepted: bool, now: real, advanced: bool, completed: bool, timedOut: bool): FollowUpdate {
    FollowUpdate(accepted, s.tracker.index, |s.tracker.waypoints|, s.lastDistance, Max(0.0, now - s.acceptedAt),
                 advanced, completed, timedOut)
  }

  predicate Rejects(s: Session, stamp: real) {
    stamp <= s.acceptedAt || (s.lastStamp.Some? && stamp <= s.lastStamp.value)
  }

  function Observe(sqrt: real -> real, s: Session, tip: Vec, stamp: real, now: real):
    (r: Result<(Session, FollowUpdate), TrackerError>)
    requires Valid(s.tracker)
    ensures r.Ok? ==> Valid(r.value.0.tracker) && r.value.0.acceptedAt == s.acceptedAt
  {
    if Rejects(s, stamp) then Ok((s, UpdateOf(s, false, now, false, s.tracker.completed, false)))
    else
      match Advance(sqrt, s.tracker, tip, now)
      case Err(e) => Err(e)
      case Ok((tracker, u)) =>
        var updated := s.(tracker := tracker, lastStamp := Some(stamp), lastDistance := Some(u.distance));
        Ok((updated, UpdateOf(updated, true, now, u.advanced, u.completed, u.timedOut)))
  }

  // ---------------------------------------------------------------------- whole sessions

  datatype Observation = Observation(tip: Vec, stamp: real, now: real)

  function RunSession(sqrt: real -> real, s: Session, history: seq<Observation>): (r: Result<Session, TrackerError>)
    requires Valid(s.tracker)
    ensures r.Ok? ==> Valid(r.value.tracker)
  {
    if history == [] then Ok(s)
    else
      var n := |history| - 1;
      match RunSession(sqrt, s, history[..n])
      case Err(e) => Err(e)
      case Ok(u) =>
        match Observe(sqrt, u, history[n].tip, history[n].stamp, history[n].now)
        case Err(e) => Err(e)
        case Ok((v, _)) => Ok(v)
  }

  /** A stamp later than the acceptance of the goal and than every stamp before it, whether
      those were accepted or not. */
  predicate IsNew(acceptedAt: real, earlier: seq<Observation>, stamp: real) {
    stamp > acceptedAt && forall o <- earlier :: o.stamp < stamp
  }

  /** The samples with new stamps, at the times the session saw them. */
  function NewSamples(acceptedAt: real, history: seq<Observation>): seq<Sample> {
    if history == [] then []
    else
      var n := |history| - 1;
      NewSamples(acceptedAt, history[..n]) +
      if IsNew(acceptedAt, history[..n], history[n].stamp) then [Sample(history[n].tip, history[n].now)] else []
  }

  predicate FreshSession(s: Session) { Valid(s.tracker) && Fresh(s.tracker) && s.lastStamp.None? }

  /** What the session remembers of its history: the largest stamp seen after the acceptance. */
  predicate Remembers(s: Session, acceptedAt: real, history: seq<Observation>) {
    && s.acceptedAt == acceptedAt
    && (s.lastStamp.Some? ==> s.lastStamp.value > acceptedAt && exists o <- history :: o.stamp == s.lastStamp.value)
    && (forall o <- history :: o.stamp <= acceptedAt || (s.lastStamp.Some? && o.stamp <= s.lastStamp.value))
  }

  lemma RejectsMeansNotNew(s: Session, acceptedAt: real, history: seq<Observation>, stamp: real)
    requires Remembers(s, acceptedAt, history)
    ensures Rejects(s, stamp) <==> !IsNew(acceptedAt, history, stamp)
  {}

  lemma RemembersMore(s: Session, acceptedAt: real, history: seq<Observation>, o: Observation, last: Option<real>)
    requires Remembers(s, acceptedAt, history)
    requires last == if Rejects(s, o.stamp) then s.lastStamp else Some(o.stamp)
    ensures Remembers(s.(lastStamp := last), acceptedAt, history + [o])
  {
    var longer := history + [o];
    assert o == longer[|history|];
    if last.Some? && last.value != o.stamp {
      var p :| p in history && p.stamp == last.value;
      assert p in longer;
    }
  }

  /** One observation moves the tracker exactly when its stamp is new. */
  lemma ObserveAgrees(sqrt: real -> real, s: Session, acceptedAt: real, history: seq<Observation>, o: Observation)
    requires Valid(s.tracker) && Remembers(s, acceptedAt, history)
    ensures
      var r, moved := Observe(sqrt, s, o.tip, o.stamp, o.now), Advance(sqrt, s.tracker, o.tip, o.now);
      if IsNew(acceptedAt, history, o.stamp) then
        match moved
        case Err(e) => r == Err(e)
        case Ok((t, _)) =>
          r.Ok? && r.value.0.tracker == t && r.value.1.sampleAccepted && Remembers(r.value.0, acceptedAt, history + [o])
      else r.Ok? && r.value.0 == s && !r.value.1.sampleAccepted && Remembers(s, acceptedAt, history + [o])
  {
    RejectsMeansNotNew(s, acceptedAt, history, o.stamp);
    RemembersMore(s, acceptedAt, history, o, if Rejects(s, o.stamp) then s.lastStamp else Some(o.stamp));
  }

  /** A session is its tracker run on exactly the samples whose stamps are new; errors are the
      tracker's errors on those samples. */
  lemma {:induction false} SessionIsTrackerOnNewSamples(sqrt: real -> real, s: Session, history: seq<Observation>)
    requires FreshSession(s)
    ensures
      var session, tracker := RunSession(sqrt, s, history), Run(sqrt, s.tracker, NewSamples(s.acceptedAt, history));
      && (session.Ok? <==> tracker.Ok?)
      && (session.Ok? ==> session.value.tracker == tracker.value && Remembers(session.value, s.acceptedAt, history))
      && (session.Err? ==> session.error == tracker.error)
  {
    if history != [] {
      var n := |history| - 1;
      var o := history[n];
      SessionIsTrackerOnNewSamples(sqrt, s, history[..n]);
      var before := RunSession(sqrt, s, history[..n]);
      var samples := NewSamples(s.acceptedAt, history[..n]);
      if IsNew(s.acceptedAt, history[..n], o.stamp) {
        RunOneMore(sqrt, s.tracker, samples, Sample(o.tip, o.now));
      } else {
        assert NewSamples(s.acceptedAt, history) == samples;
      }
      if before.Ok? {
        ObserveAgrees(sqrt, before.value, s.acceptedAt, history[..n], o);
        assert history[..n] + [o] == history;
      }
    }
  }

  predicate ClockMonotone(history: seq<Observation>) {
    forall i, j :: 0 <= i < j < |history| ==> history[i].now <= history[j].now
  }

  lemma AppendInOrder(samples: seq<Sample>, s: Sample)
    requires NonDecreasing(samples) && (samples != [] ==> samples[|samples| - 1].at <= s.at)
    ensures NonDecreasing(samples + [s])
  {}

  lemma {:induction false} NewSamplesInOrder(acceptedAt: real, history: seq<Observation>)
    requires ClockMonotone(history)
    ensures NonDecreasing(NewSamples(acceptedAt, history))
    ensures
      var samples := NewSamples(acceptedAt, history);
      samples != [] ==> history != [] && samples[|samples| - 1].at <= history[|history| - 1].now
  {
    if history != [] {
      var n := |history| - 1;
      NewSamplesInOrder(acceptedAt, history[..n]);
      assert n > 0 ==> history[n - 1].now <= history[n].now;
      AppendInOrder(NewSamples(acceptedAt, history[..n]), Sample(history[n].tip, history[n].now));
    }
  }

  /** A Follow session completes exactly when the samples with new stamps have a window of
      sufficient dwell near every waypoint, in order and within the timeout. */
  lemma SessionCompletesIffWindows(sqrt: real -> real, s: Session, history: seq<Observation>)
    requires FreshSession(s) && ClockMonotone(history)
    ensures RunSession(sqrt, s, history).Ok?
    ensures
      RunSession(sqrt, s, history).value.tracker.completed <==>
      HasAllWindows(sqrt, s.tracker, NewSamples(s.acceptedAt, history))
  {
    NewSamplesInOrder(s.acceptedAt, history);
    SessionIsTrackerOnNewSamples(sqrt, s, history);
    CompletesIffWindows(sqrt, s.tracker, NewSamples(s.acceptedAt, history));
  }

  /** A session as it starts is fresh, with the task of its trajectory. */
  lemma StartedIsFresh(waypoints: seq<Vec>, tolerance: real, dwell: real, timeout: real, acceptedAt: real)
    requires Start(waypoints, tolerance, dwell, timeout, acceptedAt).Ok?
    ensures
      var s := Start(waypoints, tolerance, dwell, timeout, acceptedAt).value;
      && FreshSession(s) && s.acceptedAt == acceptedAt
      && NewTracker(waypoints, tolerance, dwell, timeout) == Ok(s.tracker)
  {}

  /** The samples as observations with new stamps. */
  function Stamped(acceptedAt: real, samples: seq<Sample>): seq<Observation> {
    seq(|samples|, i requires 0 <= i < |samples| =>
      Observation(samples[i].tip, acceptedAt + (i + 1) as real, samples[i].at))
  }

  lemma {:induction false} StampedAreNew(acceptedAt: real, samples: seq<Sample>)
    ensures NewSamples(acceptedAt, Stamped(acceptedAt, samples)) == samples
  {
    if samples != [] {
      var n := |samples| - 1;
      var history := Stamped(acceptedAt, samples);
      StampedAreNew(acceptedAt, samples[..n]);
      assert history[..n] == Stamped(acceptedAt, samples[..n]);
      assert IsNew(acceptedAt, history[..n], history[n].stamp);
      assert samples[..n] + [samples[n]] == samples;
    }
  }

  predicate SessionCompletesOn(sqrt: real -> real, s: Session, history: seq<Observation>)
    requires Valid(s.tracker)
  {
    ClockMonotone(history) && RunSession(sqrt, s, history).Ok? && RunSession(sqrt, s, history).value.tracker.completed
  }

  lemma SamplesCompleteSession(sqrt: real -> real, s: Session, samples: seq<Sample>)
    requires FreshSession(s) && CompletesOn(sqrt, s.tracker, samples)
    ensures SessionCompletesOn(sqrt, s, Stamped(s.acceptedAt, samples))
  {
    StampedAreNew(s.acceptedAt, samples);
    SessionIsTrackerOnNewSamples(sqrt, s, Stamped(s.acceptedAt, samples));
  }

  lemma SessionCompletesTracker(sqrt: real -> real, s: Session, history: seq<Observation>)
    requires FreshSession(s) && SessionCompletesOn(sqrt, s, history)
    ensures CompletesOn(sqrt, s.tracker, NewSamples(s.acceptedAt, history))
  {
    SessionIsTrackerOnNewSamples(sqrt, s, history);
    NewSamplesInOrder(s.acceptedAt, history);
  }

  /** Some history completes the session when and only when some samples complete its tracker. */
  lemma SessionCompletableAsTracker(sqrt: real -> real, s: Session)
    requires FreshSession(s)
    ensures (exists history: seq<Observation> :: SessionCompletesOn(sqrt, s, history)) <==>
      exists samples: seq<Sample> :: CompletesOn(sqrt, s.tracker, samples)
  {
    forall samples: seq<Sample> | CompletesOn(sqrt, s.tracker, samples)
      ensures SessionCompletesOn(sqrt, s, Stamped(s.acceptedAt, samples))
    {
      SamplesCompleteSession(sqrt, s, samples);
    }
    forall history: seq<Observation> | SessionCompletesOn(sqrt, s, history)
      ensures CompletesOn(sqrt, s.tracker, NewSamples(s.acceptedAt, history))
    {
      SessionCompletesTracker(sqrt, s, history);
    }
  }

  /** A started session can be completed by some history if and only if its dwell times, less the
      slack of the comparison, fit into its timeout: what is skipped for its stamp never makes
      the difference. */
  lemma SessionCompletableIff(
    sqrt: real -> real, waypoints: seq<Vec>, tolerance: real, dwell: real, timeout: real, acceptedAt: real)
    requires IsSqrt(sqrt) && Start(waypoints, tolerance, dwell, timeout, acceptedAt).Ok?
    ensures
      var s := Start(waypoints, tolerance, dwell, timeout, acceptedAt).value;
      Valid(s.tracker) &&
      ((exists history: seq<Observation> :: SessionCompletesOn(sqrt, s, history))
       <==> |waypoints| as real * (dwell - DWELL_SLACK) <= timeout)
  {
    StartedIsFresh(waypoints, tolerance, dwell, timeout, acceptedAt);
    CompletableIff(sqrt, waypoints, tolerance, dwell, timeout);
    SessionCompletableAsTracker(sqrt, Start(waypoints, tolerance, dwell, timeout, acceptedAt).value);
  }

  // ------------------------------------------------------------- what the reports mean

  /** The samples of a session up to now. */
  function SamplesOf(s: Session, history: seq<Observation>): seq<Sample> { NewSamples(s.acceptedAt, history) }

  /** More than the timeout has passed since the first new sample. */
  predicate PastTimeout(s: Session, history: seq<Observation>, now: real) {
    SamplesOf(s, history) != [] && now - SamplesOf(s, history)[0].at > s.tracker.timeout
  }

  lemma NewSampleAppends(s: Session, history: seq<Observation>, o: Observation)
    requires IsNew(s.acceptedAt, history, o.stamp)
    ensures SamplesOf(s, history + [o]) == SamplesOf(s, history) + [Sample(o.tip, o.now)]
  {
    assert (history + [o])[..|history|] == history;
  }

  lemma OldSampleIsSkipped(s: Session, history: seq<Observation>, o: Observation)
    requires !IsNew(s.acceptedAt, history, o.stamp)
    ensures SamplesOf(s, history + [o]) == SamplesOf(s, history)
  {
    assert (history + [o])[..|history|] == history;
    assert SamplesOf(s, history) + [] == SamplesOf(s, history);
  }

  lemma ClockOfPrefix(history: seq<Observation>, o: Observation)
    requires ClockMonotone(history + [o])
    ensures ClockMonotone(history)
  {
    assert forall i :: 0 <= i < |history| ==> (history + [o])[i] == history[i];
  }

  /** Where the tracker of a session stands when the next new sample arrives. */
  lemma TrackerBefore(sqrt: real -> real, s: Session, history: seq<Observation>, o: Observation)
    requires FreshSession(s) && ClockMonotone(history + [o]) && IsNew(s.acceptedAt, history, o.stamp)
    ensures RunSession(sqrt, s, history).Ok?
    ensures
      var u := RunSession(sqrt, s, history).value;
      && u.acceptedAt == s.acceptedAt && SameTask(s.tracker, u.tracker)
      && (u.tracker.completed <==> HasAllWindows(sqrt, s.tracker, SamplesOf(s, history)))
      && u.tracker.startedAt == (if SamplesOf(s, history) == [] then None else Some(SamplesOf(s, history)[0].at))
      && Advance(sqrt, u.tracker, o.tip, o.now).Ok?
  {
    var before, after := SamplesOf(s, history), SamplesOf(s, history + [o]);
    ClockOfPrefix(history, o);
    SessionCompletesIffWindows(sqrt, s, history);
    SessionIsTrackerOnNewSamples(sqrt, s, history);
    NewSamplesInOrder(s.acceptedAt, history + [o]);
    NewSampleAppends(s, history, o);
    assert after[..|before|] == before;
    BeforeStep(sqrt, s.tracker, after, |before|);
  }

  /** The report of an accepted observation in terms of the tracker before and after. */
  ghost predicate StepDescribed(sqrt: real -> real, u: Session, o: Observation, v: Session, report: FollowUpdate)
    requires Valid(v.tracker)
  {
    && report.sampleAccepted && report.completed == v.tracker.completed && SameTask(u.tracker, v.tracker)
    && (report.timedOut <==>
          !u.tracker.completed && u.tracker.startedAt.Some? && o.now - u.tracker.startedAt.value > u.tracker.timeout)
    && (report.advanced <==>
          v.tracker.index == u.tracker.index + 1 || (v.tracker.completed && !u.tracker.completed))
    && report.index == v.tracker.index && report.count == |u.tracker.waypoints|
    && report.distance == v.lastDistance == Some(Dist(sqrt, v.tracker.waypoints[v.tracker.index], o.tip))
    && report.elapsed == Max(0.0, o.now - u.acceptedAt) && v.lastStamp == Some(o.stamp)
  }

  lemma ReportDescribesStep(sqrt: real -> real, u: Session, o: Observation)
    requires Valid(u.tracker) && u.tracker.timeout > 0.0 && !Rejects(u, o.stamp)
    requires Advance(sqrt, u.tracker, o.tip, o.now).Ok?
    ensures Observe(sqrt, u, o.tip, o.stamp, o.now).Ok?
    ensures
      var (v, report) := Observe(sqrt, u, o.tip, o.stamp, o.now).value;
      StepDescribed(sqrt, u, o, v, report)
  {
    UpdateDescribesStep(sqrt, u.tracker, o.tip, o.now);
    AdvanceKeepsTask(sqrt, u.tracker, o.tip, o.now);
  }

  /** Whether the new samples, the last observation included, have all their windows. */
  ghost predicate DoneBy(sqrt: real -> real, s: Session, history: seq<Observation>) {
    HasAllWindows(sqrt, s.tracker, SamplesOf(s, history))
  }

  /** What an accepted report says about its session and the history up to it. */
  ghost predicate ReportIsTrue(
    sqrt: real -> real, s: Session, history: seq<Observation>, o: Observation, u: Session, v: Session,
    report: FollowUpdate)
  {
    && report.sampleAccepted && (report.completed <==> DoneBy(sqrt, s, history + [o]))
    && (v.tracker.completed <==> DoneBy(sqrt, s, history + [o]))
    && (report.timedOut <==> !DoneBy(sqrt, s, history + [o]) && PastTimeout(s, history + [o], o.now))
    && (report.advanced <==>
          v.tracker.index == u.tracker.index + 1 || (DoneBy(sqrt, s, history + [o]) && !DoneBy(sqrt, s, history)))
    && report.index == v.tracker.index < |s.tracker.waypoints| && report.count == |s.tracker.waypoints|
    && report.distance == v.lastDistance == Some(Dist(sqrt, s.tracker.waypoints[report.index], o.tip))
    && report.elapsed == Max(0.0, o.now - s.acceptedAt) && v.lastStamp == Some(o.stamp)
  }

  /** An accepted observation reports completion exactly when the new samples, itself included,
      have all their windows, and a timeout exactly when they do not and more than the timeout
      has passed since the first of them; and it describes the tracker it leaves. */
  lemma ReportMeans(sqrt: real -> real, s: Session, history: seq<Observation>, o: Observation)
    requires FreshSession(s) && s.tracker.timeout > 0.0 && ClockMonotone(history + [o])
    requires IsNew(s.acceptedAt, history, o.stamp)
    ensures RunSession(sqrt, s, history).Ok?
    ensures Observe(sqrt, RunSession(sqrt, s, history).value, o.tip, o.stamp, o.now).Ok?
    ensures
      var u := RunSession(sqrt, s, history).value;
      var (v, report) := Observe(sqrt, u, o.tip, o.stamp, o.now).value;
      RunSession(sqrt, s, history + [o]) == Ok(v) && ReportIsTrue(sqrt, s, history, o, u, v, report)
  {
    TrackerBefore(sqrt, s, history, o);
    var u := RunSession(sqrt, s, history).value;
    NewIsNotRejected(sqrt, s, history, o, u);
    ReportDescribesStep(sqrt, u, o);
    ObservedIsRun(sqrt, s, history, o);
    SessionCompletesIffWindows(sqrt, s, history + [o]);
    var (v, report) := Observe(sqrt, u, o.tip, o.stamp, o.now).value;
    StepIsTrue(sqrt, s, history, o, u, v, report);
  }

  lemma NewIsNotRejected(sqrt: real -> real, s: Session, history: seq<Observation>, o: Observation, u: Session)
    requires FreshSession(s) && RunSession(sqrt, s, history) == Ok(u) && IsNew(s.acceptedAt, history, o.stamp)
    ensures !Rejects(u, o.stamp)
  {
    SessionIsTrackerOnNewSamples(sqrt, s, history);
    RejectsMeansNotNew(u, s.acceptedAt, history, o.stamp);
  }

  lemma StepIsTrue(
    sqrt: real -> real, s: Session, history: seq<Observation>, o: Observation, u: Session, v: Session,
    report: FollowUpdate)
    requires FreshSession(s) && s.tracker.timeout > 0.0 && IsNew(s.acceptedAt, history, o.stamp)
    requires u.acceptedAt == s.acceptedAt && SameTask(s.tracker, u.tracker)
    requires u.tracker.completed <==> DoneBy(sqrt, s, history)
    requires
      u.tracker.startedAt == (if SamplesOf(s, history) == [] then None else Some(SamplesOf(s, history)[0].at))
    requires Valid(v.tracker) && StepDescribed(sqrt, u, o, v, report)
    requires v.tracker.completed <==> DoneBy(sqrt, s, history + [o])
    ensures ReportIsTrue(sqrt, s, history, o, u, v, report)
  {
    TimeoutMeans(sqrt, s, history, o, u.tracker);
  }

  lemma TimeoutMeans(sqrt: real -> real, s: Session, history: seq<Observation>, o: Observation, t: Tracker)
    requires FreshSession(s) && IsNew(s.acceptedAt, history, o.stamp) && s.tracker.timeout > 0.0
    requires SameTask(s.tracker, t) && (t.completed <==> DoneBy(sqrt, s, history))
    requires t.startedAt == (if SamplesOf(s, history) == [] then None else Some(SamplesOf(s, history)[0].at))
    ensures
      !t.completed && t.startedAt.Some? && o.now - t.startedAt.value > t.timeout
      <==> !DoneBy(sqrt, s, history + [o]) && PastTimeout(s, history + [o], o.now)
  {
    PastWhen(s, history, o, t);
    if PastTimeout(s, history + [o], o.now) {
      TimeoutExcludesCompletion(sqrt, s, history, o);
    }
  }

  lemma AdvanceKeepsTask(sqrt: real -> real, t: Tracker, tip: Vec, now: real)
    requires Valid(t) && Advance(sqrt, t, tip, now).Ok?
    ensures SameTask(t, Advance(sqrt, t, tip, now).value.0)
  {}

  lemma ObservedIsRun(sqrt: real -> real, s: Session, history: seq<Observation>, o: Observation)
    requires Valid(s.tracker) && RunSession(sqrt, s, history).Ok?
    ensures
      var r := Observe(sqrt, RunSession(sqrt, s, history).value, o.tip, o.stamp, o.now);
      && (r.Ok? ==> RunSession(sqrt, s, history + [o]) == Ok(r.value.0))
      && (r.Err? ==> RunSession(sqrt, s, history + [o]) == Err(r.error))
  {
    assert (history + [o])[..|history|] == history;
  }

  lemma PastWhen(s: Session, history: seq<Observation>, o: Observation, t: Tracker)
    requires IsNew(s.acceptedAt, history, o.stamp) && s.tracker.timeout > 0.0 && SameTask(s.tracker, t)
    requires t.startedAt == (if SamplesOf(s, history) == [] then None else Some(SamplesOf(s, history)[0].at))
    ensures PastTimeout(s, history + [o], o.now) <==> t.startedAt.Some? && o.now - t.startedAt.value > t.timeout
  {
    NewSampleAppends(s, history, o);
  }

  lemma LateSampleClosesNothing(
    sqrt: real -> real, t: Tracker, before: seq<Sample>, after: seq<Sample>, k: nat, w: Window)
    requires GoodWindow(sqrt, t, after, k, w)
    requires before <= after && |after| == |before| + 1 && before != []
    requires after[|before|].at - after[0].at > t.timeout
    ensures GoodWindow(sqrt, t, before, k, w)
  {
    assert w.last != |before|;
    assert before[0] == after[0];
  }

  /** A sample past the timeout closes no window. */
  lemma TimeoutExcludesCompletion(sqrt: real -> real, s: Session, history: seq<Observation>, o: Observation)
    requires FreshSession(s) && IsNew(s.acceptedAt, history, o.stamp)
    requires PastTimeout(s, history + [o], o.now)
    ensures
      HasAllWindows(sqrt, s.tracker, SamplesOf(s, history + [o]))
      <==> HasAllWindows(sqrt, s.tracker, SamplesOf(s, history))
  {
    var before, after := SamplesOf(s, history), SamplesOf(s, history + [o]);
    NewSampleAppends(s, history, o);
    if HasAllWindows(sqrt, s.tracker, after) {
      var ws: seq<Window> :| |ws| == |s.tracker.waypoints| && GoodWindows(sqrt, s.tracker, after, ws);
      forall k | 0 <= k < |ws|
        ensures GoodWindow(sqrt, s.tracker, before, k, ws[k])
      {
        LateSampleClosesNothing(sqrt, s.tracker, before, after, k, ws[k]);
      }
      assert GoodWindows(sqrt, s.tracker, before, ws);
    }
    if HasAllWindows(sqrt, s.tracker, before) {
      var ws: seq<Window> :| |ws| == |s.tracker.waypoints| && GoodWindows(sqrt, s.tracker, before, ws);
      WindowsOfPrefix(sqrt, s.tracker, before, after, ws);
    }
  }

  /** A rejected observation changes nothing and reports what was known. */
  lemma RejectionMeans(sqrt: real -> real, s: Session, history: seq<Observation>, o: Observation)
    requires FreshSession(s) && ClockMonotone(history) && !IsNew(s.acceptedAt, history, o.stamp)
    ensures RunSession(sqrt, s, history).Ok?
    ensures
      var u := RunSession(sqrt, s, history).value;
      && Observe(sqrt, u, o.tip, o.stamp, o.now).Ok?
      && var (v, report) := Observe(sqrt, u, o.tip, o.stamp, o.now).value;
         && v == u && !report.sampleAccepted && !report.advanced && !report.timedOut
         && (report.completed <==> HasAllWindows(sqrt, s.tracker, SamplesOf(s, history)))
         && report.index == u.tracker.index && report.count == |u.tracker.waypoints|
         && report.distance == u.lastDistance && report.elapsed == Max(0.0, o.now - s.acceptedAt)
  {
    SessionCompletesIffWindows(sqrt, s, history);
    SessionIsTrackerOnNewSamples(sqrt, s, history);
    RejectsMeansNotNew(RunSession(sqrt, s, history).value, s.acceptedAt, history, o.stamp);
  }
}
