/** The fixed-action executor (`runtime_bridge/fixed_actions.py`): a servo that walks through
    relative joint moves with a hold after each and a timeout on each. */
module FixedActions {
  import opened Geometry
  import opened Wrappers

  const AXES := 4

  /** Moves up to this size do not take part when zero axes are locked. */
  const ZERO_DELTA := 0.0001

  type Pose = p: seq<real> | |p| == AXES witness [0.0, 0.0, 0.0, 0.0]

  const ZERO_ACTION: Pose := [0.0, 0.0, 0.0, 0.0]

  datatype Step = Step(delta: Pose)

  datatype Config = Config(
    steps: seq<Step>, kp: real, minAction: real, maxAction: real,
    tolerance: real, stepTimeout: real, hold: real, lockZeroAxes: bool)

  /** The normalized positions of the three measured actuators. */
  datatype Measurement = Measurement(boom: real, stick: real, bucket: real)

  /** The pose the executor works with; the swing axis is not measured and reads zero. */
  function CurrentPose(m: Measurement): Pose { [m.boom, m.stick, m.bucket, 0.0] }

  function Clamp(v: real, lower: real := -1.0, upper: real := 1.0): real { Max(lower, Min(upper, v)) }

  /** Construction: an empty sequence is refused and the tuning values are floored. */
  function MakeConfig(
    steps: seq<Step>, kp: real, minAction: real, maxAction: real,
    tolerance: real, stepTimeout: real, hold: real, lockZeroAxes: bool): (r: Option<Config>)
    ensures r.Some? <==> steps != []
    ensures r.Some? ==> ConfigOk(r.value)
  {
    if steps == [] then None
    else Some(Config(steps, Max(kp, 0.01), Max(minAction, 0.0), Max(maxAction, 0.01),
                     Max(tolerance, 0.001), Max(stepTimeout, 0.1), Max(hold, 0.0), lockZeroAxes))
  }

  predicate ConfigOk(c: Config) {
    && c.steps != []
    && c.kp >= 0.01 && c.minAction >= 0.0 && c.maxAction >= 0.01
    && c.tolerance >= 0.001 && c.stepTimeout >= 0.1 && c.hold >= 0.0
  }

  /** A configuration as construction leaves it. */
  type GoodConfig = c: Config | ConfigOk(c)
    witness Config([Step(ZERO_ACTION)], 1.5, 0.08, 1.0, 0.03, 3.0, 0.15, true)

  /** The mutable part of an executor. */
  datatype Exec = Exec(
    index: nat, startedAt: Option<real>, holdUntil: Option<real>, startPose: Option<Pose>, failed: bool)

  const INITIAL := Exec(0, None, None, None, false)

  datatype Phase = Running | Holding | Done | Failed

  datatype Status = Status(phase: Phase, index: nat, maxError: real, done: bool, failed: bool)

  datatype Outcome = Outcome(exec: Exec, action: Pose, status: Status)

  function Target(step: Step, start: Pose): Pose {
    seq(AXES, i requires 0 <= i < AXES => Clamp(start[i] + step.delta[i]))
  }

  /** The servo error per axis; locked axes have none. */
  function Errors(c: Config, step: Step, start: Pose, current: Pose): Pose {
    seq(AXES, i requires 0 <= i < AXES =>
      if c.lockZeroAxes && Abs(step.delta[i]) <= ZERO_DELTA then 0.0 else Target(step, start)[i] - current[i])
  }

  function LargestError(e: Pose): (m: real)
    ensures forall i :: 0 <= i < AXES ==> Abs(e[i]) <= m
    ensures exists i :: 0 <= i < AXES && Abs(e[i]) == m
  {
    var a, b := Max(Abs(e[0]), Abs(e[1])), Max(Abs(e[2]), Abs(e[3]));
    assert Abs(e[0]) == a || Abs(e[1]) == a;
    assert Abs(e[2]) == b || Abs(e[3]) == b;
    Max(a, b)
  }

  function ServoAxis(c: Config, error: real): real {
    if Abs(error) <= c.tolerance then 0.0
    else
      var maxAction := Clamp(c.maxAction, 0.01, 1.0);
      var minAction := Clamp(c.minAction, 0.0, maxAction);
      var magnitude := Clamp(Abs(c.kp * error), minAction, maxAction);
      if error >= 0.0 then magnitude else -magnitude
  }

  function Servo(c: Config, errors: Pose): Pose { seq(AXES, i requires 0 <= i < AXES => ServoAxis(c, errors[i])) }

  /** Direction-dependent speed limits, one per axis. */
  datatype SpeedLimit = SpeedLimit(positive: real, negative: real)

  function AxisVelocity(v: real, limit: SpeedLimit): real {
    var n := Clamp(v);
    n * (if n >= 0.0 then limit.positive else limit.negative)
  }

  type Limits = l: seq<SpeedLimit> | |l| == AXES
    witness [SpeedLimit(0.0, 0.0), SpeedLimit(0.0, 0.0), SpeedLimit(0.0, 0.0), SpeedLimit(0.0, 0.0)]

  function Velocities(action: Pose, limits: Limits): Pose {
    seq(AXES, i requires 0 <= i < AXES => AxisVelocity(action[i], limits[i]))
  }

  method PhysicalVelocityAction(action: seq<real>, limits: Limits) returns (result: Option<Pose>)
    ensures |action| != AXES ==> result == None
    ensures |action| == AXES ==> result == Some(Velocities(action, limits))
  {
    if |action| != AXES {
      return None;
    }
    var values: seq<real> := [];
    for i := 0 to AXES
      invariant |values| == i
      invariant forall k :: 0 <= k < i ==> values[k] == AxisVelocity(action[k], limits[k])
    {
      var normalized := Clamp(action[i]);
      var speed := if normalized >= 0.0 then limits[i].positive else limits[i].negative;
      values := values + [normalized * speed];
    }
    assert values == Velocities(action, limits);
    return Some(values);
  }

  predicate IsDone(c: Config, e: Exec) { e.index >= |c.steps| }

  /** The part of a call after any finished hold has been left: measure, then time out, hold
      or drive. */
  function Track(c: Config, limits: Limits, e: Exec, pose: Pose, now: real): Outcome
    requires e.index < |c.steps|
  {
    var starting := e.startedAt.None?;
    var started := if starting then now else e.startedAt.value;
    var startPose := if starting then Some(pose) else e.startPose;
    var base := e.(startedAt := Some(started), startPose := startPose);
    var origin := if startPose.Some? then startPose.value else pose;
    var errors := Errors(c, c.steps[e.index], origin, pose);
    var worst := LargestError(errors);
    if now - started >= c.stepTimeout then
      Outcome(base.(failed := true), ZERO_ACTION, Status(Failed, e.index, worst, false, true))
    else if worst <= c.tolerance then
      Outcome(base.(holdUntil := Some(now + c.hold)), ZERO_ACTION, Status(Holding, e.index, worst, false, false))
    else
      Outcome(base, Velocities(Servo(c, errors), limits), Status(Running, e.index, worst, false, false))
  }

  function Next(c: Config, limits: Limits, e: Exec, m: Measurement, now: real): Outcome {
    if e.failed then Outcome(e, ZERO_ACTION, Status(Failed, e.index, 0.0, false, true))
    else if IsDone(c, e) then Outcome(e, ZERO_ACTION, Status(Done, e.index, 0.0, true, false))
    else if e.holdUntil.Some? then
      if now < e.holdUntil.value then Outcome(e, ZERO_ACTION, Status(Holding, e.index, 0.0, false, false))
      else
        var left := Exec(e.index + 1, None, None, None, false);
        if IsDone(c, left) then Outcome(left, ZERO_ACTION, Status(Done, left.index, 0.0, true, false))
        else Track(c, limits, left, CurrentPose(m), now)
    else Track(c, limits, e, CurrentPose(m), now)
  }

  class FixedActionExecutor {
    const config: GoodConfig
    const limits: Limits
    var stepIndex: nat
    var stepStartedAt: Option<real>
    var holdUntil: Option<real>
    var stepStartPose: Option<Pose>
    var failed: bool

    function State(): Exec
      reads this
    {
      Exec(stepIndex, stepStartedAt, holdUntil, stepStartPose, failed)
    }

    constructor (config: GoodConfig, limits: Limits)
      ensures this.config == config && this.limits == limits
      ensures State() == INITIAL
    {
      this.config := config;
      this.limits := limits;
      stepIndex := 0;
      stepStartedAt := None;
      holdUntil := None;
      stepStartPose := None;
      failed := false;
    }

    method Step(m: Measurement, now: real) returns (action: Pose, status: Status)
      modifies this
      ensures Outcome(State(), action, status) == Next(config, limits, old(State()), m, now)
    {
      if failed {
        return ZERO_ACTION, Status(Failed, stepIndex, 0.0, false, true);
      }
      if stepIndex >= |config.steps| {
        return ZERO_ACTION, Status(Done, stepIndex, 0.0, true, false);
      }
      if holdUntil.Some? {
        if now < holdUntil.value {
          return ZERO_ACTION, Status(Holding, stepIndex, 0.0, false, false);
        }
        AdvanceStep();
        if stepIndex >= |config.steps| {
          return ZERO_ACTION, Status(Done, stepIndex, 0.0, true, false);
        }
      }
      action, status := Drive(CurrentPose(m), now);
    }

    /** The part of `Step` after any finished hold has been left. */
    method Drive(current: Pose, now: real) returns (action: Pose, status: Status)
      requires stepIndex < |config.steps|
      modifies this
      ensures Outcome(State(), action, status) == Track(config, limits, old(State()), current, now)
    {
      if stepStartedAt.None? {
        stepStartedAt := Some(now);
        stepStartPose := Some(current);
      }
      var origin := if stepStartPose.Some? then stepStartPose.value else current;
      var errors := Errors(config, config.steps[stepIndex], origin, current);
      var worst := LargestError(errors);
      if now - stepStartedAt.value >= config.stepTimeout {
        failed := true;
        return ZERO_ACTION, Status(Failed, stepIndex, worst, false, true);
      }
      if worst <= config.tolerance {
        holdUntil := Some(now + config.hold);
        return ZERO_ACTION, Status(Holding, stepIndex, worst, false, false);
      }
      var physical := PhysicalVelocityAction(Servo(config, errors), limits);
      return physical.value, Status(Running, stepIndex, worst, false, false);
    }

    method AdvanceStep()
      modifies this
      ensures State() == Exec(old(stepIndex) + 1, None, None, None, old(failed))
    {
      stepIndex := stepIndex + 1;
      stepStartedAt := None;
      holdUntil := None;
      stepStartPose := None;
    }
  }

  /** An executor for a sequence and its tuning; `None` is the error for an empty sequence. */
  method NewExecutor(
    steps: seq<Step>, limits: Limits, kp: real, minAction: real, maxAction: real,
    tolerance: real, stepTimeout: real, hold: real, lockZeroAxes: bool) returns (r: Option<FixedActionExecutor>)
    ensures r.None? <==> steps == []
    ensures r.Some? ==>
      && fresh(r.value) && r.value.State() == INITIAL && r.value.limits == limits
      && Some(r.value.config)
         == MakeConfig(steps, kp, minAction, maxAction, tolerance, stepTimeout, hold, lockZeroAxes)
  {
    var config := MakeConfig(steps, kp, minAction, maxAction, tolerance, stepTimeout, hold, lockZeroAxes);
    if config.None? {
      return None;
    }
    var executor := new FixedActionExecutor(config.value, limits);
    return Some(executor);
  }

  // --------------------------------------------------------------------- commands

  /** The servo moves an axis only when it is out of tolerance, always towards the target, and
      never faster than full normalized speed. */
  lemma ServoDirection(c: Config, error: real)
    requires ConfigOk(c)
    ensures var a := ServoAxis(c, error);
      && -1.0 <= a <= 1.0
      && (a == 0.0 <== Abs(error) <= c.tolerance)
      && (Abs(error) > c.tolerance ==>
            var largest := Clamp(c.maxAction, 0.01, 1.0);
            Clamp(c.minAction, 0.0, largest) <= Abs(a) <= largest)
      && (Abs(error) > c.tolerance ==> (a > 0.0 <==> error > 0.0) && (a < 0.0 <==> error < 0.0))
  {
    var maxAction := Clamp(c.maxAction, 0.01, 1.0);
    var minAction := Clamp(c.minAction, 0.0, maxAction);
    if Abs(error) > c.tolerance {
      GainIsPositive(c.kp, error);
    }
  }

  lemma GainIsPositive(kp: real, error: real)
    requires kp > 0.0 && error != 0.0
    ensures Abs(kp * error) > 0.0
  {
    if error > 0.0 {
      ProductPositive(kp, error);
    } else {
      ProductPositive(kp, -error);
    }
  }

  /** A velocity never exceeds the larger of its two direction limits. */
  lemma VelocityWithinLimits(v: real, limit: SpeedLimit)
    ensures Abs(AxisVelocity(v, limit)) <= Max(Abs(limit.positive), Abs(limit.negative))
  {
    var n := Clamp(v);
    var chosen := if n >= 0.0 then limit.positive else limit.negative;
    ScaledDown(n, chosen);
    assert AxisVelocity(v, limit) == n * chosen;
  }

  lemma ScaledDown(n: real, s: real)
    requires -1.0 <= n <= 1.0
    ensures Abs(n * s) <= Abs(s)
  {
    AbsProduct(n, s);
    ProductMonotone(Abs(n), 1.0, Abs(s));
  }

  lemma AbsProduct(n: real, s: real)
    ensures Abs(n * s) == Abs(n) * Abs(s)
  {
    ProductNonNegative(Abs(n), Abs(s));
    if n >= 0.0 && s < 0.0 {
      assert n * s == -(n * (-s));
    } else if n < 0.0 && s >= 0.0 {
      assert n * s == -((-n) * s);
    } else if n < 0.0 && s < 0.0 {
      assert n * s == (-n) * (-s);
    }
  }

  // ----------------------------------------------------------------- whole executions

  datatype Call = Call(m: Measurement, at: real)

  function Execute(c: Config, limits: Limits, e: Exec, calls: seq<Call>): Exec {
    if calls == [] then e
    else
      var n := |calls| - 1;
      Next(c, limits, Execute(c, limits, e, calls[..n]), calls[n].m, calls[n].at).exec
  }

  /** Calls come in order, at most `gap` apart. */
  ghost predicate GapsAtMost(calls: seq<Call>, gap: real) {
    forall i, j :: 0 <= i && j == i + 1 < |calls| ==> 0.0 <= calls[j].at - calls[i].at <= gap
  }

  predicate Finished(c: Config, e: Exec) { e.failed || IsDone(c, e) }

  /** The time `k` steps may take. */
  function Budget(k: nat, perStep: real): real { if k == 0 then 0.0 else Budget(k - 1, perStep) + perStep }

  lemma {:induction false} BudgetIsProduct(k: nat, perStep: real)
    ensures Budget(k, perStep) == k as real * perStep
  {
    if k > 0 {
      BudgetIsProduct(k - 1, perStep);
      assert (k - 1) as real * perStep + perStep == k as real * perStep;
    }
  }

  lemma {:induction false} BudgetGrows(j: nat, k: nat, perStep: real)
    requires perStep >= 0.0 && j <= k
    ensures Budget(j, perStep) <= Budget(k, perStep)
    decreases k - j
  {
    if j < k {
      BudgetGrows(j, k - 1, perStep);
    }
  }

  /** The longest one step may take: its timeout, its hold and one gap between calls. */
  function StepBudget(c: Config, gap: real): real { c.stepTimeout + c.hold + gap }

  /** Where an unfinished executor is in time after a call at `now`. */
  ghost predicate OnSchedule(c: Config, e: Exec, first: real, now: real, gap: real) {
    && e.startedAt.Some?
    && e.startedAt.value <= now
    && e.startedAt.value - first <= Budget(e.index, StepBudget(c, gap))
    && (e.holdUntil.None? ==> now - e.startedAt.value < c.stepTimeout)
    && (e.holdUntil.Some? ==>
          now <= e.holdUntil.value && e.holdUntil.value - e.startedAt.value < c.stepTimeout + c.hold)
  }

  /** What a call does to the clock fields, whatever it measures. */
  lemma TrackTimes(c: Config, limits: Limits, e: Exec, pose: Pose, now: real)
    requires e.index < |c.steps| && !e.failed && e.holdUntil.None?
    ensures
      var x := Track(c, limits, e, pose, now).exec;
      var started := if e.startedAt.None? then now else e.startedAt.value;
      && x.index == e.index
      && x.startedAt == Some(started)
      && (x.failed <==> now - started >= c.stepTimeout)
      && (x.holdUntil.None? || x.holdUntil.value == now + c.hold)
  {}

  lemma ScheduleStep(
    c: Config, limits: Limits, e: Exec, first: real, before: real, m: Measurement, now: real, gap: real)
    requires ConfigOk(c) && gap >= 0.0
    requires !Finished(c, e) && OnSchedule(c, e, first, before, gap)
    requires 0.0 <= now - before <= gap
    ensures var x := Next(c, limits, e, m, now).exec; Finished(c, x) || OnSchedule(c, x, first, now, gap)
  {
    if e.holdUntil.Some? {
      if now >= e.holdUntil.value && e.index + 1 < |c.steps| {
        TrackTimes(c, limits, Exec(e.index + 1, None, None, None, false), CurrentPose(m), now);
      }
    } else {
      TrackTimes(c, limits, e, CurrentPose(m), now);
    }
  }

  lemma {:induction false} StaysOnSchedule(c: Config, limits: Limits, calls: seq<Call>, gap: real)
    requires ConfigOk(c) && gap >= 0.0
    requires calls != [] && GapsAtMost(calls, gap)
    ensures
      var e := Execute(c, limits, INITIAL, calls);
      Finished(c, e) || OnSchedule(c, e, calls[0].at, calls[|calls| - 1].at, gap)
  {
    var n := |calls| - 1;
    var before := Execute(c, limits, INITIAL, calls[..n]);
    if n == 0 {
      assert before == INITIAL;
      TrackTimes(c, limits, INITIAL, CurrentPose(calls[0].m), calls[0].at);
    } else {
      StaysOnSchedule(c, limits, calls[..n], gap);
      if !Finished(c, before) {
        ScheduleStep(c, limits, before, calls[0].at, calls[n - 1].at, calls[n].m, calls[n].at, gap);
      }
    }
  }

  /** An executor that is on schedule and not done is within the budget of all its steps. */
  lemma WithinBudget(c: Config, e: Exec, first: real, now: real, gap: real)
    requires ConfigOk(c) && gap >= 0.0
    requires e.index < |c.steps| && OnSchedule(c, e, first, now, gap)
    ensures now - first < Budget(|c.steps|, StepBudget(c, gap))
  {
    BudgetGrows(e.index + 1, |c.steps|, StepBudget(c, gap));
  }

  lemma WithinTotal(c: Config, e: Exec, first: real, now: real, gap: real, perStep: real)
    requires ConfigOk(c) && gap >= 0.0
    requires e.index < |c.steps| && OnSchedule(c, e, first, now, gap)
    requires perStep == StepBudget(c, gap)
    ensures now - first < |c.steps| as real * perStep
  {
    WithinBudget(c, e, first, now, gap);
    BudgetIsProduct(|c.steps|, perStep);
  }

  lemma FinishedWithin(c: Config, limits: Limits, calls: seq<Call>, gap: real, perStep: real, total: real)
    requires ConfigOk(c) && gap >= 0.0
    requires calls != [] && GapsAtMost(calls, gap)
    requires perStep == StepBudget(c, gap) && total == |c.steps| as real * perStep
    requires calls[|calls| - 1].at - calls[0].at >= total
    ensures Finished(c, Execute(c, limits, INITIAL, calls))
  {
    var e := Execute(c, limits, INITIAL, calls);
    StaysOnSchedule(c, limits, calls, gap);
    if !Finished(c, e) {
      WithinTotal(c, e, calls[0].at, calls[|calls| - 1].at, gap, perStep);
    }
  }

  /** However the machine moves, an executor called at least every `gap` seconds is done or
      has failed once `steps * (stepTimeout + hold + gap)` seconds have passed since its first
      call. */
  lemma ExecutorTerminates(c: Config, limits: Limits, calls: seq<Call>, gap: real)
    requires ConfigOk(c) && gap >= 0.0
    requires calls != [] && GapsAtMost(calls, gap)
    requires calls[|calls| - 1].at - calls[0].at >= |c.steps| as real * StepBudget(c, gap)
    ensures Finished(c, Execute(c, limits, INITIAL, calls))
  {
    FinishedWithin(c, limits, calls, gap, StepBudget(c, gap), |c.steps| as real * StepBudget(c, gap));
  }

  /** Done and failed are absorbing, and a finished executor sends only zero actions. */
  lemma {:induction false} FinishedIsFinal(
    c: Config, limits: Limits, e: Exec, later: seq<Call>, m: Measurement, now: real)
    requires Finished(c, e)
    ensures
      var o := Next(c, limits, Execute(c, limits, e, later), m, now);
      o.exec == e && o.action == ZERO_ACTION && o.status.failed == e.failed && (o.status.done <==> !e.failed)
  {
    if later != [] {
      var n := |later| - 1;
      FinishedIsFinal(c, limits, e, later[..n], later[n].m, later[n].at);
    }
  }

  // ------------------------------------------------------------------- what done means

  /** The step's errors at call `i`, relative to the pose of call `start`. */
  function ErrorsAt(c: Config, calls: seq<Call>, k: nat, start: nat, i: nat): Pose
    requires k < |c.steps| && start < |calls| && i < |calls|
  {
    Errors(c, c.steps[k], CurrentPose(calls[start].m), CurrentPose(calls[i].m))
  }

  /** All participating axes are within tolerance of the target. */
  predicate Reached(c: Config, calls: seq<Call>, k: nat, start: nat, i: nat)
    requires k < |c.steps| && start < |calls| && i < |calls|
  {
    forall a :: 0 <= a < AXES ==> Abs(ErrorsAt(c, calls, k, start, i)[a]) <= c.tolerance
  }

  lemma ReachedIsLargestError(c: Config, calls: seq<Call>, k: nat, start: nat, i: nat)
    requires k < |c.steps| && start < |calls| && i < |calls|
    ensures Reached(c, calls, k, start, i) <==> LargestError(ErrorsAt(c, calls, k, start, i)) <= c.tolerance
  {}

  /** The calls at which a step began and at which it first reached its target. */
  datatype Visit = Visit(start: nat, hit: nat)

  /** Until call `end` the step begun at `start` had neither reached its target nor timed out. */
  ghost predicate Underway(c: Config, calls: seq<Call>, k: nat, start: nat, end: nat) {
    && k < |c.steps| && start < |calls| && end <= |calls|
    && forall i :: start <= i < end ==>
         !Reached(c, calls, k, start, i) && calls[i].at - calls[start].at < c.stepTimeout
  }

  ghost predicate GoodVisit(c: Config, calls: seq<Call>, k: nat, v: Visit) {
    && v.start <= v.hit < |calls|
    && Underway(c, calls, k, v.start, v.hit)
    && Reached(c, calls, k, v.start, v.hit)
    && calls[v.hit].at - calls[v.start].at < c.stepTimeout
  }

  /** `next` is the first call after `hit` at which the hold is over. */
  ghost predicate FirstAfterHold(c: Config, calls: seq<Call>, hit: nat, next: nat) {
    && hit < next < |calls|
    && calls[next].at >= calls[hit].at + c.hold
    && forall i :: hit < i < next ==> calls[i].at < calls[hit].at + c.hold
  }

  /** The visits of the first `|vs|` steps: the first begins with the first call, and each
      later one with the first call after the hold of the one before. */
  ghost predicate Visits(c: Config, calls: seq<Call>, vs: seq<Visit>) {
    && (forall k :: 0 <= k < |vs| ==> GoodVisit(c, calls, k, vs[k]))
    && (vs != [] ==> vs[0].start == 0)
    && forall j, k :: 0 <= j && k == j + 1 < |vs| ==> FirstAfterHold(c, calls, vs[j].hit, vs[k].start)
  }

  /** The start of the step after the visits. */
  ghost predicate NextStart(c: Config, calls: seq<Call>, vs: seq<Visit>, start: nat) {
    if vs == [] then start == 0 else FirstAfterHold(c, calls, vs[|vs| - 1].hit, start)
  }

  /** Every step was carried out, and the last hold is over. */
  ghost predicate CarriedOut(c: Config, calls: seq<Call>) {
    exists vs: seq<Visit>, next: nat :: |vs| == |c.steps| && Visits(c, calls, vs) && NextStart(c, calls, vs, next)
  }

  /** The step begun at `start` saw call `late` past its timeout before it reached its target. */
  ghost predicate LateAt(c: Config, calls: seq<Call>, k: nat, start: nat, late: nat) {
    && start <= late < |calls|
    && Underway(c, calls, k, start, late)
    && calls[late].at - calls[start].at >= c.stepTimeout
  }

  /** Some step timed out: it began on time, never reached its target, and a call came too late. */
  ghost predicate TimedOut(c: Config, calls: seq<Call>) {
    exists vs: seq<Visit>, start: nat, late: nat ::
      && |vs| < |c.steps| && Visits(c, calls, vs) && NextStart(c, calls, vs, start)
      && LateAt(c, calls, |vs|, start, late)
  }

  /** How an unfinished executor reads its first `n` calls. */
  ghost predicate Explains(c: Config, calls: seq<Call>, n: nat, e: Exec, vs: seq<Visit>, start: nat) {
    && |vs| == e.index < |c.steps| && !e.failed
    && Visits(c, calls, vs) && NextStart(c, calls, vs, start)
    && start < n <= |calls|
    && e.startedAt == Some(calls[start].at)
    && e.startPose == Some(CurrentPose(calls[start].m))
    && (e.holdUntil.None? ==> Underway(c, calls, e.index, start, n))
    && (e.holdUntil.Some? ==> exists hit: nat :: HoldingSince(c, calls, n, e, start, hit))
  }

  ghost predicate HoldingSince(c: Config, calls: seq<Call>, n: nat, e: Exec, start: nat, hit: nat) {
    && n <= |calls| && hit < n
    && GoodVisit(c, calls, e.index, Visit(start, hit))
    && e.holdUntil == Some(calls[hit].at + c.hold)
    && forall i :: hit < i < n ==> calls[i].at < calls[hit].at + c.hold
  }

  /** The reading of a history: unfinished, timed out or carried out. */
  ghost predicate Reads(c: Config, calls: seq<Call>, n: nat, e: Exec) {
    if e.failed then TimedOut(c, calls)
    else if IsDone(c, e) then CarriedOut(c, calls)
    else exists vs: seq<Visit>, start: nat :: Explains(c, calls, n, e, vs, start)
  }

  /** Tracking a step that is underway at call `n` keeps the reading. */
  lemma TrackReads(c: Config, limits: Limits, calls: seq<Call>, n: nat, e: Exec, vs: seq<Visit>, start: nat)
    requires ConfigOk(c) && n < |calls|
    requires |vs| == e.index < |c.steps| && !e.failed && e.holdUntil.None?
    requires Visits(c, calls, vs) && NextStart(c, calls, vs, start) && start <= n
    requires Underway(c, calls, e.index, start, n)
    requires
      if start == n then e.startedAt.None? && e.startPose.None?
      else e.startedAt == Some(calls[start].at) && e.startPose == Some(CurrentPose(calls[start].m))
    ensures Reads(c, calls, n + 1, Track(c, limits, e, CurrentPose(calls[n].m), calls[n].at).exec)
  {
    var x := Track(c, limits, e, CurrentPose(calls[n].m), calls[n].at).exec;
    ReachedIsLargestError(c, calls, e.index, start, n);
    if x.failed {
      assert LateAt(c, calls, |vs|, start, n);
    } else {
      if x.holdUntil.Some? {
        HoldBegins(c, calls, n, n + 1, x, start);
      }
      assert Explains(c, calls, n + 1, x, vs, start);
    }
  }

  lemma HoldBegins(c: Config, calls: seq<Call>, n: nat, end: nat, x: Exec, start: nat)
    requires end == n + 1 && n < |calls| && start <= n && x.index < |c.steps|
    requires Underway(c, calls, x.index, start, n) && Reached(c, calls, x.index, start, n)
    requires calls[n].at - calls[start].at < c.stepTimeout && x.holdUntil == Some(calls[n].at + c.hold)
    ensures exists hit: nat :: HoldingSince(c, calls, end, x, start, hit)
  {
    assert HoldingSince(c, calls, end, x, start, n);
  }

  /** Leaving a hold that is over closes the visit and begins the next step. */
  lemma LeaveHoldReads(
    c: Config, limits: Limits, calls: seq<Call>, n: nat, e: Exec, vs: seq<Visit>, start: nat, hit: nat)
    requires ConfigOk(c) && n < |calls|
    requires Explains(c, calls, n, e, vs, start) && HoldingSince(c, calls, n, e, start, hit)
    requires calls[n].at >= calls[hit].at + c.hold
    ensures Reads(c, calls, n + 1, Next(c, limits, e, calls[n].m, calls[n].at).exec)
  {
    var vs', left := vs + [Visit(start, hit)], Exec(e.index + 1, None, None, None, false);
    AddVisit(c, calls, vs, start, hit, n);
    if IsDone(c, left) {
      assert CarriedOut(c, calls);
    } else {
      TrackReads(c, limits, calls, n, left, vs', n);
    }
  }

  lemma NextReads(c: Config, limits: Limits, calls: seq<Call>, n: nat, e: Exec)
    requires ConfigOk(c) && n < |calls|
    requires Reads(c, calls, n, e)
    ensures Reads(c, calls, n + 1, Next(c, limits, e, calls[n].m, calls[n].at).exec)
  {
    if !Finished(c, e) {
      var vs: seq<Visit>, start: nat :| Explains(c, calls, n, e, vs, start);
      if e.holdUntil.None? {
        TrackReads(c, limits, calls, n, e, vs, start);
      } else {
        var hit: nat :| HoldingSince(c, calls, n, e, start, hit);
        if calls[n].at < e.holdUntil.value {
          StillHolding(c, calls, n, e, vs, start, hit);
        } else {
          LeaveHoldReads(c, limits, calls, n, e, vs, start, hit);
        }
      }
    }
  }

  lemma StillHolding(c: Config, calls: seq<Call>, n: nat, e: Exec, vs: seq<Visit>, start: nat, hit: nat)
    requires n < |calls|
    requires Explains(c, calls, n, e, vs, start) && HoldingSince(c, calls, n, e, start, hit)
    requires calls[n].at < calls[hit].at + c.hold
    ensures Explains(c, calls, n + 1, e, vs, start)
  {
    assert HoldingSince(c, calls, n + 1, e, start, hit);
  }

  lemma AddVisit(c: Config, calls: seq<Call>, vs: seq<Visit>, start: nat, hit: nat, next: nat)
    requires Visits(c, calls, vs) && NextStart(c, calls, vs, start)
    requires GoodVisit(c, calls, |vs|, Visit(start, hit)) && FirstAfterHold(c, calls, hit, next)
    ensures Visits(c, calls, vs + [Visit(start, hit)]) && NextStart(c, calls, vs + [Visit(start, hit)], next)
  {
    var longer := vs + [Visit(start, hit)];
    forall k | 0 <= k < |longer|
      ensures GoodVisit(c, calls, k, longer[k])
    {
      assert k < |vs| ==> GoodVisit(c, calls, k, vs[k]);
    }
  }

  lemma FirstReads(c: Config, limits: Limits, calls: seq<Call>, x: Exec)
    requires ConfigOk(c) && calls != [] && x == Next(c, limits, INITIAL, calls[0].m, calls[0].at).exec
    ensures Reads(c, calls, 1, x)
  {
    TrackReads(c, limits, calls, 0, INITIAL, [], 0);
  }

  lemma ReadsStep(c: Config, limits: Limits, calls: seq<Call>, m: nat, n: nat, e: Exec, x: Exec)
    requires ConfigOk(c) && n == m + 1 <= |calls|
    requires Reads(c, calls, m, e) && x == Next(c, limits, e, calls[m].m, calls[m].at).exec
    ensures Reads(c, calls, n, x)
  {
    NextReads(c, limits, calls, m, e);
  }

  lemma ExecutePrefix(c: Config, limits: Limits, e: Exec, calls: seq<Call>, m: nat, n: nat)
    requires n == m + 1 <= |calls|
    ensures
      Execute(c, limits, e, calls[..n])
      == Next(c, limits, Execute(c, limits, e, calls[..m]), calls[m].m, calls[m].at).exec
  {
    assert calls[..n][..m] == calls[..m];
  }

  lemma {:induction false} ExecuteReads(c: Config, limits: Limits, calls: seq<Call>, n: nat)
    requires ConfigOk(c) && 1 <= n <= |calls|
    ensures Reads(c, calls, n, Execute(c, limits, INITIAL, calls[..n]))
  {
    var before, x := Execute(c, limits, INITIAL, calls[..n - 1]), Execute(c, limits, INITIAL, calls[..n]);
    ExecutePrefix(c, limits, INITIAL, calls, n - 1, n);
    if n == 1 {
      FirstReads(c, limits, calls, x);
    } else {
      ExecuteReads(c, limits, calls, n - 1);
      ReadsStep(c, limits, calls, n - 1, n, before, x);
    }
  }

  // The visits of a history are determined by it.

  lemma SameHit(c: Config, calls: seq<Call>, k: nat, start: nat, a: nat, b: nat)
    requires GoodVisit(c, calls, k, Visit(start, a)) && GoodVisit(c, calls, k, Visit(start, b))
    ensures a == b
  {}

  lemma SameNext(c: Config, calls: seq<Call>, hit: nat, a: nat, b: nat)
    requires FirstAfterHold(c, calls, hit, a) && FirstAfterHold(c, calls, hit, b)
    ensures a == b
  {}

  lemma {:induction false} VisitsAgree(c: Config, calls: seq<Call>, vs: seq<Visit>, ws: seq<Visit>, k: nat)
    requires Visits(c, calls, vs) && Visits(c, calls, ws)
    requires k < |vs| && k < |ws|
    ensures vs[k] == ws[k]
  {
    if k > 0 {
      VisitsAgree(c, calls, vs, ws, k - 1);
      SameNext(c, calls, vs[k - 1].hit, vs[k].start, ws[k].start);
    }
    assert GoodVisit(c, calls, k, vs[k]) && GoodVisit(c, calls, k, ws[k]);
    SameHit(c, calls, k, vs[k].start, vs[k].hit, ws[k].hit);
  }

  lemma NextVisitStartsThere(c: Config, calls: seq<Call>, vs: seq<Visit>, start: nat, ws: seq<Visit>)
    requires Visits(c, calls, vs) && NextStart(c, calls, vs, start)
    requires Visits(c, calls, ws) && |vs| < |ws|
    ensures ws[|vs|].start == start
  {
    if vs != [] {
      VisitsAgree(c, calls, vs, ws, |vs| - 1);
      SameNext(c, calls, vs[|vs| - 1].hit, start, ws[|vs|].start);
    }
  }

  lemma SameStart(c: Config, calls: seq<Call>, vs: seq<Visit>, a: nat, ws: seq<Visit>, b: nat)
    requires Visits(c, calls, vs) && NextStart(c, calls, vs, a)
    requires Visits(c, calls, ws) && NextStart(c, calls, ws, b)
    requires |vs| == |ws|
    ensures a == b
  {
    if vs != [] {
      VisitsAgree(c, calls, vs, ws, |vs| - 1);
      SameNext(c, calls, vs[|vs| - 1].hit, a, b);
    }
  }

  /** No visit of the step begun at `start` is followed by a call after its hold. */
  ghost predicate StuckAt(c: Config, calls: seq<Call>, vs: seq<Visit>, start: nat) {
    && Visits(c, calls, vs) && NextStart(c, calls, vs, start)
    && forall hit: nat, next: nat ::
         !(GoodVisit(c, calls, |vs|, Visit(start, hit)) && FirstAfterHold(c, calls, hit, next))
  }

  /** A longer list of visits, with a start after it, goes on from `start`. */
  lemma LongerListMovesOn(c: Config, calls: seq<Call>, vs: seq<Visit>, start: nat, ws: seq<Visit>, next: nat)
    returns (hit: nat, after: nat)
    requires Visits(c, calls, vs) && NextStart(c, calls, vs, start)
    requires Visits(c, calls, ws) && NextStart(c, calls, ws, next) && |ws| > |vs|
    ensures GoodVisit(c, calls, |vs|, Visit(start, hit)) && FirstAfterHold(c, calls, hit, after)
  {
    var k := |vs|;
    NextVisitStartsThere(c, calls, vs, start, ws);
    assert GoodVisit(c, calls, k, ws[k]) && ws[k] == Visit(start, ws[k].hit);
    hit, after := ws[k].hit, if |ws| == k + 1 then next else ws[k + 1].start;
  }

  /** A history stuck at a step holds no longer list of visits with a start after them. */
  lemma StuckMeansNoMore(c: Config, calls: seq<Call>, vs: seq<Visit>, start: nat, ws: seq<Visit>, next: nat)
    requires StuckAt(c, calls, vs, start)
    requires Visits(c, calls, ws) && NextStart(c, calls, ws, next)
    ensures |ws| <= |vs|
  {
    if |ws| > |vs| {
      var hit, after := LongerListMovesOn(c, calls, vs, start, ws, next);
    }
  }

  lemma UnfinishedIsStuck(c: Config, calls: seq<Call>, e: Exec, vs: seq<Visit>, start: nat)
    requires Explains(c, calls, |calls|, e, vs, start)
    ensures StuckAt(c, calls, vs, start)
  {
    forall hit: nat, next: nat
      ensures !(GoodVisit(c, calls, |vs|, Visit(start, hit)) && FirstAfterHold(c, calls, hit, next))
    {
      if GoodVisit(c, calls, |vs|, Visit(start, hit)) && e.holdUntil.Some? {
        var h: nat :| HoldingSince(c, calls, |calls|, e, start, h);
        SameHit(c, calls, |vs|, start, h, hit);
      }
    }
  }

  lemma LateStepIsNeverReached(c: Config, calls: seq<Call>, k: nat, start: nat, late: nat, hit: nat)
    requires LateAt(c, calls, k, start, late)
    ensures !GoodVisit(c, calls, k, Visit(start, hit))
  {}

  lemma TimedOutIsStuck(c: Config, calls: seq<Call>, vs: seq<Visit>, start: nat, late: nat)
    requires Visits(c, calls, vs) && NextStart(c, calls, vs, start)
    requires LateAt(c, calls, |vs|, start, late)
    ensures StuckAt(c, calls, vs, start)
  {
    forall hit: nat
      ensures !GoodVisit(c, calls, |vs|, Visit(start, hit))
    {
      LateStepIsNeverReached(c, calls, |vs|, start, late, hit);
    }
  }

  lemma TimedOutIsNotCarriedOut(c: Config, calls: seq<Call>)
    ensures !(TimedOut(c, calls) && CarriedOut(c, calls))
  {
    if TimedOut(c, calls) && CarriedOut(c, calls) {
      var vs: seq<Visit>, start: nat, late: nat :|
        && |vs| < |c.steps| && Visits(c, calls, vs) && NextStart(c, calls, vs, start)
        && LateAt(c, calls, |vs|, start, late);
      var ws: seq<Visit>, next: nat :| |ws| == |c.steps| && Visits(c, calls, ws) && NextStart(c, calls, ws, next);
      TimedOutIsStuck(c, calls, vs, start, late);
      StuckMeansNoMore(c, calls, vs, start, ws, next);
      assert false;
    }
  }

  lemma UnfinishedIsNeither(c: Config, calls: seq<Call>, e: Exec, vs: seq<Visit>, start: nat)
    requires Explains(c, calls, |calls|, e, vs, start)
    ensures !CarriedOut(c, calls) && !TimedOut(c, calls)
  {
    UnfinishedIsStuck(c, calls, e, vs, start);
    if CarriedOut(c, calls) {
      var ws: seq<Visit>, next: nat :| |ws| == |c.steps| && Visits(c, calls, ws) && NextStart(c, calls, ws, next);
      StuckMeansNoMore(c, calls, vs, start, ws, next);
      assert false;
    }
    if TimedOut(c, calls) {
      var ws: seq<Visit>, s: nat, late: nat :|
        |ws| < |c.steps| && Visits(c, calls, ws) && NextStart(c, calls, ws, s) && LateAt(c, calls, |ws|, s, late);
      StuckMeansNoMore(c, calls, vs, start, ws, s);
      if |ws| < |vs| {
        NextVisitStartsThere(c, calls, ws, s, vs);
        assert GoodVisit(c, calls, |ws|, vs[|ws|]);
        LateStepIsNeverReached(c, calls, |ws|, s, late, vs[|ws|].hit);
      } else {
        SameStart(c, calls, vs, start, ws, s);
        if e.holdUntil.Some? {
          var hit: nat :| HoldingSince(c, calls, |calls|, e, start, hit);
          LateStepIsNeverReached(c, calls, |vs|, s, late, hit);
        }
      }
      assert false;
    }
  }

  /** An executor is done exactly when its calls carried out every step in order: each step
      began with the first call after the hold before it, some later call found all
      participating axes within tolerance of the clamped target taken from the pose at the
      beginning, before the timeout, and the hold after it passed. It has failed exactly when
      some step, reached in that way, saw a call past its timeout first. */
  lemma DoneAndFailedMean(c: Config, limits: Limits, calls: seq<Call>)
    requires ConfigOk(c) && calls != []
    ensures
      var e := Execute(c, limits, INITIAL, calls);
      && (!e.failed && IsDone(c, e) <==> CarriedOut(c, calls))
      && (e.failed <==> TimedOut(c, calls))
  {
    var e := Execute(c, limits, INITIAL, calls);
    assert calls[..|calls|] == calls;
    ExecuteReads(c, limits, calls, |calls|);
    TimedOutIsNotCarriedOut(c, calls);
    if !Finished(c, e) {
      var vs: seq<Visit>, start: nat :| Explains(c, calls, |calls|, e, vs, start);
      UnfinishedIsNeither(c, calls, e, vs, start);
    }
  }

  lemma SwingNeverReached(c: Config, calls: seq<Call>, k: nat, start: nat, i: nat)
    requires ConfigOk(c) && k < |c.steps| && start < |calls| && i < |calls|
    requires Abs(Clamp(c.steps[k].delta[3])) > c.tolerance
    ensures !Reached(c, calls, k, start, i)
  {
    var e := ErrorsAt(c, calls, k, start, i);
    assert Abs(e[3]) > c.tolerance;
  }

  /** A swing move larger than the tolerance is never carried out: the axis is not measured. */
  lemma LargeSwingNeverFinishes(c: Config, limits: Limits, calls: seq<Call>, k: nat)
    requires ConfigOk(c) && calls != [] && k < |c.steps|
    requires Abs(Clamp(c.steps[k].delta[3])) > c.tolerance
    ensures var e := Execute(c, limits, INITIAL, calls); e.failed || !IsDone(c, e)
  {
    DoneAndFailedMean(c, limits, calls);
    if CarriedOut(c, calls) {
      var vs: seq<Visit>, next: nat :| |vs| == |c.steps| && Visits(c, calls, vs) && NextStart(c, calls, vs, next);
      assert GoodVisit(c, calls, k, vs[k]);
      SwingNeverReached(c, calls, k, vs[k].start, vs[k].hit);
    }
  }

  // ------------------------------------------------------------------ what a call commands

  predicate PositiveSpeeds(limits: Limits) {
    forall i :: 0 <= i < AXES ==> limits[i].positive > 0.0 && limits[i].negative > 0.0
  }

  /** The axis takes no part in the step. */
  predicate Locked(c: Config, k: nat, axis: nat)
    requires k < |c.steps| && axis < AXES
  {
    c.lockZeroAxes && Abs(c.steps[k].delta[axis]) <= ZERO_DELTA
  }

  /** How far the axis is from where step `k`, begun at pose `start`, wants it. */
  function OffTarget(c: Config, k: nat, start: Pose, pose: Pose, axis: nat): real
    requires k < |c.steps| && axis < AXES
  {
    Clamp(start[axis] + c.steps[k].delta[axis]) - pose[axis]
  }

  /** The normalized speed for a distance: proportional, within the action bounds. */
  function Speed(c: Config, distance: real): real {
    var largest := Clamp(c.maxAction, 0.01, 1.0);
    Clamp(c.kp * distance, Clamp(c.minAction, 0.0, largest), largest)
  }

  /** A command towards something `off` away: at the speed for the distance times the limit of
      the direction. */
  predicate DrivesTowards(off: real, speed: real, limit: SpeedLimit, value: real) {
    if off > 0.0 then value == speed * limit.positive && value > 0.0
    else value == -speed * limit.negative && value < 0.0
  }

  /** What axis `axis` is commanded in step `k`: nothing exactly when it is locked or within the
      tolerance of its target; otherwise towards its own target, at the speed for its distance
      times the limit of that direction. */
  predicate AxisIsCommanded(c: Config, limits: Limits, k: nat, start: Pose, pose: Pose, axis: nat, value: real)
    requires k < |c.steps| && axis < AXES
  {
    var off := OffTarget(c, k, start, pose, axis);
    if Locked(c, k, axis) || Abs(off) <= c.tolerance then value == 0.0
    else DrivesTowards(off, Speed(c, Abs(off)), limits[axis], value)
  }

  lemma SpeedIsPositive(c: Config, distance: real)
    requires ConfigOk(c) && distance > 0.0
    ensures 0.0 < Speed(c, distance) <= 1.0
  {
    ProductPositive(c.kp, distance);
  }

  lemma ServoSpeed(c: Config, error: real)
    requires ConfigOk(c)
    ensures
      ServoAxis(c, error) ==
      if Abs(error) <= c.tolerance then 0.0 else if error > 0.0 then Speed(c, error) else -Speed(c, -error)
  {
    if error > 0.0 {
      ProductPositive(c.kp, error);
    } else if error < 0.0 {
      ProductPositive(c.kp, -error);
      assert c.kp * (-error) == -(c.kp * error);
    }
  }

  lemma VelocityOfSpeed(limit: SpeedLimit, speed: real)
    requires 0.0 < speed <= 1.0 && limit.positive > 0.0 && limit.negative > 0.0
    ensures AxisVelocity(speed, limit) == speed * limit.positive > 0.0
    ensures AxisVelocity(-speed, limit) == -speed * limit.negative < 0.0
  {
    ProductPositive(speed, limit.positive);
    ProductPositive(speed, limit.negative);
    assert (-speed) * limit.negative == -(speed * limit.negative);
  }

  lemma AxisCommand(c: Config, limit: SpeedLimit, error: real)
    requires ConfigOk(c) && limit.positive > 0.0 && limit.negative > 0.0 && Abs(error) > c.tolerance
    ensures DrivesTowards(error, Speed(c, Abs(error)), limit, AxisVelocity(ServoAxis(c, error), limit))
  {
    ServoSpeed(c, error);
    SpeedIsPositive(c, Abs(error));
    VelocityOfSpeed(limit, Speed(c, Abs(error)));
  }

  lemma StillAxis(c: Config, limit: SpeedLimit, error: real)
    requires Abs(error) <= c.tolerance
    ensures AxisVelocity(ServoAxis(c, error), limit) == 0.0
  {
    NoSpeed(limit.positive);
  }

  lemma NoSpeed(limit: real)
    ensures 0.0 * limit == 0.0
  {}

  lemma TrackCommands(c: Config, limits: Limits, e: Exec, pose: Pose, now: real, axis: nat)
    requires ConfigOk(c) && PositiveSpeeds(limits) && e.index < |c.steps| && axis < AXES
    requires e.startedAt.Some? ==> e.startPose.Some?
    requires Track(c, limits, e, pose, now).status.phase == Running
    ensures
      var o := Track(c, limits, e, pose, now);
      && o.exec.startPose.Some? && o.exec.index == e.index
      && AxisIsCommanded(c, limits, e.index, o.exec.startPose.value, pose, axis, o.action[axis])
  {
    var o := Track(c, limits, e, pose, now);
    var start := o.exec.startPose.value;
    var error := Errors(c, c.steps[e.index], start, pose)[axis];
    if Abs(error) <= c.tolerance {
      StillAxis(c, limits[axis], error);
    } else {
      AxisCommand(c, limits[axis], error);
    }
  }

  lemma NextCommands(c: Config, limits: Limits, e: Exec, m: Measurement, now: real, axis: nat)
    requires ConfigOk(c) && PositiveSpeeds(limits) && axis < AXES
    requires e.startedAt.Some? ==> e.startPose.Some?
    requires Next(c, limits, e, m, now).status.phase == Running
    ensures
      var o := Next(c, limits, e, m, now);
      && o.exec.startPose.Some? && o.exec.index < |c.steps|
      && AxisIsCommanded(c, limits, o.exec.index, o.exec.startPose.value, CurrentPose(m), axis, o.action[axis])
  {
    if e.holdUntil.Some? {
      TrackCommands(c, limits, Exec(e.index + 1, None, None, None, false), CurrentPose(m), now, axis);
    } else {
      TrackCommands(c, limits, e, CurrentPose(m), now, axis);
    }
  }

  /** The report of a call describes the executor it leaves: its step, whether it is done or has
      failed, and whether it holds or drives; and only a driving call commands anything. */
  lemma StatusDescribesState(c: Config, limits: Limits, e: Exec, m: Measurement, now: real)
    ensures
      var o := Next(c, limits, e, m, now);
      && o.status.index == o.exec.index
      && o.status.done == (o.status.phase == Done) && o.status.failed == (o.status.phase == Failed)
      && (o.status.phase == Failed <==> o.exec.failed)
      && (o.status.phase == Done <==> !o.exec.failed && IsDone(c, o.exec))
      && (o.status.phase == Holding <==> !Finished(c, o.exec) && o.exec.holdUntil.Some?)
      && (o.status.phase == Running <==> !Finished(c, o.exec) && o.exec.holdUntil.None?)
      && (o.status.phase != Running ==> o.action == ZERO_ACTION)
  {}

  /** The last of some calls, as the executor answers it. */
  function LastOutcome(c: Config, limits: Limits, calls: seq<Call>): Outcome
    requires calls != []
  {
    var n := |calls| - 1;
    Next(c, limits, Execute(c, limits, INITIAL, calls[..n]), calls[n].m, calls[n].at)
  }

  /** Step `k` is under way since call `start`, in which it began. */
  ghost predicate BeganAt(c: Config, calls: seq<Call>, k: nat, start: nat) {
    exists vs: seq<Visit> :: |vs| == k && Visits(c, calls, vs) && NextStart(c, calls, vs, start)
  }

  lemma {:induction false} PoseIsKept(c: Config, limits: Limits, calls: seq<Call>)
    ensures
      var e := Execute(c, limits, INITIAL, calls);
      e.startedAt.Some? ==> e.startPose.Some?
  {
    if calls != [] {
      PoseIsKept(c, limits, calls[..|calls| - 1]);
    }
  }

  lemma WhereRunning(c: Config, limits: Limits, calls: seq<Call>) returns (start: nat)
    requires ConfigOk(c) && calls != [] && LastOutcome(c, limits, calls).status.phase == Running
    ensures
      var e := LastOutcome(c, limits, calls).exec;
      && start < |calls| && e.index < |c.steps| && BeganAt(c, calls, e.index, start)
      && e.startPose == Some(CurrentPose(calls[start].m))
  {
    var n := |calls| - 1;
    var e := LastOutcome(c, limits, calls).exec;
    StatusDescribesState(c, limits, Execute(c, limits, INITIAL, calls[..n]), calls[n].m, calls[n].at);
    assert calls[..|calls|] == calls && e == Execute(c, limits, INITIAL, calls);
    ExecuteReads(c, limits, calls, |calls|);
    var vs: seq<Visit>, s: nat :| Explains(c, calls, |calls|, e, vs, s);
    start := s;
  }

  /** Every axis is commanded by its own distance. */
  predicate AxesAreCommanded(c: Config, limits: Limits, k: nat, start: Pose, pose: Pose, action: Pose)
    requires k < |c.steps|
  {
    forall axis: nat :: axis < AXES ==> AxisIsCommanded(c, limits, k, start, pose, axis, action[axis])
  }

  lemma AllCommands(c: Config, limits: Limits, e: Exec, m: Measurement, now: real, o: Outcome)
    requires ConfigOk(c) && PositiveSpeeds(limits)
    requires e.startedAt.Some? ==> e.startPose.Some?
    requires o == Next(c, limits, e, m, now) && o.status.phase == Running
    ensures o.exec.startPose.Some? && o.exec.index < |c.steps|
    ensures AxesAreCommanded(c, limits, o.exec.index, o.exec.startPose.value, CurrentPose(m), o.action)
  {
    NextCommands(c, limits, e, m, now, 0);
    forall axis: nat | axis < AXES
      ensures AxisIsCommanded(
                c, limits, o.exec.index, o.exec.startPose.value, CurrentPose(m), axis, o.action[axis])
    {
      NextCommands(c, limits, e, m, now, axis);
    }
  }

  /** Every driving call of every run commands each axis by its own distance: from the measured
      position to the clamped target that its step took from the pose of the call in which it
      began. */
  lemma RunningActionMeans(c: Config, limits: Limits, calls: seq<Call>) returns (start: nat)
    requires ConfigOk(c) && PositiveSpeeds(limits) && calls != []
    requires LastOutcome(c, limits, calls).status.phase == Running
    ensures
      var o := LastOutcome(c, limits, calls);
      && start < |calls| && o.status.index < |c.steps| && BeganAt(c, calls, o.status.index, start)
      && AxesAreCommanded(
           c, limits, o.status.index, CurrentPose(calls[start].m), CurrentPose(calls[|calls| - 1].m), o.action)
  {
    var n := |calls| - 1;
    var before := Execute(c, limits, INITIAL, calls[..n]);
    start := WhereRunning(c, limits, calls);
    PoseIsKept(c, limits, calls[..n]);
    StatusDescribesState(c, limits, before, calls[n].m, calls[n].at);
    AllCommands(c, limits, before, calls[n].m, calls[n].at, LastOutcome(c, limits, calls));
  }

  // ------------------------------------------------------------ which sequences can finish

  predicate InOrder(calls: seq<Call>) {
    forall i, j :: 0 <= i < j < |calls| ==> calls[i].at <= calls[j].at
  }

  /** Calls that bring a new executor to its end. */
  predicate Completes(c: Config, limits: Limits, calls: seq<Call>) {
    var e := Execute(c, limits, INITIAL, calls);
    calls != [] && InOrder(calls) && !e.failed && IsDone(c, e)
  }

  /** Every swing move is within the tolerance once clamped. */
  predicate SwingWithinTolerance(c: Config) {
    forall k :: 0 <= k < |c.steps| ==> Abs(Clamp(c.steps[k].delta[3])) <= c.tolerance
  }

  const ORIGIN := Measurement(0.0, 0.0, 0.0)

  /** Step `k` begun at the origin at time `t`. */
  function Begun(c: Config, limits: Limits, k: nat, t: real): Exec
    requires k < |c.steps|
  {
    Track(c, limits, Exec(k, None, None, None, false), CurrentPose(ORIGIN), t).exec
  }

  /** Step `k` reached at time `t`. */
  function Held(c: Config, k: nat, t: real): Exec {
    Exec(k, Some(t), Some(t + c.hold), Some(CurrentPose(ORIGIN)), false)
  }

  /** The clamped target of a step that began at the origin. */
  function TargetOf(step: Step): Measurement {
    Measurement(Clamp(step.delta[0]), Clamp(step.delta[1]), Clamp(step.delta[2]))
  }

  lemma TargetIsReached(c: Config, k: nat)
    requires ConfigOk(c) && k < |c.steps| && Abs(Clamp(c.steps[k].delta[3])) <= c.tolerance
    ensures LargestError(Errors(c, c.steps[k], CurrentPose(ORIGIN), CurrentPose(TargetOf(c.steps[k])))) <= c.tolerance
  {
    var errors := Errors(c, c.steps[k], CurrentPose(ORIGIN), CurrentPose(TargetOf(c.steps[k])));
    assert Abs(errors[0]) <= c.tolerance && Abs(errors[1]) <= c.tolerance;
    assert Abs(errors[2]) <= c.tolerance && Abs(errors[3]) <= c.tolerance;
  }

  /** At most one more call, at the clamped target, ends the step. */
  lemma ReachHold(c: Config, limits: Limits, k: nat, t: real) returns (more: seq<Call>)
    requires ConfigOk(c) && k < |c.steps| && Abs(Clamp(c.steps[k].delta[3])) <= c.tolerance
    ensures Execute(c, limits, Begun(c, limits, k, t), more) == Held(c, k, t)
    ensures |more| <= 1 && forall x <- more :: x.at == t
  {
    if Begun(c, limits, k, t).holdUntil.Some? {
      more := [];
    } else {
      var call := Call(TargetOf(c.steps[k]), t);
      TargetIsReached(c, k);
      assert [call][..0] == [];
      more := [call];
    }
  }

  /** `Execute` for any step function. */
  function Fold(step: (Exec, Call) -> Exec, e: Exec, calls: seq<Call>): Exec {
    if calls == [] then e else step(Fold(step, e, calls[..|calls| - 1]), calls[|calls| - 1])
  }

  lemma {:induction false} FoldJoin(step: (Exec, Call) -> Exec, e: Exec, a: seq<Call>, b: seq<Call>)
    ensures Fold(step, e, a + b) == Fold(step, Fold(step, e, a), b)
  {
    if b == [] {
      assert a + b == a;
    } else {
      FoldJoin(step, e, a, b[..|b| - 1]);
      assert (a + b)[..|a + b| - 1] == a + b[..|b| - 1];
    }
  }

  ghost predicate TakesSteps(c: Config, limits: Limits, step: (Exec, Call) -> Exec) {
    forall e: Exec, call: Call :: step(e, call) == Next(c, limits, e, call.m, call.at).exec
  }

  lemma {:induction false} ExecuteIsFold(
    c: Config, limits: Limits, step: (Exec, Call) -> Exec, e: Exec, calls: seq<Call>)
    requires TakesSteps(c, limits, step)
    ensures Execute(c, limits, e, calls) == Fold(step, e, calls)
  {
    if calls != [] {
      ExecuteIsFold(c, limits, step, e, calls[..|calls| - 1]);
    }
  }

  lemma ExecuteJoin(c: Config, limits: Limits, e: Exec, a: seq<Call>, b: seq<Call>, x: Exec)
    requires x == Execute(c, limits, e, a)
    ensures Execute(c, limits, e, a + b) == Execute(c, limits, x, b)
  {
    var step := (s: Exec, call: Call) => Next(c, limits, s, call.m, call.at).exec;
    FoldJoin(step, e, a, b);
    ExecuteIsFold(c, limits, step, e, a);
    ExecuteIsFold(c, limits, step, e, a + b);
    ExecuteIsFold(c, limits, step, x, b);
  }

  /** The calls that begin step `k` in state `e` at time `t` and carry it out. */
  lemma CarryOut(c: Config, limits: Limits, e: Exec, k: nat, t: real) returns (calls: seq<Call>)
    requires ConfigOk(c) && k < |c.steps| && Abs(Clamp(c.steps[k].delta[3])) <= c.tolerance
    requires Next(c, limits, e, ORIGIN, t).exec == Begun(c, limits, k, t)
    ensures Execute(c, limits, e, calls) == Held(c, k, t)
    ensures calls != [] && forall x <- calls :: x.at == t
  {
    var more := ReachHold(c, limits, k, t);
    var call := Call(ORIGIN, t);
    assert [call][..0] == [];
    ExecuteJoin(c, limits, e, [call], more, Begun(c, limits, k, t));
    calls := [call] + more;
  }

  lemma OrderedJoin(a: seq<Call>, b: seq<Call>, t: real)
    requires InOrder(a) && (forall x <- a :: x.at <= t) && (forall x <- b :: x.at == t)
    ensures InOrder(a + b) && forall x <- a + b :: x.at <= t
  {
    forall i, j | 0 <= i < j < |a + b|
      ensures (a + b)[i].at <= (a + b)[j].at
    {
      if j >= |a| {
        assert (a + b)[j] in b && ((a + b)[i] in a || (a + b)[i] in b);
      }
    }
  }

  /** Leaving the hold of a step begins the next one. */
  lemma HoldLeadsOn(c: Config, limits: Limits, k: nat, t: real)
    requires k + 1 < |c.steps|
    ensures Next(c, limits, Held(c, k, t), ORIGIN, t + c.hold).exec == Begun(c, limits, k + 1, t + c.hold)
  {}

  lemma StartLeadsOn(c: Config, limits: Limits, t: real)
    requires |c.steps| > 0
    ensures Next(c, limits, INITIAL, ORIGIN, t).exec == Begun(c, limits, 0, t)
  {}

  /** From calls that leave the executor in `e` to calls that carry out step `k` as well. */
  lemma CarryOutAfter(c: Config, limits: Limits, before: seq<Call>, e: Exec, k: nat, t: real) returns (calls: seq<Call>)
    requires ConfigOk(c) && k < |c.steps| && Abs(Clamp(c.steps[k].delta[3])) <= c.tolerance
    requires Execute(c, limits, INITIAL, before) == e && InOrder(before) && forall x <- before :: x.at <= t
    requires Next(c, limits, e, ORIGIN, t).exec == Begun(c, limits, k, t)
    ensures Execute(c, limits, INITIAL, calls) == Held(c, k, t)
    ensures calls != [] && InOrder(calls) && forall x <- calls :: x.at <= t
  {
    var more := CarryOut(c, limits, e, k, t);
    ExecuteJoin(c, limits, INITIAL, before, more, e);
    OrderedJoin(before, more, t);
    calls := before + more;
  }

  lemma CarryOutFirst(c: Config, limits: Limits, t: real) returns (calls: seq<Call>)
    requires ConfigOk(c) && SwingWithinTolerance(c)
    ensures Execute(c, limits, INITIAL, calls) == Held(c, 0, t)
    ensures calls != [] && InOrder(calls) && forall x <- calls :: x.at <= t
  {
    StartLeadsOn(c, limits, t);
    calls := CarryOutAfter(c, limits, [], INITIAL, 0, t);
  }

  lemma CarryOutNext(c: Config, limits: Limits, before: seq<Call>, k: nat, at: real, t: real) returns (calls: seq<Call>)
    requires ConfigOk(c) && k + 1 < |c.steps| && SwingWithinTolerance(c) && t == at + c.hold
    requires Execute(c, limits, INITIAL, before) == Held(c, k, at)
    requires InOrder(before) && forall x <- before :: x.at <= at
    ensures Execute(c, limits, INITIAL, calls) == Held(c, k + 1, t)
    ensures calls != [] && InOrder(calls) && forall x <- calls :: x.at <= t
  {
    HoldLeadsOn(c, limits, k, at);
    calls := CarryOutAfter(c, limits, before, Held(c, k, at), k + 1, t);
  }

  lemma {:induction false} CarryOutUpTo(c: Config, limits: Limits, k: nat) returns (calls: seq<Call>, t: real)
    requires ConfigOk(c) && k < |c.steps| && SwingWithinTolerance(c)
    ensures Execute(c, limits, INITIAL, calls) == Held(c, k, t)
    ensures calls != [] && InOrder(calls) && forall x <- calls :: x.at <= t
  {
    if k == 0 {
      t := 0.0;
      calls := CarryOutFirst(c, limits, t);
    } else {
      var before, at := CarryOutUpTo(c, limits, k - 1);
      t := at + c.hold;
      calls := CarryOutNext(c, limits, before, k - 1, at, t);
    }
  }

  /** Some calls bring the executor to its end if and only if every swing move of the sequence,
      clamped, is within the tolerance: whatever the other axes are asked to do, following each
      start pose with its clamped target carries the step out. */
  lemma SwingDecidesCompletion(c: Config, limits: Limits)
    requires ConfigOk(c)
    ensures (exists calls: seq<Call> :: Completes(c, limits, calls)) <==> SwingWithinTolerance(c)
  {
    if SwingWithinTolerance(c) {
      var k := |c.steps| - 1;
      var calls, t := CarryOutUpTo(c, limits, k);
      var last := [Call(ORIGIN, t + c.hold)];
      assert last[..0] == [];
      ExecuteJoin(c, limits, INITIAL, calls, last, Held(c, k, t));
      OrderedJoin(calls, last, t + c.hold);
      assert Completes(c, limits, calls + last);
    } else {
      var k: nat :| k < |c.steps| && Abs(Clamp(c.steps[k].delta[3])) > c.tolerance;
      forall calls: seq<Call>
        ensures !Completes(c, limits, calls)
      {
        if calls != [] {
          LargeSwingNeverFinishes(c, limits, calls, k);
        }
      }
    }
  }

  // ------------------------------------------------------------------ what is ever loaded

  const ZERO_MOVE := 0.000000001

  datatype Controller = Controller(
    kp: real, minAction: real, maxAction: real, tolerance: real, stepTimeout: real, hold: real)

  predicate ControllerAccepted(c: Controller) {
    && 0.0 < c.kp <= 100.0
    && 0.0 <= c.minAction <= c.maxAction <= 1.0
    && 0.0 < c.tolerance <= 1.0
    && 0.0 < c.stepTimeout <= 60.0
    && 0.0 <= c.hold <= 10.0
  }

  /** A sequence is not empty, its moves are bounded and none is all zero. */
  predicate StepsAccepted(steps: seq<Step>) {
    && steps != []
    && forall k :: 0 <= k < |steps| ==>
         && (forall a :: 0 <= a < AXES ==> Abs(steps[k].delta[a]) <= 2.0)
         && (exists a :: 0 <= a < AXES && Abs(steps[k].delta[a]) > ZERO_MOVE)
  }

  /** The checks of the profile loader on the controller and the two sequences. */
  predicate ProfileAccepted(controller: Controller, dig: seq<Step>, dump: seq<Step>) {
    && ControllerAccepted(controller) && StepsAccepted(dig) && StepsAccepted(dump)
    && forall k :: 0 <= k < |dig + dump| ==> Abs((dig + dump)[k].delta[3]) <= ZERO_MOVE
  }

  /** The executor's configuration for a loaded sequence. */
  function LoadedConfig(controller: Controller, steps: seq<Step>): Option<Config> {
    MakeConfig(steps, controller.kp, controller.minAction, controller.maxAction,
               controller.tolerance, controller.stepTimeout, controller.hold, true)
  }

  /** Every sequence the loader accepts can be carried out: the refusal of swing moves is what
      keeps the unmeasured axis from blocking the executor for ever. */
  lemma LoadedSequencesCanComplete(
    controller: Controller, dig: seq<Step>, dump: seq<Step>, steps: seq<Step>, limits: Limits)
    requires ProfileAccepted(controller, dig, dump) && (steps == dig || steps == dump)
    ensures LoadedConfig(controller, steps).Some?
    ensures exists calls: seq<Call> :: Completes(LoadedConfig(controller, steps).value, limits, calls)
  {
    var c := LoadedConfig(controller, steps).value;
    forall k | 0 <= k < |steps|
      ensures Abs(Clamp(steps[k].delta[3])) <= c.tolerance
    {
      assert steps[k] == (dig + dump)[if steps == dig then k else |dig| + k];
    }
    SwingDecidesCompletion(c, limits);
  }
}
