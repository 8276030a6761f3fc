/** The state-gated command sink and the Follow envelope (`runtime_bridge/live_control.py`). */
module CommandSink {
  import opened Geometry
  import opened Wrappers
  import opened FixedActions

  const SLACK := 0.000000000001

  datatype Safety = Safety(estop: bool, stm32Alive: bool, sensorValid: bool, faultFlags: bool, controlEnabled: bool)

  datatype MachineState = MachineState(seqNo: int, safety: Safety)

  datatype Reason =
    | Disarmed | StateOutOfOrder | StateStale
    | Estop | Stm32NotAlive | SensorInvalid | FaultFlags | ControlDisabled
    | Motion
    | AxisLocked | EnvelopeViolation | EnvelopeValid

  datatype Decision = Decision(allowed: bool, reason: Reason)

  function EvaluateMotionState(state: MachineState): Decision {
    var s := state.safety;
    if s.estop then Decision(false, Estop)
    else if !s.stm32Alive then Decision(false, Stm32NotAlive)
    else if !s.sensorValid then Decision(false, SensorInvalid)
    else if s.faultFlags then Decision(false, FaultFlags)
    else if !s.controlEnabled then Decision(false, ControlDisabled)
    else Decision(true, Motion)
  }

  predicate AllFlagsGood(s: Safety) {
    !s.estop && s.stm32Alive && s.sensorValid && !s.faultFlags && s.controlEnabled
  }

  /** An axis mask with directional speed bounds. */
  datatype Envelope = Envelope(allowed: seq<bool>, minimum: Pose, maximum: Pose)

  type AxisMask = m: seq<bool> | |m| == AXES witness [false, false, false, false]

  /** The envelope of a machine profile; locked axes have empty ranges. */
  function EnvelopeOf(allowed: AxisMask, limits: Limits): Envelope {
    Envelope(
      allowed,
      seq(AXES, i requires 0 <= i < AXES => if allowed[i] then -limits[i].negative else 0.0),
      seq(AXES, i requires 0 <= i < AXES => if allowed[i] then limits[i].positive else 0.0))
  }

  /** The policy output with locked axes zeroed; refused when it is not a normalized action. */
  function ApplyNormalized(e: Envelope, raw: seq<real>): Option<Pose>
    requires |e.allowed| == AXES
  {
    if |raw| != AXES || exists i :: 0 <= i < |raw| && Abs(raw[i]) > 1.0 then None
    else Some(seq(AXES, i requires 0 <= i < AXES => if e.allowed[i] then raw[i] else 0.0))
  }

  /** The verdict on axes `from` onwards: the first offending axis decides. */
  function EvaluateFrom(e: Envelope, values: Pose, axis: nat): Decision
    requires |e.allowed| == AXES && axis <= AXES
    decreases AXES - axis
  {
    if axis == AXES then Decision(true, EnvelopeValid)
    else if !e.allowed[axis] && values[axis] != 0.0 then Decision(false, AxisLocked)
    else if values[axis] < e.minimum[axis] - SLACK || values[axis] > e.maximum[axis] + SLACK then
      Decision(false, EnvelopeViolation)
    else EvaluateFrom(e, values, axis + 1)
  }

  function EvaluatePhysical(e: Envelope, values: Pose): Decision
    requires |e.allowed| == AXES
  {
    EvaluateFrom(e, values, 0)
  }

  predicate InEnvelope(e: Envelope, values: Pose)
    requires |e.allowed| == AXES
  {
    forall i :: 0 <= i < AXES ==>
      (e.allowed[i] || values[i] == 0.0) && e.minimum[i] - SLACK <= values[i] <= e.maximum[i] + SLACK
  }

  /** The envelope allows exactly the actions with no moving locked axis and every axis within
      its bounds. */
  lemma {:induction false} EvaluatePhysicalIsInEnvelope(e: Envelope, values: Pose)
    requires |e.allowed| == AXES
    ensures EvaluatePhysical(e, values).allowed <==> InEnvelope(e, values)
  {
    EvaluateFromIs(e, values, 0);
  }

  lemma {:induction false} EvaluateFromIs(e: Envelope, values: Pose, axis: nat)
    requires |e.allowed| == AXES && axis <= AXES
    ensures EvaluateFrom(e, values, axis).allowed <==>
      forall i :: axis <= i < AXES ==>
        (e.allowed[i] || values[i] == 0.0) && e.minimum[i] - SLACK <= values[i] <= e.maximum[i] + SLACK
    decreases AXES - axis
  {
    if axis < AXES {
      EvaluateFromIs(e, values, axis + 1);
    }
  }

  /** Speed limits as a valid profile gives them. */
  predicate PositiveLimits(limits: Limits) {
    forall i :: 0 <= i < AXES ==> limits[i].positive > 0.0 && limits[i].negative > 0.0
  }

  /** The largest speed per axis, used by the sink. */
  function SinkLimits(limits: Limits): Pose {
    seq(AXES, i requires 0 <= i < AXES => Max(Abs(limits[i].positive), Abs(limits[i].negative)))
  }

  /** Whatever normalized action the policy produces, its masked physical form passes the
      envelope it was masked with and never exceeds the sink's own limits. */
  lemma PolicyActionsPassEnvelope(allowed: AxisMask, limits: Limits, raw: seq<real>)
    requires PositiveLimits(limits)
    ensures
      var e := EnvelopeOf(allowed, limits);
      var applied := ApplyNormalized(e, raw);
      && (applied.None? <==> |raw| != AXES || exists i :: 0 <= i < |raw| && Abs(raw[i]) > 1.0)
      && (applied.Some? ==>
            var physical := Velocities(applied.value, limits);
            && EvaluatePhysical(e, physical).allowed
            && forall i :: 0 <= i < AXES ==> Abs(physical[i]) <= SinkLimits(limits)[i])
  {
    var e := EnvelopeOf(allowed, limits);
    var applied := ApplyNormalized(e, raw);
    if applied.Some? {
      var physical := Velocities(applied.value, limits);
      forall i | 0 <= i < AXES
        ensures Abs(physical[i]) <= SinkLimits(limits)[i]
        ensures (e.allowed[i] || physical[i] == 0.0) && e.minimum[i] <= physical[i] <= e.maximum[i]
      {
        VelocityWithinLimits(applied.value[i], limits[i]);
        VelocityInRange(applied.value[i], limits[i]);
      }
      EvaluatePhysicalIsInEnvelope(e, physical);
    }
  }

  lemma VelocityInRange(v: real, limit: SpeedLimit)
    requires limit.positive > 0.0 && limit.negative > 0.0
    ensures -limit.negative <= AxisVelocity(v, limit) <= limit.positive
    ensures v == 0.0 ==> AxisVelocity(v, limit) == 0.0
  {
    var n := Clamp(v);
    if n >= 0.0 {
      ScaledDown(n, limit.positive);
      ProductNonNegative(n, limit.positive);
    } else {
      ScaledDown(n, limit.negative);
      ProductNonNegative(-n, limit.negative);
      assert n * limit.negative == -((-n) * limit.negative);
    }
  }

  // -------------------------------------------------------------------------- the sink

  datatype SinkConfig = SinkConfig(maxStateAge: real, limits: Option<Pose>)

  datatype SinkState = SinkState(actionSeq: nat, lastStateSeq: Option<int>, datagrams: nat, disarmed: bool)

  datatype Packet = Packet(seqNo: nat, stamp: int, action: Pose)

  /** What the sender below the sink did: recorded the datagram, raised before anything left,
      or raised after a short send, when the datagram had left without a record. */
  datatype SendOutcome = Recorded | RaisedUnsent | RaisedAfterShortSend

  datatype Command =
    | Velocity(state: MachineState, values: seq<real>, stamp: int, age: real, envelope: Option<Envelope>)
    | Zero(stamp: int)
    | Disarm(stamp: int)

  /** Every attempt to hand a packet to the sender. */
  datatype Attempt = Attempt(command: Command, packet: Packet, allowed: bool, outcome: SendOutcome)

  predicate EnvelopesOk(c: Command) {
    c.Velocity? && c.envelope.Some? ==> |c.envelope.value.allowed| == AXES
  }

  /** `send_velocity` refuses its arguments before it takes the lock. */
  predicate BadArguments(config: SinkConfig, c: Command) {
    c.Velocity? &&
    (|c.values| != AXES || c.age < 0.0 ||
     (config.limits.Some? && exists i :: 0 <= i < AXES && Abs(c.values[i]) > config.limits.value[i] + SLACK))
  }

  function Gate(config: SinkConfig, s: SinkState, c: Command): Decision
    requires c.Velocity? && EnvelopesOk(c) && |c.values| == AXES
  {
    var basic :=
      if s.disarmed then Decision(false, Disarmed)
      else if s.lastStateSeq.Some? && c.state.seqNo < s.lastStateSeq.value then Decision(false, StateOutOfOrder)
      else if c.age > config.maxStateAge then Decision(false, StateStale)
      else EvaluateMotionState(c.state);
    if basic.allowed && c.envelope.Some? then EvaluatePhysical(c.envelope.value, c.values) else basic
  }

  /** The gate opens exactly when the sink is armed, the state is not older than the newest one
      seen and fresh enough, every safety flag is good, and the action is in the envelope if
      there is one. */
  lemma GateOpensIff(config: SinkConfig, s: SinkState, c: Command)
    requires c.Velocity? && EnvelopesOk(c) && |c.values| == AXES
    ensures
      Gate(config, s, c).allowed <==>
        && !s.disarmed
        && (s.lastStateSeq.Some? ==> c.state.seqNo >= s.lastStateSeq.value)
        && c.age <= config.maxStateAge
        && AllFlagsGood(c.state.safety)
        && (c.envelope.Some? ==> InEnvelope(c.envelope.value, c.values))
  {
    if c.envelope.Some? {
      EvaluatePhysicalIsInEnvelope(c.envelope.value, c.values);
    }
  }

  /** Axis `i` of the action is what the reason says is wrong with it. */
  predicate AxisFault(e: Envelope, values: Pose, reason: Reason, i: nat)
    requires |e.allowed| == AXES && i < AXES
  {
    if reason == AxisLocked then !e.allowed[i] && values[i] != 0.0
    else values[i] < e.minimum[i] - SLACK || values[i] > e.maximum[i] + SLACK
  }

  lemma {:induction false} EnvelopeReasonIsTrue(e: Envelope, values: Pose, axis: nat)
    requires |e.allowed| == AXES && axis <= AXES
    ensures
      var d := EvaluateFrom(e, values, axis);
      && (d.reason == EnvelopeValid <==> d.allowed)
      && (d.reason == AxisLocked || d.reason == EnvelopeViolation || d.reason == EnvelopeValid)
      && (!d.allowed ==> exists i: nat :: i < AXES && AxisFault(e, values, d.reason, i))
    decreases AXES - axis
  {
    if axis < AXES {
      var d := EvaluateFrom(e, values, axis);
      if (!e.allowed[axis] && values[axis] != 0.0)
         || values[axis] < e.minimum[axis] - SLACK || values[axis] > e.maximum[axis] + SLACK {
        assert AxisFault(e, values, d.reason, axis);
      } else {
        EnvelopeReasonIsTrue(e, values, axis + 1);
      }
    }
  }

  /** What a reason claims about the sink, the command and the state it brought. */
  ghost predicate ReasonHolds(config: SinkConfig, s: SinkState, c: Command, reason: Reason)
    requires c.Velocity? && EnvelopesOk(c) && |c.values| == AXES
  {
    match reason
    case Disarmed => s.disarmed
    case StateOutOfOrder => s.lastStateSeq.Some? && c.state.seqNo < s.lastStateSeq.value
    case StateStale => c.age > config.maxStateAge
    case Estop => c.state.safety.estop
    case Stm32NotAlive => !c.state.safety.stm32Alive
    case SensorInvalid => !c.state.safety.sensorValid
    case FaultFlags => c.state.safety.faultFlags
    case ControlDisabled => !c.state.safety.controlEnabled
    case Motion => c.envelope.None?
    case EnvelopeValid => c.envelope.Some?
    case AxisLocked => c.envelope.Some? && exists i: nat :: i < AXES && AxisFault(c.envelope.value, c.values, reason, i)
    case EnvelopeViolation =>
      c.envelope.Some? && exists i: nat :: i < AXES && AxisFault(c.envelope.value, c.values, reason, i)
  }

  /** The reason of every verdict is true of the command it was given for. */
  lemma GateReasonIsTrue(config: SinkConfig, s: SinkState, c: Command)
    requires c.Velocity? && EnvelopesOk(c) && |c.values| == AXES
    ensures
      var d := Gate(config, s, c);
      ReasonHolds(config, s, c, d.reason) && (d.allowed <==> d.reason == Motion || d.reason == EnvelopeValid)
  {
    if c.envelope.Some? {
      EnvelopeReasonIsTrue(c.envelope.value, c.values, 0);
    }
  }

  function Later(last: Option<int>, n: int): Option<int> {
    Some(if last.None? then n else if n >= last.value then n else last.value)
  }

  /** The attempt a command makes, if its arguments are accepted. */
  function AttemptOf(config: SinkConfig, s: SinkState, c: Command, outcome: SendOutcome): Option<Attempt>
    requires EnvelopesOk(c)
  {
    if BadArguments(config, c) then None
    else
      var allowed := c.Velocity? && Gate(config, s, c).allowed;
      Some(Attempt(c, Packet(s.actionSeq, c.stamp, if allowed then c.values else ZERO_ACTION), allowed, outcome))
  }

  function AfterCommand(config: SinkConfig, s: SinkState, c: Command, outcome: SendOutcome): SinkState {
    if BadArguments(config, c) then s
    else
      var gated := s.(
        lastStateSeq := if c.Velocity? then Later(s.lastStateSeq, c.state.seqNo) else s.lastStateSeq,
        disarmed := s.disarmed || c.Disarm?);
      if outcome.Recorded? then gated.(actionSeq := s.actionSeq + 1, datagrams := s.datagrams + 1) else gated
  }

  class MotionCommandSink {
    const config: SinkConfig
    var actionSeq: nat
    var lastStateSeq: Option<int>
    var actionDatagrams: nat
    var disarmed: bool
    ghost var attempts: seq<Attempt>

    function State(): SinkState
      reads this
    {
      SinkState(actionSeq, lastStateSeq, actionDatagrams, disarmed)
    }

    constructor (config: SinkConfig)
      ensures this.config == config
      ensures State() == SinkState(0, None, 0, false) && attempts == []
    {
      this.config := config;
      actionSeq := 0;
      lastStateSeq := None;
      actionDatagrams := 0;
      disarmed := false;
      attempts := [];
    }

    /** A velocity command; `None` is the error raised for bad arguments. A send that raises
        does so after the gate has already been passed. */
    method SendVelocity(
      state: MachineState, values: seq<real>, stamp: int, age: real, envelope: Option<Envelope>, outcome: SendOutcome)
      returns (decision: Option<Decision>)
      requires envelope.Some? ==> |envelope.value.allowed| == AXES
      modifies this
      ensures
        var c := Velocity(state, values, stamp, age, envelope);
        && State() == AfterCommand(config, old(State()), c, outcome)
        && decision == (if BadArguments(config, c) then None else Some(Gate(config, old(State()), c)))
        && attempts == old(attempts) +
             match AttemptOf(config, old(State()), c, outcome) { case None => [] case Some(a) => [a] }
    {
      if |values| != AXES || age < 0.0 {
        return None;
      }
      if config.limits.Some? {
        for i := 0 to AXES
          invariant forall k :: 0 <= k < i ==> Abs(values[k]) <= config.limits.value[k] + SLACK
          invariant State() == old(State()) && attempts == old(attempts)
        {
          if Abs(values[i]) > config.limits.value[i] + SLACK {
            return None;
          }
        }
      }
      var d: Decision;
      if disarmed {
        d := Decision(false, Disarmed);
      } else if lastStateSeq.Some? && state.seqNo < lastStateSeq.value {
        d := Decision(false, StateOutOfOrder);
      } else if age > config.maxStateAge {
        d := Decision(false, StateStale);
      } else {
        d := EvaluateMotionState(state);
      }
      if d.allowed && envelope.Some? {
        d := EvaluatePhysical(envelope.value, values);
      }
      lastStateSeq := Later(lastStateSeq, state.seqNo);
      SendPacket(
        Velocity(state, values, stamp, age, envelope),
        Packet(actionSeq, stamp, if d.allowed then values else ZERO_ACTION), d.allowed, outcome);
      return Some(d);
    }

    method SendZero(stamp: int, outcome: SendOutcome)
      modifies this
      ensures State() == AfterCommand(config, old(State()), Zero(stamp), outcome)
      ensures attempts == old(attempts) + [AttemptOf(config, old(State()), Zero(stamp), outcome).value]
    {
      SendPacket(Zero(stamp), Packet(actionSeq, stamp, ZERO_ACTION), false, outcome);
    }

    method DisarmSink(stamp: int, outcome: SendOutcome)
      modifies this
      ensures State() == AfterCommand(config, old(State()), Disarm(stamp), outcome)
      ensures attempts == old(attempts) + [AttemptOf(config, old(State()), Disarm(stamp), outcome).value]
    {
      disarmed := true;
      SendPacket(Disarm(stamp), Packet(actionSeq, stamp, ZERO_ACTION), false, outcome);
    }

    /** Hands the packet to the sender; the counters move only when it did not raise. */
    method SendPacket(command: Command, packet: Packet, allowed: bool, outcome: SendOutcome)
      modifies this`actionSeq, this`actionDatagrams, this`attempts
      ensures attempts == old(attempts) + [Attempt(command, packet, allowed, outcome)]
      ensures
        if outcome.Recorded? then
          actionSeq == old(actionSeq) + 1 && actionDatagrams == old(actionDatagrams) + 1
        else
          actionSeq == old(actionSeq) && actionDatagrams == old(actionDatagrams)
    {
      attempts := attempts + [Attempt(command, packet, allowed, outcome)];
      if outcome.Recorded? {
        actionSeq := actionSeq + 1;
        actionDatagrams := actionDatagrams + 1;
      }
    }
  }

  // ------------------------------------------------------------------------ whole runs

  datatype Operation = Operation(command: Command, outcome: SendOutcome)

  predicate OperationsOk(ops: seq<Operation>) { forall o <- ops :: EnvelopesOk(o.command) }

  const INITIAL_SINK := SinkState(0, None, 0, false)

  function StateAfter(config: SinkConfig, ops: seq<Operation>): SinkState {
    if ops == [] then INITIAL_SINK
    else
      var n := |ops| - 1;
      AfterCommand(config, StateAfter(config, ops[..n]), ops[n].command, ops[n].outcome)
  }

  function AttemptsOf(config: SinkConfig, ops: seq<Operation>): seq<Attempt>
    requires OperationsOk(ops)
  {
    if ops == [] then []
    else
      var n := |ops| - 1;
      assert ops[n] in ops;
      AttemptsOf(config, ops[..n]) +
      match AttemptOf(config, StateAfter(config, ops[..n]), ops[n].command, ops[n].outcome)
      case None => []
      case Some(a) => [a]
  }

  /** A non-zero packet is backed by a command whose state, age, values and envelope all
      permitted it. */
  ghost predicate Justified(config: SinkConfig, a: Attempt) {
    a.packet.action != ZERO_ACTION ==>
      && a.command.Velocity? && EnvelopesOk(a.command)
      && |a.command.values| == AXES && a.packet.action == a.command.values
      && AllFlagsGood(a.command.state.safety)
      && 0.0 <= a.command.age <= config.maxStateAge
      && (config.limits.Some? ==>
            forall i :: 0 <= i < AXES ==> Abs(a.packet.action[i]) <= config.limits.value[i] + SLACK)
      && (a.command.envelope.Some? ==> InEnvelope(a.command.envelope.value, a.packet.action))
  }

  /** Allowed attempts carry state sequence numbers that never decrease. */
  ghost predicate AllowedInOrder(attempts: seq<Attempt>) {
    forall i, j :: 0 <= i < j < |attempts| && attempts[i].allowed && attempts[j].allowed
      && attempts[i].command.Velocity? && attempts[j].command.Velocity?
      ==> attempts[i].command.state.seqNo <= attempts[j].command.state.seqNo
  }

  /** Nothing moves after a disarm. */
  ghost predicate QuietAfterDisarm(attempts: seq<Attempt>) {
    forall i, j :: 0 <= i <= j < |attempts| && attempts[i].command.Disarm? ==> attempts[j].packet.action == ZERO_ACTION
  }

  /** The sink state bounds what its attempts contain. */
  ghost predicate SinkInvariant(config: SinkConfig, s: SinkState, attempts: seq<Attempt>) {
    && (forall a <- attempts :: Justified(config, a))
    && AllowedInOrder(attempts) && QuietAfterDisarm(attempts)
    && (forall a <- attempts :: a.command.Velocity? ==>
          s.lastStateSeq.Some? && a.command.state.seqNo <= s.lastStateSeq.value)
    && (forall a <- attempts :: a.command.Disarm? ==> s.disarmed)
    && (forall a <- attempts :: a.allowed ==> a.command.Velocity?)
  }

  lemma AttemptIsJustified(config: SinkConfig, s: SinkState, c: Command, outcome: SendOutcome)
    requires EnvelopesOk(c) && !BadArguments(config, c)
    ensures Justified(config, AttemptOf(config, s, c, outcome).value)
  {
    if c.Velocity? && c.envelope.Some? {
      EvaluatePhysicalIsInEnvelope(c.envelope.value, c.values);
    }
  }

  lemma CommandKeepsInvariant(
    config: SinkConfig, s: SinkState, attempts: seq<Attempt>, c: Command, outcome: SendOutcome)
    requires EnvelopesOk(c) && !BadArguments(config, c)
    requires SinkInvariant(config, s, attempts)
    ensures
      SinkInvariant(
        config, AfterCommand(config, s, c, outcome), attempts + [AttemptOf(config, s, c, outcome).value])
  {
    AttemptIsJustified(config, s, c, outcome);
    var a := AttemptOf(config, s, c, outcome).value;
    var longer := attempts + [a];
    forall i | 0 <= i < |attempts|
      ensures longer[i] in attempts
    {
      assert longer[i] == attempts[i];
    }
  }

  /** Over every run of the sink, including sends that raise: each non-zero packet had good
      safety flags, a fresh state, values within the limits and the envelope; the states of
      allowed commands never go back; and after a disarm, even one whose own send raised,
      every packet is zero. */
  lemma {:induction false} SinkIsSafe(config: SinkConfig, ops: seq<Operation>)
    requires OperationsOk(ops)
    ensures SinkInvariant(config, StateAfter(config, ops), AttemptsOf(config, ops))
  {
    if ops != [] {
      var n := |ops| - 1;
      assert ops[n] in ops;
      SinkIsSafe(config, ops[..n]);
      if !BadArguments(config, ops[n].command) {
        CommandKeepsInvariant(
          config, StateAfter(config, ops[..n]), AttemptsOf(config, ops[..n]), ops[n].command, ops[n].outcome);
      }
    }
  }

  /** The packets that were recorded, in order. */
  function RecordedPackets(attempts: seq<Attempt>): seq<Packet> {
    if attempts == [] then []
    else
      var n := |attempts| - 1;
      RecordedPackets(attempts[..n]) + if attempts[n].outcome.Recorded? then [attempts[n].packet] else []
  }

  /** Recorded packets are numbered 0, 1, 2, ... whatever raised in between. */
  lemma {:induction false} RecordedNumbersHaveNoGap(config: SinkConfig, ops: seq<Operation>)
    requires OperationsOk(ops)
    ensures
      var recorded := RecordedPackets(AttemptsOf(config, ops));
      && |recorded| == StateAfter(config, ops).actionSeq == StateAfter(config, ops).datagrams
      && forall i :: 0 <= i < |recorded| ==> recorded[i].seqNo == i
  {
    if ops != [] {
      var n := |ops| - 1;
      assert ops[n] in ops;
      RecordedNumbersHaveNoGap(config, ops[..n]);
      var before := AttemptsOf(config, ops[..n]);
      var attempt := AttemptOf(config, StateAfter(config, ops[..n]), ops[n].command, ops[n].outcome);
      if attempt.Some? {
        assert (before + [attempt.value])[..|before|] == before;
      } else {
        assert AttemptsOf(config, ops) == before;
      }
    }
  }

  /** The numbers on the wire may repeat, and only after a short send: the datagram that left
      without a record has the number of the next attempt. */
  lemma ShortSendNumberIsReused(config: SinkConfig, s: SinkState, c: Command, next: Command, outcome: SendOutcome)
    requires EnvelopesOk(c) && EnvelopesOk(next)
    requires !BadArguments(config, c) && !BadArguments(config, next)
    ensures
      var first := AttemptOf(config, s, c, outcome).value;
      var second := AttemptOf(config, AfterCommand(config, s, c, outcome), next, Recorded).value;
      second.packet.seqNo == first.packet.seqNo <==> !outcome.Recorded?
  {}

  // ------------------------------------------------------------- what every command sends

  /** The sink takes the command's arguments. */
  predicate TakesArguments(config: SinkConfig, c: Command) {
    c.Velocity? ==>
      && |c.values| == AXES && c.age >= 0.0
      && (config.limits.Some? ==> forall i :: 0 <= i < AXES ==> Abs(c.values[i]) <= config.limits.value[i] + SLACK)
  }

  /** A command that may move the machine after `earlier`: no disarm came before it, its state
      is not older than that of any velocity command taken before, and its age, flags and
      envelope are good. */
  ghost predicate Permitted(config: SinkConfig, earlier: seq<Operation>, c: Command) {
    && c.Velocity? && TakesArguments(config, c) && EnvelopesOk(c)
    && c.age <= config.maxStateAge && AllFlagsGood(c.state.safety)
    && (c.envelope.Some? ==> InEnvelope(c.envelope.value, c.values))
    && (forall o <- earlier :: !o.command.Disarm?)
    && (forall o <- earlier :: o.command.Velocity? && TakesArguments(config, o.command) ==>
          o.command.state.seqNo <= c.state.seqNo)
  }

  /** The packet of a command numbered `n`: its own values when it may move the machine, zeros
      otherwise, under its own stamp. */
  ghost predicate CarriesCommand(config: SinkConfig, earlier: seq<Operation>, c: Command, n: nat, p: Packet) {
    && p.seqNo == n && p.stamp == c.stamp
    && (Permitted(config, earlier, c) ==> c.Velocity? && p.action == c.values)
    && (!Permitted(config, earlier, c) ==> p.action == ZERO_ACTION)
  }

  /** The sink remembers whether it was disarmed and the newest state it was shown. */
  lemma {:induction false} StateIsHistory(config: SinkConfig, ops: seq<Operation>, n: int)
    ensures
      var s := StateAfter(config, ops);
      && (s.disarmed <==> exists o :: o in ops && o.command.Disarm?)
      && ((s.lastStateSeq.Some? ==> s.lastStateSeq.value <= n) <==>
          forall o <- ops :: o.command.Velocity? && TakesArguments(config, o.command) ==> o.command.state.seqNo <= n)
  {
    if ops != [] {
      var k := |ops| - 1;
      StateIsHistory(config, ops[..k], n);
      assert forall o :: o in ops <==> o in ops[..k] || o == ops[k];
      assert BadArguments(config, ops[k].command) <==> !TakesArguments(config, ops[k].command);
    }
  }

  /** What one command attempts after the others. */
  lemma AttemptMeans(config: SinkConfig, earlier: seq<Operation>, o: Operation)
    requires EnvelopesOk(o.command)
    ensures
      var attempt := AttemptOf(config, StateAfter(config, earlier), o.command, o.outcome);
      && (attempt.Some? <==> TakesArguments(config, o.command))
      && (attempt.Some? ==>
            && attempt.value.command == o.command && attempt.value.outcome == o.outcome
            && (attempt.value.allowed <==> Permitted(config, earlier, o.command))
            && CarriesCommand(
                 config, earlier, o.command, StateAfter(config, earlier).actionSeq, attempt.value.packet))
  {
    if o.command.Velocity? && TakesArguments(config, o.command) {
      StateIsHistory(config, earlier, o.command.state.seqNo);
      GateOpensIff(config, StateAfter(config, earlier), o.command);
    }
  }

  /** The attempts are those of the operations at `at`, in order: each carries its command under
      the number of packets recorded before it. */
  ghost predicate AttemptsCarry(config: SinkConfig, ops: seq<Operation>, attempts: seq<Attempt>, at: seq<nat>) {
    && |at| == |attempts|
    && (forall j :: 0 <= j < |at| ==>
          && at[j] < |ops| && attempts[j].command == ops[at[j]].command && attempts[j].outcome == ops[at[j]].outcome
          && (attempts[j].allowed <==> Permitted(config, ops[..at[j]], ops[at[j]].command))
          && CarriesCommand(
               config, ops[..at[j]], ops[at[j]].command, |RecordedPackets(attempts[..j])|, attempts[j].packet))
  }

  /** The command is taken and, where asked for, its datagram recorded. */
  predicate Takes(config: SinkConfig, o: Operation, recorded: bool) {
    TakesArguments(config, o.command) && (recorded ==> o.outcome.Recorded?)
  }

  /** `at` lists, in order, the operations that are taken (and recorded). */
  ghost predicate Lists(config: SinkConfig, ops: seq<Operation>, recorded: bool, at: seq<nat>) {
    && (forall i, j :: 0 <= i < j < |at| ==> at[i] < at[j])
    && (forall k: nat :: k in at <==> k < |ops| && Takes(config, ops[k], recorded))
  }

  lemma ListsGrow(config: SinkConfig, ops: seq<Operation>, recorded: bool, at: seq<nat>)
    requires ops != [] && Lists(config, ops[..|ops| - 1], recorded, at)
    ensures Takes(config, ops[|ops| - 1], recorded) ==> Lists(config, ops, recorded, at + [|ops| - 1])
    ensures !Takes(config, ops[|ops| - 1], recorded) ==> Lists(config, ops, recorded, at)
  {
    forall j | 0 <= j < |at|
      ensures at[j] < |ops| - 1
    {
      assert at[j] in at;
    }
  }

  /** In every run each command whose arguments are taken makes one attempt, in order, and no
      other attempt is made: with the command's own values exactly when the command may move the
      machine, with zeros otherwise, under its own stamp and the next free number. */
  lemma {:induction false} SinkSendsWhatItMay(config: SinkConfig, ops: seq<Operation>) returns (at: seq<nat>)
    requires OperationsOk(ops)
    ensures Lists(config, ops, false, at)
    ensures AttemptsCarry(config, ops, AttemptsOf(config, ops), at)
  {
    if ops == [] {
      at := [];
    } else {
      var n := |ops| - 1;
      assert ops[n] in ops;
      at := SinkSendsWhatItMay(config, ops[..n]);
      var attempts := AttemptsOf(config, ops[..n]);
      ListsGrow(config, ops, false, at);
      AttemptsStay(config, ops, attempts, at);
      AttemptMeans(config, ops[..n], ops[n]);
      if TakesArguments(config, ops[n].command) {
        RecordedNumbersHaveNoGap(config, ops[..n]);
        AttemptsGrow(
          config, ops, attempts, at,
          AttemptOf(config, StateAfter(config, ops[..n]), ops[n].command, ops[n].outcome).value);
        at := at + [n];
      } else {
        assert AttemptsOf(config, ops) == attempts;
      }
    }
  }

  lemma AttemptsStay(config: SinkConfig, ops: seq<Operation>, attempts: seq<Attempt>, at: seq<nat>)
    requires ops != [] && AttemptsCarry(config, ops[..|ops| - 1], attempts, at)
    ensures AttemptsCarry(config, ops, attempts, at)
  {
    assert forall j :: 0 <= j < |at| ==> ops[..|ops| - 1][..at[j]] == ops[..at[j]];
  }

  lemma AttemptsGrow(config: SinkConfig, ops: seq<Operation>, attempts: seq<Attempt>, at: seq<nat>, a: Attempt)
    requires ops != [] && AttemptsCarry(config, ops, attempts, at)
    requires a.command == ops[|ops| - 1].command && a.outcome == ops[|ops| - 1].outcome
    requires a.allowed <==> Permitted(config, ops[..|ops| - 1], a.command)
    requires CarriesCommand(config, ops[..|ops| - 1], a.command, |RecordedPackets(attempts)|, a.packet)
    ensures AttemptsCarry(config, ops, attempts + [a], at + [|ops| - 1])
  {
    assert forall j :: 0 <= j <= |attempts| ==> (attempts + [a])[..j] == attempts[..j];
    assert attempts[..|attempts|] == attempts;
  }

  /** The recorded packets in terms of the commands alone: one for every command taken and
      recorded, numbered from zero, with the values of those that may move the machine. */
  ghost predicate RecordsCarry(config: SinkConfig, ops: seq<Operation>, packets: seq<Packet>, at: seq<nat>) {
    && |at| == |packets|
    && forall j :: 0 <= j < |at| ==>
         at[j] < |ops| && CarriesCommand(config, ops[..at[j]], ops[at[j]].command, j, packets[j])
  }

  lemma RecordsGrow(config: SinkConfig, ops: seq<Operation>, packets: seq<Packet>, at: seq<nat>)
    requires ops != [] && RecordsCarry(config, ops[..|ops| - 1], packets, at)
    ensures RecordsCarry(config, ops, packets, at)
    ensures forall p: Packet ::
              CarriesCommand(config, ops[..|ops| - 1], ops[|ops| - 1].command, |packets|, p)
              ==> RecordsCarry(config, ops, packets + [p], at + [|ops| - 1])
  {
    assert forall j :: 0 <= j < |at| ==> ops[..|ops| - 1][..at[j]] == ops[..at[j]];
  }

  lemma {:induction false} RecordedCarryCommands(config: SinkConfig, ops: seq<Operation>) returns (at: seq<nat>)
    requires OperationsOk(ops)
    ensures Lists(config, ops, true, at)
    ensures RecordsCarry(config, ops, RecordedPackets(AttemptsOf(config, ops)), at)
  {
    if ops == [] {
      at := [];
    } else {
      var n := |ops| - 1;
      assert ops[n] in ops;
      at := RecordedCarryCommands(config, ops[..n]);
      AttemptMeans(config, ops[..n], ops[n]);
      RecordedNumbersHaveNoGap(config, ops[..n]);
      ListsGrow(config, ops, true, at);
      var attempts := AttemptsOf(config, ops[..n]);
      RecordsGrow(config, ops, RecordedPackets(attempts), at);
      if TakesArguments(config, ops[n].command) {
        var a := AttemptOf(config, StateAfter(config, ops[..n]), ops[n].command, ops[n].outcome).value;
        assert (attempts + [a])[..|attempts|] == attempts;
        if ops[n].outcome.Recorded? {
          at := at + [n];
        }
      } else {
        assert AttemptsOf(config, ops) == attempts;
      }
    }
  }
}
