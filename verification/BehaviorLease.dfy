/** The behaviour lease of the live server
    (`runtime_bridge/apps/live_machine_behavior_server.py`): which behaviour may move the
    machine, how it stops, and what the datagrams on the wire say about it. */
module BehaviorLease {
  import opened Wrappers
  import opened CommandSink

  // --------------------------------------------------------------- taking the lease

  datatype Rejection =
    | Busy | JournalUnavailable | StaleState | MotionGate(reason: Reason)
    | ActuatorOutside | TargetsNotValidated

  /** What `_reserve` looks at under the lock. `state` is `None` before the first machine state. */
  datatype Readiness = Readiness(
    journalHealthy: bool, state: Option<MachineState>, stateAge: real, actuatorInside: bool,
    requireMission: bool, missionAllowed: bool)

  predicate Ready(r: Readiness, maxStateAge: real) {
    && r.journalHealthy
    && r.state.Some? && r.stateAge <= maxStateAge && AllFlagsGood(r.state.value.safety)
    && r.actuatorInside
    && (r.requireMission ==> r.missionAllowed)
  }

  class LeaseHolder {
    const maxStateAge: real
    var activeBehavior: string
    var lastRejection: Option<Rejection>

    constructor (maxStateAge: real)
      ensures this.maxStateAge == maxStateAge && activeBehavior == "" && lastRejection == None
    {
      this.maxStateAge := maxStateAge;
      activeBehavior := "";
      lastRejection := None;
    }

    /** The lease is given exactly when it is free and everything is ready; otherwise only the
        reason changes, and a busy lease is reported before anything else. */
    method Reserve(behavior: string, r: Readiness) returns (accepted: bool)
      requires behavior != ""
      modifies this
      ensures accepted <==> old(activeBehavior) == "" && Ready(r, maxStateAge)
      ensures activeBehavior == if accepted then behavior else old(activeBehavior)
      ensures accepted <==> lastRejection == None
      ensures lastRejection == Some(Busy) <==> old(activeBehavior) != ""
      ensures old(activeBehavior) == "" ==> (lastRejection == Some(JournalUnavailable) <==> !r.journalHealthy)
      ensures lastRejection == Some(StaleState) ==> r.state.None? || r.stateAge > maxStateAge
      ensures lastRejection.Some? && lastRejection.value.MotionGate? ==>
                r.state.Some? && r.stateAge <= maxStateAge && !AllFlagsGood(r.state.value.safety)
      ensures lastRejection == Some(ActuatorOutside) ==>
                !r.actuatorInside && r.state.Some? && AllFlagsGood(r.state.value.safety)
      ensures lastRejection == Some(TargetsNotValidated) ==>
                r.requireMission && !r.missionAllowed
                && r.actuatorInside && r.state.Some? && AllFlagsGood(r.state.value.safety)
    {
      if activeBehavior != "" {
        lastRejection := Some(Busy);
        return false;
      }
      if !r.journalHealthy {
        lastRejection := Some(JournalUnavailable);
        return false;
      }
      if r.state.None? || r.stateAge > maxStateAge {
        lastRejection := Some(StaleState);
        return false;
      }
      var decision := EvaluateMotionState(r.state.value);
      if !decision.allowed {
        lastRejection := Some(MotionGate(decision.reason));
        return false;
      }
      if !r.actuatorInside {
        lastRejection := Some(ActuatorOutside);
        return false;
      }
      if r.requireMission && !r.missionAllowed {
        lastRejection := Some(TargetsNotValidated);
        return false;
      }
      activeBehavior := behavior;
      lastRejection := None;
      return true;
    }

    /** Whoever calls this, the lease becomes free. */
    method Release()
      modifies this`activeBehavior
      ensures activeBehavior == ""
    {
      activeBehavior := "";
    }
  }

  // ----------------------------------------------------------------- behaviours at work

  /** A behaviour from its reservation on. `rested` records whether a zero of its own left after
      its last motion and before it first gave the lease back. `handler` says that it is
      finishing inside its exception handler, where another exception is not caught any more;
      `again` says that it has released the lease once and is stopping for the second time. */
  datatype Phase =
    | Running(rested: bool)
    | Stopping(zeroSent: bool, rested: bool, handler: bool, again: bool)
    | Releasing(quiescent: bool, rested: bool, handler: bool, again: bool)
    | Released(quiescent: bool, rested: bool, handler: bool, again: bool)
    | Done(quiescent: bool, rested: bool, again: bool)
    | Crashed
    | Abandoned

  datatype Source = Behavior(ticket: nat) | Server

  datatype Datagram = Datagram(source: Source, zero: bool, owner: Option<nat>)

  /** Behaviours are numbered by reservation; `owner` is the number behind a non-empty
      `_active_behavior`. `log` holds every datagram that left, with the owner of that moment. */
  datatype Machine = Machine(owner: Option<nat>, phases: seq<Phase>, disarmedAt: Option<nat>, log: seq<Datagram>)

  const INITIAL := Machine(None, [], None, [])

  datatype Step =
    | Reserve
    | SendMotion(b: nat, zero: bool)
    | SendRefused(b: nat)
    | SendRaises(b: nat, sent: Option<bool>)
    | Finish(b: nat)
    | Fail(b: nat)
    | ContextEnds(b: nat)
    | StopZero(b: nat)
    | StopRaises(b: nat, left: bool)
    | StopEnds(b: nat)
    | Release(b: nat)
    | Report(b: nat)
    | FinishRaises(b: nat)
    | DisarmServer(left: bool)
    | ServerZero

  predicate Acts(m: Machine, b: nat) { b < |m.phases| }

  /** `StopEnds` needs a zero that was sent: the first test of the 0.6 second loop succeeds. */
  predicate Enabled(m: Machine, s: Step) {
    match s
    case Reserve => m.owner.None?
    case SendMotion(b, zero) => Acts(m, b) && m.phases[b].Running? && (m.disarmedAt.Some? ==> zero)
    case SendRefused(b) => Acts(m, b) && m.phases[b].Running?
    case SendRaises(b, sent) =>
      Acts(m, b) && m.phases[b].Running? && (m.disarmedAt.Some? && sent.Some? ==> sent.value)
    case Finish(b) => Acts(m, b) && m.phases[b].Running?
    case Fail(b) => Acts(m, b) && m.phases[b].Running?
    case ContextEnds(b) => Acts(m, b) && m.phases[b].Running?
    case StopZero(b) => Acts(m, b) && m.phases[b].Stopping?
    case StopRaises(b, _) => Acts(m, b) && m.phases[b].Stopping?
    case StopEnds(b) => Acts(m, b) && m.phases[b].Stopping? && m.phases[b].zeroSent
    case Release(b) => Acts(m, b) && m.phases[b].Releasing?
    case Report(b) => Acts(m, b) && m.phases[b].Released?
    case FinishRaises(b) => Acts(m, b) && m.phases[b].Released?
    case DisarmServer(_) => true
    case ServerZero => m.disarmedAt.Some?
  }

  function Emit(m: Machine, source: Source, zero: bool): Machine {
    m.(log := m.log + [Datagram(source, zero, m.owner)])
  }

  function Enter(m: Machine, b: nat, p: Phase): Machine
    requires Acts(m, b)
  {
    m.(phases := m.phases[b := p])
  }

  /** Behaviour `b` puts a datagram on the wire and moves on to phase `p`. */
  function Sends(m: Machine, b: nat, zero: bool, p: Phase): Machine
    requires Acts(m, b)
  {
    Enter(Emit(m, Behavior(b), zero), b, p)
  }

  function Disarmed(m: Machine): Machine {
    m.(disarmedAt := if m.disarmedAt.None? then Some(|m.log|) else m.disarmedAt)
  }

  function Apply(m: Machine, s: Step): Machine
    requires Enabled(m, s)
  {
    match s
    case Reserve => m.(owner := Some(|m.phases|), phases := m.phases + [Running(false)])
    case SendMotion(b, zero) => Sends(m, b, zero, Running(zero))
    case SendRefused(b) => Sends(m, b, true, Stopping(false, true, false, false))
    case SendRaises(b, sent) =>
      if sent.Some? then Sends(m, b, sent.value, Stopping(false, sent.value, true, false))
      else Enter(m, b, Stopping(false, m.phases[b].rested, true, false))
    case Finish(b) => Enter(m, b, Stopping(false, m.phases[b].rested, false, false))
    case Fail(b) => Enter(m, b, Stopping(false, m.phases[b].rested, true, false))
    case ContextEnds(b) => Enter(m, b, Abandoned)
    case StopZero(b) =>
      var p := m.phases[b];
      Sends(m, b, true, Stopping(true, p.rested || !p.again, p.handler, p.again))
    case StopRaises(b, left) =>
      var p := m.phases[b];
      if left then Sends(m, b, true, Releasing(false, p.rested || !p.again, p.handler, p.again))
      else Enter(m, b, Releasing(false, p.rested, p.handler, p.again))
    case StopEnds(b) =>
      var p := m.phases[b];
      Enter(m, b, Releasing(true, p.rested, p.handler, p.again))
    case Release(b) =>
      var p := m.phases[b];
      Enter(m, b, Released(p.quiescent, p.rested, p.handler, p.again)).(owner := None)
    case Report(b) =>
      var p := m.phases[b];
      Enter(m, b, Done(p.quiescent, p.rested, p.again))
    case FinishRaises(b) =>
      var p := m.phases[b];
      Enter(m, b, if p.handler then Crashed else Stopping(false, p.rested, true, true))
    case DisarmServer(left) => if left then Emit(Disarmed(m), Server, true) else Disarmed(m)
    case ServerZero => Emit(m, Server, true)
  }

  /** A release by a behaviour that gave the lease back before, while another one holds it. */
  predicate ForeignRelease(m: Machine, s: Step) {
    s.Release? && m.owner.Some? && m.owner.value != s.b
  }

  // ----------------------------------------------------------------------- the invariant

  /** Reserved and not released yet. */
  predicate Live(p: Phase) {
    p.Running? || p.Abandoned? || (p.Stopping? && !p.again) || (p.Releasing? && !p.again)
  }

  /** The lease is with the one live behaviour, which is the newest. */
  ghost predicate LeaseIsExclusive(m: Machine) {
    && (forall b :: 0 <= b < |m.phases| ==> (Live(m.phases[b]) <==> m.owner == Some(b)))
    && (m.owner.Some? ==> m.owner.value == |m.phases| - 1)
  }

  predicate Moves(d: Datagram) { !d.zero }

  ghost predicate MotionByOwner(m: Machine) {
    forall i :: 0 <= i < |m.log| && Moves(m.log[i]) ==>
      && m.log[i].source.Behavior? && m.log[i].owner == Some(m.log[i].source.ticket)
      && m.log[i].source.ticket < |m.phases|
  }

  predicate MotionOfBehavior(d: Datagram) { Moves(d) && d.source.Behavior? }

  ghost predicate MotionInTurn(log: seq<Datagram>) {
    forall i, j :: 0 <= i < j < |log| && MotionOfBehavior(log[i]) && MotionOfBehavior(log[j])
      ==> log[i].source.ticket <= log[j].source.ticket
  }

  ghost predicate QuietAfterDisarm(m: Machine) {
    m.disarmedAt.Some? ==> forall i :: 0 <= m.disarmedAt.value <= i < |m.log| ==> !Moves(m.log[i])
  }

  predicate MotionOf(d: Datagram, b: nat) { Moves(d) && d.source == Behavior(b) }

  predicate ZeroOf(d: Datagram, b: nat) { d.zero && d.source == Behavior(b) }

  /** The zero at `z` comes after everything `b` moved and before everything later behaviours move. */
  ghost predicate Separates(log: seq<Datagram>, b: nat, z: nat) {
    && z < |log| && ZeroOf(log[z], b)
    && (forall i :: 0 <= i < |log| && MotionOf(log[i], b) ==> i < z)
    && (forall i :: 0 <= i < |log| && MotionOfBehavior(log[i]) && log[i].source.ticket > b ==> z < i)
  }

  ghost predicate Quiet(log: seq<Datagram>, b: nat) {
    exists z: nat :: Separates(log, b, z)
  }

  ghost predicate MovedAfter(log: seq<Datagram>, b: nat, z: nat) {
    exists i :: z < i < |log| && MotionOf(log[i], b)
  }

  /** No zero of `b` comes after its last motion. */
  ghost predicate Unrested(log: seq<Datagram>, b: nat) {
    forall z: nat :: z < |log| && ZeroOf(log[z], b) ==> MovedAfter(log, b, z)
  }

  predicate Rested(p: Phase) { !p.Crashed? && !p.Abandoned? && p.rested }

  /** Not past its first release by more than the release itself. */
  predicate FirstStop(p: Phase) {
    p.Running? || ((p.Stopping? || p.Releasing? || p.Released?) && !p.again)
  }

  /** A first stop that confirms quiescence has sent its zero. */
  predicate PhaseOk(p: Phase) {
    && (p.Stopping? && p.zeroSent && !p.again ==> p.rested)
    && ((p.Releasing? || p.Released? || p.Done?) && p.quiescent && !p.again ==> p.rested)
  }

  ghost predicate RestIsRecorded(m: Machine) {
    forall b :: 0 <= b < |m.phases| ==>
      && PhaseOk(m.phases[b])
      && (Rested(m.phases[b]) ==> Quiet(m.log, b))
      && (FirstStop(m.phases[b]) && !m.phases[b].rested ==> Unrested(m.log, b))
  }

  ghost predicate TicketsIssued(m: Machine) {
    forall i :: 0 <= i < |m.log| && m.log[i].source.Behavior? ==> m.log[i].source.ticket < |m.phases|
  }

  ghost predicate Invariant(m: Machine) {
    && LeaseIsExclusive(m) && TicketsIssued(m) && MotionByOwner(m) && MotionInTurn(m.log)
    && QuietAfterDisarm(m) && RestIsRecorded(m)
  }

  lemma QuietExtends(log: seq<Datagram>, d: Datagram, b: nat)
    requires Quiet(log, b) && !MotionOf(d, b)
    ensures Quiet(log + [d], b)
  {
    var z: nat :| Separates(log, b, z);
    assert Separates(log + [d], b, z);
  }

  lemma UnrestedExtends(log: seq<Datagram>, d: Datagram, b: nat)
    requires Unrested(log, b) && !ZeroOf(d, b)
    ensures Unrested(log + [d], b)
  {
    forall z: nat | z < |log + [d]| && ZeroOf((log + [d])[z], b)
      ensures MovedAfter(log + [d], b, z)
    {
      assert ZeroOf(log[z], b) && MovedAfter(log, b, z);
      var i :| z < i < |log| && MotionOf(log[i], b);
      assert MotionOf((log + [d])[i], b);
    }
  }

  lemma MotionUnrests(log: seq<Datagram>, d: Datagram, b: nat)
    requires MotionOf(d, b)
    ensures Unrested(log + [d], b)
  {
    assert MotionOf((log + [d])[|log|], b);
  }

  /** The others are as they were when `d` is not theirs. */
  lemma OthersKeepRest(m: Machine, d: Datagram, c: nat)
    requires RestIsRecorded(m) && c < |m.phases| && d.source != Behavior(c)
    ensures Rested(m.phases[c]) ==> Quiet(m.log + [d], c)
    ensures FirstStop(m.phases[c]) && !m.phases[c].rested ==> Unrested(m.log + [d], c)
  {
    if Rested(m.phases[c]) {
      QuietExtends(m.log, d, c);
    }
    if FirstStop(m.phases[c]) && !m.phases[c].rested {
      UnrestedExtends(m.log, d, c);
    }
  }

  lemma ServerZeroKeeps(m: Machine)
    requires Invariant(m)
    ensures Invariant(Emit(m, Server, true))
  {
    forall c | 0 <= c < |m.phases|
      ensures Rested(m.phases[c]) ==> Quiet(Emit(m, Server, true).log, c)
      ensures FirstStop(m.phases[c]) && !m.phases[c].rested ==> Unrested(Emit(m, Server, true).log, c)
    {
      OthersKeepRest(m, Datagram(Server, true, m.owner), c);
    }
  }

  /** The newest behaviour rests with a zero: nothing later has moved yet. */
  lemma OwnZeroSeparates(m: Machine, b: nat, d: Datagram)
    requires Invariant(m) && Acts(m, b) && Live(m.phases[b]) && ZeroOf(d, b)
    ensures Quiet(m.log + [d], b)
  {
    assert Separates(m.log + [d], b, |m.log|);
  }

  lemma SendZeroKeeps(m: Machine, b: nat, p: Phase)
    requires Invariant(m) && Acts(m, b)
    requires (Live(p) <==> Live(m.phases[b])) && PhaseOk(p)
    requires if Live(m.phases[b]) then Rested(p) else !FirstStop(p) && (Rested(p) ==> Rested(m.phases[b]))
    ensures Invariant(Sends(m, b, true, p))
  {
    var d := Datagram(Behavior(b), true, m.owner);
    var k := Sends(m, b, true, p);
    if Live(m.phases[b]) {
      OwnZeroSeparates(m, b, d);
    } else if Rested(p) {
      QuietExtends(m.log, d, b);
    }
    forall c | 0 <= c < |k.phases| && c != b
      ensures Rested(k.phases[c]) ==> Quiet(k.log, c)
      ensures FirstStop(k.phases[c]) && !k.phases[c].rested ==> Unrested(k.log, c)
    {
      OthersKeepRest(m, d, c);
    }
  }

  lemma SendMotionKeeps(m: Machine, b: nat, p: Phase)
    requires Invariant(m) && Acts(m, b) && m.phases[b].Running? && m.disarmedAt.None?
    requires Live(p) && PhaseOk(p) && !Rested(p)
    ensures Invariant(Sends(m, b, false, p))
  {
    var d := Datagram(Behavior(b), false, m.owner);
    var k := Sends(m, b, false, p);
    assert Live(m.phases[b]);
    MotionUnrests(m.log, d, b);
    forall c | 0 <= c < |k.phases| && c != b
      ensures Rested(k.phases[c]) ==> Quiet(k.log, c)
      ensures FirstStop(k.phases[c]) && !k.phases[c].rested ==> Unrested(k.log, c)
    {
      OthersKeepRest(m, d, c);
    }
  }

  /** Changing phase without changing the lease keeps the invariant. */
  lemma EnterKeeps(m: Machine, b: nat, p: Phase)
    requires Invariant(m) && Acts(m, b)
    requires (Live(p) <==> Live(m.phases[b])) && PhaseOk(p)
    requires Rested(p) ==> Rested(m.phases[b])
    requires FirstStop(p) && !p.rested ==> FirstStop(m.phases[b]) && !m.phases[b].rested
    ensures Invariant(Enter(m, b, p))
  {}

  lemma ReserveKeeps(m: Machine)
    requires Invariant(m) && m.owner.None?
    ensures Invariant(Apply(m, Reserve))
  {
    assert Unrested(m.log, |m.phases|);
  }

  lemma ReleaseKeeps(m: Machine, b: nat)
    requires Invariant(m) && Enabled(m, Release(b)) && !ForeignRelease(m, Release(b))
    ensures Invariant(Apply(m, Release(b)))
  {}

  lemma DisarmKeeps(m: Machine)
    requires Invariant(m)
    ensures Invariant(Disarmed(m))
  {}

  lemma SendKeeps(m: Machine, b: nat, zero: bool, p: Phase)
    requires Invariant(m) && Acts(m, b) && m.phases[b].Running? && (m.disarmedAt.Some? ==> zero)
    requires Live(p) && PhaseOk(p) && (Rested(p) <==> zero)
    ensures Invariant(Sends(m, b, zero, p))
  {
    if zero {
      SendZeroKeeps(m, b, p);
    } else {
      SendMotionKeeps(m, b, p);
    }
  }

  lemma RunningStepKeeps(m: Machine, s: Step)
    requires Invariant(m) && Enabled(m, s)
    requires s.SendMotion? || s.SendRefused? || s.SendRaises? || s.Finish? || s.Fail? || s.ContextEnds?
    ensures Invariant(Apply(m, s))
  {
    match s
    case SendMotion(b, zero) => SendKeeps(m, b, zero, Running(zero));
    case SendRefused(b) => SendKeeps(m, b, true, Stopping(false, true, false, false));
    case SendRaises(b, sent) =>
      if sent.Some? {
        SendKeeps(m, b, sent.value, Stopping(false, sent.value, true, false));
      } else {
        EnterKeeps(m, b, Stopping(false, m.phases[b].rested, true, false));
      }
    case Finish(b) => EnterKeeps(m, b, Stopping(false, m.phases[b].rested, false, false));
    case Fail(b) => EnterKeeps(m, b, Stopping(false, m.phases[b].rested, true, false));
    case ContextEnds(b) => EnterKeeps(m, b, Abandoned);
  }

  lemma StoppingStepKeeps(m: Machine, s: Step)
    requires Invariant(m) && Enabled(m, s)
    requires s.StopZero? || s.StopRaises? || s.StopEnds? || s.Report? || s.FinishRaises?
    ensures Invariant(Apply(m, s))
  {
    var p := m.phases[s.b];
    match s
    case StopZero(b) => SendZeroKeeps(m, b, Stopping(true, p.rested || !p.again, p.handler, p.again));
    case StopRaises(b, left) =>
      if left {
        SendZeroKeeps(m, b, Releasing(false, p.rested || !p.again, p.handler, p.again));
      } else {
        EnterKeeps(m, b, Releasing(false, p.rested, p.handler, p.again));
      }
    case StopEnds(b) => EnterKeeps(m, b, Releasing(true, p.rested, p.handler, p.again));
    case Report(b) => EnterKeeps(m, b, Done(p.quiescent, p.rested, p.again));
    case FinishRaises(b) => EnterKeeps(m, b, if p.handler then Crashed else Stopping(false, p.rested, true, true));
  }

  lemma StepKeepsInvariant(m: Machine, s: Step)
    requires Invariant(m) && Enabled(m, s) && !ForeignRelease(m, s)
    ensures Invariant(Apply(m, s))
  {
    match s
    case Reserve => ReserveKeeps(m);
    case Release(b) => ReleaseKeeps(m, b);
    case DisarmServer(left) =>
      DisarmKeeps(m);
      if left {
        ServerZeroKeeps(Disarmed(m));
      }
    case ServerZero => ServerZeroKeeps(m);
    case StopZero(_) | StopRaises(_, _) | StopEnds(_) | Report(_) | FinishRaises(_) => StoppingStepKeeps(m, s);
    case _ => RunningStepKeeps(m, s);
  }

  // -------------------------------------------------------------------------- whole runs

  /** The state after a run, if every step of it was possible. */
  function After(m: Machine, steps: seq<Step>): Option<Machine> {
    if steps == [] then Some(m)
    else
      Taking(After(m, steps[..|steps| - 1]), steps[|steps| - 1])
  }

  function Taking(m: Option<Machine>, s: Step): Option<Machine> {
    if m.Some? && Enabled(m.value, s) then Some(Apply(m.value, s)) else None
  }

  /** No step of the run releases the lease of another behaviour. */
  predicate NoForeignRelease(m: Machine, steps: seq<Step>) {
    steps == [] ||
    (NoForeignRelease(m, steps[..|steps| - 1]) && Keeps(After(m, steps[..|steps| - 1]), steps[|steps| - 1]))
  }

  predicate Keeps(m: Option<Machine>, s: Step) {
    m.Some? ==> !ForeignRelease(m.value, s)
  }

  lemma {:induction false} RunKeepsInvariant(m: Machine, steps: seq<Step>)
    requires Invariant(m) && After(m, steps).Some? && NoForeignRelease(m, steps)
    ensures Invariant(After(m, steps).value)
  {
    if steps != [] {
      var n := |steps| - 1;
      RunKeepsInvariant(m, steps[..n]);
      StepKeepsInvariant(After(m, steps[..n]).value, steps[n]);
    }
  }

  /** A behaviour that reported confirmed quiescence. */
  predicate ReportsQuiescence(p: Phase) { p.Done? && p.quiescent }

  /** Over all interleavings in which nobody releases a foreign lease: only the owner of the
      lease emits motion, behaviours move one after the other, and nothing moves after the
      server disarmed the sink. A behaviour that reported quiescence at its first stop rested
      before it released; and every behaviour that did, at whichever stop it reported, has a
      zero of its own after its last motion and before the motion of every later behaviour. */
  lemma LeaseProtectsMotion(steps: seq<Step>)
    requires After(INITIAL, steps).Some? && NoForeignRelease(INITIAL, steps)
    ensures
      var m := After(INITIAL, steps).value;
      && MotionByOwner(m) && MotionInTurn(m.log) && QuietAfterDisarm(m)
      && forall b :: 0 <= b < |m.phases| && ReportsQuiescence(m.phases[b]) ==>
           && (!m.phases[b].again ==> m.phases[b].rested)
           && (m.phases[b].rested ==> Quiet(m.log, b))
  {
    RunKeepsInvariant(INITIAL, steps);
  }

  /** As long as finishing a goal never raises after the release, no lease is released twice. */
  lemma {:induction false} CleanFinishesReleaseOnce(steps: seq<Step>)
    requires After(INITIAL, steps).Some?
    requires forall s <- steps :: !s.FinishRaises?
    ensures NoForeignRelease(INITIAL, steps)
    ensures forall p <- After(INITIAL, steps).value.phases ::
              (p.Stopping? || p.Releasing? || p.Released? || p.Done?) ==> !p.again
  {
    if steps != [] {
      var n := |steps| - 1;
      assert steps[n] in steps;
      assert forall s <- steps[..n] :: s in steps;
      CleanFinishesReleaseOnce(steps[..n]);
      RunKeepsInvariant(INITIAL, steps[..n]);
      CleanStep(After(INITIAL, steps[..n]).value, steps[n]);
    }
  }

  lemma CleanStep(m: Machine, s: Step)
    requires Invariant(m) && Enabled(m, s) && !s.FinishRaises?
    requires forall p <- m.phases :: (p.Stopping? || p.Releasing? || p.Released? || p.Done?) ==> !p.again
    ensures !ForeignRelease(m, s)
    ensures forall p <- Apply(m, s).phases :: (p.Stopping? || p.Releasing? || p.Released? || p.Done?) ==> !p.again
  {
    var k := Apply(m, s);
    forall c | 0 <= c < |k.phases|
      ensures var p := k.phases[c]; (p.Stopping? || p.Releasing? || p.Released? || p.Done?) ==> !p.again
    {
      if c < |m.phases| {
        assert m.phases[c] in m.phases;
      }
    }
    if s.Release? {
      assert m.phases[s.b] in m.phases;
      assert Live(m.phases[s.b]);
    }
  }

  /** A release keeps the lease exclusive exactly when the lease is free or the releasing
      behaviour's own. */
  lemma ReleaseIsSafeIff(m: Machine, b: nat)
    requires Invariant(m) && Enabled(m, Release(b))
    ensures LeaseIsExclusive(Apply(m, Release(b))) <==> (m.owner == None || m.owner == Some(b))
  {
    if m.owner.Some? && m.owner.value != b {
      var c := m.owner.value;
      assert Live(m.phases[c]);
      assert Apply(m, Release(b)).phases[c] == m.phases[c];
    } else {
      ReleaseKeeps(m, b);
    }
  }

  /** From `m` on, as long as no foreign lease is released, all motion comes from the owner. */
  ghost predicate MotionStaysOwned(m: Machine) {
    forall steps: seq<Step> ::
      After(m, steps).Some? && NoForeignRelease(m, steps) ==> MotionByOwner(After(m, steps).value)
  }

  /** Only the owner can still move the machine, or nobody can. */
  ghost predicate OnlyOwnerCanMove(m: Machine) {
    && MotionByOwner(m) && (m.owner.Some? ==> m.owner.value < |m.phases|)
    && (m.disarmedAt.Some? || forall b :: 0 <= b < |m.phases| && m.phases[b].Running? ==> m.owner == Some(b))
  }

  lemma OnlyOwnerStep(m: Machine, s: Step)
    requires OnlyOwnerCanMove(m) && Enabled(m, s) && !ForeignRelease(m, s)
    ensures OnlyOwnerCanMove(Apply(m, s))
  {}

  lemma {:induction false} OnlyOwnerRun(m: Machine, steps: seq<Step>)
    requires OnlyOwnerCanMove(m) && After(m, steps).Some? && NoForeignRelease(m, steps)
    ensures OnlyOwnerCanMove(After(m, steps).value)
  {
    if steps != [] {
      var n := |steps| - 1;
      OnlyOwnerRun(m, steps[..n]);
      OnlyOwnerStep(After(m, steps[..n]).value, steps[n]);
    }
  }

  /** The lease that `b` releases is free, or its own, or its owner can no longer move, or the
      sink is disarmed. */
  predicate Harmless(m: Machine, b: nat) {
    || m.owner.None? || m.owner == Some(b) || m.disarmedAt.Some?
    || (m.owner.value < |m.phases| && !m.phases[m.owner.value].Running?)
  }

  lemma RunningIsOwner(m: Machine)
    requires Invariant(m)
    ensures OnlyOwnerCanMove(m)
  {
    assert forall b :: 0 <= b < |m.phases| && m.phases[b].Running? ==> Live(m.phases[b]);
  }

  /** A behaviour that keeps running without the lease can move at once. */
  lemma RunningOnMoves(m: Machine, c: nat)
    requires m.owner.None? && m.disarmedAt.None? && Acts(m, c) && m.phases[c].Running?
    ensures !MotionStaysOwned(m)
  {
    var step := SendMotion(c, false);
    var k := Apply(m, step);
    OneStepRuns(m, step);
    assert k.log[|m.log|] == Datagram(Behavior(c), false, None);
    UnownedMotion(k, |m.log|);
  }

  lemma OneStepRuns(m: Machine, s: Step)
    requires Enabled(m, s) && !ForeignRelease(m, s)
    ensures After(m, [s]) == Some(Apply(m, s)) && NoForeignRelease(m, [s])
  {
    assert [s][..0] == [];
    assert After(m, []) == Some(m) && NoForeignRelease(m, []);
  }

  lemma UnownedMotion(m: Machine, i: nat)
    requires i < |m.log| && Moves(m.log[i]) && m.log[i].owner.None?
    ensures !MotionByOwner(m)
  {}

  /** A release leaves all motion to the owner of the lease, in every continuation without
      another foreign release, if and only if it is harmless. */
  lemma ReleaseKeepsMotionOwnedIff(m: Machine, b: nat)
    requires Invariant(m) && Enabled(m, Release(b))
    ensures MotionStaysOwned(Apply(m, Release(b))) <==> Harmless(m, b)
  {
    var start := Apply(m, Release(b));
    RunningIsOwner(m);
    if Harmless(m, b) {
      assert OnlyOwnerCanMove(start);
      forall steps: seq<Step> | After(start, steps).Some? && NoForeignRelease(start, steps)
        ensures MotionByOwner(After(start, steps).value)
      {
        OnlyOwnerRun(start, steps);
      }
    } else {
      RunningOnMoves(start, m.owner.value);
    }
  }

  // ------------------------------------------------------- what a second stop can promise

  /** Whatever happens from `m` on without a foreign release, a quiescence that `b` reports
      is one. */
  ghost predicate StaysQuiet(m: Machine, b: nat) {
    forall steps: seq<Step> ::
      After(m, steps).Some? && NoForeignRelease(m, steps) ==> EndsQuiet(After(m, steps).value, b)
  }

  ghost predicate EndsQuiet(m: Machine, b: nat) {
    Acts(m, b) && ReportsQuiescence(m.phases[b]) ==> Quiet(m.log, b)
  }

  /** Past the first release. */
  predicate GaveBack(p: Phase) {
    p.Released? || p.Done? || p.Crashed? || ((p.Stopping? || p.Releasing?) && p.again)
  }

  /** What the steps of any behaviour leave of `b` once it gave the lease back: it keeps its
      rest, and from its handler it can neither stop again nor confirm anything new. */
  predicate Follows(p: Phase, q: Phase) {
    && GaveBack(p) && GaveBack(q)
    && (Rested(p) && !q.Crashed? ==> Rested(q))
    && (Hopeless(p) ==> Hopeless(q))
  }

  predicate Hopeless(p: Phase) {
    p.Crashed? || (p.Done? && !p.quiescent) || (p.Released? && !p.quiescent && p.handler)
  }

  lemma {:induction false} RunFollows(m: Machine, steps: seq<Step>, b: nat)
    requires After(m, steps).Some? && Acts(m, b) && GaveBack(m.phases[b])
    ensures Acts(After(m, steps).value, b) && Follows(m.phases[b], After(m, steps).value.phases[b])
  {
    if steps != [] {
      RunFollows(m, steps[..|steps| - 1], b);
    }
  }

  /** From `m` on nothing moves, and a second stop of `b` that confirms has sent its zero since. */
  ghost predicate Stills(m: Machine, k: Machine, b: nat) {
    && Acts(k, b) && GaveBack(k.phases[b]) && m.log <= k.log && k.disarmedAt.Some?
    && (forall i :: |m.log| <= i < |k.log| ==> !Moves(k.log[i]))
    && (ConfirmsAgain(k.phases[b]) ==> ZeroSince(m.log, k.log, b))
  }

  predicate ConfirmsAgain(p: Phase) {
    (p.Stopping? && p.zeroSent && p.again) || ((p.Releasing? || p.Released? || p.Done?) && p.quiescent && p.again)
  }

  ghost predicate ZeroSince(before: seq<Datagram>, log: seq<Datagram>, b: nat) {
    exists z: nat :: |before| <= z < |log| && ZeroOf(log[z], b)
  }

  lemma StillsStep(m: Machine, k: Machine, b: nat, s: Step)
    requires Stills(m, k, b) && Enabled(k, s)
    ensures Stills(m, Apply(k, s), b)
  {
    var next := Apply(k, s);
    assert k.log <= next.log;
    if ConfirmsAgain(k.phases[b]) {
      var z: nat :| |m.log| <= z < |k.log| && ZeroOf(k.log[z], b);
      assert ZeroOf(next.log[z], b);
    } else if s.StopZero? && s.b == b {
      assert ZeroOf(next.log[|k.log|], b);
    }
  }

  lemma {:induction false} RunStills(m: Machine, steps: seq<Step>, b: nat)
    requires After(m, steps).Some? && Stills(m, m, b)
    ensures Stills(m, After(m, steps).value, b)
  {
    if steps != [] {
      var n := |steps| - 1;
      RunStills(m, steps[..n], b);
      StillsStep(m, After(m, steps[..n]).value, b, steps[n]);
    }
  }

  lemma StillIsQuiet(m: Machine, k: Machine, b: nat)
    requires Stills(m, k, b) && ConfirmsAgain(k.phases[b])
    requires forall i :: 0 <= i < |m.log| && MotionOfBehavior(m.log[i]) ==> m.log[i].source.ticket <= b
    ensures Quiet(k.log, b)
  {
    var z: nat :| |m.log| <= z < |k.log| && ZeroOf(k.log[z], b);
    assert forall i :: 0 <= i < |m.log| ==> k.log[i] == m.log[i];
    assert Separates(k.log, b, z);
  }

  /** The state in which a behaviour gives the lease back for the first time. */
  ghost predicate FirstRelease(m: Machine, b: nat) {
    Invariant(m) && Enabled(m, Release(b)) && !m.phases[b].again
  }

  lemma RestSuffices(m: Machine, b: nat)
    requires FirstRelease(m, b)
    requires m.phases[b].rested || m.phases[b].handler || m.disarmedAt.Some?
    ensures StaysQuiet(Apply(m, Release(b)), b)
  {
    assert Live(m.phases[b]);
    ReleaseKeeps(m, b);
    var start := Apply(m, Release(b));
    forall steps: seq<Step> | After(start, steps).Some? && NoForeignRelease(start, steps)
      ensures EndsQuiet(After(start, steps).value, b)
    {
      RunKeepsInvariant(start, steps);
      RunFollows(start, steps, b);
      var k := After(start, steps).value;
      if ReportsQuiescence(k.phases[b]) && !Rested(k.phases[b]) {
        assert !Hopeless(k.phases[b]) && m.disarmedAt.Some?;
        RunStills(start, steps, b);
        StillIsQuiet(start, k, b);
      }
    }
  }

  /** The states of the continuation in which a later behaviour moves before `b` stops again. */
  function Overtaken(m: Machine, b: nat, i: nat): Machine
    requires b < |m.phases| && i <= 11
  {
    var c := |m.phases|;
    var own :=
      if i == 0 then Released(false, false, false, false)
      else if i <= 7 then Stopping(false, false, true, true)
      else if i == 8 then Stopping(true, false, true, true)
      else if i == 9 then Releasing(true, false, true, true)
      else if i == 10 then Released(true, false, true, true)
      else Done(true, false, true);
    var other :=
      if i <= 3 then Running(false)
      else if i == 4 then Stopping(false, false, false, false)
      else if i == 5 then Stopping(true, true, false, false)
      else if i == 6 then Releasing(true, true, false, false)
      else Released(true, true, false, false);
    var owner := if 2 <= i <= 6 then Some(c) else None;
    var extra :=
      (if i >= 3 then [Datagram(Behavior(c), false, Some(c))] else [])
      + (if i >= 5 then [Datagram(Behavior(c), true, Some(c))] else [])
      + (if i >= 8 then [Datagram(Behavior(b), true, None)] else []);
    Machine(owner, m.phases[b := own] + (if i >= 2 then [other] else []), None, m.log + extra)
  }

  function OvertakingStep(b: nat, c: nat, i: nat): Step
    requires i < 11
  {
    [FinishRaises(b), Reserve, SendMotion(c, false), Finish(c), StopZero(c), StopEnds(c), Release(c),
     StopZero(b), StopEnds(b), Release(b), Report(b)][i]
  }

  lemma OvertakingContinues(m: Machine, b: nat, i: nat)
    requires b < |m.phases| && i < 11
    ensures
      var s := OvertakingStep(b, |m.phases|, i);
      && Enabled(Overtaken(m, b, i), s) && !ForeignRelease(Overtaken(m, b, i), s)
      && Apply(Overtaken(m, b, i), s) == Overtaken(m, b, i + 1)
  {
    var next := Apply(Overtaken(m, b, i), OvertakingStep(b, |m.phases|, i));
    assert next.phases == Overtaken(m, b, i + 1).phases;
    assert next.log == Overtaken(m, b, i + 1).log;
  }

  lemma Continue(m: Machine, steps: seq<Step>, k: Machine, s: Step)
    requires After(m, steps) == Some(k) && Enabled(k, s)
    ensures After(m, steps + [s]) == Some(Apply(k, s))
    ensures NoForeignRelease(m, steps) && !ForeignRelease(k, s) ==> NoForeignRelease(m, steps + [s])
  {
    assert (steps + [s])[..|steps|] == steps;
  }

  lemma Overtake(m: Machine, b: nat) returns (steps: seq<Step>)
    requires b < |m.phases| && m == Overtaken(m, b, 0)
    ensures After(m, steps) == Some(Overtaken(m, b, 11)) && NoForeignRelease(m, steps)
  {
    steps := [];
    for i := 0 to 11
      invariant After(m, steps) == Some(Overtaken(m, b, i)) && NoForeignRelease(m, steps)
    {
      OvertakingContinues(m, b, i);
      Continue(m, steps, Overtaken(m, b, i), OvertakingStep(b, |m.phases|, i));
      steps := steps + [OvertakingStep(b, |m.phases|, i)];
    }
  }

  lemma OvertakenIsNotQuiet(m: Machine, b: nat)
    requires b < |m.phases| && Unrested(m.log, b)
    ensures !Quiet(Overtaken(m, b, 11).log, b)
  {
    var log, n := Overtaken(m, b, 11).log, |m.log|;
    assert MotionOfBehavior(log[n]) && log[n].source.ticket == |m.phases|;
    forall z: nat
      ensures !Separates(log, b, z)
    {
      if z < n && ZeroOf(m.log[z], b) {
        MovedAfterDenies(m.log, log, b, z);
      } else if z < n {
        assert log[z] == m.log[z];
      }
    }
  }

  lemma MovedAfterDenies(before: seq<Datagram>, log: seq<Datagram>, b: nat, z: nat)
    requires before <= log && MovedAfter(before, b, z)
    ensures !Separates(log, b, z)
  {
    var i :| z < i < |before| && MotionOf(before[i], b);
    assert MotionOf(log[i], b);
  }

  /** Exactly when a behaviour's report of quiescence can be trusted, decided as it gives the
      lease back for the first time: when a zero of its own has left since its last motion, or
      it is already in its exception handler and cannot stop a second time, or the sink is
      disarmed. In every other case some continuation, free of foreign releases, has it report
      quiescence although a later behaviour moved before its zero. */
  lemma FirstReleaseDecides(m: Machine, b: nat)
    requires FirstRelease(m, b)
    ensures
      StaysQuiet(Apply(m, Release(b)), b) <==>
      m.phases[b].rested || m.phases[b].handler || m.disarmedAt.Some?
  {
    var start := Apply(m, Release(b));
    if m.phases[b].rested || m.phases[b].handler || m.disarmedAt.Some? {
      RestSuffices(m, b);
    } else {
      assert start == Overtaken(start, b, 0) by {
        assert start.phases == start.phases[b := start.phases[b]];
      }
      var steps := Overtake(start, b);
      assert Unrested(m.log, b);
      OvertakenIsNotQuiet(start, b);
      assert !EndsQuiet(After(start, steps).value, b);
    }
  }

  /** It happens: a stop that raises before its zero leaves, and then an exception after the
      release, end in a confirmed quiescence that another behaviour's motion has overtaken. */
  lemma ConfirmedQuiescenceCanBeLate()
    ensures exists steps: seq<Step> ::
              && After(INITIAL, steps).Some? && NoForeignRelease(INITIAL, steps)
              && LateReport(After(INITIAL, steps).value)
  {
    var first: seq<Step> := [];
    for i := 0 to |RAISED_STOP|
      invariant After(INITIAL, first) == Some(Raised(i)) && NoForeignRelease(INITIAL, first)
    {
      RaisedContinues(i);
      Continue(INITIAL, first, Raised(i), RAISED_STOP[i]);
      first := first + [RAISED_STOP[i]];
    }
    var start := Raised(5);
    assert start.phases[0 := start.phases[0]] + [] == start.phases && start.log + [] == start.log;
    var steps := Overtake(start, 0);
    OvertakenIsNotQuiet(start, 0);
    RunsJoin(INITIAL, first, steps);
    assert LateReport(After(INITIAL, first + steps).value);
  }

  /** The first behaviour confirmed its quiescence and is not quiet. */
  ghost predicate LateReport(m: Machine) {
    m.phases != [] && m.phases[0] == Done(true, false, true) && !Quiet(m.log, 0)
  }

  const RAISED_STOP := [Reserve, SendMotion(0, false), Finish(0), StopRaises(0, false), Release(0)]

  /** The states of the run up to the release. */
  function Raised(i: nat): Machine {
    var moved := Datagram(Behavior(0), false, Some(0));
    if i == 0 then INITIAL
    else if i == 1 then Machine(Some(0), [Running(false)], None, [])
    else if i == 2 then Machine(Some(0), [Running(false)], None, [moved])
    else if i == 3 then Machine(Some(0), [Stopping(false, false, false, false)], None, [moved])
    else if i == 4 then Machine(Some(0), [Releasing(false, false, false, false)], None, [moved])
    else Machine(None, [Released(false, false, false, false)], None, [moved])
  }

  lemma RaisedContinues(i: nat)
    requires i < |RAISED_STOP|
    ensures Enabled(Raised(i), RAISED_STOP[i]) && !ForeignRelease(Raised(i), RAISED_STOP[i])
    ensures Apply(Raised(i), RAISED_STOP[i]) == Raised(i + 1)
  {}

  lemma {:induction false} StatesJoin(m: Machine, a: seq<Step>, b: seq<Step>)
    requires After(m, a).Some?
    ensures After(m, a + b) == After(After(m, a).value, b)
  {
    if b == [] {
      assert a + b == a;
    } else {
      var n := |b| - 1;
      StatesJoin(m, a, b[..n]);
      assert (a + b)[..|a| + n] == a + b[..n];
      assert After(m, a + b) == Taking(After(m, a + b[..n]), b[n]);
    }
  }

  lemma {:induction false} RunsJoin(m: Machine, a: seq<Step>, b: seq<Step>)
    requires After(m, a).Some? && NoForeignRelease(m, a) && NoForeignRelease(After(m, a).value, b)
    ensures After(m, a + b) == After(After(m, a).value, b) && NoForeignRelease(m, a + b)
  {
    StatesJoin(m, a, b);
    if b == [] {
      assert a + b == a;
    } else {
      var n := |b| - 1;
      RunsJoin(m, a, b[..n]);
      JoinedLast(a, b);
      OneMoreKeeps(m, a + b[..n], b[n]);
    }
  }

  lemma JoinedLast(a: seq<Step>, b: seq<Step>)
    requires b != []
    ensures a + b == a + b[..|b| - 1] + [b[|b| - 1]]
  {}

  lemma OneMoreKeeps(m: Machine, steps: seq<Step>, s: Step)
    requires NoForeignRelease(m, steps) && Keeps(After(m, steps), s)
    ensures NoForeignRelease(m, steps + [s])
  {
    assert (steps + [s])[..|steps|] == steps;
  }

  // ------------------------------------------------------------------- the double release

  /** The double release happens: the first behaviour finishes, its goal transition raises
      after the release, a second behaviour takes the lease and moves, the handler of the first
      releases again, and a third behaviour moves while the second still does. */
  lemma DoubleReleaseBreaksTheLease()
    ensures exists steps: seq<Step> ::
              && After(INITIAL, steps).Some?
              && !MotionByOwner(After(INITIAL, steps).value) && !MotionInTurn(After(INITIAL, steps).value.log)
  {
    var steps, m := [Reserve], Apply(INITIAL, Reserve);
    Continue(INITIAL, [], INITIAL, Reserve);
    for i := 0 to |SCRIPT|
      invariant After(INITIAL, steps) == Some(m)
      invariant m == Scene(i)
    {
      SceneContinues(i);
      Continue(INITIAL, steps, m, SCRIPT[i]);
      steps, m := steps + [SCRIPT[i]], Apply(m, SCRIPT[i]);
    }
    assert !MotionByOwner(m) by {
      assert Moves(m.log[4]);
    }
    assert !MotionInTurn(m.log) by {
      assert MotionOfBehavior(m.log[3]) && MotionOfBehavior(m.log[4]);
    }
  }

  const SCRIPT := [
    Finish(0), StopZero(0), StopEnds(0), Release(0), FinishRaises(0),
    Reserve, SendMotion(1, false), StopZero(0), StopEnds(0), Release(0),
    Reserve, SendMotion(2, false), SendMotion(1, false)]

  lemma SceneContinues(i: nat)
    requires i < |SCRIPT|
    ensures Enabled(Scene(i), SCRIPT[i]) && Apply(Scene(i), SCRIPT[i]) == Scene(i + 1)
  {}

  /** The states of the run above after its first step. */
  function Scene(i: nat): Machine {
    var zero := Datagram(Behavior(0), true, Some(0));
    var moved := Datagram(Behavior(1), false, Some(1));
    var late := Datagram(Behavior(0), true, Some(1));
    var third := Datagram(Behavior(2), false, Some(2));
    var stray := Datagram(Behavior(1), false, Some(2));
    var going, again := Running(false), Released(true, true, true, true);
    if i == 0 then Machine(Some(0), [going], None, [])
    else if i == 1 then Machine(Some(0), [Stopping(false, false, false, false)], None, [])
    else if i == 2 then Machine(Some(0), [Stopping(true, true, false, false)], None, [zero])
    else if i == 3 then Machine(Some(0), [Releasing(true, true, false, false)], None, [zero])
    else if i == 4 then Machine(None, [Released(true, true, false, false)], None, [zero])
    else if i == 5 then Machine(None, [Stopping(false, true, true, true)], None, [zero])
    else if i == 6 then Machine(Some(1), [Stopping(false, true, true, true), going], None, [zero])
    else if i == 7 then Machine(Some(1), [Stopping(false, true, true, true), going], None, [zero, moved])
    else if i == 8 then Machine(Some(1), [Stopping(true, true, true, true), going], None, [zero, moved, late])
    else if i == 9 then Machine(Some(1), [Releasing(true, true, true, true), going], None, [zero, moved, late])
    else if i == 10 then Machine(None, [again, going], None, [zero, moved, late])
    else if i == 11 then Machine(Some(2), [again, going, going], None, [zero, moved, late])
    else if i == 12 then Machine(Some(2), [again, going, going], None, [zero, moved, late, third])
    else Machine(Some(2), [again, going, going], None, [zero, moved, late, third, stray])
  }
}
