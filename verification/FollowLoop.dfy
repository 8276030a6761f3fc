/** The live Follow loop with the two tables it reads
    (`runtime_bridge/apps/live_machine_behavior_server.py`): machine states admitted by the
    receiver thread and bucket tips keyed by their millisecond stamp. */
module FollowLoop {
  import opened Geometry
  import opened Wrappers
  import opened FixedActions
  import opened TrajectoryTracker
  import opened FollowSession

  // ------------------------------------------------------------------- the state receiver

  const OFFSET_TOLERANCE := 250

  datatype StatePacket = StatePacket(fromOrin: bool, machineMatches: bool, seqNo: int, stamp: int)

  datatype StateSample = StateSample(sequence: nat, packet: StatePacket)

  datatype Provenance =
    | SourceMismatch | MachineMismatch | StampInvalid | SequenceNotIncreasing | StampNotIncreasing | OffsetJump
    | Accepted

  /** `lastSeq` and `lastStamp` are set together with `latest`. */
  datatype ReceiverState = ReceiverState(
    lastSeq: Option<int>, lastStamp: Option<int>, offset: Option<int>, sequence: nat, latest: Option<StateSample>)

  const NO_STATES := ReceiverState(None, None, None, 0, None)

  function Judge(r: ReceiverState, p: StatePacket, receivedMs: int): Provenance {
    if !p.fromOrin then SourceMismatch
    else if !p.machineMatches then MachineMismatch
    else if p.stamp <= 0 then StampInvalid
    else if r.lastSeq.Some? && p.seqNo <= r.lastSeq.value then SequenceNotIncreasing
    else if r.lastStamp.Some? && p.stamp <= r.lastStamp.value then StampNotIncreasing
    else if r.offset.Some? && (p.stamp - receivedMs - r.offset.value > OFFSET_TOLERANCE
                               || r.offset.value - (p.stamp - receivedMs) > OFFSET_TOLERANCE) then OffsetJump
    else Accepted
  }

  function Received(r: ReceiverState, p: StatePacket, receivedMs: int): ReceiverState {
    if !Judge(r, p, receivedMs).Accepted? then r
    else
      ReceiverState(
        Some(p.seqNo), Some(p.stamp), if r.offset.None? then Some(p.stamp - receivedMs) else r.offset,
        r.sequence + 1, Some(StateSample(r.sequence + 1, p)))
  }

  class StateReceiver {
    var lastSeq: Option<int>
    var lastStamp: Option<int>
    var offset: Option<int>
    var sequence: nat
    var latest: Option<StateSample>

    function State(): ReceiverState
      reads this
    {
      ReceiverState(lastSeq, lastStamp, offset, sequence, latest)
    }

    constructor ()
      ensures State() == NO_STATES
    {
      lastSeq, lastStamp, offset, sequence, latest := None, None, None, 0, None;
    }

    method Receive(p: StatePacket, receivedMs: int) returns (verdict: Provenance)
      modifies this
      ensures verdict == Judge(old(State()), p, receivedMs)
      ensures State() == Received(old(State()), p, receivedMs)
    {
      verdict := Judge(State(), p, receivedMs);
      if !verdict.Accepted? {
        return;
      }
      lastSeq := Some(p.seqNo);
      lastStamp := Some(p.stamp);
      if offset.None? {
        offset := Some(p.stamp - receivedMs);
      }
      sequence := sequence + 1;
      latest := Some(StateSample(sequence, p));
    }
  }

  datatype Arrival = Arrival(p: StatePacket, receivedMs: int)

  function ReceivedAll(arrivals: seq<Arrival>): ReceiverState {
    if arrivals == [] then NO_STATES
    else
      var n := |arrivals| - 1;
      Received(ReceivedAll(arrivals[..n]), arrivals[n].p, arrivals[n].receivedMs)
  }

  /** Over any stream of packets, the state held later is the same one or has a larger local
      number, source number and source stamp. */
  lemma {:induction false} HeldStatesAdvance(arrivals: seq<Arrival>, k: nat)
    requires k <= |arrivals| && ReceivedAll(arrivals[..k]).latest.Some?
    ensures ReceiverOk(ReceivedAll(arrivals)) && ReceivedAll(arrivals).latest.Some?
    ensures
      var earlier, later := ReceivedAll(arrivals[..k]).latest.value, ReceivedAll(arrivals).latest.value;
      || later == earlier
      || (later.sequence > earlier.sequence && later.packet.seqNo > earlier.packet.seqNo
          && later.packet.stamp > earlier.packet.stamp)
    decreases |arrivals|
  {
    ReceivedAllIsOk(arrivals);
    if k < |arrivals| {
      var n := |arrivals| - 1;
      assert arrivals[..n][..k] == arrivals[..k];
      ReceivedAllIsOk(arrivals[..n]);
      HeldStatesAdvance(arrivals[..n], k);
    } else {
      assert arrivals[..k] == arrivals;
    }
  }

  predicate ReceiverOk(r: ReceiverState) {
    && (r.latest.Some? <==> r.lastStamp.Some?) && (r.latest.Some? <==> r.lastSeq.Some?)
    && (r.latest.Some? ==>
          && r.latest.value.sequence == r.sequence
          && r.latest.value.packet.stamp == r.lastStamp.value && r.latest.value.packet.seqNo == r.lastSeq.value)
    && (r.latest.None? ==> r.sequence == 0)
  }

  lemma {:induction false} ReceivedAllIsOk(arrivals: seq<Arrival>)
    ensures ReceiverOk(ReceivedAll(arrivals))
  {
    if arrivals != [] {
      ReceivedAllIsOk(arrivals[..|arrivals| - 1]);
    }
  }

  predicate AcceptedAt(arrivals: seq<Arrival>, i: nat)
    requires i < |arrivals|
  {
    Judge(ReceivedAll(arrivals[..i]), arrivals[i].p, arrivals[i].receivedMs).Accepted?
  }

  function Offset(a: Arrival): int { a.p.stamp - a.receivedMs }

  predicate Beyond(later: StatePacket, earlier: StatePacket) {
    later.seqNo > earlier.seqNo && later.stamp > earlier.stamp
  }

  predicate FirstAccepted(arrivals: seq<Arrival>, i: nat)
    requires i < |arrivals|
  {
    AcceptedAt(arrivals, i) && forall k :: 0 <= k < i ==> !AcceptedAt(arrivals, k)
  }

  /** What the receiver remembers of the first `n` packets: the first and the last accepted. */
  ghost predicate Remembers(arrivals: seq<Arrival>, n: nat, first: nat, last: nat)
    requires n <= |arrivals|
  {
    var r := ReceivedAll(arrivals[..n]);
    && first <= last < n && FirstAccepted(arrivals, first) && AcceptedAt(arrivals, last)
    && r.offset == Some(Offset(arrivals[first]))
    && r.lastSeq == Some(arrivals[last].p.seqNo) && r.lastStamp == Some(arrivals[last].p.stamp)
    && forall i :: 0 <= i < n && AcceptedAt(arrivals, i) ==> i == last || Beyond(arrivals[last].p, arrivals[i].p)
  }

  ghost predicate RemembersNothing(arrivals: seq<Arrival>, n: nat)
    requires n <= |arrivals|
  {
    ReceivedAll(arrivals[..n]) == NO_STATES && forall i :: 0 <= i < n ==> !AcceptedAt(arrivals, i)
  }

  lemma PrefixReceived(arrivals: seq<Arrival>, m: nat, n: nat)
    requires n == m + 1 <= |arrivals|
    ensures
      ReceivedAll(arrivals[..n]) == Received(ReceivedAll(arrivals[..m]), arrivals[m].p, arrivals[m].receivedMs)
  {
    assert arrivals[..n][..m] == arrivals[..m];
  }

  lemma FirstIsRemembered(arrivals: seq<Arrival>, m: nat, n: nat)
    requires n == m + 1 <= |arrivals| && RemembersNothing(arrivals, m)
    ensures if AcceptedAt(arrivals, m) then Remembers(arrivals, n, m, m) else RemembersNothing(arrivals, n)
  {
    PrefixReceived(arrivals, m, n);
  }

  lemma NextIsRemembered(arrivals: seq<Arrival>, m: nat, n: nat, first: nat, last: nat)
    requires n == m + 1 <= |arrivals| && Remembers(arrivals, m, first, last)
    ensures Remembers(arrivals, n, first, if AcceptedAt(arrivals, m) then m else last)
  {
    PrefixReceived(arrivals, m, n);
    if AcceptedAt(arrivals, m) {
      AcceptedIsBeyond(arrivals, m, first, last);
    }
  }

  lemma AcceptedIsBeyond(arrivals: seq<Arrival>, m: nat, first: nat, last: nat)
    requires m < |arrivals| && Remembers(arrivals, m, first, last) && AcceptedAt(arrivals, m)
    ensures forall i :: 0 <= i < m && AcceptedAt(arrivals, i) ==> Beyond(arrivals[m].p, arrivals[i].p)
  {
    assert Beyond(arrivals[m].p, arrivals[last].p);
  }

  lemma {:induction false} ReceiverMemory(arrivals: seq<Arrival>, n: nat) returns (first: nat, last: nat)
    requires n <= |arrivals|
    ensures RemembersNothing(arrivals, n) || Remembers(arrivals, n, first, last)
  {
    first, last := 0, 0;
    if n > 0 {
      first, last := ReceiverMemory(arrivals, n - 1);
      if RemembersNothing(arrivals, n - 1) {
        FirstIsRemembered(arrivals, n - 1, n);
        first, last := n - 1, n - 1;
      } else {
        NextIsRemembered(arrivals, n - 1, n, first, last);
        last := if AcceptedAt(arrivals, n - 1) then n - 1 else last;
      }
    }
  }

  /** A packet of a stream is accepted exactly when it comes from the right machine with a
      positive stamp, is beyond every packet accepted before it in number and stamp, and keeps
      the clock offset of the first accepted one within 250 ms. */
  lemma AcceptedIffBeyondAll(arrivals: seq<Arrival>, n: nat)
    requires n < |arrivals|
    ensures
      var a := arrivals[n];
      AcceptedAt(arrivals, n) <==>
        && a.p.fromOrin && a.p.machineMatches && a.p.stamp > 0
        && (forall i :: 0 <= i < n && AcceptedAt(arrivals, i) ==> Beyond(a.p, arrivals[i].p))
        && (forall i :: 0 <= i < n && FirstAccepted(arrivals, i) ==>
              -250 <= Offset(a) - Offset(arrivals[i]) <= 250)
  {
    var first, last := ReceiverMemory(arrivals, n);
    if Remembers(arrivals, n, first, last) {
      assert forall i :: 0 <= i < n && FirstAccepted(arrivals, i) ==> i == first;
    }
  }

  // --------------------------------------------------------------------- the tip table

  const TIPS_KEPT := 32

  /** A tip message: seconds and nanoseconds of its stamp, and the position. */
  datatype Tip = Tip(frameMatches: bool, sec: int, nanos: nat, position: Vec)

  function StampMs(t: Tip): int { t.sec * 1000 + t.nanos / 1000000 }

  function StampSeconds(t: Tip): real { t.sec as real + t.nanos as real / 1000000000.0 }

  datatype TipEntry = TipEntry(stamp: int, tip: Tip)

  function TipIndex(tips: seq<TipEntry>, stamp: int): (i: nat)
    ensures i <= |tips|
    ensures i < |tips| ==> tips[i].stamp == stamp
    ensures forall k :: 0 <= k < i ==> tips[k].stamp != stamp
  {
    if tips == [] then 0
    else
      var n := |tips| - 1;
      var i := TipIndex(tips[..n], stamp);
      if i < n then i else if tips[n].stamp == stamp then n else n + 1
  }

  function TipPut(tips: seq<TipEntry>, e: TipEntry): seq<TipEntry> {
    var i := TipIndex(tips, e.stamp);
    if i < |tips| then tips[i := e] else tips + [e]
  }

  function TipsAfter(tips: seq<TipEntry>, t: Tip): seq<TipEntry> {
    if !t.frameMatches || StampMs(t) <= 0 then tips
    else
      var next := TipPut(tips, TipEntry(StampMs(t), t));
      if |next| > TIPS_KEPT then next[|next| - TIPS_KEPT..] else next
  }

  class TipTable {
    var tips: seq<TipEntry>

    constructor ()
      ensures tips == []
    {
      tips := [];
    }

    method OnTip(t: Tip)
      modifies this
      ensures tips == TipsAfter(old(tips), t)
    {
      if !t.frameMatches || StampMs(t) <= 0 {
        return;
      }
      var i := TipIndex(tips, StampMs(t));
      tips := if i < |tips| then tips[i := TipEntry(StampMs(t), t)] else tips + [TipEntry(StampMs(t), t)];
      ghost var stored := tips;
      while |tips| > TIPS_KEPT
        invariant |tips| <= |stored| && tips == stored[|stored| - |tips|..]
        invariant |tips| >= TIPS_KEPT || tips == stored
        decreases |tips|
      {
        tips := tips[1..];
      }
    }
  }

  /** Every entry is filed under its own stamp. */
  predicate TipsFiled(tips: seq<TipEntry>) {
    forall e <- tips :: e.stamp == StampMs(e.tip)
  }

  lemma TipsStayFiled(tips: seq<TipEntry>, t: Tip)
    requires TipsFiled(tips)
    ensures TipsFiled(TipsAfter(tips, t))
  {
    var next := TipsAfter(tips, t);
    var put := TipPut(tips, TipEntry(StampMs(t), t));
    forall e | e in put
      ensures e in tips || e == TipEntry(StampMs(t), t)
    {
      var k :| 0 <= k < |put| && put[k] == e;
      if k < |tips| && k != TipIndex(tips, StampMs(t)) {
        assert e == tips[k];
      }
    }
    assert forall e <- next :: e in put || e in tips;
  }

  lemma FirstIndex(tips: seq<TipEntry>, i: nat, stamp: int)
    requires i < |tips| && tips[i].stamp == stamp
    requires forall k :: 0 <= k < i ==> tips[k].stamp != stamp
    ensures TipIndex(tips, stamp) == i
  {}

  lemma PutFinds(tips: seq<TipEntry>, e: TipEntry, stamp: int)
    requires stamp == e.stamp || TipIndex(tips, stamp) < |tips|
    ensures
      var i := TipIndex(tips, stamp);
      TipIndex(TipPut(tips, e), stamp) == i < |TipPut(tips, e)|
      && TipPut(tips, e)[i] == if stamp == e.stamp then e else tips[i]
  {
    FirstIndex(TipPut(tips, e), TipIndex(tips, stamp), stamp);
  }

  lemma DropFirstFinds(tips: seq<TipEntry>, stamp: int)
    requires 0 < TipIndex(tips, stamp) < |tips|
    ensures TipIndex(tips[1..], stamp) == TipIndex(tips, stamp) - 1
  {
    FirstIndex(tips[1..], TipIndex(tips, stamp) - 1, stamp);
  }

  /** After a message the table holds at most 32 tips and answers for that stamp with that
      message; other stamps keep their tips unless a full table gives up its oldest. */
  lemma TableKeepsLatest(tips: seq<TipEntry>, t: Tip, stamp: int)
    requires |tips| <= TIPS_KEPT && t.frameMatches && StampMs(t) > 0
    requires stamp == StampMs(t) || TipIndex(tips, stamp) < |tips|
    ensures |TipsAfter(tips, t)| <= TIPS_KEPT
    ensures
      var next, i := TipsAfter(tips, t), TipIndex(tips, stamp);
      (i > 0 || |tips| < 32 || TipIndex(tips, StampMs(t)) < |tips|) ==>
        TipIndex(next, stamp) < |next|
        && next[TipIndex(next, stamp)].tip == if stamp == StampMs(t) then t else tips[i].tip
  {
    var put := TipPut(tips, TipEntry(StampMs(t), t));
    PutFinds(tips, TipEntry(StampMs(t), t), stamp);
    if |put| > TIPS_KEPT && TipIndex(tips, stamp) > 0 {
      assert |put| - TIPS_KEPT == 1;
      DropFirstFinds(put, stamp);
    }
  }

  /** The table after a stream of tips. */
  function TipsAfterAll(tips: seq<Tip>): seq<TipEntry> {
    if tips == [] then [] else TipsAfter(TipsAfterAll(tips[..|tips| - 1]), tips[|tips| - 1])
  }

  predicate UniqueStamps(table: seq<TipEntry>) {
    forall i, j :: 0 <= i < j < |table| ==> table[i].stamp != table[j].stamp
  }

  /** Entry `e` is tip `i` of the stream, in the right frame and at a positive millisecond, and no
      later such tip has its millisecond. */
  ghost predicate IsNewest(tips: seq<Tip>, e: TipEntry, i: nat) {
    && i < |tips| && tips[i] == e.tip && e.stamp == StampMs(e.tip) && e.tip.frameMatches && e.stamp > 0
    && forall k :: i < k < |tips| && tips[k].frameMatches && StampMs(tips[k]) > 0 ==> StampMs(tips[k]) != e.stamp
  }

  ghost predicate HoldsNewest(tips: seq<Tip>, table: seq<TipEntry>) {
    forall e <- table :: exists i: nat :: IsNewest(tips, e, i)
  }

  lemma PutIsUnique(table: seq<TipEntry>, e: TipEntry)
    requires UniqueStamps(table)
    ensures UniqueStamps(TipPut(table, e))
    ensures forall x <- TipPut(table, e) :: x == e || (x in table && x.stamp != e.stamp)
  {
    var put, at := TipPut(table, e), TipIndex(table, e.stamp);
    forall x | x in put
      ensures x == e || (x in table && x.stamp != e.stamp)
    {
      var k :| 0 <= k < |put| && put[k] == x;
      if k < |table| && k != at {
        assert x == table[k];
      }
    }
  }

  lemma StillNewest(tips: seq<Tip>, t: Tip, e: TipEntry)
    requires exists i: nat :: IsNewest(tips, e, i)
    requires t.frameMatches && StampMs(t) > 0 ==> StampMs(t) != e.stamp
    ensures exists i: nat :: IsNewest(tips + [t], e, i)
  {
    var i: nat :| IsNewest(tips, e, i);
    assert IsNewest(tips + [t], e, i);
  }

  lemma OneTipMore(tips: seq<Tip>, t: Tip, table: seq<TipEntry>)
    requires UniqueStamps(table) && |table| <= TIPS_KEPT && HoldsNewest(tips, table)
    ensures UniqueStamps(TipsAfter(table, t)) && |TipsAfter(table, t)| <= TIPS_KEPT
    ensures HoldsNewest(tips + [t], TipsAfter(table, t))
  {
    var filed := TipEntry(StampMs(t), t);
    PutIsUnique(table, filed);
    forall e | e in TipsAfter(table, t)
      ensures exists i: nat :: IsNewest(tips + [t], e, i)
    {
      if t.frameMatches && StampMs(t) > 0 {
        assert e in TipPut(table, filed);
      }
      if t.frameMatches && StampMs(t) > 0 && e == filed {
        assert IsNewest(tips + [t], e, |tips|);
      } else {
        StillNewest(tips, t, e);
      }
    }
  }

  /** After any stream of tips the table holds at most 32, one for a millisecond, and each is the
      newest of its millisecond among those in the right frame at a positive time. */
  lemma {:induction false} TableHoldsNewest(tips: seq<Tip>)
    ensures
      var table := TipsAfterAll(tips);
      UniqueStamps(table) && |table| <= 32 && HoldsNewest(tips, table)
  {
    if tips != [] {
      var n := |tips| - 1;
      TableHoldsNewest(tips[..n]);
      OneTipMore(tips[..n], tips[n], TipsAfterAll(tips[..n]));
      assert tips[..n] + [tips[n]] == tips;
    }
  }

  /** The seconds of a stamp lie in the millisecond it is filed under. */
  lemma StampInMillisecond(t: Tip)
    ensures StampMs(t) as real <= StampSeconds(t) * 1000.0 < StampMs(t) as real + 1.0
  {
    var ms, rest := t.nanos / 1000000, t.nanos % 1000000;
    assert t.nanos == ms * 1000000 + rest;
    assert t.nanos as real == ms as real * 1000000.0 + rest as real;
    assert StampMs(t) as real == t.sec as real * 1000.0 + ms as real;
    assert StampSeconds(t) * 1000.0 == t.sec as real * 1000.0 + t.nanos as real / 1000000.0;
  }

  // ------------------------------------------------------------------------- the loop

  /** The command held for resending; `source` records the sample it was computed from. */
  datatype Pending = Pending(values: Pose, source: StateSample)

  /** A command handed to the gate: `gate` is the sample it is checked against. */
  datatype Sent = Sent(gate: StateSample, values: Pose, source: StateSample, resent: bool)

  datatype FollowPc = Entered(lastSequence: nat) | Looping | AwaitTip | Finished

  /** How a goal ends: by success, by the timeout of its session, for want of a fresh state or of a
      tip with its stamp, by a closed gate, by supervision or cancellation, or by an exception. */
  datatype Ending = Succeeded | TimedOut | StateStale | TipMissing | GateClosed | Stopped | Raised

  /** `observed` records history: what the session was given. */
  datatype Loop = Loop(
    receiver: ReceiverState, tips: seq<TipEntry>, pc: FollowPc, lastSequence: nat, lastSample: Option<StateSample>,
    pending: Option<Pending>, session: Session, log: seq<Sent>, ending: Option<Ending>,
    observed: seq<Observation>)

  /** A loop that is just entered, whatever the server has received before. */
  predicate Initial(l: Loop) {
    && ReceiverOk(l.receiver) && TipsFiled(l.tips)
    && l.pc == Entered(l.receiver.sequence)
    && l.lastSample.None? && l.pending.None?
    && FreshSession(l.session) && l.log == [] && l.ending.None? && l.observed == []
  }

  function Ended(l: Loop, ending: Ending): Loop { l.(pc := Finished, ending := Some(ending)) }

  /** The steps of the receiver, the tip callback and the loop. The oracle arguments are what
      the environment decides: ages, gates, the policy's output, supervision and cancellation. */
  datatype Step =
    | ReceiveState(p: StatePacket, receivedMs: int)
    | ReceiveTip(tip: Tip)
    | ReadLatest
    | StopLoop
    | WaitTimesOut(stale: bool, supervised: bool, allowed: bool)
    | TakeState
    | TipTimesOut
    | TakeTip(now: real, command: Option<Pose>, allowed: bool)

  predicate Enabled(l: Loop, s: Step) {
    match s
    case ReceiveState(_, _) | ReceiveTip(_) => true
    case ReadLatest => l.pc.Entered?
    case StopLoop => l.pc.Looping?
    case WaitTimesOut(_, _, _) => l.pc.Looping?
    case TakeState => l.pc.Looping? && l.receiver.latest.Some? && l.receiver.latest.value.sequence > l.lastSequence
    case TipTimesOut => l.pc.AwaitTip?
    case TakeTip(_, _, _) =>
      l.pc.AwaitTip? && l.lastSample.Some? && Valid(l.session.tracker)
      && TipIndex(l.tips, l.lastSample.value.packet.stamp) < |l.tips|
  }

  function TipTaken(l: Loop): Tip
    requires l.lastSample.Some? && TipIndex(l.tips, l.lastSample.value.packet.stamp) < |l.tips|
  {
    l.tips[TipIndex(l.tips, l.lastSample.value.packet.stamp)].tip
  }

  /** `command` is `None` when supervision, the audit or an exception ends the loop before the
      new command is sent. */
  function AfterTip(sqrt: real -> real, l: Loop, now: real, command: Option<Pose>, allowed: bool): Loop
    requires Enabled(l, TakeTip(now, command, allowed))
  {
    var tip := TipTaken(l);
    var seen := l.(observed := l.observed + [Observation(tip.position, StampSeconds(tip), now)]);
    match Observe(sqrt, l.session, tip.position, StampSeconds(tip), now)
    case Err(_) => Ended(seen, Raised)
    case Ok((session, update)) =>
      var m := seen.(session := session);
      if !update.sampleAccepted then m.(pc := Looping)
      else if update.timedOut then Ended(m, TimedOut)
      else if update.completed then Ended(m, Succeeded)
      else if command.None? then Ended(m, Stopped)
      else
        var sample := l.lastSample.value;
        var sent := m.(
          pending := Some(Pending(command.value, sample)), log := l.log + [Sent(sample, command.value, sample, false)]);
        if allowed then sent.(pc := Looping) else Ended(sent, GateClosed)
  }

  function Apply(sqrt: real -> real, l: Loop, s: Step): Loop
    requires Enabled(l, s)
  {
    match s
    case ReceiveState(p, receivedMs) => l.(receiver := Received(l.receiver, p, receivedMs))
    case ReceiveTip(tip) => l.(tips := TipsAfter(l.tips, tip))
    case ReadLatest => l.(lastSequence := l.pc.lastSequence, lastSample := l.receiver.latest, pc := Looping)
    case StopLoop => Ended(l, Stopped)
    case WaitTimesOut(stale, supervised, allowed) =>
      if l.lastSample.None? || stale then Ended(l, StateStale)
      else if l.pending.None? then l
      else if !supervised then Ended(l, Stopped)
      else
        var sent := l.(log := l.log + [Sent(l.lastSample.value, l.pending.value.values, l.pending.value.source, true)]);
        if allowed then sent else Ended(sent, GateClosed)
    case TakeState =>
      var sample := l.receiver.latest.value;
      l.(lastSequence := sample.sequence, lastSample := Some(sample), pc := AwaitTip)
    case TipTimesOut => Ended(l, TipMissing)
    case TakeTip(now, command, allowed) => AfterTip(sqrt, l, now, command, allowed)
  }

  function After(sqrt: real -> real, l: Loop, steps: seq<Step>): Option<Loop> {
    if steps == [] then Some(l)
    else
      var n := |steps| - 1;
      match After(sqrt, l, steps[..n])
      case None => None
      case Some(m) => if Enabled(m, steps[n]) then Some(Apply(sqrt, m, steps[n])) else None
  }

  // ---------------------------------------------------------------------- the invariant

  /** A later sequence number means a later source stamp. */
  predicate Behind(s: StateSample, r: ReceiverState) {
    && r.latest.Some? && s.sequence <= r.sequence
    && (s.sequence == r.sequence ==> s == r.latest.value)
    && (s.sequence < r.sequence ==> s.packet.stamp < r.latest.value.packet.stamp)
  }

  predicate Ordered(l: Loop) {
    && ReceiverOk(l.receiver) && TipsFiled(l.tips)
    && (l.pc.Entered? ==> l.pc.lastSequence <= l.receiver.sequence && l.lastSample.None?)
    && (l.lastSample.Some? ==> Behind(l.lastSample.value, l.receiver) && l.lastSequence <= l.lastSample.value.sequence)
  }

  /** While a command is pending, it belongs to the last sample (or to the one before, while
      the tip of a newer one is awaited), and the session has accepted that sample's tip. */
  predicate PendingOk(l: Loop) {
    && (l.pending.Some? && l.pc != Finished ==>
          && l.lastSample.Some? && l.lastSample.value.sequence == l.lastSequence
          && l.session.lastStamp.Some? && l.session.lastStamp.value > l.session.acceptedAt)
    && (l.pending.Some? && l.pc == Looping ==>
          && l.pending.value.source == l.lastSample.value
          && l.session.lastStamp.value * 1000.0 < l.lastSample.value.packet.stamp as real + 1.0)
    && (l.pending.Some? && l.pc == AwaitTip ==>
          l.session.lastStamp.value * 1000.0 < l.lastSample.value.packet.stamp as real)
    && (l.session.lastStamp.Some? && l.pc != Finished ==> l.pending.Some?)
    && (l.pc.Entered? ==> l.pending.None?)
    && (l.pc == AwaitTip ==> l.lastSample.Some? && l.lastSample.value.sequence == l.lastSequence)
  }

  ghost predicate Gated(l: Loop) {
    forall e <- l.log :: e.gate == e.source
  }

  ghost predicate Invariant(l: Loop) {
    Ordered(l) && PendingOk(l) && Gated(l) && Valid(l.session.tracker)
  }

  lemma ReceiveKeeps(sqrt: real -> real, l: Loop, p: StatePacket, receivedMs: int)
    requires Invariant(l)
    ensures Invariant(Apply(sqrt, l, ReceiveState(p, receivedMs)))
  {}

  lemma TipKeeps(sqrt: real -> real, l: Loop, tip: Tip)
    requires Invariant(l)
    ensures Invariant(Apply(sqrt, l, ReceiveTip(tip)))
  {
    TipsStayFiled(l.tips, tip);
  }

  lemma LogGrows(log: seq<Sent>, e: Sent)
    requires forall x <- log :: x.gate == x.source
    requires e.gate == e.source
    ensures forall x <- log + [e] :: x.gate == x.source
  {}

  lemma WaitKeeps(sqrt: real -> real, l: Loop, stale: bool, supervised: bool, allowed: bool)
    requires Invariant(l) && Enabled(l, WaitTimesOut(stale, supervised, allowed))
    ensures Invariant(Apply(sqrt, l, WaitTimesOut(stale, supervised, allowed)))
  {
    if l.lastSample.Some? && l.pending.Some? {
      LogGrows(l.log, Sent(l.lastSample.value, l.pending.value.values, l.pending.value.source, true));
    }
  }

  lemma NextStampIsLater(stamp: real, before: int, after: int)
    requires stamp * 1000.0 < before as real + 1.0 && before < after
    ensures stamp * 1000.0 < after as real
  {
    assert before + 1 <= after;
    assert (before + 1) as real <= after as real;
  }

  lemma TakeStateKeeps(sqrt: real -> real, l: Loop)
    requires Invariant(l) && Enabled(l, TakeState)
    ensures Invariant(Apply(sqrt, l, TakeState))
  {
    if l.pending.Some? {
      NextStampIsLater(
        l.session.lastStamp.value, l.lastSample.value.packet.stamp, l.receiver.latest.value.packet.stamp);
    }
  }

  /** The heart of the matter: the tip of the sample just taken is new for the session exactly
      when it is later than the acceptance of the goal, and it always is once a command is
      pending. */
  lemma TipIsNew(l: Loop)
    requires Invariant(l) && l.pc == AwaitTip
    requires TipIndex(l.tips, l.lastSample.value.packet.stamp) < |l.tips|
    ensures Rejects(l.session, StampSeconds(TipTaken(l))) <==> StampSeconds(TipTaken(l)) <= l.session.acceptedAt
    ensures l.pending.Some? ==> !Rejects(l.session, StampSeconds(TipTaken(l)))
    ensures StampSeconds(TipTaken(l)) * 1000.0 < l.lastSample.value.packet.stamp as real + 1.0
  {
    var tip := TipTaken(l);
    assert l.tips[TipIndex(l.tips, l.lastSample.value.packet.stamp)] in l.tips;
    StampInMillisecond(tip);
  }

  lemma TakeTipKeepsOrder(sqrt: real -> real, l: Loop, now: real, command: Option<Pose>, allowed: bool)
    requires Invariant(l) && Enabled(l, TakeTip(now, command, allowed))
    ensures Ordered(AfterTip(sqrt, l, now, command, allowed))
    ensures Valid(AfterTip(sqrt, l, now, command, allowed).session.tracker)
  {}

  lemma TakeTipKeepsPending(sqrt: real -> real, l: Loop, now: real, command: Option<Pose>, allowed: bool)
    requires Invariant(l) && Enabled(l, TakeTip(now, command, allowed))
    ensures PendingOk(AfterTip(sqrt, l, now, command, allowed))
  {
    TipIsNew(l);
  }

  lemma TakeTipKeepsGated(sqrt: real -> real, l: Loop, now: real, command: Option<Pose>, allowed: bool)
    requires Invariant(l) && Enabled(l, TakeTip(now, command, allowed))
    ensures Gated(AfterTip(sqrt, l, now, command, allowed))
  {
    TipIsNew(l);
    if command.Some? {
      LogGrows(l.log, Sent(l.lastSample.value, command.value, l.lastSample.value, false));
    }
  }

  lemma TakeTipKeeps(sqrt: real -> real, l: Loop, now: real, command: Option<Pose>, allowed: bool)
    requires Invariant(l) && Enabled(l, TakeTip(now, command, allowed))
    ensures Invariant(Apply(sqrt, l, TakeTip(now, command, allowed)))
  {
    TakeTipKeepsOrder(sqrt, l, now, command, allowed);
    TakeTipKeepsPending(sqrt, l, now, command, allowed);
    TakeTipKeepsGated(sqrt, l, now, command, allowed);
  }

  lemma StepKeepsInvariant(sqrt: real -> real, l: Loop, s: Step)
    requires Invariant(l) && Enabled(l, s)
    ensures Invariant(Apply(sqrt, l, s))
  {
    match s
    case ReceiveState(p, receivedMs) => ReceiveKeeps(sqrt, l, p, receivedMs);
    case ReceiveTip(tip) => TipKeeps(sqrt, l, tip);
    case ReadLatest =>
    case StopLoop =>
    case WaitTimesOut(stale, supervised, allowed) => WaitKeeps(sqrt, l, stale, supervised, allowed);
    case TakeState => TakeStateKeeps(sqrt, l);
    case TipTimesOut =>
    case TakeTip(now, command, allowed) => TakeTipKeeps(sqrt, l, now, command, allowed);
  }

  lemma {:induction false} RunKeepsInvariant(sqrt: real -> real, l: Loop, steps: seq<Step>)
    requires Invariant(l) && After(sqrt, l, steps).Some?
    ensures Invariant(After(sqrt, l, steps).value)
  {
    if steps != [] {
      var n := |steps| - 1;
      RunKeepsInvariant(sqrt, l, steps[..n]);
      StepKeepsInvariant(sqrt, After(sqrt, l, steps[..n]).value, steps[n]);
    }
  }

  /** In every interleaving of states, tips and the loop: each command Follow hands to the gate,
      first sent or resent, was computed from exactly the sample it is gated against; no
      sample is passed over while a command is pending; and the only samples ever rejected are
      those whose tip is not later than the acceptance of the goal. */
  lemma CommandsMatchTheirGate(sqrt: real -> real, l: Loop, steps: seq<Step>)
    requires Initial(l) && After(sqrt, l, steps).Some?
    ensures
      var m := After(sqrt, l, steps).value;
      && (forall e <- m.log :: e.gate == e.source)
      && (m.pc == AwaitTip && m.lastSample.Some? && TipIndex(m.tips, m.lastSample.value.packet.stamp) < |m.tips| ==>
            (Rejects(m.session, StampSeconds(TipTaken(m))) <==>
             m.pending.None? && StampSeconds(TipTaken(m)) <= m.session.acceptedAt))
  {
    RunKeepsInvariant(sqrt, l, steps);
    var m := After(sqrt, l, steps).value;
    if m.pc == AwaitTip && TipIndex(m.tips, m.lastSample.value.packet.stamp) < |m.tips| {
      TipIsNew(m);
    }
  }

  // ------------------------------------------------------------------ what is sent, and when

  /** The command in force is the one sent last; each resend repeats the entry before it. */
  ghost predicate Repeats(l: Loop) {
    && (l.pending.Some? ==>
          && l.log != [] && l.log[|l.log| - 1].values == l.pending.value.values
          && l.log[|l.log| - 1].source == l.pending.value.source)
    && (l.pending.None? ==> l.log == [])
    && forall i, j :: 0 <= j && i == j + 1 < |l.log| && l.log[i].resent ==>
         l.log[i].values == l.log[j].values && l.log[i].source == l.log[j].source
  }

  lemma LogGrowsRepeating(log: seq<Sent>, e: Sent)
    requires forall i, j :: 0 <= j && i == j + 1 < |log| && log[i].resent ==>
               log[i].values == log[j].values && log[i].source == log[j].source
    requires e.resent ==> log != [] && e.values == log[|log| - 1].values && e.source == log[|log| - 1].source
    ensures
      var longer := log + [e];
      forall i, j :: 0 <= j && i == j + 1 < |longer| && longer[i].resent ==>
        longer[i].values == longer[j].values && longer[i].source == longer[j].source
  {}

  lemma TipRepeats(sqrt: real -> real, l: Loop, now: real, command: Option<Pose>, allowed: bool)
    requires Repeats(l) && Enabled(l, TakeTip(now, command, allowed))
    ensures Repeats(AfterTip(sqrt, l, now, command, allowed))
  {
    if command.Some? {
      LogGrowsRepeating(l.log, Sent(l.lastSample.value, command.value, l.lastSample.value, false));
    }
  }

  lemma StepRepeats(sqrt: real -> real, l: Loop, s: Step)
    requires Repeats(l) && Enabled(l, s)
    ensures Repeats(Apply(sqrt, l, s))
  {
    match s
    case TakeTip(now, command, allowed) => TipRepeats(sqrt, l, now, command, allowed);
    case WaitTimesOut(_, _, _) =>
      if l.lastSample.Some? && l.pending.Some? {
        LogGrowsRepeating(
          l.log, Sent(l.lastSample.value, l.pending.value.values, l.pending.value.source, true));
      }
    case _ =>
  }

  lemma {:induction false} RunRepeats(sqrt: real -> real, l: Loop, steps: seq<Step>)
    requires Repeats(l) && After(sqrt, l, steps).Some?
    ensures Repeats(After(sqrt, l, steps).value)
  {
    if steps != [] {
      var n := |steps| - 1;
      RunRepeats(sqrt, l, steps[..n]);
      StepRepeats(sqrt, After(sqrt, l, steps[..n]).value, steps[n]);
    }
  }

  /** The session accepts the tip just taken, and the goal goes on. */
  predicate GoesOn(sqrt: real -> real, l: Loop, now: real)
    requires Enabled(l, TakeTip(now, None, false))
  {
    var tip := TipTaken(l);
    match Observe(sqrt, l.session, tip.position, StampSeconds(tip), now)
    case Err(_) => false
    case Ok((_, update)) => update.sampleAccepted && !update.timedOut && !update.completed
  }

  /** What a step puts on the wire: the new command for the sample whose tip was accepted, when the
      goal goes on and nothing stopped it; the command in force again, when no state arrived in
      time, the last one is still fresh and supervision allows; and nothing otherwise. */
  function Sends(sqrt: real -> real, l: Loop, s: Step): Option<Sent>
    requires Enabled(l, s)
  {
    match s
    case TakeTip(now, command, _) =>
      if command.Some? && GoesOn(sqrt, l, now) then
        Some(Sent(l.lastSample.value, command.value, l.lastSample.value, false))
      else None
    case WaitTimesOut(stale, supervised, _) =>
      if l.lastSample.Some? && !stale && supervised && l.log != [] then
        Some(Sent(l.lastSample.value, l.log[|l.log| - 1].values, l.log[|l.log| - 1].source, true))
      else None
    case _ => None
  }

  /** In every reachable state exactly that is sent. */
  lemma StepSends(sqrt: real -> real, l: Loop, steps: seq<Step>, s: Step)
    requires Initial(l) && After(sqrt, l, steps).Some? && Enabled(After(sqrt, l, steps).value, s)
    ensures
      var m := After(sqrt, l, steps).value;
      Apply(sqrt, m, s).log == m.log + match Sends(sqrt, m, s) { case None => [] case Some(e) => [e] }
  {
    RunRepeats(sqrt, l, steps);
    var m := After(sqrt, l, steps).value;
    assert m.log + [] == m.log;
  }

  // --------------------------------------------------------------------- what it works on

  /** The states that arrive in a run. */
  function StatesIn(steps: seq<Step>): seq<Arrival> {
    if steps == [] then []
    else
      var n := |steps| - 1;
      StatesIn(steps[..n]) + match steps[n] { case ReceiveState(p, at) => [Arrival(p, at)] case _ => [] }
  }

  /** The tips that arrive in a run. */
  function TipsIn(steps: seq<Step>): seq<Tip> {
    if steps == [] then []
    else TipsIn(steps[..|steps| - 1]) + match steps[|steps| - 1] { case ReceiveTip(tip) => [tip] case _ => [] }
  }

  lemma OneMoreArrival(before: seq<Arrival>, arrivals: seq<Arrival>, a: Arrival)
    ensures
      ReceivedAll(before + (arrivals + [a])) == Received(ReceivedAll(before + arrivals), a.p, a.receivedMs)
  {
    var longer := before + (arrivals + [a]);
    assert longer[..|longer| - 1] == before + arrivals;
  }

  lemma OneMoreTip(before: seq<Tip>, tips: seq<Tip>, t: Tip)
    ensures TipsAfterAll(before + (tips + [t])) == TipsAfter(TipsAfterAll(before + tips), t)
  {
    var longer := before + (tips + [t]);
    assert longer[..|longer| - 1] == before + tips;
  }

  /** The loop works on what arrived, before it and beside it, and on nothing else: its receiver
      is the one of the whole stream of states, its table the one of all tips. */
  lemma {:induction false} LoopReceives(
    sqrt: real -> real, l: Loop, steps: seq<Step>, states: seq<Arrival>, tips: seq<Tip>)
    requires l.receiver == ReceivedAll(states) && l.tips == TipsAfterAll(tips) && After(sqrt, l, steps).Some?
    ensures
      var m := After(sqrt, l, steps).value;
      m.receiver == ReceivedAll(states + StatesIn(steps)) && m.tips == TipsAfterAll(tips + TipsIn(steps))
  {
    if steps == [] {
      assert states + [] == states && tips + [] == tips;
    } else {
      var n := |steps| - 1;
      LoopReceives(sqrt, l, steps[..n], states, tips);
      var before, next := StatesIn(steps[..n]), TipsIn(steps[..n]);
      assert before + [] == before && next + [] == next;
      StepReceives(sqrt, After(sqrt, l, steps[..n]).value, steps[n]);
      match steps[n]
      case ReceiveState(p, at) => OneMoreArrival(states, before, Arrival(p, at));
      case ReceiveTip(tip) => OneMoreTip(tips, next, tip);
      case _ =>
    }
  }

  lemma StepReceives(sqrt: real -> real, l: Loop, s: Step)
    requires Enabled(l, s)
    ensures
      var m := Apply(sqrt, l, s);
      && m.receiver == (match s case ReceiveState(p, at) => Received(l.receiver, p, at) case _ => l.receiver)
      && m.tips == (match s case ReceiveTip(tip) => TipsAfter(l.tips, tip) case _ => l.tips)
  {}

  /** A gate that is closed when something is sent. */
  predicate MeetsClosedGate(s: Step) {
    match s
    case WaitTimesOut(_, _, allowed) => !allowed
    case TakeTip(_, _, allowed) => !allowed
    case _ => false
  }

  /** Cancellation, or supervision before a send. */
  predicate Interrupts(sqrt: real -> real, l: Loop, s: Step)
    requires Enabled(l, s)
  {
    match s
    case StopLoop => true
    case WaitTimesOut(stale, supervised, _) => l.lastSample.Some? && !stale && !supervised && l.log != []
    case TakeTip(now, command, _) => command.None? && GoesOn(sqrt, l, now)
    case _ => false
  }

  /** Which other end each step of a loop under way comes to, in every reachable state: a stale state
      when no state came in time and there is none or an old one; a missing tip when the wait for it
      ran out; a closed gate exactly when something was sent into one; and a stop exactly when it was
      cancelled or not supervised. What has ended stays so. */
  lemma StepEnds(sqrt: real -> real, l: Loop, steps: seq<Step>, s: Step)
    requires Initial(l) && After(sqrt, l, steps).Some? && Enabled(After(sqrt, l, steps).value, s)
    ensures
      var m := After(sqrt, l, steps).value;
      var ending := Apply(sqrt, m, s).ending;
      if m.ending.Some? then ending == m.ending && Apply(sqrt, m, s).log == m.log
      else
        && (ending == Some(StateStale) <==> s.WaitTimesOut? && (m.lastSample.None? || s.stale))
        && (ending == Some(TipMissing) <==> s.TipTimesOut?)
        && (ending == Some(GateClosed) <==> Sends(sqrt, m, s).Some? && MeetsClosedGate(s))
        && (ending == Some(Stopped) <==> Interrupts(sqrt, m, s))
  {
    RunRepeats(sqrt, l, steps);
    RunEnds(sqrt, l, steps);
  }

  lemma {:induction false} RunEnds(sqrt: real -> real, l: Loop, steps: seq<Step>)
    requires Initial(l) && After(sqrt, l, steps).Some?
    ensures After(sqrt, l, steps).value.ending.Some? <==> After(sqrt, l, steps).value.pc == Finished
  {
    if steps != [] {
      RunEnds(sqrt, l, steps[..|steps| - 1]);
    }
  }

  lemma StepTaken(sqrt: real -> real, l: Loop, steps: seq<Step>, m: Loop, s: Step)
    requires After(sqrt, l, steps) == Some(m) && Enabled(m, s)
    ensures After(sqrt, l, steps + [s]) == Some(Apply(sqrt, m, s))
  {
    assert (steps + [s])[..|steps|] == steps;
  }

  lemma TipIsFound(table: seq<TipEntry>, e: TipEntry, stamp: int)
    requires e in table && e.stamp == stamp
    ensures TipIndex(table, stamp) < |table|
  {}

  /** A new state is served: from every reachable state in which the loop waits, a newer state and
      a tip with its millisecond lead to a command for that state, sent at once, unless the goal
      ends or the session rejects the tip; and then the loop waits again. */
  lemma NewStateIsServed(
    sqrt: real -> real, l: Loop, steps: seq<Step>, m: Loop, now: real, command: Pose, e: TipEntry)
    requires Initial(l) && After(sqrt, l, steps) == Some(m)
    requires m.pc == Looping && m.receiver.latest.Some? && m.receiver.latest.value.sequence > m.lastSequence
    requires e in m.tips && e.stamp == m.receiver.latest.value.packet.stamp
    ensures
      var taken, serve := Apply(sqrt, m, TakeState), TakeTip(now, Some(command), true);
      var k := After(sqrt, l, steps + [TakeState] + [serve]);
      && taken.lastSample == m.receiver.latest && Enabled(taken, serve) && k.Some?
      && (k.value.ending.None? ==> k.value.pc == Looping)
      && (GoesOn(sqrt, taken, now) ==>
            var sample := m.receiver.latest.value;
            k.value.ending.None? && k.value.log == m.log + [Sent(sample, command, sample, false)])
  {
    RunKeepsInvariant(sqrt, l, steps);
    RunEnds(sqrt, l, steps);
    var taken, serve := Apply(sqrt, m, TakeState), TakeTip(now, Some(command), true);
    TipIsFound(m.tips, e, e.stamp);
    StepTaken(sqrt, l, steps, m, TakeState);
    StepTaken(sqrt, l, steps + [TakeState], taken, serve);
  }

  /** Before the loop waits for the first time it looks at what the server holds. */
  lemma LoopBegins(sqrt: real -> real, l: Loop)
    requires Initial(l)
    ensures After(sqrt, l, [ReadLatest]).Some?
    ensures
      var m := After(sqrt, l, [ReadLatest]).value;
      m.pc == Looping && m.lastSample == l.receiver.latest && m.lastSequence == l.receiver.sequence
  {
    assert [ReadLatest] == [] + [ReadLatest];
    StepTaken(sqrt, l, [], l, ReadLatest);
  }

  // ------------------------------------------------------------------------- how it ends

  /** The session of the loop is the one it began with, run on what was observed; an exception of
      the tracker ends the loop. */
  ghost predicate FollowsSession(sqrt: real -> real, start: Session, l: Loop)
    requires Valid(start.tracker)
  {
    l.ending != Some(Raised) ==> RunSession(sqrt, start, l.observed) == Ok(l.session)
  }

  /** Nothing is known against the goal yet. */
  ghost predicate StillOpen(sqrt: real -> real, start: Session, observed: seq<Observation>) {
    !DoneBy(sqrt, start, observed) && !LatePast(start, observed)
  }

  /** The last new sample came more than the timeout after the first. */
  predicate LatePast(start: Session, observed: seq<Observation>) {
    var samples := SamplesOf(start, observed);
    samples != [] && samples[|samples| - 1].at - samples[0].at > start.tracker.timeout
  }

  ghost predicate EndingIsTrue(sqrt: real -> real, start: Session, l: Loop) {
    && (l.pc == Finished <==> l.ending.Some?)
    && (l.ending == Some(Succeeded) ==> DoneBy(sqrt, start, l.observed))
    && (l.ending == Some(TimedOut) ==> !DoneBy(sqrt, start, l.observed) && LatePast(start, l.observed))
    && (l.ending != Some(Succeeded) && l.ending != Some(TimedOut) ==> StillOpen(sqrt, start, l.observed))
    && l.ending != Some(Raised)
  }

  lemma OtherStepsObserveNothing(sqrt: real -> real, l: Loop, s: Step)
    requires Enabled(l, s) && !s.TakeTip? && (l.pc == Finished <==> l.ending.Some?)
    ensures
      var m := Apply(sqrt, l, s);
      && m.observed == l.observed && m.session == l.session && (m.pc == Finished <==> m.ending.Some?)
      && (m.ending == l.ending || m.ending.value in {Stopped, StateStale, GateClosed, TipMissing})
      && (m.ending != l.ending ==> l.ending.None? && m.ending.Some?)
  {}

  /** The observation a tip makes. */
  function Seen(l: Loop, now: real): Observation
    requires l.lastSample.Some? && TipIndex(l.tips, l.lastSample.value.packet.stamp) < |l.tips|
  {
    Observation(TipTaken(l).position, StampSeconds(TipTaken(l)), now)
  }

  /** Where the report of a tip leaves the loop. */
  lemma TipEndsByReport(sqrt: real -> real, l: Loop, now: real, command: Option<Pose>, allowed: bool)
    requires Enabled(l, TakeTip(now, command, allowed)) && l.ending.None?
    requires Observe(sqrt, l.session, Seen(l, now).tip, Seen(l, now).stamp, now).Ok?
    ensures
      var m := AfterTip(sqrt, l, now, command, allowed);
      var (v, report) := Observe(sqrt, l.session, Seen(l, now).tip, Seen(l, now).stamp, now).value;
      && m.session == v && m.observed == l.observed + [Seen(l, now)]
      && (m.pc == Finished <==> m.ending.Some?) && m.ending != Some(Raised)
      && (m.ending == Some(TimedOut) <==> report.sampleAccepted && report.timedOut)
      && (m.ending == Some(Succeeded) <==> report.sampleAccepted && !report.timedOut && report.completed)
  {}

  lemma LateIsPast(start: Session, observed: seq<Observation>, o: Observation)
    requires IsNew(start.acceptedAt, observed, o.stamp)
    ensures LatePast(start, observed + [o]) <==> PastTimeout(start, observed + [o], o.now)
  {
    NewSampleAppends(start, observed, o);
  }

  lemma NewTipEnds(sqrt: real -> real, start: Session, l: Loop, now: real, command: Option<Pose>, allowed: bool)
    requires FreshSession(start) && start.tracker.timeout > 0.0
    requires Enabled(l, TakeTip(now, command, allowed)) && l.ending.None?
    requires RunSession(sqrt, start, l.observed) == Ok(l.session)
    requires ClockMonotone(l.observed + [Seen(l, now)]) && IsNew(start.acceptedAt, l.observed, Seen(l, now).stamp)
    ensures
      var m := AfterTip(sqrt, l, now, command, allowed);
      FollowsSession(sqrt, start, m) && EndingIsTrue(sqrt, start, m)
  {
    ReportMeans(sqrt, start, l.observed, Seen(l, now));
    TipEndsByReport(sqrt, l, now, command, allowed);
    LateIsPast(start, l.observed, Seen(l, now));
  }

  lemma OldTipEnds(sqrt: real -> real, start: Session, l: Loop, now: real, command: Option<Pose>, allowed: bool)
    requires FreshSession(start) && start.tracker.timeout > 0.0 && EndingIsTrue(sqrt, start, l)
    requires Enabled(l, TakeTip(now, command, allowed)) && l.ending.None?
    requires RunSession(sqrt, start, l.observed) == Ok(l.session)
    requires ClockMonotone(l.observed + [Seen(l, now)]) && !IsNew(start.acceptedAt, l.observed, Seen(l, now).stamp)
    ensures
      var m := AfterTip(sqrt, l, now, command, allowed);
      FollowsSession(sqrt, start, m) && EndingIsTrue(sqrt, start, m)
  {
    var o := Seen(l, now);
    ClockOfPrefix(l.observed, o);
    RejectionMeans(sqrt, start, l.observed, o);
    TipEndsByReport(sqrt, l, now, command, allowed);
    OldSampleIsSkipped(start, l.observed, o);
    ObservedIsRun(sqrt, start, l.observed, o);
  }

  lemma StepEndsTruly(sqrt: real -> real, start: Session, l: Loop, s: Step)
    requires FreshSession(start) && start.tracker.timeout > 0.0
    requires FollowsSession(sqrt, start, l) && EndingIsTrue(sqrt, start, l) && Enabled(l, s)
    requires ClockMonotone(Apply(sqrt, l, s).observed)
    ensures FollowsSession(sqrt, start, Apply(sqrt, l, s)) && EndingIsTrue(sqrt, start, Apply(sqrt, l, s))
  {
    match s
    case TakeTip(now, command, allowed) =>
      SeenIsObserved(sqrt, l, now, command, allowed);
      if IsNew(start.acceptedAt, l.observed, Seen(l, now).stamp) {
        NewTipEnds(sqrt, start, l, now, command, allowed);
      } else {
        OldTipEnds(sqrt, start, l, now, command, allowed);
      }
    case _ => OtherStepsObserveNothing(sqrt, l, s);
  }

  lemma SeenIsObserved(sqrt: real -> real, l: Loop, now: real, command: Option<Pose>, allowed: bool)
    requires Enabled(l, TakeTip(now, command, allowed))
    ensures AfterTip(sqrt, l, now, command, allowed).observed == l.observed + [Seen(l, now)]
  {}

  lemma ObservedGrows(sqrt: real -> real, l: Loop, s: Step)
    requires Enabled(l, s)
    ensures l.observed <= Apply(sqrt, l, s).observed
  {}

  lemma ClockOfShorter(a: seq<Observation>, b: seq<Observation>)
    requires a <= b && ClockMonotone(b)
    ensures ClockMonotone(a)
  {}

  lemma {:induction false} RunEndsTruly(sqrt: real -> real, l: Loop, steps: seq<Step>)
    requires Initial(l) && l.session.tracker.timeout > 0.0 && After(sqrt, l, steps).Some?
    requires ClockMonotone(After(sqrt, l, steps).value.observed)
    ensures FollowsSession(sqrt, l.session, After(sqrt, l, steps).value)
    ensures EndingIsTrue(sqrt, l.session, After(sqrt, l, steps).value)
  {
    if steps == [] {
      NothingDone(sqrt, l.session);
    } else {
      var n := |steps| - 1;
      var before := After(sqrt, l, steps[..n]).value;
      ObservedGrows(sqrt, before, steps[n]);
      ClockOfShorter(before.observed, After(sqrt, l, steps).value.observed);
      RunEndsTruly(sqrt, l, steps[..n]);
      StepEndsTruly(sqrt, l.session, before, steps[n]);
    }
  }

  lemma NothingDone(sqrt: real -> real, s: Session)
    requires FreshSession(s)
    ensures StillOpen(sqrt, s, []) && RunSession(sqrt, s, []) == Ok(s)
  {
    var samples: seq<Sample> := [];
    SessionCompletesIffWindows(sqrt, s, []);
  }

  /** How Follow ends, over every interleaving of states, tips and the loop whose clock does not go
      back: with success exactly when the tips the session accepted have their windows; by timeout
      exactly when they do not and the last came more than the timeout after the first; never by
      an exception of the tracker; and in every other end, or as long as it goes on, neither of
      the two has come about. */
  lemma FollowEndsIff(sqrt: real -> real, l: Loop, steps: seq<Step>)
    requires Initial(l) && l.session.tracker.timeout > 0.0 && After(sqrt, l, steps).Some?
    requires ClockMonotone(After(sqrt, l, steps).value.observed)
    ensures
      var m := After(sqrt, l, steps).value;
      && (m.ending == Some(Succeeded) <==> DoneBy(sqrt, l.session, m.observed))
      && (m.ending == Some(TimedOut) <==> !DoneBy(sqrt, l.session, m.observed) && LatePast(l.session, m.observed))
      && m.ending != Some(Raised) && (m.pc == Finished <==> m.ending.Some?)
  {
    RunEndsTruly(sqrt, l, steps);
  }
}
