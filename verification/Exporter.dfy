/** Reading a journal back (`runtime_bridge/apps/export_orin_policy_log_to_open_loop_csv.py`):
    the sequence check, the record parser, the search for the latest motion session and the
    return from physical to normalized actions. */
module Exporter {
  import opened Geometry
  import opened Wrappers
  import opened FixedActions
  import opened CommandSink
  import opened ActionJournal
  import MotionChannel

  datatype AcceptedCommand = AcceptedCommand(sequence: int, stamp: int, action: Pose)

  datatype ExportError =
    | InvalidJson(line: nat) | NotAnObject(line: nat) | InvalidRecord(line: nat) | InvalidPacket(line: nat)
    | NonNumeric(line: nat) | NonFinite | NoRecords
    | SequenceGap(previous: int, current: int) | TimeRegression
    | BadSessionGap | NoMotionSession
    | ExceedsLimit(axis: nat)

  // ------------------------------------------------------------------ the order check

  function PairError(previous: AcceptedCommand, current: AcceptedCommand): Option<ExportError> {
    if current.sequence != previous.sequence + 1 then Some(SequenceGap(previous.sequence, current.sequence))
    else if current.stamp < previous.stamp then Some(TimeRegression)
    else None
  }

  /** The first complaint about neighbours, in reading order. */
  function OrderError(commands: seq<AcceptedCommand>): Option<ExportError> {
    var n := |commands|;
    if n <= 1 then None
    else
      var earlier := OrderError(commands[..n - 1]);
      if earlier.Some? then earlier else PairError(commands[n - 2], commands[n - 1])
  }

  /** Numbered without gap or repeat from the first, and never going back in time. */
  predicate Consecutive(commands: seq<AcceptedCommand>) {
    && (forall i :: 0 <= i < |commands| ==> commands[i].sequence == commands[0].sequence + i)
    && (forall i, j :: 0 <= i < j < |commands| ==> commands[i].stamp <= commands[j].stamp)
  }

  /** Comparing neighbours is enough to establish the order of the whole list. */
  lemma {:induction false} OrderErrorIsConsecutive(commands: seq<AcceptedCommand>)
    ensures OrderError(commands).None? <==> Consecutive(commands)
  {
    var n := |commands|;
    if n > 1 {
      var before := commands[..n - 1];
      OrderErrorIsConsecutive(before);
      assert forall i :: 0 <= i < n - 1 ==> before[i] == commands[i];
      if Consecutive(before) {
        assert before[n - 2].sequence == before[0].sequence + (n - 2);
      }
    }
  }

  lemma {:induction false} OrderErrorPrefix(commands: seq<AcceptedCommand>, k: nat)
    requires k <= |commands| && OrderError(commands[..k]).Some?
    ensures OrderError(commands) == OrderError(commands[..k])
    decreases |commands|
  {
    if k < |commands| {
      assert commands[..|commands| - 1][..k] == commands[..k];
      OrderErrorPrefix(commands[..|commands| - 1], k);
    } else {
      assert commands[..k] == commands;
    }
  }

  method ValidateCommandOrder(commands: seq<AcceptedCommand>) returns (e: Option<ExportError>)
    ensures e == OrderError(commands)
  {
    var i := 1;
    while i < |commands|
      invariant 1 <= i && (i <= |commands| || |commands| == 0)
      invariant |commands| > 0 ==> OrderError(commands[..i]).None?
    {
      assert commands[..i + 1][..i] == commands[..i];
      e := PairError(commands[i - 1], commands[i]);
      if e.Some? {
        OrderErrorPrefix(commands, i + 1);
        return;
      }
      i := i + 1;
    }
    if |commands| > 0 {
      assert commands[..i] == commands;
    }
    e := None;
  }

  // ----------------------------------------------------------------------- the parser

  /** What JSON decoding leaves of an action entry. */
  datatype Entry = Number(x: real) | Infinite | NotANumber

  /** The fields of a decoded packet; `None` where the value has the wrong type. */
  datatype PacketJson = PacketJson(
    isPolicyAction: bool, orderMatches: bool, action: Option<seq<Entry>>, sequence: Option<int>)

  datatype Line =
    | Blank | Malformed | Scalar
    | Object(schemaMatches: bool, packet: Option<PacketJson>, stamp: Option<int>)

  function ParseLine(line: Line, number: nat): Result<Option<AcceptedCommand>, ExportError> {
    match line
    case Blank => Ok(None)
    case Malformed => Err(InvalidJson(number))
    case Scalar => Err(NotAnObject(number))
    case Object(schema, packet, stamp) =>
      if !schema || packet.None? || !packet.value.isPolicyAction || !packet.value.orderMatches then
        Err(InvalidRecord(number))
      else
        var p := packet.value;
        if p.action.None? || |p.action.value| != AXES || p.sequence.None? || stamp.None? then Err(InvalidPacket(number))
        else if exists i :: 0 <= i < AXES && p.action.value[i].NotANumber? then Err(NonNumeric(number))
        else if exists i :: 0 <= i < AXES && p.action.value[i].Infinite? then Err(NonFinite)
        else
          Ok(Some(AcceptedCommand(
            p.sequence.value, stamp.value, seq(AXES, i requires 0 <= i < AXES => p.action.value[i].x))))
  }

  /** The commands of the lines, or the first error. Lines count from one. */
  function Collected(lines: seq<Line>): Result<seq<AcceptedCommand>, ExportError> {
    if lines == [] then Ok([])
    else
      var n := |lines| - 1;
      match Collected(lines[..n])
      case Err(e) => Err(e)
      case Ok(commands) =>
        match ParseLine(lines[n], n + 1)
        case Err(e) => Err(e)
        case Ok(None) => Ok(commands)
        case Ok(Some(c)) => Ok(commands + [c])
  }

  function Parsed(lines: seq<Line>): Result<seq<AcceptedCommand>, ExportError> {
    match Collected(lines)
    case Err(e) => Err(e)
    case Ok(commands) =>
      if commands == [] then Err(NoRecords)
      else if OrderError(commands).Some? then Err(OrderError(commands).value)
      else Ok(commands)
  }

  lemma {:induction false} CollectedPrefix(lines: seq<Line>, k: nat)
    requires k <= |lines| && Collected(lines[..k]).Err?
    ensures Collected(lines) == Collected(lines[..k])
    decreases |lines|
  {
    if k < |lines| {
      assert lines[..|lines| - 1][..k] == lines[..k];
      CollectedPrefix(lines[..|lines| - 1], k);
    } else {
      assert lines[..k] == lines;
    }
  }

  method ParsePcJournalCommands(lines: seq<Line>) returns (r: Result<seq<AcceptedCommand>, ExportError>)
    ensures r == Parsed(lines)
    ensures r.Ok? ==> r.value != [] && Consecutive(r.value)
  {
    var commands: seq<AcceptedCommand> := [];
    for i := 0 to |lines|
      invariant Collected(lines[..i]) == Ok(commands)
    {
      assert lines[..i + 1][..i] == lines[..i];
      var c := ParseLine(lines[i], i + 1);
      if c.Err? {
        CollectedPrefix(lines, i + 1);
        return Err(c.error);
      }
      if c.value.Some? {
        commands := commands + [c.value.value];
      }
    }
    assert lines[..|lines|] == lines;
    if commands == [] {
      return Err(NoRecords);
    }
    var e := ValidateCommandOrder(commands);
    if e.Some? {
      return Err(e.value);
    }
    OrderErrorIsConsecutive(commands);
    return Ok(commands);
  }

  // ----------------------------------------------------------- records and their lines

  /** The line the sender writes for a record. */
  function Encode(r: Record): Line {
    var action := seq(AXES, i requires 0 <= i < AXES => Number(r.packet.action[i]));
    Object(true, Some(PacketJson(true, true, Some(action), Some(r.packet.seqNo))), Some(r.stamp))
  }

  function EncodeAll(records: seq<Record>): (lines: seq<Line>)
    ensures |lines| == |records|
    ensures forall i :: 0 <= i < |records| ==> lines[i] == Encode(records[i])
  {
    if records == [] then [] else EncodeAll(records[..|records| - 1]) + [Encode(records[|records| - 1])]
  }

  function CommandOf(r: Record): AcceptedCommand { AcceptedCommand(r.packet.seqNo, r.stamp, r.packet.action) }

  function CommandsOf(records: seq<Record>): (commands: seq<AcceptedCommand>)
    ensures |commands| == |records|
    ensures forall i :: 0 <= i < |records| ==> commands[i] == CommandOf(records[i])
  {
    if records == [] then [] else CommandsOf(records[..|records| - 1]) + [CommandOf(records[|records| - 1])]
  }

  lemma EncodedLineParses(r: Record, number: nat)
    ensures ParseLine(Encode(r), number) == Ok(Some(CommandOf(r)))
  {
    var entries := Encode(r).packet.value.action.value;
    assert seq(AXES, i requires 0 <= i < AXES => entries[i].x) == r.packet.action;
  }

  lemma {:induction false} EncodedLinesParse(records: seq<Record>)
    ensures Collected(EncodeAll(records)) == Ok(CommandsOf(records))
  {
    if records != [] {
      var n := |records| - 1;
      EncodedLinesParse(records[..n]);
      EncodedLineParses(records[n], n + 1);
      assert EncodeAll(records)[..n] == EncodeAll(records[..n]);
    }
  }

  /** The wall clock of the records never goes back. */
  predicate ClockMonotone(records: seq<Record>) {
    forall i, j :: 0 <= i < j < |records| ==> records[i].stamp <= records[j].stamp
  }

  lemma {:induction false} CommandsAreConsecutive(records: seq<Record>, first: nat)
    requires records != [] && ClockMonotone(records)
    requires forall i :: 0 <= i < |records| ==> records[i].packet.seqNo == first + i
    ensures OrderError(CommandsOf(records)).None?
  {
    var commands := CommandsOf(records);
    assert commands[0].sequence == first;
    assert Consecutive(commands);
    OrderErrorIsConsecutive(commands);
  }

  lemma ParsedWhole(lines: seq<Line>, commands: seq<AcceptedCommand>)
    requires Collected(lines) == Ok(commands) && commands != [] && OrderError(commands).None?
    ensures Parsed(lines) == Ok(commands)
  {}

  /** A stretch of well-numbered records reads back as itself. */
  lemma {:induction false} StretchReadsBack(records: seq<Record>, first: nat)
    requires records != [] && ClockMonotone(records)
    requires forall i :: 0 <= i < |records| ==> records[i].packet.seqNo == first + i
    ensures Parsed(EncodeAll(records)) == Ok(CommandsOf(records))
  {
    EncodedLinesParse(records);
    CommandsAreConsecutive(records, first);
    ParsedWhole(EncodeAll(records), CommandsOf(records));
  }

  predicate WellNumbered(records: seq<Record>) {
    forall i :: 0 <= i < |records| ==> records[i].packet.seqNo == i
  }

  lemma {:induction false} SliceReadsBack(sent: seq<Record>, written: seq<Record>, at: nat, part: seq<Record>)
    requires WellNumbered(sent) && ClockMonotone(sent) && written <= sent
    requires at + |part| <= |written| && written[at..at + |part|] == part && part != []
    ensures Parsed(EncodeAll(part)) == Ok(CommandsOf(part))
    ensures part[0].packet.seqNo == at
  {
    forall i | 0 <= i < |part|
      ensures part[i] == sent[at + i]
    {
      assert part[i] == written[at + i];
    }
    StretchReadsBack(part, at);
  }

  lemma SentAreWellNumbered(config: SinkConfig, maxFileBytes: nat, ch: MotionChannel.Channel)
    requires MotionChannel.ReachableChannel(config, maxFileBytes, ch)
    ensures WellNumbered(ch.journal.sent)
  {
    var sent := ch.journal.sent;
    MotionChannel.SendsAreTheSinksPackets(config, maxFileBytes, ch);
    RecordedNumbersHaveNoGap(config, MotionChannel.Settled(ch));
    forall i | 0 <= i < |sent|
      ensures sent[i].packet.seqNo == i
    {
      assert sent[i].packet == MotionChannel.PacketsOf(sent)[i];
    }
  }

  lemma WrittenArePrefix(maxFileBytes: nat, j: Journal)
    requires Reachable(maxFileBytes, j)
    ensures Written(j.parts) <= j.sent
  {
    JournalFollowsSends(maxFileBytes, j);
  }

  lemma {:induction false} PartsReadBack(sent: seq<Record>, parts: seq<Part>, k: nat)
    requires WellNumbered(sent) && ClockMonotone(sent) && Written(parts) <= sent
    requires k < |parts| && parts[k].records != []
    ensures Parsed(EncodeAll(parts[k].records)) == Ok(CommandsOf(parts[k].records))
    ensures Parsed(EncodeAll(Written(parts))) == Ok(CommandsOf(Written(parts)))
    ensures parts[k].records[0].packet.seqNo == Offset(parts, k)
  {
    PartIsSlice(parts, k);
    SliceReadsBack(sent, Written(parts), Offset(parts, k), parts[k].records);
    SliceReadsBack(sent, Written(parts), 0, Written(parts));
  }

  // --------------------------------------------------------------------- motion sessions

  predicate Moves(c: AcceptedCommand) { c.action != ZERO_ACTION }

  /** A place where a session can begin or end. */
  predicate Boundary(commands: seq<AcceptedCommand>, gap: int, i: nat)
    requires i <= |commands|
  {
    i == 0 || i == |commands| || commands[i].stamp - commands[i - 1].stamp > gap
  }

  /** The commands between two neighbouring boundaries. */
  predicate IsSession(commands: seq<AcceptedCommand>, gap: int, a: nat, b: nat) {
    && a < b <= |commands| && Boundary(commands, gap, a) && Boundary(commands, gap, b)
    && forall i :: a < i < b ==> !Boundary(commands, gap, i)
  }

  predicate HasMotion(commands: seq<AcceptedCommand>, a: nat, b: nat)
    requires a <= b <= |commands|
  {
    exists i :: a <= i < b && Moves(commands[i])
  }

  /** The session `a..b` moves and nothing after it does. */
  predicate IsLatestMotion(commands: seq<AcceptedCommand>, gap: int, a: nat, b: nat) {
    IsSession(commands, gap, a, b) && HasMotion(commands, a, b) && !HasMotion(commands, b, |commands|)
  }

  /** There is only one such session. */
  lemma LatestMotionIsUnique(commands: seq<AcceptedCommand>, gap: int, a: nat, b: nat, c: nat, d: nat)
    requires IsLatestMotion(commands, gap, a, b) && IsLatestMotion(commands, gap, c, d)
    ensures a == c && b == d
  {
    var i :| a <= i < b && Moves(commands[i]);
    var j :| c <= j < d && Moves(commands[j]);
    assert i < d && j < b;
    assert !(c < b < d) && !(a < d < b);
    assert !(a < c < b) && !(c < a < d);
  }

  ghost predicate SessionAt(
    commands: seq<AcceptedCommand>, gap: int, bounds: seq<nat>, sessions: seq<seq<AcceptedCommand>>, k: nat)
    requires k < |sessions| && |bounds| == |sessions| + 1
  {
    IsSession(commands, gap, bounds[k], bounds[k + 1]) && sessions[k] == commands[bounds[k]..bounds[k + 1]]
  }

  ghost predicate SessionsAre(
    commands: seq<AcceptedCommand>, gap: int, bounds: seq<nat>, sessions: seq<seq<AcceptedCommand>>)
  {
    && |bounds| == |sessions| + 1 && bounds[0] == 0 && bounds[|sessions|] <= |commands|
    && forall k :: 0 <= k < |sessions| ==> SessionAt(commands, gap, bounds, sessions, k)
  }

  lemma SessionAdded(
    commands: seq<AcceptedCommand>, gap: int, bounds: seq<nat>, sessions: seq<seq<AcceptedCommand>>, i: nat)
    requires SessionsAre(commands, gap, bounds, sessions)
    requires i <= |commands| && IsSession(commands, gap, bounds[|sessions|], i)
    ensures SessionsAre(commands, gap, bounds + [i], sessions + [commands[bounds[|sessions|]..i]])
  {
    var more, longer := bounds + [i], sessions + [commands[bounds[|sessions|]..i]];
    forall k | 0 <= k < |longer|
      ensures SessionAt(commands, gap, more, longer, k)
    {
      if k < |sessions| {
        assert SessionAt(commands, gap, bounds, sessions, k);
      }
    }
  }

  /** The boundaries before `i`, in order. */
  function Breaks(commands: seq<AcceptedCommand>, gap: int, i: nat): seq<nat>
    requires i <= |commands|
  {
    if i == 0 then []
    else Breaks(commands, gap, i - 1) + if Boundary(commands, gap, i - 1) then [i - 1] else []
  }

  /** Where the sessions begin, and the end. */
  function Bounds(commands: seq<AcceptedCommand>, gap: int): seq<nat> {
    Breaks(commands, gap, |commands|) + [|commands|]
  }

  method SplitSessions(commands: seq<AcceptedCommand>, gap: int) returns (sessions: seq<seq<AcceptedCommand>>)
    ensures SessionsAre(commands, gap, Bounds(commands, gap), sessions)
  {
    sessions := [];
    var current: seq<AcceptedCommand> := [];
    ghost var bounds: seq<nat> := [0];
    for i := 0 to |commands|
      invariant if i == 0 then bounds == [0] else bounds == Breaks(commands, gap, i)
      invariant SessionsAre(commands, gap, bounds, sessions)
      invariant bounds[|sessions|] <= i && (i > 0 ==> bounds[|sessions|] < i)
      invariant Boundary(commands, gap, bounds[|sessions|])
      invariant forall k :: bounds[|sessions|] < k < i ==> !Boundary(commands, gap, k)
      invariant current == commands[bounds[|sessions|]..i]
    {
      if current != [] && commands[i].stamp - current[|current| - 1].stamp > gap {
        assert IsSession(commands, gap, bounds[|sessions|], i);
        SessionAdded(commands, gap, bounds, sessions, i);
        sessions := sessions + [current];
        bounds := bounds + [i];
        current := [];
      }
      current := current + [commands[i]];
    }
    if current != [] {
      ghost var start := bounds[|sessions|];
      assert IsSession(commands, gap, start, |commands|);
      SessionAdded(commands, gap, bounds, sessions, |commands|);
      assert current == commands[start..|commands|];
      sessions := sessions + [current];
    }
  }

  predicate AnyMotion(session: seq<AcceptedCommand>) {
    exists c :: c in session && Moves(c)
  }

  /** What the exporter writes for a session is again numbered without gaps. */
  lemma SessionIsConsecutive(commands: seq<AcceptedCommand>, a: nat, b: nat)
    requires Consecutive(commands) && a <= b <= |commands|
    ensures Consecutive(commands[a..b])
  {
    var s := commands[a..b];
    assert forall i :: 0 <= i < |s| ==> s[i] == commands[a + i];
  }

  /** `latest_motion_session`: the session is the stretch between two gaps that holds the last
      non-zero command; the only other outcomes are a bad gap and a journal without motion. */
  method LatestMotionSession(commands: seq<AcceptedCommand>, gap: int)
    returns (r: Result<seq<AcceptedCommand>, ExportError>, ghost a: nat, ghost b: nat)
    ensures r.Ok? <==> gap > 0 && HasMotion(commands, 0, |commands|)
    ensures r.Ok? ==> IsLatestMotion(commands, gap, a, b) && r.value == commands[a..b]
    ensures r.Ok? && Consecutive(commands) ==> Consecutive(r.value)
    ensures r.Err? ==> r.error == if gap <= 0 then BadSessionGap else NoMotionSession
  {
    a, b := 0, 0;
    if gap <= 0 {
      return Err(BadSessionGap), a, b;
    }
    var sessions := SplitSessions(commands, gap);
    ghost var bounds := Bounds(commands, gap);
    assert bounds[|sessions|] == |commands|;
    var motion: seq<seq<AcceptedCommand>> := [];
    for k := 0 to |sessions|
      invariant bounds[k] <= |commands|
      invariant motion == [] ==> !HasMotion(commands, 0, bounds[k])
      invariant motion != [] ==> IsSession(commands, gap, a, b) && HasMotion(commands, a, b)
      invariant motion != [] ==> b <= bounds[k] && !HasMotion(commands, b, bounds[k])
      invariant motion != [] ==> motion[|motion| - 1] == commands[a..b]
    {
      assert SessionAt(commands, gap, bounds, sessions, k);
      if AnyMotion(sessions[k]) {
        motion := motion + [sessions[k]];
        a, b := bounds[k], bounds[k + 1];
        var c :| c in sessions[k] && Moves(c);
      } else {
        QuietSession(commands, bounds[k], bounds[k + 1]);
      }
    }
    if motion == [] {
      return Err(NoMotionSession), a, b;
    }
    if Consecutive(commands) {
      SessionIsConsecutive(commands, a, b);
    }
    return Ok(motion[|motion| - 1]), a, b;
  }

  lemma QuietSession(commands: seq<AcceptedCommand>, a: nat, b: nat)
    requires a <= b <= |commands| && !AnyMotion(commands[a..b])
    ensures !HasMotion(commands, a, b)
  {
    forall i | a <= i < b
      ensures !Moves(commands[i])
    {
      assert commands[i] == commands[a..b][i - a];
    }
  }

  // ---------------------------------------------------------------- back to the policy

  const OVERSPEED := 1.000001

  function Ratio(value: real, limit: real): real
    requires limit > 0.0
  {
    value / limit
  }

  /** Division by the limit of the direction, clamped, unless it exceeds the limit. */
  function NormalizedAxis(value: real, limit: SpeedLimit): Option<real>
    requires limit.positive > 0.0 && limit.negative > 0.0
  {
    var command := Ratio(value, if value >= 0.0 then limit.positive else limit.negative);
    if Abs(command) > OVERSPEED then None else Some(Clamp(command))
  }

  function NormalizedFrom(action: Pose, limits: Limits, axis: nat): Result<seq<real>, ExportError>
    requires PositiveLimits(limits) && axis <= AXES
  {
    if axis == 0 then Ok([])
    else
      match NormalizedFrom(action, limits, axis - 1)
      case Err(e) => Err(e)
      case Ok(values) =>
        match NormalizedAxis(action[axis - 1], limits[axis - 1])
        case None => Err(ExceedsLimit(axis - 1))
        case Some(v) => Ok(values + [v])
  }

  method NormalizedAction(action: Pose, limits: Limits) returns (r: Result<seq<real>, ExportError>)
    requires PositiveLimits(limits)
    ensures r == NormalizedFrom(action, limits, AXES)
  {
    var normalized: seq<real> := [];
    for axis := 0 to AXES
      invariant NormalizedFrom(action, limits, axis) == Ok(normalized)
    {
      var v := NormalizedAxis(action[axis], limits[axis]);
      if v.None? {
        NormalizedFromFails(action, limits, axis + 1, AXES);
        return Err(ExceedsLimit(axis));
      }
      normalized := normalized + [v.value];
    }
    return Ok(normalized);
  }

  lemma {:induction false} NormalizedFromFails(action: Pose, limits: Limits, axis: nat, axes: nat)
    requires PositiveLimits(limits) && axis <= axes <= AXES
    requires NormalizedFrom(action, limits, axis).Err?
    ensures NormalizedFrom(action, limits, axes) == NormalizedFrom(action, limits, axis)
    decreases axes
  {
    if axis < axes {
      NormalizedFromFails(action, limits, axis, axes - 1);
    }
  }

  lemma NegativeProduct(n: real, l: real)
    requires n < 0.0 && l > 0.0
    ensures n * l < 0.0
  {
    ProductPositive(-n, l);
    assert n * l == -((-n) * l);
  }

  lemma QuotientOfProduct(n: real, l: real, p: real)
    requires l > 0.0 && p == n * l
    ensures Ratio(p, l) == n
  {}

  /** The exporter undoes the physical scaling of the live path. */
  lemma NormalizedAxisInverts(v: real, limit: SpeedLimit)
    requires limit.positive > 0.0 && limit.negative > 0.0
    ensures NormalizedAxis(AxisVelocity(v, limit), limit) == Some(Clamp(v))
  {
    var n, value := Clamp(v), AxisVelocity(v, limit);
    if n >= 0.0 {
      ProductNonNegative(n, limit.positive);
      QuotientOfProduct(n, limit.positive, value);
    } else {
      NegativeProduct(n, limit.negative);
      QuotientOfProduct(n, limit.negative, value);
    }
  }

  lemma {:induction false} NormalizedFromInverts(applied: Pose, limits: Limits, axis: nat)
    requires PositiveLimits(limits) && axis <= AXES
    requires forall i :: 0 <= i < AXES ==> Abs(applied[i]) <= 1.0
    ensures NormalizedFrom(Velocities(applied, limits), limits, axis) == Ok(applied[..axis])
  {
    if axis > 0 {
      NormalizedFromInverts(applied, limits, axis - 1);
      NormalizedAxisInverts(applied[axis - 1], limits[axis - 1]);
      assert applied[..axis] == applied[..axis - 1] + [applied[axis - 1]];
    }
  }

  /** A policy action masked by an envelope, scaled to speeds, sent, recorded and exported comes
      back as the masked policy action. */
  lemma ExportRecoversPolicyAction(allowed: AxisMask, limits: Limits, raw: seq<real>)
    requires PositiveLimits(limits)
    ensures
      var applied := ApplyNormalized(EnvelopeOf(allowed, limits), raw);
      applied.Some? ==> NormalizedFrom(Velocities(applied.value, limits), limits, AXES) == Ok(applied.value)
  {
    var applied := ApplyNormalized(EnvelopeOf(allowed, limits), raw);
    if applied.Some? {
      NormalizedFromInverts(applied.value, limits, AXES);
      assert applied.value[..AXES] == applied.value;
    }
  }
}
