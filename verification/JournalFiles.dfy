/** The part files of a journal (`runtime_bridge/action_journal.py`) as the exporter
    (`runtime_bridge/apps/export_orin_policy_log_to_open_loop_csv.py`) reads them: whole files,
    the bytes of an incomplete record at the end included. */
module JournalFiles {
  import opened ActionJournal
  import opened CommandSink
  import opened Exporter
  import opened Wrappers
  import FixedActions
  import MotionChannel

  /** The record of which the last part may hold some bytes: the next of the sends. */
  function CutRecord(j: Journal): Option<Record> {
    if |Written(j.parts)| < |j.sent| then Some(j.sent[|Written(j.parts)|]) else None
  }

  /** The bytes at the end of a part file are a whole line when only its line feed is missing. */
  predicate OnlyFeedMissing(torn: nat, cut: Option<Record>) {
    torn > 0 && cut.Some? && torn + 1 == cut.value.size
  }

  /** The file ends in the middle of a record. */
  predicate CutInside(torn: nat, cut: Option<Record>) {
    cut.Some? && 0 < torn && torn + 1 < cut.value.size
  }

  /** Torn bytes are some, but not all, of the next record. */
  predicate TornFits(torn: nat, cut: Option<Record>) {
    torn > 0 ==> cut.Some? && torn < cut.value.size
  }

  /** The last lines of a part file, after those of its complete records: a proper part of an
      encoded object is not JSON, since its closing brace is missing. */
  function TailLines(torn: nat, cut: Option<Record>): seq<Line> {
    if torn == 0 then [] else if OnlyFeedMissing(torn, cut) then [Encode(cut.value)] else [Malformed]
  }

  /** The lines of the file of a part. */
  function FileLines(p: Part, cut: Option<Record>): seq<Line> {
    EncodeAll(p.records) + TailLines(p.torn, cut)
  }

  /** The records of which the file holds a whole line. */
  function Legible(p: Part, cut: Option<Record>): seq<Record> {
    p.records + if OnlyFeedMissing(p.torn, cut) then [cut.value] else []
  }

  /** All part files, one after the other. */
  function JournalLines(parts: seq<Part>, cut: Option<Record>): seq<Line> {
    if parts == [] then []
    else JournalLines(parts[..|parts| - 1], cut) + FileLines(Last(parts), cut)
  }

  function LastTorn(parts: seq<Part>): nat { if parts == [] then 0 else Last(parts).torn }

  // ------------------------------------------------------------------ what the lines say

  lemma EncodeAppend(records: seq<Record>, r: Record)
    ensures EncodeAll(records + [r]) == EncodeAll(records) + [Encode(r)]
  {
    assert (records + [r])[..|records|] == records;
  }

  lemma {:induction false} EncodeJoin(a: seq<Record>, b: seq<Record>)
    ensures EncodeAll(a + b) == EncodeAll(a) + EncodeAll(b)
  {
    forall i | 0 <= i < |a + b|
      ensures EncodeAll(a + b)[i] == (EncodeAll(a) + EncodeAll(b))[i]
    {}
  }

  /** A file that is not cut inside a record holds the lines of its legible records. */
  lemma UncutLines(records: seq<Record>, torn: nat, cut: Option<Record>)
    requires TornFits(torn, cut) && !CutInside(torn, cut)
    ensures
      EncodeAll(records) + TailLines(torn, cut)
      == EncodeAll(records + if OnlyFeedMissing(torn, cut) then [cut.value] else [])
  {
    if OnlyFeedMissing(torn, cut) {
      EncodeAppend(records, cut.value);
    } else {
      assert records + [] == records;
    }
  }

  /** The first line that is not JSON is reported by its number. */
  lemma CutLineIsReported(records: seq<Record>)
    ensures Parsed(EncodeAll(records) + [Malformed]) == Err(InvalidJson(|records| + 1))
  {
    var lines := EncodeAll(records) + [Malformed];
    EncodedLinesParse(records);
    assert lines[..|lines| - 1] == EncodeAll(records);
  }

  /** A numbered stretch is refused only for a clock that goes back. */
  lemma {:induction false} StretchAnswer(records: seq<Record>, first: nat)
    requires records != [] && forall i :: 0 <= i < |records| ==> records[i].packet.seqNo == first + i
    ensures
      Parsed(EncodeAll(records))
      == (if ClockMonotone(records) then Ok(CommandsOf(records)) else Err(TimeRegression))
  {
    if ClockMonotone(records) {
      StretchReadsBack(records, first);
    } else {
      EncodedLinesParse(records);
      OrderErrorIsConsecutive(CommandsOf(records));
      ClockIsConsecutive(records, first);
      OnlyClockComplains(CommandsOf(records), first);
    }
  }

  lemma {:induction false} ClockIsConsecutive(records: seq<Record>, first: nat)
    requires forall i :: 0 <= i < |records| ==> records[i].packet.seqNo == first + i
    ensures Consecutive(CommandsOf(records)) ==> ClockMonotone(records)
  {
    var commands := CommandsOf(records);
    assert forall i :: 0 <= i < |records| ==> commands[i].stamp == records[i].stamp;
  }

  lemma {:induction false} OnlyClockComplains(commands: seq<AcceptedCommand>, first: nat)
    requires forall i :: 0 <= i < |commands| ==> commands[i].sequence == first + i
    ensures OrderError(commands).Some? ==> OrderError(commands) == Some(TimeRegression)
  {
    if |commands| > 1 {
      OnlyClockComplains(commands[..|commands| - 1], first);
    }
  }

  lemma {:induction false} SliceAnswer(sent: seq<Record>, written: seq<Record>, at: nat, part: seq<Record>)
    requires WellNumbered(sent) && written <= sent
    requires at + |part| <= |written| && written[at..at + |part|] == part && part != []
    ensures Parsed(EncodeAll(part)) == (if ClockMonotone(part) then Ok(CommandsOf(part)) else Err(TimeRegression))
  {
    forall i | 0 <= i < |part|
      ensures part[i].packet.seqNo == at + i
    {
      assert part[i] == written[at + i] == sent[at + i];
    }
    StretchAnswer(part, at);
  }

  /** The answer of the exporter to a file: a line that is cut is reported before anything else. */
  function Answer(records: seq<Record>, torn: nat, cut: Option<Record>, legible: seq<Record>):
    Result<seq<AcceptedCommand>, ExportError>
  {
    if CutInside(torn, cut) then Err(InvalidJson(|records| + 1))
    else if legible == [] then Err(NoRecords)
    else if !ClockMonotone(legible) then Err(TimeRegression)
    else Ok(CommandsOf(legible))
  }

  /** How the exporter answers a run of complete records followed by torn bytes. */
  lemma FileAnswer(
    sent: seq<Record>, written: seq<Record>, at: nat, records: seq<Record>, torn: nat, cut: Option<Record>,
    legible: seq<Record>)
    requires WellNumbered(sent) && TornFits(torn, cut)
    requires legible == records + if OnlyFeedMissing(torn, cut) then [cut.value] else []
    requires written <= sent && at + |legible| <= |written| && written[at..at + |legible|] == legible
    ensures Parsed(EncodeAll(records) + TailLines(torn, cut)) == Answer(records, torn, cut, legible)
  {
    if CutInside(torn, cut) {
      CutLineIsReported(records);
    } else {
      UncutLines(records, torn, cut);
      if legible == [] {
        assert EncodeAll(legible) == [];
      } else {
        SliceAnswer(sent, written, at, legible);
      }
    }
  }

  // ----------------------------------------------------------------- the files of a journal

  /** Written records, and the next one when only its line feed is missing, are a prefix of
      the sends. */
  function LegibleAll(j: Journal): seq<Record> {
    Written(j.parts) + if OnlyFeedMissing(LastTorn(j.parts), CutRecord(j)) then [CutRecord(j).value] else []
  }

  lemma LegibleArePrefix(maxFileBytes: nat, j: Journal)
    requires Reachable(maxFileBytes, j)
    ensures LegibleAll(j) <= j.sent
  {
    WrittenArePrefix(maxFileBytes, j);
  }

  lemma OnlyLastIsTorn(maxFileBytes: nat, j: Journal, k: nat)
    requires Reachable(maxFileBytes, j) && k + 1 < |j.parts|
    ensures j.parts[k].torn == 0 && j.parts[k].records != []
  {
    PartsPartitionTheRecords(maxFileBytes, j);
  }

  lemma TornIsPartOfNext(maxFileBytes: nat, j: Journal, k: nat)
    requires Reachable(maxFileBytes, j) && k < |j.parts|
    ensures TornFits(j.parts[k].torn, CutRecord(j)) && TornFits(LastTorn(j.parts), CutRecord(j))
  {
    JournalFollowsSends(maxFileBytes, j);
    if k + 1 < |j.parts| {
      OnlyLastIsTorn(maxFileBytes, j, k);
    }
  }

  /** A part's legible records are a stretch of the journal's. */
  lemma LegibleIsSlice(maxFileBytes: nat, j: Journal, k: nat)
    requires Reachable(maxFileBytes, j) && k < |j.parts|
    ensures
      var at, legible, all := Offset(j.parts, k), Legible(j.parts[k], CutRecord(j)), LegibleAll(j);
      at + |legible| <= |all| && all[at..at + |legible|] == legible
  {
    PartIsSlice(j.parts, k);
    if k + 1 < |j.parts| {
      OnlyLastIsTorn(maxFileBytes, j, k);
    } else {
      LastPartIsSuffix(j.parts);
    }
  }

  lemma LastPartIsSuffix(parts: seq<Part>)
    requires parts != []
    ensures Offset(parts, |parts| - 1) + |Last(parts).records| == |Written(parts)|
  {}

  /** From the sink through the journal to the exporter, file by file: whatever commands the sink
      was given, whatever sends raised, however the threads interleaved and wherever the writer
      was when the file was read, the exporter accepts a part file if and only if the file holds
      a whole line, does not end in the middle of a record, and the wall clock did not go back
      within it. Then it reads back exactly the commands of its whole lines; a file cut in a
      record is refused with all it holds, naming the cut line. */
  lemma PartFileReadsBackIff(config: SinkConfig, maxFileBytes: nat, ch: MotionChannel.Channel, k: nat)
    requires MotionChannel.ReachableChannel(config, maxFileBytes, ch) && k < |ch.journal.parts|
    ensures
      var p, cut := ch.journal.parts[k], CutRecord(ch.journal);
      var answer, legible := Parsed(FileLines(p, cut)), Legible(p, cut);
      && (answer.Ok? <==> legible != [] && !CutInside(p.torn, cut) && ClockMonotone(legible))
      && (answer.Ok? ==> answer == Ok(CommandsOf(legible)))
      && (CutInside(p.torn, cut) ==> answer == Err(InvalidJson(|p.records| + 1)))
  {
    var j := ch.journal;
    var p, cut := j.parts[k], CutRecord(j);
    SentAreWellNumbered(config, maxFileBytes, ch);
    MotionChannel.JournalIsReachable(config, maxFileBytes, ch);
    LegibleArePrefix(maxFileBytes, j);
    LegibleIsSlice(maxFileBytes, j, k);
    TornIsPartOfNext(maxFileBytes, j, k);
    FileAnswer(j.sent, LegibleAll(j), Offset(j.parts, k), p.records, p.torn, cut, Legible(p, cut));
  }

  /** A part file that another one follows always reads back as its records, numbered on from
      those before it, unless the wall clock went back within it. */
  lemma EarlierPartsReadBack(config: SinkConfig, maxFileBytes: nat, ch: MotionChannel.Channel, k: nat)
    requires MotionChannel.ReachableChannel(config, maxFileBytes, ch) && k + 1 < |ch.journal.parts|
    ensures
      var j := ch.journal;
      var answer, records := Parsed(FileLines(j.parts[k], CutRecord(j))), j.parts[k].records;
      && (answer == if ClockMonotone(records) then Ok(CommandsOf(records)) else Err(TimeRegression))
      && records != [] && records[0].packet.seqNo == Offset(j.parts, k)
  {
    var j := ch.journal;
    var p, cut := j.parts[k], CutRecord(j);
    MotionChannel.JournalIsReachable(config, maxFileBytes, ch);
    OnlyLastIsTorn(maxFileBytes, j, k);
    SentAreWellNumbered(config, maxFileBytes, ch);
    WrittenArePrefix(maxFileBytes, j);
    PartIsSlice(j.parts, k);
    assert Legible(p, cut) == p.records;
    FileAnswer(j.sent, Written(j.parts), Offset(j.parts, k), p.records, 0, cut, p.records);
    FirstOfSlice(j.sent, Written(j.parts), Offset(j.parts, k), p.records);
  }

  lemma FirstOfSlice(sent: seq<Record>, written: seq<Record>, at: nat, part: seq<Record>)
    requires WellNumbered(sent) && written <= sent && part != []
    requires at + |part| <= |written| && written[at..at + |part|] == part
    ensures part[0].packet.seqNo == at
  {
    assert part[0] == written[at] == sent[at];
  }

  /** The complete records of every part, and of the whole journal, read back by themselves, when
      the clock did not go back: a reader that drops the cut line loses nothing else. */
  lemma CompleteRecordsReadBack(config: SinkConfig, maxFileBytes: nat, ch: MotionChannel.Channel, k: nat)
    requires MotionChannel.ReachableChannel(config, maxFileBytes, ch) && ClockMonotone(ch.journal.sent)
    requires k < |ch.journal.parts| && ch.journal.parts[k].records != []
    ensures
      var j := ch.journal;
      && Parsed(EncodeAll(j.parts[k].records)) == Ok(CommandsOf(j.parts[k].records))
      && Parsed(EncodeAll(Written(j.parts))) == Ok(CommandsOf(Written(j.parts)))
      && j.parts[k].records[0].packet.seqNo == Offset(j.parts, k)
  {
    SentAreWellNumbered(config, maxFileBytes, ch);
    MotionChannel.JournalIsReachable(config, maxFileBytes, ch);
    WrittenArePrefix(maxFileBytes, ch.journal);
    PartsReadBack(ch.journal.sent, ch.journal.parts, k);
  }

  lemma {:induction false} UntornLines(parts: seq<Part>, cut: Option<Record>)
    requires forall i :: 0 <= i < |parts| ==> parts[i].torn == 0
    ensures JournalLines(parts, cut) == EncodeAll(Written(parts))
  {
    if parts != [] {
      var front := parts[..|parts| - 1];
      UntornLines(front, cut);
      EncodeJoin(Written(front), Last(parts).records);
    }
  }

  lemma JoinTail(a: seq<Line>, b: seq<Line>, c: seq<Line>)
    ensures a + (b + c) == (a + b) + c
  {}

  lemma LinesOfParts(parts: seq<Part>, front: seq<Part>, p: Part, cut: Option<Record>)
    requires parts == front + [p] && forall i :: 0 <= i < |front| ==> front[i].torn == 0
    ensures JournalLines(parts, cut) == EncodeAll(Written(parts)) + TailLines(p.torn, cut)
  {
    assert parts[..|parts| - 1] == front;
    UntornLines(front, cut);
    EncodeJoin(Written(front), p.records);
    JoinTail(EncodeAll(Written(front)), EncodeAll(p.records), TailLines(p.torn, cut));
  }

  lemma JournalLinesAre(maxFileBytes: nat, j: Journal)
    requires Reachable(maxFileBytes, j)
    ensures
      JournalLines(j.parts, CutRecord(j))
      == EncodeAll(Written(j.parts)) + TailLines(LastTorn(j.parts), CutRecord(j))
  {
    PartsPartitionTheRecords(maxFileBytes, j);
    if j.parts != [] {
      LinesOfParts(j.parts, j.parts[..|j.parts| - 1], Last(j.parts), CutRecord(j));
    }
  }

  /** The same for all files in order. */
  lemma JournalReadsBackIff(config: SinkConfig, maxFileBytes: nat, ch: MotionChannel.Channel)
    requires MotionChannel.ReachableChannel(config, maxFileBytes, ch)
    ensures
      var j := ch.journal;
      var answer := Parsed(JournalLines(j.parts, CutRecord(j)));
      && (answer.Ok? <==>
            LegibleAll(j) != [] && !CutInside(LastTorn(j.parts), CutRecord(j)) && ClockMonotone(LegibleAll(j)))
      && (answer.Ok? ==> answer == Ok(CommandsOf(LegibleAll(j))))
  {
    var j := ch.journal;
    SentAreWellNumbered(config, maxFileBytes, ch);
    MotionChannel.JournalIsReachable(config, maxFileBytes, ch);
    LegibleArePrefix(maxFileBytes, j);
    JournalLinesAre(maxFileBytes, j);
    if j.parts != [] {
      TornIsPartOfNext(maxFileBytes, j, 0);
    }
    WholeAnswer(j.sent, Written(j.parts), LastTorn(j.parts), CutRecord(j), LegibleAll(j));
  }

  lemma WholeAnswer(sent: seq<Record>, written: seq<Record>, torn: nat, cut: Option<Record>, legible: seq<Record>)
    requires WellNumbered(sent) && TornFits(torn, cut)
    requires legible == written + (if OnlyFeedMissing(torn, cut) then [cut.value] else []) && legible <= sent
    ensures Parsed(EncodeAll(written) + TailLines(torn, cut)) == Answer(written, torn, cut, legible)
  {
    assert legible[0..0 + |legible|] == legible;
    FileAnswer(sent, legible, 0, written, torn, cut, legible);
  }

  // ----------------------------------------------------------------------- a cut file happens

  /** The channel waits: no command runs, the journal is open and healthy and all is written. */
  predicate AtRest(ch: MotionChannel.Channel) {
    && ch.call.NoCall? && Healthy(ch.journal) && ch.journal.sender.Idle?
    && ch.journal.writer.Waiting? && ch.journal.queue == [] && ch.journal.parts != []
  }

  /** The events of the writer taking one record up to its first bytes. */
  function TakeEvents(bytes: nat): seq<MotionChannel.Event> {
    [MotionChannel.Act(Get), MotionChannel.Act(Accept), MotionChannel.Act(StartWrite),
     MotionChannel.Act(WriteChunk(bytes))]
  }

  /** The channel after one more zero command. */
  function Sent(ch: MotionChannel.Channel, stamp: int, r: Record): MotionChannel.Channel {
    MotionChannel.SentOn(ch, Zero(stamp), r)
  }

  lemma SendHappens(ch: MotionChannel.Channel, stamp: int, r: Record)
    requires AtRest(ch) && r.packet == Packet(ch.sink.actionSeq, stamp, FixedActions.ZERO_ACTION)
    ensures
      MotionChannel.RunFrom(ch, MotionChannel.SendEvents(Zero(stamp), r)) == Some(Sent(ch, stamp, r))
    ensures Queues(Sent(ch, stamp, r), r)
  {
    MotionChannel.SendHappens(ch, Zero(stamp), r);
  }

  /** The channel after the first `i` events of the writer taking the only queued record. */
  function Taking(ch: MotionChannel.Channel, r: Record, bytes: nat, i: nat): MotionChannel.Channel
    requires ch.journal.parts != [] && 0 < bytes <= r.size && i <= 4
  {
    var j := ch.journal;
    var rotated := Rotated(j.parts, r.size, j.maxFileBytes);
    ch.(journal :=
      if i == 0 then j
      else if i == 1 then j.(queue := [], writer := Got(r))
      else if i == 2 then j.(queue := [], writer := Accepted(r))
      else if i == 3 then j.(queue := [], writer := Writing(r, 0), parts := rotated)
      else
        j.(queue := [], writer := if bytes == r.size then Pruning else Writing(r, bytes),
           parts := Appended(rotated, r, bytes)))
  }

  predicate Queues(ch: MotionChannel.Channel, r: Record) {
    !ch.journal.failed && ch.journal.writer.Waiting? && ch.journal.queue == [Entry(r)] && ch.journal.parts != []
  }

  lemma TakingStep(ch: MotionChannel.Channel, r: Record, bytes: nat, i: nat, e: MotionChannel.Event)
    requires Queues(ch, r) && 0 < bytes <= r.size && i < 4 && e == TakeEvents(bytes)[i]
    ensures
      MotionChannel.Possible(Taking(ch, r, bytes, i), e)
      && MotionChannel.Moved(Taking(ch, r, bytes, i), e) == Taking(ch, r, bytes, i + 1)
  {}

  lemma TakeHappens(ch: MotionChannel.Channel, r: Record, bytes: nat)
    requires Queues(ch, r) && 0 < bytes <= r.size
    ensures MotionChannel.RunFrom(ch, TakeEvents(bytes)) == Some(Taking(ch, r, bytes, 4))
  {
    var e := TakeEvents(bytes);
    var states := seq(5, i requires 0 <= i < 5 => Taking(ch, r, bytes, i));
    forall i, k | 0 <= i && k == i + 1 <= 4
      ensures MotionChannel.Leads(states[i], e[i], states[k])
    {
      TakingStep(ch, r, bytes, i, e[i]);
    }
    MotionChannel.Chain(ch, e, states, 4);
    assert e[..4] == e;
  }

  /** Sending one zero command and writing `bytes` of its record, ended by event `last`. */
  function WriteEvents(stamp: int, r: Record, bytes: nat, last: MotionChannel.Event): seq<MotionChannel.Event> {
    MotionChannel.SendEvents(Zero(stamp), r) + TakeEvents(bytes) + [last]
  }

  function Begun(ch: MotionChannel.Channel, stamp: int, r: Record, bytes: nat): MotionChannel.Channel
    requires ch.journal.parts != [] && 0 < bytes <= r.size
  {
    Taking(Sent(ch, stamp, r), r, bytes, 4)
  }

  lemma WriteHappens(ch: MotionChannel.Channel, stamp: int, r: Record, bytes: nat, last: MotionChannel.Event)
    requires AtRest(ch) && r.packet == Packet(ch.sink.actionSeq, stamp, FixedActions.ZERO_ACTION)
    requires 0 < bytes <= r.size && MotionChannel.Possible(Begun(ch, stamp, r, bytes), last)
    ensures
      MotionChannel.RunFrom(ch, WriteEvents(stamp, r, bytes, last))
      == Some(MotionChannel.Moved(Begun(ch, stamp, r, bytes), last))
  {
    SendHappens(ch, stamp, r);
    TakeHappens(Sent(ch, stamp, r), r, bytes);
    MotionChannel.Continued(ch, MotionChannel.SendEvents(Zero(stamp), r), Sent(ch, stamp, r), TakeEvents(bytes));
    MotionChannel.OneEvent(
      ch, MotionChannel.SendEvents(Zero(stamp), r) + TakeEvents(bytes), Begun(ch, stamp, r, bytes), last);
  }

  /** What a write that fails after `bytes` of a record leaves. */
  function CutShort(ch: MotionChannel.Channel, stamp: int, r: Record, bytes: nat): MotionChannel.Channel
    requires ch.journal.parts != [] && 0 < bytes < r.size
  {
    MotionChannel.Moved(Begun(ch, stamp, r, bytes), MotionChannel.Act(WriteFails))
  }

  /** From every state in which all is written, a write of the next record that fails leaves the
      last part cut in that record: the exporter then refuses the file, whatever else it holds,
      if and only if more than the line feed is missing. */
  lemma FailedWriteCutsFile(
    config: SinkConfig, maxFileBytes: nat, ch: MotionChannel.Channel, stamp: int, r: Record, bytes: nat)
    requires MotionChannel.ReachableChannel(config, maxFileBytes, ch) && AtRest(ch)
    requires r.packet == Packet(ch.sink.actionSeq, stamp, FixedActions.ZERO_ACTION) && 0 < bytes < r.size
    requires ClockMonotone(ch.journal.sent + [r])
    ensures MotionChannel.RunFrom(ch, WriteEvents(stamp, r, bytes, MotionChannel.Act(WriteFails)))
            == Some(CutShort(ch, stamp, r, bytes))
    ensures
      var j := CutShort(ch, stamp, r, bytes).journal;
      && j.failed && j.parts != [] && CutRecord(j) == Some(r) && Last(j.parts).torn == bytes
      && (Parsed(FileLines(Last(j.parts), CutRecord(j))).Ok? <==> bytes + 1 == r.size)
  {
    var last := MotionChannel.Act(WriteFails);
    var events := WriteEvents(stamp, r, bytes, last);
    var k := CutShort(ch, stamp, r, bytes);
    WriteHappens(ch, stamp, r, bytes, last);
    ReachableGoesOn(config, maxFileBytes, ch, events, k);
    CutIsNext(config, maxFileBytes, ch, stamp, r, bytes);
    CutFileAnswer(config, maxFileBytes, k, r, bytes);
  }

  lemma SliceClock(sent: seq<Record>, all: seq<Record>, at: nat, part: seq<Record>)
    requires ClockMonotone(sent) && all <= sent && at + |part| <= |all| && all[at..at + |part|] == part
    ensures ClockMonotone(part)
  {
    assert forall i :: 0 <= i < |part| ==> part[i] == all[at + i] == sent[at + i];
  }

  lemma CutFileAnswer(config: SinkConfig, maxFileBytes: nat, ch: MotionChannel.Channel, r: Record, bytes: nat)
    requires MotionChannel.ReachableChannel(config, maxFileBytes, ch) && ClockMonotone(ch.journal.sent)
    requires ch.journal.parts != [] && CutRecord(ch.journal) == Some(r)
    requires Last(ch.journal.parts).torn == bytes && 0 < bytes < r.size
    ensures Parsed(FileLines(Last(ch.journal.parts), CutRecord(ch.journal))).Ok? <==> bytes + 1 == r.size
  {
    PartFileReadsBackIff(config, maxFileBytes, ch, |ch.journal.parts| - 1);
    LastPartClock(config, maxFileBytes, ch);
  }

  lemma LastPartClock(config: SinkConfig, maxFileBytes: nat, ch: MotionChannel.Channel)
    requires MotionChannel.ReachableChannel(config, maxFileBytes, ch) && ClockMonotone(ch.journal.sent)
    requires ch.journal.parts != []
    ensures ClockMonotone(Legible(Last(ch.journal.parts), CutRecord(ch.journal)))
  {
    var j, n := ch.journal, |ch.journal.parts| - 1;
    MotionChannel.JournalIsReachable(config, maxFileBytes, ch);
    LegibleArePrefix(maxFileBytes, j);
    LegibleIsSlice(maxFileBytes, j, n);
    SliceClock(j.sent, LegibleAll(j), Offset(j.parts, n), Legible(j.parts[n], CutRecord(j)));
  }

  lemma ReachableGoesOn(
    config: SinkConfig, maxFileBytes: nat, ch: MotionChannel.Channel, events: seq<MotionChannel.Event>,
    k: MotionChannel.Channel)
    requires MotionChannel.ReachableChannel(config, maxFileBytes, ch) && MotionChannel.RunFrom(ch, events) == Some(k)
    ensures MotionChannel.ReachableChannel(config, maxFileBytes, k)
  {
    var start := MotionChannel.NewChannel(config, maxFileBytes);
    var before: seq<MotionChannel.Event> :| MotionChannel.RunFrom(start, before) == Some(ch);
    MotionChannel.Continued(start, before, ch, events);
  }

  lemma CutIsNext(
    config: SinkConfig, maxFileBytes: nat, ch: MotionChannel.Channel, stamp: int, r: Record, bytes: nat)
    requires MotionChannel.ReachableChannel(config, maxFileBytes, ch) && AtRest(ch) && 0 < bytes < r.size
    ensures
      var j := CutShort(ch, stamp, r, bytes).journal;
      && j.failed && j.parts != [] && j.sent == ch.journal.sent + [r]
      && CutRecord(j) == Some(r) && Last(j.parts).torn == bytes
  {
    var before := ch.journal;
    MotionChannel.JournalIsReachable(config, maxFileBytes, ch);
    JournalFollowsSends(maxFileBytes, before);
    assert Pending(before) == [] && Written(before.parts) + [] == Written(before.parts);
    WrittenRotated(before.parts, r.size, before.maxFileBytes);
    WrittenAppended(Rotated(before.parts, r.size, before.maxFileBytes), r, bytes);
    assert Written(before.parts) + [] == Written(before.parts);
  }

  lemma FirstIsReachable(config: SinkConfig, maxFileBytes: nat)
    ensures
      MotionChannel.ReachableChannel(config, maxFileBytes, MotionChannel.NewChannel(config, maxFileBytes))
  {
    var start := MotionChannel.NewChannel(config, maxFileBytes);
    assert MotionChannel.RunFrom(start, []) == Some(start);
  }

  /** The channel once its first record is written whole. */
  predicate FirstWritten(ch: MotionChannel.Channel, r: Record, maxFileBytes: nat) {
    && AtRest(ch) && ch.sink.actionSeq == 1 && ch.journal.maxFileBytes == maxFileBytes
    && ch.journal.parts == [Part([r], 0)] && ch.journal.sent == [r]
  }

  lemma SizeOfOne(r: Record)
    ensures Size([r]) == r.size
  {
    assert [r][..0] == [];
  }

  lemma FirstPart(r: Record, maxFileBytes: nat)
    ensures
      var parts := [Part([], 0)];
      Rotated(parts, r.size, maxFileBytes) == parts && Appended(parts, r, r.size) == [Part([r], 0)]
  {
    assert [] + [r] == [r];
    assert [Part([], 0)][..0] + [Part([r], 0)] == [Part([r], 0)];
  }

  lemma FirstJournal(start: MotionChannel.Channel, stamp: int, r: Record, maxFileBytes: nat)
    requires AtRest(start) && start.journal == Initial(maxFileBytes) && start.sink == INITIAL_SINK
    ensures
      FirstWritten(
        MotionChannel.Moved(Begun(start, stamp, r, r.size), MotionChannel.Act(Prune)), r, maxFileBytes)
  {
    FirstPart(r, maxFileBytes);
    var begun := Begun(start, stamp, r, r.size);
    assert start.journal.parts == [Part([], 0)];
    assert begun.journal.sent == [r];
  }

  lemma FirstWrite(start: MotionChannel.Channel, r: Record, maxFileBytes: nat)
    returns (events: seq<MotionChannel.Event>, ch: MotionChannel.Channel)
    requires AtRest(start) && start.journal == Initial(maxFileBytes) && start.sink == INITIAL_SINK
    requires r.packet == Packet(0, r.packet.stamp, FixedActions.ZERO_ACTION)
    ensures MotionChannel.RunFrom(start, events) == Some(ch) && FirstWritten(ch, r, maxFileBytes)
  {
    var last := MotionChannel.Act(Prune);
    events := WriteEvents(r.packet.stamp, r, r.size, last);
    ch := MotionChannel.Moved(Begun(start, r.packet.stamp, r, r.size), last);
    WriteHappens(start, r.packet.stamp, r, r.size, last);
    FirstJournal(start, r.packet.stamp, r, maxFileBytes);
  }

  lemma FirstRecord(config: SinkConfig, maxFileBytes: nat, r: Record)
    returns (events: seq<MotionChannel.Event>, ch: MotionChannel.Channel)
    requires r.packet == Packet(0, r.packet.stamp, FixedActions.ZERO_ACTION)
    ensures MotionChannel.RunFrom(MotionChannel.NewChannel(config, maxFileBytes), events) == Some(ch)
    ensures MotionChannel.ReachableChannel(config, maxFileBytes, ch) && FirstWritten(ch, r, maxFileBytes)
  {
    events, ch := FirstWrite(MotionChannel.NewChannel(config, maxFileBytes), r, maxFileBytes);
    FirstIsReachable(config, maxFileBytes);
    ReachableGoesOn(config, maxFileBytes, MotionChannel.NewChannel(config, maxFileBytes), events, ch);
  }

  lemma CutAfterFirst(ch: MotionChannel.Channel, maxFileBytes: nat, r0: Record, stamp: int, r1: Record)
    requires FirstWritten(ch, r0, maxFileBytes) && r0.size + r1.size <= maxFileBytes && r1.size > 1
    ensures
      var j := CutShort(ch, stamp, r1, 1).journal;
      j.parts == [Part([r0], 1)] && j.writer.Waiting? && j.queue == []
  {
    SecondPart(r0, r1, maxFileBytes);
  }

  lemma SecondPart(r0: Record, r1: Record, maxFileBytes: nat)
    requires r0.size + r1.size <= maxFileBytes && r1.size > 1
    ensures
      var parts := [Part([r0], 0)];
      Rotated(parts, r1.size, maxFileBytes) == parts && Appended(parts, r1, 1) == [Part([r0], 1)]
  {
    SizeOfOne(r0);
  }

  /** It happens: the first record is written whole, the second fails after one byte, and the
      exporter refuses the part, although it accepts the first record alone. */
  lemma CutPartIsRefused(config: SinkConfig, maxFileBytes: nat, r0: Record, r1: Record)
    returns (events: seq<MotionChannel.Event>, ch: MotionChannel.Channel)
    requires r0.packet == Packet(0, r0.packet.stamp, FixedActions.ZERO_ACTION)
    requires r1.packet == Packet(1, r1.packet.stamp, FixedActions.ZERO_ACTION)
    requires r0.stamp <= r1.stamp && r0.size + r1.size <= maxFileBytes && r1.size >= 3
    ensures MotionChannel.RunFrom(MotionChannel.NewChannel(config, maxFileBytes), events) == Some(ch)
    ensures ch.journal.parts == [Part([r0], 1)] && CutRecord(ch.journal) == Some(r1)
    ensures ch.journal.failed && ch.journal.writer.Waiting? && ch.journal.queue == []
    ensures Parsed(EncodeAll([r0])) == Ok(CommandsOf([r0]))
    ensures Parsed(FileLines(ch.journal.parts[0], CutRecord(ch.journal))) == Err(InvalidJson(2))
  {
    var first, full := FirstRecord(config, maxFileBytes, r0);
    var second := WriteEvents(r1.packet.stamp, r1, 1, MotionChannel.Act(WriteFails));
    ch := CutShort(full, r1.packet.stamp, r1, 1);
    FailedWriteCutsFile(config, maxFileBytes, full, r1.packet.stamp, r1, 1);
    CutAfterFirst(full, maxFileBytes, r0, r1.packet.stamp, r1);
    MotionChannel.Continued(MotionChannel.NewChannel(config, maxFileBytes), first, full, second);
    events := first + second;
    StretchReadsBack([r0], 0);
    CutLineIsReported([r0]);
  }
}
