/** The recorded UDP sender and its writer thread (`runtime_bridge/action_journal.py`): a state
    machine whose steps are the atomic actions of the two threads, and the journal file the
    writer appends to. */
module ActionJournal {
  import opened CommandSink
  import opened Wrappers

  const QUEUE_CAPACITY := 8192

  /** A journal record: the packet, the wall clock and the encoded size in bytes. An encoded
      record ends with a line feed, so it is never empty. */
  datatype RawRecord = Record(packet: Packet, stamp: int, size: nat)

  type Record = r: RawRecord | r.size > 0 witness Record(Packet(0, 0, [0.0, 0.0, 0.0, 0.0]), 0, 1)

  datatype Item = Entry(record: Record) | Stop

  /** A part file: complete records, then the bytes of an incomplete one. */
  datatype Part = Part(records: seq<Record>, torn: nat)

  function Size(records: seq<Record>): nat {
    if records == [] then 0 else Size(records[..|records| - 1]) + records[|records| - 1].size
  }

  function PartSize(p: Part): nat { Size(p.records) + p.torn }

  /** All complete records, part after part. */
  function Written(parts: seq<Part>): seq<Record> {
    if parts == [] then [] else Written(parts[..|parts| - 1]) + parts[|parts| - 1].records
  }

  function Last(parts: seq<Part>): Part
    requires parts != []
  {
    parts[|parts| - 1]
  }

  function SetLast(parts: seq<Part>, p: Part): (r: seq<Part>)
    requires parts != []
    ensures |r| == |parts| && Last(r) == p && r[..|r| - 1] == parts[..|parts| - 1]
  {
    parts[..|parts| - 1] + [p]
  }

  // ------------------------------------------------------------------------ the file

  function Rotated(parts: seq<Part>, size: nat, maxFileBytes: nat): seq<Part>
    requires parts != []
  {
    if PartSize(Last(parts)) == 0 || PartSize(Last(parts)) + size <= maxFileBytes then parts else parts + [Part([], 0)]
  }

  /** The parts once `done` bytes of `r` are in the last one. */
  function Appended(parts: seq<Part>, r: Record, done: nat): seq<Part>
    requires parts != [] && done <= r.size
  {
    var p := Last(parts);
    SetLast(parts, if done == r.size then Part(p.records + [r], 0) else Part(p.records, done))
  }

  /** How many of `remaining` bytes a series of writes takes; a write that takes nothing is an
      error and ends it. */
  function Taken(accepted: seq<int>, remaining: nat): (done: nat)
    ensures done <= remaining
  {
    if remaining == 0 || accepted == [] || accepted[0] <= 0 then 0
    else
      var written := if accepted[0] <= remaining then accepted[0] else remaining;
      written + Taken(accepted[1..], remaining - written)
  }

  lemma TakenStep(accepted: seq<int>, i: nat, remaining: nat)
    requires i <= |accepted| && remaining > 0
    ensures
      if i == |accepted| || accepted[i] <= 0 then Taken(accepted[i..], remaining) == 0
      else
        var written := if accepted[i] <= remaining then accepted[i] else remaining;
        Taken(accepted[i..], remaining) == written + Taken(accepted[i + 1..], remaining - written)
  {
    if i < |accepted| {
      assert accepted[i..][1..] == accepted[i + 1..];
    }
  }

  class JournalFile {
    const maxFileBytes: nat
    var currentSize: nat
    var parts: seq<Part>

    predicate Valid()
      reads this
    {
      parts != [] && currentSize == PartSize(Last(parts))
    }

    constructor (maxFileBytes: nat)
      ensures Valid() && this.maxFileBytes == maxFileBytes
      ensures parts == [Part([], 0)]
    {
      this.maxFileBytes := maxFileBytes;
      currentSize := 0;
      parts := [Part([], 0)];
    }

    method RotateIfNeeded(recordSize: nat)
      requires Valid()
      modifies this
      ensures Valid() && parts == Rotated(old(parts), recordSize, maxFileBytes)
    {
      if currentSize == 0 || currentSize + recordSize <= maxFileBytes {
        return;
      }
      parts := parts + [Part([], 0)];
      currentSize := 0;
    }

    /** One write: the file grows by the bytes taken. */
    method WriteSome(r: Record, ghost before: seq<Part>, done: nat, written: nat)
      requires Valid() && before != [] && done + written <= r.size && done < r.size
      requires parts == Appended(before, r, done)
      modifies this
      ensures Valid() && parts == Appended(before, r, done + written)
    {
      AppendMore(before, parts, r, done, written);
      parts := Appended(parts, r, done + written);
      currentSize := currentSize + written;
    }

    /** Appends one record through writes that may be short. `accepted` gives the number of
        bytes the file system takes each time; zero or less is the error the writer raises,
        and so is running out of answers. The file then keeps the bytes written so far. */
    method WriteAll(r: Record, accepted: seq<int>) returns (ok: bool, ghost done: nat)
      requires Valid() && Last(parts).torn == 0
      modifies this
      ensures Valid()
      ensures done <= r.size && parts == Appended(old(parts), r, done)
      ensures done == Taken(accepted, r.size)
      ensures ok <==> done == r.size
    {
      done := 0;
      var remaining, i := r.size, 0;
      ghost var before := parts;
      while remaining > 0
        invariant Valid() && parts != []
        invariant remaining >= 0 && done + remaining == r.size
        invariant i <= |accepted|
        invariant parts == Appended(before, r, done)
        invariant done + Taken(accepted[i..], remaining) == Taken(accepted, r.size)
        decreases |accepted| - i
      {
        TakenStep(accepted, i, remaining);
        if i == |accepted| || accepted[i] <= 0 {
          return false, done;
        }
        var written := if accepted[i] <= remaining then accepted[i] else remaining;
        WriteSome(r, before, r.size - remaining, written);
        done := done + written;
        remaining := remaining - written;
        i := i + 1;
      }
      return true, done;
    }
  }

  lemma AppendMore(before: seq<Part>, parts: seq<Part>, r: Record, done: nat, written: nat)
    requires before != [] && done + written <= r.size && done < r.size
    requires parts == Appended(before, r, done)
    ensures Appended(parts, r, done + written) == Appended(before, r, done + written)
    ensures PartSize(Last(Appended(parts, r, done + written))) == PartSize(Last(parts)) + written
  {
    var records := Last(before).records;
    assert (records + [r])[..|records|] == records;
  }

  // --------------------------------------------------------------- the two threads

  /** Where the thread that holds the send lock is. */
  datatype SenderPc = Idle | Available(r: Record) | Ready(r: Record) | Delivered(r: Record) | Closing

  datatype WriterPc =
    | Waiting | Got(r: Record) | Accepted(r: Record) | Writing(r: Record, done: nat) | Pruning | Stopped | Finished

  /** `sent`, `lateDatagrams` and `dropped` record history: the successful sends in order, the
      datagrams that left after the failure flag was set, and whether the writer has given up
      a record. */
  datatype Journal = Journal(
    maxFileBytes: nat, queue: seq<Item>, closed: bool, failed: bool,
    sender: SenderPc, writer: WriterPc, parts: seq<Part>,
    sent: seq<Record>, lateDatagrams: nat, dropped: bool)

  datatype Step =
    | BeginSend(r: Record) | CheckQueue | SocketRaises | SocketSendsShort | SocketSends | Enqueue
    | BeginClose | PutStop | PutStopTimesOut | JoinTimesOut
    | Get | Skip | Accept | StartWrite | RotateFails | WriteChunk(bytes: nat) | WriteFails
    | Prune | PruneFails | Finish(fails: bool)

  function Initial(maxFileBytes: nat): Journal {
    Journal(maxFileBytes, [], false, false, Idle, Waiting, [Part([], 0)], [], 0, false)
  }

  predicate Enabled(j: Journal, s: Step) {
    match s
    case BeginSend(_) => j.sender.Idle? && !j.closed && !j.failed
    case CheckQueue => j.sender.Available?
    case SocketRaises | SocketSendsShort | SocketSends => j.sender.Ready?
    case Enqueue => j.sender.Delivered?
    case BeginClose => j.sender.Idle? && !j.closed
    case PutStop => j.sender.Closing? && |j.queue| < QUEUE_CAPACITY
    case PutStopTimesOut => j.sender.Closing? && |j.queue| >= QUEUE_CAPACITY
    case JoinTimesOut => j.closed && j.sender.Idle? && !j.writer.Finished?
    case Get => j.writer.Waiting? && j.queue != []
    case Skip => j.writer.Got? && j.failed
    case Accept => j.writer.Got? && !j.failed
    case StartWrite => j.writer.Accepted? && j.parts != []
    case RotateFails =>
      j.writer.Accepted? && j.parts != [] && Rotated(j.parts, j.writer.r.size, j.maxFileBytes) != j.parts
    case WriteChunk(k) => j.writer.Writing? && j.parts != [] && 0 < k && j.writer.done + k <= j.writer.r.size
    case WriteFails => j.writer.Writing?
    case Prune => j.writer.Pruning?
    case PruneFails => j.writer.Pruning? && j.parts != [] && |Last(j.parts).records| == 1
    case Finish(_) => j.writer.Stopped? && j.parts != []
  }

  function Late(j: Journal): nat { j.lateDatagrams + if j.failed then 1 else 0 }

  function Apply(j: Journal, s: Step): Journal
    requires Enabled(j, s)
  {
    match s
    case BeginSend(r) => j.(sender := Available(r))
    case CheckQueue => j.(sender := if |j.queue| >= QUEUE_CAPACITY then Idle else Ready(j.sender.r))
    case SocketRaises => j.(sender := Idle)
    case SocketSendsShort => j.(sender := Idle, lateDatagrams := Late(j))
    case SocketSends => j.(sender := Delivered(j.sender.r), sent := j.sent + [j.sender.r], lateDatagrams := Late(j))
    case Enqueue =>
      // A full queue would raise here and lose the record of a datagram that has left.
      j.(sender := Idle, queue := if |j.queue| >= QUEUE_CAPACITY then j.queue else j.queue + [Entry(j.sender.r)])
    case BeginClose => j.(closed := true, sender := Closing)
    case PutStop => j.(sender := Idle, queue := j.queue + [Stop])
    case PutStopTimesOut => j.(sender := Idle, failed := true)
    case JoinTimesOut => j.(failed := true)
    case Get =>
      j.(queue := j.queue[1..], writer := if j.queue[0].Stop? then Stopped else Got(j.queue[0].record))
    case Skip => j.(writer := Waiting, dropped := true)
    case Accept => j.(writer := Accepted(j.writer.r))
    case StartWrite => j.(writer := Writing(j.writer.r, 0), parts := Rotated(j.parts, j.writer.r.size, j.maxFileBytes))
    case RotateFails => j.(writer := Waiting, failed := true, dropped := true)
    case WriteChunk(k) =>
      var r, done := j.writer.r, j.writer.done + k;
      j.(writer := if done == r.size then Pruning else Writing(r, done), parts := Appended(j.parts, r, done))
    case WriteFails => j.(writer := Waiting, failed := true, dropped := true)
    case Prune => j.(writer := Waiting)
    case PruneFails => j.(writer := Waiting, failed := true)
    case Finish(fails) =>
      j.(writer := Finished, failed := j.failed || fails,
         parts := if Last(j.parts).records == [] && !fails then j.parts[..|j.parts| - 1] else j.parts)
  }

  /** The state after a run, if every step of it was possible. */
  function After(j: Journal, steps: seq<Step>): Option<Journal> {
    if steps == [] then Some(j)
    else
      var n := |steps| - 1;
      Taking(After(j, steps[..n]), steps[n])
  }

  function Taking(m: Option<Journal>, s: Step): Option<Journal> {
    if m.Some? && Enabled(m.value, s) then Some(Apply(m.value, s)) else None
  }

  ghost predicate Reachable(maxFileBytes: nat, j: Journal) {
    exists steps: seq<Step> :: After(Initial(maxFileBytes), steps) == Some(j)
  }

  // --------------------------------------------------------------------- the invariant

  /** The record the writer has taken and not finished. */
  function InFlight(w: WriterPc): seq<Record> {
    if w.Got? || w.Accepted? || w.Writing? then [w.r] else []
  }

  function Queued(queue: seq<Item>): seq<Record> {
    if queue == [] then []
    else (if queue[0].Stop? then [] else [queue[0].record]) + Queued(queue[1..])
  }

  /** The record of a datagram that has left and is not in the queue yet. */
  function InHand(s: SenderPc): seq<Record> {
    if s.Delivered? then [s.r] else []
  }

  function Pending(j: Journal): seq<Record> { InFlight(j.writer) + Queued(j.queue) + InHand(j.sender) }

  /** Until the writer gives up a record, nothing sent is missing and the order is kept; after
      that the complete records are a prefix of the sends, followed at most by a torn part of
      the next one. */
  ghost predicate InOrder(j: Journal) {
    && (!j.dropped ==> Written(j.parts) + Pending(j) == j.sent)
    && (j.dropped ==> j.failed && Written(j.parts) <= j.sent
                      && (j.writer.Waiting? || j.writer.Got? || j.writer.Stopped? || j.writer.Finished?))
  }

  ghost predicate TornIsNext(j: Journal) {
    j.parts != [] && Last(j.parts).torn > 0 ==>
      |Written(j.parts)| < |j.sent| && Last(j.parts).torn < j.sent[|Written(j.parts)|].size
  }

  ghost predicate QueueBounded(j: Journal) {
    |j.queue| <= QUEUE_CAPACITY && (j.sender.Ready? || j.sender.Delivered? ==> |j.queue| < QUEUE_CAPACITY)
  }

  ghost predicate StopIsLast(j: Journal) {
    && (forall i :: 0 <= i < |j.queue| && j.queue[i].Stop? ==> i == |j.queue| - 1 && j.closed && j.sender.Idle?)
    && (j.writer.Stopped? || j.writer.Finished? ==> j.queue == [] && j.closed && j.sender.Idle?)
    && (j.closed ==> j.sender.Idle? || j.sender.Closing?)
    && (j.sender.Closing? ==> j.closed)
  }

  /** At most one datagram leaves after the flag: the one that had already been admitted. */
  ghost predicate OneLateDatagram(j: Journal) {
    && (!j.failed ==> j.lateDatagrams == 0)
    && j.lateDatagrams + (if j.sender.Available? || j.sender.Ready? then 1 else 0) <= 1
  }

  /** A part is within the limit or holds a single record, complete or torn. */
  predicate PartOk(p: Part, maxFileBytes: nat) {
    PartSize(p) <= maxFileBytes || |p.records| + (if p.torn > 0 then 1 else 0) == 1
  }

  /** Every part is in order and only the last can be torn or empty. */
  predicate PartsOk(parts: seq<Part>, maxFileBytes: nat) {
    && (forall i :: 0 <= i < |parts| ==> PartOk(parts[i], maxFileBytes))
    && (forall i :: 0 <= i < |parts| - 1 ==> parts[i].torn == 0 && parts[i].records != [])
  }

  ghost predicate Partitioned(j: Journal) {
    && (j.parts == [] ==> j.writer.Finished?)
    && PartsOk(j.parts, j.maxFileBytes)
    && (j.parts != [] && !j.writer.Writing? && !j.dropped ==> Last(j.parts).torn == 0)
    && (j.writer.Writing? ==>
          && Last(j.parts).torn == j.writer.done < j.writer.r.size
          && (Last(j.parts).records == [] || Size(Last(j.parts).records) + j.writer.r.size <= j.maxFileBytes))
  }

  ghost predicate Invariant(j: Journal) {
    InOrder(j) && TornIsNext(j) && QueueBounded(j) && StopIsLast(j) && OneLateDatagram(j) && Partitioned(j)
  }

  lemma {:induction false} QueuedAppend(queue: seq<Item>, item: Item)
    ensures Queued(queue + [item]) == Queued(queue) + if item.Stop? then [] else [item.record]
  {
    if queue == [] {
      assert [item][1..] == [];
    } else {
      QueuedAppend(queue[1..], item);
      assert (queue + [item])[1..] == queue[1..] + [item];
    }
  }

  lemma WrittenAppended(parts: seq<Part>, r: Record, done: nat)
    requires parts != [] && done <= r.size
    ensures Written(Appended(parts, r, done)) == Written(parts) + if done == r.size then [r] else []
  {
    var records := Last(parts).records;
    var next := Appended(parts, r, done);
    assert Written(parts) == Written(parts[..|parts| - 1]) + records;
    assert Written(next) == Written(parts[..|parts| - 1]) + Last(next).records;
  }

  lemma WrittenRotated(parts: seq<Part>, size: nat, maxFileBytes: nat)
    requires parts != []
    ensures Written(Rotated(parts, size, maxFileBytes)) == Written(parts)
  {
    assert (parts + [Part([], 0)])[..|parts|] == parts;
  }

  lemma SizePositive(records: seq<Record>)
    ensures Size(records) == 0 <==> records == []
  {}

  /** The sender's steps keep the invariant. */
  lemma SocketSendsKeepsInvariant(j: Journal)
    requires Invariant(j) && Enabled(j, SocketSends)
    ensures Invariant(Apply(j, SocketSends))
  {
    var k := Apply(j, SocketSends);
    assert Pending(k) == Pending(j) + [j.sender.r];
    assert Written(k.parts) + Pending(k) == (Written(j.parts) + Pending(j)) + [j.sender.r];
  }

  lemma EnqueueKeepsInvariant(j: Journal)
    requires Invariant(j) && Enabled(j, Enqueue)
    ensures Invariant(Apply(j, Enqueue))
  {
    QueuedAppend(j.queue, Entry(j.sender.r));
    assert Pending(Apply(j, Enqueue)) == Pending(j);
  }

  lemma PutStopKeepsInvariant(j: Journal)
    requires Invariant(j) && Enabled(j, PutStop)
    ensures Invariant(Apply(j, PutStop))
  {
    QueuedAppend(j.queue, Stop);
    assert Pending(Apply(j, PutStop)) == Pending(j);
  }

  lemma SenderKeepsInvariant(j: Journal, s: Step)
    requires Invariant(j) && Enabled(j, s)
    requires s.BeginSend? || s.CheckQueue? || s.SocketRaises? || s.SocketSendsShort?
             || s.BeginClose? || s.PutStopTimesOut? || s.JoinTimesOut?
    ensures Invariant(Apply(j, s))
  {
    assert Pending(Apply(j, s)) == Pending(j);
  }

  lemma GetKeepsInvariant(j: Journal)
    requires Invariant(j) && Enabled(j, Get)
    ensures Invariant(Apply(j, Get))
  {
    var k := Apply(j, Get);
    assert Pending(k) == Pending(j);
  }

  lemma StartWriteKeepsInvariant(j: Journal)
    requires Invariant(j) && Enabled(j, StartWrite)
    ensures Invariant(Apply(j, StartWrite))
  {
    WrittenRotated(j.parts, j.writer.r.size, j.maxFileBytes);
    RotatedPartsOk(j.parts, j.writer.r.size, j.maxFileBytes);
    assert InFlight(Apply(j, StartWrite).writer) == InFlight(j.writer);
  }

  lemma RotatedPartsOk(parts: seq<Part>, size: nat, maxFileBytes: nat)
    requires parts != [] && PartsOk(parts, maxFileBytes) && Last(parts).torn == 0
    ensures
      var next := Rotated(parts, size, maxFileBytes);
      && next != [] && PartsOk(next, maxFileBytes) && Last(next).torn == 0
      && (Last(next).records == [] || Size(Last(next).records) + size <= maxFileBytes)
  {
    SizePositive(Last(parts).records);
    var empty := Part([], 0);
    assert PartSize(empty) == 0;
  }

  lemma PendingFrom(w: WriterPc, queue: seq<Item>, s: SenderPc)
    ensures InFlight(w) + Queued(queue) + InHand(s) == InFlight(w) + (Queued(queue) + InHand(s))
  {}

  lemma NextSent(written: seq<Record>, r: Record, rest: seq<Record>, sent: seq<Record>)
    requires written + ([r] + rest) == sent
    ensures (written + [r]) + rest == sent
    ensures |written| < |sent| && sent[|written|] == r
  {}

  lemma WriteSomeKeepsOrder(j: Journal, bytes: nat)
    requires InOrder(j) && Enabled(j, WriteChunk(bytes)) && j.writer.done + bytes < j.writer.r.size
    ensures InOrder(Apply(j, WriteChunk(bytes)))
  {
    WrittenAppended(j.parts, j.writer.r, j.writer.done + bytes);
    assert InFlight(Apply(j, WriteChunk(bytes)).writer) == InFlight(j.writer);
    assert Written(j.parts) + [] == Written(j.parts);
  }

  lemma WriteRestKeepsOrder(j: Journal, bytes: nat)
    requires InOrder(j) && Enabled(j, WriteChunk(bytes)) && j.writer.done + bytes == j.writer.r.size
    ensures InOrder(Apply(j, WriteChunk(bytes)))
  {
    var rest := Queued(j.queue) + InHand(j.sender);
    PendingFrom(j.writer, j.queue, j.sender);
    PendingFrom(Pruning, j.queue, j.sender);
    NextSent(Written(j.parts), j.writer.r, rest, j.sent);
    WrittenAppended(j.parts, j.writer.r, j.writer.r.size);
    assert [] + rest == rest;
  }

  /** The record being written is the next of the sends. */
  lemma WritingIsNext(j: Journal)
    requires InOrder(j) && j.writer.Writing?
    ensures |Written(j.parts)| < |j.sent| && j.sent[|Written(j.parts)|] == j.writer.r
  {
    PendingFrom(j.writer, j.queue, j.sender);
    NextSent(Written(j.parts), j.writer.r, Queued(j.queue) + InHand(j.sender), j.sent);
  }

  lemma AppendedPartOk(p: Part, r: Record, done: nat, maxFileBytes: nat)
    requires 0 < done <= r.size
    requires p.records == [] || Size(p.records) + r.size <= maxFileBytes
    ensures PartOk(if done == r.size then Part(p.records + [r], 0) else Part(p.records, done), maxFileBytes)
  {
    assert (p.records + [r])[..|p.records|] == p.records;
  }

  lemma SetLastPartsOk(parts: seq<Part>, p: Part, maxFileBytes: nat)
    requires parts != [] && PartsOk(parts, maxFileBytes) && PartOk(p, maxFileBytes)
    ensures PartsOk(SetLast(parts, p), maxFileBytes)
  {}

  lemma AppendedPartsOk(parts: seq<Part>, r: Record, done: nat, maxFileBytes: nat)
    requires parts != [] && PartsOk(parts, maxFileBytes) && 0 < done <= r.size
    requires Last(parts).records == [] || Size(Last(parts).records) + r.size <= maxFileBytes
    ensures Appended(parts, r, done) != [] && PartsOk(Appended(parts, r, done), maxFileBytes)
    ensures Last(Appended(parts, r, done)).torn == if done == r.size then 0 else done
    ensures done < r.size ==> Last(Appended(parts, r, done)).records == Last(parts).records
  {
    AppendedPartOk(Last(parts), r, done, maxFileBytes);
    SetLastPartsOk(parts, Last(Appended(parts, r, done)), maxFileBytes);
  }

  lemma WriteChunkKeepsPartition(j: Journal, bytes: nat)
    requires Partitioned(j) && Enabled(j, WriteChunk(bytes)) && !j.dropped
    ensures Partitioned(Apply(j, WriteChunk(bytes)))
  {
    AppendedPartsOk(j.parts, j.writer.r, j.writer.done + bytes, j.maxFileBytes);
  }

  lemma WriteChunkKeepsInvariant(j: Journal, bytes: nat)
    requires Invariant(j) && Enabled(j, WriteChunk(bytes))
    ensures Invariant(Apply(j, WriteChunk(bytes)))
  {
    if j.writer.done + bytes == j.writer.r.size {
      WriteRestKeepsOrder(j, bytes);
    } else {
      WriteSomeKeepsOrder(j, bytes);
      WritingIsNext(Apply(j, WriteChunk(bytes)));
    }
    WriteChunkKeepsPartition(j, bytes);
  }

  lemma GiveUpKeepsInvariant(j: Journal, s: Step)
    requires Invariant(j) && Enabled(j, s)
    requires s.Skip? || s.RotateFails? || s.WriteFails?
    ensures Invariant(Apply(j, s))
  {}

  /** Deleting an empty last part loses no record. */
  lemma DropEmptyLast(parts: seq<Part>, maxFileBytes: nat)
    requires parts != [] && PartsOk(parts, maxFileBytes) && Last(parts).records == []
    ensures
      var rest := parts[..|parts| - 1];
      PartsOk(rest, maxFileBytes) && Written(rest) == Written(parts) && (rest != [] ==> Last(rest).torn == 0)
  {
    var rest := parts[..|parts| - 1];
    assert Written(rest) + [] == Written(rest);
    if rest != [] {
      assert Last(rest) == parts[|rest| - 1];
    }
  }

  lemma FinishKeepsParts(j: Journal, k: Journal)
    requires Partitioned(j) && TornIsNext(j) && j.writer.Stopped?
    requires k.writer.Finished? && k.sent == j.sent && k.maxFileBytes == j.maxFileBytes && k.dropped == j.dropped
    requires
      k.parts == j.parts || (
        && PartsOk(k.parts, k.maxFileBytes) && Written(k.parts) == Written(j.parts)
        && (k.parts != [] ==> Last(k.parts).torn == 0))
    ensures Partitioned(k) && TornIsNext(k)
  {}

  lemma FinishKeepsInvariant(j: Journal, fails: bool)
    requires Invariant(j) && Enabled(j, Finish(fails))
    ensures Invariant(Apply(j, Finish(fails)))
  {
    var k := Apply(j, Finish(fails));
    if k.parts != j.parts {
      DropEmptyLast(j.parts, j.maxFileBytes);
    }
    FinishKeepsParts(j, k);
    FinishKeepsOrder(j, k);
  }

  lemma FinishKeepsOrder(j: Journal, k: Journal)
    requires InOrder(j) && j.writer.Stopped?
    requires k.writer.Finished? && k.sent == j.sent && k.queue == j.queue && k.sender == j.sender
    requires k.dropped == j.dropped && (j.failed ==> k.failed) && Written(k.parts) == Written(j.parts)
    ensures InOrder(k)
  {
    assert InFlight(k.writer) == InFlight(j.writer);
  }

  lemma WriterGoesOnKeepsInvariant(j: Journal, s: Step)
    requires Invariant(j) && Enabled(j, s) && (s.Accept? || s.Prune? || s.PruneFails?)
    ensures Invariant(Apply(j, s))
  {
    assert Pending(Apply(j, s)) == Pending(j);
  }

  lemma StepKeepsInvariant(j: Journal, s: Step)
    requires Invariant(j) && Enabled(j, s)
    ensures Invariant(Apply(j, s))
  {
    match s
    case Get => GetKeepsInvariant(j);
    case Skip | RotateFails | WriteFails => GiveUpKeepsInvariant(j, s);
    case Accept | Prune | PruneFails => WriterGoesOnKeepsInvariant(j, s);
    case StartWrite => StartWriteKeepsInvariant(j);
    case WriteChunk(bytes) => WriteChunkKeepsInvariant(j, bytes);
    case Finish(fails) => FinishKeepsInvariant(j, fails);
    case SocketSends => SocketSendsKeepsInvariant(j);
    case Enqueue => EnqueueKeepsInvariant(j);
    case PutStop => PutStopKeepsInvariant(j);
    case _ => SenderKeepsInvariant(j, s);
  }

  lemma {:induction false} RunKeepsInvariant(j: Journal, steps: seq<Step>)
    requires Invariant(j) && After(j, steps).Some?
    ensures Invariant(After(j, steps).value)
    ensures After(j, steps).value.maxFileBytes == j.maxFileBytes
  {
    if steps != [] {
      var n := |steps| - 1;
      RunKeepsInvariant(j, steps[..n]);
      StepKeepsInvariant(After(j, steps[..n]).value, steps[n]);
    }
  }

  lemma ReachableIsInvariant(maxFileBytes: nat, j: Journal)
    requires Reachable(maxFileBytes, j)
    ensures Invariant(j) && j.maxFileBytes == maxFileBytes
  {
    var steps: seq<Step> :| After(Initial(maxFileBytes), steps) == Some(j);
    RunKeepsInvariant(Initial(maxFileBytes), steps);
  }

  // ---------------------------------------------------------------------- the results

  lemma QueuedLength(queue: seq<Item>)
    ensures |Queued(queue)| <= |queue|
  {}

  /** In every interleaving of senders, writer and close: while the journal is healthy the
      complete records, the one in flight, the queued ones and the one about to be queued are
      the successful sends in order; at most the queue's capacity plus one is unwritten; the
      non-blocking put never finds the queue full; once the journal has failed the complete
      records are still a prefix of the sends, followed at most by a torn part of the next
      one; and at most one datagram leaves after the failure. */
  lemma JournalFollowsSends(maxFileBytes: nat, j: Journal)
    requires Reachable(maxFileBytes, j)
    ensures !j.failed ==> Written(j.parts) + Pending(j) == j.sent
    ensures |Pending(j)| <= 8193
    ensures j.sender.Delivered? ==> |j.queue| < 8192
    ensures Written(j.parts) <= j.sent && TornIsNext(j)
    ensures j.lateDatagrams <= 1
  {
    ReachableIsInvariant(maxFileBytes, j);
    QueuedLength(j.queue);
  }

  /** A journal that closed without giving up a record holds every successful send. */
  lemma CleanCloseKeepsEverySend(maxFileBytes: nat, j: Journal)
    requires Reachable(maxFileBytes, j)
    requires j.writer.Finished? && !j.dropped
    ensures Written(j.parts) == j.sent
  {
    ReachableIsInvariant(maxFileBytes, j);
    assert Pending(j) == [];
  }

  /** Every part file is within the limit or holds a single record; only the last part can
      hold an incomplete record or none at all; and the parts in order are the written records. */
  lemma PartsPartitionTheRecords(maxFileBytes: nat, j: Journal)
    requires Reachable(maxFileBytes, j)
    ensures forall p <- j.parts :: PartOk(p, maxFileBytes)
    ensures forall i :: 0 <= i < |j.parts| - 1 ==> j.parts[i].torn == 0 && j.parts[i].records != []
    ensures Written(j.parts) <= j.sent
  {
    ReachableIsInvariant(maxFileBytes, j);
  }

  lemma {:induction false} AfterConcat(j: Journal, a: seq<Step>, b: seq<Step>)
    requires After(j, a).Some?
    ensures After(j, a + b) == After(After(j, a).value, b)
  {
    if b == [] {
      assert a + b == a;
    } else {
      var n := |b| - 1;
      AfterConcat(j, a, b[..n]);
      assert a + b == a + b[..n] + [b[n]];
      AfterLast(j, a + b[..n], b[n]);
    }
  }

  lemma AfterLast(j: Journal, steps: seq<Step>, s: Step)
    ensures After(j, steps + [s]) == Taking(After(j, steps), s)
  {
    assert (steps + [s])[..|steps|] == steps;
  }

  lemma AfterOne(j: Journal, s: Step)
    requires Enabled(j, s)
    ensures After(j, [s]) == Some(Apply(j, s))
  {
    assert [s][..0] == [];
  }

  predicate Healthy(j: Journal) { !j.failed && !j.closed }

  /** The steps of a writer that nothing goes wrong for. */
  predicate WriterStep(s: Step) {
    s.Get? || s.Accept? || s.StartWrite? || s.WriteChunk? || s.Prune? || s == Finish(false)
  }

  /** The writer alone takes a journal without failure from `j` to `k`. */
  ghost predicate WriterGoes(j: Journal, steps: seq<Step>, k: Journal) {
    && After(j, steps) == Some(k) && (forall s <- steps :: WriterStep(s))
    && Invariant(k) && !k.failed && k.closed == j.closed && k.sent == j.sent && k.sender == j.sender
  }

  lemma OneWriterStep(j: Journal, s: Step)
    requires Invariant(j) && !j.failed && Enabled(j, s) && WriterStep(s)
    ensures WriterGoes(j, [s], Apply(j, s))
  {
    AfterOne(j, s);
    StepKeepsInvariant(j, s);
  }

  lemma WriterGoesOn(j: Journal, a: seq<Step>, k: Journal, b: seq<Step>, l: Journal)
    requires WriterGoes(j, a, k) && WriterGoes(k, b, l)
    ensures WriterGoes(j, a + b, l)
  {
    AfterConcat(j, a, b);
  }

  lemma WriterFinishesRecord(j: Journal) returns (steps: seq<Step>, k: Journal)
    requires Invariant(j) && !j.failed && j.writer.Writing?
    ensures WriterGoes(j, steps, k) && k.writer.Waiting? && k.queue == j.queue
  {
    var rest := WriteChunk(j.writer.r.size - j.writer.done);
    var full := Apply(j, rest);
    OneWriterStep(j, rest);
    OneWriterStep(full, Prune);
    WriterGoesOn(j, [rest], full, [Prune], Apply(full, Prune));
    steps, k := [rest] + [Prune], Apply(full, Prune);
  }

  lemma WriterWritesRecord(j: Journal) returns (steps: seq<Step>, k: Journal)
    requires Invariant(j) && !j.failed && j.writer.Accepted?
    ensures WriterGoes(j, steps, k) && k.writer.Waiting? && k.queue == j.queue
  {
    var begun := Apply(j, StartWrite);
    OneWriterStep(j, StartWrite);
    steps, k := WriterFinishesRecord(begun);
    WriterGoesOn(j, [StartWrite], begun, steps, k);
    steps := [StartWrite] + steps;
  }

  /** Wherever the writer is, it can finish what it has in hand. */
  lemma WriterComesToRest(j: Journal) returns (steps: seq<Step>, k: Journal)
    requires Invariant(j) && !j.failed && !j.writer.Stopped? && !j.writer.Finished?
    ensures WriterGoes(j, steps, k) && k.writer.Waiting? && k.queue == j.queue
  {
    match j.writer
    case Waiting => steps, k := [], j;
    case Got(_) =>
      OneWriterStep(j, Accept);
      steps, k := WriterWritesRecord(Apply(j, Accept));
      WriterGoesOn(j, [Accept], Apply(j, Accept), steps, k);
      steps := [Accept] + steps;
    case Accepted(_) => steps, k := WriterWritesRecord(j);
    case Writing(_, _) => steps, k := WriterFinishesRecord(j);
    case Pruning =>
      OneWriterStep(j, Prune);
      steps, k := [Prune], Apply(j, Prune);
  }

  /** The writer can go on until only the stop item, if that is there, is left of its queue. */
  lemma {:induction false} WriterDrains(j: Journal) returns (steps: seq<Step>, k: Journal)
    requires Invariant(j) && !j.failed && !j.writer.Stopped? && !j.writer.Finished?
    ensures WriterGoes(j, steps, k) && k.writer.Waiting?
    ensures k.queue == if j.queue != [] && j.queue[|j.queue| - 1].Stop? then [Stop] else []
    decreases |j.queue|
  {
    steps, k := WriterComesToRest(j);
    if k.queue != [] && k.queue[0].Entry? {
      OneWriterStep(k, Get);
      WriterGoesOn(j, steps, k, [Get], Apply(k, Get));
      var rest, end := WriterDrains(Apply(k, Get));
      WriterGoesOn(j, steps + [Get], Apply(k, Get), rest, end);
      steps, k := steps + [Get] + rest, end;
    }
  }

  /** No record gets stuck: from every state of an open, healthy journal, whatever the sender is
      doing and however much of a record is written, the writer alone can go on until its queue
      is empty, and then the files hold every successful send but one that is still to be
      queued. */
  lemma HealthyJournalDrains(j: Journal) returns (steps: seq<Step>, k: Journal)
    requires Invariant(j) && Healthy(j)
    ensures After(j, steps) == Some(k) && forall s <- steps :: WriterStep(s)
    ensures Healthy(k) && k.writer.Waiting? && k.queue == [] && k.sender == j.sender && k.sent == j.sent
    ensures Written(k.parts) + InHand(j.sender) == j.sent
  {
    steps, k := WriterDrains(j);
    assert Pending(k) == InHand(k.sender);
  }

  /** A journal that is closed without a failure has its stop item on the way. */
  predicate StopWaits(j: Journal) {
    j.closed && j.sender.Idle? && !j.failed ==>
      j.writer.Stopped? || j.writer.Finished? || (j.queue != [] && j.queue[|j.queue| - 1].Stop?)
  }

  lemma StepKeepsStop(j: Journal, s: Step)
    requires Invariant(j) && StopWaits(j) && Enabled(j, s)
    ensures StopWaits(Apply(j, s))
  {}

  lemma {:induction false} RunKeepsStop(j: Journal, steps: seq<Step>)
    requires Invariant(j) && StopWaits(j) && After(j, steps).Some?
    ensures StopWaits(After(j, steps).value)
  {
    if steps != [] {
      var n := |steps| - 1;
      RunKeepsStop(j, steps[..n]);
      RunKeepsInvariant(j, steps[..n]);
      StepKeepsStop(After(j, steps[..n]).value, steps[n]);
    }
  }

  lemma ReachableStopWaits(maxFileBytes: nat, j: Journal)
    requires Reachable(maxFileBytes, j)
    ensures StopWaits(j)
  {
    var steps: seq<Step> :| After(Initial(maxFileBytes), steps) == Some(j);
    RunKeepsStop(Initial(maxFileBytes), steps);
  }

  /** The writer has all of the queue before it and the stop item at the end. */
  lemma WriterFinishes(j: Journal) returns (steps: seq<Step>, k: Journal)
    requires Invariant(j) && StopWaits(j) && j.closed && j.sender.Idle? && !j.failed
    ensures WriterGoes(j, steps, k) && k.writer.Finished?
  {
    steps, k := [], j;
    if !j.writer.Stopped? && !j.writer.Finished? {
      steps, k := WriterDrains(j);
      OneWriterStep(k, Get);
      WriterGoesOn(j, steps, k, [Get], Apply(k, Get));
      steps, k := steps + [Get], Apply(k, Get);
    }
    if k.writer.Stopped? {
      OneWriterStep(k, Finish(false));
      WriterGoesOn(j, steps, k, [Finish(false)], Apply(k, Finish(false)));
      steps, k := steps + [Finish(false)], Apply(k, Finish(false));
    }
  }

  /** The files of a writer that finished without a failure hold every send. */
  lemma FinishedHoldsAll(k: Journal)
    requires Invariant(k) && !k.failed && k.writer.Finished?
    ensures Written(k.parts) == k.sent
  {
    assert Pending(k) == [];
  }

  /** A close comes to its end: once the stop item is queued, the writer alone can finish a
      journal that has not failed, and the files then hold every successful send. */
  lemma ClosedJournalFinishes(maxFileBytes: nat, j: Journal) returns (steps: seq<Step>, k: Journal)
    requires Reachable(maxFileBytes, j) && j.closed && j.sender.Idle? && !j.failed
    ensures After(j, steps) == Some(k) && forall s <- steps :: WriterStep(s)
    ensures k.writer.Finished? && !k.failed && k.sent == j.sent && Written(k.parts) == j.sent
  {
    ReachableIsInvariant(maxFileBytes, j);
    ReachableStopWaits(maxFileBytes, j);
    steps, k := WriterFinishes(j);
    FinishedHoldsAll(k);
  }

  /** Before that the writer alone can make the room that the stop item needs, however full the
      queue is. */
  lemma ClosingJournalFinishes(maxFileBytes: nat, j: Journal)
    returns (room: seq<Step>, rest: seq<Step>, k: Journal)
    requires Reachable(maxFileBytes, j) && j.sender.Closing? && !j.failed
    ensures After(j, room + [PutStop] + rest) == Some(k) && forall s <- room + rest :: WriterStep(s)
    ensures k.writer.Finished? && !k.failed && k.sent == j.sent && Written(k.parts) == j.sent
  {
    var ready;
    ReachableIsInvariant(maxFileBytes, j);
    room, ready := WriterDrains(j);
    var stopped := Apply(ready, PutStop);
    StepKeepsInvariant(ready, PutStop);
    AfterOne(ready, PutStop);
    AfterConcat(j, room, [PutStop]);
    rest, k := WriterFinishes(stopped);
    AfterConcat(j, room + [PutStop], rest);
    FinishedHoldsAll(k);
  }

  /** Where part `k` begins in the written records. */
  function Offset(parts: seq<Part>, k: nat): nat
    requires k <= |parts|
  {
    |Written(parts[..k])|
  }

  /** A part holds a contiguous stretch of the written records. */
  lemma {:induction false} PartIsSlice(parts: seq<Part>, k: nat)
    requires k < |parts|
    ensures
      var at, records := Offset(parts, k), parts[k].records;
      at + |records| <= |Written(parts)| && Written(parts)[at..at + |records|] == records
    decreases |parts|
  {
    var n := |parts| - 1;
    if k == n {
      assert parts[..k] == parts[..n];
    } else {
      PartIsSlice(parts[..n], k);
      assert parts[..n][..k] == parts[..k];
    }
  }
}
