/** The command sink over its recorded sender (`runtime_bridge/live_control.py` and
    `runtime_bridge/action_journal.py` together): one command at a time holds the lock of the
    sink, its send takes the steps of the sender, and the writer and a closing thread go on in
    between. What the sink learns of a send is what those steps did. */
module MotionChannel {
  import opened ActionJournal
  import opened CommandSink
  import opened Wrappers

  /** The command that holds the lock of the sink: about to be sent, in the sender, or back from
      it with the counters not yet moved. */
  datatype Call =
    | NoCall
    | Asked(command: Command, packet: Packet)
    | Sending(command: Command, packet: Packet)
    | Answered(command: Command, packet: Packet, outcome: SendOutcome)

  /** `ops` records history: the commands that ran to their end, with what became of them. */
  datatype Channel = Channel(config: SinkConfig, sink: SinkState, call: Call, journal: Journal, ops: seq<Operation>)

  datatype Event = Give(command: Command) | Refuse | Act(step: Step) | Account

  /** The steps of a send need a command that is being sent. */
  predicate Drives(call: Call, s: Step) {
    match s
    case BeginSend(r) => call.Asked? && r.packet == call.packet
    case CheckQueue | SocketRaises | SocketSendsShort | SocketSends | Enqueue => call.Sending?
    case _ => true
  }

  /** Bad arguments are refused before the lock is taken, so at any time. */
  predicate Possible(ch: Channel, e: Event) {
    match e
    case Give(c) => EnvelopesOk(c) && (ch.call.NoCall? || BadArguments(ch.config, c))
    case Refuse => ch.call.Asked? && ch.journal.sender.Idle? && (ch.journal.closed || ch.journal.failed)
    case Act(s) => Drives(ch.call, s) && Enabled(ch.journal, s)
    case Account => ch.call.Answered?
  }

  /** Where a step of the sender leaves the command that it serves. */
  function CallAfter(call: Call, queued: nat, s: Step): Call
    requires Drives(call, s)
  {
    match s
    case BeginSend(_) => Sending(call.command, call.packet)
    case CheckQueue => if queued >= QUEUE_CAPACITY then Answered(call.command, call.packet, RaisedUnsent) else call
    case SocketRaises => Answered(call.command, call.packet, RaisedUnsent)
    case SocketSendsShort => Answered(call.command, call.packet, RaisedAfterShortSend)
    case Enqueue =>
      // A full queue raises after the datagram has left; it is never found.
      Answered(call.command, call.packet, if queued >= QUEUE_CAPACITY then RaisedAfterShortSend else Recorded)
    case _ => call
  }

  function Given(ch: Channel, c: Command): Channel
    requires EnvelopesOk(c)
  {
    if BadArguments(ch.config, c) then ch.(ops := ch.ops + [Operation(c, RaisedUnsent)])
    else
      ch.(sink := AfterCommand(ch.config, ch.sink, c, RaisedUnsent),
          call := Asked(c, AttemptOf(ch.config, ch.sink, c, RaisedUnsent).value.packet))
  }

  function Accounted(ch: Channel): Channel
    requires ch.call.Answered?
  {
    var moved :=
      if ch.call.outcome.Recorded? then
        ch.sink.(actionSeq := ch.sink.actionSeq + 1, datagrams := ch.sink.datagrams + 1)
      else ch.sink;
    ch.(sink := moved, call := NoCall, ops := ch.ops + [Operation(ch.call.command, ch.call.outcome)])
  }

  function Moved(ch: Channel, e: Event): Channel
    requires Possible(ch, e)
  {
    match e
    case Give(c) => Given(ch, c)
    case Refuse => ch.(call := Answered(ch.call.command, ch.call.packet, RaisedUnsent))
    case Act(s) => ch.(journal := Apply(ch.journal, s), call := CallAfter(ch.call, |ch.journal.queue|, s))
    case Account => Accounted(ch)
  }

  function NewChannel(config: SinkConfig, maxFileBytes: nat): Channel {
    Channel(config, INITIAL_SINK, NoCall, Initial(maxFileBytes), [])
  }

  function Next(m: Option<Channel>, e: Event): Option<Channel> {
    if m.Some? && Possible(m.value, e) then Some(Moved(m.value, e)) else None
  }

  function RunFrom(ch: Channel, events: seq<Event>): Option<Channel> {
    if events == [] then Some(ch) else Next(RunFrom(ch, events[..|events| - 1]), events[|events| - 1])
  }

  ghost predicate ReachableChannel(config: SinkConfig, maxFileBytes: nat, ch: Channel) {
    exists events: seq<Event> :: RunFrom(NewChannel(config, maxFileBytes), events) == Some(ch)
  }

  // --------------------------------------------------------------------- the invariant

  function PacketsOf(records: seq<Record>): (packets: seq<Packet>)
    ensures |packets| == |records|
    ensures forall i :: 0 <= i < |records| ==> packets[i] == records[i].packet
  {
    if records == [] then [] else PacketsOf(records[..|records| - 1]) + [records[|records| - 1].packet]
  }

  predicate InSend(s: SenderPc) { s.Available? || s.Ready? || s.Delivered? }

  /** The packet that has been sent and is not counted yet. */
  function Outstanding(ch: Channel): seq<Packet> {
    if ch.call.Sending? && ch.journal.sender.Delivered? then [ch.call.packet]
    else if ch.call.Answered? && ch.call.outcome.Recorded? then [ch.call.packet]
    else []
  }

  /** The sink is in the state of its finished commands, or past the gate of the next one. */
  ghost predicate SinkMatches(config: SinkConfig, sink: SinkState, call: Call, ops: seq<Operation>) {
    if call.NoCall? then sink == StateAfter(config, ops)
    else
      && EnvelopesOk(call.command) && !BadArguments(config, call.command)
      && sink == AfterCommand(config, StateAfter(config, ops), call.command, RaisedUnsent)
      && call.packet == AttemptOf(config, StateAfter(config, ops), call.command, RaisedUnsent).value.packet
  }

  ghost predicate SenderMatches(call: Call, sender: SenderPc) {
    && (call.Sending? <==> InSend(sender))
    && (call.Sending? ==> sender.r.packet == call.packet)
  }

  ghost predicate PacketsMatch(ch: Channel)
    requires OperationsOk(ch.ops)
  {
    PacketsOf(ch.journal.sent) == RecordedPackets(AttemptsOf(ch.config, ch.ops)) + Outstanding(ch)
  }

  ghost predicate ChannelInvariant(ch: Channel) {
    && OperationsOk(ch.ops) && Invariant(ch.journal)
    && SinkMatches(ch.config, ch.sink, ch.call, ch.ops) && SenderMatches(ch.call, ch.journal.sender)
    && PacketsMatch(ch)
  }

  lemma PacketsAppend(records: seq<Record>, r: Record)
    ensures PacketsOf(records + [r]) == PacketsOf(records) + [r.packet]
  {
    assert (records + [r])[..|records|] == records;
  }

  /** What one more finished command adds to the recorded packets. */
  lemma RecordedGrows(config: SinkConfig, ops: seq<Operation>, o: Operation)
    requires OperationsOk(ops) && EnvelopesOk(o.command)
    ensures OperationsOk(ops + [o])
    ensures StateAfter(config, ops + [o]) == AfterCommand(config, StateAfter(config, ops), o.command, o.outcome)
    ensures
      RecordedPackets(AttemptsOf(config, ops + [o]))
      == RecordedPackets(AttemptsOf(config, ops)) +
         if BadArguments(config, o.command) || !o.outcome.Recorded? then []
         else [AttemptOf(config, StateAfter(config, ops), o.command, RaisedUnsent).value.packet]
  {
    assert (ops + [o])[..|ops|] == ops;
    var before := AttemptsOf(config, ops);
    var attempt := AttemptOf(config, StateAfter(config, ops), o.command, o.outcome);
    if attempt.Some? {
      assert (before + [attempt.value])[..|before|] == before;
    } else {
      assert AttemptsOf(config, ops + [o]) == before;
    }
  }

  lemma GiveKeepsInvariant(ch: Channel, c: Command)
    requires ChannelInvariant(ch) && Possible(ch, Give(c))
    ensures ChannelInvariant(Moved(ch, Give(c)))
  {
    if BadArguments(ch.config, c) {
      RecordedGrows(ch.config, ch.ops, Operation(c, RaisedUnsent));
      assert Outstanding(Moved(ch, Give(c))) == Outstanding(ch);
    } else {
      GiveAsks(ch, c);
    }
  }

  lemma GiveAsks(ch: Channel, c: Command)
    requires ChannelInvariant(ch) && Possible(ch, Give(c)) && !BadArguments(ch.config, c)
    ensures ChannelInvariant(Moved(ch, Give(c)))
  {
    assert Outstanding(Moved(ch, Give(c))) == [] == Outstanding(ch);
  }

  lemma AccountMatches(ch: Channel, o: Operation)
    requires ChannelInvariant(ch) && ch.call.Answered? && o == Operation(ch.call.command, ch.call.outcome)
    ensures Accounted(ch).sink == AfterCommand(ch.config, StateAfter(ch.config, ch.ops), o.command, o.outcome)
    ensures
      RecordedPackets(AttemptsOf(ch.config, ch.ops)) + Outstanding(ch)
      == RecordedPackets(AttemptsOf(ch.config, ch.ops)) +
         if !o.outcome.Recorded? then []
         else [AttemptOf(ch.config, StateAfter(ch.config, ch.ops), o.command, RaisedUnsent).value.packet]
  {}

  lemma AccountKeepsInvariant(ch: Channel)
    requires ChannelInvariant(ch) && Possible(ch, Account)
    ensures ChannelInvariant(Moved(ch, Account))
  {
    var o := Operation(ch.call.command, ch.call.outcome);
    AccountMatches(ch, o);
    RecordedGrows(ch.config, ch.ops, o);
    assert Outstanding(Moved(ch, Account)) == [];
  }

  /** The steps of the sender serve the command; all others leave it alone. */
  lemma ActKeepsSender(ch: Channel, s: Step)
    requires ChannelInvariant(ch) && Possible(ch, Act(s))
    ensures SenderMatches(Moved(ch, Act(s)).call, Apply(ch.journal, s).sender)
  {
    SenderFollows(ch.call, ch.journal, s);
  }

  lemma SenderFollows(call: Call, j: Journal, s: Step)
    requires SenderMatches(call, j.sender) && Drives(call, s) && Enabled(j, s)
    requires j.sender.Delivered? ==> |j.queue| < QUEUE_CAPACITY
    ensures SenderMatches(CallAfter(call, |j.queue|, s), Apply(j, s).sender)
  {}

  lemma ActKeepsSink(ch: Channel, s: Step)
    requires ChannelInvariant(ch) && Possible(ch, Act(s))
    ensures SinkMatches(ch.config, ch.sink, Moved(ch, Act(s)).call, ch.ops)
  {
    CallIsServed(ch.call, |ch.journal.queue|, s);
  }

  lemma CallIsServed(call: Call, queued: nat, s: Step)
    requires Drives(call, s)
    ensures
      var next := CallAfter(call, queued, s);
      && (next.NoCall? <==> call.NoCall?)
      && (!call.NoCall? ==> next.command == call.command && next.packet == call.packet)
  {}

  lemma SentBy(j: Journal, s: Step)
    requires Enabled(j, s)
    ensures Apply(j, s).sent == j.sent + if s.SocketSends? then [j.sender.r] else []
  {}

  lemma OutstandingAfter(ch: Channel, s: Step)
    requires Invariant(ch.journal) && SenderMatches(ch.call, ch.journal.sender) && Possible(ch, Act(s))
    ensures Outstanding(Moved(ch, Act(s))) == Outstanding(ch) + if s.SocketSends? then [ch.call.packet] else []
  {}

  lemma ActKeepsPackets(ch: Channel, s: Step, recorded: seq<Packet>)
    requires ChannelInvariant(ch) && Possible(ch, Act(s)) && recorded == RecordedPackets(AttemptsOf(ch.config, ch.ops))
    ensures PacketsOf(Apply(ch.journal, s).sent) == recorded + Outstanding(Moved(ch, Act(s)))
  {
    OutstandingAfter(ch, s);
    SentBy(ch.journal, s);
    PacketsFollow(
      ch.journal.sent, Apply(ch.journal, s).sent, ch.journal.sender, ch.call, s, recorded, Outstanding(ch),
      Outstanding(Moved(ch, Act(s))));
  }

  lemma PacketsFollow(
    sent: seq<Record>, longer: seq<Record>, sender: SenderPc, call: Call, s: Step, recorded: seq<Packet>,
    before: seq<Packet>, after: seq<Packet>)
    requires PacketsOf(sent) == recorded + before
    requires s.SocketSends? ==> InSend(sender) && !call.NoCall? && sender.r.packet == call.packet
    requires longer == sent + if s.SocketSends? then [sender.r] else []
    requires after == before + if s.SocketSends? then [call.packet] else []
    ensures PacketsOf(longer) == recorded + after
  {
    if s.SocketSends? {
      PacketsAppend(sent, sender.r);
    } else {
      assert longer == sent;
    }
  }

  lemma EventKeepsInvariant(ch: Channel, e: Event)
    requires ChannelInvariant(ch) && Possible(ch, e)
    ensures ChannelInvariant(Moved(ch, e))
  {
    match e
    case Give(c) => GiveKeepsInvariant(ch, c);
    case Refuse => assert Outstanding(Moved(ch, e)) == Outstanding(ch);
    case Act(s) =>
      StepKeepsInvariant(ch.journal, s);
      ActKeepsSender(ch, s);
      ActKeepsSink(ch, s);
      ActKeepsPackets(ch, s, RecordedPackets(AttemptsOf(ch.config, ch.ops)));
    case Account => AccountKeepsInvariant(ch);
  }

  lemma {:induction false} RunKeepsChannel(ch: Channel, events: seq<Event>)
    requires ChannelInvariant(ch) && RunFrom(ch, events).Some?
    ensures ChannelInvariant(RunFrom(ch, events).value) && RunFrom(ch, events).value.config == ch.config
  {
    if events != [] {
      var n := |events| - 1;
      RunKeepsChannel(ch, events[..n]);
      EventKeepsInvariant(RunFrom(ch, events[..n]).value, events[n]);
    }
  }

  lemma ReachableKeepsInvariant(config: SinkConfig, maxFileBytes: nat, ch: Channel)
    requires ReachableChannel(config, maxFileBytes, ch)
    ensures ChannelInvariant(ch) && ch.config == config
  {
    var events: seq<Event> :| RunFrom(NewChannel(config, maxFileBytes), events) == Some(ch);
    RunKeepsChannel(NewChannel(config, maxFileBytes), events);
  }

  // ----------------------------------------------------------------- the journal's own run

  /** The steps of sender, writer and close in a run of the channel. */
  function StepsOf(events: seq<Event>): seq<Step> {
    if events == [] then []
    else StepsOf(events[..|events| - 1]) + match events[|events| - 1] { case Act(s) => [s] case _ => [] }
  }

  lemma JournalMoves(steps: seq<Step>, start: Journal, j: Journal, s: Step)
    requires After(start, steps) == Some(j) && Enabled(j, s)
    ensures After(start, steps + [s]) == Some(Apply(j, s))
  {
    assert (steps + [s])[..|steps|] == steps;
  }

  lemma {:induction false} RunProjects(ch: Channel, events: seq<Event>)
    requires RunFrom(ch, events).Some?
    ensures After(ch.journal, StepsOf(events)) == Some(RunFrom(ch, events).value.journal)
  {
    if events != [] {
      var n := |events| - 1;
      RunProjects(ch, events[..n]);
      if events[n].Act? {
        JournalMoves(StepsOf(events[..n]), ch.journal, RunFrom(ch, events[..n]).value.journal, events[n].step);
      } else {
        assert StepsOf(events) == StepsOf(events[..n]);
      }
    }
  }

  /** What holds of every journal holds of the one below a sink. */
  lemma JournalIsReachable(config: SinkConfig, maxFileBytes: nat, ch: Channel)
    requires ReachableChannel(config, maxFileBytes, ch)
    ensures Reachable(maxFileBytes, ch.journal)
  {
    var events: seq<Event> :| RunFrom(NewChannel(config, maxFileBytes), events) == Some(ch);
    RunProjects(NewChannel(config, maxFileBytes), events);
  }

  // ---------------------------------------------------------------------- the results

  /** The finished commands and the one whose datagram has left whole. */
  function Settled(ch: Channel): seq<Operation> {
    ch.ops + if Outstanding(ch) == [] then [] else [Operation(ch.call.command, Recorded)]
  }

  /** In every interleaving of commands, sends, writer and close, even between a send and the
      moment the sink counts it: the successful sends of the journal are exactly the packets
      that the sink's commands, with the outcomes they met, have as recorded. */
  lemma SendsAreTheSinksPackets(config: SinkConfig, maxFileBytes: nat, ch: Channel)
    requires ReachableChannel(config, maxFileBytes, ch)
    ensures OperationsOk(Settled(ch))
    ensures PacketsOf(ch.journal.sent) == RecordedPackets(AttemptsOf(config, Settled(ch)))
    ensures ch.call.NoCall? ==> ch.sink == StateAfter(config, ch.ops) && |ch.journal.sent| == ch.sink.datagrams
  {
    ReachableKeepsInvariant(config, maxFileBytes, ch);
    if Outstanding(ch) != [] {
      RecordedGrows(config, ch.ops, Operation(ch.call.command, Recorded));
    } else {
      assert Settled(ch) == ch.ops;
    }
    RecordedNumbersHaveNoGap(config, ch.ops);
  }

  lemma {:induction false} RecordedComeFrom(attempts: seq<Attempt>, p: Packet)
    requires p in RecordedPackets(attempts)
    ensures exists a :: a in attempts && a.outcome.Recorded? && a.packet == p
  {
    var n := |attempts| - 1;
    if p in RecordedPackets(attempts[..n]) {
      RecordedComeFrom(attempts[..n], p);
    } else {
      assert attempts[n].outcome.Recorded? && attempts[n].packet == p;
    }
  }

  /** Every record in the files that moves the machine is backed by a command whose state, age,
      values and envelope permitted it. */
  lemma JournalledMotionIsJustified(config: SinkConfig, maxFileBytes: nat, ch: Channel, k: nat)
    requires ReachableChannel(config, maxFileBytes, ch) && k < |Written(ch.journal.parts)|
    ensures OperationsOk(Settled(ch))
    ensures
      exists a :: a in AttemptsOf(config, Settled(ch)) && a.outcome.Recorded?
        && a.packet == Written(ch.journal.parts)[k].packet && Justified(config, a)
  {
    var j := ch.journal;
    SendsAreTheSinksPackets(config, maxFileBytes, ch);
    JournalIsReachable(config, maxFileBytes, ch);
    JournalFollowsSends(maxFileBytes, j);
    assert PacketsOf(j.sent)[k] == Written(j.parts)[k].packet;
    RecordedComeFrom(AttemptsOf(config, Settled(ch)), Written(j.parts)[k].packet);
    SinkIsSafe(config, Settled(ch));
  }

  /** The datagrams that left, and so the records in the files, in terms of the commands alone:
      in every interleaving there is one for each command that was taken and whose datagram left
      whole, in order, and it carries the command's own values when the command may move the
      machine, zeros otherwise, under its own stamp. */
  lemma SendsCarryCommands(config: SinkConfig, maxFileBytes: nat, ch: Channel) returns (at: seq<nat>)
    requires ReachableChannel(config, maxFileBytes, ch)
    ensures OperationsOk(Settled(ch)) && Lists(config, Settled(ch), true, at)
    ensures RecordsCarry(config, Settled(ch), PacketsOf(ch.journal.sent), at)
    ensures |Written(ch.journal.parts)| <= |at|
    ensures forall k :: 0 <= k < |Written(ch.journal.parts)| ==>
              && at[k] < |Settled(ch)|
              && CarriesCommand(
                   config, Settled(ch)[..at[k]], Settled(ch)[at[k]].command, k, Written(ch.journal.parts)[k].packet)
  {
    SendsAreTheSinksPackets(config, maxFileBytes, ch);
    JournalIsReachable(config, maxFileBytes, ch);
    JournalFollowsSends(maxFileBytes, ch.journal);
    at := RecordedCarryCommands(config, Settled(ch));
    PrefixCarries(config, Settled(ch), ch.journal.sent, Written(ch.journal.parts), at);
  }

  lemma PrefixCarries(config: SinkConfig, ops: seq<Operation>, sent: seq<Record>, written: seq<Record>, at: seq<nat>)
    requires RecordsCarry(config, ops, PacketsOf(sent), at) && written <= sent
    ensures |written| <= |at|
    ensures forall k :: 0 <= k < |written| ==>
              at[k] < |ops| && CarriesCommand(config, ops[..at[k]], ops[at[k]].command, k, written[k].packet)
  {
    assert forall k :: 0 <= k < |written| ==> PacketsOf(sent)[k] == written[k].packet;
  }

  // ------------------------------------------------------------------ a command goes through

  lemma OneEvent(start: Channel, events: seq<Event>, ch: Channel, e: Event)
    requires RunFrom(start, events) == Some(ch) && Possible(ch, e)
    ensures RunFrom(start, events + [e]) == Some(Moved(ch, e))
  {
    assert (events + [e])[..|events|] == events;
  }

  lemma {:induction false} Continued(start: Channel, a: seq<Event>, ch: Channel, b: seq<Event>)
    requires RunFrom(start, a) == Some(ch)
    ensures RunFrom(start, a + b) == RunFrom(ch, b)
  {
    if b == [] {
      assert a + b == a;
    } else {
      Continued(start, a, ch, b[..|b| - 1]);
      assert (a + b)[..|a + b| - 1] == a + b[..|b| - 1];
    }
  }

  ghost predicate Leads(ch: Channel, e: Event, k: Channel) {
    Possible(ch, e) && Moved(ch, e) == k
  }

  lemma {:induction false} Chain(start: Channel, events: seq<Event>, states: seq<Channel>, n: nat)
    requires |states| == |events| + 1 && states[0] == start && n <= |events|
    requires forall i, j :: 0 <= i && j == i + 1 <= |events| ==> Leads(states[i], events[i], states[j])
    ensures RunFrom(start, events[..n]) == Some(states[n])
  {
    if n > 0 {
      Chain(start, events, states, n - 1);
      assert Leads(states[n - 1], events[n - 1], states[n]);
      OneEvent(start, events[..n - 1], states[n - 1], events[n - 1]);
      assert events[..n] == events[..n - 1] + [events[n - 1]];
    }
  }

  /** The events of one command that is sent, queued and counted. */
  function SendEvents(c: Command, r: Record): seq<Event> {
    [Give(c), Act(BeginSend(r)), Act(CheckQueue), Act(SocketSends), Act(Enqueue), Account]
  }

  /** Nothing stands in the way of the next command. */
  predicate Open(ch: Channel) {
    && ch.call.NoCall? && ch.journal.sender.Idle? && !ch.journal.closed && !ch.journal.failed
    && |ch.journal.queue| < QUEUE_CAPACITY
  }

  /** The channel after one more command. */
  function SentOn(ch: Channel, c: Command, r: Record): Channel
    requires EnvelopesOk(c)
  {
    ch.(sink := AfterCommand(ch.config, ch.sink, c, Recorded),
        journal := ch.journal.(queue := ch.journal.queue + [Entry(r)], sent := ch.journal.sent + [r]),
        ops := ch.ops + [Operation(c, Recorded)])
  }

  /** The channel after the first `i` events of a command. */
  function SendingOn(ch: Channel, c: Command, r: Record, i: nat): Channel
    requires EnvelopesOk(c) && i <= 6
  {
    var j := ch.journal;
    var gated := ch.(sink := AfterCommand(ch.config, ch.sink, c, RaisedUnsent));
    if i == 0 then ch
    else if i == 1 then gated.(call := Asked(c, r.packet))
    else if i == 2 then gated.(call := Sending(c, r.packet), journal := j.(sender := Available(r)))
    else if i == 3 then gated.(call := Sending(c, r.packet), journal := j.(sender := Ready(r)))
    else if i == 4 then
      gated.(call := Sending(c, r.packet), journal := j.(sender := Delivered(r), sent := j.sent + [r]))
    else if i == 5 then
      gated.(call := Answered(c, r.packet, Recorded),
             journal := j.(queue := j.queue + [Entry(r)], sent := j.sent + [r]))
    else SentOn(ch, c, r)
  }

  /** The record is that of the command in this state of the sink. */
  predicate RecordsNext(ch: Channel, c: Command, r: Record) {
    EnvelopesOk(c) && !BadArguments(ch.config, c)
    && r.packet == AttemptOf(ch.config, ch.sink, c, RaisedUnsent).value.packet
  }

  lemma SendingStep(ch: Channel, c: Command, r: Record, i: nat, e: Event)
    requires Open(ch) && RecordsNext(ch, c, r)
    requires i < 6 && e == SendEvents(c, r)[i]
    ensures Possible(SendingOn(ch, c, r, i), e) && Moved(SendingOn(ch, c, r, i), e) == SendingOn(ch, c, r, i + 1)
  {}

  lemma SendHappens(ch: Channel, c: Command, r: Record)
    requires Open(ch) && RecordsNext(ch, c, r)
    ensures RunFrom(ch, SendEvents(c, r)) == Some(SentOn(ch, c, r))
  {
    var e := SendEvents(c, r);
    var states := seq(7, i requires 0 <= i < 7 => SendingOn(ch, c, r, i));
    forall i, k | 0 <= i && k == i + 1 <= 6
      ensures Leads(states[i], e[i], states[k])
    {
      SendingStep(ch, c, r, i, e[i]);
    }
    Chain(ch, e, states, 6);
    assert e[..6] == e;
  }

  /** Every command whose arguments are taken can be carried out, from every reachable state in
      which the lock is free, the journal open and healthy and the queue not full: its datagram
      leaves, is recorded and counted, and carries what the command may do. */
  lemma CommandGoesThrough(config: SinkConfig, maxFileBytes: nat, ch: Channel, c: Command, r: Record)
    requires ReachableChannel(config, maxFileBytes, ch) && Open(ch)
    requires EnvelopesOk(c) && TakesArguments(config, c)
    requires CarriesCommand(config, ch.ops, c, ch.sink.actionSeq, r.packet)
    ensures RunFrom(ch, SendEvents(c, r)) == Some(SentOn(ch, c, r))
  {
    ReachableKeepsInvariant(config, maxFileBytes, ch);
    AttemptMeans(config, ch.ops, Operation(c, RaisedUnsent));
    SendHappens(ch, c, r);
  }

  // ---------------------------------------------------------------------- no command is lost

  /** The commands given in a run whose arguments are taken, or those that are refused. */
  function GivenIn(config: SinkConfig, events: seq<Event>, taken: bool): seq<Command> {
    if events == [] then []
    else
      var n := |events| - 1;
      GivenIn(config, events[..n], taken) + GivenBy(config, events[n], taken)
  }

  function FinishedIn(config: SinkConfig, ops: seq<Operation>, taken: bool): seq<Command> {
    if ops == [] then []
    else
      var n := |ops| - 1;
      FinishedIn(config, ops[..n], taken) +
      if TakesArguments(config, ops[n].command) == taken then [ops[n].command] else []
  }

  /** The command that has the lock. */
  function UnderWay(call: Call): seq<Command> { if call.NoCall? then [] else [call.command] }

  lemma FinishedOneMore(config: SinkConfig, ops: seq<Operation>, o: Operation, taken: bool)
    ensures
      FinishedIn(config, ops + [o], taken)
      == FinishedIn(config, ops, taken) + if TakesArguments(config, o.command) == taken then [o.command] else []
  {
    assert (ops + [o])[..|ops|] == ops;
  }

  /** The commands a channel has: those that ran to their end and the one under way. */
  function Held(ch: Channel, taken: bool): seq<Command> {
    FinishedIn(ch.config, ch.ops, taken) + if taken then UnderWay(ch.call) else []
  }

  /** What an event adds to the commands given. */
  function GivenBy(config: SinkConfig, e: Event, taken: bool): seq<Command> {
    match e
    case Give(c) => if TakesArguments(config, c) == taken then [c] else []
    case _ => []
  }

  lemma GiveKeepsCommands(ch: Channel, c: Command, taken: bool)
    requires Possible(ch, Give(c))
    ensures Held(Given(ch, c), taken) == Held(ch, taken) + GivenBy(ch.config, Give(c), taken)
  {
    assert BadArguments(ch.config, c) <==> !TakesArguments(ch.config, c);
    if BadArguments(ch.config, c) {
      FinishedOneMore(ch.config, ch.ops, Operation(c, RaisedUnsent), taken);
      assert taken ==> FinishedIn(ch.config, ch.ops, taken) + [] == FinishedIn(ch.config, ch.ops, taken);
    }
  }

  lemma AccountKeepsCommands(ch: Channel, taken: bool)
    requires ch.call.Answered? && TakesArguments(ch.config, ch.call.command)
    ensures Held(Accounted(ch), taken) == Held(ch, taken)
  {
    FinishedOneMore(ch.config, ch.ops, Operation(ch.call.command, ch.call.outcome), taken);
  }

  /** The steps of the sender serve the same command. */
  lemma CallKeepsCommand(call: Call, queued: nat, s: Step)
    requires Drives(call, s)
    ensures UnderWay(CallAfter(call, queued, s)) == UnderWay(call)
  {}

  lemma EventKeepsCommands(ch: Channel, e: Event, taken: bool)
    requires Possible(ch, e) && (ch.call.Answered? ==> TakesArguments(ch.config, ch.call.command))
    ensures Held(Moved(ch, e), taken) == Held(ch, taken) + GivenBy(ch.config, e, taken)
  {
    match e
    case Give(c) => GiveKeepsCommands(ch, c, taken);
    case Refuse =>
    case Act(s) => CallKeepsCommand(ch.call, |ch.journal.queue|, s);
    case Account => AccountKeepsCommands(ch, taken);
  }

  lemma CallIsTaken(ch: Channel)
    requires ChannelInvariant(ch)
    ensures ch.call.Answered? ==> TakesArguments(ch.config, ch.call.command)
  {}

  lemma LastEvent(start: Channel, events: seq<Event>, ch: Channel)
    requires events != [] && RunFrom(start, events) == Some(ch)
    ensures RunFrom(start, events[..|events| - 1]).Some?
    ensures
      var before := RunFrom(start, events[..|events| - 1]).value;
      Possible(before, events[|events| - 1]) && ch == Moved(before, events[|events| - 1])
  {}

  lemma Joined(a: seq<Command>, b: seq<Command>, c: seq<Command>)
    ensures (a + b) + c == a + (b + c)
  {}

  lemma {:induction false} RunKeepsCommands(start: Channel, events: seq<Event>, ch: Channel, taken: bool)
    requires ChannelInvariant(start) && RunFrom(start, events) == Some(ch)
    ensures Held(ch, taken) == Held(start, taken) + GivenIn(start.config, events, taken)
  {
    if events == [] {
      assert Held(start, taken) + [] == Held(start, taken);
    } else {
      var n := |events| - 1;
      LastEvent(start, events, ch);
      var before := RunFrom(start, events[..n]).value;
      RunKeepsCommands(start, events[..n], before, taken);
      RunKeepsChannel(start, events[..n]);
      CallIsTaken(before);
      EventKeepsCommands(before, events[n], taken);
      Joined(Held(start, taken), GivenIn(start.config, events[..n], taken), GivenBy(start.config, events[n], taken));
    }
  }

  /** No command is lost, made up or overtaken: in every interleaving the commands whose arguments
      are taken are, in the order in which they were given, those that ran to their end and the
      one that has the lock; the refused ones are, in their order, those that ended at once. */
  lemma CommandsAreKept(config: SinkConfig, maxFileBytes: nat, events: seq<Event>, ch: Channel, taken: bool)
    requires RunFrom(NewChannel(config, maxFileBytes), events) == Some(ch)
    ensures Held(ch, taken) == GivenIn(config, events, taken)
  {
    RunKeepsCommands(NewChannel(config, maxFileBytes), events, ch, taken);
    assert [] + GivenIn(config, events, taken) == GivenIn(config, events, taken);
  }

  /** After a close that gave up nothing the files hold one record for every datagram the sink
      has counted, in the order of its numbers. */
  lemma CleanCloseCountsDatagrams(config: SinkConfig, maxFileBytes: nat, ch: Channel)
    requires ReachableChannel(config, maxFileBytes, ch)
    requires ch.call.NoCall? && ch.journal.writer.Finished? && !ch.journal.dropped
    ensures
      var records := Written(ch.journal.parts);
      |records| == ch.sink.datagrams && forall i :: 0 <= i < |records| ==> records[i].packet.seqNo == i
  {
    var j := ch.journal;
    SendsAreTheSinksPackets(config, maxFileBytes, ch);
    JournalIsReachable(config, maxFileBytes, ch);
    CleanCloseKeepsEverySend(maxFileBytes, j);
    RecordedNumbersHaveNoGap(config, Settled(ch));
    assert forall i :: 0 <= i < |j.sent| ==> PacketsOf(j.sent)[i] == j.sent[i].packet;
  }
}
