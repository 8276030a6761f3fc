/** The table of plans the live server has issued
    (`runtime_bridge/apps/live_machine_behavior_server.py`): a publication adds a digest, a
    Follow goal consumes it. */
module PlanIssuance {
  /** Publications kept besides the new one. */
  const KEPT := 7

  datatype Plan = Plan(digest: string, id: string)

  /** A dictionary in insertion order. */
  type Table = seq<Plan>

  predicate Unique(table: Table) {
    forall i, j :: 0 <= i < j < |table| ==> table[i].digest != table[j].digest
  }

  predicate Contains(table: Table, digest: string) {
    exists i :: 0 <= i < |table| && table[i].digest == digest
  }

  /** Where a digest is, counting from the front; the length when it is absent. */
  function IndexOf(table: Table, digest: string): (i: nat)
    ensures i <= |table|
    ensures i < |table| ==> table[i].digest == digest
    ensures forall k :: 0 <= k < i ==> table[k].digest != digest
  {
    if table == [] then 0
    else
      var n := |table| - 1;
      var i := IndexOf(table[..n], digest);
      if i < n then i else if table[n].digest == digest then n else n + 1
  }

  /** Dictionary assignment: a present key keeps its place. */
  function Put(table: Table, p: Plan): Table {
    var i := IndexOf(table, p.digest);
    if i < |table| then table[i := p] else table + [p]
  }

  function Newest(table: Table): Table {
    if |table| <= KEPT then table else table[|table| - KEPT..]
  }

  function Published(table: Table, p: Plan): Table { Put(Newest(table), p) }

  function Without(table: Table, digest: string): Table {
    var i := IndexOf(table, digest);
    if i < |table| then table[..i] + table[i + 1..] else table
  }

  datatype GoalOutcome = NotIssued | IdMismatch | Passed

  function Outcome(table: Table, goal: Plan): GoalOutcome {
    var i := IndexOf(table, goal.digest);
    if i == |table| then NotIssued else if table[i].id != goal.id then IdMismatch else Passed
  }

  class PlanTable {
    var planned: Table

    constructor ()
      ensures planned == []
    {
      planned := [];
    }

    /** A publication that was executable. */
    method Publish(p: Plan)
      modifies this
      ensures planned == Published(old(planned), p)
    {
      planned := if |planned| <= KEPT then planned else planned[|planned| - KEPT..];
      var i := IndexOf(planned, p.digest);
      if i < |planned| {
        planned := planned[i := p];
      } else {
        planned := planned + [p];
      }
    }

    /** The issuance check of a Follow goal: the digest is consumed whatever comes of it. */
    method Take(goal: Plan) returns (outcome: GoalOutcome)
      modifies this
      ensures planned == Without(old(planned), goal.digest)
      ensures outcome == Outcome(old(planned), goal)
    {
      var i := IndexOf(planned, goal.digest);
      if i == |planned| {
        return NotIssued;
      }
      var id := planned[i].id;
      planned := planned[..i] + planned[i + 1..];
      return if id != goal.id then IdMismatch else Passed;
    }
  }

  // ------------------------------------------------------------------ whole histories

  /** Publications and goals in the order in which they took the lock. Whether a goal is
      rejected later, for its heartbeat or the lease, makes no difference to the table. */
  datatype Event = Publication(p: Plan) | Goal(goal: Plan)

  function TableAfter(events: seq<Event>): Table {
    if events == [] then []
    else
      var n := |events| - 1;
      match events[n]
      case Publication(p) => Published(TableAfter(events[..n]), p)
      case Goal(g) => Without(TableAfter(events[..n]), g.digest)
  }

  predicate PassesAt(events: seq<Event>, i: nat)
    requires i < |events|
  {
    events[i].Goal? && Outcome(TableAfter(events[..i]), events[i].goal).Passed?
  }

  /** How often goals for this very plan passed the check. */
  function Passes(events: seq<Event>, p: Plan): nat {
    if events == [] then 0
    else
      var n := |events| - 1;
      Passes(events[..n], p) + if PassesAt(events, n) && events[n].goal == p then 1 else 0
  }

  function Publications(events: seq<Event>, p: Plan): nat {
    if events == [] then 0
    else
      var n := |events| - 1;
      Publications(events[..n], p) + if events[n] == Publication(p) then 1 else 0
  }

  lemma PutKeeps(table: Table, p: Plan)
    requires Unique(table)
    ensures Unique(Put(table, p)) && |Put(table, p)| <= |table| + 1
    ensures p in Put(table, p)
    ensures forall q <- Put(table, p) :: q == p || (q in table && q.digest != p.digest)
  {
    var i, next := IndexOf(table, p.digest), Put(table, p);
    assert next[if i < |table| then i else |table|] == p;
    forall q | q in next
      ensures q == p || (q in table && q.digest != p.digest)
    {
      var k :| 0 <= k < |next| && next[k] == q;
      if k != i {
        assert q == table[k];
      }
    }
  }

  lemma WithoutKeeps(table: Table, digest: string)
    requires Unique(table)
    ensures Unique(Without(table, digest)) && |Without(table, digest)| <= |table|
    ensures forall q <- Without(table, digest) :: q in table && q.digest != digest
  {
    var i, next := IndexOf(table, digest), Without(table, digest);
    forall k | 0 <= k < |next|
      ensures next[k] in table && next[k].digest != digest
    {
      assert next[k] == if k < i then table[k] else table[k + 1];
    }
  }

  lemma {:induction false} TableIsSmall(events: seq<Event>)
    ensures Unique(TableAfter(events)) && |TableAfter(events)| <= KEPT + 1
  {
    if events != [] {
      var n := |events| - 1;
      TableIsSmall(events[..n]);
      var before := TableAfter(events[..n]);
      match events[n]
      case Publication(p) => PutKeeps(Newest(before), p);
      case Goal(g) => WithoutKeeps(before, g.digest);
    }
  }

  lemma OutcomeIsMembership(table: Table, goal: Plan)
    requires Unique(table)
    ensures Outcome(table, goal).Passed? <==> goal in table
  {
    var i := IndexOf(table, goal.digest);
    if goal in table {
      var k :| 0 <= k < |table| && table[k] == goal;
      assert k == i;
    }
  }

  /** In every interleaving of publications and goals the table holds at most eight digests,
      each once, and the goals that passed the check for a plan are no more than its
      publications; a plan still in the table has one publication to spare. */
  lemma {:induction false} IssuanceIsOneShot(events: seq<Event>, p: Plan)
    ensures |TableAfter(events)| <= 8 && Unique(TableAfter(events))
    ensures Passes(events, p) + (if p in TableAfter(events) then 1 else 0) <= Publications(events, p)
  {
    TableIsSmall(events);
    if events != [] {
      var n := |events| - 1;
      IssuanceIsOneShot(events[..n], p);
      var before := TableAfter(events[..n]);
      match events[n]
      case Publication(q) =>
        PutKeeps(Newest(before), q);
      case Goal(g) =>
        WithoutKeeps(before, g.digest);
        OutcomeIsMembership(before, g);
    }
  }

  function DigestPasses(events: seq<Event>, digest: string): nat {
    if events == [] then 0
    else
      var n := |events| - 1;
      DigestPasses(events[..n], digest) + if PassesAt(events, n) && events[n].goal.digest == digest then 1 else 0
  }

  function DigestPublications(events: seq<Event>, digest: string): nat {
    if events == [] then 0
    else
      var n := |events| - 1;
      DigestPublications(events[..n], digest) + if events[n].Publication? && events[n].p.digest == digest then 1 else 0
  }

  /** The same per digest, whatever identifiers the publications and goals carried. */
  lemma {:induction false} DigestIsOneShot(events: seq<Event>, digest: string)
    ensures
      DigestPasses(events, digest) + (if Contains(TableAfter(events), digest) then 1 else 0)
      <= DigestPublications(events, digest)
  {
    if events != [] {
      var n := |events| - 1;
      DigestIsOneShot(events[..n], digest);
      TableIsSmall(events[..n]);
      var before := TableAfter(events[..n]);
      match events[n]
      case Publication(q) =>
        NewestKeeps(before);
        PutKeeps(Newest(before), q);
        OnlyOldDigests(Newest(before), Put(Newest(before), q), q.digest);
        OnlyOldDigests(before, Newest(before), q.digest);
      case Goal(g) =>
        WithoutKeeps(before, g.digest);
        OnlyOldDigests(before, Without(before, g.digest), g.digest);
    }
  }

  lemma OnlyOldDigests(table: Table, next: Table, digest: string)
    requires forall q <- next :: q.digest == digest || q in table
    ensures forall d: string :: d != digest && Contains(next, d) ==> Contains(table, d)
  {
    forall d: string | d != digest && Contains(next, d)
      ensures Contains(table, d)
    {
      var k :| 0 <= k < |next| && next[k].digest == d;
      assert next[k] in table;
    }
  }

  // ------------------------------------------------------------------ which plans survive

  /** Plans inserted after `digest`. */
  function NewerThan(table: Table, digest: string): nat {
    var i := IndexOf(table, digest);
    if i < |table| then |table| - 1 - i else 0
  }

  lemma IndexIs(table: Table, i: nat)
    requires Unique(table) && i < |table|
    ensures IndexOf(table, table[i].digest) == i
  {}

  lemma NewestKeeps(table: Table)
    requires Unique(table) && |table| <= KEPT + 1
    ensures Unique(Newest(table)) && |Newest(table)| <= KEPT
    ensures |table| <= KEPT ==> Newest(table) == table
    ensures |table| == KEPT + 1 ==> Newest(table) == table[1..]
  {}

  lemma PutKeepsPlace(table: Table, i: nat, q: Plan)
    requires Unique(table) && i < |table| && q.digest != table[i].digest
    ensures table[i] in Put(table, q)
    ensures |table| - 1 - i <= NewerThan(Put(table, q), table[i].digest) <= |table| - i
  {
    PutKeeps(table, q);
    var next := Put(table, q);
    assert next[i] == table[i];
    IndexIs(next, i);
  }

  /** The next publication of another digest removes a plan exactly when seven newer ones are
      already there. */
  lemma NextPublicationEvicts(table: Table, p: Plan, q: Plan)
    requires Unique(table) && |table| <= KEPT + 1 && p in table && q.digest != p.digest
    ensures p in Published(table, q) <==> NewerThan(table, p.digest) < 7
    ensures p in Published(table, q) ==> NewerThan(Published(table, q), p.digest) <= NewerThan(table, p.digest) + 1
  {
    var i :| 0 <= i < |table| && table[i] == p;
    IndexIs(table, i);
    NewestKeeps(table);
    var newest := Newest(table);
    if |table| <= KEPT {
      PutKeepsPlace(table, i, q);
    } else if i > 0 {
      assert newest[i - 1] == p;
      PutKeepsPlace(newest, i - 1, q);
    } else {
      assert p !in newest;
      PutKeeps(newest, q);
    }
  }

  /** The plan published last is in the table, with at most six newer ones. */
  lemma PublicationEnters(table: Table, p: Plan)
    requires Unique(table) && |table| <= KEPT + 1
    ensures p in Published(table, p) && NewerThan(Published(table, p), p.digest) < KEPT
    ensures !Contains(table, p.digest) ==> NewerThan(Published(table, p), p.digest) == 0
  {
    NewestKeeps(table);
    var newest := Newest(table);
    PutKeeps(newest, p);
    var i, next := IndexOf(newest, p.digest), Put(newest, p);
    assert next[i] == p;
    IndexIs(next, i);
  }

  /** A plan survives the publication of one other digest, always. */
  lemma PublicationSurvivesOne(table: Table, p: Plan, q: Plan)
    requires Unique(table) && |table| <= KEPT + 1 && q.digest != p.digest
    ensures p in Published(Published(table, p), q)
  {
    PublicationEnters(table, p);
    NewestKeeps(table);
    PutKeeps(Newest(table), p);
    NextPublicationEvicts(Published(table, p), p, q);
  }

  /** It need not survive two: publishing a plan again does not renew its place. */
  lemma RepublishedPlanIsEvictedByTwo(table: Table, p: Plan, q: Plan, r: Plan)
    requires Unique(table) && |table| == KEPT && table[0] == p
    requires !Contains(table, q.digest) && r.digest != p.digest
    ensures p !in Published(Published(Published(table, p), q), r)
  {
    IndexIs(table, 0);
    assert Published(table, p) == table;
    assert Published(table, q) == table + [q];
    IndexIs(table + [q], 0);
    NextPublicationEvicts(table + [q], p, r);
  }

  function EventsOf(plans: seq<Plan>): seq<Event> {
    seq(|plans|, i requires 0 <= i < |plans| => Publication(plans[i]))
  }

  lemma OnePublication(plans: seq<Plan>, p: Plan)
    ensures TableAfter(EventsOf(plans + [p])) == Published(TableAfter(EventsOf(plans)), p)
  {
    assert EventsOf(plans + [p]) == EventsOf(plans) + [Publication(p)];
    OneMoreEvent(EventsOf(plans), p);
  }

  lemma OneMoreEvent(events: seq<Event>, p: Plan)
    ensures TableAfter(events + [Publication(p)]) == Published(TableAfter(events), p)
  {
    assert (events + [Publication(p)])[..|events|] == events;
  }

  lemma NewPlanGoesLast(table: Table, p: Plan)
    requires |table| < KEPT && Unique(table + [p])
    ensures Published(table, p) == table + [p] && Unique(table)
  {
    assert (table + [p])[|table|] == p;
    assert forall i :: 0 <= i < |table| ==> (table + [p])[i] == table[i];
    assert !Contains(table, p.digest);
  }

  /** Up to seven different plans fill the table in their order. */
  lemma {:induction false} FirstPlansFillTable(plans: seq<Plan>)
    requires Unique(plans) && |plans| <= KEPT
    ensures TableAfter(EventsOf(plans)) == plans
  {
    if plans != [] {
      var n := |plans| - 1;
      assert plans == plans[..n] + [plans[n]];
      NewPlanGoesLast(plans[..n], plans[n]);
      FirstPlansFillTable(plans[..n]);
      OnePublication(plans[..n], plans[n]);
    }
  }

  /** Seven plans, the first of them again, and two more: from the empty table. */
  lemma SevenAgainAndTwo(plans: seq<Plan>, q: Plan, r: Plan)
    requires Unique(plans) && |plans| == KEPT && !Contains(plans, q.digest) && r.digest != plans[0].digest
    ensures plans[0] !in TableAfter(EventsOf(plans + [plans[0]] + [q] + [r]))
  {
    FirstPlansFillTable(plans);
    OnePublication(plans, plans[0]);
    OnePublication(plans + [plans[0]], q);
    OnePublication(plans + [plans[0]] + [q], r);
    RepublishedPlanIsEvictedByTwo(plans, plans[0], q, r);
  }

  function Numbered(i: nat): Plan { Plan(seq(i, _ => '0'), "") }

  /** A history of ten publications after which the plan published last but two is gone. */
  lemma RepublishedPlanIsLost() returns (plans: seq<Plan>)
    ensures |plans| == 10 && plans[7] == plans[0] && plans[7] !in TableAfter(EventsOf(plans))
    ensures forall i, j :: 0 <= i < j < 10 && plans[i].digest == plans[j].digest ==> i == 0 && j == 7
  {
    var first := seq(KEPT, i requires 0 <= i < KEPT => Numbered(i));
    assert forall i :: 0 <= i < KEPT ==> |first[i].digest| == i;
    assert |Numbered(7).digest| == 7 && |Numbered(8).digest| == 8;
    plans := first + [first[0]] + [Numbered(7)] + [Numbered(8)];
    assert forall i :: 0 <= i < 10 ==> |plans[i].digest| == if i < 7 then i else if i == 7 then 0 else i - 1;
    SevenAgainAndTwo(first, Numbered(7), Numbered(8));
  }

  /** `later` publishes other digests only. */
  predicate OthersPublished(later: seq<Plan>, digest: string) {
    forall q <- later :: q.digest != digest
  }

  function PublishedAll(table: Table, later: seq<Plan>): Table {
    if later == [] then table else Published(PublishedAll(table, later[..|later| - 1]), later[|later| - 1])
  }

  lemma {:induction false} PublishedAllIsSmall(table: Table, later: seq<Plan>)
    requires Unique(table) && |table| <= KEPT + 1
    ensures Unique(PublishedAll(table, later)) && |PublishedAll(table, later)| <= KEPT + 1
  {
    if later != [] {
      var before := PublishedAll(table, later[..|later| - 1]);
      PublishedAllIsSmall(table, later[..|later| - 1]);
      NewestKeeps(before);
      PutKeeps(Newest(before), later[|later| - 1]);
    }
  }

  lemma {:induction false} SurvivesWhile(table: Table, p: Plan, later: seq<Plan>)
    requires Unique(table) && |table| <= KEPT + 1 && p in table
    requires OthersPublished(later, p.digest) && NewerThan(table, p.digest) + |later| <= KEPT
    ensures p in PublishedAll(table, later)
    ensures NewerThan(PublishedAll(table, later), p.digest) <= NewerThan(table, p.digest) + |later|
  {
    if later != [] {
      var n := |later| - 1;
      assert later[n] in later;
      assert forall q <- later[..n] :: q in later;
      SurvivesWhile(table, p, later[..n]);
      PublishedAllIsSmall(table, later[..n]);
      NextPublicationEvicts(PublishedAll(table, later[..n]), p, later[n]);
    }
  }

  /** A digest that was not in the table when it was published survives any seven later
      publications of other digests. */
  lemma FreshPlanSurvivesSeven(table: Table, p: Plan, later: seq<Plan>)
    requires Unique(table) && |table| <= KEPT + 1 && !Contains(table, p.digest)
    requires OthersPublished(later, p.digest) && |later| <= 7
    ensures p in PublishedAll(Published(table, p), later)
  {
    PublicationEnters(table, p);
    NewestKeeps(table);
    PutKeeps(Newest(table), p);
    SurvivesWhile(Published(table, p), p, later);
  }
}
