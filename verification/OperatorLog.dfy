/** The bounded operator log of the mission panel (`airy_mission_panel/src/panel_state.cpp`):
    repeats are merged into the latest entry, and room is made by dropping warnings first. */
module OperatorLog {
  datatype Severity = Warning | Error | Fatal

  datatype Entry = Entry(severity: Severity, stamp: int, moduleName: string, message: string, repeatCount: nat)

  datatype Message = Message(level: nat, stamp: int, moduleName: string, text: string)

  const UNKNOWN := "<unknown>"

  function SeverityOf(level: nat): Severity {
    if level >= 50 then Fatal else if level >= 40 then Error else Warning
  }

  function NameOf(moduleName: string): string { if moduleName == "" then UNKNOWN else moduleName }

  // ------------------------------------------------------------------------ the append

  /** Where the oldest warning is; the length when there is none. */
  function OldestWarning(log: seq<Entry>): (i: nat)
    ensures i <= |log|
    ensures i < |log| ==> log[i].severity.Warning?
    ensures forall k :: 0 <= k < i ==> !log[k].severity.Warning?
  {
    if log == [] || log[0].severity.Warning? then 0 else OldestWarning(log[1..]) + 1
  }

  function RemoveAt(log: seq<Entry>, i: nat): seq<Entry>
    requires i < |log|
  {
    log[..i] + log[i + 1..]
  }

  /** One entry fewer: the oldest warning, or the oldest entry when there is no warning. */
  function DropOne(log: seq<Entry>): (r: seq<Entry>)
    requires log != []
    ensures |r| == |log| - 1
  {
    RemoveAt(log, if OldestWarning(log) < |log| then OldestWarning(log) else 0)
  }

  function Shrunk(log: seq<Entry>, capacity: nat): (r: seq<Entry>)
    ensures |r| <= capacity || r == log
    ensures |r| <= capacity
  {
    if |log| <= capacity then log else Shrunk(DropOne(log), capacity)
  }

  predicate Repeats(latest: Entry, m: Message) {
    latest.severity == SeverityOf(m.level) && latest.moduleName == m.moduleName && latest.message == m.text
  }

  function Pushed(log: seq<Entry>, m: Message): seq<Entry> {
    log + [Entry(SeverityOf(m.level), m.stamp, NameOf(m.moduleName), m.text, 1)]
  }

  function Merged(log: seq<Entry>, m: Message): seq<Entry>
    requires log != []
  {
    var n := |log| - 1;
    log[..n] + [log[n].(stamp := m.stamp, repeatCount := log[n].repeatCount + 1)]
  }

  predicate NoRoom(log: seq<Entry>, m: Message, capacity: nat) {
    |log| == capacity && OldestWarning(log) == |log| && SeverityOf(m.level).Warning?
  }

  function Appended(entries: seq<Entry>, m: Message, capacity: nat): (r: seq<Entry>)
    ensures |r| <= capacity
  {
    if capacity == 0 then []
    else if m.level < 30 then Shrunk(entries, capacity)
    else Recorded(Shrunk(entries, capacity), m, capacity)
  }

  /** A warning or worse arrives at a log that is within the capacity. */
  function Recorded(log: seq<Entry>, m: Message, capacity: nat): (r: seq<Entry>)
    requires |log| <= capacity && capacity > 0
    ensures |r| <= capacity
  {
    if log != [] && Repeats(log[|log| - 1], m) then Merged(log, m)
    else if |log| < capacity then Pushed(log, m)
    else if NoRoom(log, m, capacity) then log
    else Pushed(DropOne(log), m)
  }

  /** Erases the oldest warning, if there is one. */
  method RemoveOldestWarning(log: seq<Entry>) returns (updated: seq<Entry>, removed: bool)
    ensures removed <==> OldestWarning(log) < |log|
    ensures updated == if removed then DropOne(log) else log
    ensures !removed && log != [] ==> log[1..] == DropOne(log)
  {
    var i := 0;
    while i < |log| && !log[i].severity.Warning?
      invariant 0 <= i <= |log|
      invariant forall k :: 0 <= k < i ==> !log[k].severity.Warning?
    {
      i := i + 1;
    }
    if i == |log| {
      return log, false;
    }
    return log[..i] + log[i + 1..], true;
  }

  /** Makes an over-full log fit. */
  method ShrinkToFit(entries: seq<Entry>, capacity: nat) returns (updated: seq<Entry>)
    ensures updated == Shrunk(entries, capacity)
  {
    updated := entries;
    while |updated| > capacity
      invariant Shrunk(updated, capacity) == Shrunk(entries, capacity)
    {
      var removed;
      updated, removed := RemoveOldestWarning(updated);
      if !removed {
        updated := updated[1..];
      }
    }
  }

  method AppendOperatorLog(entries: seq<Entry>, m: Message, capacity: nat) returns (r: seq<Entry>)
    ensures r == Appended(entries, m, capacity)
  {
    if capacity == 0 {
      return [];
    }
    var updated := ShrinkToFit(entries, capacity);
    if m.level < 30 {
      return updated;
    }
    var severity := SeverityOf(m.level);
    if updated != [] {
      var n := |updated| - 1;
      var latest := updated[n];
      if latest.severity == severity && latest.moduleName == m.moduleName && latest.message == m.text {
        return updated[..n] + [latest.(stamp := m.stamp, repeatCount := latest.repeatCount + 1)];
      }
    }
    if |updated| == capacity {
      var removed;
      updated, removed := RemoveOldestWarning(updated);
      if !removed {
        if severity.Warning? {
          return updated;
        }
        updated := updated[1..];
      }
    }
    return updated + [Entry(severity, m.stamp, if m.moduleName == "" then UNKNOWN else m.moduleName, m.text, 1)];
  }

  // ---------------------------------------------------------------- what is remembered

  /** A logged line without its stamp. */
  datatype Line = Line(severity: Severity, moduleName: string, text: string)

  /** Errors and fatal errors on one side, warnings on the other. */
  predicate InClass(s: Severity, important: bool) { s.Warning? <==> !important }

  function Copies(line: Line, n: nat): seq<Line> {
    if n == 0 then [] else Copies(line, n - 1) + [line]
  }

  function LinesOf(e: Entry, important: bool): seq<Line> {
    if InClass(e.severity, important) then Copies(Line(e.severity, e.moduleName, e.message), e.repeatCount) else []
  }

  /** The lines of one class that a log stands for, repeats written out. */
  function Expanded(log: seq<Entry>, important: bool): seq<Line> {
    if log == [] then []
    else Expanded(log[..|log| - 1], important) + LinesOf(log[|log| - 1], important)
  }

  /** What one message contributes to its class. */
  function Incoming(m: Message, important: bool): seq<Line> {
    if m.level >= 30 && InClass(SeverityOf(m.level), important) then
      [Line(SeverityOf(m.level), NameOf(m.moduleName), m.text)]
    else []
  }

  predicate IsSuffix(a: seq<Line>, b: seq<Line>) {
    |a| <= |b| && b[|b| - |a|..] == a
  }

  predicate ValidLog(log: seq<Entry>) {
    forall e <- log :: e.moduleName != ""
  }

  lemma Regroup(a: seq<Line>, b: seq<Line>, c: seq<Line>)
    ensures (a + b) + c == a + (b + c)
  {}

  lemma ExpandedPush(log: seq<Entry>, e: Entry, important: bool)
    ensures Expanded(log + [e], important) == Expanded(log, important) + LinesOf(e, important)
  {
    assert (log + [e])[..|log|] == log;
  }

  lemma {:induction false} ExpandedConcat(a: seq<Entry>, b: seq<Entry>, important: bool)
    ensures Expanded(a + b, important) == Expanded(a, important) + Expanded(b, important)
  {
    if b == [] {
      assert a + b == a;
    } else {
      var n := |b| - 1;
      ExpandedConcat(a, b[..n], important);
      assert a + b == (a + b[..n]) + [b[n]];
      ExpandedPush(a + b[..n], b[n], important);
      Regroup(Expanded(a, important), Expanded(b[..n], important), LinesOf(b[n], important));
    }
  }

  lemma ExpandedSplit(log: seq<Entry>, i: nat, important: bool)
    requires i < |log|
    ensures
      Expanded(log, important)
      == Expanded(log[..i], important) + LinesOf(log[i], important) + Expanded(log[i + 1..], important)
  {
    ExpandedPush(log[..i], log[i], important);
    ExpandedConcat(log[..i] + [log[i]], log[i + 1..], important);
    assert log == log[..i] + [log[i]] + log[i + 1..];
  }

  lemma {:induction false} NoneOfClass(log: seq<Entry>, important: bool)
    requires forall e <- log :: !InClass(e.severity, important)
    ensures Expanded(log, important) == []
  {
    if log != [] {
      assert log[|log| - 1] in log;
      NoneOfClass(log[..|log| - 1], important);
    }
  }

  lemma SuffixOfSuffix(a: seq<Line>, b: seq<Line>, c: seq<Line>)
    requires IsSuffix(a, b) && IsSuffix(b, c)
    ensures IsSuffix(a, c)
  {
    assert a == c[|c| - |b|..][|b| - |a|..];
  }

  lemma SuffixExtends(a: seq<Line>, b: seq<Line>, tail: seq<Line>)
    requires IsSuffix(a, b)
    ensures IsSuffix(a + tail, b + tail)
  {
    assert b == b[..|b| - |a|] + a;
    assert b + tail == b[..|b| - |a|] + (a + tail);
  }

  lemma SuffixWithoutMiddle(front: seq<Line>, gone: seq<Line>, back: seq<Line>)
    requires gone == [] || front == []
    ensures IsSuffix(front + back, front + gone + back)
    ensures gone == [] ==> front + back == front + gone + back
  {
    if gone == [] {
      assert front + gone == front;
    } else {
      assert front + back == back && front + gone == gone;
    }
  }

  /** Dropping an entry takes lines off the front of its class and leaves the other alone. */
  lemma DropOneKeepsSuffix(log: seq<Entry>, important: bool)
    requires log != []
    ensures IsSuffix(Expanded(DropOne(log), important), Expanded(log, important))
    ensures important && OldestWarning(log) < |log| ==> Expanded(DropOne(log), important) == Expanded(log, important)
  {
    var i := if OldestWarning(log) < |log| then OldestWarning(log) else 0;
    ExpandedSplit(log, i, important);
    ExpandedConcat(log[..i], log[i + 1..], important);
    NothingBefore(log, i, important);
    SuffixWithoutMiddle(Expanded(log[..i], important), LinesOf(log[i], important), Expanded(log[i + 1..], important));
  }

  lemma NothingBefore(log: seq<Entry>, i: nat, important: bool)
    requires i < |log| && (i == 0 || i == OldestWarning(log))
    ensures LinesOf(log[i], important) == [] || Expanded(log[..i], important) == []
  {
    if InClass(log[i].severity, important) {
      NoneOfClass(log[..i], important);
    }
  }

  lemma {:induction false} ShrunkKeepsSuffix(log: seq<Entry>, capacity: nat, important: bool)
    ensures IsSuffix(Expanded(Shrunk(log, capacity), important), Expanded(log, important))
    decreases |log|
  {
    if |log| > capacity {
      DropOneKeepsSuffix(log, important);
      ShrunkKeepsSuffix(DropOne(log), capacity, important);
      SuffixOfSuffix(
        Expanded(Shrunk(log, capacity), important), Expanded(DropOne(log), important), Expanded(log, important));
    }
  }

  lemma RepeatedLine(e: Entry, m: Message, important: bool)
    requires e.moduleName != "" && m.level >= 30 && Repeats(e, m)
    ensures
      LinesOf(e.(stamp := m.stamp, repeatCount := e.repeatCount + 1), important)
      == LinesOf(e, important) + Incoming(m, important)
  {}

  lemma MergedAddsLine(log: seq<Entry>, m: Message, important: bool)
    requires log != [] && ValidLog(log) && m.level >= 30 && Repeats(log[|log| - 1], m)
    ensures Expanded(Merged(log, m), important) == Expanded(log, important) + Incoming(m, important)
  {
    var n := |log| - 1;
    var latest := log[n];
    assert latest in log;
    RepeatedLine(latest, m, important);
    var next := latest.(stamp := m.stamp, repeatCount := latest.repeatCount + 1);
    LongerLast(log[..n], latest, next, Incoming(m, important), important);
    assert log == log[..n] + [latest];
  }

  lemma LongerLast(front: seq<Entry>, e: Entry, next: Entry, more: seq<Line>, important: bool)
    requires LinesOf(next, important) == LinesOf(e, important) + more
    ensures Expanded(front + [next], important) == Expanded(front + [e], important) + more
  {
    ExpandedPush(front, next, important);
    ExpandedPush(front, e, important);
    Regroup(Expanded(front, important), LinesOf(e, important), more);
  }

  lemma NewLine(m: Message, important: bool)
    requires m.level >= 30
    ensures
      LinesOf(Entry(SeverityOf(m.level), m.stamp, NameOf(m.moduleName), m.text, 1), important) == Incoming(m, important)
  {
    var line := Line(SeverityOf(m.level), NameOf(m.moduleName), m.text);
    assert Copies(line, 1) == Copies(line, 0) + [line];
  }

  lemma PushedAddsLine(log: seq<Entry>, m: Message, important: bool)
    requires m.level >= 30
    ensures Expanded(Pushed(log, m), important) == Expanded(log, important) + Incoming(m, important)
  {
    ExpandedPush(log, Entry(SeverityOf(m.level), m.stamp, NameOf(m.moduleName), m.text, 1), important);
    NewLine(m, important);
  }

  lemma WarningsAreUnimportant(log: seq<Entry>, m: Message, capacity: nat, important: bool)
    requires NoRoom(log, m, capacity)
    ensures IsSuffix(Expanded(log, important), Expanded(log, important) + Incoming(m, important))
  {
    var kept := Expanded(log, important);
    if important {
      assert kept + [] == kept;
    } else {
      NoneOfClass(log, important);
    }
  }

  lemma RecordedKeepsSuffix(log: seq<Entry>, m: Message, capacity: nat, important: bool)
    requires ValidLog(log) && |log| <= capacity && capacity > 0 && m.level >= 30
    ensures IsSuffix(Expanded(Recorded(log, m, capacity), important), Expanded(log, important) + Incoming(m, important))
  {
    if log != [] && Repeats(log[|log| - 1], m) {
      MergedAddsLine(log, m, important);
    } else if |log| < capacity {
      PushedAddsLine(log, m, important);
    } else if NoRoom(log, m, capacity) {
      WarningsAreUnimportant(log, m, capacity, important);
    } else {
      DropOneKeepsSuffix(log, important);
      PushedAddsLine(DropOne(log), m, important);
      SuffixExtends(Expanded(DropOne(log), important), Expanded(log, important), Incoming(m, important));
    }
  }

  /** One append keeps a suffix of what the log stood for plus the new line. */
  lemma AppendedKeepsSuffix(entries: seq<Entry>, m: Message, capacity: nat, important: bool)
    requires ValidLog(entries)
    ensures
      IsSuffix(
        Expanded(Appended(entries, m, capacity), important), Expanded(entries, important) + Incoming(m, important))
  {
    var log, line := Shrunk(entries, capacity), Incoming(m, important);
    ShrunkKeepsSuffix(entries, capacity, important);
    ShrunkIsValid(entries, capacity);
    SuffixExtends(Expanded(log, important), Expanded(entries, important), line);
    if capacity > 0 {
      if m.level >= 30 {
        RecordedKeepsSuffix(log, m, capacity, important);
        SuffixOfSuffix(
          Expanded(Recorded(log, m, capacity), important),
          Expanded(log, important) + line,
          Expanded(entries, important) + line);
      } else {
        assert Expanded(entries, important) + [] == Expanded(entries, important);
      }
    }
  }

  lemma {:induction false} ShrunkIsValid(log: seq<Entry>, capacity: nat)
    requires ValidLog(log)
    ensures ValidLog(Shrunk(log, capacity))
    decreases |log|
  {
    if |log| > capacity {
      DropOneIsValid(log);
      ShrunkIsValid(DropOne(log), capacity);
    }
  }

  lemma DropOneIsValid(log: seq<Entry>)
    requires log != [] && ValidLog(log)
    ensures ValidLog(DropOne(log))
  {
    var i := if OldestWarning(log) < |log| then OldestWarning(log) else 0;
    forall k | 0 <= k < |DropOne(log)|
      ensures DropOne(log)[k] in log
    {
      assert DropOne(log)[k] == if k < i then log[k] else log[k + 1];
    }
  }

  lemma AppendedIsValid(entries: seq<Entry>, m: Message, capacity: nat)
    requires ValidLog(entries)
    ensures ValidLog(Appended(entries, m, capacity))
  {
    if capacity > 0 {
      var log := Shrunk(entries, capacity);
      ShrunkIsValid(entries, capacity);
      if log != [] {
        DropOneIsValid(log);
        assert log[|log| - 1] in log;
      }
    }
  }

  /** The entry carries the message, under a name that is never empty. */
  predicate Carries(e: Entry, m: Message) {
    && (e.severity == Fatal <==> m.level >= 50) && (e.severity == Warning <==> m.level < 40)
    && e.message == m.text && e.stamp == m.stamp
    && e.moduleName == if m.moduleName == "" then "<unknown>" else m.moduleName
  }

  lemma PushedCarries(log: seq<Entry>, m: Message)
    ensures Carries(Pushed(log, m)[|log|], m)
  {}

  lemma MergedCarries(log: seq<Entry>, m: Message)
    requires log != [] && Repeats(log[|log| - 1], m) && log[|log| - 1].moduleName != ""
    ensures |Merged(log, m)| == |log| && Carries(Merged(log, m)[|log| - 1], m)
  {}

  /** Unless a warning finds no room, the latest entry afterwards is the message: its severity,
      text and stamp, under a name that is never empty. */
  lemma LatestEntryIsTheMessage(entries: seq<Entry>, m: Message, capacity: nat)
    requires ValidLog(entries) && capacity > 0 && m.level >= 30
    requires !NoRoom(Shrunk(entries, capacity), m, capacity)
    ensures Appended(entries, m, capacity) != []
    ensures Carries(Appended(entries, m, capacity)[|Appended(entries, m, capacity)| - 1], m)
  {
    var log := Shrunk(entries, capacity);
    ShrunkIsValid(entries, capacity);
    if log != [] && Repeats(log[|log| - 1], m) {
      assert log[|log| - 1] in log;
      MergedCarries(log, m);
    } else if |log| < capacity {
      PushedCarries(log, m);
    } else {
      PushedCarries(DropOne(log), m);
    }
  }

  /** A message that was just recorded is merged when it repeats exactly if it names its
      module: a nameless one is filed under another name than it is compared with. */
  lemma RepeatMergesIffNamed(entries: seq<Entry>, m: Message, capacity: nat)
    requires capacity > 0 && m.level >= 30 && !NoRoom(Shrunk(entries, capacity), m, capacity)
    requires Shrunk(entries, capacity) == [] || !Repeats(Shrunk(entries, capacity)[|Shrunk(entries, capacity)| - 1], m)
    ensures
      var once := Appended(entries, m, capacity);
      once != [] && (Repeats(once[|once| - 1], m) <==> m.moduleName != "")
  {}

  // -------------------------------------------------------------------- whole streams

  /** A message and the capacity it was appended with. */
  datatype Arrival = Arrival(m: Message, capacity: nat)

  function LogAfter(arrivals: seq<Arrival>): seq<Entry> {
    if arrivals == [] then []
    else
      var n := |arrivals| - 1;
      Appended(LogAfter(arrivals[..n]), arrivals[n].m, arrivals[n].capacity)
  }

  function Stream(arrivals: seq<Arrival>, important: bool): seq<Line> {
    if arrivals == [] then []
    else
      var n := |arrivals| - 1;
      Stream(arrivals[..n], important) + Incoming(arrivals[n].m, important)
  }

  lemma {:induction false} LogIsValid(arrivals: seq<Arrival>)
    ensures ValidLog(LogAfter(arrivals))
  {
    if arrivals != [] {
      var n := |arrivals| - 1;
      LogIsValid(arrivals[..n]);
      AppendedIsValid(LogAfter(arrivals[..n]), arrivals[n].m, arrivals[n].capacity);
    }
  }

  /** For every stream of messages and whatever the capacities: the log is never larger than
      the last capacity, and what it keeps of the errors, and of the warnings, is the end of
      what arrived of them, with no hole and nothing out of order. */
  lemma {:induction false} LogKeepsTheLatest(arrivals: seq<Arrival>, important: bool)
    ensures arrivals != [] ==> |LogAfter(arrivals)| <= arrivals[|arrivals| - 1].capacity
    ensures IsSuffix(Expanded(LogAfter(arrivals), important), Stream(arrivals, important))
  {
    if arrivals != [] {
      var n := |arrivals| - 1;
      var before := LogAfter(arrivals[..n]);
      LogKeepsTheLatest(arrivals[..n], important);
      LogIsValid(arrivals[..n]);
      AppendedKeepsSuffix(before, arrivals[n].m, arrivals[n].capacity, important);
      var line := Incoming(arrivals[n].m, important);
      SuffixExtends(Expanded(before, important), Stream(arrivals[..n], important), line);
      SuffixOfSuffix(
        Expanded(LogAfter(arrivals), important), Expanded(before, important) + line, Stream(arrivals, important));
    }
  }

  predicate FixedCapacity(arrivals: seq<Arrival>, capacity: nat) {
    forall a <- arrivals :: a.capacity == capacity
  }

  /** No error is lost while the log has room or a warning to give up. */
  predicate RoomForErrors(log: seq<Entry>, capacity: nat) {
    |log| < capacity || OldestWarning(log) < |log|
  }

  predicate NoWarning(log: seq<Entry>) {
    forall e <- log :: !e.severity.Warning?
  }

  lemma NoWarningMeans(log: seq<Entry>)
    ensures NoWarning(log) <==> OldestWarning(log) == |log|
  {
    if OldestWarning(log) < |log| {
      assert log[OldestWarning(log)] in log;
    }
  }

  lemma RecordedHasNoWarning(log: seq<Entry>, m: Message, capacity: nat)
    requires |log| == capacity > 0 && NoWarning(log)
    ensures |Recorded(log, m, capacity)| == capacity && NoWarning(Recorded(log, m, capacity))
  {
    NoWarningMeans(log);
    if Repeats(log[|log| - 1], m) {
      assert log[|log| - 1] in log;
    } else if !SeverityOf(m.level).Warning? {
      assert DropOne(log) == log[1..];
    }
  }

  /** A log full of errors stays full of errors. */
  lemma FullOfErrorsStays(entries: seq<Entry>, m: Message, capacity: nat)
    requires |entries| == capacity > 0 && OldestWarning(entries) == |entries|
    ensures !RoomForErrors(Appended(entries, m, capacity), capacity)
  {
    NoWarningMeans(entries);
    if m.level >= 30 {
      RecordedHasNoWarning(entries, m, capacity);
    }
    NoWarningMeans(Appended(entries, m, capacity));
  }

  lemma RecordedLosesNothing(log: seq<Entry>, m: Message, capacity: nat)
    requires ValidLog(log) && |log| <= capacity && capacity > 0 && m.level >= 30
    requires RoomForErrors(log, capacity)
    ensures Expanded(Recorded(log, m, capacity), true) == Expanded(log, true) + Incoming(m, true)
  {
    if log != [] && Repeats(log[|log| - 1], m) {
      MergedAddsLine(log, m, true);
    } else if |log| < capacity {
      PushedAddsLine(log, m, true);
    } else {
      DropOneKeepsSuffix(log, true);
      PushedAddsLine(DropOne(log), m, true);
    }
  }

  /** An append that finds room for errors loses none. */
  lemma RoomLosesNothing(entries: seq<Entry>, m: Message, capacity: nat)
    requires ValidLog(entries) && |entries| <= capacity && capacity > 0
    requires RoomForErrors(entries, capacity)
    ensures Expanded(Appended(entries, m, capacity), true) == Expanded(entries, true) + Incoming(m, true)
  {
    if m.level >= 30 {
      RecordedLosesNothing(entries, m, capacity);
    } else {
      assert Expanded(entries, true) + [] == Expanded(entries, true);
    }
  }

  /** With a fixed positive capacity, as long as a warning is retained or the log is not full,
      every error that ever arrived is still there. */
  lemma {:induction false} ErrorsOutliveWarnings(arrivals: seq<Arrival>, capacity: nat)
    requires capacity > 0 && FixedCapacity(arrivals, capacity)
    requires RoomForErrors(LogAfter(arrivals), capacity)
    ensures Expanded(LogAfter(arrivals), true) == Stream(arrivals, true)
  {
    if arrivals != [] {
      var n := |arrivals| - 1;
      assert arrivals[n] in arrivals;
      assert forall a <- arrivals[..n] :: a in arrivals;
      LogKeepsTheLatest(arrivals[..n], true);
      if n > 0 {
        assert arrivals[..n][n - 1] in arrivals[..n];
      }
      LogIsValid(arrivals[..n]);
      if !RoomForErrors(LogAfter(arrivals[..n]), capacity) {
        FullOfErrorsStays(LogAfter(arrivals[..n]), arrivals[n].m, capacity);
        assert false;
      }
      RoomLosesNothing(LogAfter(arrivals[..n]), arrivals[n].m, capacity);
      ErrorsOutliveWarnings(arrivals[..n], capacity);
    }
  }
}
