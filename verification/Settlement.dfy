/**
 Settling one test child: its report and its event log are checked by two
 independent implementations, and a child that did not settle leaves whatever
 its log proves.
 */
module Settlement {
  import opened Wrappers
  import opened TestStatus

  /** A dotted name, as its components; `g < x` says that `g` is a dotted ancestor of `x`. */
  type Id = seq<nat>

  datatype Level = OfClass | OfModule

  /** Who an event is about: a test, or a fixture named after a class or module. */
  datatype Holder = Test(id: Id) | SetUp(level: Level, name: Id) | TearDown(level: Level, name: Id) | Stranger(tag: nat)

  datatype Event = Event(holder: Holder, actual: Status)

  datatype Outcome = Outcome(id: Id, actual: Status)

  datatype Report = Report(ids: seq<Id>, results: seq<Outcome>, testsRun: int, successful: bool, fixtureSkips: seq<Id>)

  // ---------------------------------------------------------------- the independent reconstruction

  /** `fixtures` keeps, in order, each skipped fixture with the selected ids under it. */
  datatype Native = Native(states: map<Id, Status>, fixtures: seq<(Holder, seq<Id>)>)

  const NO_EVENTS: Native := Native(map[], [])

  function Under(selected: seq<Id>, name: Id): seq<Id> {
    if selected == [] then []
    else (if name < selected[0] then [selected[0]] else []) + Under(selected[1..], name)
  }

  predicate HasFixture(n: Native, h: Holder) {
    exists i :: 0 <= i < |n.fixtures| && n.fixtures[i].0 == h
  }

  function NativeStep(selected: seq<Id>, n: Native, e: Event): Option<Native> {
    if e.holder.Test? && e.holder.id in selected then
      if (if e.actual == Started then e.holder.id !in n.states
          else Ended(e.actual) && e.holder.id in n.states && n.states[e.holder.id] == Started)
      then Some(n.(states := n.states[e.holder.id := e.actual])) else None
    else if e.holder.SetUp? && e.actual == Skip && !HasFixture(n, e.holder) && Under(selected, e.holder.name) != []
    then Some(n.(fixtures := n.fixtures + [(e.holder, Under(selected, e.holder.name))]))
    else None
  }

  function NativeFold(selected: seq<Id>, events: seq<Event>): Option<Native>
    decreases |events|
  {
    if events == [] then Some(NO_EVENTS)
    else
      var before := NativeFold(selected, events[..|events| - 1]);
      if before.None? then None else NativeStep(selected, before.value, events[|events| - 1])
  }

  function Flatten(fixtures: seq<(Holder, seq<Id>)>): seq<Id>
    decreases |fixtures|
  {
    if fixtures == [] then [] else Flatten(fixtures[..|fixtures| - 1]) + fixtures[|fixtures| - 1].1
  }

  /** What the row of a selected test has to say. */
  function ObservedOf(n: Native, id: Id): Status
    requires id in Flatten(n.fixtures) || id in n.states
  {
    if id in Flatten(n.fixtures) then Skip else n.states[id]
  }

  predicate Settles(selected: seq<Id>, report: Report, n: Native) {
    var skipped := Flatten(n.fixtures);
    && |Elements(skipped)| == |skipped| && Elements(skipped) == Elements(report.fixtureSkips)
    && report.testsRun == |n.states|
    && (forall id :: id in selected ==>
          if id in skipped then id !in n.states else id in n.states && (n.states[id] == Pass || n.states[id] == Skip))
    && |report.results| == |selected|
    && forall i :: 0 <= i < |selected| ==>
         && (selected[i] in skipped || selected[i] in n.states)
         && report.results[i] == Outcome(selected[i], ObservedOf(n, selected[i]))
  }

  predicate NativeAccepts(selected: seq<Id>, report: Report, events: seq<Event>) {
    NativeFold(selected, events).Some? && Settles(selected, report, NativeFold(selected, events).value)
  }

  /** `native_events` as it runs. */
  method NativeEvents(selected: seq<Id>, report: Report, events: seq<Event>) returns (ok: bool)
    ensures ok <==> NativeAccepts(selected, report, events)
  {
    var n := NO_EVENTS;
    var i := 0;
    while i < |events|
      invariant 0 <= i <= |events| && NativeFold(selected, events[..i]) == Some(n)
    {
      assert events[..i + 1][..i] == events[..i];
      var next := NativeStep(selected, n, events[i]);
      if next.None? {
        NativeRefused(selected, events, i + 1);
        return false;
      }
      n := next.value;
      i := i + 1;
    }
    assert events[..i] == events;
    ok := Settles(selected, report, n);
  }

  lemma {:induction false} NativeRefused(selected: seq<Id>, events: seq<Event>, i: nat)
    requires i <= |events| && NativeFold(selected, events[..i]).None?
    ensures NativeFold(selected, events).None?
    decreases |events| - i
  {
    if i == |events| {
      assert events[..i] == events;
    } else {
      assert events[..i + 1][..i] == events[..i];
      NativeRefused(selected, events, i + 1);
    }
  }

  // ---------------------------------------------------------------- the settlement check of the router

  /** The ids that some STARTED event names, in order of the log. */
  function Starts(events: seq<Event>): seq<Holder>
    decreases |events|
  {
    if events == [] then []
    else Starts(events[..|events| - 1]) + if events[|events| - 1].actual == Started then [events[|events| - 1].holder] else []
  }

  /** The module or class fixture that carries a test, by its exact name. */
  predicate ExactFixture(events: seq<Event>, id: Id) {
    && id != []
    && (|| Event(SetUp(OfModule, id[..1]), Skip) in events
        || Event(SetUp(OfClass, if |id| == 1 then id else id[..|id| - 1]), Skip) in events)
  }

  predicate Observed(report: Report, events: seq<Event>, row: Outcome) {
    && (|| Event(Test(row.id), row.actual) in events
        || (row.actual == Skip && row.id in report.fixtureSkips && ExactFixture(events, row.id))
        || (row.actual == Error && Test(row.id) !in Starts(events)))
    && (row.actual == Pass ==> Test(row.id) in Starts(events))
  }

  predicate Reconciles(expected: seq<Id>, report: Report, exit: int, events: seq<Event>) {
    var success := forall r :: r in report.results ==> r.actual == Pass || r.actual == Skip;
    && report.ids == expected && |Elements(expected)| == |expected|
    && |report.results| == |expected|
    && (forall i :: 0 <= i < |expected| ==> report.results[i].id == expected[i])
    && (forall r :: r in report.results ==> Ended(r.actual))
    && report.successful == success
    && 0 <= report.testsRun <= |expected|
    && |Elements(report.fixtureSkips)| == |report.fixtureSkips|
    && (forall id :: id in report.fixtureSkips ==> Outcome(id, Skip) in report.results)
    && (success ==> report.testsRun + |report.fixtureSkips| == |expected|)
    && exit == (if success then 0 else 1)
    && |Elements(Starts(events))| == |Starts(events)| == report.testsRun
    && (forall h :: h in Starts(events) ==> h.Test? && h.id in expected)
    && (forall r :: r in report.results ==> Observed(report, events, r))
  }

  // ---------------------------------------------------------------- what an accepted log looks like

  /** The statuses the log reports for one test, in order. */
  function EventsOf(events: seq<Event>, id: Id): seq<Status>
    decreases |events|
  {
    if events == [] then []
    else
      var last := events[|events| - 1];
      EventsOf(events[..|events| - 1], id) + if last.holder == Test(id) then [last.actual] else []
  }

  /** What a fold state says about the events of one test. */
  ghost predicate Tells(n: Native, events: seq<Event>, id: Id) {
    if id !in n.states then EventsOf(events, id) == []
    else if n.states[id] == Started then EventsOf(events, id) == [Started]
    else EventsOf(events, id) == [Started, n.states[id]]
  }

  lemma {:induction false} FoldTells(selected: seq<Id>, events: seq<Event>, id: Id)
    requires NativeFold(selected, events).Some? && id in selected
    ensures Tells(NativeFold(selected, events).value, events, id)
    decreases |events|
  {
    if events != [] {
      FoldTells(selected, events[..|events| - 1], id);
    }
  }

  /** An accepted log has, for every selected test, exactly STARTED and then PASS
      or SKIP, or no event at all and a skipped fixture above it. */
  lemma NativeShape(selected: seq<Id>, report: Report, events: seq<Event>, id: Id)
    requires NativeAccepts(selected, report, events) && id in selected
    ensures
      if id in report.fixtureSkips then EventsOf(events, id) == [] && Outcome(id, Skip) in report.results
      else || (EventsOf(events, id) == [Started, Pass] && Outcome(id, Pass) in report.results)
           || (EventsOf(events, id) == [Started, Skip] && Outcome(id, Skip) in report.results)
  {
    var n := NativeFold(selected, events).value;
    FoldTells(selected, events, id);
    assert id in report.fixtureSkips <==> id in Flatten(n.fixtures) by {
      assert id in Elements(report.fixtureSkips) <==> id in Elements(Flatten(n.fixtures));
    }
    var i :| 0 <= i < |selected| && selected[i] == id;
    assert report.results[i] == Outcome(id, ObservedOf(n, id));
  }

  lemma {:induction false} FoldStarts(selected: seq<Id>, events: seq<Event>)
    requires NativeFold(selected, events).Some?
    ensures
      var n := NativeFold(selected, events).value;
      && NoDup(Starts(events)) && |Starts(events)| == |n.states|
      && (forall h :: h in Starts(events) ==> h.Test? && h.id in n.states)
      && (forall id :: id in n.states ==> id in selected && Test(id) in Starts(events))
    decreases |events|
  {
    if events != [] {
      var before, last := events[..|events| - 1], events[|events| - 1];
      FoldStarts(selected, before);
      var n := NativeFold(selected, before).value;
      if last.actual == Started {
        assert last.holder !in Starts(before);
        assert |n.states[last.holder.id := Started]| == |n.states| + 1;
      } else if last.holder.Test? {
        assert n.states[last.holder.id := last.actual].Keys == n.states.Keys;
        assert |n.states[last.holder.id := last.actual].Keys| == |n.states.Keys|;
      }
    }
  }

  lemma {:induction false} EventsOfHolds(events: seq<Event>, id: Id, actual: Status)
    ensures actual in EventsOf(events, id) <==> Event(Test(id), actual) in events
    decreases |events|
  {
    if events != [] {
      var before, last := events[..|events| - 1], events[|events| - 1];
      EventsOfHolds(before, id, actual);
      assert events == before + [last];
      assert Event(Test(id), actual) in events <==> Event(Test(id), actual) in before || last == Event(Test(id), actual);
    }
  }

  lemma {:induction false} StartsHold(events: seq<Event>, id: Id)
    ensures Test(id) in Starts(events) <==> Event(Test(id), Started) in events
    decreases |events|
  {
    if events != [] {
      var before, last := events[..|events| - 1], events[|events| - 1];
      StartsHold(before, id);
      assert events == before + [last];
    }
  }

  lemma {:induction false} UnderSelected(selected: seq<Id>, name: Id)
    ensures forall id :: id in Under(selected, name) ==> id in selected
  {
    if selected != [] {
      UnderSelected(selected[1..], name);
    }
  }

  lemma {:induction false} FixturesSelected(selected: seq<Id>, events: seq<Event>)
    requires NativeFold(selected, events).Some?
    ensures forall id :: id in Flatten(NativeFold(selected, events).value.fixtures) ==> id in selected
    decreases |events|
  {
    if events != [] {
      var before, last := events[..|events| - 1], events[|events| - 1];
      FixturesSelected(selected, before);
      var n, next := NativeFold(selected, before).value, NativeFold(selected, events).value;
      if next.fixtures != n.fixtures {
        UnderSelected(selected, last.holder.name);
        assert next.fixtures[..|n.fixtures|] == n.fixtures;
      }
    }
  }

  /** Every selected test either started or was skipped with its fixture. */
  lemma NativeCounts(selected: seq<Id>, report: Report, events: seq<Event>)
    requires NativeAccepts(selected, report, events) && NoDup(selected)
    ensures report.testsRun + |Elements(report.fixtureSkips)| == |selected|
    ensures report.testsRun == |Starts(events)| && NoDup(Starts(events))
    ensures forall h :: h in Starts(events) ==> h.Test? && h.id in selected
    ensures forall id :: id in report.fixtureSkips ==> id in selected
  {
    var n := NativeFold(selected, events).value;
    FoldStarts(selected, events);
    FixturesSelected(selected, events);
    NoDupCardinality(selected);
    assert forall id :: id in report.fixtureSkips <==> id in Elements(Flatten(n.fixtures)) by {
      assert forall id :: id in report.fixtureSkips <==> id in Elements(report.fixtureSkips);
    }
    assert Elements(selected) == n.states.Keys + Elements(report.fixtureSkips);
    assert n.states.Keys !! Elements(report.fixtureSkips);
    assert |n.states| == |n.states.Keys|;
  }

  ghost predicate ExactlyNamed(report: Report, events: seq<Event>) {
    NoDup(report.fixtureSkips) && forall id :: id in report.fixtureSkips ==> ExactFixture(events, id)
  }

  /** Every row the reconstruction accepts is observed in the sense of the router,
      except that a fixture-skipped row needs its fixture's exact name. */
  lemma RowObserved(selected: seq<Id>, report: Report, events: seq<Event>, i: nat)
    requires NativeAccepts(selected, report, events) && NoDup(selected) && i < |selected|
    ensures
      && (report.results[i].actual == Pass || report.results[i].actual == Skip) && report.results[i].id == selected[i]
      && (selected[i] in report.fixtureSkips ==>
            && report.results[i].actual == Skip
            && (Observed(report, events, report.results[i]) <==> ExactFixture(events, selected[i])))
      && (selected[i] !in report.fixtureSkips ==> Observed(report, events, report.results[i]))
  {
    var id, n := selected[i], NativeFold(selected, events).value;
    FoldTells(selected, events, id);
    assert id in report.fixtureSkips <==> id in Flatten(n.fixtures) by {
      assert id in Elements(report.fixtureSkips) <==> id in Elements(Flatten(n.fixtures));
    }
    EventsOfHolds(events, id, report.results[i].actual);
    EventsOfHolds(events, id, Started);
    StartsHold(events, id);
  }

  /** The two implementations agree on a passing child exactly when its list of
      fixture skips repeats no id and every skipped test's fixture event carries the
      exact name of its module or class; an ancestor in between, which the
      reconstruction accepts, is refused by the router. */
  lemma ImplementationsAgreeExactly(selected: seq<Id>, report: Report, events: seq<Event>)
    requires NativeAccepts(selected, report, events) && NoDup(selected)
    requires report.ids == selected && report.successful
    ensures Reconciles(selected, report, 0, events) <==> ExactlyNamed(report, events)
  {
    NativeCounts(selected, report, events);
    NoDupCardinality(selected);
    NoDupCardinality(Starts(events));
    forall i | 0 <= i < |selected| ensures RowFacts(selected, report, events, i) {
      RowObserved(selected, report, events, i);
    }
    RowsPass(selected, report, events);
    if ExactlyNamed(report, events) {
      NoDupCardinality(report.fixtureSkips);
      forall r | r in report.results ensures Observed(report, events, r) {
        var i :| 0 <= i < |report.results| && report.results[i] == r;
        assert RowFacts(selected, report, events, i);
      }
    }
    if Reconciles(selected, report, 0, events) {
      CardinalityNoDup(report.fixtureSkips);
      forall id | id in report.fixtureSkips ensures ExactFixture(events, id) {
        var i :| 0 <= i < |selected| && selected[i] == id;
        assert RowFacts(selected, report, events, i);
        assert report.results[i] in report.results;
      }
    }
  }

  ghost predicate RowFacts(selected: seq<Id>, report: Report, events: seq<Event>, i: int)
    requires 0 <= i < |selected| == |report.results|
  {
    && (report.results[i].actual == Pass || report.results[i].actual == Skip) && report.results[i].id == selected[i]
    && (selected[i] in report.fixtureSkips ==>
          && report.results[i].actual == Skip
          && (Observed(report, events, report.results[i]) <==> ExactFixture(events, selected[i])))
    && (selected[i] !in report.fixtureSkips ==> Observed(report, events, report.results[i]))
  }

  lemma RowsPass(selected: seq<Id>, report: Report, events: seq<Event>)
    requires |selected| == |report.results|
    requires forall i :: 0 <= i < |selected| ==> RowFacts(selected, report, events, i)
    requires forall id :: id in report.fixtureSkips ==> id in selected
    ensures forall r :: r in report.results ==> r.actual == Pass || r.actual == Skip
    ensures forall id :: id in report.fixtureSkips ==> Outcome(id, Skip) in report.results
    ensures forall i :: 0 <= i < |selected| ==> report.results[i].id == selected[i]
  {
    forall id | id in report.fixtureSkips ensures Outcome(id, Skip) in report.results {
      var i :| 0 <= i < |selected| && selected[i] == id;
      assert RowFacts(selected, report, events, i) && report.results[i] == Outcome(id, Skip);
    }
    forall r | r in report.results ensures r.actual == Pass || r.actual == Skip {
      var i :| 0 <= i < |report.results| && report.results[i] == r;
      assert RowFacts(selected, report, events, i);
    }
    forall i | 0 <= i < |selected| ensures report.results[i].id == selected[i] {
      assert RowFacts(selected, report, events, i);
    }
  }

  // ---------------------------------------------------------------- children that did not settle

  datatype Row = Row(id: Id, portable: bool, executed: bool, actual: Mark)

  datatype Mark = NotRun | Unavailable | Marked(status: Status)

  /** A portable row's id is one the child was asked to run. */
  predicate Asked(rows: seq<Row>, id: Id) {
    exists i :: 0 <= i < |rows| && rows[i].portable && rows[i].id == id
  }

  predicate Adverse(s: Status) {
    s == Fail || s == Error
  }

  function ProgressStep(rows: seq<Row>, states: map<Id, Status>, e: Event): Option<map<Id, Status>> {
    if !(e.holder.Test? && Asked(rows, e.holder.id)) then
      if (e.holder.SetUp? || e.holder.TearDown?) && (e.actual == Error || e.actual == Skip) then Some(states) else None
    else
      var id := e.holder.id;
      if e.actual == Started then if id in states then None else Some(states[id := Started])
      else if Ended(e.actual) && id in states && (states[id] == Started || (Adverse(states[id]) && Adverse(e.actual)))
      then Some(states[id := e.actual])
      else None
  }

  function ProgressFold(rows: seq<Row>, events: seq<Event>): Option<map<Id, Status>>
    decreases |events|
  {
    if events == [] then Some(map[])
    else
      var before := ProgressFold(rows, events[..|events| - 1]);
      if before.None? then None else ProgressStep(rows, before.value, events[|events| - 1])
  }

  /** A test that started and never finished is an error. */
  function Updated(row: Row, states: map<Id, Status>): Row {
    if row.id !in states then row
    else row.(executed := true, actual := Marked(if states[row.id] == Started then Error else states[row.id]))
  }

  /** `partial_progress`: the whole log is checked before any row is touched. */
  method PartialProgress(rows: array<Row>, events: seq<Event>) returns (ok: bool)
    modifies rows
    ensures ok <==> ProgressFold(old(rows[..]), events).Some?
    ensures !ok ==> rows[..] == old(rows[..])
    ensures ok ==> forall i :: 0 <= i < rows.Length ==> rows[i] == Updated(old(rows[i]), ProgressFold(old(rows[..]), events).value)
  {
    var states: map<Id, Status> := map[];
    var k := 0;
    while k < |events|
      invariant 0 <= k <= |events| && ProgressFold(rows[..], events[..k]) == Some(states)
      invariant rows[..] == old(rows[..])
    {
      assert events[..k + 1][..k] == events[..k];
      var next := ProgressStep(rows[..], states, events[k]);
      if next.None? {
        ProgressRefused(rows[..], events, k + 1);
        return false;
      }
      states, k := next.value, k + 1;
    }
    assert events[..k] == events;
    var i := 0;
    while i < rows.Length
      invariant 0 <= i <= rows.Length
      invariant forall j :: 0 <= j < i ==> rows[j] == Updated(old(rows[j]), states)
      invariant forall j :: i <= j < rows.Length ==> rows[j] == old(rows[j])
    {
      rows[i] := Updated(rows[i], states);
      i := i + 1;
    }
    ok := true;
  }

  lemma {:induction false} ProgressRefused(rows: seq<Row>, events: seq<Event>, k: nat)
    requires k <= |events| && ProgressFold(rows, events[..k]).None?
    ensures ProgressFold(rows, events).None?
    decreases |events| - k
  {
    if k == |events| {
      assert events[..k] == events;
    } else {
      assert events[..k + 1][..k] == events[..k];
      ProgressRefused(rows, events, k + 1);
    }
  }

  /** Every prefix of an accepted log is accepted: a child may die at any event. */
  lemma ProgressPrefix(rows: seq<Row>, events: seq<Event>, k: nat)
    requires k <= |events| && ProgressFold(rows, events).Some?
    ensures ProgressFold(rows, events[..k]).Some?
  {
    if ProgressFold(rows, events[..k]).None? {
      ProgressRefused(rows, events, k);
    }
  }

  /** What the state of an asked test says about its events. */
  ghost predicate ProgressTells(states: map<Id, Status>, events: seq<Event>, id: Id) {
    var seen := EventsOf(events, id);
    && (id !in states <==> seen == [])
    && (id in states ==>
          && seen[0] == Started && seen[|seen| - 1] == states[id]
          && (states[id] == Started ==> seen == [Started])
          && (states[id] == Pass || states[id] == Skip ==> seen == [Started, states[id]])
          && forall i :: 1 <= i < |seen| - 1 ==> Adverse(seen[i]))
  }

  lemma {:induction false} ProgressFoldTells(rows: seq<Row>, events: seq<Event>, id: Id)
    requires ProgressFold(rows, events).Some? && Asked(rows, id)
    ensures ProgressTells(ProgressFold(rows, events).value, events, id)
    decreases |events|
  {
    if events != [] {
      ProgressFoldTells(rows, events[..|events| - 1], id);
    }
  }

  lemma {:induction false} ProgressAsked(rows: seq<Row>, events: seq<Event>, id: Id)
    requires ProgressFold(rows, events).Some? && id in ProgressFold(rows, events).value
    ensures Asked(rows, id)
    decreases |events|
  {
    if id !in ProgressFold(rows, events[..|events| - 1]).value {
      assert events[|events| - 1].holder == Test(id);
    } else {
      ProgressAsked(rows, events[..|events| - 1], id);
    }
  }

  /** A row of an asked test ends as PASS or SKIP exactly when its events are STARTED
      and then that status, as ERROR when it is left dangling, and untouched exactly
      when the log never mentions it. */
  lemma PartialProgressExactly(rows: seq<Row>, events: seq<Event>, i: nat)
    requires i < |rows| && rows[i].portable && rows[i].actual == Mark.NotRun
    requires ProgressFold(rows, events).Some?
    ensures
      var row, seen := Updated(rows[i], ProgressFold(rows, events).value), EventsOf(events, rows[i].id);
      && (row.actual == Marked(Pass) <==> seen == [Started, Pass])
      && (row.actual == Marked(Skip) <==> seen == [Started, Skip])
      && (seen == [Started] ==> row.actual == Marked(Error))
      && (row == rows[i] <==> seen == [])
      && row.actual != Marked(Started)
  {
    assert Asked(rows, rows[i].id);
    ProgressFoldTells(rows, events, rows[i].id);
  }

  /** Rows the child was not asked to run are never touched. */
  lemma OthersUntouched(rows: seq<Row>, events: seq<Event>, i: nat)
    requires i < |rows| && !Asked(rows, rows[i].id) && ProgressFold(rows, events).Some?
    ensures Updated(rows[i], ProgressFold(rows, events).value) == rows[i]
  {
    if rows[i].id in ProgressFold(rows, events).value {
      ProgressAsked(rows, events, rows[i].id);
    }
  }
}
