/**
 Which event logs of a test child are accepted, and by whom: the reconstruction of a
 child that settled, and the progress kept of one that did not.
 */
module SettlementLogs {
  import opened Wrappers
  import opened TestStatus
  import opened Settlement

  // ---------------------------------------------------------------- the reconstruction

  /** The skip of a fixture above some selected test. */
  ghost predicate FixtureSkip(selected: seq<Id>, e: Event) {
    e.holder.SetUp? && e.actual == Skip && exists id :: id in selected && e.holder.name < id
  }

  ghost predicate AboutTest(selected: seq<Id>, e: Event) {
    e.holder.Test? && e.holder.id in selected
  }

  predicate IsEnd(s: Status) {
    s == Pass || s == Fail || s == Error || s == Skip
  }

  predicate IsAdverse(s: Status) {
    s == Fail || s == Error
  }

  /** Nothing yet, started, or started and ended. */
  predicate InOrder(seen: seq<Status>) {
    seen == [] || seen == [Started] || (|seen| == 2 && seen[0] == Started && IsEnd(seen[1]))
  }

  ghost predicate OnlyKnown(selected: seq<Id>, events: seq<Event>) {
    forall i :: 0 <= i < |events| ==> AboutTest(selected, events[i]) || FixtureSkip(selected, events[i])
  }

  ghost predicate FixturesOnce(events: seq<Event>) {
    forall i, j :: 0 <= i < j < |events| && events[j].holder.SetUp? ==> events[i].holder != events[j].holder
  }

  /** Only selected tests and skips of fixtures above them, no fixture twice, and
      every test in order. */
  ghost predicate LogInOrder(selected: seq<Id>, events: seq<Event>) {
    && OnlyKnown(selected, events) && FixturesOnce(events)
    && forall id :: id in selected ==> InOrder(EventsOf(events, id))
  }

  /** The fixtures whose skip the log reports, in order. */
  function SkippedFixtures(events: seq<Event>): seq<Holder>
    decreases |events|
  {
    if events == [] then []
    else
      var last := events[|events| - 1];
      SkippedFixtures(events[..|events| - 1]) + if last.holder.SetUp? then [last.holder] else []
  }

  lemma {:induction false} UnderExactly(selected: seq<Id>, name: Id)
    ensures forall id :: id in Under(selected, name) <==> id in selected && name < id
    ensures NoDup(selected) ==> NoDup(Under(selected, name))
  {
    if selected != [] {
      UnderExactly(selected[1..], name);
      assert selected == [selected[0]] + selected[1..];
      if NoDup(selected) {
        assert NoDup(selected[1..]) && selected[0] !in selected[1..];
      }
    }
  }

  /** Some event of the log is about this holder. */
  ghost predicate Named(events: seq<Event>, h: Holder) {
    exists i :: 0 <= i < |events| && events[i].holder == h
  }

  lemma NamedOneMore(events: seq<Event>, e: Event, h: Holder)
    ensures Named(events + [e], h) <==> Named(events, h) || e.holder == h
  {
    var all := events + [e];
    assert all[|events|] == e;
    if i :| 0 <= i < |events| && events[i].holder == h {
      assert all[i].holder == h;
    }
  }

  lemma {:induction false} SkippedFixturesHold(events: seq<Event>, h: Holder)
    ensures h in SkippedFixtures(events) <==> h.SetUp? && Named(events, h)
    decreases |events|
  {
    if events != [] {
      var before, last := events[..|events| - 1], events[|events| - 1];
      assert events == before + [last];
      SkippedFixturesHold(before, h);
      NamedOneMore(before, last, h);
    }
  }

  lemma {:induction false} SkippedFixturesAreSetUps(events: seq<Event>)
    ensures forall h :: h in SkippedFixtures(events) ==> h.SetUp?
  {
    forall h | h in SkippedFixtures(events) ensures h.SetUp? {
      SkippedFixturesHold(events, h);
    }
  }

  /** The state keeps each skipped fixture, in order, with the selected tests under it. */
  ghost predicate KeepsFixtures(selected: seq<Id>, n: Native, events: seq<Event>) {
    && |n.fixtures| == |SkippedFixtures(events)|
    && forall i :: 0 <= i < |n.fixtures| ==>
         && SkippedFixtures(events)[i].SetUp?
         && n.fixtures[i] == (SkippedFixtures(events)[i], Under(selected, SkippedFixtures(events)[i].name))
  }

  lemma {:induction false} FoldKeepsFixtures(selected: seq<Id>, events: seq<Event>)
    requires NativeFold(selected, events).Some?
    ensures KeepsFixtures(selected, NativeFold(selected, events).value, events)
    decreases |events|
  {
    if events != [] {
      FoldKeepsFixtures(selected, events[..|events| - 1]);
    }
  }

  lemma HasFixtureExactly(selected: seq<Id>, events: seq<Event>, h: Holder)
    requires NativeFold(selected, events).Some? && h.SetUp?
    ensures HasFixture(NativeFold(selected, events).value, h) <==> Named(events, h)
  {
    var n := NativeFold(selected, events).value;
    FoldKeepsFixtures(selected, events);
    SkippedFixturesHold(events, h);
    if h in SkippedFixtures(events) {
      var i :| 0 <= i < |SkippedFixtures(events)| && SkippedFixtures(events)[i] == h;
      assert n.fixtures[i].0 == h;
    }
    if HasFixture(n, h) {
      var i :| 0 <= i < |n.fixtures| && n.fixtures[i].0 == h;
      assert SkippedFixtures(events)[i] == h;
    }
  }

  /** One more event is taken exactly when the log stays in order. */
  lemma StepExactly(selected: seq<Id>, before: seq<Event>, e: Event)
    requires NativeFold(selected, before).Some?
    ensures NativeStep(selected, NativeFold(selected, before).value, e).Some?
       <==> || (AboutTest(selected, e) && InOrder(EventsOf(before, e.holder.id) + [e.actual]))
            || (FixtureSkip(selected, e) && !Named(before, e.holder))
  {
    if AboutTest(selected, e) {
      FoldTells(selected, before, e.holder.id);
      var seen := EventsOf(before, e.holder.id);
      assert |seen + [e.actual]| == |seen| + 1 && (seen + [e.actual])[|seen|] == e.actual;
      assert seen != [] ==> (seen + [e.actual])[0] == seen[0];
    } else if e.holder.SetUp? {
      HasFixtureExactly(selected, before, e.holder);
      UnderSome(selected, e);
    }
  }

  lemma UnderSome(selected: seq<Id>, e: Event)
    requires e.holder.SetUp?
    ensures FixtureSkip(selected, e) <==> e.actual == Skip && Under(selected, e.holder.name) != []
  {
    var under := Under(selected, e.holder.name);
    UnderExactly(selected, e.holder.name);
    if under != [] {
      assert under[0] in under;
    }
    if id :| id in selected && e.holder.name < id {
      assert id in under;
    }
  }

  lemma KnownOneMore(selected: seq<Id>, before: seq<Event>, e: Event)
    ensures OnlyKnown(selected, before + [e]) <==> OnlyKnown(selected, before) && (AboutTest(selected, e) || FixtureSkip(selected, e))
    ensures FixturesOnce(before + [e])
       <==> FixturesOnce(before) && (e.holder.SetUp? ==> !Named(before, e.holder))
  {
    var all := before + [e];
    assert all[|before|] == e && forall i :: 0 <= i < |before| ==> all[i] == before[i];
  }

  lemma TestsOneMore(selected: seq<Id>, before: seq<Event>, e: Event)
    requires AboutTest(selected, e) || e.holder.SetUp?
    ensures (forall id :: id in selected ==> InOrder(EventsOf(before + [e], id)))
       <==> && (forall id :: id in selected ==> InOrder(EventsOf(before, id)))
            && (e.holder.Test? ==> InOrder(EventsOf(before, e.holder.id) + [e.actual]))
  {
    assert (before + [e])[..|before|] == before;
    forall id | id in selected
      ensures EventsOf(before + [e], id) == EventsOf(before, id) + if e.holder == Test(id) then [e.actual] else []
    {}
    if e.holder.Test? {
      assert EventsOf(before + [e], e.holder.id) == EventsOf(before, e.holder.id) + [e.actual];
      assert InOrder(EventsOf(before, e.holder.id) + [e.actual]) ==> InOrder(EventsOf(before, e.holder.id)) by {
        var seen := EventsOf(before, e.holder.id);
        assert |seen + [e.actual]| == |seen| + 1 && (seen != [] ==> (seen + [e.actual])[0] == seen[0]);
      }
    }
    forall id | id in selected && e.holder != Test(id) ensures EventsOf(before + [e], id) == EventsOf(before, id) {
      assert EventsOf(before, id) + [] == EventsOf(before, id);
    }
  }

  lemma OrderOneMore(selected: seq<Id>, before: seq<Event>, e: Event)
    ensures LogInOrder(selected, before + [e])
       <==> && LogInOrder(selected, before)
            && (|| (AboutTest(selected, e) && InOrder(EventsOf(before, e.holder.id) + [e.actual]))
                || (FixtureSkip(selected, e) && !Named(before, e.holder)))
  {
    KnownOneMore(selected, before, e);
    if AboutTest(selected, e) || FixtureSkip(selected, e) {
      TestsOneMore(selected, before, e);
    }
  }

  /** The reconstruction gets through exactly the logs in order. */
  lemma {:induction false} NativeFoldExactly(selected: seq<Id>, events: seq<Event>)
    ensures NativeFold(selected, events).Some? <==> LogInOrder(selected, events)
    decreases |events|
  {
    if events != [] {
      var before, e := events[..|events| - 1], events[|events| - 1];
      assert events == before + [e];
      NativeFoldExactly(selected, before);
      OrderOneMore(selected, before, e);
      if NativeFold(selected, before).Some? {
        StepExactly(selected, before, e);
      }
    }
  }

  /** The log reports the skip of a fixture above this test. */
  ghost predicate SkippedBy(events: seq<Event>, id: Id) {
    exists i :: 0 <= i < |events| && Covers(events[i].holder, id)
  }

  predicate Covers(h: Holder, id: Id) {
    h.SetUp? && h.name < id
  }

  /** No selected test is under two of these fixtures. */
  ghost predicate CoverOnce(selected: seq<Id>, fixtures: seq<Holder>) {
    forall h, k, id :: h in fixtures && k in fixtures && id in selected && Covers(h, id) && Covers(k, id) ==> h == k
  }

  /** No selected test is under two of the skipped fixtures. */
  ghost predicate SkippedOnce(selected: seq<Id>, events: seq<Event>) {
    CoverOnce(selected, SkippedFixtures(events))
  }

  lemma SkippedByFixture(events: seq<Event>, id: Id)
    ensures SkippedBy(events, id) <==> exists h :: h in SkippedFixtures(events) && Covers(h, id)
  {
    if i :| 0 <= i < |events| && Covers(events[i].holder, id) {
      SkippedFixturesHold(events, events[i].holder);
    }
    if h :| h in SkippedFixtures(events) && Covers(h, id) {
      SkippedFixturesHold(events, h);
      var i :| 0 <= i < |events| && events[i].holder == h;
      assert Covers(events[i].holder, id);
    }
  }

  /** All selected tests under these fixtures, fixture by fixture. */
  function AllUnder(selected: seq<Id>, fixtures: seq<Holder>): seq<Id>
    requires forall h :: h in fixtures ==> h.SetUp?
    decreases |fixtures|
  {
    if fixtures == [] then []
    else AllUnder(selected, fixtures[..|fixtures| - 1]) + Under(selected, fixtures[|fixtures| - 1].name)
  }

  lemma {:induction false} FlattenIsAllUnder(selected: seq<Id>, fixtures: seq<(Holder, seq<Id>)>, holders: seq<Holder>)
    requires |fixtures| == |holders| && forall h :: h in holders ==> h.SetUp?
    requires forall i :: 0 <= i < |fixtures| ==> fixtures[i] == (holders[i], Under(selected, holders[i].name))
    ensures Flatten(fixtures) == AllUnder(selected, holders)
    decreases |fixtures|
  {
    if fixtures != [] {
      FlattenIsAllUnder(selected, fixtures[..|fixtures| - 1], holders[..|holders| - 1]);
    }
  }

  lemma {:induction false} AllUnderExactly(selected: seq<Id>, fixtures: seq<Holder>)
    requires NoDup(selected) && forall h :: h in fixtures ==> h.SetUp?
    ensures forall id :: id in AllUnder(selected, fixtures) <==> id in selected && exists h :: h in fixtures && Covers(h, id)
    ensures NoDup(fixtures) ==>
      (NoDup(AllUnder(selected, fixtures)) <==> CoverOnce(selected, fixtures))
    decreases |fixtures|
  {
    if fixtures != [] {
      var rest, last := fixtures[..|fixtures| - 1], fixtures[|fixtures| - 1];
      assert fixtures == rest + [last];
      AllUnderExactly(selected, rest);
      UnderExactly(selected, last.name);
      NoDupConcat(AllUnder(selected, rest), Under(selected, last.name));
      forall id ensures id in AllUnder(selected, fixtures) <==> id in selected && exists h :: h in fixtures && Covers(h, id) {
        assert id in Under(selected, last.name) <==> id in selected && Covers(last, id);
        assert last in fixtures && forall h :: h in fixtures <==> h in rest || h == last;
      }
      if NoDup(fixtures) {
        ElementsOneMore(rest, last);
        LastFixture(selected, rest, last);
      }
    }
  }

  /** One more fixture covers nothing twice exactly when it covers nothing the others do. */
  lemma LastFixture(selected: seq<Id>, rest: seq<Holder>, last: Holder)
    requires last.SetUp? && last !in rest
    ensures CoverOnce(selected, rest + [last])
       <==> CoverOnce(selected, rest) && forall h, id :: h in rest && id in selected && Covers(h, id) ==> !Covers(last, id)
  {
    var all := rest + [last];
    assert last in all && forall h :: h in all <==> h in rest || h == last;
  }

  lemma {:induction false} SkippedFixturesOnce(events: seq<Event>)
    requires FixturesOnce(events)
    ensures NoDup(SkippedFixtures(events))
    decreases |events|
  {
    if events != [] {
      var before, last := events[..|events| - 1], events[|events| - 1];
      assert events == before + [last];
      KnownOneMore([], before, last);
      SkippedFixturesOnce(before);
      SkippedFixturesHold(before, last.holder);
      ElementsOneMore(SkippedFixtures(before), last.holder);
    }
  }

  /** The tests a fold state calls skipped are those under the skipped fixtures, each
      once exactly when no test is under two of them. */
  lemma FlattenExactly(selected: seq<Id>, events: seq<Event>)
    requires NativeFold(selected, events).Some? && NoDup(selected)
    ensures
      var skipped := Flatten(NativeFold(selected, events).value.fixtures);
      && (forall id :: id in skipped <==> id in selected && SkippedBy(events, id))
      && (|Elements(skipped)| == |skipped| <==> SkippedOnce(selected, events))
  {
    var n, holders := NativeFold(selected, events).value, SkippedFixtures(events);
    NativeFoldExactly(selected, events);
    SkippedFixturesAreSetUps(events);
    SkippedFixturesOnce(events);
    FoldKeepsFixtures(selected, events);
    FlattenIsAllUnder(selected, n.fixtures, holders);
    AllUnderExactly(selected, holders);
    NoDupExactly(Flatten(n.fixtures));
    forall id ensures id in Flatten(n.fixtures) <==> id in selected && SkippedBy(events, id) {
      SkippedByFixture(events, id);
    }
  }

  /** A row that says what the log says: skipped with its fixture and without an event
      of its own, or started and ended as the row says, with PASS or SKIP. */
  ghost predicate RowSettles(events: seq<Event>, id: Id, row: Outcome) {
    && row.id == id
    && if SkippedBy(events, id) then EventsOf(events, id) == [] && row.actual == Skip
       else (row.actual == Pass || row.actual == Skip) && EventsOf(events, id) == [Started, row.actual]
  }

  /** The reconstruction accepts exactly: a log in order, no test under two skipped
      fixtures, as fixture skips the tests under them, as many tests run as started,
      and one row per selected test, in order, that says what the log says. */
  lemma NativeAcceptsExactly(selected: seq<Id>, report: Report, events: seq<Event>)
    requires NoDup(selected)
    ensures NativeAccepts(selected, report, events)
       <==> && LogInOrder(selected, events) && SkippedOnce(selected, events)
            && (forall id :: id in report.fixtureSkips <==> id in selected && SkippedBy(events, id))
            && report.testsRun == |Starts(events)| && |report.results| == |selected|
            && forall i :: 0 <= i < |selected| ==> RowSettles(events, selected[i], report.results[i])
  {
    NativeFoldExactly(selected, events);
    if NativeFold(selected, events).Some? {
      SettlesExactly(selected, report, events);
    }
  }

  /** What a fold state demands of one row. */
  predicate RowFits(n: Native, id: Id, row: Outcome) {
    var skipped := Flatten(n.fixtures);
    if id in skipped then id !in n.states && row == Outcome(id, Skip)
    else id in n.states && (n.states[id] == Pass || n.states[id] == Skip) && row == Outcome(id, n.states[id])
  }

  lemma SettlesByRow(selected: seq<Id>, report: Report, n: Native)
    ensures Settles(selected, report, n)
       <==> && |Elements(Flatten(n.fixtures))| == |Flatten(n.fixtures)|
            && Elements(Flatten(n.fixtures)) == Elements(report.fixtureSkips)
            && report.testsRun == |n.states| && |report.results| == |selected|
            && forall i :: 0 <= i < |selected| ==> RowFits(n, selected[i], report.results[i])
  {
    if Settles(selected, report, n) {
      forall i | 0 <= i < |selected| ensures RowFits(n, selected[i], report.results[i]) {
        assert selected[i] in selected;
      }
    }
    if |report.results| == |selected| && forall i :: 0 <= i < |selected| ==> RowFits(n, selected[i], report.results[i]) {
      forall id | id in selected
        ensures if id in Flatten(n.fixtures) then id !in n.states else id in n.states && (n.states[id] == Pass || n.states[id] == Skip)
      {
        var i :| 0 <= i < |selected| && selected[i] == id;
        assert RowFits(n, selected[i], report.results[i]);
      }
    }
  }

  lemma RowFitsExactly(selected: seq<Id>, events: seq<Event>, id: Id, row: Outcome)
    requires NoDup(selected) && NativeFold(selected, events).Some? && id in selected
    ensures RowFits(NativeFold(selected, events).value, id, row) <==> RowSettles(events, id, row)
  {
    FlattenExactly(selected, events);
    FoldTells(selected, events, id);
  }

  lemma SettlesExactly(selected: seq<Id>, report: Report, events: seq<Event>)
    requires NoDup(selected) && NativeFold(selected, events).Some?
    ensures Settles(selected, report, NativeFold(selected, events).value)
       <==> && SkippedOnce(selected, events)
            && (forall id :: id in report.fixtureSkips <==> id in selected && SkippedBy(events, id))
            && report.testsRun == |Starts(events)| && |report.results| == |selected|
            && forall i :: 0 <= i < |selected| ==> RowSettles(events, selected[i], report.results[i])
  {
    var n := NativeFold(selected, events).value;
    SettlesByRow(selected, report, n);
    FlattenExactly(selected, events);
    FoldStarts(selected, events);
    SameElements(Flatten(n.fixtures), report.fixtureSkips);
    if |report.results| == |selected| {
      forall i | 0 <= i < |selected|
        ensures RowFits(n, selected[i], report.results[i]) <==> RowSettles(events, selected[i], report.results[i])
      {
        RowFitsExactly(selected, events, selected[i], report.results[i]);
      }
    }
  }

  lemma SameElements(a: seq<Id>, b: seq<Id>)
    ensures Elements(a) == Elements(b) <==> forall id :: id in b <==> id in a
  {
    assert (forall id :: id in Elements(a) <==> id in a) && (forall id :: id in Elements(b) <==> id in b);
  }

  // ---------------------------------------------------------------- the router's own check

  /** Where in the log something started. */
  ghost function StartedAt(events: seq<Event>): set<nat> {
    set i: nat | i < |events| && events[i].actual == Started
  }

  lemma StartedAtOneMore(events: seq<Event>, e: Event)
    ensures |StartedAt(events + [e])| == |StartedAt(events)| + if e.actual == Started then 1 else 0
  {
    if e.actual == Started {
      assert StartedAt(events + [e]) == StartedAt(events) + {|events|};
    } else {
      assert StartedAt(events + [e]) == StartedAt(events);
    }
  }

  lemma {:induction false} StartsExactly(events: seq<Event>)
    ensures forall h :: h in Starts(events) <==> Event(h, Started) in events
    ensures |Starts(events)| == |StartedAt(events)|
    decreases |events|
  {
    if events != [] {
      var before, last := events[..|events| - 1], events[|events| - 1];
      assert events == before + [last];
      StartsExactly(before);
      StartedAtOneMore(before, last);
      forall h ensures Event(h, Started) in events <==> Event(h, Started) in before || last == Event(h, Started) {}
    }
  }

  ghost predicate Reported(events: seq<Event>, id: Id, s: Status) {
    Event(Test(id), s) in events
  }

  /** The log bears this row out: a pass was started and reported, a failure reported, a
      skip reported or taken over from the fixture, an error reported or never started. */
  ghost predicate RowBorneOut(report: Report, events: seq<Event>, id: Id, row: Outcome) {
    row.id == id &&
    match row.actual
    case Pass => Reported(events, id, Started) && Reported(events, id, Pass)
    case Fail => Reported(events, id, Fail)
    case Skip => Reported(events, id, Skip) || (id in report.fixtureSkips && ExactFixture(events, id))
    case Error => Reported(events, id, Error) || !Reported(events, id, Started)
    case Started => false
    case NotRun => false
  }

  /** The fixture of a test carries the exact name of its module, or of its class. */
  lemma FixtureOfTest(events: seq<Event>, name: Id, last: nat)
    ensures !ExactFixture(events, [])
    ensures ExactFixture(events, [last])
       <==> Event(SetUp(OfModule, [last]), Skip) in events || Event(SetUp(OfClass, [last]), Skip) in events
    ensures name != [] ==>
      (ExactFixture(events, name + [last])
       <==> Event(SetUp(OfModule, [name[0]]), Skip) in events || Event(SetUp(OfClass, name), Skip) in events)
  {
    assert [last][..1] == [last];
    if name != [] {
      assert (name + [last])[..1] == [name[0]] && (name + [last])[..|name|] == name;
    }
  }

  /** Every row passed or was skipped. */
  ghost predicate NoneAdverse(report: Report) {
    forall i :: 0 <= i < |report.results| ==> report.results[i].actual == Pass || report.results[i].actual == Skip
  }

  ghost predicate SkippedRow(report: Report, id: Id) {
    exists i :: 0 <= i < |report.results| && report.results[i] == Outcome(id, Skip)
  }

  /** The report is about the tests asked for, in order, one row each, and says of itself
      and by its exit code whether all of them passed or were skipped. */
  ghost predicate ReportFits(expected: seq<Id>, report: Report, exit: int) {
    && report.ids == expected && NoDup(expected) && |report.results| == |expected|
    && (report.successful <==> NoneAdverse(report)) && (exit == if NoneAdverse(report) then 0 else 1)
    && NoDup(report.fixtureSkips) && (forall id :: id in report.fixtureSkips ==> SkippedRow(report, id))
    && (NoneAdverse(report) ==> report.testsRun + |report.fixtureSkips| == |expected|)
  }

  /** As many distinct tests started as were run, all of them asked for. */
  ghost predicate StartsFit(expected: seq<Id>, report: Report, events: seq<Event>) {
    && NoDup(Starts(events)) && |Starts(events)| == report.testsRun
    && forall h :: Event(h, Started) in events ==> h.Test? && h.id in expected
  }

  /** The router settles a child exactly when its report fits the tests asked for, the
      starts in the log fit the report, and the log bears out every row. */
  lemma ReconcilesExactly(expected: seq<Id>, report: Report, exit: int, events: seq<Event>)
    ensures Reconciles(expected, report, exit, events)
       <==> && ReportFits(expected, report, exit) && StartsFit(expected, report, events)
            && forall i :: 0 <= i < |expected| ==> RowBorneOut(report, events, expected[i], report.results[i])
  {
    ReportFitsExactly(expected, report, exit);
    StartsFitExactly(expected, report, events);
    if |report.results| == |expected| {
      RowsBorneOut(expected, report, events);
    }
  }

  lemma ReportFitsExactly(expected: seq<Id>, report: Report, exit: int)
    ensures
      var success := forall r :: r in report.results ==> r.actual == Pass || r.actual == Skip;
      ReportFits(expected, report, exit)
      <==> && report.ids == expected && |Elements(expected)| == |expected| && |report.results| == |expected|
           && report.successful == success && exit == (if success then 0 else 1)
           && |Elements(report.fixtureSkips)| == |report.fixtureSkips|
           && (forall id :: id in report.fixtureSkips ==> Outcome(id, Skip) in report.results)
           && (success ==> report.testsRun + |report.fixtureSkips| == |expected|)
  {
    NoDupExactly(expected);
    NoDupExactly(report.fixtureSkips);
    NoneAdverseExactly(report);
  }

  lemma StartsFitExactly(expected: seq<Id>, report: Report, events: seq<Event>)
    ensures StartsFit(expected, report, events)
       <==> && |Elements(Starts(events))| == |Starts(events)| == report.testsRun
            && forall h :: h in Starts(events) ==> h.Test? && h.id in expected
    ensures StartsFit(expected, report, events) ==> 0 <= report.testsRun <= |expected|
  {
    NoDupExactly(Starts(events));
    StartsExactly(events);
    if StartsFit(expected, report, events) {
      StartsAmong(expected, Starts(events));
    }
  }

  lemma NoneAdverseExactly(report: Report)
    ensures NoneAdverse(report) <==> forall r :: r in report.results ==> r.actual == Pass || r.actual == Skip
    ensures forall id :: SkippedRow(report, id) <==> Outcome(id, Skip) in report.results
  {
    if NoneAdverse(report) {
      forall r | r in report.results ensures r.actual == Pass || r.actual == Skip {
        var i :| 0 <= i < |report.results| && report.results[i] == r;
      }
    }
    if forall r :: r in report.results ==> r.actual == Pass || r.actual == Skip {
      forall i | 0 <= i < |report.results| ensures report.results[i].actual == Pass || report.results[i].actual == Skip {
        assert report.results[i] in report.results;
      }
    }
  }

  /** Distinct tests among those asked for are no more than those. */
  lemma StartsAmong(expected: seq<Id>, starts: seq<Holder>)
    requires NoDup(starts) && forall h :: h in starts ==> h.Test? && h.id in expected
    ensures |starts| <= |expected|
  {
    var all := seq(|expected|, i requires 0 <= i < |expected| => Test(expected[i]));
    forall h | h in starts ensures h in all {
      var i :| 0 <= i < |expected| && expected[i] == h.id;
      assert all[i] == h;
    }
    ChoiceLength(all, starts);
  }

  lemma RowsBorneOut(expected: seq<Id>, report: Report, events: seq<Event>)
    requires |report.results| == |expected|
    ensures (forall i :: 0 <= i < |expected| ==> RowBorneOut(report, events, expected[i], report.results[i]))
       <==> && (forall i :: 0 <= i < |expected| ==> report.results[i].id == expected[i])
            && forall r :: r in report.results ==> Ended(r.actual) && Observed(report, events, r)
  {
    StartsExactly(events);
    forall i | 0 <= i < |expected|
      ensures RowBorneOut(report, events, expected[i], report.results[i])
         <==> var r := report.results[i]; r.id == expected[i] && Ended(r.actual) && Observed(report, events, r)
      ensures report.results[i] in report.results
    {}
    if forall i :: 0 <= i < |expected| ==> RowBorneOut(report, events, expected[i], report.results[i]) {
      forall r | r in report.results ensures Ended(r.actual) && Observed(report, events, r) {
        var i :| 0 <= i < |expected| && report.results[i] == r;
        assert RowBorneOut(report, events, expected[i], report.results[i]);
      }
    }
  }

  // ---------------------------------------------------------------- children that did not settle

  /** A test the child was asked to run: some portable row has its id. */
  ghost predicate Wanted(rows: seq<Row>, id: Id) {
    exists row :: row in rows && row.portable && row.id == id
  }

  lemma WantedIsAsked(rows: seq<Row>, id: Id)
    ensures Wanted(rows, id) <==> Asked(rows, id)
  {
    if row :| row in rows && row.portable && row.id == id {
      var i :| 0 <= i < |rows| && rows[i] == row;
      assert rows[i].portable;
    }
    if i :| 0 <= i < |rows| && rows[i].portable && rows[i].id == id {
      assert rows[i] in rows;
    }
  }

  /** An event of a test the child was asked to run, or a fixture that ended badly or was skipped. */
  ghost predicate Progresses(rows: seq<Row>, e: Event) {
    || (e.holder.Test? && Wanted(rows, e.holder.id))
    || ((e.holder.SetUp? || e.holder.TearDown?) && (e.actual == Error || e.actual == Skip))
  }

  /** Started once, before anything else; ended once, or adversely any number of times. */
  predicate Plausible(seen: seq<Status>) {
    seen == [] || (seen[0] == Started && forall i :: 1 <= i < |seen| ==> PlausibleAt(seen, i))
  }

  predicate PlausibleAt(seen: seq<Status>, i: nat)
    requires 1 <= i < |seen|
  {
    IsEnd(seen[i]) && (i > 1 ==> IsAdverse(seen[i]) && IsAdverse(seen[i - 1]))
  }

  ghost predicate PlausibleLog(rows: seq<Row>, events: seq<Event>) {
    && (forall i :: 0 <= i < |events| ==> Progresses(rows, events[i]))
    && forall id :: Wanted(rows, id) ==> Plausible(EventsOf(events, id))
  }

  lemma ProgressStepExactly(rows: seq<Row>, before: seq<Event>, e: Event)
    requires ProgressFold(rows, before).Some? && PlausibleLog(rows, before)
    ensures ProgressStep(rows, ProgressFold(rows, before).value, e).Some?
       <==> Progresses(rows, e) && (e.holder.Test? && Wanted(rows, e.holder.id) ==> Plausible(EventsOf(before, e.holder.id) + [e.actual]))
  {
    if e.holder.Test? {
      WantedIsAsked(rows, e.holder.id);
    }
    if e.holder.Test? && Wanted(rows, e.holder.id) {
      var seen := EventsOf(before, e.holder.id);
      ProgressFoldTells(rows, before, e.holder.id);
      PlausibleOneMore(seen, e.actual);
    }
  }

  lemma PlausibleOneMore(seen: seq<Status>, next: Status)
    requires Plausible(seen)
    ensures Plausible(seen + [next])
       <==> if seen == [] then next == Started
            else IsEnd(next) && (|seen| > 1 ==> IsAdverse(next) && IsAdverse(seen[|seen| - 1]))
  {
    var all := seen + [next];
    assert all[|seen|] == next;
    forall i | 1 <= i < |seen| ensures PlausibleAt(all, i) {
      assert PlausibleAt(seen, i);
    }
    if seen != [] && Plausible(all) {
      assert PlausibleAt(all, |seen|);
    }
  }

  lemma PlausibleLogOneMore(rows: seq<Row>, before: seq<Event>, e: Event)
    ensures PlausibleLog(rows, before + [e])
       <==> && PlausibleLog(rows, before) && Progresses(rows, e)
            && (e.holder.Test? && Wanted(rows, e.holder.id) ==> Plausible(EventsOf(before, e.holder.id) + [e.actual]))
  {
    var all := before + [e];
    assert all[..|before|] == before && all[|before|] == e && forall i :: 0 <= i < |before| ==> all[i] == before[i];
    forall id ensures EventsOf(all, id) == if e.holder == Test(id) then EventsOf(before, id) + [e.actual] else EventsOf(before, id) {
      assert EventsOf(before, id) + [] == EventsOf(before, id);
    }
    if e.holder.Test? && Wanted(rows, e.holder.id) && Plausible(EventsOf(before, e.holder.id) + [e.actual]) {
      PlausiblePrefix(EventsOf(before, e.holder.id), e.actual);
    }
  }

  lemma PlausiblePrefix(seen: seq<Status>, next: Status)
    requires Plausible(seen + [next])
    ensures Plausible(seen)
  {
    var all := seen + [next];
    forall i | 1 <= i < |seen| ensures PlausibleAt(seen, i) {
      assert PlausibleAt(all, i);
    }
  }

  /** The progress of a broken child is kept exactly when its log names only tests it
      was asked to run and fixtures that ended badly or were skipped, and reports each
      test plausibly. */
  lemma {:induction false} ProgressFoldExactly(rows: seq<Row>, events: seq<Event>)
    ensures ProgressFold(rows, events).Some? <==> PlausibleLog(rows, events)
    decreases |events|
  {
    if events != [] {
      var before, e := events[..|events| - 1], events[|events| - 1];
      assert events == before + [e];
      ProgressFoldExactly(rows, before);
      PlausibleLogOneMore(rows, before, e);
      if ProgressFold(rows, before).Some? {
        ProgressStepExactly(rows, before, e);
      }
    }
  }

  /** A row the log mentions is marked executed with the last status the log reports
      for it, an error if that is only its start; other rows stay as they are. */
  lemma MarkedExactly(rows: seq<Row>, events: seq<Event>, i: nat)
    requires i < |rows| && Wanted(rows, rows[i].id) && ProgressFold(rows, events).Some?
    ensures
      var row, seen := Updated(rows[i], ProgressFold(rows, events).value), EventsOf(events, rows[i].id);
      if seen == [] then row == rows[i]
      else row == rows[i].(executed := true, actual := Marked(if |seen| == 1 then Error else seen[|seen| - 1]))
  {
    WantedIsAsked(rows, rows[i].id);
    ProgressFoldTells(rows, events, rows[i].id);
  }
}
