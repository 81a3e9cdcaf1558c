/**
 The coverage ledger: the supervisor that writes it keeps failure flags as it
 goes, and the diagnosis recomputes the verdict from the finished rows alone.
 */
module Ledger {
  datatype Mark = NotRun | Unavailable | Pass | Fail | Error | Skip

  datatype Row = Row(portable: bool, mark: Mark)

  predicate Settled(m: Mark) {
    m == Pass || m == Skip
  }

  predicate Adverse(m: Mark) {
    m == Fail || m == Error
  }

  /** What became of one module: nothing was selected, its child settled with these
      marks, or something raised, possibly after the inventory was verified and with
      whatever marks the event log proves. */
  datatype Child =
    | Idle
    | Reported(marks: seq<Mark>)
    | Broken(inventoryVerified: bool, left: seq<Mark>)

  datatype Module = Module(portable: seq<bool>, child: Child)

  /** One finished module of the ledger. */
  datatype Record = Record(rows: seq<Row>, inventoryVerified: bool, error: bool)

  datatype Verdict = Failed | Passed | NotExecuted | CoverageUnavailable

  /** A child that settled or left something has one mark for each selected test. */
  predicate WellFormed(m: Module) {
    match m.child
    case Idle => true
    case Reported(marks) => |marks| == |m.portable|
    case Broken(_, left) => |left| == |m.portable|
  }

  function MarkAt(marks: seq<Mark>, i: nat): Mark {
    if i < |marks| then marks[i] else NotRun
  }

  function FinalMark(m: Module, i: nat): Mark
    requires i < |m.portable|
  {
    if !m.portable[i] then Unavailable
    else match m.child
      case Idle => NotRun
      case Reported(marks) => MarkAt(marks, i)
      case Broken(_, left) => MarkAt(left, i)
  }

  function RecordOf(m: Module): Record {
    Record(
      seq(|m.portable|, i requires 0 <= i < |m.portable| => Row(m.portable[i], FinalMark(m, i))),
      m.child.Broken? ==> m.child.inventoryVerified,
      m.child.Broken?)
  }

  // ---------------------------------------------------------------- what became of the modules

  /** The record says what became of the module: one row per selected test, with the
      mark its child reported or left for a portable one, not run where no child was
      started, and unavailable outside the lane. */
  ghost predicate Tells(m: Module, r: Record) {
    && |r.rows| == |m.portable|
    && (forall i :: 0 <= i < |r.rows| ==> r.rows[i].portable == m.portable[i])
    && (forall i :: 0 <= i < |r.rows| && !m.portable[i] ==> r.rows[i].mark == Unavailable)
    && (m.child.Idle? ==> forall i :: 0 <= i < |r.rows| && m.portable[i] ==> r.rows[i].mark == NotRun)
    && (m.child.Reported? ==>
          |m.child.marks| == |r.rows| && forall i :: 0 <= i < |r.rows| && m.portable[i] ==> r.rows[i].mark == m.child.marks[i])
    && (m.child.Broken? ==>
          |m.child.left| == |r.rows| && forall i :: 0 <= i < |r.rows| && m.portable[i] ==> r.rows[i].mark == m.child.left[i])
    && (r.error <==> m.child.Broken?)
    && (r.inventoryVerified <==> m.child.Broken? ==> m.child.inventoryVerified)
  }

  /** Some child broke, or reported a failure or an error for a portable test. */
  ghost predicate LaneFails(modules: seq<Module>) {
    exists k :: 0 <= k < |modules| && ModuleFails(modules[k])
  }

  ghost predicate ModuleFails(m: Module) {
    m.child.Broken? || exists i :: 0 <= i < |m.portable| && m.portable[i] && FailsAt(m.child, i)
  }

  /** The child reported a failure or an error. */
  ghost predicate FailsAt(child: Child, i: nat) {
    child.Reported? && i < |child.marks| && (child.marks[i] == Fail || child.marks[i] == Error)
  }

  /** Every portable test has passed or was skipped. */
  ghost predicate AllSettled(modules: seq<Module>) {
    forall k :: 0 <= k < |modules| ==> ModuleSettled(modules[k])
  }

  ghost predicate ModuleSettled(m: Module) {
    forall i :: 0 <= i < |m.portable| && m.portable[i] ==> SettledAt(m.child, i)
  }

  /** The child reported, or its log proves, a pass or a skip. */
  predicate SettledAt(child: Child, i: nat) {
    match child
    case Idle => false
    case Reported(marks) => i < |marks| && (marks[i] == Pass || marks[i] == Skip)
    case Broken(_, left) => i < |left| && (left[i] == Pass || left[i] == Skip)
  }

  /** Some selected test is not portable. */
  ghost predicate SomeOutside(modules: seq<Module>) {
    exists k :: 0 <= k < |modules| && false in modules[k].portable
  }

  // ---------------------------------------------------------------- the verdict, from finished records

  ghost predicate RowBad(r: Record) {
    exists i :: 0 <= i < |r.rows| && r.rows[i].portable && Adverse(r.rows[i].mark)
  }

  ghost predicate RowOpen(r: Record) {
    exists i :: 0 <= i < |r.rows| && r.rows[i].portable && !Settled(r.rows[i].mark)
  }

  ghost predicate RowMissing(r: Record) {
    exists i :: 0 <= i < |r.rows| && !r.rows[i].portable
  }

  /** An error, an adverse row, or an inventory that was never verified. */
  ghost predicate RecordBad(r: Record) {
    r.error || RowBad(r) || !r.inventoryVerified
  }

  ghost predicate Failing(records: seq<Record>) {
    exists k :: 0 <= k < |records| && RecordBad(records[k])
  }

  ghost predicate Complete(records: seq<Record>) {
    forall k :: 0 <= k < |records| ==> !RowOpen(records[k])
  }

  ghost predicate Uncovered(records: seq<Record>) {
    exists k :: 0 <= k < |records| && RowMissing(records[k])
  }

  lemma RecordTells(m: Module)
    requires WellFormed(m)
    ensures Tells(m, RecordOf(m))
  {}

  lemma RecordFails(m: Module)
    requires WellFormed(m)
    ensures RecordBad(RecordOf(m)) <==> ModuleFails(m)
  {
    var r := RecordOf(m);
    RecordTells(m);
    if m.child.Reported? {
      assert forall i :: 0 <= i < |r.rows| && m.portable[i] ==> r.rows[i].mark == m.child.marks[i];
    }
  }

  lemma RecordSettles(m: Module)
    requires WellFormed(m)
    ensures !RowOpen(RecordOf(m)) <==> ModuleSettled(m)
    ensures RowMissing(RecordOf(m)) <==> false in m.portable
  {
    var r := RecordOf(m);
    RecordTells(m);
    forall i | 0 <= i < |r.rows| && m.portable[i] ensures Settled(r.rows[i].mark) <==> SettledAt(m.child, i) {}
  }

  /** The verdict of the lane, on what became of its modules: it fails exactly when a
      child broke or reported an adverse mark for a portable test, and passes exactly
      when it did not fail, was executed, and every portable test passed or was skipped. */
  lemma LaneExactly(modules: seq<Module>, records: seq<Record>)
    requires forall k :: 0 <= k < |modules| ==> WellFormed(modules[k])
    requires |records| == |modules| && forall k :: 0 <= k < |modules| ==> records[k] == RecordOf(modules[k])
    ensures forall k :: 0 <= k < |modules| ==> Tells(modules[k], records[k])
    ensures Failing(records) <==> LaneFails(modules)
    ensures Complete(records) <==> AllSettled(modules)
    ensures Uncovered(records) <==> SomeOutside(modules)
  {
    forall k | 0 <= k < |modules|
      ensures Tells(modules[k], records[k])
      ensures RecordBad(records[k]) <==> ModuleFails(modules[k])
      ensures !RowOpen(records[k]) <==> ModuleSettled(modules[k])
      ensures RowMissing(records[k]) <==> false in modules[k].portable
    {
      RecordTells(modules[k]);
      RecordFails(modules[k]);
      RecordSettles(modules[k]);
    }
    if AllSettled(modules) {
      forall k | 0 <= k < |records| ensures !RowOpen(records[k]) {
        assert ModuleSettled(modules[k]);
      }
    }
    if Complete(records) {
      forall k | 0 <= k < |modules| ensures ModuleSettled(modules[k]) {
        assert !RowOpen(records[k]);
      }
    }
    if LaneFails(modules) {
      var k :| 0 <= k < |modules| && ModuleFails(modules[k]);
      assert RecordBad(records[k]);
    }
    if SomeOutside(modules) {
      var k :| 0 <= k < |modules| && false in modules[k].portable;
      assert RowMissing(records[k]);
    }
  }

  // ---------------------------------------------------------------- the two implementations

  /** Scan one module's rows. */
  method Inspect(r: Record) returns (bad: bool, open: bool, missing: bool)
    ensures bad <==> RowBad(r)
    ensures open <==> RowOpen(r)
    ensures missing <==> RowMissing(r)
  {
    bad, open, missing := false, false, false;
    var i := 0;
    while i < |r.rows|
      invariant 0 <= i <= |r.rows|
      invariant bad <==> exists j :: 0 <= j < i && r.rows[j].portable && Adverse(r.rows[j].mark)
      invariant open <==> exists j :: 0 <= j < i && r.rows[j].portable && !Settled(r.rows[j].mark)
      invariant missing <==> exists j :: 0 <= j < i && !r.rows[j].portable
    {
      if !r.rows[i].portable {
        missing := true;
      } else {
        bad := bad || Adverse(r.rows[i].mark);
        open := open || !Settled(r.rows[i].mark);
      }
      i := i + 1;
    }
  }

  /** The supervisor: rows are written module by module, flags are raised on the
      way, and the verdict is taken from the flags. */
  method Supervise(modules: seq<Module>, execute: bool) returns (records: seq<Record>, portable: Verdict, overall: Verdict)
    requires forall k :: 0 <= k < |modules| ==> WellFormed(modules[k])
    ensures |records| == |modules| && forall k :: 0 <= k < |modules| ==> records[k] == RecordOf(modules[k])
    ensures forall k :: 0 <= k < |modules| ==> Tells(modules[k], records[k])
    ensures (portable, overall) == Supervised(records, execute)
    ensures portable == Failed <==> LaneFails(modules)
    ensures portable == Passed <==> !LaneFails(modules) && execute && AllSettled(modules)
    ensures overall == Failed <==> LaneFails(modules)
    ensures overall == CoverageUnavailable <==> !LaneFails(modules) && SomeOutside(modules)
    ensures overall == Passed <==> !LaneFails(modules) && !SomeOutside(modules) && execute && AllSettled(modules)
  {
    records := [];
    var failure, uncovered, complete, verified := false, false, true, true;
    var k := 0;
    while k < |modules|
      invariant 0 <= k <= |modules| && |records| == k
      invariant forall j :: 0 <= j < k ==> records[j] == RecordOf(modules[j])
      invariant failure || !verified <==> Failing(records)
      invariant uncovered <==> Uncovered(records)
      invariant complete <==> Complete(records)
    {
      var record := RecordOf(modules[k]);
      var bad, open, missing := Inspect(record);
      ghost var before := records;
      records := records + [record];
      Extended(before, record);
      // A settled child raises the flag for its adverse results, a broken one always.
      if modules[k].child.Broken? {
        failure := true;
      } else if modules[k].child.Reported? && bad {
        failure := true;
      }
      verified := verified && record.inventoryVerified;
      uncovered, complete := uncovered || missing, complete && !open;
      k := k + 1;
    }
    LaneExactly(modules, records);
    failure := failure || !verified;
    portable := if failure then Failed else if execute && complete then Passed else NotExecuted;
    overall := if failure then Failed else if uncovered then CoverageUnavailable else if execute && complete then Passed else NotExecuted;
  }

  lemma Extended(records: seq<Record>, r: Record)
    ensures Failing(records + [r]) <==> Failing(records) || RecordBad(r)
    ensures Uncovered(records + [r]) <==> Uncovered(records) || RowMissing(r)
    ensures Complete(records + [r]) <==> Complete(records) && !RowOpen(r)
  {
    var all := records + [r];
    assert all[|records|] == r;
    if Failing(records) {
      var k :| 0 <= k < |records| && RecordBad(records[k]);
      assert all[k] == records[k];
    }
    if Uncovered(records) {
      var k :| 0 <= k < |records| && RowMissing(records[k]);
      assert all[k] == records[k];
    }
    if Complete(all) {
      forall k | 0 <= k < |records| ensures !RowOpen(records[k]) {
        assert all[k] == records[k];
      }
    }
  }

  /** The diagnosis: errors and failures are listed from the rows, and the verdict
      is taken from the lists. It knows no passing overall status. */
  method Project(records: seq<Record>) returns (portable: Verdict, overall: Verdict)
    ensures (portable, overall) == Projected(records)
  {
    var anyError, listed, verified, complete := false, false, true, true;
    var k := 0;
    while k < |records|
      invariant 0 <= k <= |records|
      invariant anyError || listed || !verified <==> Failing(records[..k])
      invariant complete <==> Complete(records[..k])
    {
      var bad, open, missing := Inspect(records[k]);
      Extended(records[..k], records[k]);
      assert records[..k] + [records[k]] == records[..k + 1];
      anyError, listed := anyError || records[k].error, listed || bad;
      verified, complete := verified && records[k].inventoryVerified, complete && !open;
      k := k + 1;
    }
    assert records[..k] == records;
    var failed := anyError || listed || !verified;
    portable := if failed then Failed else if complete then Passed else NotExecuted;
    overall := if failed then Failed else CoverageUnavailable;
  }

  // ---------------------------------------------------------------- agreement

  /** Both verdicts as the supervisor reports them: portable, overall. */
  ghost function Supervised(records: seq<Record>, execute: bool): (Verdict, Verdict) {
    if Failing(records) then (Failed, Failed)
    else
      var portable := if execute && Complete(records) then Passed else NotExecuted;
      (portable, if Uncovered(records) then CoverageUnavailable else portable)
  }

  /** Both verdicts as the diagnosis recomputes them. */
  ghost function Projected(records: seq<Record>): (Verdict, Verdict) {
    if Failing(records) then (Failed, Failed)
    else (if Complete(records) then Passed else NotExecuted, CoverageUnavailable)
  }

  /** The diagnosis of an executed lane's ledger, on what became of the modules. */
  lemma ProjectedExactly(modules: seq<Module>, records: seq<Record>)
    requires forall k :: 0 <= k < |modules| ==> WellFormed(modules[k])
    requires |records| == |modules| && forall k :: 0 <= k < |modules| ==> records[k] == RecordOf(modules[k])
    ensures Projected(records).0 == Failed <==> LaneFails(modules)
    ensures Projected(records).0 == Passed <==> !LaneFails(modules) && AllSettled(modules)
    ensures Projected(records).1 == if LaneFails(modules) then Failed else CoverageUnavailable
  {
    LaneExactly(modules, records);
  }

  /** The portable verdicts agree exactly when the lane failed, was executed, or has
      an open portable row; the overall verdicts agree exactly when it failed or some
      row is not portable. In execute mode with a row outside the portable lane the
      two implementations therefore always agree. */
  lemma VerdictsAgreeExactly(records: seq<Record>, execute: bool)
    ensures Supervised(records, execute).0 == Projected(records).0 <==> Failing(records) || execute || !Complete(records)
    ensures Supervised(records, execute).1 == Projected(records).1 <==> Failing(records) || Uncovered(records)
  {}

  /** A verified lane without portable rows that was not executed: the supervisor
      says it was not run, the diagnosis says its portable part passed. */
  lemma IdleLaneDisagrees()
    ensures
      var records := [RecordOf(Module([false], Idle))];
      Supervised(records, false).0 == NotExecuted && Projected(records).0 == Passed
  {
    var records := [RecordOf(Module([false], Idle))];
    assert !Failing(records);
  }
}
