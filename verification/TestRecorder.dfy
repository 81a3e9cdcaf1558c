/**
 How the two native harnesses turn the callbacks of one test into its recorded
 outcome.
 */
module TestRecorder {
  import opened TestStatus

  /** `SubTest` carries what a failing subtest raised, if it failed. */
  datatype Callback =
    | Success | Failure | Fault | Skipped | ExpectedFailure | UnexpectedSuccess | SubTestOk | SubTestFailed | SubTestFault

  /** The owner-admission recorder: a success counts only while nothing else was recorded. */
  function FirstWord(status: Status, cb: Callback): Status {
    match cb
    case Success => if status == Started then Pass else status
    case Failure => Fail
    case Fault => Error
    case Skipped => Skip
    case ExpectedFailure => Fail
    case UnexpectedSuccess => Fail
    case SubTestOk => status
    case SubTestFailed => Fail
    case SubTestFault => Error
  }

  /** The owner-scope recorder: the last callback wins, success included. */
  function LastWord(status: Status, cb: Callback): Status {
    match cb
    case Success => Pass
    case SubTestFault => Fail
    case _ => FirstWord(status, cb)
  }

  function Recorded(lenient: bool, status: Status, cb: Callback): Status {
    if lenient then LastWord(status, cb) else FirstWord(status, cb)
  }

  /** The outcome after all callbacks of a test. */
  function Outcome(lenient: bool, seen: seq<Callback>): Status
    decreases |seen|
  {
    if seen == [] then Started else Recorded(lenient, Outcome(lenient, seen[..|seen| - 1]), seen[|seen| - 1])
  }

  class Recorder {
    const lenient: bool
    var status: Status
    ghost var seen: seq<Callback>

    ghost predicate Valid()
      reads this
    {
      status == Outcome(lenient, seen)
    }

    /** `startTest`. */
    constructor (lenient: bool)
      ensures Valid() && this.lenient == lenient && seen == [] && status == Started
    {
      this.lenient, status, seen := lenient, Started, [];
    }

    method Record(cb: Callback)
      requires Valid()
      modifies this
      ensures Valid() && seen == old(seen) + [cb]
    {
      assert (seen + [cb])[..|seen|] == seen;
      status := Recorded(lenient, status, cb);
      seen := seen + [cb];
    }
  }

  /** Callbacks that record an outcome other than success. */
  predicate Adverse(cb: Callback) {
    cb != Success && cb != SubTestOk
  }

  /** A success with nothing adverse after it. */
  ghost predicate LateSuccess(seen: seq<Callback>) {
    exists i :: LateAt(seen, i)
  }

  ghost predicate LateAt(seen: seq<Callback>, i: int) {
    0 <= i < |seen| && seen[i] == Success && forall j :: i < j < |seen| ==> !Adverse(seen[j])
  }

  lemma LateSuccessOneMore(seen: seq<Callback>, last: Callback)
    ensures LateSuccess(seen + [last]) <==> last == Success || (LateSuccess(seen) && !Adverse(last))
  {
    var all := seen + [last];
    if i :| LateAt(all, i) {
      if last != Success {
        assert !Adverse(all[|seen|]);
        assert forall j :: i < j < |seen| ==> seen[j] == all[j];
        assert LateAt(seen, i);
      }
    }
    if last == Success {
      assert LateAt(all, |seen|);
    } else if LateSuccess(seen) && !Adverse(last) {
      var i :| LateAt(seen, i);
      assert LateAt(all, i);
    }
  }

  /** The owner-admission recorder says PASS exactly when the test succeeded and
      nothing adverse happened, before or after. */
  lemma {:induction false} StrictPassesExactly(seen: seq<Callback>)
    ensures Outcome(false, seen) == Pass <==> Success in seen && forall cb :: cb in seen ==> !Adverse(cb)
    ensures Outcome(false, seen) == Started <==> forall cb :: cb in seen ==> cb == SubTestOk
    decreases |seen|
  {
    if seen != [] {
      var before, last := seen[..|seen| - 1], seen[|seen| - 1];
      StrictPassesExactly(before);
      assert seen == before + [last];
      assert last in seen;
      assert forall cb :: cb in seen <==> cb in before || cb == last;
    }
  }

  /** The owner-scope recorder says PASS exactly when some success has nothing adverse after it. */
  lemma {:induction false} LenientPassesExactly(seen: seq<Callback>)
    ensures Outcome(true, seen) == Pass <==> LateSuccess(seen)
    decreases |seen|
  {
    if seen != [] {
      var before, last := seen[..|seen| - 1], seen[|seen| - 1];
      LenientPassesExactly(before);
      LateSuccessOneMore(before, last);
      assert seen == before + [last];
    }
  }

  /** A PASS of the strict recorder is a PASS of the lenient one, and the lenient
      one passes more exactly when something adverse came before its late success. */
  lemma RecordersDisagreeExactly(seen: seq<Callback>)
    ensures Outcome(false, seen) == Pass ==> Outcome(true, seen) == Pass
    ensures Outcome(true, seen) == Pass && Outcome(false, seen) != Pass
       <==> LateSuccess(seen) && exists cb :: cb in seen && Adverse(cb)
  {
    StrictPassesExactly(seen);
    LenientPassesExactly(seen);
    if Outcome(false, seen) == Pass {
      var i :| 0 <= i < |seen| && seen[i] == Success;
      assert LateAt(seen, i);
    }
  }

  /** Callbacks that settle the outcome: for the strict recorder the adverse ones, for
      the lenient one all but a subtest that passed. */
  predicate Decisive(lenient: bool, cb: Callback) {
    if lenient then cb != SubTestOk else Adverse(cb)
  }

  /** The last decisive callback is this one. */
  ghost predicate EndsIn(lenient: bool, seen: seq<Callback>, cb: Callback) {
    exists i :: EndsAt(lenient, seen, cb, i)
  }

  ghost predicate EndsAt(lenient: bool, seen: seq<Callback>, cb: Callback, i: int) {
    0 <= i < |seen| && seen[i] == cb && forall j :: i < j < |seen| ==> !Decisive(lenient, seen[j])
  }

  lemma EndsInOneMore(lenient: bool, seen: seq<Callback>, last: Callback, cb: Callback)
    ensures EndsIn(lenient, seen + [last], cb) <==> last == cb || (EndsIn(lenient, seen, cb) && !Decisive(lenient, last))
  {
    var all := seen + [last];
    if i :| EndsAt(lenient, all, cb, i) {
      if last != cb {
        assert !Decisive(lenient, all[|seen|]);
        assert forall j :: i < j < |seen| ==> seen[j] == all[j];
        assert EndsAt(lenient, seen, cb, i);
      }
    }
    if last == cb {
      assert EndsAt(lenient, all, cb, |seen|);
    } else if EndsIn(lenient, seen, cb) && !Decisive(lenient, last) {
      var i :| EndsAt(lenient, seen, cb, i);
      assert EndsAt(lenient, all, cb, i);
    }
  }

  /** What each recorder says of a test that did not simply pass: the last decisive
      callback decides. A failing subtest's error is an error for the strict recorder
      and a failure for the lenient one. */
  lemma {:induction false} OutcomeExactly(lenient: bool, seen: seq<Callback>)
    ensures Outcome(lenient, seen) == Skip <==> EndsIn(lenient, seen, Skipped)
    ensures Outcome(lenient, seen) == Error <==> EndsIn(lenient, seen, Fault) || (!lenient && EndsIn(lenient, seen, SubTestFault))
    ensures Outcome(lenient, seen) == Fail
       <==> || EndsIn(lenient, seen, Failure) || EndsIn(lenient, seen, ExpectedFailure) || EndsIn(lenient, seen, UnexpectedSuccess)
            || EndsIn(lenient, seen, SubTestFailed) || (lenient && EndsIn(lenient, seen, SubTestFault))
    ensures Outcome(lenient, seen) != NotRun
    decreases |seen|
  {
    if seen != [] {
      var before, last := seen[..|seen| - 1], seen[|seen| - 1];
      OutcomeExactly(lenient, before);
      assert seen == before + [last];
      EndsInOneMore(lenient, before, last, Skipped);
      EndsInOneMore(lenient, before, last, Fault);
      EndsInOneMore(lenient, before, last, SubTestFault);
      EndsInOneMore(lenient, before, last, Failure);
      EndsInOneMore(lenient, before, last, ExpectedFailure);
      EndsInOneMore(lenient, before, last, UnexpectedSuccess);
      EndsInOneMore(lenient, before, last, SubTestFailed);
    }
  }

  /** The lenient recorder leaves a test as started exactly when nothing decisive happened. */
  lemma {:induction false} LenientStartedExactly(seen: seq<Callback>)
    ensures Outcome(true, seen) == Started <==> forall i :: 0 <= i < |seen| ==> !Decisive(true, seen[i])
    decreases |seen|
  {
    if seen != [] {
      var n := |seen| - 1;
      LenientStartedExactly(seen[..n]);
      assert forall i :: 0 <= i < n ==> seen[..n][i] == seen[i];
    }
  }
}
