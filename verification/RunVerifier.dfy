/**
 The deterministic run verifier, and what its verdict says about the history of
 the executor it judges.
 */
module RunVerifier {
  import opened Wrappers
  import opened SideEffects
  import opened SideEffectRuns

  /** `verify_run` on the fields of an executor snapshot; the fault is observed whenever it is triggered. */
  predicate VerifyRun(initial: Option<State>, actual: Option<State>, initialVerified: bool, x: Executor) {
    && initialVerified && initial == Some(INITIAL)
    && actual == Some(TARGET)
    && x.mutations == 1
    && x.readback
    && !x.uncertain
    && x.blindRetries == 0
    && (x.planned ==> x.triggered)
    && (x.planned ==> x.reconciled)
  }

  /** A conformant history: one transition, observed before and read back or
      reconciled after, no blind retry, and every lost response reconciled.
      `ObservedFirst` holds of every executor run (`LogInv`): it belongs to the
      history a passing verdict vouches for, but no run is refused for it. */
  ghost predicate Conformant(events: seq<Event>, planned: bool) {
    && Transitions(events) == 1
    && ObservedFirst(events)
    && (ReadBack(events) || Logged(events, Reconciled))
    && !Logged(events, Blocked(BlindRetry))
    && (planned ==> FaultThenReconcile(events))
  }

  ghost predicate FaultThenReconcile(events: seq<Event>) {
    exists i, j :: 0 <= i < j < |events| && events[i] == Fault && events[j] == Reconciled
  }

  lemma {:induction false} BlindRetriesPositive(events: seq<Event>)
    ensures BlindRetries(events) > 0 <==> Logged(events, Blocked(BlindRetry))
    decreases |events|
  {
    if events != [] {
      var n := |events| - 1;
      BlindRetriesPositive(events[..n]);
      assert events == events[..n] + [events[n]];
      LoggedLonger(events[..n], events[n], Blocked(BlindRetry));
    }
  }

  /** A planned run logs a fault for every transition, an unplanned one none. */
  ghost predicate FaultInv(x: Executor) {
    if x.planned then Faults(x.events) == Transitions(x.events) else Faults(x.events) == 0
  }

  function Faults(events: seq<Event>): nat
    decreases |events|
  {
    if events == [] then 0 else Faults(events[..|events| - 1]) + if events[|events| - 1] == Fault then 1 else 0
  }

  lemma FaultsLonger(events: seq<Event>, e: Event)
    ensures Faults(events + [e]) == Faults(events) + if e == Fault then 1 else 0
    ensures Transitions(events + [e]) == Transitions(events) + if e.Transition? then 1 else 0
  {
    assert (events + [e])[..|events|] == events;
  }

  lemma FaultsOfApply(x: Executor, fate: Fate)
    requires FaultInv(x)
    ensures FaultInv(DoApply(x, fate).executor)
  {
    FaultsLonger(x.events, Blocked(BlindRetry));
    FaultsLonger(x.events, Blocked(ObservationRequired));
    var current := ReadOf(x.env, fate.readOk);
    var change := ChangeOf(current.env, fate);
    if current.state.Some? && change.state.Some? {
      FaultsOfMutation(x, change.env, current.state.value, change.state.value);
    }
  }

  lemma FaultsOfMutation(x: Executor, env: Env, before: State, after: State)
    requires FaultInv(x)
    ensures FaultInv(Mutated(x, env, before, after))
  {
    var t := Transition(before, after);
    FaultsLonger(x.events, t);
    if x.planned {
      FaultsLonger(x.events + [t], Fault);
      FaultsLonger(x.events + [t] + [Fault], ChangeReported(true));
      assert x.events + [t, Fault, ChangeReported(true)] == x.events + [t] + [Fault] + [ChangeReported(true)];
    } else {
      FaultsLonger(x.events + [t], ChangeReported(false));
      assert x.events + [t, ChangeReported(false)] == x.events + [t] + [ChangeReported(false)];
    }
  }

  lemma FaultsOfOthers(x: Executor, fate: Fate)
    requires FaultInv(x)
    ensures FaultInv(DoRead(x, fate).executor) && FaultInv(DoReconcile(x, fate).executor)
  {
    var read := ReadOf(x.env, fate.readOk);
    if read.state.Some? {
      FaultsLonger(x.events, Observed(read.state.value));
    }
    FaultsLonger(x.events, Reconciled);
    FaultsLonger(x.events, Blocked(ReconcileWithoutUnknown));
  }

  lemma {:induction false} FaultRun(env: Env, planned: bool, steps: seq<Step>)
    ensures FaultInv(RunAll(Started(env, planned), steps))
    ensures RunAll(Started(env, planned), steps).planned == planned
    decreases |steps|
  {
    if steps != [] {
      var before, last := steps[..|steps| - 1], steps[|steps| - 1];
      FaultRun(env, planned, before);
      var x := RunAll(Started(env, planned), before);
      if last.Call? {
        FaultsOfApply(x, last.fate);
        FaultsOfOthers(x, last.fate);
      }
    }
  }

  lemma {:induction false} FaultsPositive(events: seq<Event>)
    ensures Faults(events) > 0 <==> Logged(events, Fault)
    decreases |events|
  {
    if events != [] {
      var n := |events| - 1;
      FaultsPositive(events[..n]);
      assert events == events[..n] + [events[n]];
      LoggedLonger(events[..n], events[n], Fault);
    }
  }

  /** A single lost response is open or was followed by a reconcile, never both. */
  lemma {:induction false} OpenOrReconciled(events: seq<Event>)
    requires Faults(events) <= 1
    ensures Logged(events, Fault) ==> (OpenFault(events) <==> !FaultThenReconcile(events))
    ensures FaultThenReconcile(events) ==> Logged(events, Fault)
    decreases |events|
  {
    if events != [] {
      var n := |events| - 1;
      var before, last := events[..n], events[n];
      assert events == before + [last];
      OpenOrReconciled(before);
      FaultsPositive(before);
      OpenFaultLonger(before, last);
      LoggedLonger(before, last, Fault);
      ReconciledLonger(before, last);
    }
  }

  lemma ReconciledLonger(events: seq<Event>, e: Event)
    ensures FaultThenReconcile(events + [e]) <==> FaultThenReconcile(events) || (e == Reconciled && Logged(events, Fault))
  {
    var all := events + [e];
    if i, j :| 0 <= i < j < |all| && all[i] == Fault && all[j] == Reconciled {
      assert events[i] == Fault;
      if j < |events| {
        assert events[j] == Reconciled;
      }
    }
    if FaultThenReconcile(events) {
      var i, j :| 0 <= i < j < |events| && events[i] == Fault && events[j] == Reconciled;
      assert all[i] == Fault && all[j] == Reconciled;
    }
    if e == Reconciled && Logged(events, Fault) {
      var i :| 0 <= i < |events| && events[i] == Fault;
      assert all[i] == Fault && all[|events|] == Reconciled;
    }
  }

  /** For every run of the executor in a freshly verified environment, and any
      final read: the verifier passes exactly when that read succeeds and the
      event log is conformant. */
  lemma PassesExactly(env: Env, planned: bool, steps: seq<Step>, readOk: bool)
    requires JustVerified(env)
    ensures
      var x := RunAll(Started(env, planned), steps);
      VerifyRun(Some(INITIAL), ReadOf(x.env, readOk).state, true, x) <==> readOk && Conformant(x.events, planned)
  {
    var x := RunAll(Started(env, planned), steps);
    EffectRun(Started(env, planned), steps);
    LogRun(env, planned, steps);
    FaultRun(env, planned, steps);
    BlindRetriesPositive(x.events);
    FaultsPositive(x.events);
    VerdictOfLog(x, ReadOf(x.env, readOk).state, readOk);
  }

  lemma VerdictOfLog(x: Executor, actual: Option<State>, readOk: bool)
    requires EffectInv(x) && LogInv(x) && FaultInv(x)
    requires BlindRetries(x.events) > 0 <==> Logged(x.events, Blocked(BlindRetry))
    requires Faults(x.events) > 0 <==> Logged(x.events, Fault)
    requires actual == if readOk then Parse(x.env.content) else None
    ensures VerifyRun(Some(INITIAL), actual, true, x) <==> readOk && Conformant(x.events, x.planned)
  {
    if x.mutations == 1 {
      OpenOrReconciled(x.events);
    }
    ReconcileLogged(x.events);
  }

  lemma ReconcileLogged(events: seq<Event>)
    ensures FaultThenReconcile(events) ==> Logged(events, Reconciled)
  {}
}
