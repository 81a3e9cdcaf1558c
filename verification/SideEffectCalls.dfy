/**
 What every tool call of the side-effect executor answers and does, in every run:
 when it succeeds, what it logs, and that runs which pass verification exist.
 */
module SideEffectCalls {
  import opened Wrappers
  import opened SideEffects
  import opened SideEffectRuns
  import opened RunVerifier

  /** Nothing but the environment's last observation differs. */
  ghost predicate OnlyObserved(x: Executor, y: Executor) {
    SameFile(x.env, y.env) && y.env.lifecycle == x.env.lifecycle && y == x.(env := y.env)
  }

  /** An apply that nothing stops, or the first thing that stops it. */
  ghost predicate Applies(x: Executor, fate: Fate) {
    Reaches(x, fate) && fate.write == Written && fate.readbackOk
  }

  lemma ChangeSucceeds(e: Env, fate: Fate)
    requires e.verified
    ensures ChangeOf(e, fate).state.Some? <==> fate.write == Written && fate.readbackOk
    ensures ChangeOf(e, fate).state.Some? ==>
      && ChangeOf(e, fate).state == Some(TARGET)
      && ChangeOf(e, fate).env
         == e.(content := Changed, writes := e.writes + 1, observable := Some(TARGET), lifecycle := Running, receipt := true)
  {}

  lemma ApplyAnswers(x: Executor, fate: Fate)
    requires x.env.verified
    ensures
      var r := DoApply(x, fate);
      && (!r.raised <==> Applies(x, fate))
      && (!r.raised ==>
            && r.executor.mutations == x.mutations + 1 && r.executor.env.receipt && r.executor.env.content == Changed
            && r.executor.env.lifecycle == Running
            && r.executor.events == x.events + [Transition(INITIAL, TARGET)] + (if x.planned then [Fault] else []) + [ChangeReported(x.planned)]
            && r.executor.uncertain == x.planned && (x.planned ==> r.executor.triggered))
      && (r.raised ==>
            && r.executor.mutations == x.mutations && r.executor.env.receipt == x.env.receipt && r.executor.uncertain == x.uncertain
            && r.executor.events
               == x.events + (if x.uncertain then [Blocked(BlindRetry)] else if !x.observed then [Blocked(ObservationRequired)] else [])
            && r.executor.blindRetries == x.blindRetries + if x.uncertain then 1 else 0)
  {
    if Reaches(x, fate) {
      ChangeSucceeds(ReadOf(x.env, fate.readOk).env, fate);
    }
    assert x.events + [] == x.events;
    assert x.events + [Transition(INITIAL, TARGET), Fault, ChangeReported(true)]
        == x.events + [Transition(INITIAL, TARGET)] + [Fault] + [ChangeReported(true)];
    assert x.events + [Transition(INITIAL, TARGET), ChangeReported(false)]
        == x.events + [Transition(INITIAL, TARGET)] + [] + [ChangeReported(false)];
  }

  /** In every run in a freshly verified environment an apply succeeds exactly when
      nothing is uncertain, the untouched seed was observed before and is read again,
      and the write and its read-back succeed. Then it counts one mutation, leaves the
      receipt, logs the transition from INITIAL to TARGET, and reports the outcome as
      unknown exactly when a fault is planned. An apply that raises counts nothing,
      leaves no receipt, and logs at most why it was blocked. */
  lemma ApplyExactly(env: Env, planned: bool, steps: seq<Step>, fate: Fate)
    requires JustVerified(env)
    ensures
      var x := RunAll(Started(env, planned), steps);
      var r := Executed(x, ApplyTool, fate);
      && (!r.raised <==> Applies(x, fate))
      && (!r.raised ==>
            && r.executor.mutations == x.mutations + 1 && r.executor.env.receipt && r.executor.env.content == Changed
            && r.executor.env.lifecycle == Running
            && r.executor.events == x.events + [Transition(INITIAL, TARGET)] + (if planned then [Fault] else []) + [ChangeReported(planned)]
            && r.executor.uncertain == planned)
      && (r.raised ==>
            && r.executor.mutations == x.mutations && r.executor.env.receipt == x.env.receipt && r.executor.uncertain == x.uncertain
            && r.executor.events
               == x.events + (if x.uncertain then [Blocked(BlindRetry)] else if !x.observed then [Blocked(ObservationRequired)] else []))
  {
    EffectRun(Started(env, planned), steps);
    FaultRun(env, planned, steps);
    ApplyAnswers(RunAll(Started(env, planned), steps), fate);
  }

  /** In every run a reconcile succeeds exactly when an outcome is unknown and the
      state can be read; then the outcome is known and counts as read back. */
  lemma ReconcileExactly(env: Env, planned: bool, steps: seq<Step>, fate: Fate)
    requires JustVerified(env)
    ensures
      var x := RunAll(Started(env, planned), steps);
      var r := Executed(x, ReconcileTool, fate);
      && (!r.raised <==> x.uncertain && fate.readOk)
      && (!r.raised ==>
            && !r.executor.uncertain && r.executor.reconciled && r.executor.readback
            && r.executor.mutations == x.mutations && r.executor.events == x.events + [Reconciled])
      && (r.raised ==>
            OnlyObserved(x.(events := x.events + if x.uncertain then [] else [Blocked(ReconcileWithoutUnknown)]), r.executor))
      && SameFile(x.env, r.executor.env)
  {
    EffectRun(Started(env, planned), steps);
    var x := RunAll(Started(env, planned), steps);
    ReconcileFile(x, fate);
    assert x.events + [] == x.events;
  }

  /** In every run a read succeeds exactly when the command does and the file parses;
      it reports and logs the state the file holds, and changes nothing else. */
  lemma ReadExactly(env: Env, planned: bool, steps: seq<Step>, fate: Fate)
    requires JustVerified(env)
    ensures
      var x := RunAll(Started(env, planned), steps);
      var r := Executed(x, ReadTool, fate);
      && (!r.raised <==> fate.readOk && x.env.content != Torn(false))
      && (!r.raised ==>
            && r.executor.observed && r.executor.events == x.events + [Observed(Parse(x.env.content).value)]
            && r.executor.readback == (x.readback || x.mutations > 0)
            && r.executor.env == x.env.(observable := Parse(x.env.content))
            && r.executor.mutations == x.mutations && r.executor.uncertain == x.uncertain)
      && (r.raised ==> r.executor == x)
  {
    EffectRun(Started(env, planned), steps);
  }

  /** A malformed call raises and changes nothing. */
  lemma MalformedChangesNothing(x: Executor, fate: Fate)
    ensures Executed(x, Malformed, fate) == Result(x, true)
  {}

  // ---------------------------------------------------------------- runs that pass

  const FINE: Fate := Fate(true, Written, true)

  lemma ThreeSteps(x: Executor, a: Step, b: Step, c: Step)
    ensures RunAll(x, [a, b, c]) == Do(Do(Do(x, a), b), c)
  {
    var s := [a, b, c];
    assert s[..2][..1] == s[..1] && s[..1][..0] == [];
    assert RunAll(x, s[..1]) == Do(x, a);
    assert RunAll(x, s[..2]) == Do(Do(x, a), b);
  }

  /** Reached: observe, change and read back passes verification. */
  lemma UnplannedRunPasses(env: Env)
    requires JustVerified(env)
    ensures
      var x := RunAll(Started(env, false), [Call(ReadTool, FINE), Call(ApplyTool, FINE), Call(ReadTool, FINE)]);
      VerifyRun(Some(INITIAL), ReadOf(x.env, true).state, true, x) && x.env.content == Changed && x.env.receipt
  {
    ThreeSteps(Started(env, false), Call(ReadTool, FINE), Call(ApplyTool, FINE), Call(ReadTool, FINE));
    var x := Do(Started(env, false), Call(ReadTool, FINE));
    ApplyAnswers(x, FINE);
    FirstApply(x);
  }

  /** Reached: with a planned fault, observe, change and reconcile passes verification. */
  lemma PlannedRunPasses(env: Env)
    requires JustVerified(env)
    ensures
      var x := RunAll(Started(env, true), [Call(ReadTool, FINE), Call(ApplyTool, FINE), Call(ReconcileTool, FINE)]);
      VerifyRun(Some(INITIAL), ReadOf(x.env, true).state, true, x) && x.triggered && x.reconciled && x.env.receipt
  {
    ThreeSteps(Started(env, true), Call(ReadTool, FINE), Call(ApplyTool, FINE), Call(ReconcileTool, FINE));
    var x := Do(Started(env, true), Call(ReadTool, FINE));
    ApplyAnswers(x, FINE);
    FirstApply(x);
  }

  lemma FirstApply(x: Executor)
    requires x.env.verified && Applies(x, FINE)
    ensures
      var y := DoApply(x, FINE).executor;
      && y.planned == x.planned && y.observed && y.blindRetries == x.blindRetries && y.reconciled == x.reconciled
      && (x.planned ==> y.triggered) && y.env.content == Changed && y.env.receipt && y.env.verified
      && y.mutations == x.mutations + 1 && y.uncertain == x.planned
  {
    ChangeSucceeds(ReadOf(x.env, true).env, FINE);
  }

  // ---------------------------------------------------------------- the environment's lifecycle

  /** Each stage of the environment is entered in exactly one way: a container is
      provisioned where there is none, a probe finds it ready, its first read is the
      seed, a change goes through, a hook stops it before the agent, its removal is
      confirmed; and it is quarantined exactly when a probe or a first read finds it
      unusable or its removal is not confirmed. */
  lemma LifecycleExactly(e: Env, op: EnvOp)
    ensures
      var next := DoEnv(e, op).lifecycle;
      && (next == Provisioned != e.lifecycle ==> op == ProvisionOp(true) && e.content == Absent)
      && (op == ProvisionOp(true) && e.content == Absent ==> next == Provisioned && DoEnv(e, op).content == Seed)
      && (e.lifecycle != ReadyUnverified ==>
            (next == ReadyUnverified <==> op == ReadinessOp(Ready) && e.lifecycle != Quarantined && !e.hook))
      && (e.lifecycle != ReadyVerified ==>
            (next == ReadyVerified <==> op == VerifyOp(true) && e.lifecycle == ReadyUnverified && e.content == Seed))
      && (e.lifecycle != Running ==>
            (next == Running <==> op.ChangeOp? && e.verified && op.fate.write == Written && op.fate.readbackOk))
      && (e.lifecycle != FailedBeforeAgent ==>
            (next == FailedBeforeAgent <==>
              (op == ReadinessOp(Ready) || op == ReadinessOp(TimedOut)) && e.lifecycle != Quarantined && e.hook))
      && (e.lifecycle != Cleaned ==> (next == Cleaned <==> op == CleanupOp(Removed) && e.lifecycle != Quarantined))
      && (e.lifecycle != Quarantined ==>
            (next == Quarantined <==>
              || op == ReadinessOp(NotRunning) || (op == ReadinessOp(TimedOut) && !e.hook)
              || (op == VerifyOp(true) && e.lifecycle == ReadyUnverified && Parse(e.content).Some? && e.content != Seed)
              || (op.CleanupOp? && op.removal != Removed)))
  {}

  /** What a cleanup leaves: nothing once the container is gone, also no write that
      could still land, and the environment as it was if it is quarantined or the
      container stays. It is never written again in between. */
  lemma CleanupExactly(e: Env, removal: Removal)
    ensures
      var after := AfterCleanup(e, removal);
      && after.writes == e.writes && after.receipt == e.receipt
      && (e.lifecycle == Quarantined ==> after == e)
      && (e.lifecycle != Quarantined && removal == NotRemoved ==> after.content == e.content && after.pending == e.pending)
      && (e.lifecycle != Quarantined && removal != NotRemoved ==> after.content == Absent && after.pending == 0)
      && (after.verified <==> e.verified && (e.lifecycle == Quarantined || removal == Removed))
  {}
}
