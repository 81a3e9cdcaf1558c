/**
 Safety of the side-effect executor over every sequence of tool calls and late
 landings: how often the state is written, what it can read as, and what the
 event log says of every run.
 */
module SideEffectRuns {
  import opened Wrappers
  import opened SideEffects

  datatype Step = Call(tool: Tool, fate: Fate) | Landing

  function Do(x: Executor, step: Step): Executor {
    match step
    case Call(tool, fate) => Executed(x, tool, fate).executor
    case Landing => x.(env := Land(x.env))
  }

  function RunAll(x: Executor, steps: seq<Step>): Executor
    decreases |steps|
  {
    if steps == [] then x else Do(RunAll(x, steps[..|steps| - 1]), steps[|steps| - 1])
  }

  /** An environment right after its initial state was verified. */
  ghost predicate JustVerified(e: Env) {
    e.verified && e.content == Seed && !e.receipt && e.writes == 0 && e.pending == 0
  }

  // ---------------------------------------------------------------- the environment under the executor

  ghost predicate EffectInv(x: Executor) {
    && x.env.verified && x.env.content != Absent
    && (x.env.writes == 0 <==> x.env.content == Seed)
    && x.mutations <= 1
    && (x.mutations == 1 ==> x.env.content == Changed && x.env.receipt)
    && (x.uncertain ==> x.mutations == 1)
  }

  /** The state file and what the environment remembers about it. */
  ghost predicate SameFile(e: Env, f: Env) {
    f.content == e.content && f.writes == e.writes && f.pending == e.pending && f.verified == e.verified && f.receipt == e.receipt
  }

  lemma ReadFile(x: Executor, fate: Fate)
    ensures SameFile(x.env, DoRead(x, fate).executor.env)
    ensures DoRead(x, fate).executor.mutations == x.mutations && DoRead(x, fate).executor.uncertain == x.uncertain
  {}

  lemma ReconcileFile(x: Executor, fate: Fate)
    ensures SameFile(x.env, DoReconcile(x, fate).executor.env)
    ensures DoReconcile(x, fate).executor.mutations == x.mutations
    ensures DoReconcile(x, fate).executor.uncertain ==> x.uncertain
  {}

  lemma ChangeFile(e: Env, fate: Fate)
    requires e.verified
    ensures
      var r := ChangeOf(e, fate);
      && SameFile(Write(e, fate.write).(receipt := e.receipt || r.state.Some?), r.env)
      && (r.state.Some? ==> r.state == Some(TARGET) && fate.write == Written)
  {}

  /** An apply reaches the write only over the untouched seed. */
  predicate Reaches(x: Executor, fate: Fate) {
    !x.uncertain && x.observed && fate.readOk && x.env.content == Seed
  }

  lemma ApplyFile(x: Executor, fate: Fate)
    requires x.env.verified
    ensures
      var y := DoApply(x, fate).executor;
      if Reaches(x, fate) then
        && SameFile(Write(x.env, fate.write).(receipt := x.env.receipt || y.mutations > x.mutations), y.env)
        && (y.mutations == x.mutations || (y.mutations == x.mutations + 1 && fate.write == Written))
        && (y.uncertain ==> y.mutations == x.mutations + 1)
      else SameFile(x.env, y.env) && y.mutations == x.mutations && y.uncertain == x.uncertain
  {
    if Reaches(x, fate) {
      ChangeFile(ReadOf(x.env, fate.readOk).env, fate);
    }
  }

  lemma ReadEffect(x: Executor, fate: Fate)
    requires EffectInv(x)
    ensures EffectInv(DoRead(x, fate).executor) && EffectInv(DoReconcile(x, fate).executor)
  {
    ReadFile(x, fate);
    ReconcileFile(x, fate);
  }

  lemma ApplyEffect(x: Executor, fate: Fate)
    requires EffectInv(x)
    ensures EffectInv(DoApply(x, fate).executor)
  {
    ApplyFile(x, fate);
  }

  lemma EffectStep(x: Executor, step: Step)
    requires EffectInv(x)
    ensures EffectInv(Do(x, step))
  {
    if step.Call? {
      ReadEffect(x, step.fate);
      ApplyEffect(x, step.fate);
    }
  }

  lemma {:induction false} EffectRun(x: Executor, steps: seq<Step>)
    requires EffectInv(x)
    ensures EffectInv(RunAll(x, steps))
    decreases |steps|
  {
    if steps != [] {
      EffectRun(x, steps[..|steps| - 1]);
      EffectStep(RunAll(x, steps[..|steps| - 1]), steps[|steps| - 1]);
    }
  }

  /** A second physical write happens in exactly one way: a write that had timed
      out lands after another write. No tool call ever writes twice. */
  lemma SecondWriteExactly(x: Executor, step: Step)
    requires EffectInv(x) && x.env.writes >= 1
    ensures Do(x, step).env.writes != x.env.writes <==> step == Landing && x.env.pending > 0
    ensures Do(x, step).env.writes <= x.env.writes + 1
  {
    if step.Call? {
      match step.tool
      case ReadTool => ReadFile(x, step.fate);
      case ReconcileTool => ReconcileFile(x, step.fate);
      case ApplyTool => ApplyFile(x, step.fate);
      case Malformed =>
    }
  }

  lemma CallWrites(x: Executor, step: Step)
    requires EffectInv(x) && step.Call? && x.env.writes <= 1
    ensures Do(x, step).env.writes <= 1
  {
    if x.env.writes == 1 {
      SecondWriteExactly(x, step);
    } else {
      match step.tool
      case ReadTool => ReadFile(x, step.fate);
      case ReconcileTool => ReconcileFile(x, step.fate);
      case ApplyTool => ApplyFile(x, step.fate);
      case Malformed =>
    }
  }

  /** Without late landings the state is physically written at most once, however
      calls are rejected and whatever fails between the write and its read-back. */
  lemma {:induction false} WrittenAtMostOnce(env: Env, planned: bool, steps: seq<Step>)
    requires JustVerified(env)
    requires forall i :: 0 <= i < |steps| ==> steps[i].Call?
    ensures RunAll(Started(env, planned), steps).env.writes <= 1
    decreases |steps|
  {
    if steps != [] {
      var before := steps[..|steps| - 1];
      WrittenAtMostOnce(env, planned, before);
      EffectRun(Started(env, planned), before);
      CallWrites(RunAll(Started(env, planned), before), steps[|steps| - 1]);
    }
  }

  /** Reached: a write that timed out, a retry that succeeded, and the first write landing late. */
  lemma LateLandingWritesTwice(env: Env)
    requires JustVerified(env)
    ensures
      var ok := Fate(true, Written, true);
      RunAll(Started(env, false),
             [Call(ReadTool, ok), Call(ApplyTool, ok.(write := FailedPending)), Call(ApplyTool, ok), Landing]).env.writes == 2
  {
    var ok := Fate(true, Written, true);
    var s := [Call(ReadTool, ok), Call(ApplyTool, ok.(write := FailedPending)), Call(ApplyTool, ok), Landing];
    assert s[..3][..2] == s[..2] && s[..2][..1] == s[..1] && s[..1][..0] == [];
    var x1 := Do(Started(env, false), s[0]);
    assert RunAll(Started(env, false), s[..1]) == x1;
    var x2 := Do(x1, s[1]);
    assert RunAll(Started(env, false), s[..2]) == x2;
    assert RunAll(Started(env, false), s[..3]) == Do(x2, s[2]);
  }

  /** While an outcome is unknown no call touches the environment. */
  lemma NoWriteWhileUncertain(x: Executor, tool: Tool, fate: Fate)
    requires x.uncertain
    ensures
      var e := Executed(x, tool, fate).executor.env;
      e.content == x.env.content && e.writes == x.env.writes && e.pending == x.env.pending
  {
    match tool
    case ReadTool => ReadFile(x, fate);
    case ReconcileTool => ReconcileFile(x, fate);
    case ApplyTool => BlockedFile(x, fate);
    case Malformed =>
  }

  lemma BlockedFile(x: Executor, fate: Fate)
    requires x.uncertain
    ensures DoApply(x, fate).executor.env == x.env
  {}

  /** Step `i` is an apply that reaches its write and has it torn. */
  ghost predicate TornAt(x: Executor, steps: seq<Step>, i: int, readable: bool) {
    && 0 <= i < |steps| && steps[i].Call? && steps[i].tool == ApplyTool
    && steps[i].fate.write == FailedTorn(readable) && Reaches(RunAll(x, steps[..i]), steps[i].fate)
  }

  /** Step `j` is a write that had timed out and reaches the file now. */
  ghost predicate LandsAt(x: Executor, steps: seq<Step>, j: int) {
    0 <= j < |steps| && steps[j] == Landing && RunAll(x, steps[..j]).env.pending > 0
  }

  ghost predicate LastTornAt(x: Executor, steps: seq<Step>, i: int, readable: bool) {
    TornAt(x, steps, i, readable) && forall j :: i < j < |steps| ==> !LandsAt(x, steps, j)
  }

  /** Some write was torn and no late landing has replaced what it left. */
  ghost predicate TornLeft(x: Executor, steps: seq<Step>, readable: bool) {
    exists i :: LastTornAt(x, steps, i, readable)
  }

  lemma EarlierStep(x: Executor, steps: seq<Step>, i: int, readable: bool)
    requires 0 <= i < |steps| - 1
    ensures TornAt(x, steps[..|steps| - 1], i, readable) == TornAt(x, steps, i, readable)
    ensures LandsAt(x, steps[..|steps| - 1], i) == LandsAt(x, steps, i)
  {
    assert steps[..|steps| - 1][..i] == steps[..i];
  }

  lemma TornEarlier(x: Executor, steps: seq<Step>, i: int, readable: bool)
    requires 0 <= i < |steps| - 1
    ensures
      LastTornAt(x, steps, i, readable)
      <==> LastTornAt(x, steps[..|steps| - 1], i, readable) && !LandsAt(x, steps, |steps| - 1)
  {
    var before, n := steps[..|steps| - 1], |steps| - 1;
    forall j | 0 <= j < n
      ensures LandsAt(x, before, j) == LandsAt(x, steps, j) && TornAt(x, before, j, readable) == TornAt(x, steps, j, readable)
    {
      EarlierStep(x, steps, j, readable);
    }
    if LastTornAt(x, before, i, readable) && !LandsAt(x, steps, n) {
      assert LastTornAt(x, steps, i, readable);
    }
    if LastTornAt(x, steps, i, readable) {
      assert !LandsAt(x, steps, n);
      forall j | i < j < n ensures !LandsAt(x, before, j) {
        assert !LandsAt(x, steps, j);
      }
    }
  }

  lemma TornLeftOneMore(x: Executor, steps: seq<Step>, readable: bool)
    requires steps != []
    ensures
      var before, n := steps[..|steps| - 1], |steps| - 1;
      TornLeft(x, steps, readable) <==> TornAt(x, steps, n, readable) || (TornLeft(x, before, readable) && !LandsAt(x, steps, n))
  {
    var before, n := steps[..|steps| - 1], |steps| - 1;
    forall i | 0 <= i < n
      ensures LastTornAt(x, steps, i, readable) <==> LastTornAt(x, before, i, readable) && !LandsAt(x, steps, n)
    {
      TornEarlier(x, steps, i, readable);
    }
    assert TornAt(x, steps, n, readable) == LastTornAt(x, steps, n, readable);
  }

  /** The one step that tears the file, and the one that mends it. */
  lemma TornStep(x: Executor, step: Step, readable: bool)
    requires EffectInv(x)
    ensures Do(x, step).env.content == Torn(readable) <==>
      || (step.Call? && step.tool == ApplyTool && step.fate.write == FailedTorn(readable) && Reaches(x, step.fate))
      || (x.env.content == Torn(readable) && !(step == Landing && x.env.pending > 0))
  {
    if step.Call? {
      match step.tool
      case ReadTool => ReadFile(x, step.fate);
      case ReconcileTool => ReconcileFile(x, step.fate);
      case ApplyTool => ApplyFile(x, step.fate);
      case Malformed =>
    }
  }

  /** The state file is torn exactly when an apply that got past every check had
      its write torn and no write that had timed out landed after it. */
  lemma {:induction false} TornExactly(env: Env, planned: bool, steps: seq<Step>, readable: bool)
    requires JustVerified(env)
    ensures RunAll(Started(env, planned), steps).env.content == Torn(readable) <==> TornLeft(Started(env, planned), steps, readable)
    decreases |steps|
  {
    if steps != [] {
      var before := steps[..|steps| - 1];
      TornExactly(env, planned, before, readable);
      EffectRun(Started(env, planned), before);
      TornStep(RunAll(Started(env, planned), before), steps[|steps| - 1], readable);
      TornLeftOneMore(Started(env, planned), steps, readable);
    }
  }

  /** The readable state is INITIAL or TARGET in every run exactly while no torn
      write is left behind: one torn before its last line reads as nothing, one
      torn inside it as a third state. While the outcome is unknown the receipt a
      reconcile asks for is there and the state is TARGET. */
  lemma ReadableState(env: Env, planned: bool, steps: seq<Step>)
    requires JustVerified(env)
    ensures
      var start := Started(env, planned);
      var x := RunAll(start, steps);
      && (Parse(x.env.content) in {Some(INITIAL), Some(TARGET)} <==> !TornLeft(start, steps, true) && !TornLeft(start, steps, false))
      && (Parse(x.env.content) == Some(CUT_SHORT) <==> TornLeft(start, steps, true))
      && (x.uncertain ==> x.env.receipt && Parse(x.env.content) == Some(TARGET))
  {
    EffectRun(Started(env, planned), steps);
    TornExactly(env, planned, steps, true);
    TornExactly(env, planned, steps, false);
  }

  /** Reached: a torn write that reads as neither state. */
  lemma TornWriteReadsAsThird(env: Env, planned: bool)
    requires JustVerified(env)
    ensures
      var ok := Fate(true, Written, true);
      var torn := Call(ApplyTool, ok.(write := FailedTorn(true)));
      && Parse(RunAll(Started(env, planned), [Call(ReadTool, ok), torn]).env.content) == Some(CUT_SHORT)
      && TornLeft(Started(env, planned), [Call(ReadTool, ok), torn], true)
  {
    var ok := Fate(true, Written, true);
    var torn := Call(ApplyTool, ok.(write := FailedTorn(true)));
    var s := [Call(ReadTool, ok), torn];
    assert s[..1][..0] == [] && s[..1][0] == s[0];
    var x := Do(Started(env, planned), s[0]);
    assert RunAll(Started(env, planned), s[..1]) == x;
    TornExactly(env, planned, s, true);
  }

  // ---------------------------------------------------------------- the environment's gates

  datatype EnvOp =
    | ProvisionOp(ok: bool) | ReadinessOp(probe: Probe) | VerifyOp(readOk: bool) | ReadOp(readOk: bool)
    | ChangeOp(fate: Fate) | CleanupOp(removal: Removal)

  function DoEnv(e: Env, op: EnvOp): Env {
    match op
    case ProvisionOp(ok) => AfterProvision(e, ok)
    case ReadinessOp(probe) => AfterReadiness(e, probe)
    case VerifyOp(readOk) => AfterVerify(e, readOk)
    case ReadOp(readOk) => ReadOf(e, readOk).env
    case ChangeOp(fate) => ChangeOf(e, fate).env
    case CleanupOp(removal) => AfterCleanup(e, removal)
  }

  /** The gates of the environment: only a verified one is ever written; it is
      verified exactly by reading the seed after readiness; and a quarantined one
      stays so, unverified and unwritten, until its container is gone and
      provisioned anew. */
  lemma GatesExactly(e: Env, op: EnvOp)
    ensures DoEnv(e, op).writes != e.writes ==> e.verified && op.ChangeOp?
    ensures !e.verified ==>
      (DoEnv(e, op).verified <==> op == VerifyOp(true) && e.lifecycle == ReadyUnverified && e.content == Seed)
    ensures e.lifecycle == Quarantined ==>
      (DoEnv(e, op).lifecycle != Quarantined <==>
        (op == ProvisionOp(true) && e.content == Absent) || (op.ChangeOp? && ChangeOf(e, op.fate).state.Some?))
    ensures e.lifecycle == Quarantined && !e.verified ==> !DoEnv(e, op).verified && DoEnv(e, op).writes == e.writes
  {}

  // ---------------------------------------------------------------- the snapshot is a fold of the log

  /** Some position of the log holds this event. */
  ghost predicate Logged(events: seq<Event>, e: Event) {
    exists i :: 0 <= i < |events| && events[i] == e
  }

  ghost predicate ReadLogged(events: seq<Event>) {
    exists i :: 0 <= i < |events| && events[i].Observed?
  }

  /** A later read of the environment, after its transition. */
  ghost predicate ReadBack(events: seq<Event>) {
    exists i, j :: 0 <= i < j < |events| && events[i].Transition? && events[j].Observed?
  }

  /** A lost response that no reconcile has answered. */
  ghost predicate OpenFault(events: seq<Event>) {
    exists i :: LastFault(events, i)
  }

  ghost predicate LastFault(events: seq<Event>, i: int) {
    0 <= i < |events| && events[i] == Fault && forall j :: i < j < |events| ==> events[j] != Reconciled
  }

  function Transitions(events: seq<Event>): nat
    decreases |events|
  {
    if events == [] then 0 else Transitions(events[..|events| - 1]) + if events[|events| - 1].Transition? then 1 else 0
  }

  function BlindRetries(events: seq<Event>): nat
    decreases |events|
  {
    if events == [] then 0
    else BlindRetries(events[..|events| - 1]) + if events[|events| - 1] == Blocked(BlindRetry) then 1 else 0
  }

  /** Every field of a snapshot says what the event log says. */
  ghost predicate SnapshotIsFold(x: Executor) {
    && (x.observed <==> ReadLogged(x.events))
    && x.mutations == Transitions(x.events)
    && (x.readback <==> ReadBack(x.events) || Logged(x.events, Reconciled))
    && (x.uncertain <==> OpenFault(x.events))
    && x.blindRetries == BlindRetries(x.events)
    && (x.triggered <==> Logged(x.events, Fault))
    && (x.reconciled <==> Logged(x.events, Reconciled))
  }

  /** Nothing is changed that was not observed before. */
  ghost predicate ObservedFirst(events: seq<Event>) {
    forall i :: 0 <= i < |events| && events[i].Transition? ==>
      exists h :: 0 <= h < i && events[h].Observed?
  }

  lemma Longer(events: seq<Event>, e: Event)
    ensures ReadLogged(events + [e]) <==> ReadLogged(events) || e.Observed?
    ensures Transitions(events + [e]) == Transitions(events) + if e.Transition? then 1 else 0
    ensures BlindRetries(events + [e]) == BlindRetries(events) + if e == Blocked(BlindRetry) then 1 else 0
  {
    var all := events + [e];
    assert all[..|events|] == events && all[|events|] == e;
    if ReadLogged(events) {
      var i :| 0 <= i < |events| && events[i].Observed?;
      assert all[i].Observed?;
    }
  }

  lemma LoggedLonger(events: seq<Event>, e: Event, what: Event)
    ensures Logged(events + [e], what) <==> Logged(events, what) || e == what
  {
    var all := events + [e];
    assert all[|events|] == e;
    if i :| 0 <= i < |events| && events[i] == what {
      assert all[i] == what;
    }
  }

  lemma OpenFaultLonger(events: seq<Event>, e: Event)
    ensures OpenFault(events + [e]) <==> e == Fault || (OpenFault(events) && e != Reconciled)
  {
    var all := events + [e];
    if i :| LastFault(all, i) {
      if e != Fault {
        assert all[|events|] == e && forall j :: i < j < |events| ==> events[j] == all[j];
        assert LastFault(events, i);
      }
    }
    if e == Fault {
      assert LastFault(all, |events|);
    } else if OpenFault(events) && e != Reconciled {
      var i :| LastFault(events, i);
      assert LastFault(all, i);
    }
  }

  lemma {:induction false} TransitionsPositive(events: seq<Event>)
    ensures Transitions(events) > 0 <==> exists i :: 0 <= i < |events| && events[i].Transition?
    decreases |events|
  {
    if events != [] {
      var n := |events| - 1;
      TransitionsPositive(events[..n]);
      if i :| 0 <= i < n && events[..n][i].Transition? {
        assert events[i].Transition?;
      }
      if i :| 0 <= i < |events| && events[i].Transition? {
        if i < n {
          assert events[..n][i].Transition?;
        }
      }
    }
  }

  lemma ReadBackLonger(events: seq<Event>, e: Event)
    ensures ReadBack(events + [e]) <==> ReadBack(events) || (e.Observed? && Transitions(events) > 0)
  {
    var all := events + [e];
    TransitionsPositive(events);
    if i, j :| 0 <= i < j < |all| && all[i].Transition? && all[j].Observed? {
      if j < |events| {
        assert events[i].Transition? && events[j].Observed?;
      } else {
        assert events[i].Transition?;
      }
    }
    if ReadBack(events) {
      var i, j :| 0 <= i < j < |events| && events[i].Transition? && events[j].Observed?;
      assert all[i].Transition? && all[j].Observed?;
    }
    if e.Observed? && Transitions(events) > 0 {
      var i :| 0 <= i < |events| && events[i].Transition?;
      assert all[i].Transition? && all[|events|].Observed?;
    }
  }

  lemma ObservedFirstLonger(events: seq<Event>, e: Event)
    requires ObservedFirst(events) && (e.Transition? ==> ReadLogged(events))
    ensures ObservedFirst(events + [e])
  {
    var all := events + [e];
    forall i | 0 <= i < |all| && all[i].Transition? ensures exists h :: 0 <= h < i && all[h].Observed? {
      if i < |events| {
        var h :| 0 <= h < i && events[h].Observed?;
        assert all[h].Observed?;
      } else {
        var h :| 0 <= h < |events| && events[h].Observed?;
        assert all[h].Observed?;
      }
    }
  }

  /** One more event, and what every observation of the log becomes. */
  lemma AllLonger(events: seq<Event>, e: Event)
    ensures ReadLogged(events + [e]) <==> ReadLogged(events) || e.Observed?
    ensures Transitions(events + [e]) == Transitions(events) + if e.Transition? then 1 else 0
    ensures BlindRetries(events + [e]) == BlindRetries(events) + if e == Blocked(BlindRetry) then 1 else 0
    ensures ReadBack(events + [e]) <==> ReadBack(events) || (e.Observed? && Transitions(events) > 0)
    ensures OpenFault(events + [e]) <==> e == Fault || (OpenFault(events) && e != Reconciled)
    ensures Logged(events + [e], Fault) <==> Logged(events, Fault) || e == Fault
    ensures Logged(events + [e], Reconciled) <==> Logged(events, Reconciled) || e == Reconciled
    ensures ObservedFirst(events) && (e.Transition? ==> ReadLogged(events)) ==> ObservedFirst(events + [e])
  {
    Longer(events, e);
    ReadBackLonger(events, e);
    OpenFaultLonger(events, e);
    LoggedLonger(events, e, Fault);
    LoggedLonger(events, e, Reconciled);
    if ObservedFirst(events) && (e.Transition? ==> ReadLogged(events)) {
      ObservedFirstLonger(events, e);
    }
  }

  ghost predicate LogInv(x: Executor) {
    SnapshotIsFold(x) && ObservedFirst(x.events)
  }

  lemma ReadLogs(x: Executor, fate: Fate)
    requires LogInv(x)
    ensures LogInv(DoRead(x, fate).executor)
  {
    var read := ReadOf(x.env, fate.readOk);
    if read.state.Some? {
      AllLonger(x.events, Observed(read.state.value));
    }
  }

  lemma ReconcileLogs(x: Executor, fate: Fate)
    requires LogInv(x)
    ensures LogInv(DoReconcile(x, fate).executor)
  {
    AllLonger(x.events, Blocked(ReconcileWithoutUnknown));
    AllLonger(x.events, Reconciled);
  }

  lemma PlannedLog(events: seq<Event>, t: Event)
    requires t.Transition? && ReadLogged(events) && ObservedFirst(events)
    ensures
      var all := events + [t, Fault, ChangeReported(true)];
      && ReadLogged(all) && ObservedFirst(all) && OpenFault(all) && Logged(all, Fault)
      && Transitions(all) == Transitions(events) + 1 && BlindRetries(all) == BlindRetries(events)
      && (ReadBack(all) <==> ReadBack(events)) && (Logged(all, Reconciled) <==> Logged(events, Reconciled))
  {
    AllLonger(events, t);
    AllLonger(events + [t], Fault);
    AllLonger(events + [t] + [Fault], ChangeReported(true));
    assert events + [t, Fault, ChangeReported(true)] == events + [t] + [Fault] + [ChangeReported(true)];
  }

  lemma UnplannedLog(events: seq<Event>, t: Event)
    requires t.Transition? && ReadLogged(events) && ObservedFirst(events)
    ensures
      var all := events + [t, ChangeReported(false)];
      && ReadLogged(all) && ObservedFirst(all) && (OpenFault(all) <==> OpenFault(events)) && (Logged(all, Fault) <==> Logged(events, Fault))
      && Transitions(all) == Transitions(events) + 1 && BlindRetries(all) == BlindRetries(events)
      && (ReadBack(all) <==> ReadBack(events)) && (Logged(all, Reconciled) <==> Logged(events, Reconciled))
  {
    AllLonger(events, t);
    AllLonger(events + [t], ChangeReported(false));
    assert events + [t, ChangeReported(false)] == events + [t] + [ChangeReported(false)];
  }

  lemma MutatedLogs(x: Executor, env: Env, before: State, after: State)
    requires LogInv(x) && x.observed && !x.uncertain
    ensures LogInv(Mutated(x, env, before, after))
  {
    if x.planned {
      PlannedLog(x.events, Transition(before, after));
    } else {
      UnplannedLog(x.events, Transition(before, after));
    }
  }

  lemma SameLog(x: Executor, env: Env)
    requires LogInv(x)
    ensures LogInv(x.(env := env))
  {}

  lemma ApplyLogs(x: Executor, fate: Fate)
    requires LogInv(x)
    ensures LogInv(DoApply(x, fate).executor)
  {
    AllLonger(x.events, Blocked(BlindRetry));
    AllLonger(x.events, Blocked(ObservationRequired));
    if !x.uncertain && x.observed {
      var current := ReadOf(x.env, fate.readOk);
      SameLog(x, current.env);
      var change := ChangeOf(current.env, fate);
      SameLog(x, change.env);
      if current.state.Some? && change.state.Some? {
        MutatedLogs(x, change.env, current.state.value, change.state.value);
      }
    }
  }

  lemma {:induction false} LogRun(env: Env, planned: bool, steps: seq<Step>)
    ensures LogInv(RunAll(Started(env, planned), steps))
    decreases |steps|
  {
    if steps == [] {
      assert !ReadLogged([]) && !ReadBack([]) && !OpenFault([]) && !Logged([], Fault) && !Logged([], Reconciled);
    } else {
      var before, last := steps[..|steps| - 1], steps[|steps| - 1];
      LogRun(env, planned, before);
      LogStep(RunAll(Started(env, planned), before), last);
    }
  }

  lemma LogStep(x: Executor, step: Step)
    requires LogInv(x)
    ensures LogInv(Do(x, step))
  {
    if step.Call? {
      match step.tool
      case ReadTool => ReadLogs(x, step.fate);
      case ReconcileTool => ReconcileLogs(x, step.fate);
      case ApplyTool => ApplyLogs(x, step.fate);
      case Malformed =>
    } else {
      SameLog(x, Land(x.env));
    }
  }
}
