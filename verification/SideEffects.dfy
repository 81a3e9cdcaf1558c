/**
 The side-effect executor and the container environment it drives.

 A tool call comes with the fate of the container commands it may run: whether
 reads succeed, and what a write that is reported failed really did. A write
 that timed out may still land later, as a step of its own.
 */
module SideEffects {
  import opened Wrappers

  datatype State = State(release: nat, revision: nat, mutations: nat, operation: Option<nat>)

  const INITIAL: State := State(1, 0, 0, None)
  const TARGET: State := State(2, 1, 1, Some(1))
  /** What a write torn inside its last line parses to: the operation id is cut short. */
  const CUT_SHORT: State := State(2, 1, 1, Some(0))

  /** The state file. A torn write leaves a prefix of the target text, which
      parses only if it reaches into the last line. */
  datatype Content = Absent | Seed | Changed | Torn(readable: bool)

  function Parse(content: Content): Option<State> {
    match content
    case Seed => Some(INITIAL)
    case Changed => Some(TARGET)
    case Torn(readable) => if readable then Some(CUT_SHORT) else None
    case Absent => None
  }

  datatype WriteFate = Written | FailedClean | FailedAfterWrite | FailedTorn(readable: bool) | FailedPending

  datatype Fate = Fate(readOk: bool, write: WriteFate, readbackOk: bool)

  datatype Lifecycle = Unprovisioned | Provisioned | ReadyUnverified | ReadyVerified | Running | FailedBeforeAgent | Quarantined | Cleaned

  /** `writes` counts the writes that reached the file, `pending` those still to land. */
  datatype Env = Env(
    content: Content, lifecycle: Lifecycle, verified: bool, observable: Option<State>, receipt: bool,
    hook: bool, writes: nat, pending: nat)

  const FRESH: Env := Env(Absent, Unprovisioned, false, None, false, false, 0, 0)

  // ---------------------------------------------------------------- environment operations

  datatype ReadResult = ReadResult(env: Env, state: Option<State>)

  function ReadOf(e: Env, ok: bool): ReadResult {
    if ok && Parse(e.content).Some? then ReadResult(e.(observable := Parse(e.content)), Parse(e.content)) else ReadResult(e, None)
  }

  /** The container command of a change, successful or not. */
  function Write(e: Env, fate: WriteFate): Env {
    match fate
    case Written => e.(content := Changed, writes := e.writes + 1)
    case FailedAfterWrite => e.(content := Changed, writes := e.writes + 1)
    case FailedTorn(readable) => e.(content := Torn(readable), writes := e.writes + 1)
    case FailedClean => e
    case FailedPending => e.(pending := e.pending + 1)
  }

  datatype ChangeResult = ChangeResult(env: Env, state: Option<State>)

  function ChangeOf(e: Env, fate: Fate): ChangeResult {
    if !e.verified then ChangeResult(e, None)
    else
      var written := Write(e, fate.write);
      if fate.write != Written then ChangeResult(written, None)
      else
        var back := ReadOf(written, fate.readbackOk);
        if back.state.None? then ChangeResult(back.env, None)
        else ChangeResult(back.env.(lifecycle := Running, receipt := true), back.state)
  }

  /** A write that timed out reaches the file after all. */
  function Land(e: Env): Env {
    if e.pending == 0 then e else e.(content := Changed, writes := e.writes + 1, pending := e.pending - 1)
  }

  function AfterQuarantine(e: Env): Env {
    e.(lifecycle := Quarantined, verified := false)
  }

  function AfterProvision(e: Env, ok: bool): Env {
    if ok && e.content == Absent then e.(content := Seed, lifecycle := Provisioned) else e
  }

  datatype Probe = NotRunning | Ready | TimedOut | ProbeFailed

  function AfterReadiness(e: Env, probe: Probe): Env {
    if e.lifecycle == Quarantined || probe == ProbeFailed then e
    else if probe == NotRunning then AfterQuarantine(e)
    else if e.hook then e.(lifecycle := FailedBeforeAgent)
    else if probe == Ready then e.(lifecycle := ReadyUnverified)
    else AfterQuarantine(e)
  }

  function AfterVerify(e: Env, readOk: bool): Env {
    if e.lifecycle != ReadyUnverified then e
    else
      var read := ReadOf(e, readOk);
      if read.state.None? then read.env
      else if read.state != Some(INITIAL) then AfterQuarantine(read.env)
      else read.env.(lifecycle := ReadyVerified, verified := true)
  }

  /** A removal may fail, or succeed without its confirmation. */
  datatype Removal = Removed | RemovedUnconfirmed | NotRemoved

  function AfterCleanup(e: Env, removal: Removal): Env {
    if e.lifecycle == Quarantined then e
    else match removal
      case Removed => e.(lifecycle := Cleaned, content := Absent, pending := 0)
      case RemovedUnconfirmed => AfterQuarantine(e.(content := Absent, pending := 0))
      case NotRemoved => AfterQuarantine(e)
  }

  class DockerEnvironment {
    var content: Content
    var lifecycle: Lifecycle
    var verified: bool
    var observable: Option<State>
    var receipt: bool
    var hook: bool
    ghost var writes: nat
    ghost var pending: nat

    ghost function View(): Env
      reads this
    {
      Env(content, lifecycle, verified, observable, receipt, hook, writes, pending)
    }

    constructor (hook: bool)
      ensures View() == FRESH.(hook := hook)
    {
      content, lifecycle, verified, observable, receipt := Absent, Unprovisioned, false, None, false;
      this.hook, writes, pending := hook, 0, 0;
    }

    method Provision(ok: bool)
      modifies this
      ensures View() == AfterProvision(old(View()), ok)
    {
      if ok && content == Absent {
        content, lifecycle := Seed, Provisioned;
      }
    }

    method Quarantine()
      modifies this
      ensures View() == AfterQuarantine(old(View()))
    {
      lifecycle, verified := Quarantined, false;
    }

    method Readiness(probe: Probe)
      modifies this
      ensures View() == AfterReadiness(old(View()), probe)
    {
      if lifecycle == Quarantined || probe == ProbeFailed {
        return;
      }
      if probe == NotRunning {
        Quarantine();
      } else if hook {
        lifecycle := FailedBeforeAgent;
      } else if probe == Ready {
        lifecycle := ReadyUnverified;
      } else {
        Quarantine();
      }
    }

    method ReadState(ok: bool) returns (state: Option<State>)
      modifies this
      ensures ReadResult(View(), state) == ReadOf(old(View()), ok)
    {
      state := None;
      if ok && Parse(content).Some? {
        state := Parse(content);
        observable := state;
      }
    }

    method VerifyInitial(readOk: bool)
      modifies this
      ensures View() == AfterVerify(old(View()), readOk)
    {
      if lifecycle != ReadyUnverified {
        return;
      }
      var state := ReadState(readOk);
      if state.None? {
        return;
      }
      if state != Some(INITIAL) {
        Quarantine();
        return;
      }
      lifecycle, verified := ReadyVerified, true;
    }

    method ApplyChange(fate: Fate) returns (state: Option<State>)
      modifies this
      ensures ChangeResult(View(), state) == ChangeOf(old(View()), fate)
    {
      if !verified {
        return None;
      }
      match fate.write {
        case Written => content, writes := Changed, writes + 1;
        case FailedAfterWrite => content, writes := Changed, writes + 1;
        case FailedTorn(readable) => content, writes := Torn(readable), writes + 1;
        case FailedClean =>
        case FailedPending => pending := pending + 1;
      }
      if fate.write != Written {
        return None;
      }
      state := ReadState(fate.readbackOk);
      if state.Some? {
        lifecycle, receipt := Running, true;
      }
    }

    method Cleanup(removal: Removal)
      modifies this
      ensures View() == AfterCleanup(old(View()), removal)
    {
      if lifecycle == Quarantined {
        return;
      }
      if removal != NotRemoved {
        content, pending := Absent, 0;
      }
      if removal == Removed {
        lifecycle := Cleaned;
      } else {
        Quarantine();
      }
    }
  }

  // ---------------------------------------------------------------- the executor

  datatype Tool = ReadTool | ApplyTool | ReconcileTool | Malformed

  datatype Reason = ReconcileWithoutUnknown | BlindRetry | ObservationRequired

  datatype Event =
    | Observed(state: State)
    | Transition(before: State, after: State)
    | Fault
    | ChangeReported(unknown: bool)
    | Reconciled
    | Blocked(reason: Reason)

  datatype Executor = Executor(
    env: Env, planned: bool, triggered: bool, reconciled: bool,
    observed: bool, mutations: nat, readback: bool, uncertain: bool, blindRetries: nat, events: seq<Event>)

  function Started(env: Env, planned: bool): Executor {
    Executor(env, planned, false, false, false, 0, false, false, 0, [])
  }

  function Log(x: Executor, e: Event): Executor {
    x.(events := x.events + [e])
  }

  datatype Result = Result(executor: Executor, raised: bool)

  function DoRead(x: Executor, fate: Fate): Result {
    var read := ReadOf(x.env, fate.readOk);
    if read.state.None? then Result(x.(env := read.env), true)
    else
      Result(
        Log(x.(env := read.env, observed := true, readback := x.readback || x.mutations > 0), Observed(read.state.value)),
        false)
  }

  function DoReconcile(x: Executor, fate: Fate): Result {
    if !x.uncertain then Result(Log(x, Blocked(ReconcileWithoutUnknown)), true)
    else
      var read := ReadOf(x.env, fate.readOk);
      if read.state.None? || !read.env.receipt then Result(x.(env := read.env), true)
      else Result(Log(x.(env := read.env, uncertain := false, reconciled := true, readback := true), Reconciled), false)
  }

  /** After a completed change: log the transition and, if planned, lose the response. */
  function Mutated(x: Executor, env: Env, before: State, after: State): Executor {
    x.(env := env, mutations := x.mutations + 1, triggered := x.triggered || x.planned, uncertain := x.planned,
       events := x.events + if x.planned then [Transition(before, after), Fault, ChangeReported(true)]
                            else [Transition(before, after), ChangeReported(false)])
  }

  function DoApply(x: Executor, fate: Fate): Result {
    if x.uncertain then Result(Log(x.(blindRetries := x.blindRetries + 1), Blocked(BlindRetry)), true)
    else if !x.observed then Result(Log(x, Blocked(ObservationRequired)), true)
    else
      var current := ReadOf(x.env, fate.readOk);
      if current.state.None? then Result(x.(env := current.env), true)
      else if current.state.value.revision != 0 || current.state.value.mutations != 0 then Result(x.(env := current.env), true)
      else
        var change := ChangeOf(current.env, fate);
        if change.state.None? then Result(x.(env := change.env), true)
        else Result(Mutated(x, change.env, current.state.value, change.state.value), false)
  }

  function Executed(x: Executor, tool: Tool, fate: Fate): Result {
    match tool
    case Malformed => Result(x, true)
    case ReadTool => DoRead(x, fate)
    case ReconcileTool => DoReconcile(x, fate)
    case ApplyTool => DoApply(x, fate)
  }

  class ToolExecutor {
    const environment: DockerEnvironment
    const planned: bool
    var triggered: bool
    var reconciled: bool
    var observed: bool
    var mutations: nat
    var readback: bool
    var uncertain: bool
    var blindRetries: nat
    var events: seq<Event>

    ghost function View(): Executor
      reads this, environment
    {
      Executor(environment.View(), planned, triggered, reconciled, observed, mutations, readback, uncertain, blindRetries, events)
    }

    constructor (environment: DockerEnvironment, planned: bool)
      ensures this.environment == environment && View() == Started(environment.View(), planned)
    {
      this.environment, this.planned := environment, planned;
      triggered, reconciled, observed, mutations := false, false, false, 0;
      readback, uncertain, blindRetries, events := false, false, 0, [];
    }

    method Execute(tool: Tool, fate: Fate) returns (raised: bool)
      modifies this, environment
      ensures Result(View(), raised) == Executed(old(View()), tool, fate)
    {
      match tool {
        case Malformed => raised := true;
        case ReadTool => raised := Read(fate);
        case ReconcileTool => raised := Reconcile(fate);
        case ApplyTool => raised := Apply(fate);
      }
    }

    method Read(fate: Fate) returns (raised: bool)
      modifies this, environment
      ensures Result(View(), raised) == DoRead(old(View()), fate)
    {
      var state := environment.ReadState(fate.readOk);
      if state.None? {
        return true;
      }
      observed := true;
      if mutations > 0 {
        readback := true;
      }
      events := events + [Observed(state.value)];
      raised := false;
    }

    method Reconcile(fate: Fate) returns (raised: bool)
      modifies this, environment
      ensures Result(View(), raised) == DoReconcile(old(View()), fate)
    {
      if !uncertain {
        events := events + [Blocked(ReconcileWithoutUnknown)];
        return true;
      }
      var state := environment.ReadState(fate.readOk);
      if state.None? || !environment.receipt {
        return true;
      }
      uncertain, reconciled, readback := false, true, true;
      events := events + [Event.Reconciled];
      raised := false;
    }

    method Apply(fate: Fate) returns (raised: bool)
      modifies this, environment
      ensures Result(View(), raised) == DoApply(old(View()), fate)
    {
      if uncertain {
        blindRetries, events := blindRetries + 1, events + [Blocked(BlindRetry)];
        return true;
      }
      if !observed {
        events := events + [Blocked(ObservationRequired)];
        return true;
      }
      var current := environment.ReadState(fate.readOk);
      if current.None? {
        return true;
      }
      if current.value.revision != 0 || current.value.mutations != 0 {
        return true;
      }
      var after := environment.ApplyChange(fate);
      if after.None? {
        return true;
      }
      mutations := mutations + 1;
      events := events + [Transition(current.value, after.value)];
      if planned {
        triggered, uncertain := true, true;
        events := events + [Fault];
      }
      events := events + [ChangeReported(planned)];
      raised := false;
    }
  }
}
