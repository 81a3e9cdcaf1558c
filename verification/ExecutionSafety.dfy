/**
 Safety of the durable execution protocol over whole runs.

 A run is any list of requests with any arguments at any times. Worker crashes,
 lost requests, lost responses, replays, stale attempts and competing workers
 are all such lists, so a property of every run holds of every interleaving.
 */
module ExecutionSafety {
  import opened Wrappers
  import opened ControlPlane

  datatype Step = Step(now: nat, request: Request)

  /** The tables after a run. */
  function Run(s: Server, steps: seq<Step>): Server
    decreases |steps|
  {
    if steps == [] then s
    else Run(Next(s, steps[0].now, steps[0].request), steps[1..])
  }

  // ---------------------------------------------------------------- the invariant

  /** Exactly the owner states carry a lease, and it belongs to the newest attempt. */
  ghost predicate OwnerInv(s: Server) {
    && (OwnerState(s.state) <==> s.active.Some?)
    && (s.active.Some? ==> s.active.value.attempt == s.attemptNumber)
    && (forall n :: n in s.attempts <==> 1 <= n <= s.attemptNumber)
    && (s.active.Some? ==> 1 <= s.attemptNumber)
  }

  /** An operation that may still be submitted has no effect row, and the effect
      counter is the number of effect rows. */
  ghost predicate OperationInv(s: Server) {
    forall op :: op in s.operations ==>
      && 1 <= s.operations[op].attempt <= s.attemptNumber
      && s.operations[op].effectCount == (if op in s.effects then 1 else 0)
      && (s.operations[op].status == Prepared || s.operations[op].status == NotSubmitted ==> op !in s.effects)
  }

  /** The insert never met an existing row: every operation was applied at most once. */
  ghost predicate EffectInv(s: Server) {
    && NoDup(s.applied)
    && (forall op :: op in s.effects <==> op in s.applied)
    && (forall op :: op in s.effects ==> op in s.operations && s.effects[op] == s.operations[op].environment)
  }

  ghost predicate EvidenceInv(s: Server) {
    && (forall id :: id in s.evidence && s.evidence[id].attempt.Some? ==> 1 <= s.evidence[id].attempt.value <= s.attemptNumber)
    && (forall i, j :: i in s.evidence && j in s.evidence && i != j ==>
          !Collides(s.evidence[i], s.evidence[j].entityType, s.evidence[j].entityId))
  }

  /** COMPLETED binds passing evidence of the last attempt to a registered,
      identical artifact, and leaves no operation unresolved. */
  ghost predicate CompletedBinding(s: Server) {
    && s.terminalEvidence.Some?
    && s.terminalEvidence.value in s.evidence
    && (var e := s.evidence[s.terminalEvidence.value];
        && e.attempt == Some(s.attemptNumber)
        && e.outcome == Pass
        && BoundToRegistry(s.registry, e))
    && !HasUnsafe(s)
  }

  ghost predicate TerminalInv(s: Server) {
    && (Terminal(s.state) <==> s.terminalEvidence.Some?)
    && (Terminal(s.state) ==>
          && s.terminalEvidence.value in s.evidence
          && s.outcome == Some(s.evidence[s.terminalEvidence.value].outcome))
    && (s.state == Completed ==> CompletedBinding(s))
    && (s.state == FailedPlatform ==> PlatformOutcome(s.outcome.value))
    && (s.state == Cancelled ==> s.outcome == Some(CancelledOutcome))
  }

  /** The job row is a projection of its append-only event history. */
  ghost predicate EventInv(s: Server) {
    && s.events != []
    && s.events[|s.events| - 1].after == s.state
    && s.events[|s.events| - 1].version <= s.version
    && (forall i, j :: 0 <= i < j < |s.events| && j == i + 1 ==> s.events[i].after == s.events[j].before)
    && (forall i, j :: 0 <= i <= j < |s.events| ==> s.events[i].version <= s.events[j].version)
  }

  ghost predicate Inv(s: Server) {
    OwnerInv(s) && OperationInv(s) && EffectInv(s) && EvidenceInv(s) && TerminalInv(s) && EventInv(s)
  }

  /** What no request takes back: versions, attempt numbers, terminal states. */
  ghost predicate JobGrows(s: Server, t: Server) {
    && s.version <= t.version
    && s.attemptNumber <= t.attemptNumber
    && s.events <= t.events
    && (Terminal(s.state) ==>
          && t.state == s.state && t.terminalEvidence == s.terminalEvidence && t.outcome == s.outcome
          && t.version == s.version && t.attemptNumber == s.attemptNumber)
  }

  /** Operation identities are fixed at preparation and a confirmed outcome is final. */
  ghost predicate OperationsGrow(s: Server, t: Server) {
    && s.applied <= t.applied
    && (forall op :: op in s.operations ==>
          && op in t.operations
          && t.operations[op].attempt == s.operations[op].attempt
          && t.operations[op].environment == s.operations[op].environment
          && t.operations[op].fingerprint == s.operations[op].fingerprint
          && (s.operations[op].status == Confirmed ==> t.operations[op].status == Confirmed))
  }

  /** Evidence and registered artifacts are immutable. */
  ghost predicate EvidenceGrows(s: Server, t: Server) {
    && (forall id :: id in s.evidence ==> id in t.evidence && t.evidence[id] == s.evidence[id])
    && (forall k :: k in s.registry ==> k in t.registry && t.registry[k] == s.registry[k])
  }

  ghost predicate Grows(s: Server, t: Server) {
    JobGrows(s, t) && OperationsGrow(s, t) && EvidenceGrows(s, t)
  }

  // ---------------------------------------------------------------- the shared row updates

  lemma SetAttemptKeeps(s: Server, attempt: nat, status: AttemptStatus)
    requires Inv(s)
    ensures Inv(SetAttempt(s, attempt, status))
  {}

  lemma RequeueKeeps(s: Server, state: JobState)
    requires Inv(s)
    requires state == Queued || state == ReconcileRequired
    ensures Inv(ClearTo(s, state))
  {}

  lemma GrantKeeps(s: Server, now: nat, claimant: Id, token: Id, secs: nat)
    requires Inv(s) && s.state == Queued
    ensures Inv(GrantLease(s, now, claimant, token, secs).server)
  {}

  lemma TouchKeeps(s: Server)
    requires Inv(s) && s.state == CancelRequested
    ensures Inv(Touch(s))
  {}

  lemma LogKeeps(s: Server)
    requires Inv(s)
    ensures Inv(s.(events := s.events + [Event(s.state, s.state, s.version)]))
  {}

  lemma AwaitReconcileKeeps(s: Server)
    requires Inv(s)
    ensures Inv(AwaitReconcile(s))
  {
    if s.state == CancelRequested {
      TouchKeeps(s);
    } else if s.state == ReconcileRequired {
      LogKeeps(s);
    } else if !Terminal(s.state) {
      RequeueKeeps(s, ReconcileRequired);
    }
  }

  lemma AfterReconcileKeeps(s: Server)
    requires Inv(s)
    ensures Inv(AfterReconcile(s))
  {
    if s.state == CancelRequested {
      TouchKeeps(s);
    } else if !Terminal(s.state) {
      RequeueKeeps(s, Queued);
    }
  }

  lemma FinishKeeps(s: Server, state: JobState, status: AttemptStatus, outcome: Outcome, id: Id)
    requires Inv(s)
    requires id in s.evidence && s.evidence[id].outcome == outcome
    requires (state == FailedPlatform && PlatformOutcome(outcome)) || (state == Cancelled && outcome == CancelledOutcome)
    ensures Inv(FinishTerminal(s, state, status, outcome, id))
  {
    if s.active.Some? {
      SetAttemptKeeps(s, s.active.value.attempt, status);
    }
    FinishEndedKeeps(EndActive(s, status), state, outcome, id);
  }

  lemma FinishEndedKeeps(s: Server, state: JobState, outcome: Outcome, id: Id)
    requires Inv(s)
    requires id in s.evidence && s.evidence[id].outcome == outcome
    requires (state == FailedPlatform && PlatformOutcome(outcome)) || (state == Cancelled && outcome == CancelledOutcome)
    ensures Inv(ClearTo(s, state).(outcome := Some(outcome), terminalEvidence := Some(id)))
  {}

  /** Settling or suspending an unresolved operation. */
  lemma SetOperationKeeps(s: Server, op: Id, operation: Operation)
    requires Inv(s) && op in s.operations && Unresolved(s.operations[op].status)
    requires operation.attempt == s.operations[op].attempt && operation.environment == s.operations[op].environment
    requires operation.effectCount == (if op in s.effects then 1 else 0)
    requires operation.status == Prepared || operation.status == NotSubmitted ==> op !in s.effects
    ensures Inv(s.(operations := s.operations[op := operation]))
  {
    assert HasUnsafe(s);
  }

  lemma SuspendedKeeps(s: Server, op: Id)
    requires Inv(s) && op in s.operations && Unresolved(s.operations[op].status)
    ensures Inv(Suspended(s, op))
  {
    SetOperationKeeps(s, op, s.operations[op].(status := UnknownOutcome));
    SetAttemptKeeps(SetOperation(s, op, UnknownOutcome), s.operations[op].attempt, AttemptReconcileRequired);
  }

  lemma SettledKeeps(s: Server, op: Id)
    requires Inv(s) && op in s.operations && Unresolved(s.operations[op].status)
    ensures Inv(Settled(s, op))
  {
    SetOperationKeeps(s, op, SettledOperation(s, op));
    SetAttemptKeeps(s.(operations := s.operations[op := SettledOperation(s, op)]), s.operations[op].attempt, AttemptReconciled);
  }

  // ---------------------------------------------------------------- every request keeps the invariant

  lemma ClaimKeeps(s: Server, now: nat, claimant: Id, token: Id, secs: nat)
    requires Inv(s)
    ensures Inv(ClaimJob(s, now, claimant, token, secs).server)
  {
    if !Terminal(s.state) && s.active.Some? && s.state != CancelRequested && s.active.value.expires <= now {
      SetAttemptKeeps(s, s.active.value.attempt, AttemptReconcileRequired);
      SetAttemptKeeps(s, s.active.value.attempt, AttemptExpired);
      RequeueKeeps(EndActive(s, AttemptReconcileRequired), ReconcileRequired);
      RequeueKeeps(EndActive(s, AttemptExpired), Queued);
      GrantKeeps(ClearTo(EndActive(s, AttemptExpired), Queued), now, claimant, token, secs);
    } else if s.state == Queued {
      GrantKeeps(s, now, claimant, token, secs);
    }
  }

  lemma StartKeeps(s: Server, now: nat, c: Credentials)
    requires Inv(s)
    ensures Inv(StartJob(s, now, c).server)
  {}

  lemma HeartbeatKeeps(s: Server, now: nat, c: Credentials, secs: nat)
    requires Inv(s)
    ensures Inv(HeartbeatJob(s, now, c, secs).server)
  {}

  lemma PrepareKeeps(s: Server, now: nat, c: Credentials, op: Id, environment: Id, fingerprint: Id)
    requires Inv(s)
    ensures Inv(PrepareOperation(s, now, c, op, environment, fingerprint).server)
  {}

  lemma DispatchKeeps(s: Server, now: nat, c: Credentials, op: Id)
    requires Inv(s)
    ensures Inv(DispatchOperation(s, now, c, op).server)
  {}

  lemma NotSubmittedKeeps(s: Server, now: nat, c: Credentials, op: Id)
    requires Inv(s)
    ensures Inv(MarkOperationNotSubmitted(s, now, c, op).server)
  {}

  lemma ApplyKeeps(s: Server, now: nat, c: Credentials, op: Id)
    requires Inv(s)
    ensures Inv(ApplyOperation(s, now, c, op).server)
  {}

  lemma ConfirmKeeps(s: Server, now: nat, c: Credentials, op: Id, receipt: Option<Id>)
    requires Inv(s)
    ensures Inv(ConfirmOperation(s, now, c, op, receipt).server)
  {
    if op in s.operations && s.operations[op].status == InFlight {
      SetOperationKeeps(s, op, s.operations[op].(
        status := Confirmed, effectCount := if op in s.effects then 1 else s.operations[op].effectCount,
        receipt := Some(if receipt.Some? then WorkerReceipt(receipt.value) else EffectReceipt(op))));
    }
  }

  lemma MarkUnknownKeeps(s: Server, op: Id)
    requires Inv(s)
    ensures Inv(MarkOperationUnknown(s, op).server)
  {
    if op in s.operations && (s.operations[op].status == Prepared || s.operations[op].status == InFlight) {
      SuspendedKeeps(s, op);
      AwaitReconcileKeeps(Suspended(s, op));
    }
  }

  lemma ReconcileKeeps(s: Server, op: Id)
    requires Inv(s)
    ensures Inv(ReconcileOperation(s, op).server)
  {
    if op in s.operations && Unresolved(s.operations[op].status) {
      SettledKeeps(s, op);
      AfterReconcileKeeps(Settled(s, op));
    }
  }

  /** A new piece of evidence for an entity that has none. */
  lemma StoreKeeps(s: Server, id: Id, row: Evidence)
    requires Inv(s) && id !in s.evidence
    requires row.attempt.Some? ==> 1 <= row.attempt.value <= s.attemptNumber
    requires forall i :: i in s.evidence ==> !Collides(s.evidence[i], row.entityType, row.entityId)
    ensures Inv(s.(evidence := s.evidence[id := row]))
  {
    var t := s.(evidence := s.evidence[id := row]);
    assert s.state == Completed ==> s.terminalEvidence.value != id;
  }

  lemma IngestKeeps(s: Server, now: nat, c: Credentials, id: Id, body: Evidence)
    requires Inv(s)
    ensures Inv(IngestJobEvidence(s, now, c, id, body).server)
  {
    var t := IngestJobEvidence(s, now, c, id, body).server;
    if t != s {
      var row := body.(attempt := if OwnerState(s.state) then Some(c.attempt) else None);
      StoreKeeps(s, id, row);
      LogKeeps(s.(evidence := s.evidence[id := row]));
    }
  }

  lemma CompleteKeeps(s: Server, now: nat, c: Credentials, id: Id, readable: bool)
    requires Inv(s)
    ensures Inv(CompleteJob(s, now, c, id, readable).server)
  {}

  lemma FailKeeps(s: Server, now: nat, c: Credentials, id: Id)
    requires Inv(s)
    ensures Inv(FailJob(s, now, c, id).server)
  {
    if id in s.evidence && PlatformOutcome(s.evidence[id].outcome) {
      FinishKeeps(s, FailedPlatform, AttemptFailed, s.evidence[id].outcome, id);
    }
  }

  lemma CancelKeeps(s: Server, id: Option<Id>)
    requires Inv(s)
    ensures Inv(CancelJob(s, id).server)
  {
    if s.state == Queued {
      if id.Some? && id.value in s.evidence && s.evidence[id.value].outcome == CancelledOutcome {
        FinishKeeps(s, Cancelled, AttemptCancelled, CancelledOutcome, id.value);
      }
    }
  }

  lemma AcknowledgeKeeps(s: Server, now: nat, c: Credentials, id: Id)
    requires Inv(s)
    ensures Inv(AcknowledgeCancel(s, now, c, id).server)
  {
    if Owns(s, c, now) && id in s.evidence && s.evidence[id].outcome == CancelledOutcome {
      FinishKeeps(s, Cancelled, AttemptCancelled, CancelledOutcome, id);
    }
  }

  lemma TimeoutKeeps(s: Server, now: nat, c: Credentials, id: Id)
    requires Inv(s)
    ensures Inv(TimeoutJob(s, now, c, id).server)
  {
    if id in s.evidence && PlatformOutcome(s.evidence[id].outcome) {
      FinishKeeps(s, FailedPlatform, AttemptFailed, s.evidence[id].outcome, id);
    }
    if s.active.Some? {
      SetAttemptKeeps(s, s.active.value.attempt, AttemptReconcileRequired);
      RequeueKeeps(EndActive(s, AttemptReconcileRequired), ReconcileRequired);
    }
  }

  lemma RegisterKeeps(s: Server, entityType: Id, entityId: Id, artifact: ArtifactRef)
    requires Inv(s)
    ensures Inv(Register(s, entityType, entityId, artifact).server)
  {}

  // ---------------------------------------------------------------- no request takes anything back

  lemma GrowsTransitive(s: Server, t: Server, u: Server)
    requires Grows(s, t) && Grows(t, u)
    ensures Grows(s, u)
  {}

  lemma SetAttemptGrows(s: Server, attempt: nat, status: AttemptStatus)
    ensures Grows(s, SetAttempt(s, attempt, status))
  {}

  lemma ClearGrows(s: Server, state: JobState)
    requires !Terminal(s.state)
    ensures Grows(s, ClearTo(s, state))
  {}

  lemma SetOperationGrows(s: Server, op: Id, operation: Operation)
    requires op in s.operations && s.operations[op].status != Confirmed
    requires operation.attempt == s.operations[op].attempt && operation.environment == s.operations[op].environment
    requires operation.fingerprint == s.operations[op].fingerprint
    ensures Grows(s, s.(operations := s.operations[op := operation]))
  {}

  lemma GrantGrows(s: Server, now: nat, claimant: Id, token: Id, secs: nat)
    requires s.state == Queued
    ensures Grows(s, GrantLease(s, now, claimant, token, secs).server)
  {}

  lemma EndAndClearGrows(s: Server, status: AttemptStatus, state: JobState)
    requires !Terminal(s.state)
    ensures Grows(s, ClearTo(EndActive(s, status), state))
  {
    if s.active.Some? {
      SetAttemptGrows(s, s.active.value.attempt, status);
    }
    ClearGrows(EndActive(s, status), state);
    GrowsTransitive(s, EndActive(s, status), ClearTo(EndActive(s, status), state));
  }

  lemma FinishGrows(s: Server, state: JobState, status: AttemptStatus, outcome: Outcome, id: Id)
    requires !Terminal(s.state)
    ensures Grows(s, FinishTerminal(s, state, status, outcome, id))
  {
    EndAndClearGrows(s, status, state);
  }

  lemma TouchGrows(s: Server)
    requires !Terminal(s.state)
    ensures Grows(s, Touch(s))
  {}

  lemma AwaitReconcileGrows(s: Server)
    ensures Grows(s, AwaitReconcile(s))
  {
    if s.state == CancelRequested {
      TouchGrows(s);
    } else if !Terminal(s.state) && s.state != ReconcileRequired {
      ClearGrows(s, ReconcileRequired);
    }
  }

  lemma AfterReconcileGrows(s: Server)
    ensures Grows(s, AfterReconcile(s))
  {
    if s.state == CancelRequested {
      TouchGrows(s);
    } else if !Terminal(s.state) {
      ClearGrows(s, Queued);
    }
  }

  lemma ClaimGrows(s: Server, now: nat, claimant: Id, token: Id, secs: nat)
    requires OwnerInv(s)
    ensures Grows(s, ClaimJob(s, now, claimant, token, secs).server)
  {
    if OwnerState(s.state) {
      EndAndClearGrows(s, AttemptReconcileRequired, ReconcileRequired);
      EndAndClearGrows(s, AttemptExpired, Queued);
      var queued := ClearTo(EndActive(s, AttemptExpired), Queued);
      GrantGrows(queued, now, claimant, token, secs);
      GrowsTransitive(s, queued, GrantLease(queued, now, claimant, token, secs).server);
    } else if s.state == Queued {
      GrantGrows(s, now, claimant, token, secs);
    }
  }

  lemma StartGrows(s: Server, now: nat, c: Credentials)
    requires OwnerInv(s)
    ensures Grows(s, StartJob(s, now, c).server)
  {}

  lemma HeartbeatGrows(s: Server, now: nat, c: Credentials, secs: nat)
    requires OwnerInv(s)
    ensures Grows(s, HeartbeatJob(s, now, c, secs).server)
  {}

  lemma PrepareGrows(s: Server, now: nat, c: Credentials, op: Id, environment: Id, fingerprint: Id)
    requires OwnerInv(s)
    ensures Grows(s, PrepareOperation(s, now, c, op, environment, fingerprint).server)
  {}

  lemma DispatchGrows(s: Server, now: nat, c: Credentials, op: Id)
    requires OwnerInv(s)
    ensures Grows(s, DispatchOperation(s, now, c, op).server)
  {}

  lemma NotSubmittedGrows(s: Server, now: nat, c: Credentials, op: Id)
    requires OwnerInv(s)
    ensures Grows(s, MarkOperationNotSubmitted(s, now, c, op).server)
  {}

  lemma ApplyGrows(s: Server, now: nat, c: Credentials, op: Id)
    requires OwnerInv(s)
    ensures Grows(s, ApplyOperation(s, now, c, op).server)
  {}

  lemma ConfirmGrows(s: Server, now: nat, c: Credentials, op: Id, receipt: Option<Id>)
    requires OwnerInv(s)
    ensures Grows(s, ConfirmOperation(s, now, c, op, receipt).server)
  {}

  lemma MarkUnknownGrows(s: Server, op: Id)
    requires OwnerInv(s)
    ensures Grows(s, MarkOperationUnknown(s, op).server)
  {
    if op in s.operations && (s.operations[op].status == Prepared || s.operations[op].status == InFlight) {
      SetOperationGrows(s, op, s.operations[op].(status := UnknownOutcome));
      var moved := SetOperation(s, op, UnknownOutcome);
      SetAttemptGrows(moved, s.operations[op].attempt, AttemptReconcileRequired);
      GrowsTransitive(s, moved, Suspended(s, op));
      AwaitReconcileGrows(Suspended(s, op));
      GrowsTransitive(s, Suspended(s, op), AwaitReconcile(Suspended(s, op)));
    }
  }

  lemma ReconcileGrows(s: Server, op: Id)
    requires OwnerInv(s)
    ensures Grows(s, ReconcileOperation(s, op).server)
  {
    if op in s.operations && Unresolved(s.operations[op].status) {
      SetOperationGrows(s, op, SettledOperation(s, op));
      var moved := s.(operations := s.operations[op := SettledOperation(s, op)]);
      SetAttemptGrows(moved, s.operations[op].attempt, AttemptReconciled);
      GrowsTransitive(s, moved, Settled(s, op));
      AfterReconcileGrows(Settled(s, op));
      GrowsTransitive(s, Settled(s, op), AfterReconcile(Settled(s, op)));
    }
  }

  lemma IngestGrows(s: Server, now: nat, c: Credentials, id: Id, body: Evidence)
    requires OwnerInv(s)
    ensures Grows(s, IngestJobEvidence(s, now, c, id, body).server)
  {}

  lemma CompleteGrows(s: Server, now: nat, c: Credentials, id: Id, readable: bool)
    requires OwnerInv(s)
    ensures Grows(s, CompleteJob(s, now, c, id, readable).server)
  {
    if Owns(s, c, now) {
      FinishGrows(s, Completed, AttemptCompleted, Pass, id);
    }
  }

  lemma FailGrows(s: Server, now: nat, c: Credentials, id: Id)
    requires OwnerInv(s)
    ensures Grows(s, FailJob(s, now, c, id).server)
  {
    if Owns(s, c, now) && id in s.evidence {
      FinishGrows(s, FailedPlatform, AttemptFailed, s.evidence[id].outcome, id);
    }
  }

  lemma CancelGrows(s: Server, id: Option<Id>)
    requires OwnerInv(s)
    ensures Grows(s, CancelJob(s, id).server)
  {
    if s.state == Queued && id.Some? {
      FinishGrows(s, Cancelled, AttemptCancelled, CancelledOutcome, id.value);
    }
  }

  lemma AcknowledgeGrows(s: Server, now: nat, c: Credentials, id: Id)
    requires OwnerInv(s)
    ensures Grows(s, AcknowledgeCancel(s, now, c, id).server)
  {
    if Owns(s, c, now) {
      FinishGrows(s, Cancelled, AttemptCancelled, CancelledOutcome, id);
    }
  }

  lemma TimeoutGrows(s: Server, now: nat, c: Credentials, id: Id)
    requires OwnerInv(s)
    ensures Grows(s, TimeoutJob(s, now, c, id).server)
  {
    if !Terminal(s.state) {
      EndAndClearGrows(s, AttemptReconcileRequired, ReconcileRequired);
      FinishGrows(s, FailedPlatform, AttemptFailed, if id in s.evidence then s.evidence[id].outcome else Error, id);
    }
  }

  lemma RegisterGrows(s: Server, entityType: Id, entityId: Id, artifact: ArtifactRef)
    requires OwnerInv(s)
    ensures Grows(s, Register(s, entityType, entityId, artifact).server)
  {}

  lemma LeaseInvStep(s: Server, now: nat, r: Request)
    requires Inv(s)
    requires r.Claim? || r.Start? || r.Heartbeat? || r.Prepare? || r.Dispatch? || r.MarkNotSubmitted?
    ensures Inv(Next(s, now, r))
  {
    match r
    case Claim(w, token, secs) => ClaimKeeps(s, now, w, token, secs);
    case Start(c) => StartKeeps(s, now, c);
    case Heartbeat(c, secs) => HeartbeatKeeps(s, now, c, secs);
    case Prepare(c, op, env, fp) => PrepareKeeps(s, now, c, op, env, fp);
    case Dispatch(c, op) => DispatchKeeps(s, now, c, op);
    case MarkNotSubmitted(c, op) => NotSubmittedKeeps(s, now, c, op);
    case _ =>
  }

  lemma OperationInvStep(s: Server, now: nat, r: Request)
    requires Inv(s)
    requires r.Apply? || r.Confirm? || r.MarkUnknown? || r.Reconcile? || r.IngestEvidence? || r.RegisterArtifact?
    ensures Inv(Next(s, now, r))
  {
    match r
    case Apply(c, op) => ApplyKeeps(s, now, c, op);
    case Confirm(c, op, receipt) => ConfirmKeeps(s, now, c, op, receipt);
    case MarkUnknown(op) => MarkUnknownKeeps(s, op);
    case Reconcile(op) => ReconcileKeeps(s, op);
    case IngestEvidence(c, id, body) => IngestKeeps(s, now, c, id, body);
    case RegisterArtifact(t, id, artifact) => RegisterKeeps(s, t, id, artifact);
    case _ =>
  }

  lemma EndingInvStep(s: Server, now: nat, r: Request)
    requires Inv(s)
    requires r.Complete? || r.FailPlatform? || r.Cancel? || r.AckCancel? || r.Timeout?
    ensures Inv(Next(s, now, r))
  {
    match r
    case Complete(c, id, readable) => CompleteKeeps(s, now, c, id, readable);
    case FailPlatform(c, id) => FailKeeps(s, now, c, id);
    case Cancel(id) => CancelKeeps(s, id);
    case AckCancel(c, id) => AcknowledgeKeeps(s, now, c, id);
    case Timeout(c, id) => TimeoutKeeps(s, now, c, id);
    case _ =>
  }

  lemma InvStep(s: Server, now: nat, r: Request)
    requires Inv(s)
    ensures Inv(Next(s, now, r))
  {
    match r
    case Claim(_, _, _) => LeaseInvStep(s, now, r);
    case Start(_) => LeaseInvStep(s, now, r);
    case Heartbeat(_, _) => LeaseInvStep(s, now, r);
    case Prepare(_, _, _, _) => LeaseInvStep(s, now, r);
    case Dispatch(_, _) => LeaseInvStep(s, now, r);
    case MarkNotSubmitted(_, _) => LeaseInvStep(s, now, r);
    case Apply(_, _) => OperationInvStep(s, now, r);
    case Confirm(_, _, _) => OperationInvStep(s, now, r);
    case MarkUnknown(_) => OperationInvStep(s, now, r);
    case Reconcile(_) => OperationInvStep(s, now, r);
    case IngestEvidence(_, _, _) => OperationInvStep(s, now, r);
    case RegisterArtifact(_, _, _) => OperationInvStep(s, now, r);
    case Complete(_, _, _) => EndingInvStep(s, now, r);
    case FailPlatform(_, _) => EndingInvStep(s, now, r);
    case Cancel(_) => EndingInvStep(s, now, r);
    case AckCancel(_, _) => EndingInvStep(s, now, r);
    case Timeout(_, _) => EndingInvStep(s, now, r);
  }

  lemma LeaseGrowsStep(s: Server, now: nat, r: Request)
    requires OwnerInv(s)
    requires r.Claim? || r.Start? || r.Heartbeat? || r.Prepare? || r.Dispatch? || r.MarkNotSubmitted?
    ensures Grows(s, Next(s, now, r))
  {
    match r
    case Claim(w, token, secs) => ClaimGrows(s, now, w, token, secs);
    case Start(c) => StartGrows(s, now, c);
    case Heartbeat(c, secs) => HeartbeatGrows(s, now, c, secs);
    case Prepare(c, op, env, fp) => PrepareGrows(s, now, c, op, env, fp);
    case Dispatch(c, op) => DispatchGrows(s, now, c, op);
    case MarkNotSubmitted(c, op) => NotSubmittedGrows(s, now, c, op);
    case _ =>
  }

  lemma OperationGrowsStep(s: Server, now: nat, r: Request)
    requires OwnerInv(s)
    requires r.Apply? || r.Confirm? || r.MarkUnknown? || r.Reconcile? || r.IngestEvidence? || r.RegisterArtifact?
    ensures Grows(s, Next(s, now, r))
  {
    match r
    case Apply(c, op) => ApplyGrows(s, now, c, op);
    case Confirm(c, op, receipt) => ConfirmGrows(s, now, c, op, receipt);
    case MarkUnknown(op) => MarkUnknownGrows(s, op);
    case Reconcile(op) => ReconcileGrows(s, op);
    case IngestEvidence(c, id, body) => IngestGrows(s, now, c, id, body);
    case RegisterArtifact(t, id, artifact) => RegisterGrows(s, t, id, artifact);
    case _ =>
  }

  lemma EndingGrowsStep(s: Server, now: nat, r: Request)
    requires OwnerInv(s)
    requires r.Complete? || r.FailPlatform? || r.Cancel? || r.AckCancel? || r.Timeout?
    ensures Grows(s, Next(s, now, r))
  {
    match r
    case Complete(c, id, readable) => CompleteGrows(s, now, c, id, readable);
    case FailPlatform(c, id) => FailGrows(s, now, c, id);
    case Cancel(id) => CancelGrows(s, id);
    case AckCancel(c, id) => AcknowledgeGrows(s, now, c, id);
    case Timeout(c, id) => TimeoutGrows(s, now, c, id);
    case _ =>
  }

  lemma GrowsStep(s: Server, now: nat, r: Request)
    requires OwnerInv(s)
    ensures Grows(s, Next(s, now, r))
  {
    match r
    case Claim(_, _, _) => LeaseGrowsStep(s, now, r);
    case Start(_) => LeaseGrowsStep(s, now, r);
    case Heartbeat(_, _) => LeaseGrowsStep(s, now, r);
    case Prepare(_, _, _, _) => LeaseGrowsStep(s, now, r);
    case Dispatch(_, _) => LeaseGrowsStep(s, now, r);
    case MarkNotSubmitted(_, _) => LeaseGrowsStep(s, now, r);
    case Apply(_, _) => OperationGrowsStep(s, now, r);
    case Confirm(_, _, _) => OperationGrowsStep(s, now, r);
    case MarkUnknown(_) => OperationGrowsStep(s, now, r);
    case Reconcile(_) => OperationGrowsStep(s, now, r);
    case IngestEvidence(_, _, _) => OperationGrowsStep(s, now, r);
    case RegisterArtifact(_, _, _) => OperationGrowsStep(s, now, r);
    case Complete(_, _, _) => EndingGrowsStep(s, now, r);
    case FailPlatform(_, _) => EndingGrowsStep(s, now, r);
    case Cancel(_) => EndingGrowsStep(s, now, r);
    case AckCancel(_, _) => EndingGrowsStep(s, now, r);
    case Timeout(_, _) => EndingGrowsStep(s, now, r);
  }

  // ---------------------------------------------------------------- every run

  lemma {:induction false} RunAppend(s: Server, steps: seq<Step>, more: seq<Step>)
    ensures Run(s, steps + more) == Run(Run(s, steps), more)
    decreases |steps|
  {
    if steps == [] {
      assert steps + more == more;
    } else {
      assert (steps + more)[1..] == steps[1..] + more;
      RunAppend(Next(s, steps[0].now, steps[0].request), steps[1..], more);
    }
  }

  lemma {:induction false} InvRun(s: Server, steps: seq<Step>)
    requires Inv(s)
    ensures Inv(Run(s, steps))
    decreases |steps|
  {
    if steps != [] {
      InvStep(s, steps[0].now, steps[0].request);
      InvRun(Next(s, steps[0].now, steps[0].request), steps[1..]);
    }
  }

  /** Every state a fresh submission can ever reach satisfies the invariant. */
  lemma Reachable(steps: seq<Step>)
    ensures Inv(Run(SUBMITTED, steps))
  {
    InvRun(SUBMITTED, steps);
  }

  lemma {:induction false} GrowsRun(s: Server, steps: seq<Step>)
    requires Inv(s)
    ensures Grows(s, Run(s, steps))
    decreases |steps|
  {
    if steps != [] {
      var t := Next(s, steps[0].now, steps[0].request);
      InvStep(s, steps[0].now, steps[0].request);
      GrowsStep(s, steps[0].now, steps[0].request);
      GrowsRun(t, steps[1..]);
      GrowsTransitive(s, t, Run(t, steps[1..]));
    }
  }
}
