/**
 The durable execution boundary of the Control Plane, one job row with its
 attempt, operation, evidence, effect and event tables.

 Every HTTP request is one database transaction, so it is modelled as one
 function from the tables to the new tables and the answer. Attempt ids are
 random in the implementation; here an attempt is named by its number, which is
 just as unique, and the lease token is an arbitrary value chosen at claim time.
 */
module ControlPlane {
  import opened Wrappers

  /** Identifiers, worker names, tokens and digests are only ever compared for equality. */
  type Id = int

  /** Proof of an effect: found in the effect table, or reported by the worker that confirms. */
  datatype Receipt = EffectReceipt(operation: Id) | WorkerReceipt(reference: Id)

  datatype JobState =
    | Queued | Claimed | Running | CancelRequested | ReconcileRequired
    | Completed | FailedPlatform | Cancelled

  datatype OperationStatus = Prepared | NotSubmitted | InFlight | UnknownOutcome | Confirmed

  datatype Outcome = Pass | Fail | Error | Invalid | Inconclusive | CancelledOutcome

  datatype AttemptStatus =
    | AttemptClaimed | AttemptRunning | AttemptExpired | AttemptReconcileRequired
    | AttemptReconciled | AttemptCompleted | AttemptFailed | AttemptCancelled

  datatype Attempt = Attempt(worker: Id, status: AttemptStatus)

  /** `attempt` is the attempt that prepared the operation; no request rewrites it. */
  datatype Operation = Operation(
    attempt: nat, environment: Id, fingerprint: Id,
    status: OperationStatus, effectCount: nat, receipt: Option<Receipt>)

  /** An artifact reference; a field the sender left out is `None`. */
  datatype ArtifactRef = ArtifactRef(
    artifactId: Option<Id>, artifactKey: Option<Id>, kind: Option<Id>, schema: Option<Id>,
    contentSha: Option<Id>, sourceSha: Option<Id>, runtime: Option<Id>)

  datatype Evidence = Evidence(
    attempt: Option<nat>, entityType: Id, entityId: Id,
    outcome: Outcome, contentSha: Id, artifact: ArtifactRef)

  datatype Lease = Lease(attempt: nat, worker: Id, token: Id, expires: nat)

  datatype Event = Event(before: JobState, after: JobState, version: nat)

  datatype Server = Server(
    state: JobState,
    version: nat,
    attemptNumber: nat,
    active: Option<Lease>,
    outcome: Option<Outcome>,
    terminalEvidence: Option<Id>,
    attempts: map<nat, Attempt>,
    operations: map<Id, Operation>,
    effects: map<Id, Id>,                        // rpf_simulated_effect: operation -> environment
    applied: seq<Id>,                            // every apply that reached the effect insert
    evidence: map<Id, Evidence>,
    registry: map<(Id, Id), ArtifactRef>,        // canonical artifacts by (entity type, entity id)
    events: seq<Event>)

  /** What a worker presents to prove that it owns the job. */
  datatype Credentials = Credentials(attempt: nat, worker: Id, token: Id, version: nat)

  datatype Request =
    | Claim(claimant: Id, newToken: Id, leaseSeconds: nat)
    | Start(c: Credentials)
    | Heartbeat(c: Credentials, leaseSeconds: nat)
    | Prepare(c: Credentials, op: Id, environment: Id, fingerprint: Id)
    | Dispatch(c: Credentials, op: Id)
    | MarkNotSubmitted(c: Credentials, op: Id)
    | Apply(c: Credentials, op: Id)
    | Confirm(c: Credentials, op: Id, receipt: Option<Id>)
    | MarkUnknown(op: Id)
    | Reconcile(op: Id)
    | IngestEvidence(c: Credentials, evidenceId: Id, body: Evidence)
    | Complete(c: Credentials, evidenceId: Id, artifactReadable: bool)
    | FailPlatform(c: Credentials, evidenceId: Id)
    | Cancel(cancelEvidence: Option<Id>)
    | AckCancel(c: Credentials, evidenceId: Id)
    | Timeout(c: Credentials, evidenceId: Id)
    | RegisterArtifact(entityType: Id, entityId: Id, artifact: ArtifactRef)

  datatype Code =
    | StaleAttempt | ActiveLease | JobNotClaimable | JobNotStartable | OperationIdentityConflict
    | OperationNotFound | OperationNotDispatchable | MustReconcile | OperationNotUnknownable
    | EvidenceNotAcceptedAtBoundary | ImmutableEvidenceConflict | JobNotCompletable | EvidenceNotFound
    | TerminalEvidencePassRequired | InvalidTerminalArtifactRef | TerminalArtifactNotRegistered | PlatformFailureEvidenceRequired
    | MissingEvidenceId | CancellationEvidenceRequired | JobNotCancellable | CancelNotRequested | JobNotTimeoutable
    | IdentityContentConflict

  /** `Granted` hands out a lease; `Deferred` reports the state that keeps the job from being claimed or timed out. */
  datatype Response = Granted | Done | Replayed | Deferred(state: JobState) | Rejected(code: Code)

  datatype Answer = Answer(server: Server, response: Response)

  /** The row a fresh submission inserts. */
  const SUBMITTED: Server := Server(
    Queued, 0, 0, None, None, None, map[], map[], map[], [], map[], map[], [Event(Queued, Queued, 0)])

  predicate Terminal(state: JobState) {
    state == Completed || state == FailedPlatform || state == Cancelled
  }

  predicate OwnerState(state: JobState) {
    state == Claimed || state == Running || state == CancelRequested
  }

  predicate Unresolved(status: OperationStatus) {
    status == Prepared || status == InFlight || status == UnknownOutcome
  }

  /** `hasUnsafeOperation`: some operation of the job has no settled outcome. */
  predicate HasUnsafe(s: Server) {
    exists op :: op in s.operations && Unresolved(s.operations[op].status)
  }

  /** `hasUnsafeOperationForAttempt`: only operations the given attempt prepared are looked at. */
  predicate HasUnsafeFor(s: Server, attempt: nat) {
    exists op :: op in s.operations && s.operations[op].attempt == attempt && Unresolved(s.operations[op].status)
  }

  /** `requireOwner`: the whole fencing tuple must match and the lease must be live. */
  predicate Owns(s: Server, c: Credentials, now: nat) {
    && OwnerState(s.state)
    && s.active.Some?
    && now < s.active.value.expires
    && c.attempt == s.active.value.attempt
    && c.worker == s.active.value.worker
    && c.token == s.active.value.token
    && c.version == s.version
  }

  function Reject(s: Server, code: Code): Answer {
    Answer(s, Rejected(code))
  }

  function Stale(s: Server): Answer {
    Reject(s, Code.StaleAttempt)
  }

  /** `updateStateClear` followed by `insertEvent`: new state, next version, no owner. */
  function ClearTo(s: Server, state: JobState): Server {
    s.(state := state, version := s.version + 1, active := None, outcome := None, terminalEvidence := None,
       events := s.events + [Event(s.state, state, s.version + 1)])
  }

  function SetAttempt(s: Server, attempt: nat, status: AttemptStatus): Server {
    if attempt in s.attempts then
      s.(attempts := s.attempts[attempt := s.attempts[attempt].(status := status)])
    else s
  }

  function EndActive(s: Server, status: AttemptStatus): Server {
    if s.active.Some? then SetAttempt(s, s.active.value.attempt, status) else s
  }

  /** `finishTerminal`: the terminal row remembers its outcome and the evidence it is bound to. */
  function FinishTerminal(s: Server, state: JobState, status: AttemptStatus, outcome: Outcome, evidenceId: Id): Server {
    ClearTo(EndActive(s, status), state).(outcome := Some(outcome), terminalEvidence := Some(evidenceId))
  }

  function SetOperation(s: Server, op: Id, status: OperationStatus): Server
    requires op in s.operations
  {
    s.(operations := s.operations[op := s.operations[op].(status := status)])
  }

  // ---------------------------------------------------------------- claim and lease

  function GrantLease(s: Server, now: nat, claimant: Id, token: Id, leaseSeconds: nat): Answer {
    var number := s.attemptNumber + 1;
    Answer(
      s.(state := Claimed, version := s.version + 1, attemptNumber := number,
         active := Some(Lease(number, claimant, token, now + leaseSeconds)),
         attempts := s.attempts[number := Attempt(claimant, AttemptClaimed)],
         events := s.events + [Event(s.state, Claimed, s.version + 1)]),
      Granted)
  }

  function ClaimJob(s: Server, now: nat, claimant: Id, token: Id, leaseSeconds: nat): Answer {
    if Terminal(s.state) then Answer(s, Deferred(s.state))
    else if s.state == ReconcileRequired then Answer(s, Deferred(ReconcileRequired))
    else if s.state == CancelRequested then Answer(s, Deferred(CancelRequested))
    else if s.active.Some? then
      if now < s.active.value.expires then Reject(s, Code.ActiveLease)
      else if HasUnsafeFor(s, s.active.value.attempt) then
        Answer(ClearTo(EndActive(s, AttemptReconcileRequired), ReconcileRequired), Deferred(ReconcileRequired))
      else
        GrantLease(ClearTo(EndActive(s, AttemptExpired), Queued), now, claimant, token, leaseSeconds)
    else if s.state != Queued then Reject(s, Code.JobNotClaimable)
    else GrantLease(s, now, claimant, token, leaseSeconds)
  }

  function StartJob(s: Server, now: nat, c: Credentials): Answer {
    if !Owns(s, c, now) then Stale(s)
    else if s.state == Running then Answer(s, Replayed)
    else if s.state != Claimed then Reject(s, Code.JobNotStartable)
    else
      Answer(
        EndActive(s, AttemptRunning).(state := Running, version := s.version + 1,
                                      events := s.events + [Event(Claimed, Running, s.version + 1)]),
        Done)
  }

  function HeartbeatJob(s: Server, now: nat, c: Credentials, leaseSeconds: nat): Answer {
    if !Owns(s, c, now) then Stale(s)
    else
      Answer(
        s.(version := s.version + 1, active := Some(s.active.value.(expires := now + leaseSeconds)),
           events := s.events + [Event(s.state, s.state, s.version + 1)]),
        Done)
  }

  // ---------------------------------------------------------------- operations

  function PrepareOperation(s: Server, now: nat, c: Credentials, op: Id, environment: Id, fingerprint: Id): Answer {
    if !Owns(s, c, now) then Stale(s)
    else if op in s.operations then
      if s.operations[op].fingerprint != fingerprint then Reject(s, Code.OperationIdentityConflict)
      else Answer(s, Replayed)
    else
      Answer(
        s.(operations := s.operations[op := Operation(c.attempt, environment, fingerprint, Prepared, 0, None)]),
        Done)
  }

  function DispatchOperation(s: Server, now: nat, c: Credentials, op: Id): Answer {
    if !Owns(s, c, now) then Stale(s)
    else if op !in s.operations then Reject(s, Code.OperationNotFound)
    else match s.operations[op].status
      case Confirmed => Answer(s, Replayed)
      case InFlight => Answer(s, Done)
      case UnknownOutcome => Reject(s, Code.OperationNotDispatchable)
      case _ => Answer(SetOperation(s, op, InFlight), Done)
  }

  function MarkOperationNotSubmitted(s: Server, now: nat, c: Credentials, op: Id): Answer {
    if !Owns(s, c, now) then Stale(s)
    else if op !in s.operations then Reject(s, Code.OperationNotFound)
    else if s.operations[op].status == NotSubmitted then Answer(s, Done)
    else if s.operations[op].status != Prepared then Reject(s, Code.MustReconcile)
    else Answer(SetOperation(s, op, NotSubmitted), Done)
  }

  /** The controlled side effect. The insert is `ON CONFLICT DO NOTHING`, so an
      existing effect row would survive; `applied` still records the insert. */
  function ApplyOperation(s: Server, now: nat, c: Credentials, op: Id): Answer {
    if !Owns(s, c, now) then Stale(s)
    else if op !in s.operations then Reject(s, Code.OperationNotFound)
    else match s.operations[op].status
      case UnknownOutcome => Reject(s, Code.MustReconcile)
      case InFlight => Reject(s, Code.MustReconcile)
      case Confirmed => Answer(s, Replayed)
      case _ =>
        var operation := s.operations[op];
        Answer(
          s.(effects := if op in s.effects then s.effects else s.effects[op := operation.environment],
             applied := s.applied + [op],
             operations := s.operations[op := operation.(status := InFlight, effectCount := 1)]),
          Done)
  }

  function ConfirmOperation(s: Server, now: nat, c: Credentials, op: Id, receipt: Option<Id>): Answer {
    if !Owns(s, c, now) then Stale(s)
    else if op !in s.operations then Reject(s, Code.OperationNotFound)
    else if s.operations[op].status == Confirmed then Answer(s, Replayed)
    else if s.operations[op].status != InFlight then Reject(s, Code.MustReconcile)
    else if op !in s.effects && receipt.None? then Reject(s, Code.MustReconcile)
    else
      var operation := s.operations[op];
      Answer(
        s.(operations := s.operations[op := operation.(
             status := Confirmed,
             effectCount := if op in s.effects then 1 else operation.effectCount,
             receipt := Some(if receipt.Some? then WorkerReceipt(receipt.value) else EffectReceipt(op)))]),
        Done)
  }

  /** The operation rows after an outcome is declared unknown. */
  function Suspended(s: Server, op: Id): Server
    requires op in s.operations
  {
    SetAttempt(SetOperation(s, op, UnknownOutcome), s.operations[op].attempt, AttemptReconcileRequired)
  }

  /** The job row after an outcome is declared unknown: a cancelling owner keeps its lease. */
  function AwaitReconcile(s: Server): Server {
    if s.state == CancelRequested then Touch(s)
    else if Terminal(s.state) then s
    else if s.state == ReconcileRequired then
      s.(events := s.events + [Event(ReconcileRequired, ReconcileRequired, s.version)])
    else ClearTo(s, ReconcileRequired)
  }

  /** A version bump of a cancelling job: every fencing tuple issued before is stale. */
  function Touch(s: Server): Server {
    s.(version := s.version + 1, outcome := None, events := s.events + [Event(s.state, s.state, s.version + 1)])
  }

  /** No fencing tuple is asked for: any worker may declare an outcome unknown. */
  function MarkOperationUnknown(s: Server, op: Id): Answer {
    if op !in s.operations then Reject(s, Code.OperationNotFound)
    else match s.operations[op].status
      case Confirmed => Answer(s, Replayed)
      case NotSubmitted => Answer(s, Replayed)
      case UnknownOutcome => Reject(s, Code.OperationNotUnknownable)
      case _ => Answer(AwaitReconcile(Suspended(s, op)), Done)
  }

  /** The status an unresolved operation is settled to: the effect table decides. */
  function ReconciledStatus(s: Server, op: Id): OperationStatus {
    if op in s.effects then Confirmed else NotSubmitted
  }

  function SettledOperation(s: Server, op: Id): Operation
    requires op in s.operations
  {
    s.operations[op].(
      status := ReconciledStatus(s, op),
      effectCount := if op in s.effects then 1 else 0,
      receipt := if op in s.effects then Some(EffectReceipt(op)) else None)
  }

  function Settled(s: Server, op: Id): Server
    requires op in s.operations
  {
    SetAttempt(s.(operations := s.operations[op := SettledOperation(s, op)]), s.operations[op].attempt, AttemptReconciled)
  }

  /** The job row after a reconcile: cancelling jobs stay so, all other live jobs are queued again. */
  function AfterReconcile(s: Server): Server {
    if Terminal(s.state) then s
    else if s.state == CancelRequested then Touch(s)
    else ClearTo(s, Queued)
  }

  function ReconcileOperation(s: Server, op: Id): Answer {
    if op !in s.operations then Reject(s, Code.OperationNotFound)
    else if s.operations[op].status == Confirmed then Answer(s, Done)
    else if s.operations[op].status == NotSubmitted then Answer(s, Done)
    else Answer(AfterReconcile(Settled(s, op)), Done)
  }

  // ---------------------------------------------------------------- evidence and terminal states

  /** The stored row a new piece of evidence collides with, by id or by natural key. */
  predicate Collides(e: Evidence, entityType: Id, entityId: Id) {
    e.entityType == entityType && e.entityId == entityId
  }

  function IngestJobEvidence(s: Server, now: nat, c: Credentials, evidenceId: Id, body: Evidence): Answer {
    if OwnerState(s.state) && !Owns(s, c, now) then Stale(s)
    else if !OwnerState(s.state) && s.state != Queued then Reject(s, Code.EvidenceNotAcceptedAtBoundary)
    else
      var attempt := if OwnerState(s.state) then Some(c.attempt) else None;
      var row := body.(attempt := attempt);
      if evidenceId in s.evidence then
        var stored := s.evidence[evidenceId];
        if stored.contentSha == row.contentSha && Collides(stored, row.entityType, row.entityId) && stored.attempt == attempt
        then Answer(s, Replayed)
        else Reject(s, Code.ImmutableEvidenceConflict)
      else if exists id :: id in s.evidence && Collides(s.evidence[id], row.entityType, row.entityId) then
        if exists id :: id in s.evidence && Collides(s.evidence[id], row.entityType, row.entityId)
                        && s.evidence[id].contentSha == row.contentSha && s.evidence[id].attempt == attempt
        then Answer(s, Replayed)
        else Reject(s, Code.ImmutableEvidenceConflict)
      else
        Answer(
          s.(evidence := s.evidence[evidenceId := row], events := s.events + [Event(s.state, s.state, s.version)]),
          Done)
  }

  predicate FullRef(r: ArtifactRef) {
    && r.artifactId.Some? && r.artifactKey.Some? && r.kind.Some? && r.schema.Some?
    && r.contentSha.Some? && r.sourceSha.Some? && r.runtime.Some?
  }

  /** The registered artifact that backs a piece of evidence is present and identical. */
  predicate BoundToRegistry(registry: map<(Id, Id), ArtifactRef>, e: Evidence) {
    && FullRef(e.artifact)
    && e.artifact.contentSha == Some(e.contentSha)
    && (e.entityType, e.entityId) in registry
    && registry[(e.entityType, e.entityId)] == e.artifact
  }

  function CompleteJob(s: Server, now: nat, c: Credentials, evidenceId: Id, artifactReadable: bool): Answer {
    if s.state == Completed && s.terminalEvidence == Some(evidenceId) then Answer(s, Replayed)
    else if !Owns(s, c, now) then Stale(s)
    else if s.state == CancelRequested then Reject(s, Code.JobNotCompletable)
    else if evidenceId !in s.evidence then Reject(s, Code.EvidenceNotFound)
    else if HasUnsafe(s) then Reject(s, Code.MustReconcile)
    else
      var e := s.evidence[evidenceId];
      if e.attempt != Some(s.active.value.attempt) then Stale(s)
      else if e.outcome != Pass then Reject(s, Code.TerminalEvidencePassRequired)
      else if !FullRef(e.artifact) || e.artifact.contentSha != Some(e.contentSha) then Reject(s, Code.InvalidTerminalArtifactRef)
      else if (e.entityType, e.entityId) !in s.registry then Reject(s, Code.TerminalArtifactNotRegistered)
      else if !artifactReadable || s.registry[(e.entityType, e.entityId)] != e.artifact then Reject(s, Code.InvalidTerminalArtifactRef)
      else Answer(FinishTerminal(s, Completed, AttemptCompleted, Pass, evidenceId), Done)
  }

  predicate PlatformOutcome(o: Outcome) {
    o == Error || o == Inconclusive
  }

  function FailJob(s: Server, now: nat, c: Credentials, evidenceId: Id): Answer {
    if !Owns(s, c, now) then Stale(s)
    else if evidenceId !in s.evidence then Reject(s, Code.EvidenceNotFound)
    else if !PlatformOutcome(s.evidence[evidenceId].outcome) then Reject(s, Code.PlatformFailureEvidenceRequired)
    else
      Answer(FinishTerminal(s, FailedPlatform, AttemptFailed, s.evidence[evidenceId].outcome, evidenceId), Done)
  }

  function CancelJob(s: Server, cancelEvidence: Option<Id>): Answer {
    if Terminal(s.state) then Answer(s, Deferred(s.state))
    else if s.state == Queued then
      if cancelEvidence.None? then Reject(s, Code.MissingEvidenceId)
      else if cancelEvidence.value !in s.evidence then Reject(s, Code.EvidenceNotFound)
      else if s.evidence[cancelEvidence.value].outcome != CancelledOutcome then Reject(s, Code.CancellationEvidenceRequired)
      else Answer(FinishTerminal(s, Cancelled, AttemptCancelled, CancelledOutcome, cancelEvidence.value), Done)
    else if s.state == CancelRequested then Answer(s, Deferred(CancelRequested))
    else if !OwnerState(s.state) then Reject(s, Code.JobNotCancellable)
    else
      Answer(
        s.(state := CancelRequested, version := s.version + 1,
           events := s.events + [Event(s.state, CancelRequested, s.version + 1)]),
        Deferred(CancelRequested))
  }

  function AcknowledgeCancel(s: Server, now: nat, c: Credentials, evidenceId: Id): Answer {
    if !Owns(s, c, now) then Stale(s)
    else if s.state != CancelRequested then Reject(s, Code.CancelNotRequested)
    else if HasUnsafe(s) then Reject(s, Code.MustReconcile)
    else if evidenceId !in s.evidence then Reject(s, Code.EvidenceNotFound)
    else if s.evidence[evidenceId].outcome != CancelledOutcome then Reject(s, Code.CancellationEvidenceRequired)
    else Answer(FinishTerminal(s, Cancelled, AttemptCancelled, CancelledOutcome, evidenceId), Done)
  }

  function TimeoutJob(s: Server, now: nat, c: Credentials, evidenceId: Id): Answer {
    if Terminal(s.state) then Answer(s, Deferred(s.state))
    else if s.state == ReconcileRequired then Reject(s, Code.JobNotTimeoutable)
    else if OwnerState(s.state) && !Owns(s, c, now) then Stale(s)
    else if OwnerState(s.state) && HasUnsafe(s) then
      Answer(ClearTo(EndActive(s, AttemptReconcileRequired), ReconcileRequired), Deferred(ReconcileRequired))
    else if evidenceId !in s.evidence then Reject(s, Code.EvidenceNotFound)
    else if !PlatformOutcome(s.evidence[evidenceId].outcome) then Reject(s, Code.PlatformFailureEvidenceRequired)
    else
      Answer(FinishTerminal(s, FailedPlatform, AttemptFailed, s.evidence[evidenceId].outcome, evidenceId), Done)
  }

  /** Canonical ingest: rows are immutable, so a second registration changes nothing. */
  function Register(s: Server, entityType: Id, entityId: Id, artifact: ArtifactRef): Answer {
    if (entityType, entityId) in s.registry then
      if s.registry[(entityType, entityId)] == artifact then Answer(s, Replayed)
      else Reject(s, Code.IdentityContentConflict)
    else Answer(s.(registry := s.registry[(entityType, entityId) := artifact]), Done)
  }

  /** One request, handled in one transaction at time `now`. */
  function Handle(s: Server, now: nat, r: Request): Answer {
    match r
    case Claim(w, token, secs) => ClaimJob(s, now, w, token, secs)
    case Start(c) => StartJob(s, now, c)
    case Heartbeat(c, secs) => HeartbeatJob(s, now, c, secs)
    case Prepare(c, op, env, fp) => PrepareOperation(s, now, c, op, env, fp)
    case Dispatch(c, op) => DispatchOperation(s, now, c, op)
    case MarkNotSubmitted(c, op) => MarkOperationNotSubmitted(s, now, c, op)
    case Apply(c, op) => ApplyOperation(s, now, c, op)
    case Confirm(c, op, receipt) => ConfirmOperation(s, now, c, op, receipt)
    case MarkUnknown(op) => MarkOperationUnknown(s, op)
    case Reconcile(op) => ReconcileOperation(s, op)
    case IngestEvidence(c, id, body) => IngestJobEvidence(s, now, c, id, body)
    case Complete(c, id, readable) => CompleteJob(s, now, c, id, readable)
    case FailPlatform(c, id) => FailJob(s, now, c, id)
    case Cancel(id) => CancelJob(s, id)
    case AckCancel(c, id) => AcknowledgeCancel(s, now, c, id)
    case Timeout(c, id) => TimeoutJob(s, now, c, id)
    case RegisterArtifact(t, id, artifact) => Register(s, t, id, artifact)
  }

  function Next(s: Server, now: nat, r: Request): Server {
    Handle(s, now, r).server
  }
}
