/**
 What callers are told, over all requests: every refusal with its exact reason, when
 an answer is a replay or a deferral, and what is written into the job's history.
 */
module ExecutionAnswers {
  import opened Wrappers
  import opened ControlPlane
  import opened ExecutionSafety
  import opened ExecutionRuns
  import opened ExecutionFencing
  import opened ExecutionCompletion
  import opened ExecutionLaws

  // ---------------------------------------------------------------- the history of the job

  lemma ClearHistory(s: Server, status: AttemptStatus, state: JobState)
    ensures
      var t := ClearTo(EndActive(s, status), state);
      && t.events == s.events + [Event(s.state, state, s.version + 1)]
      && t.version == s.version + 1 && t.state == state && t.evidence == s.evidence
  {}

  lemma SettledHistory(s: Server, op: Id)
    requires op in s.operations
    ensures Suspended(s, op).events == s.events && Settled(s, op).events == s.events
    ensures Suspended(s, op).evidence == s.evidence && Settled(s, op).evidence == s.evidence
  {}

  /** What a request writes into the history: nothing while version, evidence and
      suspended operations stay as they are, one entry with the old state, the new
      state and the version otherwise, and a second one for the requeue that a grant
      over an expired lease goes through. */
  ghost function Recorded(s: Server, t: Server, suspended: bool): seq<Event> {
    if t.version == s.version + 2 then [Event(s.state, Queued, s.version + 1), Event(Queued, t.state, t.version)]
    else if t.version != s.version || t.evidence != s.evidence || suspended then [Event(s.state, t.state, t.version)]
    else []
  }

  /** Declaring an outcome unknown is recorded even of a job that waits for reconcile already. */
  ghost predicate SuspendsMore(s: Server, r: Request) {
    r.MarkUnknown? && Suspendable(s, r.op) && s.state == ReconcileRequired
  }

  lemma HistoryExactly(s: Server, now: nat, r: Request)
    requires Inv(s)
    ensures
      var t := Next(s, now, r);
      t.events == s.events + Recorded(s, t, SuspendsMore(s, r))
  {
    match r
    case Claim(w, token, secs) => ClaimHistory(s, now, w, token, secs);
    case MarkUnknown(op) => UnknownHistory(s, op);
    case Reconcile(op) => ReconcileHistory(s, op);
    case IngestEvidence(c, id, body) => IngestHistory(s, now, c, id, body);
    case Complete(_, _, _) => CompleteHistory(s, now, r);
    case FailPlatform(_, _) => FailHistory(s, now, r);
    case AckCancel(_, _) => AckHistory(s, now, r);
    case Timeout(_, _) => TimeoutHistory(s, now, r);
    case Cancel(_) => CancelHistory(s, r.cancelEvidence);
    case RegisterArtifact(_, _, _) => assert s.events + [] == s.events;
    case _ => OwnHistory(s, now, r);
  }

  lemma ClaimHistory(s: Server, now: nat, w: Id, token: Id, secs: nat)
    requires OwnerInv(s)
    ensures
      var t := ClaimJob(s, now, w, token, secs).server;
      t.events == s.events + Recorded(s, t, false)
  {
    ClearHistory(s, AttemptReconcileRequired, ReconcileRequired);
    ClearHistory(s, AttemptExpired, Queued);
    GrantHistory(s, now, w, token, secs);
    GrantHistory(ClearTo(EndActive(s, AttemptExpired), Queued), now, w, token, secs);
    assert s.events + [] == s.events;
    assert s.events + [Event(s.state, Queued, s.version + 1)] + [Event(Queued, Claimed, s.version + 2)]
        == s.events + [Event(s.state, Queued, s.version + 1), Event(Queued, Claimed, s.version + 2)];
  }

  lemma GrantHistory(s: Server, now: nat, w: Id, token: Id, secs: nat)
    ensures
      var t := GrantLease(s, now, w, token, secs).server;
      && t.events == s.events + [Event(s.state, Claimed, s.version + 1)]
      && t.version == s.version + 1 && t.state == Claimed && t.evidence == s.evidence
  {}

  /** One entry if the row was touched, or the job waits for reconcile already. */
  lemma AwaitHistory(s: Server)
    ensures
      var t := AwaitReconcile(s);
      && t.evidence == s.evidence
      && t.events == s.events + (if Terminal(s.state) then [] else [Event(s.state, t.state, t.version)])
      && t.version == s.version + (if Terminal(s.state) || s.state == ReconcileRequired then 0 else 1)
  {
    assert s.events + [] == s.events;
  }

  lemma AfterHistory(s: Server)
    ensures
      var t := AfterReconcile(s);
      && t.evidence == s.evidence
      && t.events == s.events + (if Terminal(s.state) then [] else [Event(s.state, t.state, t.version)])
      && t.version == s.version + (if Terminal(s.state) then 0 else 1)
  {
    assert s.events + [] == s.events;
  }

  lemma UnknownHistory(s: Server, op: Id)
    ensures
      var t := MarkOperationUnknown(s, op).server;
      t.events == s.events + Recorded(s, t, SuspendsMore(s, MarkUnknown(op)))
  {
    assert s.events + [] == s.events;
    if Suspendable(s, op) {
      SettledHistory(s, op);
      SuspendedJob(s, op);
      AwaitHistory(Suspended(s, op));
    }
  }

  lemma ReconcileHistory(s: Server, op: Id)
    ensures
      var t := ReconcileOperation(s, op).server;
      t.events == s.events + Recorded(s, t, false)
  {
    assert s.events + [] == s.events;
    if UnresolvedAt(s, op) {
      SettledHistory(s, op);
      SuspendedJob(s, op);
      AfterHistory(Settled(s, op));
    }
  }

  lemma IngestHistory(s: Server, now: nat, c: Credentials, id: Id, body: Evidence)
    ensures
      var t := IngestJobEvidence(s, now, c, id, body).server;
      t.events == s.events + Recorded(s, t, false)
  {
    assert s.events + [] == s.events;
    var t := IngestJobEvidence(s, now, c, id, body).server;
    if t.events != s.events {
      assert id !in s.evidence && id in t.evidence;
    }
  }

  lemma FinishHistory(s: Server, state: JobState, status: AttemptStatus, outcome: Outcome, id: Id)
    ensures
      var t := FinishTerminal(s, state, status, outcome, id);
      && t.events == s.events + [Event(s.state, state, s.version + 1)]
      && t.version == s.version + 1 && t.state == state && t.evidence == s.evidence
  {}

  lemma CompleteHistory(s: Server, now: nat, r: Request)
    requires r.Complete?
    ensures
      var t := Next(s, now, r);
      t.events == s.events + Recorded(s, t, false)
  {
    FinishHistory(s, Completed, AttemptCompleted, Pass, r.evidenceId);
    assert s.events + [] == s.events;
  }

  lemma FailHistory(s: Server, now: nat, r: Request)
    requires r.FailPlatform?
    ensures
      var t := Next(s, now, r);
      t.events == s.events + Recorded(s, t, false)
  {
    if r.evidenceId in s.evidence {
      FinishHistory(s, FailedPlatform, AttemptFailed, s.evidence[r.evidenceId].outcome, r.evidenceId);
    }
    assert s.events + [] == s.events;
  }

  lemma AckHistory(s: Server, now: nat, r: Request)
    requires r.AckCancel?
    ensures
      var t := Next(s, now, r);
      t.events == s.events + Recorded(s, t, false)
  {
    FinishHistory(s, Cancelled, AttemptCancelled, CancelledOutcome, r.evidenceId);
    assert s.events + [] == s.events;
  }

  lemma TimeoutHistory(s: Server, now: nat, r: Request)
    requires r.Timeout?
    ensures
      var t := Next(s, now, r);
      t.events == s.events + Recorded(s, t, false)
  {
    ClearHistory(s, AttemptReconcileRequired, ReconcileRequired);
    if r.evidenceId in s.evidence {
      FinishHistory(s, FailedPlatform, AttemptFailed, s.evidence[r.evidenceId].outcome, r.evidenceId);
    }
    assert s.events + [] == s.events;
  }

  lemma CancelHistory(s: Server, cancelEvidence: Option<Id>)
    ensures
      var t := CancelJob(s, cancelEvidence).server;
      t.events == s.events + Recorded(s, t, false)
  {
    assert s.events + [] == s.events;
    if CancelsQueued(s, cancelEvidence) {
      FinishHistory(s, Cancelled, AttemptCancelled, CancelledOutcome, cancelEvidence.value);
    }
  }

  lemma OwnHistory(s: Server, now: nat, r: Request)
    requires CredentialsOf(r).Some? && !(r.IngestEvidence? || r.Complete? || r.FailPlatform? || r.AckCancel? || r.Timeout?)
    ensures
      var t := Next(s, now, r);
      t.events == s.events + Recorded(s, t, false)
  {
    assert s.events + [] == s.events;
  }

  // ---------------------------------------------------------------- refusals

  /** The request presents the tuple that owns the job. */
  ghost predicate Owner(s: Server, now: nat, r: Request) {
    CredentialsOf(r).Some? && Owns(s, CredentialsOf(r).value, now)
  }

  /** The operation a request names, apart from the one that prepares it. */
  function OperationOf(r: Request): Option<Id> {
    match r
    case Dispatch(_, op) => Some(op)
    case MarkNotSubmitted(_, op) => Some(op)
    case Apply(_, op) => Some(op)
    case Confirm(_, op, _) => Some(op)
    case MarkUnknown(op) => Some(op)
    case Reconcile(op) => Some(op)
    case _ => None
  }

  /** Asking an operation for a step its status does not allow before a reconcile. */
  ghost predicate OutOfTurn(s: Server, r: Request) {
    var status := if OperationOf(r).Some? then StatusOf(s, OperationOf(r).value) else None;
    || (r.MarkNotSubmitted? && status in {Some(InFlight), Some(UnknownOutcome), Some(Confirmed)})
    || (r.Apply? && status in {Some(InFlight), Some(UnknownOutcome)})
    || (r.Confirm? && status in {Some(Prepared), Some(NotSubmitted), Some(UnknownOutcome)})
    || (r.Confirm? && status == Some(InFlight) && r.op !in s.effects && r.receipt.None?)
  }

  /** The job is in a state in which the request gets as far as its evidence. */
  ghost predicate LooksAtEvidence(s: Server, now: nat, r: Request) {
    || (r.Complete? && Owner(s, now, r) && s.state != CancelRequested)
    || (r.FailPlatform? && Owner(s, now, r))
    || (r.AckCancel? && Owner(s, now, r) && s.state == CancelRequested && !HasUnsafe(s))
    || (r.Timeout? && (s.state == Queued || (Owner(s, now, r) && !HasUnsafe(s))))
    || (r.Cancel? && s.state == Queued)
  }

  ghost predicate NamesStored(s: Server, r: Request) {
    NamedEvidence(r).Some? && NamedEvidence(r).value in s.evidence
  }

  ghost predicate OutcomeIn(s: Server, r: Request, outcomes: set<Outcome>) {
    NamesStored(s, r) && s.evidence[NamedEvidence(r).value].outcome in outcomes
  }

  /** A completion that gets as far as judging evidence of the owner's own attempt. */
  ghost predicate Judged(s: Server, now: nat, r: Request) {
    && r.Complete? && LooksAtEvidence(s, now, r) && !HasUnsafe(s)
    && r.evidenceId in s.evidence && s.evidence[r.evidenceId].attempt == Some(s.attemptNumber)
  }

  /** The evidence passes and names its artifact in full, with its own content. */
  ghost predicate WellNamed(e: Evidence) {
    && e.outcome == Pass && e.artifact.contentSha == Some(e.contentSha)
    && e.artifact.artifactId != None && e.artifact.artifactKey != None && e.artifact.kind != None
    && e.artifact.schema != None && e.artifact.sourceSha != None && e.artifact.runtime != None
  }

  /** The same evidence was stored before by the same attempt: under this id if the id is taken. */
  ghost predicate StoredBefore(s: Server, r: Request)
    requires r.IngestEvidence?
  {
    exists id :: id in s.evidence && SameEvidence(s, id, r) && (r.evidenceId in s.evidence ==> id == r.evidenceId)
  }

  ghost predicate SameEvidence(s: Server, id: Id, r: Request)
    requires r.IngestEvidence? && id in s.evidence
  {
    var e := s.evidence[id];
    && e.entityType == r.body.entityType && e.entityId == r.body.entityId && e.contentSha == r.body.contentSha
    && e.attempt == if s.state == Queued then None else Some(s.attemptNumber)
  }

  /** The id or the entity of the evidence is taken. */
  ghost predicate Taken(s: Server, r: Request)
    requires r.IngestEvidence?
  {
    || r.evidenceId in s.evidence
    || exists id :: id in s.evidence && s.evidence[id].entityType == r.body.entityType && s.evidence[id].entityId == r.body.entityId
  }

  ghost predicate Ingestible(s: Server, now: nat, r: Request) {
    r.IngestEvidence? && (s.state == Queued || Owner(s, now, r))
  }

  /** What each refusal says about the request and the state it met. */
  ghost predicate Reason(s: Server, now: nat, r: Request, code: Code) {
    match code
    case StaleAttempt =>
      || (CredentialsOf(r).Some? && !Owner(s, now, r) && !PastFence(s, r))
      || (r.Complete? && LooksAtEvidence(s, now, r) && NamesStored(s, r) && !HasUnsafe(s) && !Judged(s, now, r))
    case ActiveLease => r.Claim? && Held(s) && !Expired(s, now)
    case JobNotClaimable => false
    case JobNotStartable => r.Start? && Owner(s, now, r) && s.state == CancelRequested
    case JobNotCompletable => r.Complete? && Owner(s, now, r) && s.state == CancelRequested
    case JobNotCancellable => r.Cancel? && s.state == ReconcileRequired
    case JobNotTimeoutable => r.Timeout? && s.state == ReconcileRequired
    case CancelNotRequested => r.AckCancel? && Owner(s, now, r) && s.state != CancelRequested
    case OperationNotFound =>
      && OperationOf(r).Some? && StatusOf(s, OperationOf(r).value) == None
      && (CredentialsOf(r).Some? ==> Owner(s, now, r))
    case OperationIdentityConflict =>
      r.Prepare? && Owner(s, now, r) && r.op in s.operations && s.operations[r.op].fingerprint != r.fingerprint
    case OperationNotDispatchable => r.Dispatch? && Owner(s, now, r) && StatusOf(s, r.op) == Some(UnknownOutcome)
    case OperationNotUnknownable => r.MarkUnknown? && StatusOf(s, r.op) == Some(UnknownOutcome)
    case MustReconcile =>
      || (Owner(s, now, r) && OutOfTurn(s, r))
      || (r.Complete? && LooksAtEvidence(s, now, r) && NamesStored(s, r) && HasUnsafe(s))
      || (r.AckCancel? && Owner(s, now, r) && s.state == CancelRequested && HasUnsafe(s))
    case EvidenceNotFound => LooksAtEvidence(s, now, r) && NamedEvidence(r).Some? && !NamesStored(s, r)
    case MissingEvidenceId => LooksAtEvidence(s, now, r) && NamedEvidence(r).None?
    case PlatformFailureEvidenceRequired =>
      (r.FailPlatform? || r.Timeout?) && LooksAtEvidence(s, now, r) && NamesStored(s, r) && !OutcomeIn(s, r, {Error, Inconclusive})
    case CancellationEvidenceRequired =>
      (r.AckCancel? || r.Cancel?) && LooksAtEvidence(s, now, r) && NamesStored(s, r) && !OutcomeIn(s, r, {CancelledOutcome})
    case TerminalEvidencePassRequired => Judged(s, now, r) && !OutcomeIn(s, r, {Pass})
    case TerminalArtifactNotRegistered =>
      && Judged(s, now, r) && WellNamed(s.evidence[r.evidenceId])
      && (s.evidence[r.evidenceId].entityType, s.evidence[r.evidenceId].entityId) !in s.registry
    case InvalidTerminalArtifactRef =>
      && Judged(s, now, r) && OutcomeIn(s, r, {Pass})
      && (var e := s.evidence[r.evidenceId];
          WellNamed(e) ==>
            && (e.entityType, e.entityId) in s.registry
            && (s.registry[(e.entityType, e.entityId)] != e.artifact || !r.artifactReadable))
    case EvidenceNotAcceptedAtBoundary => r.IngestEvidence? && (s.state == ReconcileRequired || Terminal(s.state))
    case ImmutableEvidenceConflict => Ingestible(s, now, r) && Taken(s, r) && !StoredBefore(s, r)
    case IdentityContentConflict =>
      r.RegisterArtifact? && (r.entityType, r.entityId) in s.registry && s.registry[(r.entityType, r.entityId)] != r.artifact
  }

  /** The state lets a request without a valid tuple past the fence. */
  predicate PastFence(s: Server, r: Request) {
    || (r.IngestEvidence? && !OwnerState(s.state))
    || (r.Timeout? && !OwnerState(s.state))
    || (r.Complete? && s.state == Completed && s.terminalEvidence == Some(r.evidenceId))
  }

  /** Every request is refused with a code exactly for the reason that code stands for. */
  lemma RefusedExactly(s: Server, now: nat, r: Request, code: Code)
    requires Inv(s)
    ensures Handle(s, now, r).response == Rejected(code) <==> Reason(s, now, r, code)
  {
    match r
    case Claim(_, _, _) => ClaimRefused(s, now, r, code);
    case Start(_) => LeaseRefused(s, now, r, code);
    case Heartbeat(_, _) => LeaseRefused(s, now, r, code);
    case Prepare(_, _, _, _) => PrepareRefused(s, now, r, code);
    case Dispatch(_, _) => OperationRefused(s, now, r, code);
    case MarkNotSubmitted(_, _) => OperationRefused(s, now, r, code);
    case Apply(_, _) => OperationRefused(s, now, r, code);
    case Confirm(_, _, _) => ConfirmRefused(s, now, r, code);
    case MarkUnknown(_) => SettleRefused(s, now, r, code);
    case Reconcile(_) => SettleRefused(s, now, r, code);
    case IngestEvidence(_, _, _) => IngestRefused(s, now, r, code);
    case Complete(_, _, _) => CompleteRefused(s, now, r, code);
    case FailPlatform(_, _) => FailRefused(s, now, r, code);
    case AckCancel(_, _) => AckRefused(s, now, r, code);
    case Timeout(_, _) => TimeoutRefused(s, now, r, code);
    case Cancel(_) => CancelRefused(s, now, r, code);
    case RegisterArtifact(_, _, _) => RegisterRefused(s, now, r, code);
  }

  lemma ClaimRefused(s: Server, now: nat, r: Request, code: Code)
    requires OwnerInv(s) && r.Claim?
    ensures Handle(s, now, r).response == Rejected(code) <==> Reason(s, now, r, code)
  {}

  lemma LeaseRefused(s: Server, now: nat, r: Request, code: Code)
    requires r.Start? || r.Heartbeat?
    ensures Handle(s, now, r).response == Rejected(code) <==> Reason(s, now, r, code)
  {}

  lemma PrepareRefused(s: Server, now: nat, r: Request, code: Code)
    requires r.Prepare?
    ensures Handle(s, now, r).response == Rejected(code) <==> Reason(s, now, r, code)
  {}

  lemma OperationRefused(s: Server, now: nat, r: Request, code: Code)
    requires r.Dispatch? || r.MarkNotSubmitted? || r.Apply?
    ensures Handle(s, now, r).response == Rejected(code) <==> Reason(s, now, r, code)
  {}

  lemma ConfirmRefused(s: Server, now: nat, r: Request, code: Code)
    requires r.Confirm?
    ensures Handle(s, now, r).response == Rejected(code) <==> Reason(s, now, r, code)
  {}

  lemma SettleRefused(s: Server, now: nat, r: Request, code: Code)
    requires r.MarkUnknown? || r.Reconcile?
    ensures Handle(s, now, r).response == Rejected(code) <==> Reason(s, now, r, code)
  {}

  lemma IngestRefused(s: Server, now: nat, r: Request, code: Code)
    requires OwnerInv(s) && r.IngestEvidence?
    ensures Handle(s, now, r).response == Rejected(code) <==> Reason(s, now, r, code)
  {}

  lemma CompleteRefused(s: Server, now: nat, r: Request, code: Code)
    requires OwnerInv(s) && r.Complete?
    ensures Handle(s, now, r).response == Rejected(code) <==> Reason(s, now, r, code)
  {}

  lemma FailRefused(s: Server, now: nat, r: Request, code: Code)
    requires r.FailPlatform?
    ensures Handle(s, now, r).response == Rejected(code) <==> Reason(s, now, r, code)
  {}

  lemma AckRefused(s: Server, now: nat, r: Request, code: Code)
    requires r.AckCancel?
    ensures Handle(s, now, r).response == Rejected(code) <==> Reason(s, now, r, code)
  {}

  lemma TimeoutRefused(s: Server, now: nat, r: Request, code: Code)
    requires OwnerInv(s) && r.Timeout?
    ensures Handle(s, now, r).response == Rejected(code) <==> Reason(s, now, r, code)
  {}

  lemma CancelRefused(s: Server, now: nat, r: Request, code: Code)
    requires r.Cancel?
    ensures Handle(s, now, r).response == Rejected(code) <==> Reason(s, now, r, code)
  {}

  lemma RegisterRefused(s: Server, now: nat, r: Request, code: Code)
    requires r.RegisterArtifact?
    ensures Handle(s, now, r).response == Rejected(code) <==> Reason(s, now, r, code)
  {}

  /** Whoever is told that a request was rejected, or was a replay, can rely on it:
      nothing has changed. */
  lemma RefusalChangesNothing(s: Server, now: nat, r: Request)
    ensures Handle(s, now, r).response.Rejected? || Handle(s, now, r).response == Replayed ==> Next(s, now, r) == s
  {
    match r
    case Claim(_, _, _) =>
    case MarkUnknown(_) => SettleAnswers(s, now, r);
    case Reconcile(_) => SettleAnswers(s, now, r);
    case Complete(_, _, _) => EndAnswers(s, now, r);
    case FailPlatform(_, _) => EndAnswers(s, now, r);
    case AckCancel(_, _) => EndAnswers(s, now, r);
    case Cancel(_) => EndAnswers(s, now, r);
    case Timeout(_, _) => EndAnswers(s, now, r);
    case _ =>
  }

  lemma SettleAnswers(s: Server, now: nat, r: Request)
    requires r.MarkUnknown? || r.Reconcile?
    ensures Handle(s, now, r).response.Rejected? || Handle(s, now, r).response == Replayed ==> Next(s, now, r) == s
  {}

  lemma EndAnswers(s: Server, now: nat, r: Request)
    requires r.Complete? || r.FailPlatform? || r.AckCancel? || r.Cancel? || r.Timeout?
    ensures Handle(s, now, r).response.Rejected? || Handle(s, now, r).response == Replayed ==> Next(s, now, r) == s
  {}

  // ---------------------------------------------------------------- deferrals and replays

  /** The state keeps the job from being claimed, cancelled or timed out now, or from
      staying with the owner that times it out. */
  ghost predicate Deferring(s: Server, now: nat, r: Request) {
    || (r.Claim? && !Grantable(s, now) && !(Held(s) && !Expired(s, now)))
    || (r.Cancel? && (Terminal(s.state) || s.state == CancelRequested || Held(s)))
    || (r.Timeout? && (Terminal(s.state) || (Owner(s, now, r) && HasUnsafe(s))))
  }

  /** Exactly then the answer is a deferral, and it names the state the job is in now. */
  lemma DeferredExactly(s: Server, now: nat, r: Request, state: JobState)
    requires Inv(s)
    ensures Handle(s, now, r).response == Deferred(state) <==> Deferring(s, now, r) && state == Next(s, now, r).state
  {
    if r.Claim? {
      ClaimDeferred(s, now, r, state);
    } else if r.Cancel? {
      CancelDeferred(s, now, r, state);
    } else if r.Timeout? {
      TimeoutDeferred(s, now, r, state);
    } else {
      NeverDeferred(s, now, r, state);
    }
  }

  lemma ClaimDeferred(s: Server, now: nat, r: Request, state: JobState)
    requires OwnerInv(s) && r.Claim?
    ensures Handle(s, now, r).response == Deferred(state) <==> Deferring(s, now, r) && state == Next(s, now, r).state
  {
    ClearHistory(s, AttemptReconcileRequired, ReconcileRequired);
  }

  lemma CancelDeferred(s: Server, now: nat, r: Request, state: JobState)
    requires r.Cancel?
    ensures Handle(s, now, r).response == Deferred(state) <==> Deferring(s, now, r) && state == Next(s, now, r).state
  {}

  lemma TimeoutDeferred(s: Server, now: nat, r: Request, state: JobState)
    requires OwnerInv(s) && r.Timeout?
    ensures Handle(s, now, r).response == Deferred(state) <==> Deferring(s, now, r) && state == Next(s, now, r).state
  {
    ClearHistory(s, AttemptReconcileRequired, ReconcileRequired);
  }

  lemma NeverDeferred(s: Server, now: nat, r: Request, state: JobState)
    requires !r.Claim? && !r.Cancel? && !r.Timeout?
    ensures Handle(s, now, r).response != Deferred(state)
  {}

  /** What has been done already. */
  ghost predicate DoneBefore(s: Server, now: nat, r: Request) {
    match r
    case Start(_) => Owner(s, now, r) && s.state == ControlPlane.Running
    case Prepare(_, op, _, fingerprint) => Owner(s, now, r) && op in s.operations && s.operations[op].fingerprint == fingerprint
    case Dispatch(_, op) => Owner(s, now, r) && StatusOf(s, op) == Some(Confirmed)
    case Apply(_, op) => Owner(s, now, r) && StatusOf(s, op) == Some(Confirmed)
    case Confirm(_, op, _) => Owner(s, now, r) && StatusOf(s, op) == Some(Confirmed)
    case MarkUnknown(op) => StatusOf(s, op) == Some(Confirmed) || StatusOf(s, op) == Some(NotSubmitted)
    case IngestEvidence(_, _, _) => Ingestible(s, now, r) && StoredBefore(s, r)
    case Complete(_, id, _) => s.state == Completed && s.terminalEvidence == Some(id)
    case RegisterArtifact(type_, id, artifact) => (type_, id) in s.registry && s.registry[(type_, id)] == artifact
    case _ => false
  }

  /** A request is answered as a replay exactly when it has been done already. */
  lemma ReplayedExactly(s: Server, now: nat, r: Request)
    requires Inv(s)
    ensures Handle(s, now, r).response == Replayed <==> DoneBefore(s, now, r)
  {
    if r.IngestEvidence? {
      IngestReplayed(s, now, r);
    } else if NamedEvidence(r).Some? || r.Cancel? || r.Claim? {
      RowReplayed(s, now, r);
    } else {
      OperationReplayed(s, now, r);
    }
  }

  lemma IngestReplayed(s: Server, now: nat, r: Request)
    requires OwnerInv(s) && r.IngestEvidence?
    ensures Handle(s, now, r).response == Replayed <==> DoneBefore(s, now, r)
  {}

  lemma RowReplayed(s: Server, now: nat, r: Request)
    requires NamedEvidence(r).Some? || r.Cancel? || r.Claim?
    ensures Handle(s, now, r).response == Replayed <==> DoneBefore(s, now, r)
  {}

  lemma OperationReplayed(s: Server, now: nat, r: Request)
    requires NamedEvidence(r).None? && !r.Cancel? && !r.Claim? && !r.IngestEvidence?
    ensures Handle(s, now, r).response == Replayed <==> DoneBefore(s, now, r)
  {}
}
