/**
 Ownership in the durable execution protocol: fencing, terminal states, evidence of
 another attempt, and cancelling jobs whose lease has run out.
 */
module ExecutionFencing {
  import opened Wrappers
  import opened ControlPlane
  import opened ExecutionSafety
  import opened ExecutionRuns

  /** The fencing tuple a request presents. */
  function CredentialsOf(r: Request): Option<Credentials> {
    match r
    case Start(c) => Some(c)
    case Heartbeat(c, _) => Some(c)
    case Prepare(c, _, _, _) => Some(c)
    case Dispatch(c, _) => Some(c)
    case MarkNotSubmitted(c, _) => Some(c)
    case Apply(c, _) => Some(c)
    case Confirm(c, _, _) => Some(c)
    case IngestEvidence(c, _, _) => Some(c)
    case Complete(c, _, _) => Some(c)
    case FailPlatform(c, _) => Some(c)
    case AckCancel(c, _) => Some(c)
    case Timeout(c, _) => Some(c)
    case _ => None
  }

  /** The two requests an unowned, queued job accepts whatever tuple they carry. */
  predicate OpenWhileQueued(r: Request) {
    r.IngestEvidence? || r.Timeout?
  }

  lemma NotOwnerStep(s: Server, now: nat, r: Request, c: Credentials)
    requires CredentialsOf(r) == Some(c) && !Owns(s, c, now)
    ensures !(s.state == Queued && OpenWhileQueued(r)) ==> Next(s, now, r) == s
    ensures !OpenWhileQueued(r) && !r.Complete? ==> Handle(s, now, r).response == Rejected(Code.StaleAttempt)
  {}

  /** A newer attempt was granted, or the row moved past the version presented. */
  predicate Superseded(s: Server, c: Credentials) {
    c.attempt < s.attemptNumber || c.version < s.version
  }

  /** A superseded tuple never becomes current again, in any run; every request
      that presents it leaves all tables as they are, except that a job which is
      QUEUED at that moment still takes evidence and timeouts from anyone. */
  lemma SupersededForever(s: Server, c: Credentials, steps: seq<Step>, now: nat, r: Request)
    requires Inv(s) && Superseded(s, c) && CredentialsOf(r) == Some(c)
    ensures
      var t := Run(s, steps);
      && Superseded(t, c)
      && (t.state != Queued || !OpenWhileQueued(r) ==> Next(t, now, r) == t)
      && (!OpenWhileQueued(r) && !r.Complete? ==> Handle(t, now, r).response == Rejected(Code.StaleAttempt))
  {
    InvRun(s, steps);
    GrowsRun(s, steps);
    NotOwnerStep(Run(s, steps), now, r, c);
  }

  /** A claim that is granted supersedes every tuple that was ever valid before it. */
  lemma GrantSupersedes(s: Server, t0: nat, c: Credentials, before: seq<Step>, now: nat, claim: Request)
    requires Inv(s) && Owns(s, c, t0) && claim.Claim?
    requires Handle(Run(s, before), now, claim).response == Granted
    ensures Inv(Next(Run(s, before), now, claim))
    ensures Superseded(Next(Run(s, before), now, claim), c)
  {
    InvRun(s, before);
    GrowsRun(s, before);
    InvStep(Run(s, before), now, claim);
  }

  /** After a reclaim the older attempt is fenced out for the rest of every run. */
  lemma ReclaimFences(
      s: Server, t0: nat, c: Credentials, before: seq<Step>, t1: nat, claim: Request,
      after: seq<Step>, now: nat, r: Request)
    requires Inv(s) && Owns(s, c, t0) && claim.Claim?
    requires Handle(Run(s, before), t1, claim).response == Granted
    requires CredentialsOf(r) == Some(c)
    ensures
      var t := Run(Next(Run(s, before), t1, claim), after);
      && (t.state != Queued || !OpenWhileQueued(r) ==> Next(t, now, r) == t)
      && !Owns(t, c, now)
  {
    GrantSupersedes(s, t0, c, before, t1, claim);
    var u := Next(Run(s, before), t1, claim);
    SupersededForever(u, c, after, now, r);
    InvRun(u, after);
  }

  /** Two concurrent claims: while the granted lease is live no second claim is granted. */
  lemma ClaimRace(s: Server, t1: nat, first: Request, t2: nat, second: Request)
    requires first.Claim? && second.Claim?
    requires Handle(s, t1, first).response == Granted
    requires t2 < t1 + first.leaseSeconds
    ensures Handle(Next(s, t1, first), t2, second) == Answer(Next(s, t1, first), Rejected(Code.ActiveLease))
  {}

  /** At any moment at most one fencing tuple is accepted. */
  lemma OneOwner(s: Server, c: Credentials, d: Credentials, now: nat, later: nat)
    requires Owns(s, c, now) && Owns(s, d, later)
    ensures c == d
  {}

  /** Start, heartbeat and cancel bump the version: whoever misses the answer,
      and with it the new version, is fenced out for good. */
  lemma MissedVersionFences(s: Server, c: Credentials, t1: nat, bump: Request, steps: seq<Step>, now: nat, r: Request)
    requires Inv(s) && Owns(s, c, t1)
    requires CredentialsOf(r) == Some(c)
    requires Next(s, t1, bump).version != s.version
    ensures Superseded(Run(Next(s, t1, bump), steps), c)
    ensures var t := Run(Next(s, t1, bump), steps); t.state != Queued || !OpenWhileQueued(r) ==> Next(t, now, r) == t
  {
    InvStep(s, t1, bump);
    GrowsStep(s, t1, bump);
    SupersededForever(Next(s, t1, bump), c, steps, now, r);
  }

  // ---------------------------------------------------------------- terminal states

  /** A terminal job is final in every run: its state, outcome, bound evidence,
      version and attempt never change, the evidence it is bound to stays what it
      was, and no effect is ever applied for it again. */
  lemma {:induction false} TerminalIsFinal(s: Server, steps: seq<Step>)
    requires Inv(s) && Terminal(s.state)
    ensures Frozen(s, Run(s, steps))
    decreases |steps|
  {
    if steps != [] {
      var t := Next(s, steps[0].now, steps[0].request);
      TerminalStep(s, steps[0].now, steps[0].request);
      TerminalIsFinal(t, steps[1..]);
      FrozenTransitive(s, t, Run(t, steps[1..]));
    }
  }

  ghost predicate Frozen(s: Server, t: Server) {
    && t.state == s.state && t.outcome == s.outcome && t.terminalEvidence == s.terminalEvidence
    && t.version == s.version && t.attemptNumber == s.attemptNumber && t.applied == s.applied
    && EvidenceGrows(s, t)
  }

  lemma FrozenTransitive(s: Server, t: Server, u: Server)
    requires Frozen(s, t) && Frozen(t, u)
    ensures Frozen(s, u)
  {}

  lemma TerminalStep(s: Server, now: nat, r: Request)
    requires Inv(s) && Terminal(s.state)
    ensures Inv(Next(s, now, r)) && Frozen(s, Next(s, now, r)) && Terminal(Next(s, now, r).state)
  {
    InvStep(s, now, r);
    GrowsStep(s, now, r);
    OperationTable(s, now, r);
  }

  /** COMPLETED in any run binds passing evidence of the final attempt to an
      identical registered artifact, with every operation settled at that moment. */
  lemma CompletedBinds(steps: seq<Step>)
    ensures Run(SUBMITTED, steps).state == Completed ==> CompletedBinding(Run(SUBMITTED, steps))
  {
    Reachable(steps);
  }

  /** What lets a completion through. */
  predicate Completable(s: Server, now: nat, c: Credentials, id: Id, readable: bool) {
    && Owns(s, c, now) && s.state != CancelRequested
    && id in s.evidence && s.evidence[id].attempt == Some(c.attempt) && s.evidence[id].outcome == Pass
    && BoundToRegistry(s.registry, s.evidence[id]) && readable
    && !HasUnsafe(s)
  }

  /** Among all requests only a completion enters COMPLETED, and exactly when it is completable. */
  lemma CompletedExactly(s: Server, now: nat, r: Request)
    requires s.state != Completed
    ensures Next(s, now, r).state == Completed
       <==> r.Complete? && Completable(s, now, r.c, r.evidenceId, r.artifactReadable)
  {
    match r
    case Complete(c, id, readable) => FinishState(s, Completed, AttemptCompleted, Pass, id);
    case FailPlatform(c, id) => FailNotCompleted(s, now, c, id);
    case Timeout(c, id) => TimeoutNotCompleted(s, now, c, id);
    case Cancel(id) => CancelNotCompleted(s, id);
    case AckCancel(c, id) => AckNotCompleted(s, now, c, id);
    case Claim(w, token, secs) => ClaimNotCompleted(s, now, w, token, secs);
    case MarkUnknown(op) => UnknownNotCompleted(s, op);
    case Reconcile(op) => ReconcileNotCompleted(s, op);
    case _ =>
  }

  lemma FinishState(s: Server, state: JobState, status: AttemptStatus, outcome: Outcome, id: Id)
    ensures FinishTerminal(s, state, status, outcome, id).state == state
  {}

  lemma FailNotCompleted(s: Server, now: nat, c: Credentials, id: Id)
    requires s.state != Completed
    ensures FailJob(s, now, c, id).server.state != Completed
  {}

  lemma TimeoutNotCompleted(s: Server, now: nat, c: Credentials, id: Id)
    requires s.state != Completed
    ensures TimeoutJob(s, now, c, id).server.state != Completed
  {}

  lemma CancelNotCompleted(s: Server, id: Option<Id>)
    requires s.state != Completed
    ensures CancelJob(s, id).server.state != Completed
  {}

  lemma AckNotCompleted(s: Server, now: nat, c: Credentials, id: Id)
    requires s.state != Completed
    ensures AcknowledgeCancel(s, now, c, id).server.state != Completed
  {}

  lemma ClaimNotCompleted(s: Server, now: nat, w: Id, token: Id, secs: nat)
    requires s.state != Completed
    ensures ClaimJob(s, now, w, token, secs).server.state != Completed
  {}

  lemma UnknownNotCompleted(s: Server, op: Id)
    requires s.state != Completed
    ensures MarkOperationUnknown(s, op).server.state != Completed
  {
    if op in s.operations {
      assert Suspended(s, op).state == s.state;
    }
  }

  lemma ReconcileNotCompleted(s: Server, op: Id)
    requires s.state != Completed
    ensures ReconcileOperation(s, op).server.state != Completed
  {
    if op in s.operations {
      assert Settled(s, op).state == s.state;
    }
  }

  // ---------------------------------------------------------------- evidence of another attempt

  /** Evidence that no present or future attempt can complete with. */
  ghost predicate Orphaned(s: Server, id: Id) {
    && id in s.evidence
    && (s.evidence[id].attempt.None? || s.evidence[id].attempt.value < s.attemptNumber)
  }

  /** A job whose completions all name one evidence id never completes once that
      evidence is stored under an older attempt, or was taken while the job was
      queued, and every owner that submits it again, under the same id or for the
      same entity, is refused. */
  lemma {:induction false} OrphanedEvidenceLocksOut(s: Server, id: Id, steps: seq<Step>)
    requires Inv(s) && Orphaned(s, id) && s.state != Completed
    requires forall i :: 0 <= i < |steps| && steps[i].request.Complete? ==> steps[i].request.evidenceId == id
    ensures Run(s, steps).state != Completed && Orphaned(Run(s, steps), id)
    decreases |steps|
  {
    if steps != [] {
      var now, r := steps[0].now, steps[0].request;
      InvStep(s, now, r);
      GrowsStep(s, now, r);
      CompletedExactly(s, now, r);
      OrphanedEvidenceLocksOut(Next(s, now, r), id, steps[1..]);
    }
  }

  lemma OrphanedEvidenceIsRefused(s: Server, now: nat, c: Credentials, id: Id, other: Id, body: Evidence)
    requires Inv(s) && Orphaned(s, id) && Owns(s, c, now)
    requires other == id || Collides(s.evidence[id], body.entityType, body.entityId)
    ensures Handle(s, now, IngestEvidence(c, other, body)) == Answer(s, Rejected(Code.ImmutableEvidenceConflict))
  {
    assert Collides(s.evidence[id], s.evidence[id].entityType, s.evidence[id].entityId);
  }

  // ---------------------------------------------------------------- cancellation

  /** A cancelling job whose lease has run out. */
  ghost predicate Wedged(s: Server, now: nat) {
    s.state == CancelRequested && s.active.Some? && s.active.value.expires <= now
  }

  lemma WedgedStep(s: Server, now: nat, r: Request)
    requires Wedged(s, now)
    ensures Next(s, now, r).state == CancelRequested && Next(s, now, r).active == s.active
  {
    match r
    case MarkUnknown(op) => WedgedSettles(s, op);
    case Reconcile(op) => WedgedSettles(s, op);
    case _ =>
  }

  lemma WedgedSettles(s: Server, op: Id)
    requires s.state == CancelRequested
    ensures MarkOperationUnknown(s, op).server.state == CancelRequested && MarkOperationUnknown(s, op).server.active == s.active
    ensures ReconcileOperation(s, op).server.state == CancelRequested && ReconcileOperation(s, op).server.active == s.active
  {
    if op in s.operations {
      assert Suspended(s, op).state == s.state && Suspended(s, op).active == s.active;
      assert Settled(s, op).state == s.state && Settled(s, op).active == s.active;
    }
  }

  /** No run leaves CANCEL_REQUESTED once the lease has run out. */
  lemma {:induction false} WedgedForever(s: Server, expired: nat, steps: seq<Step>)
    requires Wedged(s, expired)
    requires forall i :: 0 <= i < |steps| ==> expired <= steps[i].now
    ensures Wedged(Run(s, steps), expired)
    decreases |steps|
  {
    if steps != [] {
      WedgedStep(s, steps[0].now, steps[0].request);
      WedgedForever(Next(s, steps[0].now, steps[0].request), expired, steps[1..]);
    }
  }
}
