/**
 What single requests do to the other tables: attempt rows, receipts and effects,
 stored evidence, registered artifacts.
 */
module ExecutionRows {
  import opened Wrappers
  import opened ControlPlane
  import opened ExecutionSafety
  import opened ExecutionRuns
  import opened ExecutionFencing
  import opened ExecutionCompletion
  import opened ExecutionLaws

  // ---------------------------------------------------------------- attempt rows

  /** The attempt row a request closes or moves on, and its new status. */
  ghost function Moves(s: Server, now: nat, r: Request): Option<(nat, AttemptStatus)>
    requires Inv(s)
  {
    match r
    case Claim(_, _, _) =>
      if Held(s) && Expired(s, now)
      then Some((s.attemptNumber, if HasUnsafeFor(s, s.attemptNumber) then AttemptReconcileRequired else AttemptExpired)) else None
    case Start(c) => if Owns(s, c, now) && s.state == Claimed then Some((s.attemptNumber, AttemptRunning)) else None
    case Complete(c, id, readable) =>
      if Completable(s, now, c, id, readable) then Some((s.attemptNumber, AttemptCompleted)) else None
    case FailPlatform(c, id) => if FailsPlatform(s, now, c, id) then Some((s.attemptNumber, AttemptFailed)) else None
    case AckCancel(c, id) => if Acknowledges(s, now, c, id) then Some((s.attemptNumber, AttemptCancelled)) else None
    case Timeout(c, id) =>
      if !Owns(s, c, now) then None
      else if HasUnsafe(s) then Some((s.attemptNumber, AttemptReconcileRequired))
      else if TimesOut(s, now, c, id) then Some((s.attemptNumber, AttemptFailed)) else None
    case MarkUnknown(op) => if Suspendable(s, op) then Some((s.operations[op].attempt, AttemptReconcileRequired)) else None
    case Reconcile(op) => if UnresolvedAt(s, op) then Some((s.operations[op].attempt, AttemptReconciled)) else None
    case _ => None
  }

  /** The rows of `t` are those of `s` but for the status of one attempt. */
  ghost predicate OneMoved(s: Server, t: Server, moved: Option<(nat, AttemptStatus)>) {
    forall n :: n in s.attempts ==>
      && n in t.attempts && t.attempts[n].worker == s.attempts[n].worker
      && t.attempts[n].status == if moved.Some? && moved.value.0 == n then moved.value.1 else s.attempts[n].status
  }

  lemma EndMoves(s: Server, status: AttemptStatus, state: JobState)
    requires OwnerInv(s)
    ensures OneMoved(s, ClearTo(EndActive(s, status), state), if s.active.Some? then Some((s.attemptNumber, status)) else None)
    ensures ClearTo(EndActive(s, status), state).attempts.Keys == s.attempts.Keys
  {}

  lemma GrantMoves(s: Server, now: nat, w: Id, token: Id, secs: nat)
    requires OwnerInv(s)
    ensures
      var t := GrantLease(s, now, w, token, secs).server;
      OneMoved(s, t, None) && s.attemptNumber + 1 in t.attempts && t.attempts[s.attemptNumber + 1] == Attempt(w, AttemptClaimed)
  {}

  lemma MovedThen(s: Server, t: Server, u: Server, moved: Option<(nat, AttemptStatus)>)
    requires OneMoved(s, t, moved) && OneMoved(t, u, None)
    ensures OneMoved(s, u, moved)
  {
    forall n | n in s.attempts
      ensures n in u.attempts && u.attempts[n].worker == s.attempts[n].worker
      ensures u.attempts[n].status == if moved.Some? && moved.value.0 == n then moved.value.1 else s.attempts[n].status
    {
      assert n in t.attempts && n in u.attempts;
    }
  }

  lemma ExpiredGrantMoves(s: Server, now: nat, w: Id, token: Id, secs: nat)
    requires OwnerInv(s) && s.active.Some?
    ensures
      var t := GrantLease(ClearTo(EndActive(s, AttemptExpired), Queued), now, w, token, secs).server;
      && OneMoved(s, t, Some((s.attemptNumber, AttemptExpired)))
      && s.attemptNumber + 1 in t.attempts && t.attempts[s.attemptNumber + 1] == Attempt(w, AttemptClaimed)
  {
    var queued := ClearTo(EndActive(s, AttemptExpired), Queued);
    EndMoves(s, AttemptExpired, Queued);
    ClearRow(s, AttemptExpired, Queued);
    assert OwnerInv(queued);
    GrantMoves(queued, now, w, token, secs);
    MovedThen(s, queued, GrantLease(queued, now, w, token, secs).server, Some((s.attemptNumber, AttemptExpired)));
  }

  lemma ClaimMoves(s: Server, now: nat, w: Id, token: Id, secs: nat)
    requires OwnerInv(s)
    ensures
      var t := ClaimJob(s, now, w, token, secs).server;
      && OneMoved(s, t,
           if Held(s) && Expired(s, now)
           then Some((s.attemptNumber, if HasUnsafeFor(s, s.attemptNumber) then AttemptReconcileRequired else AttemptExpired))
           else None)
      && (Grantable(s, now) ==>
            s.attemptNumber + 1 in t.attempts && t.attempts[s.attemptNumber + 1] == Attempt(w, AttemptClaimed))
  {
    if Held(s) && Expired(s, now) {
      EndMoves(s, AttemptReconcileRequired, ReconcileRequired);
      ExpiredGrantMoves(s, now, w, token, secs);
    } else if s.state == Queued {
      GrantMoves(s, now, w, token, secs);
    }
  }

  lemma StartMoves(s: Server, now: nat, c: Credentials)
    requires OwnerInv(s)
    ensures OneMoved(s, StartJob(s, now, c).server,
                     if Owns(s, c, now) && s.state == Claimed then Some((s.attemptNumber, AttemptRunning)) else None)
  {}

  lemma CompleteMoves(s: Server, now: nat, c: Credentials, id: Id, readable: bool)
    requires OwnerInv(s)
    ensures OneMoved(s, CompleteJob(s, now, c, id, readable).server,
                     if Completable(s, now, c, id, readable) then Some((s.attemptNumber, AttemptCompleted)) else None)
  {
    EndMoves(s, AttemptCompleted, Completed);
  }

  lemma FailMoves(s: Server, now: nat, c: Credentials, id: Id)
    requires OwnerInv(s)
    ensures OneMoved(s, FailJob(s, now, c, id).server,
                     if FailsPlatform(s, now, c, id) then Some((s.attemptNumber, AttemptFailed)) else None)
  {
    EndMoves(s, AttemptFailed, FailedPlatform);
  }

  lemma AckMoves(s: Server, now: nat, c: Credentials, id: Id)
    requires OwnerInv(s)
    ensures OneMoved(s, AcknowledgeCancel(s, now, c, id).server,
                     if Acknowledges(s, now, c, id) then Some((s.attemptNumber, AttemptCancelled)) else None)
  {
    EndMoves(s, AttemptCancelled, Cancelled);
  }

  lemma CancelMoves(s: Server, now: nat, id: Option<Id>)
    requires OwnerInv(s)
    ensures OneMoved(s, CancelJob(s, id).server, None)
  {
    EndMoves(s, AttemptCancelled, Cancelled);
  }

  lemma TimeoutMoves(s: Server, now: nat, c: Credentials, id: Id)
    requires OwnerInv(s)
    ensures OneMoved(s, TimeoutJob(s, now, c, id).server,
                     if !Owns(s, c, now) then None
                     else if HasUnsafe(s) then Some((s.attemptNumber, AttemptReconcileRequired))
                     else if TimesOut(s, now, c, id) then Some((s.attemptNumber, AttemptFailed)) else None)
  {
    EndMoves(s, AttemptReconcileRequired, ReconcileRequired);
    EndMoves(s, AttemptFailed, FailedPlatform);
  }

  lemma RowsMove(s: Server, op: Id)
    requires Inv(s) && op in s.operations
    ensures OneMoved(s, Suspended(s, op), Some((s.operations[op].attempt, AttemptReconcileRequired)))
    ensures OneMoved(s, Settled(s, op), Some((s.operations[op].attempt, AttemptReconciled)))
  {}

  /** The tables beside the job row and the attempts. */
  ghost predicate JobRowOnly(s: Server, t: Server) {
    t.attempts == s.attempts && t.effects == s.effects
  }

  lemma AwaitRowOnly(s: Server)
    ensures JobRowOnly(s, AwaitReconcile(s))
  {}

  lemma AfterRowOnly(s: Server)
    ensures JobRowOnly(s, AfterReconcile(s))
  {}

  lemma UnknownMoves(s: Server, op: Id)
    requires Inv(s)
    ensures OneMoved(s, MarkOperationUnknown(s, op).server,
                     if Suspendable(s, op) then Some((s.operations[op].attempt, AttemptReconcileRequired)) else None)
  {
    if op in s.operations {
      RowsMove(s, op);
      AwaitRowOnly(Suspended(s, op));
    }
  }

  lemma ReconcileMoves(s: Server, op: Id)
    requires Inv(s)
    ensures OneMoved(s, ReconcileOperation(s, op).server,
                     if UnresolvedAt(s, op) then Some((s.operations[op].attempt, AttemptReconciled)) else None)
  {
    if op in s.operations {
      RowsMove(s, op);
      AfterRowOnly(Settled(s, op));
    }
  }

  /** Every request moves at most one attempt row, as the table says, and no row's
      worker ever changes; a grant adds the claimant's row. */
  lemma AttemptTable(s: Server, now: nat, r: Request)
    requires Inv(s)
    ensures OneMoved(s, Next(s, now, r), Moves(s, now, r))
    ensures r.Claim? && Grantable(s, now) ==>
      s.attemptNumber + 1 in Next(s, now, r).attempts
      && Next(s, now, r).attempts[s.attemptNumber + 1] == Attempt(r.claimant, AttemptClaimed)
  {
    match r
    case Claim(w, token, secs) => ClaimMoves(s, now, w, token, secs);
    case Start(c) => StartMoves(s, now, c);
    case Heartbeat(c, secs) => HeartbeatRow(s, now, c, secs);
    case Complete(c, id, readable) => CompleteMoves(s, now, c, id, readable);
    case FailPlatform(c, id) => FailMoves(s, now, c, id);
    case AckCancel(c, id) => AckMoves(s, now, c, id);
    case Cancel(id) => CancelMoves(s, now, id);
    case Timeout(c, id) => TimeoutMoves(s, now, c, id);
    case MarkUnknown(op) => UnknownMoves(s, op);
    case Reconcile(op) => ReconcileMoves(s, op);
    case IngestEvidence(_, _, _) => FactAttempts(s, now, r);
    case RegisterArtifact(_, _, _) => FactAttempts(s, now, r);
    case _ => OwnerAttempts(s, now, r);
  }

  lemma FactAttempts(s: Server, now: nat, r: Request)
    requires r.IngestEvidence? || r.RegisterArtifact?
    ensures JobRowOnly(s, Next(s, now, r))
  {}

  lemma OwnerAttempts(s: Server, now: nat, r: Request)
    requires r.Prepare? || r.Dispatch? || r.MarkNotSubmitted? || r.Apply? || r.Confirm?
    ensures Next(s, now, r).attempts == s.attempts
  {}

  // ---------------------------------------------------------------- operation rows and receipts

  /** A receipt is there exactly for confirmed operations, and a receipt that names
      an effect names the operation's own, which took place. */
  ghost predicate ReceiptInv(s: Server) {
    forall op :: op in s.operations ==>
      && (s.operations[op].receipt.Some? <==> s.operations[op].status == Confirmed)
      && (s.operations[op].receipt.Some? && s.operations[op].receipt.value.EffectReceipt? ==>
            s.operations[op].receipt == Some(EffectReceipt(op)) && op in s.effects)
  }

  lemma ReceiptStep(s: Server, now: nat, r: Request)
    requires ReceiptInv(s)
    ensures ReceiptInv(Next(s, now, r))
  {
    match r
    case Prepare(_, _, _, _) => OwnerReceipts(s, now, r);
    case Dispatch(_, _) => OwnerReceipts(s, now, r);
    case MarkNotSubmitted(_, _) => OwnerReceipts(s, now, r);
    case Apply(_, _) => OwnerReceipts(s, now, r);
    case Confirm(_, _, _) => OwnerReceipts(s, now, r);
    case MarkUnknown(op) => SettleReceipts(s, op);
    case Reconcile(op) => SettleReceipts(s, op);
    case _ =>
      JobFrame(s, now, r);
      JobEffects(s, now, r);
  }

  lemma OwnerReceipts(s: Server, now: nat, r: Request)
    requires ReceiptInv(s) && (r.Prepare? || r.Dispatch? || r.MarkNotSubmitted? || r.Apply? || r.Confirm?)
    ensures ReceiptInv(Next(s, now, r))
  {}

  lemma RowReceipts(s: Server, op: Id)
    requires ReceiptInv(s) && UnresolvedAt(s, op)
    ensures ReceiptInv(Suspended(s, op)) && ReceiptInv(Settled(s, op))
  {}

  lemma JobRowReceipts(s: Server)
    requires ReceiptInv(s)
    ensures ReceiptInv(AwaitReconcile(s)) && ReceiptInv(AfterReconcile(s))
  {}

  lemma SettleReceipts(s: Server, op: Id)
    requires ReceiptInv(s)
    ensures ReceiptInv(MarkOperationUnknown(s, op).server) && ReceiptInv(ReconcileOperation(s, op).server)
  {
    if UnresolvedAt(s, op) {
      RowReceipts(s, op);
      JobRowReceipts(Suspended(s, op));
      JobRowReceipts(Settled(s, op));
    }
  }

  lemma EndEffects(s: Server, status: AttemptStatus, state: JobState)
    ensures ClearTo(EndActive(s, status), state).effects == s.effects
  {}

  lemma ClaimEffects(s: Server, now: nat, w: Id, token: Id, secs: nat)
    ensures ClaimJob(s, now, w, token, secs).server.effects == s.effects
  {
    EndEffects(s, AttemptReconcileRequired, ReconcileRequired);
    EndEffects(s, AttemptExpired, Queued);
  }

  lemma TimeoutEffects(s: Server, now: nat, c: Credentials, id: Id)
    ensures TimeoutJob(s, now, c, id).server.effects == s.effects
  {
    EndEffects(s, AttemptReconcileRequired, ReconcileRequired);
    EndEffects(s, AttemptFailed, FailedPlatform);
  }

  lemma CompleteEffects(s: Server, now: nat, c: Credentials, id: Id, readable: bool)
    ensures CompleteJob(s, now, c, id, readable).server.effects == s.effects
    ensures FailJob(s, now, c, id).server.effects == s.effects
  {
    EndEffects(s, AttemptCompleted, Completed);
    EndEffects(s, AttemptFailed, FailedPlatform);
  }

  lemma CancelEffects(s: Server, now: nat, c: Credentials, id: Id, withdrawn: Option<Id>)
    ensures CancelJob(s, withdrawn).server.effects == s.effects
    ensures AcknowledgeCancel(s, now, c, id).server.effects == s.effects
  {
    EndEffects(s, AttemptCancelled, Cancelled);
  }

  lemma JobEffects(s: Server, now: nat, r: Request)
    requires About(r).None?
    ensures Next(s, now, r).effects == s.effects
  {
    match r
    case Claim(w, token, secs) => ClaimEffects(s, now, w, token, secs);
    case Timeout(c, id) => TimeoutEffects(s, now, c, id);
    case Complete(c, id, readable) => CompleteEffects(s, now, c, id, readable);
    case FailPlatform(c, id) => CompleteEffects(s, now, c, id, true);
    case AckCancel(c, id) => CancelEffects(s, now, c, id, None);
    case Cancel(id) => CancelEffects(s, now, Credentials(0, 0, 0, 0), 0, id);
    case _ => FactEffects(s, now, r);
  }

  lemma FactEffects(s: Server, now: nat, r: Request)
    requires r.Start? || r.Heartbeat? || r.IngestEvidence? || r.RegisterArtifact?
    ensures Next(s, now, r).effects == s.effects
  {}

  /** In every run an operation is confirmed exactly when it has a receipt, and no
      receipt claims an effect that did not take place. */
  lemma {:induction false} ReceiptRun(s: Server, steps: seq<Step>)
    requires ReceiptInv(s)
    ensures ReceiptInv(Run(s, steps))
    decreases |steps|
  {
    if steps != [] {
      ReceiptStep(s, steps[0].now, steps[0].request);
      ReceiptRun(Next(s, steps[0].now, steps[0].request), steps[1..]);
    }
  }

  /** Where the receipt of a newly confirmed operation comes from: the reference its
      owner sent, or else the effect table. */
  lemma ReceiptExactly(s: Server, now: nat, r: Request, op: Id)
    requires op in s.operations && s.operations[op].status != Confirmed
    requires StatusOf(Next(s, now, r), op) == Some(Confirmed)
    ensures op in Next(s, now, r).operations
    ensures Next(s, now, r).operations[op].receipt
         == Some(if r.Confirm? && r.receipt.Some? then WorkerReceipt(r.receipt.value) else EffectReceipt(op))
  {
    OperationTable(s, now, r);
    if r.Reconcile? {
      assert Settled(s, op).operations == s.operations[op := SettledOperation(s, op)];
      AfterFrame(Settled(s, op));
    }
  }

  /** A prepared operation carries what its owner asked for, and nothing was applied for it. */
  lemma PreparedExactly(s: Server, now: nat, r: Request, op: Id)
    requires op !in s.operations
    ensures op in Next(s, now, r).operations <==> r.Prepare? && r.op == op && Owns(s, r.c, now)
    ensures r.Prepare? && r.op == op && Owns(s, r.c, now) ==>
      Next(s, now, r).operations[op] == Operation(r.c.attempt, r.environment, r.fingerprint, Prepared, 0, None)
  {
    OperationTable(s, now, r);
    assert StatusOf(Next(s, now, r), op).Some? <==> op in Next(s, now, r).operations;
  }

  /** The effect table grows exactly by the operation that is applied, with its environment. */
  lemma EffectExactly(s: Server, now: nat, r: Request)
    requires Inv(s)
    ensures
      var t := Next(s, now, r);
      if t.applied == s.applied then t.effects == s.effects
      else r.Apply? && t.applied == s.applied + [r.op] && r.op in s.operations && r.op !in s.effects
           && t.effects == s.effects[r.op := s.operations[r.op].environment]
  {
    OperationTable(s, now, r);
    if About(r).None? {
      JobEffects(s, now, r);
    } else if r.Apply? {
      ApplyEffect(s, now, r.c, r.op);
    } else if r.MarkUnknown? || r.Reconcile? {
      SettleEffects(s, r.op);
    } else {
      OwnerEffects(s, now, r);
    }
  }

  lemma ApplyEffect(s: Server, now: nat, c: Credentials, op: Id)
    requires Inv(s)
    ensures
      var t := ApplyOperation(s, now, c, op).server;
      if t.applied == s.applied then t.effects == s.effects
      else t.applied == s.applied + [op] && op in s.operations && op !in s.effects
           && t.effects == s.effects[op := s.operations[op].environment]
  {}

  lemma OwnerEffects(s: Server, now: nat, r: Request)
    requires r.Prepare? || r.Dispatch? || r.MarkNotSubmitted? || r.Confirm?
    ensures Next(s, now, r).effects == s.effects && Next(s, now, r).applied == s.applied
  {}

  lemma RowEffects(s: Server, op: Id)
    requires op in s.operations
    ensures Suspended(s, op).effects == s.effects && Settled(s, op).effects == s.effects
  {}

  lemma SettleEffects(s: Server, op: Id)
    ensures MarkOperationUnknown(s, op).server.effects == s.effects && ReconcileOperation(s, op).server.effects == s.effects
  {
    if op in s.operations {
      RowEffects(s, op);
      AwaitRowOnly(Suspended(s, op));
      AfterRowOnly(Settled(s, op));
    }
  }

  // ---------------------------------------------------------------- evidence and artifacts

  /** New evidence is stored exactly by an ingest of the owner, or of anyone while the
      job is queued, under an id and for an entity that nothing is stored for yet. It
      is stored as sent, bound to the owner's attempt or to none. */
  lemma StoredExactly(s: Server, now: nat, r: Request, id: Id)
    requires Inv(s) && id !in s.evidence
    ensures id in Next(s, now, r).evidence
       <==> && r.IngestEvidence? && r.evidenceId == id && (s.state == Queued || Owns(s, r.c, now))
            && forall other :: other in s.evidence ==> !Collides(s.evidence[other], r.body.entityType, r.body.entityId)
    ensures id in Next(s, now, r).evidence ==>
      Next(s, now, r).evidence[id] == r.body.(attempt := if s.state == Queued then None else Some(s.attemptNumber))
  {
    if r.IngestEvidence? {
      IngestStored(s, now, r.c, r.evidenceId, r.body, id);
    } else if !r.RegisterArtifact? {
      FactsOnlyStored(s, now, r);
    }
  }

  lemma IngestStored(s: Server, now: nat, c: Credentials, sent: Id, body: Evidence, id: Id)
    requires Inv(s) && id !in s.evidence
    ensures
      var t := IngestJobEvidence(s, now, c, sent, body).server;
      && (id in t.evidence <==>
            && sent == id && (s.state == Queued || Owns(s, c, now))
            && forall other :: other in s.evidence ==> !Collides(s.evidence[other], body.entityType, body.entityId))
      && (id in t.evidence ==> t.evidence[id] == body.(attempt := if s.state == Queued then None else Some(s.attemptNumber)))
  {}

  /** An artifact is registered exactly by the first registration of its entity, and
      every later one is a replay or a conflict. */
  lemma RegisteredExactly(s: Server, now: nat, r: Request, key: (Id, Id))
    ensures key !in s.registry ==>
      (key in Next(s, now, r).registry <==> r.RegisterArtifact? && (r.entityType, r.entityId) == key)
    ensures key !in s.registry && key in Next(s, now, r).registry ==> Next(s, now, r).registry[key] == r.artifact
    ensures key in s.registry && r.RegisterArtifact? && (r.entityType, r.entityId) == key ==>
      Handle(s, now, r)
      == Answer(s, if r.artifact == s.registry[key] then Replayed else Rejected(Code.IdentityContentConflict))
  {
    if !r.RegisterArtifact? {
      if r.IngestEvidence? {
        FactAttempts(s, now, r);
        IngestRegistry(s, now, r);
      } else {
        FactsOnlyStored(s, now, r);
      }
    }
  }

  lemma IngestRegistry(s: Server, now: nat, r: Request)
    requires r.IngestEvidence?
    ensures Next(s, now, r).registry == s.registry
  {}
}
