/**
 Which jobs can still be completed under a given evidence id: the exact condition
 for all states, with the run that completes the job wherever there is one.
 */
module ExecutionCompletion {
  import opened Wrappers
  import opened ControlPlane
  import opened ExecutionSafety
  import opened ExecutionRuns
  import opened ExecutionFencing
  import opened ExecutionLiveness

  predicate Names(r: Request, id: Id) {
    r.Complete? ==> r.evidenceId == id
  }

  /** Every completion of the run names this evidence id. */
  ghost predicate CompletesOnly(steps: seq<Step>, id: Id) {
    forall i :: 0 <= i < |steps| ==> Names(steps[i].request, id)
  }

  /** Some run from here, with no request earlier than `now`, completes the job
      under this evidence id. */
  ghost predicate CanComplete(s: Server, now: nat, id: Id) {
    exists steps: seq<Step> :: NotBefore(steps, now) && CompletesOnly(steps, id) && Run(s, steps).state == Completed
  }

  // ---------------------------------------------------------------- jobs that cannot

  /** A worker holds the job and nobody has asked for a cancellation. */
  predicate Held(s: Server) {
    s.state == Claimed || s.state == Running
  }

  /** Evidence with which a completion can go through, once its artifact is registered. */
  predicate Sound(e: Evidence) {
    e.outcome == Pass && FullRef(e.artifact) && e.artifact.contentSha == Some(e.contentSha)
  }

  /** Nothing else is registered for the entity. */
  predicate SlotFits(registry: map<(Id, Id), ArtifactRef>, e: Evidence) {
    (e.entityType, e.entityId) in registry ==> registry[(e.entityType, e.entityId)] == e.artifact
  }

  ghost predicate OutcomeLost(s: Server) {
    exists op :: StatusOf(s, op) == Some(UnknownOutcome)
  }

  ghost predicate Expired(s: Server, now: nat) {
    s.active.Some? && s.active.value.expires <= now
  }

  /** The attempt that holds the job stored this evidence and can still complete with it. */
  ghost predicate Finishable(s: Server, now: nat, id: Id) {
    && Held(s) && !Expired(s, now)
    && id in s.evidence && s.evidence[id].attempt == Some(s.attemptNumber)
    && Sound(s.evidence[id]) && SlotFits(s.registry, s.evidence[id])
    && !OutcomeLost(s)
  }

  /** The evidence is stored and of no more use. */
  ghost predicate Hopeless(s: Server, now: nat, id: Id) {
    && id in s.evidence && s.state != Completed
    && (|| Orphaned(s, id) || !Held(s) || Expired(s, now)
        || !Sound(s.evidence[id]) || !SlotFits(s.registry, s.evidence[id]) || OutcomeLost(s))
  }

  /** A job comes into a worker's hands only by a grant. */
  lemma HeldByGrant(s: Server, now: nat, r: Request)
    requires !Held(s) && Held(Next(s, now, r))
    ensures Next(s, now, r).attemptNumber > s.attemptNumber
  {
    match r
    case Claim(w, token, secs) =>
    case Complete(c, id, _) => FinishState(s, Completed, AttemptCompleted, Pass, id);
    case FailPlatform(_, _) => EndedNotHeld(s, now, r);
    case Cancel(_) => EndedNotHeld(s, now, r);
    case AckCancel(_, _) => EndedNotHeld(s, now, r);
    case Timeout(_, _) => EndedNotHeld(s, now, r);
    case MarkUnknown(op) => UnknownNotHeld(s, op);
    case Reconcile(op) => ReconcileNotHeld(s, op);
    case _ =>
  }

  lemma EndedNotHeld(s: Server, now: nat, r: Request)
    requires r.FailPlatform? || r.Cancel? || r.AckCancel? || r.Timeout?
    ensures Held(Next(s, now, r)) ==> Next(s, now, r) == s
  {}

  lemma UnknownNotHeld(s: Server, op: Id)
    ensures Held(MarkOperationUnknown(s, op).server) ==> MarkOperationUnknown(s, op).server == s
  {
    if op in s.operations {
      assert Suspended(s, op).state == s.state;
    }
  }

  lemma ReconcileNotHeld(s: Server, op: Id)
    ensures Held(ReconcileOperation(s, op).server) ==> ReconcileOperation(s, op).server == s
  {
    if op in s.operations {
      assert Settled(s, op).state == s.state;
    }
  }

  /** An expired lease is not renewed: a new attempt is granted, the job is taken
      from its holder, or the lease stays as it was. */
  lemma ExpiredStays(s: Server, now: nat, r: Request)
    requires Held(s) && Expired(s, now) && Held(Next(s, now, r))
    ensures Next(s, now, r).active == s.active || Next(s, now, r).attemptNumber > s.attemptNumber
  {
    match r
    case Claim(w, token, secs) =>
    case Complete(c, id, _) => FinishState(s, Completed, AttemptCompleted, Pass, id);
    case FailPlatform(_, _) => EndedNotHeld(s, now, r);
    case Cancel(_) => EndedNotHeld(s, now, r);
    case AckCancel(_, _) => EndedNotHeld(s, now, r);
    case Timeout(_, _) => EndedNotHeld(s, now, r);
    case MarkUnknown(op) => UnknownNotHeld(s, op);
    case Reconcile(op) => ReconcileNotHeld(s, op);
    case _ =>
  }

  /** An unknown outcome is only ever settled by a reconcile, which takes the job
      from its holder. */
  lemma LostOutcomeStays(s: Server, now: nat, r: Request)
    requires OutcomeLost(s) && Held(Next(s, now, r))
    ensures OutcomeLost(Next(s, now, r))
  {
    var op :| StatusOf(s, op) == Some(UnknownOutcome);
    OperationTable(s, now, r);
    if r.Reconcile? {
      ReconcileNotHeld(s, r.op);
    }
    assert StatusOf(Next(s, now, r), op) == Some(UnknownOutcome);
  }

  lemma HopelessNotCompletable(s: Server, from: nat, now: nat, r: Request, id: Id)
    requires Inv(s) && Hopeless(s, from, id) && from <= now && Names(r, id)
    ensures Next(s, now, r).state != Completed
  {
    CompletedExactly(s, now, r);
    LostIsUnsafe(s);
  }

  lemma LostIsUnsafe(s: Server)
    ensures OutcomeLost(s) ==> HasUnsafe(s)
  {
    if op :| StatusOf(s, op) == Some(UnknownOutcome) {
      assert op in s.operations && Unresolved(s.operations[op].status);
    }
  }

  lemma HopelessStep(s: Server, from: nat, now: nat, r: Request, id: Id)
    requires Inv(s) && Hopeless(s, from, id) && from <= now && Names(r, id)
    ensures Hopeless(Next(s, now, r), from, id)
  {
    var t := Next(s, now, r);
    HopelessNotCompletable(s, from, now, r, id);
    GrowsStep(s, now, r);
    if Held(t) {
      if !Held(s) {
        HeldByGrant(s, now, r);
      } else if Expired(s, from) {
        ExpiredStays(s, now, r);
      } else if OutcomeLost(s) {
        LostOutcomeStays(s, now, r);
      }
    }
  }

  lemma {:induction false} HopelessForever(s: Server, from: nat, id: Id, steps: seq<Step>)
    requires Inv(s) && Hopeless(s, from, id) && NotBefore(steps, from) && CompletesOnly(steps, id)
    ensures Run(s, steps).state != Completed
    decreases |steps|
  {
    if steps != [] {
      var now, r := steps[0].now, steps[0].request;
      assert Names(r, id);
      HopelessStep(s, from, now, r, id);
      InvStep(s, now, r);
      forall i | 0 <= i < |steps[1..]| ensures from <= steps[1..][i].now && Names(steps[1..][i].request, id) {
        assert steps[1..][i] == steps[i + 1];
      }
      HopelessForever(Next(s, now, r), from, id, steps[1..]);
    }
  }

  // ---------------------------------------------------------------- stored evidence that can still be used

  lemma RunCons(s: Server, first: Step, rest: seq<Step>)
    ensures Run(s, [first] + rest) == Run(Next(s, first.now, first.request), rest)
  {
    assert ([first] + rest)[1..] == rest;
  }

  lemma CanCompleteStep(s: Server, now: nat, r: Request, id: Id)
    requires Names(r, id) && CanComplete(Next(s, now, r), now, id)
    ensures CanComplete(s, now, id)
  {
    var steps: seq<Step> :|
      NotBefore(steps, now) && CompletesOnly(steps, id) && Run(Next(s, now, r), steps).state == Completed;
    var all := [Step(now, r)] + steps;
    RunCons(s, Step(now, r), steps);
    assert NotBefore(all, now) && CompletesOnly(all, id);
  }

  lemma CompletedNow(s: Server, now: nat, id: Id)
    requires s.state == Completed
    ensures CanComplete(s, now, id)
  {
    assert Run(s, []) == s && NotBefore([], now) && CompletesOnly([], id);
  }

  /** The tuple of the worker that holds the job. */
  function Holder(s: Server): Credentials
    requires s.active.Some?
  {
    Credentials(s.active.value.attempt, s.active.value.worker, s.active.value.token, s.version)
  }

  function UnresolvedOps(s: Server): set<Id> {
    set op | op in s.operations && Unresolved(s.operations[op].status)
  }

  lemma UnsafeExactly(s: Server)
    ensures HasUnsafe(s) <==> UnresolvedOps(s) != {}
  {
    if op :| op in s.operations && Unresolved(s.operations[op].status) {
      assert op in UnresolvedOps(s);
    }
    if UnresolvedOps(s) != {} {
      var op := Choose(UnresolvedOps(s));
      assert op in s.operations && Unresolved(s.operations[op].status);
    }
  }

  /** One operation fewer is unresolved. */
  ghost predicate OneSettled(s: Server, t: Server, op: Id) {
    op in UnresolvedOps(s) && UnresolvedOps(t) == UnresolvedOps(s) - {op}
  }

  lemma SettlesOne(s: Server, now: nat, r: Request, op: Id)
    requires About(r) == Some(op) && op in UnresolvedOps(s)
    requires StatusOf(Next(s, now, r), op).Some? && !Unresolved(StatusOf(Next(s, now, r), op).value)
    ensures OneSettled(s, Next(s, now, r), op)
  {
    OperationTable(s, now, r);
    var t := Next(s, now, r);
    forall x ensures x in UnresolvedOps(t) <==> x in UnresolvedOps(s) && x != op {
      assert StatusOf(t, x) == if x == op then StatusOf(t, op) else StatusOf(s, x);
      assert x in UnresolvedOps(s) <==> StatusOf(s, x).Some? && Unresolved(StatusOf(s, x).value);
      assert x in UnresolvedOps(t) <==> StatusOf(t, x).Some? && Unresolved(StatusOf(t, x).value);
    }
  }

  /** The holder settles an operation itself, unless its outcome is unknown. */
  lemma HolderSettles(s: Server, now: nat, op: Id) returns (r: Request)
    requires Held(s) && s.active.Some? && !Expired(s, now) && op in UnresolvedOps(s) && !OutcomeLost(s)
    ensures About(r) == Some(op) && !r.Complete?
    ensures var t := Next(s, now, r); t == s.(operations := t.operations) && OneSettled(s, t, op) && !OutcomeLost(t)
  {
    assert StatusOf(s, op) != Some(UnknownOutcome);
    r := if StatusOf(s, op) == Some(Prepared) then MarkNotSubmitted(Holder(s), op) else Confirm(Holder(s), op, Some(0));
    OperationTable(s, now, r);
    SettlesOne(s, now, r, op);
    var t := Next(s, now, r);
    forall x ensures StatusOf(t, x) != Some(UnknownOutcome) {
      assert StatusOf(s, x) != Some(UnknownOutcome);
    }
  }

  /** With nothing unresolved the holder registers the artifact and completes. */
  lemma FinishClean(s: Server, now: nat, id: Id)
    requires Inv(s) && Finishable(s, now, id) && !HasUnsafe(s)
    ensures CanComplete(s, now, id)
  {
    var e, c := s.evidence[id], Holder(s);
    var register := RegisterArtifact(e.entityType, e.entityId, e.artifact);
    var t := Next(s, now, register);
    assert t == s.(registry := t.registry) && BoundToRegistry(t.registry, e);
    assert !HasUnsafe(t);
    CompletedExactly(t, now, Complete(c, id, true));
    CompletedNow(Next(t, now, Complete(c, id, true)), now, id);
    CanCompleteStep(t, now, Complete(c, id, true), id);
    CanCompleteStep(s, now, register, id);
  }

  lemma {:induction false} FinishStored(s: Server, now: nat, id: Id)
    requires Inv(s) && Finishable(s, now, id)
    ensures CanComplete(s, now, id)
    decreases |UnresolvedOps(s)|
  {
    UnsafeExactly(s);
    if UnresolvedOps(s) != {} {
      var op := Choose(UnresolvedOps(s));
      var r := HolderSettles(s, now, op);
      InvStep(s, now, r);
      FinishStored(Next(s, now, r), now, id);
      CanCompleteStep(s, now, r, id);
    } else {
      FinishClean(s, now, id);
    }
  }

  // ---------------------------------------------------------------- evidence still to be stored

  /** The requests a job is freed with. */
  predicate Neutral(r: Request) {
    r.Claim? || r.Prepare? || r.Timeout? || r.Reconcile?
  }

  ghost predicate AllNeutral(steps: seq<Step>, now: nat) {
    forall i :: 0 <= i < |steps| ==> steps[i].now == now && Neutral(steps[i].request)
  }

  /** Evidence, registry and the identity of one operation are untouched. */
  ghost predicate Keeps(s: Server, t: Server, op: Id) {
    && t.evidence == s.evidence && t.registry == s.registry
    && (op in t.operations <==> op in s.operations)
    && (op in s.operations ==> t.operations[op].fingerprint == s.operations[op].fingerprint)
  }

  ghost predicate SameFacts(s: Server, t: Server) {
    t.evidence == s.evidence && t.registry == s.registry
  }

  lemma ClearFacts(s: Server, status: AttemptStatus, state: JobState)
    ensures SameFacts(s, ClearTo(EndActive(s, status), state))
  {}

  lemma ClaimFacts(s: Server, now: nat, w: Id, token: Id, secs: nat)
    ensures SameFacts(s, ClaimJob(s, now, w, token, secs).server)
  {
    ClearFacts(s, AttemptReconcileRequired, ReconcileRequired);
    ClearFacts(s, AttemptExpired, Queued);
  }

  lemma TimeoutFacts(s: Server, now: nat, c: Credentials, id: Id)
    ensures SameFacts(s, TimeoutJob(s, now, c, id).server)
  {
    ClearFacts(s, AttemptReconcileRequired, ReconcileRequired);
    ClearFacts(s, AttemptFailed, FailedPlatform);
  }

  lemma CompleteFacts(s: Server, now: nat, c: Credentials, id: Id, readable: bool)
    ensures SameFacts(s, CompleteJob(s, now, c, id, readable).server)
    ensures SameFacts(s, FailJob(s, now, c, id).server)
  {
    ClearFacts(s, AttemptCompleted, Completed);
    ClearFacts(s, AttemptFailed, FailedPlatform);
  }

  lemma CancelFacts(s: Server, now: nat, c: Credentials, id: Id, withdrawn: Option<Id>)
    ensures SameFacts(s, CancelJob(s, withdrawn).server)
    ensures SameFacts(s, AcknowledgeCancel(s, now, c, id).server)
  {
    ClearFacts(s, AttemptCancelled, Cancelled);
  }

  lemma SettleFacts(s: Server, op: Id)
    ensures SameFacts(s, MarkOperationUnknown(s, op).server)
    ensures SameFacts(s, ReconcileOperation(s, op).server)
  {
    if op in s.operations {
      RowFacts(s, op);
      JobFacts(Suspended(s, op));
      JobFacts(Settled(s, op));
    }
  }

  lemma RowFacts(s: Server, op: Id)
    requires op in s.operations
    ensures SameFacts(s, Suspended(s, op)) && SameFacts(s, Settled(s, op))
  {}

  lemma JobFacts(s: Server)
    ensures SameFacts(s, AwaitReconcile(s)) && SameFacts(s, AfterReconcile(s))
  {}

  /** Only an ingest stores evidence and only a registration registers. */
  lemma FactsOnlyStored(s: Server, now: nat, r: Request)
    requires !r.IngestEvidence? && !r.RegisterArtifact?
    ensures SameFacts(s, Next(s, now, r))
  {
    match r
    case Claim(w, token, secs) => ClaimFacts(s, now, w, token, secs);
    case Timeout(c, id) => TimeoutFacts(s, now, c, id);
    case Complete(c, id, readable) => CompleteFacts(s, now, c, id, readable);
    case FailPlatform(c, id) => CompleteFacts(s, now, c, id, true);
    case Cancel(id) => CancelFacts(s, now, Credentials(0, 0, 0, 0), 0, id);
    case AckCancel(c, id) => CancelFacts(s, now, c, id, None);
    case MarkUnknown(op) => SettleFacts(s, op);
    case Reconcile(op) => SettleFacts(s, op);
    case _ =>
  }

  lemma NeutralKeeps(s: Server, now: nat, r: Request, op: Id)
    requires Inv(s) && Neutral(r) && (r.Prepare? ==> r.op != op)
    ensures Keeps(s, Next(s, now, r), op)
  {
    FactsOnlyStored(s, now, r);
    GrowsStep(s, now, r);
    OperationTable(s, now, r);
    assert StatusOf(Next(s, now, r), op).Some? <==> StatusOf(s, op).Some?;
  }

  /** The job is queued with every operation settled. */
  ghost predicate Ready(s: Server, t: Server, op: Id) {
    Inv(t) && t.state == Queued && !HasUnsafe(t) && Keeps(s, t, op)
  }

  lemma ReadyStep(s: Server, now: nat, r: Request, op: Id, rest: seq<Step>) returns (steps: seq<Step>)
    requires Inv(s) && Neutral(r) && (r.Prepare? ==> r.op != op)
    requires AllNeutral(rest, now) && Ready(Next(s, now, r), Run(Next(s, now, r), rest), op)
    ensures AllNeutral(steps, now) && Ready(s, Run(s, steps), op)
  {
    NeutralKeeps(s, now, r, op);
    steps := [Step(now, r)] + rest;
    RunCons(s, Step(now, r), rest);
  }

  /** Reconciling one operation after the other queues the job. */
  lemma {:induction false} SettleAll(s: Server, now: nat, op: Id) returns (steps: seq<Step>)
    requires Inv(s) && (s.state == Queued || (s.state == ReconcileRequired && HasUnsafe(s)))
    ensures AllNeutral(steps, now) && Ready(s, Run(s, steps), op)
    decreases |UnresolvedOps(s)|
  {
    UnsafeExactly(s);
    if UnresolvedOps(s) != {} {
      var x := Choose(UnresolvedOps(s));
      var r := Reconcile(x);
      ReconcileQueues(s, now, x);
      InvStep(s, now, r);
      var rest := SettleAll(Next(s, now, r), now, op);
      steps := ReadyStep(s, now, r, op, rest);
    } else {
      steps := [];
      assert Run(s, []) == s;
    }
  }

  lemma ReconcileQueues(s: Server, now: nat, op: Id)
    requires (s.state == Queued || s.state == ReconcileRequired) && op in UnresolvedOps(s)
    ensures Next(s, now, Reconcile(op)).state == Queued && OneSettled(s, Next(s, now, Reconcile(op)), op)
  {
    assert Settled(s, op).state == s.state;
    OperationTable(s, now, Reconcile(op));
    SettlesOne(s, now, Reconcile(op), op);
  }

  /** A live holder prepares one more operation and times out, which stops the job
      for reconcile, cancelling or not. */
  lemma Suspend(s: Server, now: nat, op: Id) returns (steps: seq<Step>)
    requires Inv(s) && OwnerState(s.state) && !Expired(s, now)
    ensures AllNeutral(steps, now) && Ready(s, Run(s, steps), op)
  {
    var extra := FreshId(s.operations.Keys + {op});
    var prepare, timeout := Prepare(Holder(s), extra, 0, 0), Timeout(Holder(s), 0);
    assert extra !in s.operations.Keys && extra != op;
    InvStep(s, now, prepare);
    var t := Next(s, now, prepare);
    assert extra in t.operations && Unresolved(t.operations[extra].status);
    InvStep(t, now, timeout);
    TimeoutFrame(t, now, timeout.c, 0);
    var u := Next(t, now, timeout);
    assert extra in u.operations && Unresolved(u.operations[extra].status);
    var rest := SettleAll(u, now, op);
    rest := ReadyStep(t, now, timeout, op, rest);
    steps := ReadyStep(s, now, prepare, op, rest);
  }

  /** Every job that can still end can be queued again, with nothing unresolved. */
  lemma Requeue(s: Server, now: nat, op: Id) returns (steps: seq<Step>)
    requires Inv(s) && PausedInv(s) && !Terminal(s.state) && !Wedged(s, now)
    ensures AllNeutral(steps, now) && Ready(s, Run(s, steps), op)
  {
    if !OwnerState(s.state) {
      steps := SettleAll(s, now, op);
    } else if !Expired(s, now) {
      steps := Suspend(s, now, op);
    } else {
      var claim := Claim(0, 0, 1);
      PausedStep(s, now, claim);
      InvStep(s, now, claim);
      var t := Next(s, now, claim);
      var rest;
      if t.state == ReconcileRequired {
        rest := SettleAll(t, now, op);
      } else {
        rest := Suspend(t, now, op);
      }
      steps := ReadyStep(s, now, claim, op, rest);
    }
  }

  /** Sound evidence for an entity nothing is known about. */
  lemma FreshBody(s: Server) returns (body: Evidence)
    ensures Sound(body) && (body.entityType, body.entityId) !in s.registry
    ensures forall i :: i in s.evidence ==> !Collides(s.evidence[i], body.entityType, body.entityId)
  {
    var entities := (set i | i in s.evidence :: s.evidence[i].entityId) + (set k | k in s.registry :: k.1);
    var entity := FreshId(entities);
    body := Evidence(None, 0, entity, Pass, 0, ArtifactRef(Some(0), Some(0), Some(0), Some(0), Some(0), Some(0), Some(0)));
    forall i | i in s.evidence ensures !Collides(s.evidence[i], 0, entity) {
      var known: Id := s.evidence[i].entityId;
      assert known in entities;
    }
    forall k | k in s.registry ensures k != (0, entity) {
      var known: Id := k.1;
      assert known in entities;
    }
  }

  lemma StoreAndFinish(s: Server, now: nat, id: Id)
    requires Inv(s) && s.state == Queued && !HasUnsafe(s) && id !in s.evidence
    ensures CanComplete(s, now, id)
  {
    var claim := Claim(0, 0, 1);
    InvStep(s, now, claim);
    var t := Next(s, now, claim);
    var body := FreshBody(t);
    var ingest := IngestEvidence(Holder(t), id, body);
    InvStep(t, now, ingest);
    StoredIsFinishable(t, now, id, body);
    FinishStored(Next(t, now, ingest), now, id);
    CanCompleteStep(t, now, ingest, id);
    CanCompleteStep(s, now, claim, id);
  }

  lemma StoredIsFinishable(s: Server, now: nat, id: Id, body: Evidence)
    requires Inv(s) && Held(s) && !Expired(s, now) && id !in s.evidence && !OutcomeLost(s)
    requires Sound(body) && (body.entityType, body.entityId) !in s.registry
    requires forall i :: i in s.evidence ==> !Collides(s.evidence[i], body.entityType, body.entityId)
    ensures Finishable(Next(s, now, IngestEvidence(Holder(s), id, body)), now, id)
  {
    var t := Next(s, now, IngestEvidence(Holder(s), id, body));
    assert t == s.(evidence := s.evidence[id := body.(attempt := Some(s.active.value.attempt))], events := t.events);
    assert forall op :: StatusOf(t, op) == StatusOf(s, op);
  }

  // ---------------------------------------------------------------- exactly

  lemma {:induction false} CanCompleteRun(s: Server, now: nat, steps: seq<Step>, id: Id)
    requires AllNeutral(steps, now) && CanComplete(Run(s, steps), now, id)
    ensures CanComplete(s, now, id)
    decreases |steps|
  {
    if steps != [] {
      assert forall i :: 0 <= i < |steps[1..]| ==> steps[1..][i] == steps[i + 1];
      CanCompleteRun(Next(s, now, steps[0].request), now, steps[1..], id);
      CanCompleteStep(s, now, steps[0].request, id);
    }
  }

  /** The condition under which a job can be completed under an evidence id: it is
      completed, or the id is free and the job can still end otherwise, or the
      attempt that stored it can still finish with it. */
  ghost predicate StillCompletable(s: Server, now: nat, id: Id) {
    || s.state == Completed
    || (id !in s.evidence && !Terminal(s.state) && !Wedged(s, now))
    || Finishable(s, now, id)
  }

  /** A job can still be completed under an evidence id exactly when it already is;
      or nothing is stored under the id and the job is neither terminal nor wedged;
      or the attempt that holds the job under a live lease, not cancelling, stored
      passing evidence with a full reference, whose entity has no other artifact,
      and no operation has an unknown outcome. */
  lemma CanCompleteExactly(s: Server, now: nat, id: Id)
    requires Inv(s) && PausedInv(s)
    ensures CanComplete(s, now, id) <==> StillCompletable(s, now, id)
  {
    if s.state == Completed {
      CompletedNow(s, now, id);
    } else if id in s.evidence {
      if Finishable(s, now, id) {
        FinishStored(s, now, id);
      } else {
        assert Hopeless(s, now, id);
        forall steps: seq<Step> | NotBefore(steps, now) && CompletesOnly(steps, id) ensures Run(s, steps).state != Completed {
          HopelessForever(s, now, id, steps);
        }
      }
    } else if Terminal(s.state) || Wedged(s, now) {
      forall steps: seq<Step> | NotBefore(steps, now) ensures Run(s, steps).state != Completed {
        if Terminal(s.state) {
          TerminalIsFinal(s, steps);
        } else {
          WedgedForever(s, now, steps);
        }
      }
    } else {
      var steps := Requeue(s, now, 0);
      StoreAndFinish(Run(s, steps), now, id);
      CanCompleteRun(s, now, steps, id);
    }
  }

  /** After any run from a fresh submission the same condition decides. */
  lemma ReachableJobsCanCompleteExactly(steps: seq<Step>, now: nat, id: Id)
    ensures CanComplete(Run(SUBMITTED, steps), now, id) <==> StillCompletable(Run(SUBMITTED, steps), now, id)
  {
    Reachable([]);
    PausedRun(SUBMITTED, steps);
    Reachable(steps);
    CanCompleteExactly(Run(SUBMITTED, steps), now, id);
  }
}
