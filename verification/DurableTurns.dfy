/**
 The turns of one undisturbed evaluation worker, from its claim to the completion:
 what each turn needs, and where it leaves the worker and the tables.
 */
module DurableTurns {
  import opened Wrappers
  import opened ControlPlane
  import opened ExecutionRuns
  import opened ExecutionFencing
  import opened ExecutionCompletion
  import opened DurableWorld

  /** No operation but the evaluation is unresolved. */
  ghost predicate OthersSettled(job: Job, s: Server) {
    forall op :: op in s.operations && op != job.operation ==> !Unresolved(s.operations[op].status)
  }

  predicate SameFingerprint(job: Job, s: Server) {
    job.operation in s.operations ==> s.operations[job.operation].fingerprint == job.fingerprint
  }

  /** Worker `i` holds the lease at `now` and is about to do `phase`; evidence,
      effects and, up to its own registration, the registry are those of `base`. */
  ghost predicate Working(job: Job, w: World, i: nat, now: nat, phase: Phase, status: Option<OperationStatus>, base: Server) {
    && i < |w.workers| && w.workers[i].phase == phase
    && Owns(w.server, w.workers[i].owner, now) && Held(w.server)
    && StatusOf(w.server, job.operation) == status && SameFingerprint(job, w.server) && OthersSettled(job, w.server)
    && w.server.evidence == base.evidence && w.server.effects == base.effects
    && (phase != ToSubmit ==> w.server.registry == base.registry)
  }

  /** Only worker `i` has moved. */
  ghost predicate OthersWait(w: World, u: World, i: nat) {
    |u.workers| == |w.workers| && forall j :: 0 <= j < |w.workers| && j != i ==> u.workers[j] == w.workers[j]
  }

  function Turn(i: nat, now: nat, choice: Id): Move {
    Act(i, now, false, choice)
  }

  /** A queued job that worker `i` may claim. */
  ghost predicate Claimable(job: Job, w: World, i: nat) {
    && i < |w.workers| && w.workers[i].phase == ToClaim && w.server.state == Queued && w.server.active == None
    && SameFingerprint(job, w.server) && OthersSettled(job, w.server)
  }

  lemma ClaimTurn(job: Job, w: World, i: nat, now: nat)
    requires Claimable(job, w, i) && job.lease >= 1
    ensures
      var u := Do(job, w, Turn(i, now, 0));
      && Working(job, u, i, now, ToStart, StatusOf(w.server, job.operation), w.server) && OthersWait(w, u, i)
      && u.file == w.file && u.server.state == Claimed
  {}

  lemma StartTurn(job: Job, w: World, i: nat, now: nat, status: Option<OperationStatus>, base: Server)
    requires Working(job, w, i, now, ToStart, status, base) && w.server.state == Claimed
    ensures
      var u := Do(job, w, Turn(i, now, 0));
      Working(job, u, i, now, ToOpen, status, base) && OthersWait(w, u, i) && u.file == w.file
  {}

  lemma OpenTurn(job: Job, w: World, i: nat, now: nat, status: Option<OperationStatus>, base: Server)
    requires Working(job, w, i, now, ToOpen, status, base)
    ensures
      var u := Do(job, w, Turn(i, now, 0));
      Working(job, u, i, now, ToPrepare, status, base) && OthersWait(w, u, i) && u.file == w.file
  {}

  lemma PrepareTurn(job: Job, w: World, i: nat, now: nat, status: Option<OperationStatus>, base: Server)
    requires Working(job, w, i, now, ToPrepare, status, base)
    ensures
      var u := Do(job, w, Turn(i, now, 0));
      && Working(job, u, i, now, ToInspect, Some(if status.None? then Prepared else status.value), base)
      && OthersWait(w, u, i) && u.file == w.file
  {}

  predicate Dispatchable(status: OperationStatus) {
    status == Prepared || status == NotSubmitted
  }

  lemma InspectTurn(job: Job, w: World, i: nat, now: nat, status: OperationStatus, base: Server)
    requires Working(job, w, i, now, ToInspect, Some(status), base)
    ensures
      var u := Do(job, w, Turn(i, now, 0));
      && Working(job, u, i, now, if Dispatchable(status) then ToReview else ToRecheck, Some(status), base)
      && OthersWait(w, u, i) && u.file == w.file
  {}

  lemma ReviewTurn(job: Job, w: World, i: nat, now: nat, status: OperationStatus, base: Server)
    requires Working(job, w, i, now, ToReview, Some(status), base)
    ensures
      var u := Do(job, w, Turn(i, now, 0));
      Working(job, u, i, now, ToDispatch, Some(status), base) && OthersWait(w, u, i) && u.file == w.file
  {}

  lemma DispatchTurn(job: Job, w: World, i: nat, now: nat, status: OperationStatus, base: Server)
    requires Working(job, w, i, now, ToDispatch, Some(status), base) && Dispatchable(status)
    ensures
      var u := Do(job, w, Turn(i, now, 0));
      Working(job, u, i, now, ToRecheck, Some(InFlight), base) && OthersWait(w, u, i) && u.file == w.file
  {}

  lemma RecheckTurn(job: Job, w: World, i: nat, now: nat, status: OperationStatus, base: Server)
    requires Working(job, w, i, now, ToRecheck, Some(status), base)
    ensures
      var u := Do(job, w, Turn(i, now, 0));
      Working(job, u, i, now, ToLookForFile, Some(status), base) && OthersWait(w, u, i) && u.file == w.file
  {}

  lemma LookTurn(job: Job, w: World, i: nat, now: nat, status: OperationStatus, base: Server)
    requires Working(job, w, i, now, ToLookForFile, Some(status), base)
    ensures
      var u := Do(job, w, Turn(i, now, 0));
      && Working(job, u, i, now, if w.file.Some? then ToConfirm else AgentRunning, Some(status), base)
      && OthersWait(w, u, i) && u.file == w.file
  {}

  lemma FinishTurn(job: Job, w: World, i: nat, now: nat, status: OperationStatus, base: Server, sha: Id)
    requires Working(job, w, i, now, AgentRunning, Some(status), base)
    ensures
      var u := Do(job, w, Turn(i, now, sha));
      Working(job, u, i, now, ToConfirm, Some(status), base) && u.file == Some(sha) && OthersWait(w, u, i)
  {}

  lemma ConfirmTurn(job: Job, w: World, i: nat, now: nat, status: OperationStatus, base: Server)
    requires Working(job, w, i, now, ToConfirm, Some(status), base) && (status == InFlight || status == Confirmed)
    ensures
      var u := Do(job, w, Turn(i, now, 0));
      Working(job, u, i, now, ToRegister, Some(Confirmed), base) && u.file == w.file && OthersWait(w, u, i)
  {}

  lemma RegisterTurn(job: Job, w: World, i: nat, now: nat, base: Server)
    requires Working(job, w, i, now, ToRegister, Some(Confirmed), base) && w.file.Some?
    requires SlotFits(base.registry, EvidenceOf(job, w.file.value))
    ensures
      var u := Do(job, w, Turn(i, now, 0));
      && Working(job, u, i, now, ToSubmit, Some(Confirmed), base) && u.file == w.file && OthersWait(w, u, i)
      && BoundToRegistry(u.server.registry, EvidenceOf(job, w.file.value))
  {}

  /** After the submission the evidence is stored, bound to its artifact and this
      attempt, and no operation is unresolved. */
  lemma SubmitTurn(job: Job, w: World, i: nat, now: nat, base: Server)
    requires Working(job, w, i, now, ToSubmit, Some(Confirmed), base) && w.file.Some?
    requires BoundToRegistry(w.server.registry, EvidenceOf(job, w.file.value))
    requires job.evidence !in base.evidence
    requires forall id :: id in base.evidence ==> !Collides(base.evidence[id], job.entityType, job.evaluation)
    ensures
      var u := Do(job, w, Turn(i, now, 0));
      && u.workers[i].phase == ToComplete && OthersWait(w, u, i)
      && Completable(u.server, now, u.workers[i].owner, job.evidence, true) && Held(u.server)
  {
    var u := Do(job, w, Turn(i, now, 0));
    assert u.server.operations == w.server.operations;
    forall op | op in u.server.operations ensures !Unresolved(u.server.operations[op].status) {
      assert op == job.operation ==> u.server.operations[op].status == Confirmed;
    }
  }

  lemma CompleteTurn(job: Job, w: World, i: nat, now: nat)
    requires i < |w.workers| && w.workers[i].phase == ToComplete
    requires Completable(w.server, now, w.workers[i].owner, job.evidence, true)
    ensures Do(job, w, Turn(i, now, 0)).server.state == Completed
  {
    CompletedExactly(w.server, now, Complete(w.workers[i].owner, job.evidence, true));
  }
}
