/**
 Interleavings that reach the limits of the durable worker: an attempt still inside
 the Agent when the evaluation file exists, and a job whose evidence no later
 attempt can use.
 */
module DurableLimits {
  import opened Wrappers
  import opened ControlPlane
  import opened ExecutionSafety
  import opened ExecutionRuns
  import opened ExecutionFencing
  import opened ExecutionCompletion
  import opened DurableWorld
  import opened DurableTurns

  /** `w` is reached from a fresh submission by some interleaving. */
  ghost predicate WorldReached(job: Job, w: World) {
    exists start: World, moves: seq<Move> :: Initial(start) && DoAll(job, start, moves) == w
  }

  lemma {:induction false} DoAllAppend(job: Job, w: World, moves: seq<Move>, m: Move)
    ensures DoAll(job, w, moves + [m]) == Do(job, DoAll(job, w, moves), m)
    decreases |moves|
  {
    if moves == [] {
      assert [] + [m] == [m] && [m][1..] == [];
      assert DoAll(job, Do(job, w, m), []) == Do(job, w, m);
    } else {
      assert (moves + [m])[1..] == moves[1..] + [m];
      DoAllAppend(job, Do(job, w, moves[0]), moves[1..], m);
    }
  }

  lemma ReachedByMove(job: Job, w: World, m: Move)
    requires WorldReached(job, w)
    ensures WorldReached(job, Do(job, w, m))
  {
    var start: World, moves: seq<Move> :| Initial(start) && DoAll(job, start, moves) == w;
    DoAllAppend(job, start, moves, m);
  }

  /** Worker `i` works on a job that nobody has stored, registered or applied anything for. */
  ghost predicate FirstWork(job: Job, w: World, i: nat, phase: Phase, status: Option<OperationStatus>) {
    Working(job, w, i, 0, phase, status, SUBMITTED)
  }

  /** Such a job, queued. */
  ghost predicate FirstClaim(job: Job, w: World, i: nat) {
    && Claimable(job, w, i) && w.file.None?
    && w.server.evidence == map[] && w.server.effects == map[] && w.server.registry == map[]
    && (job.operation in w.server.operations ==> w.server.operations[job.operation].status == NotSubmitted)
  }

  lemma FirstClaimTurn(job: Job, w: World, i: nat)
    requires FirstClaim(job, w, i) && job.lease >= 1
    ensures
      var u := Do(job, w, Turn(i, 0, 0));
      && FirstWork(job, u, i, ToStart, StatusOf(w.server, job.operation)) && OthersWait(w, u, i) && u.file.None?
      && u.server.state == Claimed
  {
    ClaimTurn(job, w, i, 0);
  }

  /** A worker that claims and is not disturbed ends up inside the Agent. */
  lemma Drive(job: Job, w: World, i: nat) returns (u: World)
    requires WorldReached(job, w) && FirstClaim(job, w, i) && job.lease >= 1
    ensures WorldReached(job, u) && FirstWork(job, u, i, AgentRunning, Some(InFlight)) && OthersWait(w, u, i) && u.file.None?
  {
    var status := StatusOf(w.server, job.operation);
    FirstClaimTurn(job, w, i);
    ReachedByMove(job, w, Turn(i, 0, 0));
    u := Do(job, w, Turn(i, 0, 0));
    StartTurn(job, u, i, 0, status, SUBMITTED);
    ReachedByMove(job, u, Turn(i, 0, 0));
    u := Do(job, u, Turn(i, 0, 0));
    OpenTurn(job, u, i, 0, status, SUBMITTED);
    ReachedByMove(job, u, Turn(i, 0, 0));
    u := Do(job, u, Turn(i, 0, 0));
    PrepareTurn(job, u, i, 0, status, SUBMITTED);
    ReachedByMove(job, u, Turn(i, 0, 0));
    u := DriveOn(job, Do(job, u, Turn(i, 0, 0)), i, if status.None? then Prepared else NotSubmitted);
  }

  lemma DriveOn(job: Job, w: World, i: nat, status: OperationStatus) returns (u: World)
    requires WorldReached(job, w) && w.file.None?
    requires FirstWork(job, w, i, ToInspect, Some(status)) && Dispatchable(status)
    ensures WorldReached(job, u) && FirstWork(job, u, i, AgentRunning, Some(InFlight)) && OthersWait(w, u, i) && u.file.None?
  {
    InspectTurn(job, w, i, 0, status, SUBMITTED);
    ReachedByMove(job, w, Turn(i, 0, 0));
    u := Do(job, w, Turn(i, 0, 0));
    ReviewTurn(job, u, i, 0, status, SUBMITTED);
    ReachedByMove(job, u, Turn(i, 0, 0));
    u := Do(job, u, Turn(i, 0, 0));
    u := DriveIn(job, u, i, status);
  }

  lemma DriveIn(job: Job, w: World, i: nat, status: OperationStatus) returns (u: World)
    requires WorldReached(job, w) && w.file.None?
    requires FirstWork(job, w, i, ToDispatch, Some(status)) && Dispatchable(status)
    ensures WorldReached(job, u) && FirstWork(job, u, i, AgentRunning, Some(InFlight)) && OthersWait(w, u, i) && u.file.None?
  {
    DispatchTurn(job, w, i, 0, status, SUBMITTED);
    ReachedByMove(job, w, Turn(i, 0, 0));
    u := Do(job, w, Turn(i, 0, 0));
    RecheckTurn(job, u, i, 0, InFlight, SUBMITTED);
    ReachedByMove(job, u, Turn(i, 0, 0));
    u := Do(job, u, Turn(i, 0, 0));
    LookTurn(job, u, i, 0, InFlight, SUBMITTED);
    ReachedByMove(job, u, Turn(i, 0, 0));
    u := Do(job, u, Turn(i, 0, 0));
  }

  const NOBODY: Credentials := Credentials(0, 0, 0, 0)

  /** Two workers before their first claim. */
  lemma TwoWorkers(job: Job) returns (w: World)
    ensures WorldReached(job, w) && FirstClaim(job, w, 0) && |w.workers| == 2 && w.workers[1].phase == ToClaim
  {
    w := World(SUBMITTED, None, [Worker(1, NOBODY, ToClaim), Worker(2, NOBODY, ToClaim)], 0, []);
    assert forall j :: !DurableWorld.Running(w, j);
    assert Initial(w) && DoAll(job, w, []) == w;
  }

  /** Somebody declares the outcome unknown and has it reconciled, while worker `i` is inside the Agent. */
  lemma Requeued(job: Job, w: World, i: nat) returns (u: World)
    requires WorldReached(job, w) && FirstWork(job, w, i, AgentRunning, Some(InFlight)) && w.file.None?
    ensures WorldReached(job, u) && u.workers == w.workers && u.file.None?
    ensures forall j :: 0 <= j < |u.workers| && u.workers[j].phase == ToClaim ==> FirstClaim(job, u, j)
  {
    var unknown, settle := Outside(0, MarkUnknown(job.operation)), Outside(0, Reconcile(job.operation));
    ReachedByMove(job, w, unknown);
    u := Do(job, w, unknown);
    DeclaredUnknown(job, w.server);
    ReachedByMove(job, u, settle);
    SettledQueued(job, u.server);
    u := Do(job, u, settle);
  }

  /** Everything but the status of the evaluation and the job row is as it was. */
  ghost predicate OnlyStatus(job: Job, s: Server, t: Server, status: OperationStatus) {
    && StatusOf(t, job.operation) == Some(status) && t.effects == s.effects && SameFacts(s, t)
    && SameFingerprint(job, t) && OthersSettled(job, t)
  }

  lemma OthersStay(job: Job, s: Server, now: nat, r: Request)
    requires About(r) == Some(job.operation) && OthersSettled(job, s)
    ensures OthersSettled(job, Next(s, now, r))
  {
    OperationTable(s, now, r);
    var t := Next(s, now, r);
    forall op | op in t.operations && op != job.operation ensures !Unresolved(t.operations[op].status) {
      assert StatusOf(t, op) == StatusOf(s, op);
    }
  }

  lemma DeclaredUnknown(job: Job, s: Server)
    requires StatusOf(s, job.operation) == Some(InFlight) && Held(s) && SameFingerprint(job, s) && OthersSettled(job, s)
    ensures
      var t := Next(s, 0, MarkUnknown(job.operation));
      OnlyStatus(job, s, t, UnknownOutcome) && t.state == ReconcileRequired
  {
    assert Suspended(s, job.operation).state == s.state;
    OthersStay(job, s, 0, MarkUnknown(job.operation));
  }

  lemma SettledQueued(job: Job, s: Server)
    requires StatusOf(s, job.operation) == Some(UnknownOutcome) && s.state == ReconcileRequired && job.operation !in s.effects
    requires SameFingerprint(job, s) && OthersSettled(job, s)
    ensures
      var t := Next(s, 0, Reconcile(job.operation));
      OnlyStatus(job, s, t, NotSubmitted) && t.state == Queued && t.active == None
  {
    assert Settled(s, job.operation).state == s.state;
    OthersStay(job, s, 0, Reconcile(job.operation));
  }

  /** Reached: the evaluation file exists and another attempt is still inside the
      Agent. By `FileIsFinalExactly` it may overwrite what was already submitted. */
  lemma ZombieReachable(job: Job) returns (w: World)
    requires job.lease >= 1
    ensures WorldReached(job, w) && w.file.Some? && SomebodyRunning(w)
  {
    var start := TwoWorkers(job);
    var first := Drive(job, start, 0);
    var queued := Requeued(job, first, 0);
    assert queued.workers[1] == start.workers[1];
    var both := Drive(job, queued, 1);
    assert both.workers[0].phase == AgentRunning;
    ReachedByMove(job, both, Turn(0, 0, 7));
    w := Do(job, both, Turn(0, 0, 7));
    assert DurableWorld.Running(w, 1);
  }

  // ---------------------------------------------------------------- evidence stored, lease lost

  /** Another worker takes over an expired lease. */
  lemma TakeOver(job: Job, w: World, i: nat)
    requires i < |w.workers| && w.workers[i].phase == ToClaim && w.server.active.Some?
    requires Held(w.server) && !HasUnsafeFor(w.server, w.server.active.value.attempt)
    ensures
      var now := w.server.active.value.expires;
      var claim := Claim(w.workers[i].name, 0, job.lease);
      && Handle(w.server, now, claim).response == Granted
      && Do(job, w, Act(i, now, false, 0)).server == Next(w.server, now, claim)
      && Next(w.server, now, claim).state == Claimed
  {}

  lemma ReachedInv(job: Job, w: World)
    requires WorldReached(job, w)
    ensures Inv(w.server)
  {
    var start: World, moves: seq<Move> :| Initial(start) && DoAll(job, start, moves) == w;
    Reachable([]);
    WorldInvRun(job, start, moves);
  }

  /** Reached: a claimed job whose evidence was stored by the attempt before. By
      `OrphanedJobNeverCompletes` no interleaving completes it any more. */
  lemma OrphanReachable(job: Job) returns (w: World)
    requires job.lease >= 1
    ensures WorldReached(job, w) && Inv(w.server)
    ensures w.server.state == Claimed && Orphaned(w.server, job.evidence)
  {
    var start := TwoWorkers(job);
    var submitted := DriveToSubmission(job, start);
    var now := submitted.server.active.value.expires;
    TakeOver(job, submitted, 1);
    ReachedByMove(job, submitted, Act(1, now, false, 0));
    w := Do(job, submitted, Act(1, now, false, 0));
    ReachedInv(job, submitted);
    ReclaimOrphansEvidence(submitted.server, now, Claim(submitted.workers[1].name, 0, job.lease), job.evidence);
  }

  lemma DriveToSubmission(job: Job, start: World) returns (u: World)
    requires WorldReached(job, start) && FirstClaim(job, start, 0) && job.lease >= 1
    requires |start.workers| == 2 && start.workers[1].phase == ToClaim
    ensures WorldReached(job, u) && |u.workers| == 2 && u.workers[1].phase == ToClaim && job.evidence in u.server.evidence
    ensures Held(u.server) && u.server.active.Some? && !HasUnsafeFor(u.server, u.server.active.value.attempt)
  {
    var inside := Drive(job, start, 0);
    FinishTurn(job, inside, 0, 0, InFlight, SUBMITTED, 7);
    ReachedByMove(job, inside, Turn(0, 0, 7));
    var written := Do(job, inside, Turn(0, 0, 7));
    u := SubmitFrom(job, written, 0);
    assert OthersWait(start, inside, 0) && OthersWait(inside, written, 0) && OthersWait(written, u, 0);
  }

  /** From the written file to the stored evidence. */
  lemma SubmitFrom(job: Job, w: World, i: nat) returns (u: World)
    requires WorldReached(job, w) && FirstWork(job, w, i, ToConfirm, Some(InFlight)) && w.file.Some?
    ensures WorldReached(job, u) && OthersWait(w, u, i) && job.evidence in u.server.evidence
    ensures Held(u.server) && u.server.active.Some? && !HasUnsafeFor(u.server, u.server.active.value.attempt)
  {
    ConfirmTurn(job, w, i, 0, InFlight, SUBMITTED);
    ReachedByMove(job, w, Turn(i, 0, 0));
    u := Do(job, w, Turn(i, 0, 0));
    RegisterTurn(job, u, i, 0, SUBMITTED);
    ReachedByMove(job, u, Turn(i, 0, 0));
    u := Do(job, u, Turn(i, 0, 0));
    SubmitTurn(job, u, i, 0, SUBMITTED);
    ReachedByMove(job, u, Turn(i, 0, 0));
    u := Do(job, u, Turn(i, 0, 0));
  }
}
