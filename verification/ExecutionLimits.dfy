/**
 Where the documented promises of the durable execution protocol end. Each
 section gives the exact condition for all states, and a run from a fresh
 submission that meets it.
 */
module ExecutionLimits {
  import opened Wrappers
  import opened ControlPlane
  import opened ExecutionSafety
  import opened ExecutionRuns
  import opened ExecutionFencing

  const ALICE: Id := 1
  const BOB: Id := 2
  const CAROL: Id := 3

  function Tuple(attempt: nat, worker: Id, version: nat): Credentials {
    Credentials(attempt, worker, worker, version)
  }

  /** `t` is reached from a fresh submission. */
  ghost predicate Reached(t: Server) {
    exists steps :: Run(SUBMITTED, steps) == t
  }

  lemma Fresh()
    ensures Reached(SUBMITTED)
  {
    assert Run(SUBMITTED, []) == SUBMITTED;
  }

  lemma Extend(s: Server, now: nat, r: Request)
    requires Reached(s)
    ensures Reached(Next(s, now, r))
  {
    var steps :| Run(SUBMITTED, steps) == s;
    RunAppend(SUBMITTED, steps, [Step(now, r)]);
    assert Run(s, [Step(now, r)]) == Next(s, now, r);
  }

  // ---------------------------------------------------------------- expiry and operations in flight

  /** An expired lease stops for reconcile exactly when an unresolved operation
      was prepared by the expiring attempt; otherwise a new attempt is granted. */
  lemma ExpiredClaimExactly(s: Server, now: nat, claim: Request)
    requires claim.Claim? && Inv(s)
    requires (s.state == Claimed || s.state == Running) && s.active.value.expires <= now
    ensures Handle(s, now, claim).response
         == if HasUnsafeFor(s, s.attemptNumber) then Deferred(ReconcileRequired) else Granted
  {}

  /** A first attempt prepares and gives up, a second one dispatches the same operation. */
  lemma FirstAttempt() returns (s: Server)
    ensures Reached(s) && s.state == Claimed && s.version == 1 && s.attemptNumber == 1
    ensures s.active == Some(Lease(1, ALICE, ALICE, 10)) && s.effects == map[] && s.evidence == map[] && s.registry == map[]
    ensures s.operations == map[5 := Operation(1, 0, 0, Prepared, 0, None)]
  {
    Fresh();
    var claimed := Next(SUBMITTED, 0, Claim(ALICE, ALICE, 10));
    Extend(SUBMITTED, 0, Claim(ALICE, ALICE, 10));
    Extend(claimed, 0, Prepare(Tuple(1, ALICE, 1), 5, 0, 0));
    s := Next(claimed, 0, Prepare(Tuple(1, ALICE, 1), 5, 0, 0));
  }

  lemma SecondAttempt() returns (s: Server)
    ensures Reached(s) && s.state == Claimed && s.attemptNumber == 2 && s.active == Some(Lease(2, BOB, BOB, 20))
    ensures s.operations == map[5 := Operation(1, 0, 0, InFlight, 0, None)]
  {
    var prepared := FirstAttempt();
    Extend(prepared, 0, MarkNotSubmitted(Tuple(1, ALICE, 1), 5));
    var given := Next(prepared, 0, MarkNotSubmitted(Tuple(1, ALICE, 1), 5));
    Extend(given, 10, Claim(BOB, BOB, 10));
    assert !HasUnsafeFor(given, 1);
    var reclaimed := Next(given, 10, Claim(BOB, BOB, 10));
    assert reclaimed.version == 3 && reclaimed.operations == given.operations;
    Extend(reclaimed, 10, Dispatch(Tuple(2, BOB, 3), 5));
    s := Next(reclaimed, 10, Dispatch(Tuple(2, BOB, 3), 5));
  }

  /** A lease expiry is documented never to hide a side effect, yet an operation
      that a later attempt dispatched is in flight when a third attempt is granted. */
  lemma ExpiryMissesInFlight() returns (s: Server)
    ensures Reached(s) && StatusOf(s, 5) == Some(InFlight)
    ensures Handle(s, 20, Claim(CAROL, CAROL, 10)).response == Granted
  {
    s := SecondAttempt();
    assert !HasUnsafeFor(s, 2);
  }

  // ---------------------------------------------------------------- evidence of a superseded attempt

  /** What a request without a valid tuple can still change: evidence and the
      timeout of a job that is queued, nothing else in any state. */
  lemma UnownedChangesExactly(s: Server, now: nat, r: Request, c: Credentials)
    requires CredentialsOf(r) == Some(c) && !Owns(s, c, now)
    ensures Next(s, now, r) != s
       <==> || (s.state == Queued && r.IngestEvidence? && Handle(s, now, r).response == Done)
            || (s.state == Queued && r.Timeout? && r.evidenceId in s.evidence && PlatformOutcome(s.evidence[r.evidenceId].outcome))
  {
    if s.state == Queued {
      QueuedRequest(s, now, r, c);
    } else {
      NotOwnerStep(s, now, r, c);
    }
  }

  lemma QueuedRequest(s: Server, now: nat, r: Request, c: Credentials)
    requires s.state == Queued && CredentialsOf(r) == Some(c)
    ensures !OpenWhileQueued(r) ==> Next(s, now, r) == s
    ensures r.IngestEvidence? ==> (Next(s, now, r) != s <==> Handle(s, now, r).response == Done)
    ensures r.Timeout? ==>
      (Next(s, now, r) != s <==> r.evidenceId in s.evidence && PlatformOutcome(s.evidence[r.evidenceId].outcome))
  {
    if r.IngestEvidence? {
      assert Next(s, now, r).events != s.events <==> Handle(s, now, r).response == Done;
    }
  }

  /** Reached: the first attempt is over, yet its evidence is stored and locks the next attempt out. */
  lemma SupersededEvidenceAccepted(body: Evidence) returns (s: Server)
    ensures Reached(s) && s.state == Queued && !Owns(s, Tuple(1, ALICE, 1), 0)
    ensures Handle(s, 0, IngestEvidence(Tuple(1, ALICE, 1), 7, body)).response == Done
    ensures Orphaned(Next(s, 0, IngestEvidence(Tuple(1, ALICE, 1), 7, body)), 7)
  {
    s := RequeuedJob();
  }

  lemma RequeuedJob() returns (s: Server)
    ensures Reached(s) && s.state == Queued && s.active == None && s.evidence == map[]
  {
    var prepared := FirstAttempt();
    Extend(prepared, 0, MarkUnknown(5));
    var unknown := Next(prepared, 0, MarkUnknown(5));
    assert unknown.state == ReconcileRequired && unknown.evidence == map[] && StatusOf(unknown, 5) == Some(UnknownOutcome);
    Extend(unknown, 0, Reconcile(5));
    s := Next(unknown, 0, Reconcile(5));
  }

  // ---------------------------------------------------------------- cancellation

  /** Reached: a cancelled job whose owner died. By `WedgedForever` it never ends. */
  lemma CancelCanWedge() returns (s: Server)
    ensures Reached(s) && Wedged(s, 10)
  {
    var prepared := FirstAttempt();
    Extend(prepared, 0, Cancel(None));
    s := Next(prepared, 0, Cancel(None));
  }

  /** A requested cancellation is withdrawn by exactly one request: the owner's
      timeout while an operation is unresolved. All others keep the job
      cancelling or end it. */
  lemma CancelForgottenExactly(s: Server, now: nat, r: Request)
    requires s.state == CancelRequested
    ensures !Terminal(Next(s, now, r).state) && Next(s, now, r).state != CancelRequested
       <==> r.Timeout? && Owns(s, r.c, now) && HasUnsafe(s)
  {
    match r
    case MarkUnknown(op) => WedgedSettles(s, op);
    case Reconcile(op) => WedgedSettles(s, op);
    case Timeout(c, id) => TimeoutCancelling(s, now, c, id);
    case _ =>
  }

  lemma TimeoutCancelling(s: Server, now: nat, c: Credentials, id: Id)
    requires s.state == CancelRequested
    ensures TimeoutJob(s, now, c, id).server.state
         == if !Owns(s, c, now) then CancelRequested
            else if HasUnsafe(s) then ReconcileRequired
            else if id in s.evidence && PlatformOutcome(s.evidence[id].outcome) then FailedPlatform
            else CancelRequested
  {}

  lemma CancellingJob() returns (s: Server)
    ensures Reached(s) && s.state == CancelRequested && Owns(s, Tuple(1, ALICE, 2), 0)
    ensures StatusOf(s, 5) == Some(Prepared)
    ensures Event(Claimed, CancelRequested, 2) in s.events
  {
    var prepared := FirstAttempt();
    Extend(prepared, 0, Cancel(None));
    s := Next(prepared, 0, Cancel(None));
    assert s.events[|s.events| - 1] == Event(prepared.state, CancelRequested, 2);
  }

  lemma ReachedInv(s: Server)
    requires Reached(s)
    ensures Inv(s)
  {
    var steps :| Run(SUBMITTED, steps) == s;
    Reachable(steps);
  }

  lemma ReconcileRequeues(s: Server, now: nat, op: Id)
    requires s.state == ReconcileRequired && op in s.operations && Unresolved(s.operations[op].status)
    ensures Next(s, now, Reconcile(op)).state == Queued
  {
    assert Settled(s, op).state == s.state;
  }

  /** Reached: after a requested cancellation the job is queued again, ready for another attempt. */
  lemma CancelCanBeForgotten() returns (s: Server)
    ensures Reached(s) && s.state == Queued
    ensures Event(Claimed, CancelRequested, 2) in s.events
  {
    var cancelling := CancellingJob();
    assert HasUnsafe(cancelling);
    var c := Tuple(1, ALICE, 2);
    var paused := TimeoutJob(cancelling, 0, c, 0).server;
    assert paused == Next(cancelling, 0, Timeout(c, 0));
    Extend(cancelling, 0, Timeout(c, 0));
    TimeoutCancelling(cancelling, 0, c, 0);
    TimeoutFrame(cancelling, 0, c, 0);
    ReconcileRequeues(paused, 0, 5);
    Extend(paused, 0, Reconcile(5));
    s := Next(paused, 0, Reconcile(5));
    ReachedInv(cancelling);
    ReachedInv(paused);
    GrowsStep(cancelling, 0, Timeout(c, 0));
    GrowsStep(paused, 0, Reconcile(5));
    assert cancelling.events <= s.events;
  }

  // ---------------------------------------------------------------- confirmation without an effect

  /** An operation becomes CONFIRMED without an effect row exactly when its owner
      presents a receipt of its own. */
  lemma ConfirmedWithoutEffectExactly(s: Server, now: nat, r: Request, op: Id)
    requires op in s.operations && s.operations[op].status != Confirmed && op !in s.effects
    ensures StatusOf(Next(s, now, r), op) == Some(Confirmed)
       <==> r.Confirm? && r.op == op && Owns(s, r.c, now) && s.operations[op].status == InFlight && r.receipt.Some?
  {
    OperationTable(s, now, r);
  }
}
