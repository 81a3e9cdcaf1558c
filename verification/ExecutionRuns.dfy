/**
 What the durable execution protocol promises about operations and their effects
 over whole runs.
 */
module ExecutionRuns {
  import opened Wrappers
  import opened ControlPlane
  import opened ExecutionSafety

  // ---------------------------------------------------------------- effects

  /** In every run every operation reaches its effect at most once, and the
      effect counter of its row says whether it did. */
  lemma AppliedAtMostOnce(steps: seq<Step>, op: Id)
    ensures
      var t := Run(SUBMITTED, steps);
      && Occurrences(t.applied, op) == (if op in t.effects then 1 else 0)
      && (op in t.operations ==> t.operations[op].effectCount == Occurrences(t.applied, op))
  {
    Reachable(steps);
    NoDupOccurrences(Run(SUBMITTED, steps).applied, op);
  }

  lemma {:induction false} NoDupOccurrences(s: seq<Id>, x: Id)
    requires NoDup(s)
    ensures Occurrences(s, x) == (if x in s then 1 else 0)
  {
    if s != [] {
      NoDupOccurrences(s[1..], x);
      assert s[0] !in s[1..];
    }
  }

  function StatusOf(s: Server, op: Id): Option<OperationStatus> {
    if op in s.operations then Some(s.operations[op].status) else None
  }

  /** The transition table of one operation: its status after a request, and
      whether the request runs the effect insert for it. `owned` is the outcome
      of the fencing check, `effect` whether the effect table has a row. */
  function Transition(status: Option<OperationStatus>, r: Request, owned: bool, effect: bool): (Option<OperationStatus>, bool) {
    match (r, status)
    case (Prepare(_, _, _, _), None) => (if owned then Some(Prepared) else None, false)
    case (Dispatch(_, _), Some(Prepared)) => (Some(if owned then InFlight else Prepared), false)
    case (Dispatch(_, _), Some(NotSubmitted)) => (Some(if owned then InFlight else NotSubmitted), false)
    case (MarkNotSubmitted(_, _), Some(Prepared)) => (Some(if owned then NotSubmitted else Prepared), false)
    case (Apply(_, _), Some(Prepared)) => (Some(if owned then InFlight else Prepared), owned)
    case (Apply(_, _), Some(NotSubmitted)) => (Some(if owned then InFlight else NotSubmitted), owned)
    case (Confirm(_, _, receipt), Some(InFlight)) =>
      (Some(if owned && (effect || receipt.Some?) then Confirmed else InFlight), false)
    case (MarkUnknown(_), Some(Prepared)) => (Some(UnknownOutcome), false)
    case (MarkUnknown(_), Some(InFlight)) => (Some(UnknownOutcome), false)
    case (Reconcile(_), Some(st)) => (Some(if !Unresolved(st) then st else if effect then Confirmed else NotSubmitted), false)
    case _ => (status, false)
  }

  /** The operation a request is about, if any. */
  function About(r: Request): Option<Id> {
    match r
    case Prepare(_, op, _, _) => Some(op)
    case Dispatch(_, op) => Some(op)
    case MarkNotSubmitted(_, op) => Some(op)
    case Apply(_, op) => Some(op)
    case Confirm(_, op, _) => Some(op)
    case MarkUnknown(op) => Some(op)
    case Reconcile(op) => Some(op)
    case _ => None
  }

  predicate Presents(s: Server, now: nat, r: Request) {
    match r
    case Prepare(c, _, _, _) => Owns(s, c, now)
    case Dispatch(c, _) => Owns(s, c, now)
    case MarkNotSubmitted(c, _) => Owns(s, c, now)
    case Apply(c, _) => Owns(s, c, now)
    case Confirm(c, _, _) => Owns(s, c, now)
    case _ => false
  }

  ghost predicate SameOperations(s: Server, t: Server) {
    t.operations == s.operations && t.applied == s.applied
  }

  lemma ClearFrame(s: Server, status: AttemptStatus, state: JobState)
    ensures SameOperations(s, ClearTo(EndActive(s, status), state))
  {}

  lemma ClaimFrame(s: Server, now: nat, claimant: Id, token: Id, secs: nat)
    ensures SameOperations(s, ClaimJob(s, now, claimant, token, secs).server)
  {
    ClearFrame(s, AttemptReconcileRequired, ReconcileRequired);
    ClearFrame(s, AttemptExpired, Queued);
  }

  lemma TimeoutFrame(s: Server, now: nat, c: Credentials, id: Id)
    ensures SameOperations(s, TimeoutJob(s, now, c, id).server)
  {
    ClearFrame(s, AttemptReconcileRequired, ReconcileRequired);
    ClearFrame(s, AttemptFailed, FailedPlatform);
  }

  lemma CompleteFrame(s: Server, now: nat, c: Credentials, id: Id, readable: bool)
    ensures SameOperations(s, CompleteJob(s, now, c, id, readable).server)
  {
    ClearFrame(s, AttemptCompleted, Completed);
  }

  lemma FailFrame(s: Server, now: nat, c: Credentials, id: Id)
    ensures SameOperations(s, FailJob(s, now, c, id).server)
  {
    ClearFrame(s, AttemptFailed, FailedPlatform);
  }

  lemma CancelFrame(s: Server, now: nat, c: Credentials, id: Id, withdrawn: Option<Id>)
    ensures SameOperations(s, CancelJob(s, withdrawn).server)
    ensures SameOperations(s, AcknowledgeCancel(s, now, c, id).server)
  {
    ClearFrame(s, AttemptCancelled, Cancelled);
  }

  lemma JobFrame(s: Server, now: nat, r: Request)
    requires About(r).None?
    ensures SameOperations(s, Next(s, now, r))
  {
    match r
    case Claim(w, token, secs) => ClaimFrame(s, now, w, token, secs);
    case Timeout(c, id) => TimeoutFrame(s, now, c, id);
    case Complete(c, id, readable) => CompleteFrame(s, now, c, id, readable);
    case FailPlatform(c, id) => FailFrame(s, now, c, id);
    case AckCancel(c, id) => CancelFrame(s, now, c, id, None);
    case Cancel(id) => CancelFrame(s, now, Credentials(0, 0, 0, 0), 0, id);
    case _ =>
  }

  lemma PrepareTransition(s: Server, now: nat, c: Credentials, op: Id, environment: Id, fingerprint: Id)
    ensures Follows(s, now, Prepare(c, op, environment, fingerprint), PrepareOperation(s, now, c, op, environment, fingerprint).server)
  {}

  lemma DispatchTransition(s: Server, now: nat, c: Credentials, op: Id)
    ensures Follows(s, now, Dispatch(c, op), DispatchOperation(s, now, c, op).server)
  {}

  lemma NotSubmittedTransition(s: Server, now: nat, c: Credentials, op: Id)
    ensures Follows(s, now, MarkNotSubmitted(c, op), MarkOperationNotSubmitted(s, now, c, op).server)
  {}

  lemma ApplyTransition(s: Server, now: nat, c: Credentials, op: Id)
    ensures Follows(s, now, Apply(c, op), ApplyOperation(s, now, c, op).server)
  {}

  lemma ConfirmTransition(s: Server, now: nat, c: Credentials, op: Id, receipt: Option<Id>)
    ensures Follows(s, now, Confirm(c, op, receipt), ConfirmOperation(s, now, c, op, receipt).server)
  {}

  lemma UnknownTransition(s: Server, now: nat, op: Id)
    ensures Follows(s, now, MarkUnknown(op), MarkOperationUnknown(s, op).server)
  {
    if op in s.operations {
      AwaitFrame(Suspended(s, op));
      SuspendFrame(s, op, SetOperation(s, op, UnknownOutcome), AttemptReconcileRequired);
    }
  }

  lemma ReconcileTransition(s: Server, now: nat, op: Id)
    ensures Follows(s, now, Reconcile(op), ReconcileOperation(s, op).server)
  {
    if op in s.operations {
      AfterFrame(Settled(s, op));
      SuspendFrame(s, op, s.(operations := s.operations[op := SettledOperation(s, op)]), AttemptReconciled);
    }
  }

  lemma SuspendFrame(s: Server, op: Id, t: Server, status: AttemptStatus)
    requires op in s.operations
    ensures SameOperations(t, SetAttempt(t, s.operations[op].attempt, status))
  {}

  lemma AwaitFrame(s: Server)
    ensures SameOperations(s, AwaitReconcile(s))
  {}

  lemma AfterFrame(s: Server)
    ensures SameOperations(s, AfterReconcile(s))
  {}

  /** `t` is `s` after a request, as far as operations are concerned: the table
      for the operation the request is about, nothing for all others. */
  ghost predicate Follows(s: Server, now: nat, r: Request, t: Server) {
    && (forall op :: StatusOf(t, op)
          == if About(r) == Some(op) then Transition(StatusOf(s, op), r, Presents(s, now, r), op in s.effects).0 else StatusOf(s, op))
    && t.applied
         == if About(r).Some? && Transition(StatusOf(s, About(r).value), r, Presents(s, now, r), About(r).value in s.effects).1
            then s.applied + [About(r).value] else s.applied
  }

  /** Every request moves operations exactly as the table says. */
  lemma OperationTable(s: Server, now: nat, r: Request)
    ensures Follows(s, now, r, Next(s, now, r))
  {
    match r
    case Prepare(c, op, environment, fingerprint) => PrepareTransition(s, now, c, op, environment, fingerprint);
    case Dispatch(c, op) => DispatchTransition(s, now, c, op);
    case MarkNotSubmitted(c, op) => NotSubmittedTransition(s, now, c, op);
    case Apply(c, op) => ApplyTransition(s, now, c, op);
    case Confirm(c, op, receipt) => ConfirmTransition(s, now, c, op, receipt);
    case MarkUnknown(op) => UnknownTransition(s, now, op);
    case Reconcile(op) => ReconcileTransition(s, now, op);
    case _ => JobFrame(s, now, r);
  }

  /** An operation that may have been submitted. */
  predicate Submitted(s: Server, op: Id) {
    var status := StatusOf(s, op);
    status == Some(InFlight) || status == Some(UnknownOutcome) || status == Some(Confirmed)
  }

  /** One request other than its reconcile neither applies a submitted operation nor makes it submittable. */
  lemma SubmittedStep(s: Server, now: nat, r: Request, t: Server, op: Id)
    requires Submitted(s, op) && r != Reconcile(op)
    requires Follows(s, now, r, t)
    ensures Submitted(t, op)
    ensures Occurrences(t.applied, op) == Occurrences(s.applied, op)
  {
    if t.applied != s.applied {
      OccurrencesAppend(s.applied, [About(r).value], op);
    }
  }

  /** No blind retry: whatever workers, expiries and cancellations do, an
      operation that may have been submitted is not applied again before it is
      reconciled. */
  lemma {:induction false} NoBlindReapply(s: Server, steps: seq<Step>, op: Id)
    requires Submitted(s, op)
    requires forall i :: 0 <= i < |steps| ==> steps[i].request != Reconcile(op)
    ensures Submitted(Run(s, steps), op)
    ensures Occurrences(Run(s, steps).applied, op) == Occurrences(s.applied, op)
    decreases |steps|
  {
    if steps != [] {
      var now, r := steps[0].now, steps[0].request;
      OperationTable(s, now, r);
      SubmittedStep(s, now, r, Next(s, now, r), op);
      NoBlindReapply(Next(s, now, r), steps[1..], op);
    }
  }

  /** Reconcile settles by the effect table and never applies; an operation that
      took effect is confirmed and never applied again. */
  lemma ReconcileDecides(s: Server, now: nat, op: Id, steps: seq<Step>)
    requires Inv(s) && op in s.operations && Unresolved(s.operations[op].status)
    ensures
      var t := Next(s, now, Reconcile(op));
      && t.applied == s.applied
      && StatusOf(t, op) == Some(if op in s.effects then Confirmed else NotSubmitted)
      && (op in s.effects ==> Occurrences(Run(t, steps).applied, op) == 1)
  {
    var t := Next(s, now, Reconcile(op));
    OperationTable(s, now, Reconcile(op));
    InvStep(s, now, Reconcile(op));
    AppliedIfEffect(s, t, op);
    EffectStays(t, steps, op);
  }

  lemma AppliedIfEffect(s: Server, t: Server, op: Id)
    requires EffectInv(s) && t.applied == s.applied
    ensures op in s.effects ==> op in t.applied
  {}

  /** Once an effect took place it is never repeated, reconciled or not. */
  lemma EffectStays(s: Server, steps: seq<Step>, op: Id)
    requires Inv(s)
    ensures op in s.applied ==> Occurrences(Run(s, steps).applied, op) == 1
  {
    InvRun(s, steps);
    GrowsRun(s, steps);
    var end := Run(s, steps);
    NoDupOccurrences(end.applied, op);
    assert s.applied <= end.applied;
    assert op in s.applied ==> op in end.applied;
  }

  /** Once confirmed an operation stays confirmed in every run, and an apply of it
      changes nothing at all: its owner is told that it is a replay. */
  lemma ApplyAfterConfirm(s: Server, steps: seq<Step>, now: nat, c: Credentials, op: Id)
    requires Inv(s) && StatusOf(s, op) == Some(Confirmed)
    ensures
      var t := Run(s, steps);
      && StatusOf(t, op) == Some(Confirmed)
      && Handle(t, now, Apply(c, op)) == Answer(t, if Owns(t, c, now) then Replayed else Rejected(Code.StaleAttempt))
  {
    GrowsRun(s, steps);
  }

  /** An operation becomes NOT_SUBMITTED in exactly two ways: its owner says so
      while it is only prepared, or a reconcile finds no effect. */
  lemma NotSubmittedExactly(s: Server, now: nat, r: Request, op: Id)
    requires op in s.operations && s.operations[op].status != NotSubmitted
    ensures StatusOf(Next(s, now, r), op) == Some(NotSubmitted)
       <==> || (r.MarkNotSubmitted? && r.op == op && Owns(s, r.c, now) && s.operations[op].status == Prepared)
            || (r == Reconcile(op) && Unresolved(s.operations[op].status) && op !in s.effects)
  {
    OperationTable(s, now, r);
  }
}
