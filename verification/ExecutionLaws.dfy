/**
 What single requests do to the job row and its lease, as laws over all requests:
 who owns the job afterwards and for how long, when each state is entered, and when
 a version or an attempt is used up.
 */
module ExecutionLaws {
  import opened Wrappers
  import opened ControlPlane
  import opened ExecutionSafety
  import opened ExecutionRuns
  import opened ExecutionFencing
  import opened ExecutionCompletion

  // ---------------------------------------------------------------- the job row

  datatype JobRow = JobRow(
    state: JobState, version: nat, attemptNumber: nat, active: Option<Lease>, outcome: Option<Outcome>, terminalEvidence: Option<Id>)

  /** Everything but the job row and its history. */
  ghost predicate SameRows(s: Server, t: Server) {
    && t.attempts == s.attempts && t.operations == s.operations && t.effects == s.effects && t.applied == s.applied
    && t.evidence == s.evidence && t.registry == s.registry
  }

  function RowOf(s: Server): JobRow {
    JobRow(s.state, s.version, s.attemptNumber, s.active, s.outcome, s.terminalEvidence)
  }

  function Cleared(j: JobRow, state: JobState): JobRow {
    JobRow(state, j.version + 1, j.attemptNumber, None, None, None)
  }

  function Bound(j: JobRow, state: JobState, outcome: Outcome, id: Id): JobRow {
    Cleared(j, state).(outcome := Some(outcome), terminalEvidence := Some(id))
  }

  lemma ClearRow(s: Server, status: AttemptStatus, state: JobState)
    ensures RowOf(ClearTo(EndActive(s, status), state)) == Cleared(RowOf(s), state)
  {}

  lemma FinishRow(s: Server, state: JobState, status: AttemptStatus, outcome: Outcome, id: Id)
    ensures RowOf(FinishTerminal(s, state, status, outcome, id)) == Bound(RowOf(s), state, outcome, id)
  {}

  lemma SuspendedJob(s: Server, op: Id)
    requires op in s.operations
    ensures RowOf(Suspended(s, op)) == RowOf(s) && RowOf(Settled(s, op)) == RowOf(s)
  {}

  lemma ClaimRow(s: Server, now: nat, w: Id, token: Id, secs: nat)
    requires OwnerInv(s)
    ensures
      var a := ClaimJob(s, now, w, token, secs);
      var versions := if s.state == Queued then 1 else 2;
      if Grantable(s, now) then
        a.response == Granted
        && RowOf(a.server)
           == JobRow(Claimed, s.version + versions, s.attemptNumber + 1,
                     Some(Lease(s.attemptNumber + 1, w, token, now + secs)),
                     if s.state == Queued then s.outcome else None, if s.state == Queued then s.terminalEvidence else None)
      else if Held(s) && Expired(s, now) then
        a.response == Deferred(ReconcileRequired) && RowOf(a.server) == Cleared(RowOf(s), ReconcileRequired)
      else a.server == s && a.response != Granted
  {
    ClearRow(s, AttemptReconcileRequired, ReconcileRequired);
    ClearRow(s, AttemptExpired, Queued);
  }

  /** Nobody holds the job, or nobody does any more and the last holder prepared
      nothing that is unresolved. */
  ghost predicate Grantable(s: Server, now: nat) {
    s.state == Queued || (Held(s) && Expired(s, now) && !HasUnsafeFor(s, s.attemptNumber))
  }

  predicate Suspendable(s: Server, op: Id) {
    StatusOf(s, op) == Some(Prepared) || StatusOf(s, op) == Some(InFlight)
  }

  predicate UnresolvedAt(s: Server, op: Id) {
    op in s.operations && Unresolved(s.operations[op].status)
  }

  lemma UnknownRow(s: Server, op: Id)
    ensures
      var t := MarkOperationUnknown(s, op).server;
      if !Suspendable(s, op) then t == s
      else if s.state == CancelRequested then RowOf(t) == RowOf(s).(version := s.version + 1, outcome := None)
      else if Terminal(s.state) || s.state == ReconcileRequired then RowOf(t) == RowOf(s)
      else RowOf(t) == Cleared(RowOf(s), ReconcileRequired)
  {
    if op in s.operations {
      SuspendedJob(s, op);
    }
  }

  lemma ReconcileRow(s: Server, op: Id)
    ensures
      var t := ReconcileOperation(s, op).server;
      if !UnresolvedAt(s, op) then t == s
      else if s.state == CancelRequested then RowOf(t) == RowOf(s).(version := s.version + 1, outcome := None)
      else if Terminal(s.state) then RowOf(t) == RowOf(s)
      else RowOf(t) == Cleared(RowOf(s), Queued)
  {
    if op in s.operations {
      SuspendedJob(s, op);
    }
  }

  lemma TimeoutRow(s: Server, now: nat, c: Credentials, id: Id)
    ensures
      var t := TimeoutJob(s, now, c, id).server;
      if OwnerState(s.state) && Owns(s, c, now) && HasUnsafe(s) then RowOf(t) == Cleared(RowOf(s), ReconcileRequired)
      else if TimesOut(s, now, c, id) then RowOf(t) == Bound(RowOf(s), FailedPlatform, s.evidence[id].outcome, id)
      else t == s
  {
    ClearRow(s, AttemptReconcileRequired, ReconcileRequired);
    if id in s.evidence {
      FinishRow(s, FailedPlatform, AttemptFailed, s.evidence[id].outcome, id);
    }
  }

  ghost predicate TimesOut(s: Server, now: nat, c: Credentials, id: Id) {
    && (s.state == Queued || (Owns(s, c, now) && !HasUnsafe(s)))
    && id in s.evidence && PlatformOutcome(s.evidence[id].outcome)
  }

  ghost predicate Acknowledges(s: Server, now: nat, c: Credentials, id: Id) {
    && Owns(s, c, now) && s.state == CancelRequested && !HasUnsafe(s)
    && id in s.evidence && s.evidence[id].outcome == CancelledOutcome
  }

  predicate CancelsQueued(s: Server, id: Option<Id>) {
    s.state == Queued && id.Some? && id.value in s.evidence && s.evidence[id.value].outcome == CancelledOutcome
  }

  predicate FailsPlatform(s: Server, now: nat, c: Credentials, id: Id) {
    Owns(s, c, now) && id in s.evidence && PlatformOutcome(s.evidence[id].outcome)
  }

  lemma CompleteRow(s: Server, now: nat, c: Credentials, id: Id, readable: bool)
    ensures
      var t := CompleteJob(s, now, c, id, readable).server;
      if Completable(s, now, c, id, readable) then RowOf(t) == Bound(RowOf(s), Completed, Pass, id) else t == s
  {
    FinishRow(s, Completed, AttemptCompleted, Pass, id);
  }

  lemma FailRow(s: Server, now: nat, c: Credentials, id: Id)
    ensures
      var t := FailJob(s, now, c, id).server;
      if FailsPlatform(s, now, c, id) then RowOf(t) == Bound(RowOf(s), FailedPlatform, s.evidence[id].outcome, id) else t == s
  {
    if id in s.evidence {
      FinishRow(s, FailedPlatform, AttemptFailed, s.evidence[id].outcome, id);
    }
  }

  lemma AckRow(s: Server, now: nat, c: Credentials, id: Id)
    ensures
      var t := AcknowledgeCancel(s, now, c, id).server;
      if Acknowledges(s, now, c, id) then RowOf(t) == Bound(RowOf(s), Cancelled, CancelledOutcome, id) else t == s
  {
    FinishRow(s, Cancelled, AttemptCancelled, CancelledOutcome, id);
  }

  lemma CancelRow(s: Server, id: Option<Id>)
    ensures
      var t := CancelJob(s, id).server;
      if CancelsQueued(s, id) then RowOf(t) == Bound(RowOf(s), Cancelled, CancelledOutcome, id.value)
      else if Held(s) then RowOf(t) == RowOf(s).(state := CancelRequested, version := s.version + 1)
      else t == s
  {
    if id.Some? {
      FinishRow(s, Cancelled, AttemptCancelled, CancelledOutcome, id.value);
    }
  }

  lemma StartRow(s: Server, now: nat, c: Credentials)
    ensures
      var t := StartJob(s, now, c).server;
      if Owns(s, c, now) && s.state == Claimed then RowOf(t) == RowOf(s).(state := Running, version := s.version + 1) else t == s
  {}

  lemma HeartbeatRow(s: Server, now: nat, c: Credentials, secs: nat)
    ensures
      var t := HeartbeatJob(s, now, c, secs).server;
      if Owns(s, c, now)
      then RowOf(t) == RowOf(s).(version := s.version + 1, active := Some(s.active.value.(expires := now + secs))) && SameRows(s, t)
      else t == s
  {}

  /** The requests that never touch the job row. */
  predicate RowBound(r: Request) {
    || r.Prepare? || r.Dispatch? || r.MarkNotSubmitted? || r.Apply? || r.Confirm?
    || r.IngestEvidence? || r.RegisterArtifact?
  }

  lemma OtherRow(s: Server, now: nat, r: Request)
    requires RowBound(r)
    ensures RowOf(Next(s, now, r)) == RowOf(s)
  {}

  // ---------------------------------------------------------------- when each state is entered

  /** Every row request by request: the one place where the cases are told apart. */
  lemma RowAfter(s: Server, now: nat, r: Request)
    requires OwnerInv(s)
    ensures
      var j, k := RowOf(s), RowOf(Next(s, now, r));
      match r
      case Claim(w, token, secs) =>
        if Grantable(s, now) then
          k.state == Claimed && k.version == j.version + (if s.state == Queued then 1 else 2)
          && k.attemptNumber == j.attemptNumber + 1 && k.active == Some(Lease(k.attemptNumber, w, token, now + secs))
        else if Held(s) && Expired(s, now) then k == Cleared(j, ReconcileRequired) else k == j
      case Start(c) => k == if Owns(s, c, now) && s.state == Claimed then j.(state := Running, version := j.version + 1) else j
      case Heartbeat(c, secs) =>
        k == if Owns(s, c, now) then j.(version := j.version + 1, active := Some(j.active.value.(expires := now + secs))) else j
      case Complete(c, id, readable) => k == if Completable(s, now, c, id, readable) then Bound(j, Completed, Pass, id) else j
      case FailPlatform(c, id) =>
        k == if FailsPlatform(s, now, c, id) then Bound(j, FailedPlatform, s.evidence[id].outcome, id) else j
      case AckCancel(c, id) => k == if Acknowledges(s, now, c, id) then Bound(j, Cancelled, CancelledOutcome, id) else j
      case Cancel(id) =>
        k == if CancelsQueued(s, id) then Bound(j, Cancelled, CancelledOutcome, id.value)
             else if Held(s) then j.(state := CancelRequested, version := j.version + 1) else j
      case Timeout(c, id) =>
        k == if Owns(s, c, now) && HasUnsafe(s) then Cleared(j, ReconcileRequired)
             else if TimesOut(s, now, c, id) then Bound(j, FailedPlatform, s.evidence[id].outcome, id) else j
      case MarkUnknown(op) =>
        k == if !Suspendable(s, op) || Terminal(s.state) || s.state == ReconcileRequired then j
             else if s.state == CancelRequested then j.(version := j.version + 1, outcome := None)
             else Cleared(j, ReconcileRequired)
      case Reconcile(op) =>
        k == if !UnresolvedAt(s, op) || Terminal(s.state) then j
             else if s.state == CancelRequested then j.(version := j.version + 1, outcome := None)
             else Cleared(j, Queued)
      case _ => k == j
  {
    match r
    case Claim(w, token, secs) => ClaimRow(s, now, w, token, secs);
    case Start(c) => StartRow(s, now, c);
    case Heartbeat(c, secs) => HeartbeatRow(s, now, c, secs);
    case Complete(c, id, readable) => CompleteRow(s, now, c, id, readable);
    case FailPlatform(c, id) => FailRow(s, now, c, id);
    case AckCancel(c, id) => AckRow(s, now, c, id);
    case Cancel(id) => CancelRow(s, id);
    case Timeout(c, id) => TimeoutRow(s, now, c, id);
    case MarkUnknown(op) => UnknownRow(s, op);
    case Reconcile(op) => ReconcileRow(s, op);
    case _ => OtherRow(s, now, r);
  }

  /** A new attempt is opened by exactly the claims of a grantable job. */
  lemma GrantExactly(s: Server, now: nat, r: Request)
    requires Inv(s)
    ensures Handle(s, now, r).response == Granted <==> r.Claim? && Grantable(s, now)
    ensures Next(s, now, r).attemptNumber != s.attemptNumber <==> r.Claim? && Grantable(s, now)
    ensures s.state != Claimed ==> (Next(s, now, r).state == Claimed <==> r.Claim? && Grantable(s, now))
  {
    RowAfter(s, now, r);
    if r.Claim? {
      ClaimRow(s, now, r.claimant, r.newToken, r.leaseSeconds);
    } else {
      NotGranted(s, now, r);
    }
  }

  lemma NotGranted(s: Server, now: nat, r: Request)
    requires !r.Claim?
    ensures Handle(s, now, r).response != Granted
  {}

  /** A job is running exactly after its owner has started it, and is asked to cancel
      exactly by a cancellation while a worker holds it. */
  lemma StartedOrCancelledExactly(s: Server, now: nat, r: Request)
    requires Inv(s)
    ensures s.state != ControlPlane.Running ==>
      (Next(s, now, r).state == ControlPlane.Running <==> r.Start? && Owns(s, r.c, now) && s.state == Claimed)
    ensures s.state != CancelRequested ==> (Next(s, now, r).state == CancelRequested <==> r.Cancel? && Held(s))
  {
    RowAfter(s, now, r);
  }

  /** A job stops for reconcile in exactly three ways: its lease ran out over an
      unresolved operation of the holder's own, its owner times out with one, or
      somebody declares an operation's outcome unknown. It is queued again only by
      the reconcile of an unresolved operation. */
  lemma PausedOrQueuedExactly(s: Server, now: nat, r: Request)
    requires Inv(s)
    ensures s.state != ReconcileRequired ==>
      (Next(s, now, r).state == ReconcileRequired <==>
        || (r.Claim? && Held(s) && Expired(s, now) && HasUnsafeFor(s, s.attemptNumber))
        || (r.Timeout? && Owns(s, r.c, now) && HasUnsafe(s))
        || (r.MarkUnknown? && Suspendable(s, r.op) && !Terminal(s.state) && s.state != CancelRequested))
    ensures s.state != Queued ==>
      (Next(s, now, r).state == Queued <==>
        r.Reconcile? && UnresolvedAt(s, r.op) && !Terminal(s.state) && s.state != CancelRequested)
  {
    RowAfter(s, now, r);
  }

  /** The evidence a terminal request names. */
  function NamedEvidence(r: Request): Option<Id> {
    match r
    case Complete(_, id, _) => Some(id)
    case FailPlatform(_, id) => Some(id)
    case AckCancel(_, id) => Some(id)
    case Timeout(_, id) => Some(id)
    case Cancel(id) => id
    case _ => None
  }

  /** When a job fails or is cancelled. */
  lemma FailedOrCancelledExactly(s: Server, now: nat, r: Request)
    requires Inv(s)
    ensures s.state != FailedPlatform ==>
      (Next(s, now, r).state == FailedPlatform <==>
        (r.FailPlatform? && FailsPlatform(s, now, r.c, r.evidenceId)) || (r.Timeout? && TimesOut(s, now, r.c, r.evidenceId)))
    ensures s.state != Cancelled ==>
      (Next(s, now, r).state == Cancelled <==>
        (r.AckCancel? && Acknowledges(s, now, r.c, r.evidenceId)) || (r.Cancel? && CancelsQueued(s, r.cancelEvidence)))
  {
    RowAfter(s, now, r);
  }

  /** A job that ends is bound to exactly the evidence the request named, with that
      evidence's outcome, and has no owner any more. */
  lemma EndBindsNamed(s: Server, now: nat, r: Request)
    requires Inv(s) && !Terminal(s.state) && Terminal(Next(s, now, r).state)
    ensures
      var t := Next(s, now, r);
      && NamedEvidence(r).Some? && t.terminalEvidence == NamedEvidence(r) && t.active.None?
      && NamedEvidence(r).value in s.evidence && t.outcome == Some(s.evidence[NamedEvidence(r).value].outcome)
  {
    RowAfter(s, now, r);
  }

  /** What uses up a version: a change of state, a heartbeat, a settled or suspended
      operation of a cancelling job, a reconcile that queues the job, and, for the
      requeue in between, a grant over an expired lease once more. */
  lemma VersionExactly(s: Server, now: nat, r: Request)
    requires Inv(s)
    ensures
      var t := Next(s, now, r);
      t.version == s.version
        + (if r.Claim? && Grantable(s, now) && s.state != Queued then 2
           else if || t.state != s.state || (r.Heartbeat? && Owns(s, r.c, now))
                   || (r.MarkUnknown? && Suspendable(s, r.op) && s.state == CancelRequested)
                   || (r.Reconcile? && UnresolvedAt(s, r.op) && !Terminal(s.state))
           then 1 else 0)
  {
    RowAfter(s, now, r);
  }

  // ---------------------------------------------------------------- leases

  /** A heartbeat gives its owner `leaseSeconds` from now on, under the next version
      and no other tuple; nobody else gets the job before they are over, and no row
      changes. */
  lemma HeartbeatExactly(s: Server, now: nat, c: Credentials, leaseSeconds: nat, d: Credentials, t: nat, claim: Request)
    requires Owns(s, c, now) && claim.Claim?
    ensures
      var beat := Handle(s, now, Heartbeat(c, leaseSeconds));
      && beat.response == Done && beat.server.state == s.state && SameRows(s, beat.server)
      && (Owns(beat.server, d, t) <==> d == c.(version := c.version + 1) && t < now + leaseSeconds)
      && (Held(s) && t < now + leaseSeconds ==>
            Handle(beat.server, t, claim) == Answer(beat.server, Rejected(Code.ActiveLease)))
      && (s.state == CancelRequested ==> Handle(beat.server, t, claim) == Answer(beat.server, Deferred(CancelRequested)))
  {}

  /** A grant gives the claimant, and nobody else, the job for `leaseSeconds`, under
      a number no attempt had before. */
  lemma GrantedLease(s: Server, now: nat, claim: Request, d: Credentials, t: nat)
    requires Inv(s) && claim.Claim? && Grantable(s, now)
    ensures
      var u := Next(s, now, claim);
      && u.attemptNumber == s.attemptNumber + 1 && u.attemptNumber !in s.attempts
      && (Owns(u, d, t) <==>
            d == Credentials(u.attemptNumber, claim.claimant, claim.newToken, u.version) && t < now + claim.leaseSeconds)
  {
    RowAfter(s, now, claim);
  }

  /** No other request moves a lease: it either leaves it alone, so that its holder
      owns the job under the row's version for exactly as long as before, or takes
      the job from its holder. */
  lemma LeaseKept(s: Server, now: nat, r: Request)
    requires Inv(s) && !(r.Claim? && Grantable(s, now)) && !(r.Heartbeat? && Owns(s, r.c, now))
    ensures
      var u := Next(s, now, r);
      if OwnerState(u.state) then OwnerState(s.state) && u.active == s.active else u.active.None?
  {
    RowAfter(s, now, r);
  }

  /** A live lease keeps every claim out. */
  lemma LiveLeaseExcludes(s: Server, now: nat, claim: Request)
    requires Inv(s) && claim.Claim? && Held(s) && !Expired(s, now)
    ensures Handle(s, now, claim) == Answer(s, Rejected(Code.ActiveLease))
  {}

  /** A request that could take a job from a live holder without its tuple. */
  predicate Interferes(r: Request) {
    r.Cancel? || r.MarkUnknown? || r.Reconcile?
  }

  /** Without the holder's tuple this request leaves the holder alone. */
  ghost predicate Harmless(r: Request, c: Credentials) {
    !Interferes(r) && CredentialsOf(r) != Some(c)
  }

  /** While its lease is live, and unless somebody cancels or settles operations, the
      holder keeps the job in every run in which nobody else has its tuple. */
  lemma {:induction false} LeaseProtects(s: Server, c: Credentials, now: nat, steps: seq<Step>)
    requires Inv(s) && Held(s) && Owns(s, c, now)
    requires forall i :: 0 <= i < |steps| ==> steps[i].now < s.active.value.expires && Harmless(steps[i].request, c)
    ensures RowOf(Run(s, steps)) == RowOf(s) && Owns(Run(s, steps), c, now)
    decreases |steps|
  {
    if steps != [] {
      assert Harmless(steps[0].request, c);
      RowAfter(s, steps[0].now, steps[0].request);
      InvStep(s, steps[0].now, steps[0].request);
      var t := Next(s, steps[0].now, steps[0].request);
      forall i | 0 <= i < |steps[1..]| ensures steps[1..][i].now < t.active.value.expires && Harmless(steps[1..][i].request, c) {
        assert steps[1..][i] == steps[i + 1];
      }
      LeaseProtects(t, c, now, steps[1..]);
    }
  }
}
