/**
 Which jobs can still end: the exact condition for all states of the tables.
 */
module ExecutionLiveness {
  import opened Wrappers
  import opened ControlPlane
  import opened ExecutionSafety
  import opened ExecutionRuns
  import opened ExecutionFencing

  /** A job waits for reconcile only while some operation is unresolved. */
  ghost predicate PausedInv(s: Server) {
    s.state == ReconcileRequired ==> HasUnsafe(s)
  }

  lemma PausedStep(s: Server, now: nat, r: Request)
    requires OwnerInv(s) && PausedInv(s)
    ensures PausedInv(Next(s, now, r))
  {
    match r
    case Claim(w, token, secs) => ClaimPauses(s, now, w, token, secs);
    case Timeout(c, id) => TimeoutPauses(s, now, c, id);
    case MarkUnknown(op) => UnknownPauses(s, op);
    case Reconcile(op) => ReconcileResumes(s, op);
    case Cancel(id) => CancelPauses(s, id);
    case RegisterArtifact(t, id, artifact) =>
    case _ => FencedPauses(s, now, r, CredentialsOf(r).value);
  }

  lemma ClaimPauses(s: Server, now: nat, w: Id, token: Id, secs: nat)
    requires PausedInv(s)
    ensures PausedInv(ClaimJob(s, now, w, token, secs).server)
  {
    ClaimFrame(s, now, w, token, secs);
  }

  lemma TimeoutPauses(s: Server, now: nat, c: Credentials, id: Id)
    requires PausedInv(s)
    ensures PausedInv(TimeoutJob(s, now, c, id).server)
  {
    TimeoutFrame(s, now, c, id);
  }

  lemma UnknownPauses(s: Server, op: Id)
    requires PausedInv(s)
    ensures PausedInv(MarkOperationUnknown(s, op).server)
  {
    UnknownTransition(s, 0, op);
    var t := MarkOperationUnknown(s, op).server;
    if t != s {
      assert StatusOf(t, op) == Some(UnknownOutcome);
      assert HasUnsafe(t);
    }
  }

  lemma ReconcileResumes(s: Server, op: Id)
    requires PausedInv(s)
    ensures PausedInv(ReconcileOperation(s, op).server)
  {
    if op in s.operations {
      assert Settled(s, op).state == s.state;
    }
  }

  lemma CancelPauses(s: Server, id: Option<Id>)
    requires PausedInv(s)
    ensures PausedInv(CancelJob(s, id).server)
  {}

  lemma FencedPauses(s: Server, now: nat, r: Request, c: Credentials)
    requires OwnerInv(s) && PausedInv(s) && CredentialsOf(r) == Some(c) && !r.Timeout?
    ensures PausedInv(Next(s, now, r))
  {
    if Owns(s, c, now) {
      FencedState(s, now, r);
    } else {
      NotOwnerStep(s, now, r, c);
    }
  }

  lemma FencedState(s: Server, now: nat, r: Request)
    requires CredentialsOf(r).Some? && !r.Timeout?
    requires s.state != ReconcileRequired
    ensures Next(s, now, r).state != ReconcileRequired
  {}

  lemma {:induction false} PausedRun(s: Server, steps: seq<Step>)
    requires Inv(s) && PausedInv(s)
    ensures PausedInv(Run(s, steps))
    decreases |steps|
  {
    if steps != [] {
      PausedStep(s, steps[0].now, steps[0].request);
      InvStep(s, steps[0].now, steps[0].request);
      PausedRun(Next(s, steps[0].now, steps[0].request), steps[1..]);
    }
  }

  // ---------------------------------------------------------------- every other job can end

  /** Some run from here, with no request earlier than `now`, ends the job. */
  ghost predicate CanEnd(s: Server, now: nat) {
    exists steps: seq<Step> :: NotBefore(steps, now) && Terminal(Run(s, steps).state)
  }

  ghost predicate NotBefore(steps: seq<Step>, now: nat) {
    forall i :: 0 <= i < |steps| ==> now <= steps[i].now
  }

  lemma CanEndStep(s: Server, now: nat, r: Request)
    requires CanEnd(Next(s, now, r), now)
    ensures CanEnd(s, now)
  {
    var steps: seq<Step> :| NotBefore(steps, now) && Terminal(Run(Next(s, now, r), steps).state);
    var all := [Step(now, r)] + steps;
    assert all[1..] == steps;
    assert Run(s, all) == Run(Next(s, now, r), steps);
    assert NotBefore(all, now);
  }

  /** An identifier no stored evidence uses, as id or as entity. */
  lemma {:induction false} FreshId(used: set<Id>) returns (id: Id)
    ensures forall x :: x in used ==> x < id
  {
    if x :| x in used {
      var rest := FreshId(used - {x});
      id := if rest <= x then x + 1 else rest;
      assert forall y :: y in used ==> y == x || y in used - {x};
    } else {
      id := 0;
    }
  }

  const NO_ARTIFACT: ArtifactRef := ArtifactRef(None, None, None, None, None, None, None)

  /** Whoever may add evidence can add evidence of an error. */
  lemma FailureEvidence(s: Server, now: nat, c: Credentials) returns (id: Id, r: Request)
    requires s.state == Queued || Owns(s, c, now)
    ensures r.IngestEvidence?
    ensures Next(s, now, r).(evidence := s.evidence, events := s.events) == s
    ensures id in Next(s, now, r).evidence && Next(s, now, r).evidence[id].outcome == Error
  {
    var ids := s.evidence.Keys;
    var entities := set i | i in s.evidence :: s.evidence[i].entityId;
    id := FreshId(ids + entities);
    r := IngestEvidence(c, id, Evidence(None, 0, id, Error, 0, NO_ARTIFACT));
    assert id !in ids;
    forall i | i in s.evidence ensures !Collides(s.evidence[i], 0, id) {
      var entity: Id := s.evidence[i].entityId;
      assert entity in entities && entity in ids + entities;
    }
  }

  lemma QueuedCanEnd(s: Server, now: nat)
    requires s.state == Queued
    ensures CanEnd(s, now)
  {
    var c := Credentials(0, 0, 0, 0);
    var id, r := FailureEvidence(s, now, c);
    EndedNow(Next(Next(s, now, r), now, Timeout(c, id)), now);
    CanEndStep(Next(s, now, r), now, Timeout(c, id));
    CanEndStep(s, now, r);
  }

  lemma EndedNow(s: Server, now: nat)
    requires Terminal(s.state)
    ensures CanEnd(s, now)
  {
    assert Run(s, []) == s && NotBefore([], now);
  }

  lemma OwnedCanEnd(s: Server, now: nat)
    requires OwnerState(s.state) && s.active.Some? && now < s.active.value.expires
    ensures CanEnd(s, now)
  {
    var c := Credentials(s.active.value.attempt, s.active.value.worker, s.active.value.token, s.version);
    var id, r := FailureEvidence(s, now, c);
    EndedNow(Next(Next(s, now, r), now, FailPlatform(c, id)), now);
    CanEndStep(Next(s, now, r), now, FailPlatform(c, id));
    CanEndStep(s, now, r);
  }

  lemma PausedCanEnd(s: Server, now: nat)
    requires s.state == ReconcileRequired && HasUnsafe(s)
    ensures CanEnd(s, now)
  {
    var op :| op in s.operations && Unresolved(s.operations[op].status);
    assert Settled(s, op).state == s.state;
    QueuedCanEnd(Next(s, now, Reconcile(op)), now);
    CanEndStep(s, now, Reconcile(op));
  }

  lemma ExpiredCanEnd(s: Server, now: nat)
    requires Inv(s) && PausedInv(s)
    requires (s.state == Claimed || s.state == Running) && s.active.value.expires <= now
    ensures CanEnd(s, now)
  {
    var claim := Claim(0, 0, 1);
    PausedStep(s, now, claim);
    var t := Next(s, now, claim);
    if t.state == ReconcileRequired {
      PausedCanEnd(t, now);
    } else {
      OwnedCanEnd(t, now);
    }
    CanEndStep(s, now, claim);
  }

  /** A reachable job can always still be ended, with one exception: a cancelling
      job whose lease has run out. */
  lemma EndableExactly(s: Server, now: nat)
    requires Inv(s) && PausedInv(s)
    ensures CanEnd(s, now) <==> !Wedged(s, now)
  {
    if Wedged(s, now) {
      forall steps: seq<Step> | NotBefore(steps, now) ensures !Terminal(Run(s, steps).state) {
        WedgedForever(s, now, steps);
      }
    } else if Terminal(s.state) {
      EndedNow(s, now);
    } else if s.state == Queued {
      QueuedCanEnd(s, now);
    } else if s.state == ReconcileRequired {
      PausedCanEnd(s, now);
    } else if now < s.active.value.expires {
      OwnedCanEnd(s, now);
    } else {
      ExpiredCanEnd(s, now);
    }
  }

  /** After any run from a fresh submission the job can still be ended, unless it is
      a cancelling job whose lease has run out. */
  lemma ReachableJobsCanEndExactly(steps: seq<Step>, now: nat)
    ensures CanEnd(Run(SUBMITTED, steps), now) <==> !Wedged(Run(SUBMITTED, steps), now)
  {
    Reachable([]);
    PausedRun(SUBMITTED, steps);
    Reachable(steps);
    EndableExactly(Run(SUBMITTED, steps), now);
  }
}
