/**
 The two recovery loops of the durable worker: reconciling a paused job and
 acknowledging a requested cancellation.

 Both walk the operation list of one job read and raise as soon as the Control
 Plane rejects a request; the lemmas say exactly when they get through.
 */
module DurableWorker {
  import opened Wrappers
  import opened ControlPlane
  import opened ExecutionRuns

  /** One entry of the operation list in a job read. */
  datatype Listed = Listed(op: Id, status: OperationStatus)

  /** Where a loop left the tables, and whether it raised on the way. */
  datatype Walk = Walk(server: Server, raised: bool)

  /** The tables behind the HTTP interface. */
  class Service {
    var db: Server

    constructor (s: Server)
      ensures db == s
    {
      db := s;
    }

    /** One request that is neither lost nor overtaken. */
    method Send(now: nat, r: Request) returns (response: Response)
      modifies this
      ensures db == Next(old(db), now, r)
      ensures response == Handle(old(db), now, r).response
    {
      var answer := Handle(db, now, r);
      db, response := answer.server, answer.response;
    }
  }

  /** A request whose rejection makes the client raise. */
  function Try(s: Server, now: nat, r: Request): Walk {
    Walk(Next(s, now, r), Handle(s, now, r).response.Rejected?)
  }

  /** Declare the outcome unknown, then let the server settle it by its effect table. */
  function SettleOne(s: Server, now: nat, op: Id): Walk {
    var declared := Try(s, now, MarkUnknown(op));
    if declared.raised then declared else Try(declared.server, now, Reconcile(op))
  }

  function ReconcilePass(s: Server, now: nat, listing: seq<Listed>): Walk
    decreases |listing|
  {
    if listing == [] then Walk(s, false)
    else if !Unresolved(listing[0].status) then ReconcilePass(s, now, listing[1..])
    else
      var settled := SettleOne(s, now, listing[0].op);
      if settled.raised then settled else ReconcilePass(settled.server, now, listing[1..])
  }

  /** The operation loop of a cancellation: only PREPARED operations can be
      declared not submitted, and only with the worker's fencing tuple. */
  function CancelPass(s: Server, now: nat, owner: Credentials, listing: seq<Listed>): Walk
    decreases |listing|
  {
    if listing == [] then Walk(s, false)
    else
      var one :=
        if listing[0].status == Prepared then Try(s, now, MarkNotSubmitted(owner, listing[0].op))
        else if listing[0].status == InFlight || listing[0].status == UnknownOutcome then SettleOne(s, now, listing[0].op)
        else Walk(s, false);
      if one.raised then one else CancelPass(one.server, now, owner, listing[1..])
  }

  /** The evidence a worker records for an acknowledged cancellation. */
  datatype CancelNote = CancelNote(evidence: Id, entityType: Id, target: Id, sha: Id, artifact: ArtifactRef)

  function NoteEvidence(note: CancelNote): Evidence {
    Evidence(None, note.entityType, note.target, CancelledOutcome, note.sha, note.artifact)
  }

  /** After the operation loop the worker refreshes its version, records evidence and acknowledges. */
  function Acknowledge(s: Server, now: nat, owner: Credentials, note: CancelNote): Walk {
    if s.state != CancelRequested then Walk(s, true)
    else
      var current := owner.(version := s.version);
      var recorded := Try(s, now, IngestEvidence(current, note.evidence, NoteEvidence(note)));
      if recorded.raised then recorded else Try(recorded.server, now, AckCancel(current, note.evidence))
  }

  function CancelWhole(s: Server, now: nat, owner: Credentials, listing: seq<Listed>, note: CancelNote): Walk {
    var pass := CancelPass(s, now, owner, listing);
    if pass.raised then pass else Acknowledge(pass.server, now, owner, note)
  }

  class Worker {
    const service: Service
    var owner: Credentials

    constructor (s: Service, c: Credentials)
      ensures service == s && owner == c
    {
      service, owner := s, c;
    }

    /** Reconcile every unresolved operation of a paused job. */
    method ReconcileJob(now: nat, listing: seq<Listed>) returns (raised: bool)
      modifies service
      ensures Walk(service.db, raised) == ReconcilePass(old(service.db), now, listing)
    {
      var k := 0;
      raised := false;
      while k < |listing|
        invariant 0 <= k <= |listing|
        invariant ReconcilePass(service.db, now, listing[k..]) == ReconcilePass(old(service.db), now, listing)
      {
        assert listing[k..][1..] == listing[k + 1..];
        if Unresolved(listing[k].status) {
          var response := service.Send(now, MarkUnknown(listing[k].op));
          if response.Rejected? {
            return true;
          }
          response := service.Send(now, Reconcile(listing[k].op));
          if response.Rejected? {
            return true;
          }
        }
        k := k + 1;
      }
    }

    /** Settle what can be settled, then acknowledge the cancellation. */
    method CancelIfRequested(now: nat, listing: seq<Listed>, note: CancelNote) returns (raised: bool)
      requires service.db.state == CancelRequested
      modifies service, this
      ensures Walk(service.db, raised) == CancelWhole(old(service.db), now, old(owner), listing, note)
      ensures !raised ==> owner == old(owner).(version := CancelPass(old(service.db), now, old(owner), listing).server.version)
    {
      var k := 0;
      raised := false;
      while k < |listing|
        invariant 0 <= k <= |listing|
        invariant owner == old(owner)
        invariant CancelPass(service.db, now, owner, listing[k..]) == CancelPass(old(service.db), now, owner, listing)
      {
        assert listing[k..][1..] == listing[k + 1..];
        var op, status := listing[k].op, listing[k].status;
        if status == Prepared {
          var response := service.Send(now, MarkNotSubmitted(owner, op));
          if response.Rejected? {
            return true;
          }
        } else if status == InFlight || status == UnknownOutcome {
          var response := service.Send(now, MarkUnknown(op));
          if response.Rejected? {
            return true;
          }
          response := service.Send(now, Reconcile(op));
          if response.Rejected? {
            return true;
          }
        }
        k := k + 1;
      }
      if service.db.state != CancelRequested {
        return true;
      }
      owner := owner.(version := service.db.version);
      var recorded := service.Send(now, IngestEvidence(owner, note.evidence, NoteEvidence(note)));
      if recorded.Rejected? {
        return true;
      }
      var acknowledged := service.Send(now, AckCancel(owner, note.evidence));
      raised := acknowledged.Rejected?;
    }
  }

  // ---------------------------------------------------------------- what a reconcile pass achieves

  /** The listing is what a job read returns: each operation once, with its current status. */
  ghost predicate Accurate(s: Server, listing: seq<Listed>) {
    && (forall k :: 0 <= k < |listing| ==> StatusOf(s, listing[k].op) == Some(listing[k].status))
    && (forall i, j :: 0 <= i < j < |listing| ==> listing[i].op != listing[j].op)
  }

  function SettledTo(s: Server, op: Id): Option<OperationStatus> {
    Some(if op in s.effects then Confirmed else NotSubmitted)
  }

  /** What settling one operation does to the operations: that one, and no other. */
  ghost predicate SettlesOnly(s: Server, t: Server, op: Id) {
    && StatusOf(t, op) == SettledTo(s, op)
    && (forall other :: other != op ==> StatusOf(t, other) == StatusOf(s, other))
    && t.effects == s.effects && t.applied == s.applied && t.evidence == s.evidence
  }

  /** Everything but the job row and the event log stays. */
  ghost predicate SameTables(s: Server, t: Server) {
    t.operations == s.operations && t.effects == s.effects && t.evidence == s.evidence && t.applied == s.applied
  }

  lemma AwaitFrameRows(s: Server)
    ensures SameTables(s, AwaitReconcile(s))
    ensures s.state == CancelRequested ==> HeldLonger(s, AwaitReconcile(s))
    ensures !Terminal(s.state) && s.state != CancelRequested ==> AwaitReconcile(s).state == ReconcileRequired
  {}

  lemma AfterFrameRows(s: Server)
    ensures SameTables(s, AfterReconcile(s))
    ensures s.state == CancelRequested ==> HeldLonger(s, AfterReconcile(s))
    ensures !Terminal(s.state) && s.state != CancelRequested ==> AfterReconcile(s).state == Queued
  {}

  /** Still cancelling, under the same lease, one version on. */
  ghost predicate HeldLonger(s: Server, t: Server) {
    t.state == CancelRequested && t.active == s.active && t.version == s.version + 1
  }

  /** An operation row changed, and at most one attempt row. */
  ghost predicate OneRow(s: Server, t: Server, op: Id, status: OperationStatus) {
    && StatusOf(t, op) == Some(status)
    && (forall other :: other != op ==> StatusOf(t, other) == StatusOf(s, other))
    && t.effects == s.effects && t.applied == s.applied && t.evidence == s.evidence
    && t.state == s.state && t.active == s.active && t.version == s.version
  }

  lemma SuspendedRow(s: Server, op: Id)
    requires op in s.operations
    ensures OneRow(s, Suspended(s, op), op, UnknownOutcome)
  {}

  lemma SettledRow(s: Server, op: Id)
    requires op in s.operations
    ensures OneRow(s, Settled(s, op), op, ReconciledStatus(s, op))
  {}

  /** Settling keeps a cancelling job cancelling and queues any other live job. */
  ghost predicate SettledJob(s: Server, t: Server) {
    && (s.state == CancelRequested ==> t.state == CancelRequested && t.active == s.active && t.version > s.version)
    && (!Terminal(s.state) && s.state != CancelRequested ==> t.state == Queued)
  }

  lemma SettleTwoRows(s: Server, op: Id)
    requires op in s.operations
    ensures
      var declared := AwaitReconcile(Suspended(s, op));
      op in declared.operations && SettlesOnly(s, AfterReconcile(Settled(declared, op)), op)
      && SettledJob(s, AfterReconcile(Settled(declared, op)))
  {
    SuspendedRow(s, op);
    AwaitFrameRows(Suspended(s, op));
    var declared := AwaitReconcile(Suspended(s, op));
    assert StatusOf(declared, op) == Some(UnknownOutcome);
    SettledRow(declared, op);
    AfterFrameRows(Settled(declared, op));
  }

  /** One operation is settled unless its outcome was already declared unknown:
      the server rejects a second declaration, and the loop raises. */
  lemma SettleOneExactly(s: Server, now: nat, op: Id)
    requires op in s.operations && Unresolved(s.operations[op].status)
    ensures
      var p := SettleOne(s, now, op);
      && (p.raised <==> s.operations[op].status == UnknownOutcome)
      && (p.raised ==> p.server == s)
      && (!p.raised ==> SettlesOnly(s, p.server, op) && SettledJob(s, p.server))
  {
    if s.operations[op].status != UnknownOutcome {
      SettleTwoRows(s, op);
      SuspendedRow(s, op);
      AwaitFrameRows(Suspended(s, op));
      var declared := AwaitReconcile(Suspended(s, op));
      assert declared.operations == Suspended(s, op).operations;
      assert StatusOf(declared, op) == Some(UnknownOutcome);
      SettleOneUnfolds(s, now, op);
    }
  }

  lemma SettleOneUnfolds(s: Server, now: nat, op: Id)
    requires op in s.operations && (s.operations[op].status == Prepared || s.operations[op].status == InFlight)
    requires StatusOf(AwaitReconcile(Suspended(s, op)), op) == Some(UnknownOutcome)
    ensures SettleOne(s, now, op) == Walk(AfterReconcile(Settled(AwaitReconcile(Suspended(s, op)), op)), false)
  {}

  /** A reconcile pass over an accurate listing raises exactly when some listed
      operation is UNKNOWN_OUTCOME; otherwise it settles every listed unresolved
      operation by the effect table. It never touches an operation that is not listed. */
  lemma {:induction false} ReconcilePassExactly(s: Server, now: nat, listing: seq<Listed>)
    requires Accurate(s, listing)
    ensures
      var p := ReconcilePass(s, now, listing);
      && (p.raised <==> exists k :: 0 <= k < |listing| && listing[k].status == UnknownOutcome)
      && p.server.applied == s.applied && p.server.effects == s.effects
      && (!p.raised ==> forall k :: 0 <= k < |listing| ==>
            StatusOf(p.server, listing[k].op)
              == if Unresolved(listing[k].status) then SettledTo(s, listing[k].op) else Some(listing[k].status))
      && (forall op :: !Mentions(listing, op) ==> StatusOf(p.server, op) == StatusOf(s, op))
    decreases |listing|
  {
    if listing != [] {
      var head, rest := listing[0], listing[1..];
      assert forall k :: 0 <= k < |rest| ==> rest[k] == listing[k + 1];
      assert forall k :: 1 <= k < |listing| ==> listing[k] == rest[k - 1];
      assert !Mentions(rest, head.op);
      if !Unresolved(head.status) {
        ReconcilePassExactly(s, now, rest);
      } else {
        SettleOneExactly(s, now, head.op);
        var one := SettleOne(s, now, head.op);
        if !one.raised {
          ReconcilePassExactly(one.server, now, rest);
        }
      }
    }
  }

  ghost predicate Mentions(listing: seq<Listed>, op: Id) {
    exists k :: 0 <= k < |listing| && listing[k].op == op
  }

  /** A pass that gets through and settles something queues the job again. */
  lemma {:induction false} ReconcilePassRequeues(s: Server, now: nat, listing: seq<Listed>)
    requires Accurate(s, listing) && !ReconcilePass(s, now, listing).raised
    requires s.state == ReconcileRequired || s.state == Queued
    ensures ReconcilePass(s, now, listing).server.state
         == if exists k :: 0 <= k < |listing| && Unresolved(listing[k].status) then Queued else s.state
    decreases |listing|
  {
    if listing != [] {
      var head, rest := listing[0], listing[1..];
      assert forall k :: 0 <= k < |rest| ==> rest[k] == listing[k + 1];
      if Unresolved(head.status) {
        SettleOneExactly(s, now, head.op);
        ReconcilePassRequeues(SettleOne(s, now, head.op).server, now, rest);
      } else {
        ReconcilePassRequeues(s, now, rest);
        assert forall k :: 1 <= k < |listing| ==> listing[k] == rest[k - 1];
      }
    }
  }

  // ---------------------------------------------------------------- when a cancellation is acknowledged

  /** An operation the cancellation loop cannot settle: one already declared
      unknown, or a prepared one whose worker presents an outdated version. */
  predicate Blocks(s: Server, owner: Credentials, listing: seq<Listed>, k: int)
    requires 0 <= k < |listing|
  {
    || listing[k].status == UnknownOutcome
    || (listing[k].status == Prepared && (owner.version != s.version || SettlesBefore(listing, k)))
  }

  /** Settling an operation of a cancelling job bumps the version. */
  predicate SettlesBefore(listing: seq<Listed>, k: int)
    requires 0 <= k <= |listing|
  {
    exists j :: 0 <= j < k && listing[j].status == InFlight
  }

  /** A live lease of the worker's attempt, whatever version the worker knows. */
  predicate HoldsLease(s: Server, owner: Credentials, now: nat) {
    s.state == CancelRequested && s.active.Some? && now < s.active.value.expires
    && owner.attempt == s.active.value.attempt && owner.worker == s.active.value.worker && owner.token == s.active.value.token
  }

  /** After one listed operation moved, the rest of the listing is still accurate. */
  lemma AccurateRest(s: Server, t: Server, listing: seq<Listed>)
    requires Accurate(s, listing) && listing != []
    requires forall other :: other != listing[0].op ==> StatusOf(t, other) == StatusOf(s, other)
    ensures Accurate(t, listing[1..]) && !Mentions(listing[1..], listing[0].op)
    ensures forall k :: 1 <= k < |listing| ==> listing[k] == listing[1..][k - 1]
  {
    var rest := listing[1..];
    forall k | 0 <= k < |rest| ensures StatusOf(t, rest[k].op) == Some(rest[k].status) && rest[k].op != listing[0].op {
      assert rest[k] == listing[k + 1];
    }
  }

  lemma WithdrawPrepared(s: Server, now: nat, owner: Credentials, op: Id)
    requires HoldsLease(s, owner, now) && StatusOf(s, op) == Some(Prepared)
    ensures
      var p := Try(s, now, MarkNotSubmitted(owner, op));
      && (p.raised <==> owner.version != s.version)
      && (!p.raised ==>
            && p.server == SetOperation(s, op, NotSubmitted)
            && StatusOf(p.server, op) == Some(NotSubmitted)
            && forall other :: other != op ==> StatusOf(p.server, other) == StatusOf(s, other))
  {}

  /** The cancellation loop gets through exactly when nothing blocks it, and then
      leaves the job cancelling with its lease and every listed operation settled. */
  lemma {:induction false} CancelPassExactly(s: Server, now: nat, owner: Credentials, listing: seq<Listed>)
    requires Accurate(s, listing) && HoldsLease(s, owner, now)
    requires owner.version <= s.version
    ensures
      var p := CancelPass(s, now, owner, listing);
      && (p.raised <==> exists k :: 0 <= k < |listing| && Blocks(s, owner, listing, k))
      && (!p.raised ==> Cleared(s, p.server, now, owner, listing))
    decreases |listing|
  {
    if listing != [] {
      if Blocks(s, owner, listing, 0) {
        BlockedAtOnce(s, now, owner, listing);
      } else {
        var t := OneCancelled(s, now, owner, listing);
        AccurateRest(s, t, listing);
        CancelPassExactly(t, now, owner, listing[1..]);
        BlocksTail(s, t, owner, listing);
      }
    }
  }

  /** The job keeps cancelling under its lease, with every listed operation settled and no other touched. */
  ghost predicate Cleared(s: Server, t: Server, now: nat, owner: Credentials, listing: seq<Listed>) {
    && HoldsLease(t, owner, now) && t.evidence == s.evidence && t.applied == s.applied
    && (forall k :: 0 <= k < |listing| ==>
          StatusOf(t, listing[k].op).Some? && !Unresolved(StatusOf(t, listing[k].op).value))
    && (forall op :: !Mentions(listing, op) ==> StatusOf(t, op) == StatusOf(s, op))
  }

  lemma BlockedAtOnce(s: Server, now: nat, owner: Credentials, listing: seq<Listed>)
    requires Accurate(s, listing) && HoldsLease(s, owner, now) && listing != [] && Blocks(s, owner, listing, 0)
    ensures CancelPass(s, now, owner, listing).raised
  {
    if listing[0].status == Prepared {
      WithdrawPrepared(s, now, owner, listing[0].op);
    } else {
      SettleOneExactly(s, now, listing[0].op);
    }
  }

  /** The first operation, when it does not block. */
  lemma OneCancelled(s: Server, now: nat, owner: Credentials, listing: seq<Listed>) returns (t: Server)
    requires Accurate(s, listing) && HoldsLease(s, owner, now) && owner.version <= s.version
    requires listing != [] && !Blocks(s, owner, listing, 0)
    ensures CancelPass(s, now, owner, listing) == CancelPass(t, now, owner, listing[1..])
    ensures HoldsLease(t, owner, now) && t.evidence == s.evidence && t.applied == s.applied
    ensures if listing[0].status == InFlight then t.version > s.version else t.version == s.version
    ensures StatusOf(t, listing[0].op).Some? && !Unresolved(StatusOf(t, listing[0].op).value)
    ensures forall other :: other != listing[0].op ==> StatusOf(t, other) == StatusOf(s, other)
  {
    if listing[0].status == Prepared {
      WithdrawPrepared(s, now, owner, listing[0].op);
      t := Try(s, now, MarkNotSubmitted(owner, listing[0].op)).server;
    } else if listing[0].status == InFlight {
      SettleOneExactly(s, now, listing[0].op);
      t := SettleOne(s, now, listing[0].op).server;
    } else {
      t := s;
    }
  }

  lemma BlocksTail(s: Server, t: Server, owner: Credentials, listing: seq<Listed>)
    requires listing != [] && listing[0].status != UnknownOutcome
    requires listing[0].status == Prepared ==> owner.version == s.version
    requires owner.version <= s.version
    requires if listing[0].status == InFlight then t.version > s.version else t.version == s.version
    ensures (exists k :: 0 <= k < |listing| && Blocks(s, owner, listing, k))
       <==> (exists k :: 0 <= k < |listing[1..]| && Blocks(t, owner, listing[1..], k))
  {
    var rest := listing[1..];
    assert !Blocks(s, owner, listing, 0);
    forall k | 0 <= k < |rest| ensures Blocks(t, owner, rest, k) <==> Blocks(s, owner, listing, k + 1) {
      assert rest[k] == listing[k + 1];
      assert forall j :: 0 <= j < k ==> rest[j] == listing[j + 1];
      if SettlesBefore(listing, k + 1) && listing[0].status != InFlight {
        var j :| 0 <= j < k + 1 && listing[j].status == InFlight;
        assert rest[j - 1] == listing[j];
      }
      if SettlesBefore(rest, k) {
        var j :| 0 <= j < k && rest[j].status == InFlight;
        assert listing[j + 1].status == InFlight;
      }
    }
    if k :| 0 <= k < |listing| && Blocks(s, owner, listing, k) {
      assert Blocks(t, owner, rest, k - 1);
    }
    if k :| 0 <= k < |rest| && Blocks(t, owner, rest, k) {
      assert Blocks(s, owner, listing, k + 1);
    }
  }

  /** Operations listed as settled are passed over, wherever they stand in the listing
      and whatever has become of them since. */
  lemma {:induction false} CancelPassSkips(s: Server, now: nat, owner: Credentials, before: seq<Listed>, one: Listed, after: seq<Listed>)
    requires !Unresolved(one.status)
    ensures CancelPass(s, now, owner, before + [one] + after) == CancelPass(s, now, owner, before + after)
    decreases |before|
  {
    var whole, rest := before + [one] + after, before + after;
    if before == [] {
      assert whole[0] == one && whole[1..] == rest;
    } else {
      assert whole[0] == rest[0] && whole[1..] == before[1..] + [one] + after && rest[1..] == before[1..] + after;
      forall t: Server ensures CancelPass(t, now, owner, whole[1..]) == CancelPass(t, now, owner, rest[1..]) {
        CancelPassSkips(t, now, owner, before[1..], one, after);
      }
    }
  }

  lemma {:induction false} ReconcilePassSkips(s: Server, now: nat, before: seq<Listed>, one: Listed, after: seq<Listed>)
    requires !Unresolved(one.status)
    ensures ReconcilePass(s, now, before + [one] + after) == ReconcilePass(s, now, before + after)
    decreases |before|
  {
    var whole, rest := before + [one] + after, before + after;
    if before == [] {
      assert whole[0] == one && whole[1..] == rest;
    } else {
      assert whole[0] == rest[0] && whole[1..] == before[1..] + [one] + after && rest[1..] == before[1..] + after;
      forall t: Server ensures ReconcilePass(t, now, whole[1..]) == ReconcilePass(t, now, rest[1..]) {
        ReconcilePassSkips(t, now, before[1..], one, after);
      }
    }
  }

  /** A job that is not cancelling any more behind the loop is left alone. */
  lemma AcknowledgesOnlyCancelling(s: Server, now: nat, owner: Credentials, listing: seq<Listed>, note: CancelNote)
    requires CancelPass(s, now, owner, listing).server.state != CancelRequested
    ensures CancelWhole(s, now, owner, listing, note) == Walk(CancelPass(s, now, owner, listing).server, true)
  {}

  /** The cancellation evidence can be stored, or was stored by this very attempt. */
  predicate NoteWelcome(s: Server, note: CancelNote, attempt: nat) {
    if note.evidence in s.evidence then
      && s.evidence[note.evidence].contentSha == note.sha && s.evidence[note.evidence].attempt == Some(attempt)
      && Collides(s.evidence[note.evidence], note.entityType, note.target)
      && s.evidence[note.evidence].outcome == CancelledOutcome
    else
      forall id :: id in s.evidence ==> !Collides(s.evidence[id], note.entityType, note.target)
  }

  lemma AcknowledgeExactly(s: Server, now: nat, owner: Credentials, note: CancelNote)
    requires HoldsLease(s, owner, now) && !HasUnsafe(s)
    ensures
      var p := Acknowledge(s, now, owner, note);
      && (p.raised <==> !NoteWelcome(s, note, owner.attempt))
      && (!p.raised ==> p.server.state == Cancelled && p.server.terminalEvidence == Some(note.evidence))
  {
    var current := owner.(version := s.version);
    var recorded := Try(s, now, IngestEvidence(current, note.evidence, NoteEvidence(note)));
    assert recorded.server.operations == s.operations;
    assert !HasUnsafe(recorded.server);
  }

  /** Without the lease the loop never ends the job: it keeps cancelling under whoever holds it. */
  lemma {:induction false} CancelPassWithoutLease(s: Server, now: nat, owner: Credentials, listing: seq<Listed>)
    requires Accurate(s, listing) && s.state == CancelRequested && !HoldsLease(s, owner, now)
    ensures
      var p := CancelPass(s, now, owner, listing);
      p.raised || (p.server.state == CancelRequested && !HoldsLease(p.server, owner, now))
    decreases |listing|
  {
    if listing != [] {
      var head, rest := listing[0], listing[1..];
      assert forall k :: 0 <= k < |rest| ==> rest[k] == listing[k + 1];
      assert forall k :: 1 <= k < |listing| ==> listing[k] == rest[k - 1];
      assert !Mentions(rest, head.op);
      if head.status == InFlight || head.status == UnknownOutcome {
        SettleOneExactly(s, now, head.op);
        var one := SettleOne(s, now, head.op);
        if !one.raised {
          CancelPassWithoutLease(one.server, now, owner, rest);
        }
      } else if head.status != Prepared {
        CancelPassWithoutLease(s, now, owner, rest);
      }
    }
  }

  lemma AcknowledgeWithoutLease(s: Server, now: nat, owner: Credentials, note: CancelNote)
    requires s.state == CancelRequested && !HoldsLease(s, owner, now)
    ensures Acknowledge(s, now, owner, note).raised
  {}

  /** The whole cancellation path over the full operation list: it ends in CANCELLED
      exactly when the worker still holds the lease, no operation blocks the loop and
      the cancellation evidence is not already taken; otherwise the worker raises. */
  lemma CancelWholeExactly(s: Server, now: nat, owner: Credentials, listing: seq<Listed>, note: CancelNote)
    requires s.state == CancelRequested && Accurate(s, listing) && owner.version <= s.version
    requires forall op :: op in s.operations ==> Mentions(listing, op)
    ensures
      var p := CancelWhole(s, now, owner, listing, note);
      && (!p.raised <==>
            && HoldsLease(s, owner, now) && NoteWelcome(s, note, owner.attempt)
            && forall k :: 0 <= k < |listing| ==> !Blocks(s, owner, listing, k))
      && (!p.raised ==> p.server.state == Cancelled && p.server.terminalEvidence == Some(note.evidence))
  {
    if HoldsLease(s, owner, now) {
      HeldCancel(s, now, owner, listing, note);
    } else {
      CancelPassWithoutLease(s, now, owner, listing);
      var p := CancelPass(s, now, owner, listing);
      if !p.raised {
        AcknowledgeWithoutLease(p.server, now, owner, note);
      }
    }
  }

  lemma HeldCancel(s: Server, now: nat, owner: Credentials, listing: seq<Listed>, note: CancelNote)
    requires Accurate(s, listing) && HoldsLease(s, owner, now) && owner.version <= s.version
    requires forall op :: op in s.operations ==> Mentions(listing, op)
    ensures
      var p := CancelWhole(s, now, owner, listing, note);
      && (p.raised <==> (exists k :: 0 <= k < |listing| && Blocks(s, owner, listing, k)) || !NoteWelcome(s, note, owner.attempt))
      && (!p.raised ==> p.server.state == Cancelled && p.server.terminalEvidence == Some(note.evidence))
  {
    CancelPassExactly(s, now, owner, listing);
    var p := CancelPass(s, now, owner, listing);
    if !p.raised {
      forall op | op in p.server.operations ensures !Unresolved(p.server.operations[op].status) {
        assert StatusOf(p.server, op).Some?;
        assert Mentions(listing, op);
      }
      AcknowledgeExactly(p.server, now, owner, note);
    }
  }

  /** The tuple that was valid when the cancellation was requested is outdated by
      it, so a worker that has not renewed its lease since cannot withdraw a
      prepared operation and raises. */
  lemma CancelOutdatesItsWorker(s: Server, t0: nat, now: nat, owner: Credentials, request: Request, listing: seq<Listed>, k: int)
    requires request.Cancel? && Owns(s, owner, t0) && s.state != CancelRequested
    requires now < s.active.value.expires
    requires Accurate(Next(s, t0, request), listing) && 0 <= k < |listing| && listing[k].status == Prepared
    ensures CancelPass(Next(s, t0, request), now, owner, listing).raised
  {
    var t := Next(s, t0, request);
    assert t.version == s.version + 1;
    assert Blocks(t, owner, listing, k);
    CancelPassExactly(t, now, owner, listing);
  }
}
