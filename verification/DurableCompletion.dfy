/**
 Which jobs restarted workers can still complete, over every interleaving: the
 exact condition, with the interleaving that completes the job wherever there is one.
 */
module DurableCompletion {
  import opened Wrappers
  import opened ControlPlane
  import opened ExecutionSafety
  import opened ExecutionRuns
  import opened ExecutionFencing
  import opened ExecutionLiveness
  import opened ExecutionCompletion
  import opened DurableWorld
  import opened DurableTurns

  predicate Timely(m: Move, now: nat) {
    match m
    case Act(_, t, _, _) => now <= t
    case Renew(_, t, _) => now <= t
    case Close(_, t, _) => now <= t
    case Outside(t, _) => now <= t
    case _ => true
  }

  ghost predicate AllTimely(moves: seq<Move>, now: nat) {
    forall i :: 0 <= i < |moves| ==> Timely(moves[i], now)
  }

  /** Some interleaving from here, with no request earlier than `now`, completes the job. */
  ghost predicate WorldCanComplete(job: Job, w: World, now: nat) {
    exists moves: seq<Move> :: AllTimely(moves, now) && DoAll(job, w, moves).server.state == Completed
  }

  /** No attempt is under way: every worker has stopped or is looking for work. */
  ghost predicate Restarted(w: World) {
    forall i :: 0 <= i < |w.workers| ==> Idle(w.workers[i].phase)
  }

  predicate Idle(phase: Phase) {
    phase == ToClaim || phase == Stopped
  }

  /** The artifact registered for the evaluation. */
  predicate Registers(job: Job, s: Server, r: ArtifactRef) {
    (job.entityType, job.evaluation) in s.registry && s.registry[(job.entityType, job.evaluation)] == r
  }

  /** A worker of this job would register exactly this for some content. */
  predicate Derived(job: Job, r: ArtifactRef) {
    r.contentSha.Some? && r == RefOf(job, r.contentSha.value)
  }

  /** ... and for the content of the evaluation file, if there is one. */
  predicate FitsFile(job: Job, r: ArtifactRef, file: Option<Id>) {
    Derived(job, r) && (file.Some? ==> file == r.contentSha)
  }

  ghost predicate EntityFree(job: Job, s: Server) {
    forall id :: id in s.evidence ==> !Collides(s.evidence[id], job.entityType, job.evaluation)
  }

  /** What a restarted worker finds in its way, if anything. */
  ghost predicate Passable(job: Job, w: World, now: nat) {
    && w.workers != [] && !Terminal(w.server.state) && !Wedged(w.server, now)
    && job.evidence !in w.server.evidence && EntityFree(job, w.server) && SameFingerprint(job, w.server)
    && forall r :: Registers(job, w.server, r) ==> FitsFile(job, r, w.file)
  }

  // ---------------------------------------------------------------- a way to completion

  lemma WorldStep(job: Job, w: World, now: nat, m: Move)
    requires Timely(m, now) && WorldCanComplete(job, Do(job, w, m), now)
    ensures WorldCanComplete(job, w, now)
  {
    var moves: seq<Move> :| AllTimely(moves, now) && DoAll(job, Do(job, w, m), moves).server.state == Completed;
    var all := [m] + moves;
    assert all[1..] == moves;
    assert AllTimely(all, now);
  }

  lemma WorldDone(job: Job, w: World, now: nat)
    requires w.server.state == Completed
    ensures WorldCanComplete(job, w, now)
  {
    assert DoAll(job, w, []) == w && AllTimely([], now);
  }

  /** What the last leg needs of the tables it started from and of the content. */
  ghost predicate Clear(job: Job, base: Server, sha: Id) {
    && job.evidence !in base.evidence && EntityFree(job, base)
    && SlotFits(base.registry, EvidenceOf(job, sha))
  }

  lemma FromConfirm(job: Job, w: World, i: nat, now: nat, status: OperationStatus, base: Server)
    requires Working(job, w, i, now, ToConfirm, Some(status), base) && (status == InFlight || status == Confirmed)
    requires w.file.Some? && Clear(job, base, w.file.value)
    ensures WorldCanComplete(job, w, now)
  {
    var m := Turn(i, now, 0);
    ConfirmTurn(job, w, i, now, status, base);
    var u := Do(job, w, m);
    RegisterTurn(job, u, i, now, base);
    FromSubmit(job, Do(job, u, m), i, now, base);
    WorldStep(job, u, now, m);
    WorldStep(job, w, now, m);
  }

  lemma FromSubmit(job: Job, w: World, i: nat, now: nat, base: Server)
    requires Working(job, w, i, now, ToSubmit, Some(Confirmed), base) && w.file.Some?
    requires BoundToRegistry(w.server.registry, EvidenceOf(job, w.file.value)) && Clear(job, base, w.file.value)
    ensures WorldCanComplete(job, w, now)
  {
    var m := Turn(i, now, 0);
    SubmitTurn(job, w, i, now, base);
    var u := Do(job, w, m);
    CompleteTurn(job, u, i, now);
    WorldDone(job, Do(job, u, m), now);
    WorldStep(job, u, now, m);
    WorldStep(job, w, now, m);
  }

  /** The content this attempt will submit: the file's, or what it chooses to write. */
  predicate Content(w: World, sha: Id) {
    w.file.Some? ==> w.file.value == sha
  }

  lemma FromRecheck(job: Job, w: World, i: nat, now: nat, status: OperationStatus, base: Server, sha: Id)
    requires Working(job, w, i, now, ToRecheck, Some(status), base) && (status == InFlight || status == Confirmed)
    requires Content(w, sha) && Clear(job, base, sha)
    ensures WorldCanComplete(job, w, now)
  {
    var m := Turn(i, now, 0);
    RecheckTurn(job, w, i, now, status, base);
    var u := Do(job, w, m);
    LookTurn(job, u, i, now, status, base);
    var v := Do(job, u, m);
    if w.file.None? {
      FinishTurn(job, v, i, now, status, base, sha);
      FromConfirm(job, Do(job, v, Turn(i, now, sha)), i, now, status, base);
      WorldStep(job, v, now, Turn(i, now, sha));
    } else {
      FromConfirm(job, v, i, now, status, base);
    }
    WorldStep(job, u, now, m);
    WorldStep(job, w, now, m);
  }

  lemma FromInspect(job: Job, w: World, i: nat, now: nat, status: OperationStatus, base: Server, sha: Id)
    requires Working(job, w, i, now, ToInspect, Some(status), base) && (Dispatchable(status) || status == Confirmed)
    requires Content(w, sha) && Clear(job, base, sha)
    ensures WorldCanComplete(job, w, now)
  {
    var m := Turn(i, now, 0);
    InspectTurn(job, w, i, now, status, base);
    var u := Do(job, w, m);
    if Dispatchable(status) {
      ReviewTurn(job, u, i, now, status, base);
      var v := Do(job, u, m);
      DispatchTurn(job, v, i, now, status, base);
      FromRecheck(job, Do(job, v, m), i, now, InFlight, base, sha);
      WorldStep(job, v, now, m);
      WorldStep(job, u, now, m);
    } else {
      FromRecheck(job, u, i, now, status, base, sha);
    }
    WorldStep(job, w, now, m);
  }

  lemma FromOpen(job: Job, w: World, i: nat, now: nat, status: Option<OperationStatus>, base: Server, sha: Id)
    requires Working(job, w, i, now, ToOpen, status, base)
    requires status.Some? ==> Dispatchable(status.value) || status.value == Confirmed
    requires Content(w, sha) && Clear(job, base, sha)
    ensures WorldCanComplete(job, w, now)
  {
    var m := Turn(i, now, 0);
    OpenTurn(job, w, i, now, status, base);
    var u := Do(job, w, m);
    PrepareTurn(job, u, i, now, status, base);
    FromInspect(job, Do(job, u, m), i, now, if status.None? then Prepared else status.value, base, sha);
    WorldStep(job, u, now, m);
    WorldStep(job, w, now, m);
  }

  /** A worker that finds a queued job with nothing unresolved can take it to the end. */
  lemma FromClaim(job: Job, w: World, i: nat, now: nat, sha: Id)
    requires Claimable(job, w, i) && job.lease >= 1 && !HasUnsafe(w.server)
    requires Content(w, sha) && Clear(job, w.server, sha)
    ensures WorldCanComplete(job, w, now)
  {
    var m, status := Turn(i, now, 0), StatusOf(w.server, job.operation);
    ClaimTurn(job, w, i, now);
    var u := Do(job, w, m);
    StartTurn(job, u, i, now, status, w.server);
    assert status.Some? ==> !Unresolved(status.value);
    FromOpen(job, Do(job, u, m), i, now, status, w.server, sha);
    WorldStep(job, u, now, m);
    WorldStep(job, w, now, m);
  }

  /** A run of neutral requests, sent by somebody else. */
  lemma {:induction false} OutsideRun(job: Job, w: World, now: nat, steps: seq<Step>)
    requires AllNeutral(steps, now) && WorldCanComplete(job, w.(server := Run(w.server, steps)), now)
    ensures WorldCanComplete(job, w, now)
    decreases |steps|
  {
    if steps == [] {
      assert w.(server := w.server) == w;
    } else {
      var m := Outside(now, steps[0].request);
      assert Neutral(steps[0].request);
      assert Do(job, w, m) == w.(server := Next(w.server, now, steps[0].request));
      assert forall i :: 0 <= i < |steps[1..]| ==> steps[1..][i] == steps[i + 1];
      OutsideRun(job, Do(job, w, m), now, steps[1..]);
      WorldStep(job, w, now, m);
    }
  }

  /** A content whose reference fits the registry and the file. */
  lemma FittingContent(job: Job, w: World) returns (sha: Id)
    requires forall r :: Registers(job, w.server, r) ==> FitsFile(job, r, w.file)
    ensures Content(w, sha) && SlotFits(w.server.registry, EvidenceOf(job, sha))
  {
    var key := (job.entityType, job.evaluation);
    if key in w.server.registry {
      var r := w.server.registry[key];
      assert Registers(job, w.server, r);
      sha := r.contentSha.value;
    } else {
      sha := if w.file.Some? then w.file.value else 0;
    }
  }

  lemma PassableCompletes(job: Job, w: World, now: nat)
    requires job.lease >= 1 && Inv(w.server) && PausedInv(w.server) && Restarted(w) && Passable(job, w, now)
    ensures WorldCanComplete(job, w, now)
  {
    var steps := Requeue(w.server, now, job.operation);
    var t := Run(w.server, steps);
    var sha := FittingContent(job, w);
    var queued := w.(server := t);
    assert Clear(job, t, sha);
    UnsafeExactly(t);
    assert Idle(w.workers[0].phase);
    var awake := if w.workers[0].phase == Stopped then Do(job, queued, Restart(0, 0)) else queued;
    assert forall op :: op in t.operations ==> !Unresolved(t.operations[op].status);
    FromClaim(job, awake, 0, now, sha);
    if w.workers[0].phase == Stopped {
      WorldStep(job, queued, now, Restart(0, 0));
    }
    OutsideRun(job, w, now, steps);
  }

  // ---------------------------------------------------------------- what blocks every interleaving

  lemma MoveKeeps(job: Job, w: World, m: Move)
    requires Inv(w.server)
    ensures Inv(Do(job, w, m).server) && Grows(w.server, Do(job, w, m).server)
  {
    SentOne(job, w, m);
    var sent := Sent(job, w, m);
    if sent != [] {
      assert sent[1..] == [];
      assert Do(job, w, m).server == Next(w.server, sent[0].now, sent[0].request);
      InvStep(w.server, sent[0].now, sent[0].request);
      GrowsStep(w.server, sent[0].now, sent[0].request);
    }
  }

  /** Only a worker that is about to complete completes. */
  lemma CompletionMove(job: Job, w: World, m: Move)
    requires w.server.state != Completed && Do(job, w, m).server.state == Completed
    ensures m.Act? && m.worker < |w.workers| && w.workers[m.worker].phase == ToComplete
    ensures Completable(w.server, m.now, w.workers[m.worker].owner, job.evidence, true)
  {
    SentOne(job, w, m);
    var sent := Sent(job, w, m);
    assert sent != [] && sent[1..] == [];
    assert Do(job, w, m).server == Next(w.server, sent[0].now, sent[0].request);
    CompletedExactly(w.server, sent[0].now, sent[0].request);
  }

  /** What an ingest that stores something stores, and when it does. */
  lemma IngestStores(s: Server, now: nat, c: Credentials, id: Id, body: Evidence)
    requires id !in s.evidence && id in Next(s, now, IngestEvidence(c, id, body)).evidence
    ensures forall i :: i in s.evidence ==> !Collides(s.evidence[i], body.entityType, body.entityId)
    ensures
      var e := Next(s, now, IngestEvidence(c, id, body)).evidence[id];
      e == body.(attempt := e.attempt)
  {}

  lemma StoringRequest(job: Job, s: Server, now: nat, r: Request)
    requires job.evidence !in s.evidence && job.evidence in Next(s, now, r).evidence
    ensures r.IngestEvidence? && r.evidenceId == job.evidence
  {
    if r.IngestEvidence? {
      if r.evidenceId != job.evidence {
        OtherIngest(job, s, now, r.c, r.evidenceId, r.body);
      }
    } else if !r.RegisterArtifact? {
      FactsOnlyStored(s, now, r);
    }
  }

  lemma OtherIngest(job: Job, s: Server, now: nat, c: Credentials, id: Id, body: Evidence)
    requires job.evidence !in s.evidence && id != job.evidence
    ensures job.evidence !in Next(s, now, IngestEvidence(c, id, body)).evidence
  {}

  /** Only a worker that is about to submit stores the job's evidence: for the
      file's content, and for an entity no other evidence has. */
  lemma StoringMove(job: Job, w: World, m: Move)
    requires job.evidence !in w.server.evidence && job.evidence in Do(job, w, m).server.evidence
    ensures m.Act? && m.worker < |w.workers| && w.workers[m.worker].phase == ToSubmit && w.file.Some?
    ensures EntityFree(job, w.server)
    ensures
      var e := Do(job, w, m).server.evidence[job.evidence];
      e.entityType == job.entityType && e.entityId == job.evaluation && e.artifact == RefOf(job, w.file.value)
  {
    SentOne(job, w, m);
    var sent := Sent(job, w, m);
    assert sent != [] && sent[1..] == [];
    var now, r := sent[0].now, sent[0].request;
    assert Do(job, w, m).server == Next(w.server, now, r);
    StoringRequest(job, w.server, now, r);
    IngestStores(w.server, now, r.c, job.evidence, r.body);
    SubmitsFile(job, w, m);
  }

  /** The job's evidence is only ever sent by a worker that submits the file's content. */
  lemma SubmitsFile(job: Job, w: World, m: Move)
    requires Sent(job, w, m) != []
    requires
      var r := Sent(job, w, m)[0].request;
      r.IngestEvidence? && r.evidenceId == job.evidence
    ensures m.Act? && m.worker < |w.workers| && w.workers[m.worker].phase == ToSubmit && w.file.Some?
    ensures Sent(job, w, m)[0].request.body == EvidenceOf(job, w.file.value)
  {}

  /** The states no request leaves. */
  ghost predicate Stuck(s: Server, now: nat) {
    s.state != Completed && (Terminal(s.state) || Wedged(s, now))
  }

  lemma StuckMove(job: Job, w: World, now: nat, m: Move)
    requires Inv(w.server) && Stuck(w.server, now) && Timely(m, now)
    ensures Stuck(Do(job, w, m).server, now)
  {
    SentOne(job, w, m);
    var sent := Sent(job, w, m);
    if sent != [] {
      assert sent[1..] == [];
      assert Do(job, w, m).server == Next(w.server, sent[0].now, sent[0].request);
      if Terminal(w.server.state) {
        TerminalStep(w.server, sent[0].now, sent[0].request);
      } else {
        WedgedStep(w.server, sent[0].now, sent[0].request);
      }
    }
  }

  /** The evidence is stored and no worker holds the attempt that stored it. */
  ghost predicate Spent(job: Job, w: World) {
    Orphaned(w.server, job.evidence) || (job.evidence in w.server.evidence && Restarted(w))
  }

  lemma SpentMove(job: Job, w: World, m: Move)
    requires Inv(w.server) && Spent(job, w) && w.server.state != Completed
    ensures Spent(job, Do(job, w, m)) && Do(job, w, m).server.state != Completed
  {
    MoveKeeps(job, w, m);
    var u := Do(job, w, m);
    if u.server.state == Completed {
      CompletionMove(job, w, m);
    } else if !Orphaned(u.server, job.evidence) {
      RestartedMove(job, w, m);
    }
  }

  /** A worker looking for work goes on only with a grant. */
  lemma RestartedMove(job: Job, w: World, m: Move)
    requires Inv(w.server) && Restarted(w) && job.evidence in w.server.evidence && !Orphaned(Do(job, w, m).server, job.evidence)
    ensures Restarted(Do(job, w, m))
  {
    MoveKeeps(job, w, m);
    if m.Act? && m.worker < |w.workers| {
      assert Idle(w.workers[m.worker].phase);
      var claim := Claim(w.workers[m.worker].name, m.choice, job.lease);
      if w.workers[m.worker].phase == ToClaim && Handle(w.server, m.now, claim).response == Granted {
        ReclaimOrphansEvidence(w.server, m.now, claim, job.evidence);
      }
    }
  }

  /** Other evidence has the entity. */
  ghost predicate EntityTaken(job: Job, s: Server) {
    job.evidence !in s.evidence && !EntityFree(job, s)
  }

  lemma EntityTakenMove(job: Job, w: World, m: Move)
    requires Inv(w.server) && EntityTaken(job, w.server) && w.server.state != Completed
    ensures EntityTaken(job, Do(job, w, m).server) && Do(job, w, m).server.state != Completed
  {
    MoveKeeps(job, w, m);
    var u := Do(job, w, m);
    if u.server.state == Completed {
      CompletionMove(job, w, m);
    }
    if job.evidence in u.server.evidence {
      StoringMove(job, w, m);
    }
    var id :| id in w.server.evidence && Collides(w.server.evidence[id], job.entityType, job.evaluation);
    assert id in u.server.evidence && u.server.evidence[id] == w.server.evidence[id];
  }

  predicate Early(phase: Phase) {
    phase == ToClaim || phase == ToStart || phase == ToOpen || phase == ToPrepare || phase == Closing || phase == Stopped
  }

  /** The operation was prepared with another fingerprint, and no worker is past that check. */
  ghost predicate Misprinted(job: Job, w: World) {
    !SameFingerprint(job, w.server) && forall i :: 0 <= i < |w.workers| ==> Early(w.workers[i].phase)
  }

  lemma MisprintedMove(job: Job, w: World, m: Move)
    requires Inv(w.server) && Misprinted(job, w) && w.server.state != Completed
    ensures Misprinted(job, Do(job, w, m)) && Do(job, w, m).server.state != Completed
  {
    MoveKeeps(job, w, m);
    var u := Do(job, w, m);
    if u.server.state == Completed {
      CompletionMove(job, w, m);
    }
    EarlyMove(job, w, m);
  }

  lemma EarlyMove(job: Job, w: World, m: Move)
    requires Misprinted(job, w)
    ensures forall i :: 0 <= i < |Do(job, w, m).workers| ==> Early(Do(job, w, m).workers[i].phase)
  {
    if m.Act? && m.worker < |w.workers| {
      EarlyTurn(job, w, m.worker, m.now, m.lost, m.choice);
    }
  }

  lemma EarlyTurn(job: Job, w: World, i: nat, now: nat, lost: bool, choice: Id)
    requires Misprinted(job, w) && i < |w.workers|
    ensures
      var u := Do(job, w, Act(i, now, lost, choice));
      |u.workers| == |w.workers| && Early(u.workers[i].phase) && OthersWait(w, u, i)
  {
    assert Early(w.workers[i].phase);
  }

  /** Another artifact is registered than any that is, or can still be, derived from the file. */
  ghost predicate Mismatched(job: Job, w: World, r: ArtifactRef) {
    && Registers(job, w.server, r)
    && (Derived(job, r) ==> w.file.Some? && !SomebodyRunning(w) && w.file != r.contentSha)
    && (job.evidence in w.server.evidence ==>
          var e := w.server.evidence[job.evidence];
          e.entityType == job.entityType && e.entityId == job.evaluation && e.artifact != r)
  }

  lemma MismatchedMove(job: Job, w: World, m: Move, r: ArtifactRef)
    requires Inv(w.server) && Mismatched(job, w, r) && w.server.state != Completed
    ensures Mismatched(job, Do(job, w, m), r) && Do(job, w, m).server.state != Completed
  {
    MoveKeeps(job, w, m);
    var u := Do(job, w, m);
    if u.server.state == Completed {
      CompletionMove(job, w, m);
    }
    if Derived(job, r) {
      QuietMove(job, w, m);
    }
    if job.evidence !in w.server.evidence && job.evidence in u.server.evidence {
      StoringMove(job, w, m);
      assert RefOf(job, w.file.value) == r ==> Derived(job, r);
    }
  }

  lemma NobodyMove(job: Job, w: World, m: Move)
    requires w.workers == [] && w.server.state != Completed
    ensures Do(job, w, m).workers == [] && Do(job, w, m).server.state != Completed
  {
    if Do(job, w, m).server.state == Completed {
      CompletionMove(job, w, m);
    }
  }

  /** Everything that keeps restarted workers from completing the job for good. */
  ghost predicate Blocked(job: Job, w: World, now: nat) {
    && w.server.state != Completed
    && (|| w.workers == [] || Stuck(w.server, now) || Spent(job, w) || EntityTaken(job, w.server) || Misprinted(job, w)
        || exists r :: Mismatched(job, w, r))
  }

  lemma BlockedMove(job: Job, w: World, now: nat, m: Move)
    requires Inv(w.server) && Blocked(job, w, now) && Timely(m, now)
    ensures Inv(Do(job, w, m).server) && Blocked(job, Do(job, w, m), now)
  {
    MoveKeeps(job, w, m);
    if w.workers == [] {
      NobodyMove(job, w, m);
    } else if Stuck(w.server, now) {
      StuckMove(job, w, now, m);
    } else if Spent(job, w) {
      SpentMove(job, w, m);
    } else if EntityTaken(job, w.server) {
      EntityTakenMove(job, w, m);
    } else if Misprinted(job, w) {
      MisprintedMove(job, w, m);
    } else {
      var r :| Mismatched(job, w, r);
      MismatchedMove(job, w, m, r);
    }
  }

  lemma {:induction false} BlockedForever(job: Job, w: World, now: nat, moves: seq<Move>)
    requires Inv(w.server) && Blocked(job, w, now) && AllTimely(moves, now)
    ensures DoAll(job, w, moves).server.state != Completed
    decreases |moves|
  {
    if moves != [] {
      assert Timely(moves[0], now);
      BlockedMove(job, w, now, moves[0]);
      assert forall i :: 0 <= i < |moves[1..]| ==> moves[1..][i] == moves[i + 1];
      BlockedForever(job, Do(job, w, moves[0]), now, moves[1..]);
    }
  }

  lemma ImpassableIsBlocked(job: Job, w: World, now: nat)
    requires Restarted(w) && w.server.state != Completed && !Passable(job, w, now)
    ensures Blocked(job, w, now)
  {
    if w.workers != [] && !Stuck(w.server, now) && !Spent(job, w) && !EntityTaken(job, w.server) {
      if SameFingerprint(job, w.server) {
        var r :| Registers(job, w.server, r) && !FitsFile(job, r, w.file);
        forall i ensures !DurableWorld.Running(w, i) {
          assert 0 <= i < |w.workers| ==> Idle(w.workers[i].phase);
        }
        assert Mismatched(job, w, r);
      } else {
        forall i | 0 <= i < |w.workers| ensures Early(w.workers[i].phase) {
          assert Idle(w.workers[i].phase);
        }
      }
    }
  }

  /** After a crash and a restart of all workers the job can still be completed
      exactly when it already is, or when there is a worker, the job is neither
      terminal nor wedged, its evidence id and its entity are free, its operation is
      new or carries the same fingerprint, and nothing is registered for the
      evaluation but what a worker derives from the file, or from some content while
      there is no file. */
  lemma RestartedCompletesExactly(job: Job, w: World, now: nat)
    requires job.lease >= 1 && Inv(w.server) && PausedInv(w.server) && Restarted(w)
    ensures WorldCanComplete(job, w, now) <==> w.server.state == Completed || Passable(job, w, now)
  {
    if w.server.state == Completed {
      WorldDone(job, w, now);
    } else if Passable(job, w, now) {
      PassableCompletes(job, w, now);
    } else {
      ImpassableIsBlocked(job, w, now);
      forall moves: seq<Move> | AllTimely(moves, now) ensures DoAll(job, w, moves).server.state != Completed {
        BlockedForever(job, w, now, moves);
      }
    }
  }

  /** Whatever interleaving came before: once all workers are down or looking for
      work again, the same condition decides whether the job can be completed. */
  lemma ReachedCompletesExactly(job: Job, start: World, moves: seq<Move>, now: nat)
    requires job.lease >= 1 && Initial(start) && Restarted(DoAll(job, start, moves))
    ensures
      var w := DoAll(job, start, moves);
      WorldCanComplete(job, w, now) <==> w.server.state == Completed || Passable(job, w, now)
  {
    WorldRefinesRun(job, start, moves);
    Reachable([]);
    Reachable(AllSent(job, start, moves));
    PausedRun(SUBMITTED, AllSent(job, start, moves));
    RestartedCompletesExactly(job, DoAll(job, start, moves), now);
  }
}
