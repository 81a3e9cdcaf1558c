/**
 The program of an evaluation worker, move by move: when it goes on to each of its
 steps, which tuple it then holds, what it sends, and what a move changes besides.
 */
module DurableSteps {
  import opened Wrappers
  import opened ControlPlane
  import opened ExecutionSafety
  import opened ExecutionRuns
  import opened DurableWorld

  /** The request is done, or was done before, and the answer arrives. */
  ghost predicate GoesThrough(w: World, now: nat, lost: bool, r: Request) {
    !lost && (Handle(w.server, now, r).response == Done || Handle(w.server, now, r).response == Replayed)
  }

  ghost predicate StillToSubmit(job: Job, w: World) {
    StatusOf(w.server, job.operation) == Some(Prepared) || StatusOf(w.server, job.operation) == Some(NotSubmitted)
  }

  /** The server has an artifact for the evaluation whose content is that of the file. */
  ghost predicate HasArtifact(job: Job, s: Server, file: Option<Id>) {
    && file.Some? && (job.entityType, job.evaluation) in s.registry
    && s.registry[(job.entityType, job.evaluation)].contentSha == file
  }

  /** What has to hold for worker `i` to be at this step behind its next action. */
  ghost predicate GoesOnTo(job: Job, w: World, i: nat, now: nat, lost: bool, choice: Id, next: Phase)
    requires i < |w.workers|
  {
    var at, c, cancelling := w.workers[i].phase, w.workers[i].owner, w.server.state == CancelRequested;
    match next
    case ToStart => at == ToClaim && !lost && Handle(w.server, now, Claim(w.workers[i].name, choice, job.lease)).response == Granted
    case ToOpen => at == ToStart && GoesThrough(w, now, lost, Start(c))
    case ToPrepare => at == ToOpen && !lost && !cancelling
    case ToInspect => at == ToPrepare && GoesThrough(w, now, lost, Prepare(c, job.operation, job.environment, job.fingerprint))
    case ToReview => at == ToInspect && !lost && StillToSubmit(job, w)
    case ToDispatch => at == ToReview && !lost && !cancelling
    case ToRecheck =>
      || (at == ToInspect && !lost && !StillToSubmit(job, w))
      || (at == ToDispatch && GoesThrough(w, now, lost, Dispatch(c, job.operation)))
    case ToLookForFile => at == ToRecheck && !lost && !cancelling
    case AgentRunning => at == ToLookForFile && w.file.None?
    case ToConfirm => at == AgentRunning || (at == ToLookForFile && w.file.Some?)
    case ToRegister => at == ToConfirm && GoesThrough(w, now, lost, Confirm(c, job.operation, Some(job.evaluation)))
    case ToSubmit =>
      && at == ToRegister && w.file.Some?
      && (var r := RegisterArtifact(job.entityType, job.evaluation, RefOf(job, w.file.value));
          GoesThrough(w, now, lost, r) || (lost && HasArtifact(job, Next(w.server, now, r), w.file)))
    case ToComplete =>
      && at == ToSubmit && w.file.Some?
      && GoesThrough(w, now, lost, IngestEvidence(c, job.evidence, EvidenceOf(job, w.file.value)))
    case Closing => (at == ToOpen || at == ToReview || at == ToRecheck) && !lost && cancelling
    case Stopped => at == Stopped
    case ToClaim => false
  }

  /** Behind its next action a worker is at a step exactly when it may go on to it; in
      all other cases it looks for work again. */
  lemma ActExactly(job: Job, w: World, i: nat, now: nat, lost: bool, choice: Id, next: Phase)
    requires i < |w.workers|
    ensures
      var u := Do(job, w, Act(i, now, lost, choice));
      && |u.workers| == |w.workers|
      && (next != ToClaim ==> (u.workers[i].phase == next <==> GoesOnTo(job, w, i, now, lost, choice, next)))
  {
    if Intent(job, w, i, choice).Some? {
      SendingExactly(job, w, i, now, lost, choice, next);
    } else {
      LookingExactly(job, w, i, now, lost, choice, next);
    }
  }

  lemma SendingExactly(job: Job, w: World, i: nat, now: nat, lost: bool, choice: Id, next: Phase)
    requires i < |w.workers| && Intent(job, w, i, choice).Some?
    ensures
      var answer := Handle(w.server, now, Intent(job, w, i, choice).value);
      var u := Resume(job, w, i, choice, answer, lost);
      && |u.workers| == |w.workers|
      && (next != ToClaim ==> (u.workers[i].phase == next <==> GoesOnTo(job, w, i, now, lost, choice, next)))
  {}

  lemma LookingExactly(job: Job, w: World, i: nat, now: nat, lost: bool, choice: Id, next: Phase)
    requires i < |w.workers| && Intent(job, w, i, choice).None?
    ensures
      var u := Look(job, w, i, lost, choice);
      && |u.workers| == |w.workers|
      && (next != ToClaim ==> (u.workers[i].phase == next <==> GoesOnTo(job, w, i, now, lost, choice, next)))
  {}

  /** Other moves change a worker's step in three ways: a crash stops it, a restart
      sends a stopped one to look for work, and a failing Agent run sends it to the
      failure path. */
  lemma EventExactly(job: Job, w: World, m: Move, i: nat)
    requires i < |w.workers| && !m.Act?
    ensures
      var u, at := Do(job, w, m), w.workers[i].phase;
      && |u.workers| == |w.workers|
      && u.workers[i].phase
         == (if m == Crash(i) then Stopped
             else if m.Restart? && m.worker == i && at == Stopped then ToClaim
             else if m == AgentRaises(i) && at == AgentRunning then Closing
             else at)
      && u.workers[i].name == (if m.Restart? && m.worker == i && at == Stopped then m.name else w.workers[i].name)
  {}

  /** A move of one worker leaves every other worker alone. */
  lemma OthersStay(job: Job, w: World, m: Move, i: nat)
    requires i < |w.workers| && (m.Close? || m.Outside? || m.worker != i)
    ensures |Do(job, w, m).workers| == |w.workers| && Do(job, w, m).workers[i] == w.workers[i]
  {}

  /** The tuple a worker holds: that of the claim it was granted, under the version of
      the last start or renewal whose answer arrived. */
  lemma TupleExactly(job: Job, w: World, m: Move, i: nat)
    requires i < |w.workers|
    ensures
      var u, c := Do(job, w, m), w.workers[i].owner;
      && |u.workers| == |w.workers|
      && u.workers[i].owner
         == (if m.Act? && m.worker == i && GoesOnTo(job, w, i, m.now, m.lost, m.choice, ToStart)
             then Credentials(u.server.attemptNumber, w.workers[i].name, m.choice, u.server.version)
             else if || (m.Act? && m.worker == i && GoesOnTo(job, w, i, m.now, m.lost, m.choice, ToOpen))
                     || (m.Renew? && m.worker == i && !m.lost && Handle(w.server, m.now, Heartbeat(c, job.lease)).response == Done)
             then c.(version := u.server.version) else c)
  {
    if m.Act? {
      if m.worker == i {
        ActTuple(job, w, i, m.now, m.lost, m.choice);
      } else {
        OthersStay(job, w, m, i);
      }
    } else {
      EventTuple(job, w, m, i);
    }
  }

  lemma ActTuple(job: Job, w: World, i: nat, now: nat, lost: bool, choice: Id)
    requires i < |w.workers|
    ensures
      var u, c := Do(job, w, Act(i, now, lost, choice)), w.workers[i].owner;
      && |u.workers| == |w.workers|
      && u.workers[i].owner
         == (if GoesOnTo(job, w, i, now, lost, choice, ToStart)
             then Credentials(u.server.attemptNumber, w.workers[i].name, choice, u.server.version)
             else if GoesOnTo(job, w, i, now, lost, choice, ToOpen) then c.(version := u.server.version) else c)
  {}

  lemma EventTuple(job: Job, w: World, m: Move, i: nat)
    requires i < |w.workers| && !m.Act?
    ensures
      var u, c := Do(job, w, m), w.workers[i].owner;
      && |u.workers| == |w.workers|
      && u.workers[i].owner
         == (if m.Renew? && m.worker == i && !m.lost && Handle(w.server, m.now, Heartbeat(c, job.lease)).response == Done
             then c.(version := u.server.version) else c)
  {}

  /** The file is written exactly by a finishing Agent run, a run is counted exactly
      when it starts, and what is submitted is the content of the file. */
  lemma FileExactly(job: Job, w: World, m: Move)
    ensures
      var u := Do(job, w, m);
      var at := if m.Act? && m.worker < |w.workers| then Some(w.workers[m.worker].phase) else None;
      && u.file == (if at == Some(AgentRunning) then Some(m.choice) else w.file)
      && u.agentStarts == w.agentStarts + (if at == Some(ToLookForFile) && w.file.None? then 1 else 0)
      && u.submitted == w.submitted + (if at == Some(ToSubmit) && w.file.Some? then [w.file.value] else [])
  {
    assert w.submitted + [] == w.submitted;
  }

  /** What worker `i` sends at each of its steps, and that it sends nothing at others. */
  ghost predicate Sends(job: Job, w: World, i: nat, choice: Id, r: Request)
    requires i < |w.workers|
  {
    var at, c := w.workers[i].phase, w.workers[i].owner;
    match r
    case Claim(name, token, secs) => at == ToClaim && name == w.workers[i].name && token == choice && secs == job.lease
    case Start(d) => at == ToStart && d == c
    case Prepare(d, op, env, fp) =>
      at == ToPrepare && d == c && op == job.operation && env == job.environment && fp == job.fingerprint
    case Dispatch(d, op) => at == ToDispatch && d == c && op == job.operation
    case Confirm(d, op, receipt) => at == ToConfirm && d == c && op == job.operation && receipt == Some(job.evaluation)
    case RegisterArtifact(t, id, ref) =>
      at == ToRegister && w.file.Some? && t == job.entityType && id == job.evaluation && ref == RefOf(job, w.file.value)
    case IngestEvidence(d, id, body) =>
      at == ToSubmit && w.file.Some? && d == c && id == job.evidence && body == EvidenceOf(job, w.file.value)
    case Complete(d, id, readable) => at == ToComplete && d == c && id == job.evidence && readable
    case _ => false
  }

  lemma SentExactly(job: Job, w: World, i: nat, now: nat, lost: bool, choice: Id, r: Request)
    requires i < |w.workers|
    ensures Sent(job, w, Act(i, now, lost, choice)) == [Step(now, r)] <==> Sends(job, w, i, choice, r)
    ensures Sent(job, w, Act(i, now, lost, choice)) == [] ==> Do(job, w, Act(i, now, lost, choice)).server == w.server
  {}
}
