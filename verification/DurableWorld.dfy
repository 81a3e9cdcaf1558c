/**
 Evaluation workers that execute one job against the Control Plane.

 A world holds the server's tables, the evaluation file that attempts share,
 and the program position of every worker. One move is one action of one
 worker, a crash, a restart, a lease renewal or a request of somebody else, so
 a list of moves is an arbitrary interleaving; `lost` drops a response after the
 server handled the request.
 */
module DurableWorld {
  import opened Wrappers
  import opened ControlPlane
  import opened ExecutionSafety
  import opened ExecutionRuns
  import opened ExecutionFencing
  import opened ExecutionCompletion

  /** The identities every attempt derives from the job. */
  datatype Job = Job(operation: Id, environment: Id, fingerprint: Id, evidence: Id, entityType: Id, evaluation: Id, lease: nat)

  /** Where a worker stands in its program; the name says what it does next. */
  datatype Phase =
    | ToClaim | ToStart | ToOpen | ToPrepare | ToInspect | ToReview | ToDispatch | ToRecheck | ToLookForFile
    | AgentRunning | ToConfirm | ToRegister | ToSubmit | ToComplete | Closing | Stopped

  datatype Worker = Worker(name: Id, owner: Credentials, phase: Phase)

  /** `submitted` lists the content hashes workers sent as completion evidence. */
  datatype World = World(server: Server, file: Option<Id>, workers: seq<Worker>, agentStarts: nat, submitted: seq<Id>)

  datatype Move =
    | Act(worker: nat, now: nat, lost: bool, choice: Id)
    | AgentRaises(worker: nat)
    | Crash(worker: nat)
    | Restart(worker: nat, name: Id)
    | Renew(worker: nat, now: nat, lost: bool)
    | Close(worker: nat, now: nat, request: Request)
    | Outside(now: nat, request: Request)

  function Accepted(r: Response): bool {
    r == Done || r == Replayed
  }

  function At(w: World, i: nat, worker: Worker): World
    requires i < |w.workers|
  {
    w.(workers := w.workers[i := worker])
  }

  function Goto(w: World, i: nat, phase: Phase): World
    requires i < |w.workers|
  {
    At(w, i, w.workers[i].(phase := phase))
  }

  /** The artifact reference the worker builds from the evaluation file. */
  function RefOf(job: Job, sha: Id): ArtifactRef {
    ArtifactRef(Some(job.evaluation), Some(sha), Some(job.entityType), Some(0), Some(sha), Some(0), Some(0))
  }

  function EvidenceOf(job: Job, sha: Id): Evidence {
    Evidence(None, job.entityType, job.evaluation, Pass, sha, RefOf(job, sha))
  }

  /** The request the worker's next action sends, if it sends one. */
  function Intent(job: Job, w: World, i: nat, choice: Id): Option<Request>
    requires i < |w.workers|
  {
    var owner := w.workers[i].owner;
    match w.workers[i].phase
    case ToClaim => Some(Claim(w.workers[i].name, choice, job.lease))
    case ToStart => Some(Start(owner))
    case ToPrepare => Some(Prepare(owner, job.operation, job.environment, job.fingerprint))
    case ToDispatch => Some(Dispatch(owner, job.operation))
    case ToConfirm => Some(Confirm(owner, job.operation, Some(job.evaluation)))
    case ToRegister =>
      if w.file.Some? then Some(RegisterArtifact(job.entityType, job.evaluation, RefOf(job, w.file.value))) else None
    case ToSubmit => if w.file.Some? then Some(IngestEvidence(owner, job.evidence, EvidenceOf(job, w.file.value))) else None
    case ToComplete => Some(Complete(owner, job.evidence, true))
    case _ => None
  }

  /** What the worker does with the answer: go on, or raise, which sends the
      evaluation loop back to discovery. */
  function Resume(job: Job, w: World, i: nat, token: Id, answer: Answer, lost: bool): World
    requires i < |w.workers|
  {
    var worker := w.workers[i];
    var ok := Accepted(answer.response) && !lost;
    match worker.phase
    case ToClaim =>
      if answer.response == Granted && !lost then
        At(w, i, worker.(owner := Credentials(answer.server.attemptNumber, worker.name, token, answer.server.version), phase := ToStart))
      else w
    case ToStart =>
      if ok then At(w, i, worker.(owner := worker.owner.(version := answer.server.version), phase := ToOpen)) else Goto(w, i, ToClaim)
    case ToPrepare => Goto(w, i, if ok then ToInspect else ToClaim)
    case ToDispatch => Goto(w, i, if ok then ToRecheck else ToClaim)
    case ToConfirm => Goto(w, i, if ok then ToRegister else ToClaim)
    case ToRegister => Goto(w, i, if ok || (lost && Registered(job, w, answer.server)) then ToSubmit else ToClaim)
    case ToSubmit => Goto(w, i, if ok then ToComplete else ToClaim)
    case _ => Goto(w, i, ToClaim)
  }

  /** After a lost response the ingest client reads the canonical row back. */
  predicate Registered(job: Job, w: World, s: Server) {
    && w.file.Some?
    && (job.entityType, job.evaluation) in s.registry
    && s.registry[(job.entityType, job.evaluation)].contentSha == Some(w.file.value)
  }

  /** The actions that only read: the job, the operation or the evaluation file. */
  function Look(job: Job, w: World, i: nat, lost: bool, choice: Id): World
    requires i < |w.workers|
  {
    var cancelling := w.server.state == CancelRequested;
    match w.workers[i].phase
    case ToOpen => Goto(w, i, if lost then ToClaim else if cancelling then Closing else ToPrepare)
    case ToInspect =>
      var status := StatusOf(w.server, job.operation);
      Goto(w, i, if lost then ToClaim else if status == Some(Prepared) || status == Some(NotSubmitted) then ToReview else ToRecheck)
    case ToReview => Goto(w, i, if lost then ToClaim else if cancelling then Closing else ToDispatch)
    case ToRecheck => Goto(w, i, if lost then ToClaim else if cancelling then Closing else ToLookForFile)
    case ToLookForFile =>
      if w.file.Some? then Goto(w, i, ToConfirm)
      else Goto(w, i, AgentRunning).(agentStarts := w.agentStarts + 1)
    case AgentRunning => Goto(w, i, ToConfirm).(file := Some(choice))
    case Stopped => w
    case _ => Goto(w, i, ToClaim)
  }

  /** The requests of the cancellation and platform-failure paths. */
  predicate ClosingRequest(job: Job, r: Request) {
    || r.MarkNotSubmitted? || r.MarkUnknown? || r.Reconcile? || r.AckCancel? || r.FailPlatform?
    || (r.IngestEvidence? && r.evidenceId != job.evidence)
  }

  /** Everybody else may send anything but a completion or this job's completion evidence. */
  predicate OutsideRequest(job: Job, r: Request) {
    !r.Complete? && (r.IngestEvidence? ==> r.evidenceId != job.evidence)
  }

  function Do(job: Job, w: World, m: Move): World {
    match m
    case Act(i, now, lost, choice) =>
      if i >= |w.workers| then w
      else
        var intent := Intent(job, w, i, choice);
        if intent.None? then Look(job, w, i, lost, choice)
        else
          var answer := Handle(w.server, now, intent.value);
          Resume(job, w, i, choice, answer, lost).(
            server := answer.server,
            submitted := if intent.value.IngestEvidence? then w.submitted + [intent.value.body.contentSha] else w.submitted)
    case AgentRaises(i) => if i < |w.workers| && w.workers[i].phase == AgentRunning then Goto(w, i, Closing) else w
    case Crash(i) => if i < |w.workers| then Goto(w, i, Stopped) else w
    case Restart(i, name) =>
      if i < |w.workers| && w.workers[i].phase == Stopped then At(w, i, w.workers[i].(name := name, phase := ToClaim)) else w
    case Renew(i, now, lost) =>
      if i >= |w.workers| then w
      else
        var answer := Handle(w.server, now, Heartbeat(w.workers[i].owner, job.lease));
        var u := if answer.response == Done && !lost
                 then At(w, i, w.workers[i].(owner := w.workers[i].owner.(version := answer.server.version))) else w;
        u.(server := answer.server)
    case Close(i, now, r) =>
      if i < |w.workers| && w.workers[i].phase == Closing && ClosingRequest(job, r) then w.(server := Next(w.server, now, r)) else w
    case Outside(now, r) => if OutsideRequest(job, r) then w.(server := Next(w.server, now, r)) else w
  }

  function DoAll(job: Job, w: World, moves: seq<Move>): World
    decreases |moves|
  {
    if moves == [] then w else DoAll(job, Do(job, w, moves[0]), moves[1..])
  }

  // ---------------------------------------------------------------- worlds refine protocol runs

  /** The request one move delivers to the server. */
  function Sent(job: Job, w: World, m: Move): seq<Step> {
    match m
    case Act(i, now, _, choice) =>
      if i < |w.workers| && Intent(job, w, i, choice).Some? then [Step(now, Intent(job, w, i, choice).value)] else []
    case Renew(i, now, _) => if i < |w.workers| then [Step(now, Heartbeat(w.workers[i].owner, job.lease))] else []
    case Close(i, now, r) =>
      if i < |w.workers| && w.workers[i].phase == Closing && ClosingRequest(job, r) then [Step(now, r)] else []
    case Outside(now, r) => if OutsideRequest(job, r) then [Step(now, r)] else []
    case _ => []
  }

  function AllSent(job: Job, w: World, moves: seq<Move>): seq<Step>
    decreases |moves|
  {
    if moves == [] then [] else Sent(job, w, moves[0]) + AllSent(job, Do(job, w, moves[0]), moves[1..])
  }

  lemma SentOne(job: Job, w: World, m: Move)
    ensures Do(job, w, m).server == Run(w.server, Sent(job, w, m))
    ensures |Sent(job, w, m)| <= 1
    ensures forall i :: 0 <= i < |Sent(job, w, m)| ==> WorkersRequest(job, Sent(job, w, m)[i].request)
  {
    var sent := Sent(job, w, m);
    if sent != [] {
      assert sent[1..] == [];
      assert Run(w.server, sent) == Next(w.server, sent[0].now, sent[0].request);
    }
  }

  predicate WorkersRequest(job: Job, r: Request) {
    r.Complete? ==> r.evidenceId == job.evidence
  }

  /** Every interleaving of workers is a run of the protocol, in which all
      completions name the job's one evidence id. */
  lemma {:induction false} WorldRefinesRun(job: Job, w: World, moves: seq<Move>)
    ensures DoAll(job, w, moves).server == Run(w.server, AllSent(job, w, moves))
    ensures forall i :: 0 <= i < |AllSent(job, w, moves)| ==> WorkersRequest(job, AllSent(job, w, moves)[i].request)
    decreases |moves|
  {
    if moves != [] {
      var u := Do(job, w, moves[0]);
      SentOne(job, w, moves[0]);
      WorldRefinesRun(job, u, moves[1..]);
      RunAppend(w.server, Sent(job, w, moves[0]), AllSent(job, u, moves[1..]));
    }
  }

  /** Every reclaim orphans all evidence stored before it. */
  lemma ReclaimOrphansEvidence(s: Server, now: nat, claim: Request, id: Id)
    requires Inv(s) && claim.Claim? && Handle(s, now, claim).response == Granted
    requires id in s.evidence
    ensures Inv(Next(s, now, claim)) && Orphaned(Next(s, now, claim), id)
  {
    InvStep(s, now, claim);
    GrowsStep(s, now, claim);
  }

  /** An attempt that stored its evidence and was superseded before completing
      leaves a job that no restarted worker can complete. */
  lemma OrphanedJobNeverCompletes(job: Job, w: World, moves: seq<Move>)
    requires Inv(w.server) && Orphaned(w.server, job.evidence) && w.server.state != Completed
    ensures DoAll(job, w, moves).server.state != Completed
  {
    WorldRefinesRun(job, w, moves);
    OrphanedEvidenceLocksOut(w.server, job.evidence, AllSent(job, w, moves));
  }

  // ---------------------------------------------------------------- the evaluation file

  predicate Running(w: World, i: int) {
    0 <= i < |w.workers| && w.workers[i].phase == AgentRunning
  }

  predicate SomebodyRunning(w: World) {
    exists i :: 0 <= i < |w.workers| && Running(w, i)
  }

  /** With the evaluation file in place no move starts the Agent. */
  lemma FileStopsAgent(job: Job, w: World, m: Move)
    requires w.file.Some?
    ensures Do(job, w, m).file.Some? && Do(job, w, m).agentStarts == w.agentStarts
  {}

  /** With the file in place and no attempt inside the Agent, a move leaves both so
      and submits nothing but the file's content. */
  lemma QuietMove(job: Job, w: World, m: Move)
    requires w.file.Some? && !SomebodyRunning(w)
    ensures Do(job, w, m).file == w.file && !SomebodyRunning(Do(job, w, m))
    ensures Do(job, w, m).submitted == w.submitted || Do(job, w, m).submitted == w.submitted + [w.file.value]
  {
    var u := Do(job, w, m);
    if m.Act? {
      assert !Running(w, m.worker);
    }
    forall j ensures !Running(u, j) {
      assert !Running(w, j);
    }
  }

  /** Once the file exists the Agent is never started again, in any interleaving. */
  lemma {:induction false} NoRerunOnceFileExists(job: Job, w: World, moves: seq<Move>)
    requires w.file.Some?
    ensures DoAll(job, w, moves).file.Some? && DoAll(job, w, moves).agentStarts == w.agentStarts
    decreases |moves|
  {
    if moves != [] {
      FileStopsAgent(job, w, moves[0]);
      NoRerunOnceFileExists(job, Do(job, w, moves[0]), moves[1..]);
    }
  }

  /** With the file in place and no attempt inside the Agent, the file never
      changes and every attempt submits its content. */
  lemma {:induction false} QuietFileIsFinal(job: Job, w: World, moves: seq<Move>)
    requires w.file.Some? && !SomebodyRunning(w)
    ensures
      var u := DoAll(job, w, moves);
      && u.file == w.file && w.submitted <= u.submitted
      && forall k :: |w.submitted| <= k < |u.submitted| ==> u.submitted[k] == w.file.value
    decreases |moves|
  {
    if moves != [] {
      QuietMove(job, w, moves[0]);
      QuietFileIsFinal(job, Do(job, w, moves[0]), moves[1..]);
    }
  }

  /** The evaluation file is overwritten without a check, so it is final exactly
      when no attempt is inside the Agent. */
  lemma FileIsFinalExactly(job: Job, w: World)
    requires w.file.Some?
    ensures (forall moves :: LeavesFile(job, w, moves)) <==> !SomebodyRunning(w)
  {
    if !SomebodyRunning(w) {
      forall moves ensures LeavesFile(job, w, moves) {
        QuietFileIsFinal(job, w, moves);
      }
    } else {
      var i :| 0 <= i < |w.workers| && Running(w, i);
      var finish := Act(i, 0, false, w.file.value + 1);
      assert [finish][1..] == [];
      assert DoAll(job, w, [finish]) == Do(job, w, finish);
      assert !LeavesFile(job, w, [finish]);
    }
  }

  predicate LeavesFile(job: Job, w: World, moves: seq<Move>) {
    DoAll(job, w, moves).file == w.file
  }

  // ---------------------------------------------------------------- one Agent run, one content

  /** While the Agent was started at most once there is one content. */
  ghost predicate SoloInv(w: World) {
    && (w.file.None? ==> w.submitted == [])
    && (w.agentStarts == 0 ==> w.file.None? && !SomebodyRunning(w))
    && (w.agentStarts == 1 ==>
          && (forall i, j :: Running(w, i) && Running(w, j) ==> i == j)
          && (w.file.Some? ==> !SomebodyRunning(w))
          && (forall k :: 0 <= k < |w.submitted| ==> w.file == Some(w.submitted[k])))
  }

  lemma ResumeIsQuiet(job: Job, w: World, i: nat, token: Id, answer: Answer, lost: bool)
    requires i < |w.workers| && w.workers[i].phase != AgentRunning
    ensures
      var u := Resume(job, w, i, token, answer, lost);
      && u.file == w.file && u.agentStarts == w.agentStarts && u.submitted == w.submitted
      && forall j :: Running(u, j) <==> Running(w, j)
  {}

  lemma LookStep(job: Job, w: World, i: nat, lost: bool, choice: Id)
    requires SoloInv(w) && i < |w.workers|
    ensures SoloInv(Look(job, w, i, lost, choice))
  {
    var u := Look(job, w, i, lost, choice);
    assert w.workers[i].phase == AgentRunning <==> Running(w, i);
    assert forall j :: j != i ==> (Running(u, j) <==> Running(w, j));
  }

  lemma SoloStep(job: Job, w: World, m: Move)
    requires SoloInv(w)
    ensures SoloInv(Do(job, w, m))
  {
    match m
    case Act(i, now, lost, choice) =>
      if i < |w.workers| {
        var intent := Intent(job, w, i, choice);
        if intent.None? {
          LookStep(job, w, i, lost, choice);
        } else {
          ResumeIsQuiet(job, w, i, choice, Handle(w.server, now, intent.value), lost);
          SoloSubmit(w, Do(job, w, m));
        }
      }
    case AgentRaises(i) =>
      assert forall j :: Running(Do(job, w, m), j) ==> Running(w, j);
      SoloSubmit(w, Do(job, w, m));
    case Crash(i) =>
      assert forall j :: Running(Do(job, w, m), j) ==> Running(w, j);
      SoloSubmit(w, Do(job, w, m));
    case Restart(i, name) =>
      assert forall j :: Running(Do(job, w, m), j) ==> Running(w, j);
      SoloSubmit(w, Do(job, w, m));
    case Renew(i, now, lost) => RenewIsQuiet(job, w, i, now, lost);
    case Close(i, now, r) =>
      assert forall j :: Running(Do(job, w, m), j) ==> Running(w, j);
      SoloSubmit(w, Do(job, w, m));
    case Outside(now, r) =>
      assert forall j :: Running(Do(job, w, m), j) ==> Running(w, j);
      SoloSubmit(w, Do(job, w, m));
  }

  lemma RenewIsQuiet(job: Job, w: World, i: nat, now: nat, lost: bool)
    requires SoloInv(w)
    ensures SoloInv(Do(job, w, Renew(i, now, lost)))
  {
    if i < |w.workers| {
      var u := Do(job, w, Renew(i, now, lost));
      assert forall j :: Running(u, j) <==> Running(w, j);
    }
  }

  lemma SoloSubmit(w: World, u: World)
    requires SoloInv(w)
    requires u.file == w.file && u.agentStarts == w.agentStarts && forall j :: Running(u, j) ==> Running(w, j)
    requires u.submitted == w.submitted || (w.file.Some? && u.submitted == w.submitted + [w.file.value])
    ensures SoloInv(u)
  {}

  // ---------------------------------------------------------------- what a completed job is bound to

  /** The job's completion evidence came from a worker, and only it completes the job. */
  ghost predicate ProvenanceInv(job: Job, s: Server, submitted: seq<Id>) {
    && (job.evidence in s.evidence ==> s.evidence[job.evidence].contentSha in submitted)
    && (s.state == Completed ==> s.terminalEvidence == Some(job.evidence))
  }

  lemma ProvenanceRequest(job: Job, s: Server, now: nat, r: Request, submitted: seq<Id>)
    requires Inv(s) && ProvenanceInv(job, s, submitted) && WorkersRequest(job, r)
    requires r.IngestEvidence? && r.evidenceId == job.evidence ==> r.body.contentSha in submitted
    ensures ProvenanceInv(job, Next(s, now, r), submitted)
  {
    GrowsStep(s, now, r);
    if s.state != Completed {
      CompletedExactly(s, now, r);
    }
    if !r.IngestEvidence? && !r.RegisterArtifact? {
      FactsOnlyStored(s, now, r);
    }
  }

  lemma ProvenanceMove(job: Job, w: World, m: Move)
    requires Inv(w.server) && ProvenanceInv(job, w.server, w.submitted)
    ensures Inv(Do(job, w, m).server) && ProvenanceInv(job, Do(job, w, m).server, Do(job, w, m).submitted)
  {
    var u := Do(job, w, m);
    var sent := Sent(job, w, m);
    SentOne(job, w, m);
    if sent != [] {
      assert sent[1..] == [];
      assert u.server == Next(w.server, sent[0].now, sent[0].request);
      InvStep(w.server, sent[0].now, sent[0].request);
      SubmittedGrows(job, w, m);
      ProvenanceRequest(job, w.server, sent[0].now, sent[0].request, u.submitted);
    }
  }

  lemma SubmittedGrows(job: Job, w: World, m: Move)
    ensures w.submitted <= Do(job, w, m).submitted
    ensures forall i :: 0 <= i < |Sent(job, w, m)| && Sent(job, w, m)[i].request.IngestEvidence?
              && Sent(job, w, m)[i].request.evidenceId == job.evidence
              ==> Sent(job, w, m)[i].request.body.contentSha in Do(job, w, m).submitted
  {}

  /** A job nobody has worked on yet. */
  ghost predicate Initial(w: World) {
    && w.server == SUBMITTED && w.file.None? && w.agentStarts == 0 && w.submitted == []
    && !SomebodyRunning(w)
  }

  ghost predicate WorldInv(job: Job, w: World) {
    Inv(w.server) && ProvenanceInv(job, w.server, w.submitted) && SoloInv(w)
  }

  lemma {:induction false} WorldInvRun(job: Job, w: World, moves: seq<Move>)
    requires WorldInv(job, w)
    ensures WorldInv(job, DoAll(job, w, moves))
    decreases |moves|
  {
    if moves != [] {
      ProvenanceMove(job, w, moves[0]);
      SoloStep(job, w, moves[0]);
      WorldInvRun(job, Do(job, w, moves[0]), moves[1..]);
    }
  }

  /** The evidence a job is bound to, and the artifact registered for it. */
  ghost predicate BoundTo(job: Job, s: Server, sha: Id) {
    && s.terminalEvidence == Some(job.evidence) && job.evidence in s.evidence
    && var e := s.evidence[job.evidence];
       && e.outcome == Pass && e.contentSha == sha
       && (e.entityType, e.entityId) in s.registry && s.registry[(e.entityType, e.entityId)].contentSha == Some(sha)
  }

  /** In every interleaving from a fresh submission, a completed job is bound, through
      evidence and a registered artifact, to a content some worker submitted; if the
      Agent was started only once, that is the content of the evaluation file. */
  lemma CompletionMatchesFile(job: Job, w: World, moves: seq<Move>)
    requires Initial(w)
    ensures
      var u := DoAll(job, w, moves);
      u.server.state == Completed ==>
        && (exists sha :: sha in u.submitted && BoundTo(job, u.server, sha))
        && (u.agentStarts <= 1 ==> u.file.Some? && BoundTo(job, u.server, u.file.value))
  {
    Reachable([]);
    WorldInvRun(job, w, moves);
    var u := DoAll(job, w, moves);
    if u.server.state == Completed {
      assert CompletedBinding(u.server);
      var sha := u.server.evidence[job.evidence].contentSha;
      assert sha in u.submitted && BoundTo(job, u.server, sha);
    }
  }
}
