# RunProof verification project

RunProof runs an agent against disposable environments, stores what happened as
evidence, and lets a coverage gate decide what that evidence proves. This project
models the parts of it where correctness is a matter of protocol, and proves their
promises in Dafny 4.11. `dafny verify dfyconfig.toml` checks everything.

## What is modelled

**The durable execution protocol.** `ControlPlane` has one job with its attempt,
operation, effect, evidence and event tables, and every HTTP request as one transaction.
`ExecutionSafety` proves its invariants, `ExecutionRuns` the effect guarantees,
`ExecutionFencing` ownership and terminal states, `ExecutionLaws` what each request does
to the job's row and lease, `ExecutionRows` to every other table, `ExecutionAnswers`
what it answers, `ExecutionLiveness` which jobs can still end, `ExecutionCompletion`
which can still be completed, `ExecutionLimits` where documented promises stop. A run is
any list of requests with any arguments at any times, so crashes, expiries, replays,
lost messages and competing workers are all included. The server steps follow the Java
controller, `DurableExecutionController.java`, which is part of the repository; the
assertions of `control-plane/probe.py` are cited where they state the promise.

**The durable worker.** `DurableWorld` lets any number of evaluation workers run their
program against that server and the shared evaluation file, interleaved at every request
and every look; `DurableSteps` says when a worker goes on to each step and what it
sends; `DurableTurns` follows one undisturbed worker turn by turn, `DurableCompletion`
decides which jobs restarted workers can complete, and `DurableLimits` has interleavings
that reach the limits. `DurableWorker` has the two recovery loops as classes.

**Crash-safe journals.** `Framing` has lines, cuts and hash chains over an arbitrary
injective framing and a collision-free hash. `DenialJournal`, `DenialRecovery`,
`DenialProof` and `DenialGuard` are the denial journal with its short-write loop, reader
and guard, and `DenialState` what the reader reports of any log and any bytes;
`ScopeJournal`, `ScopeFile` and `ScopeGuard` are the owner-scope journal; `TestRecorder`
the two test recorders, over the statuses of `TestStatus`; `Manifest` holds the third
chained log, the write-ahead log.

**Coverage accounting.** `HelperClosure`, `Routing`, `Settlement`, `Ledger`, `Admission`
and `Manifest` follow a test from reachability through routing, settling, the ledger and
its recomputation to the two admission stages; `SettlementLogs` says which logs and
reports of a child are accepted, and by whom.

**Side effects.** `SideEffects` is the tool executor over the container environment,
`SideEffectCalls` when each of its calls succeeds and what it then leaves,
`SideEffectRuns` its safety over all call sequences, `RunVerifier` the verdict.

**Evaluation and ingest.** `Evaluation` counts, rates and compares; `Ingest` is the
client that reconciles an uncertain write.

Objects whose methods update fields are classes whose methods are tied to functions of
the old state; loops are loops; what the source computes by expressions is functions.
Sizes (modules, ids, limits, caps) are parameters. With the harnesses' own numbers the
caps are out of reach: 5 ids and 16 denials give at most 29 frames against 32, and 18 ids,
128 listings and 16 denials at most 182 against 256.

## Where a promise ends

Each of these is proved with an exact condition for all inputs; where a state has to be
reached first, with a run or an interleaving that reaches it.

- An expired lease is documented never to hide a side effect (control-plane/README.md:46).
  The claim looks only at operations *prepared* by the expiring attempt, and no request
  rewrites that attribution: an operation that a later attempt dispatched is not seen
  (`ExpiredClaimExactly`, `ExpiryMissesInFlight`). It is still never applied again
  without a reconcile (`NoBlindReapply`).
- Evidence is compared with the attempt that stored it, and the worker always uses the
  same evidence id. An attempt that stores its evidence and loses its lease before it
  completes leaves a job that no later worker can complete (`ReclaimOrphansEvidence`,
  `OrphanedJobNeverCompletes`, `OrphanReachable`). Which jobs can be completed under an
  evidence id, and which of them restarted workers can complete, is decided for all
  states (`CanCompleteExactly`, `RestartedCompletesExactly`).
- A cancelling job whose lease ran out can be neither claimed, acknowledged, timed out
  nor cancelled again (`WedgedForever`, `EndableExactly`).
- A timeout with an unresolved operation turns a requested cancellation back into
  ordinary work (`CancelForgottenExactly`).
- The worker's reconcile loop raises on an operation that is already UNKNOWN_OUTCOME, so
  an interrupted pass is not resumed by the next one (`ReconcilePassExactly`), and
  cancelling outdates the tuple with which prepared operations are withdrawn
  (`CancelOutdatesItsWorker`).
- The evaluation file is overwritten without a check: it is final exactly when no attempt
  is inside the Agent (`FileIsFinalExactly`, `ZombieReachable`).
- A queued job takes evidence and timeouts from anyone (`UnownedChangesExactly`).
- A write that timed out can land after its retry (`SecondWriteExactly`).
- The state is not always readable as INITIAL or TARGET: a torn write can leave neither
  (`ReadableState`, `TornExactly`, `TornWriteReadsAsThird`).
- Helpers named like assertions are not followed (`TruthfulExactly`).
- The router's settlement check wants exact fixture names, the reconstruction any dotted
  ancestor (`ImplementationsAgreeExactly`); the two verdicts on a ledger differ on an idle
  lane without portable rows (`VerdictsAgreeExactly`).
- Rounded rates show every improvement only up to a million members
  (`RateRisesExactly`).

## Model

| member | source | states |
|---|---|---|
| ExecutionSafety.InvStep | control-plane/src/main/java/com/runproof/controlplane/DurableExecutionController.java:241-1010 | Every request, with any arguments at any time, keeps the tables consistent: exactly the owner states carry a lease, of the newest attempt; a submittable operation has no effect row; no operation was applied twice; evidence ids and entities are unique; a terminal row is bound to stored evidence with its outcome; the job row is the last event |
| ExecutionSafety.GrowsStep | control-plane/src/main/java/com/runproof/controlplane/DurableExecutionController.java:912-1009 | No request takes anything back: versions and attempt numbers grow, terminal rows, stored evidence and registered artifacts are fixed, operation identities are fixed, a confirmed operation stays confirmed |
| ExecutionSafety.Reachable | control-plane/src/main/java/com/runproof/controlplane/DurableExecutionController.java:241-1010 | The invariant holds after every list of requests from a fresh submission |
| ExecutionSafety.InvRun | control-plane/src/main/java/com/runproof/controlplane/DurableExecutionController.java:241-1010 | The invariant is kept by every run from every consistent state |
| ExecutionSafety.GrowsRun | control-plane/src/main/java/com/runproof/controlplane/DurableExecutionController.java:912-1009 | What no single request takes back no run takes back |
| ExecutionSafety.ClaimKeeps | control-plane/src/main/java/com/runproof/controlplane/DurableExecutionController.java:912-970 | Claiming, with its expiry branches, keeps the invariant |
| ExecutionSafety.ApplyKeeps | control-plane/src/main/java/com/runproof/controlplane/DurableExecutionController.java:479-527 | The effect insert keeps one effect per operation and its counter |
| ExecutionSafety.ConfirmKeeps | control-plane/src/main/java/com/runproof/controlplane/DurableExecutionController.java:529-560 | Confirmation keeps the effect counter equal to the number of effect rows |
| ExecutionSafety.MarkUnknownKeeps | control-plane/src/main/java/com/runproof/controlplane/DurableExecutionController.java:562-614 | Declaring an outcome unknown keeps the invariant in all four job-state branches |
| ExecutionSafety.ReconcileKeeps | control-plane/src/main/java/com/runproof/controlplane/DurableExecutionController.java:616-671 | Reconciling keeps the invariant in all three job-state branches |
| ExecutionSafety.IngestKeeps | control-plane/src/main/java/com/runproof/controlplane/DurableExecutionController.java:684-758 | Evidence stays unique by id and by entity, and bound to an attempt that exists |
| ExecutionSafety.CompleteKeeps | control-plane/src/main/java/com/runproof/controlplane/DurableExecutionController.java:760-789 | Completion establishes the binding to registered, identical, passing evidence of the owning attempt with no unresolved operation |
| ExecutionSafety.TimeoutKeeps | control-plane/src/main/java/com/runproof/controlplane/DurableExecutionController.java:872-910 | Timeouts keep the invariant in all branches |
| ExecutionRuns.AppliedAtMostOnce | control-plane/probe.py:1167-1288 | In every run every operation is applied at most once, and its effect counter says whether it was |
| ExecutionRuns.OperationTable | control-plane/src/main/java/com/runproof/controlplane/DurableExecutionController.java:373-671 | Every request moves every operation exactly as one transition table says, and runs the effect insert exactly where the table says |
| ExecutionRuns.NoBlindReapply | control-plane/probe.py:1236-1288 | An operation that may have been submitted (in flight, unknown, confirmed) is never applied again in any run without a reconcile of it, and stays submitted |
| ExecutionRuns.ReconcileDecides | control-plane/src/main/java/com/runproof/controlplane/DurableExecutionController.java:616-671 | A reconcile never applies; it confirms exactly the operations with an effect row, and those are never applied again |
| ExecutionRuns.EffectStays | control-plane/src/main/java/com/runproof/controlplane/DurableExecutionController.java:479-527 | An applied operation is applied exactly once in every continuation, reconciled or not |
| ExecutionRuns.ApplyAfterConfirm | control-plane/probe.py:1167-1220 | In every run a confirmed operation stays confirmed, and applying it changes no table at all |
| ExecutionRuns.NotSubmittedExactly | control-plane/src/main/java/com/runproof/controlplane/DurableExecutionController.java:452-477 | An operation becomes NOT_SUBMITTED exactly when its owner says so while it is PREPARED, or a reconcile finds no effect |
| ExecutionFencing.NotOwnerStep | control-plane/src/main/java/com/runproof/controlplane/DurableExecutionController.java:992-1009 | Without the current tuple nothing changes, except evidence and timeouts of a queued job |
| ExecutionFencing.SupersededForever | control-plane/probe.py:1095-1165 | A tuple of an older attempt or version never becomes valid again in any run, and changes nothing except the evidence and timeouts a queued job takes from anyone |
| ExecutionFencing.GrantSupersedes | control-plane/src/main/java/com/runproof/controlplane/DurableExecutionController.java:933-959 | A granted claim supersedes every tuple that was valid before, after any run in between |
| ExecutionFencing.ReclaimFences | control-plane/probe.py:1095-1165 | After a reclaim the older attempt can never again heartbeat, act on operations, add evidence or finalize, in any continuation, except for the evidence and timeouts a queued job takes from anyone |
| ExecutionFencing.ClaimRace | control-plane/probe.py:1027-1090 | While a granted lease is live every other claim is refused with ACTIVE_LEASE and changes nothing |
| ExecutionFencing.OneOwner | control-plane/src/main/java/com/runproof/controlplane/DurableExecutionController.java:992-1009 | At most one fencing tuple is accepted by one state of the tables |
| ExecutionFencing.MissedVersionFences | control-plane/src/main/java/com/runproof/controlplane/DurableExecutionController.java:992-1009 | A worker that misses the new version of a start, heartbeat or cancel is fenced out for good; what the holder of the new version has is `HeartbeatExactly`, `StartedOrCancelledExactly` and `VersionExactly` |
| ExecutionFencing.TerminalIsFinal | control-plane/src/main/java/com/runproof/controlplane/DurableExecutionController.java:972-990 | Terminal states absorb: state, outcome, bound evidence, version and attempt never change and no effect is applied again |
| ExecutionFencing.CompletedBinds | control-plane/probe.py:1346-1423 | In every run COMPLETED is bound to passing evidence of the last attempt and an identical registered artifact |
| ExecutionFencing.CompletedExactly | control-plane/src/main/java/com/runproof/controlplane/DurableExecutionController.java:1187-1232 | Among all requests exactly a completion that meets the full terminal-evidence contract enters COMPLETED |
| ExecutionFencing.OrphanedEvidenceLocksOut | control-plane/src/main/java/com/runproof/controlplane/DurableExecutionController.java:715-742 | Evidence stored by an older attempt, or while queued, stays of no use in every run at any times: a job whose completions all name it never completes; `CanCompleteExactly` has the exact condition |
| ExecutionFencing.OrphanedEvidenceIsRefused | control-plane/src/main/java/com/runproof/controlplane/DurableExecutionController.java:728-737 | The same id, or the same entity, can never be submitted again by a later owner |
| ExecutionFencing.WedgedForever | control-plane/probe.py:1426-1500 | Once the lease of a CANCEL_REQUESTED job has run out no run ever leaves that state |
| ExecutionFencing.WedgedStep | control-plane/src/main/java/com/runproof/controlplane/DurableExecutionController.java:816-910 | No single request leaves CANCEL_REQUESTED after expiry |
| ExecutionLiveness.PausedRun | control-plane/src/main/java/com/runproof/controlplane/DurableExecutionController.java:912-931 | A job waits for reconcile only while some operation is unresolved, in every run |
| ExecutionLiveness.EndableExactly | control-plane/src/main/java/com/runproof/controlplane/DurableExecutionController.java:816-931 | A job in a consistent state can still be ended exactly when it is not a cancelling job whose lease ran out |
| ExecutionLiveness.ReachableJobsCanEndExactly | control-plane/probe.py:1426-1500 | After any run from a fresh submission the job can still be ended, with that one exception |
| ExecutionLaws.HeartbeatExactly | control-plane/src/main/java/com/runproof/controlplane/DurableExecutionController.java:346-371 | A heartbeat gives its owner, under the next version and no other tuple, the job for exactly `lease_seconds` from now; until then every claim is refused with ACTIVE_LEASE, and no attempt, operation, evidence or artifact row changes |
| ExecutionLaws.GrantExactly | control-plane/src/main/java/com/runproof/controlplane/DurableExecutionController.java:912-959 | A claim is granted exactly when the job is queued, or its lease has run out and its last holder prepared nothing unresolved; nothing else opens an attempt or claims the job |
| ExecutionLaws.GrantedLease | control-plane/src/main/java/com/runproof/controlplane/DurableExecutionController.java:933-959 | A grant gives the claimant, and nobody else, the job for exactly `lease_seconds`, under an attempt number nobody had before |
| ExecutionLaws.LiveLeaseExcludes | control-plane/src/main/java/com/runproof/controlplane/DurableExecutionController.java:919-923 | A live lease refuses every claim with ACTIVE_LEASE and changes nothing |
| ExecutionLaws.LeaseKept | control-plane/src/main/java/com/runproof/controlplane/DurableExecutionController.java:312-371 | No request but a grant and a heartbeat moves a lease: it stays as it is, or the job is taken from its holder |
| ExecutionLaws.LeaseProtects | control-plane/src/main/java/com/runproof/controlplane/DurableExecutionController.java:992-1009 | While its lease is live the holder keeps the job in every run in which nobody presents its tuple, cancels, or settles operations |
| ExecutionLaws.StartedOrCancelledExactly | control-plane/src/main/java/com/runproof/controlplane/DurableExecutionController.java:314-344 | A job runs exactly after its owner has started it, and is asked to cancel exactly while a worker holds it |
| ExecutionLaws.PausedOrQueuedExactly | control-plane/src/main/java/com/runproof/controlplane/DurableExecutionController.java:562-671 | The three ways into RECONCILE_REQUIRED, and the one back to QUEUED, as equivalences over all requests |
| ExecutionLaws.FailedOrCancelledExactly | control-plane/src/main/java/com/runproof/controlplane/DurableExecutionController.java:791-910 | The two ways into FAILED_PLATFORM and the two into CANCELLED, as equivalences over all requests |
| ExecutionLaws.EndBindsNamed | control-plane/src/main/java/com/runproof/controlplane/DurableExecutionController.java:972-990 | A job that ends is bound to exactly the evidence the request named, with its outcome, and has no owner |
| ExecutionLaws.VersionExactly | control-plane/src/main/java/com/runproof/controlplane/DurableExecutionController.java:972-990 | Which requests use up a version, and how many, over all requests |
| ExecutionRows.AttemptTable | control-plane/src/main/java/com/runproof/controlplane/DurableExecutionController.java:912-990 | Every request moves at most one attempt row, to the status the table says, and a grant adds the claimant's row |
| ExecutionRows.ReceiptRun | control-plane/src/main/java/com/runproof/controlplane/DurableExecutionController.java:529-671 | In every run an operation is confirmed exactly when it has a receipt, and no receipt claims an effect that did not take place |
| ExecutionRows.ReceiptExactly | control-plane/src/main/java/com/runproof/controlplane/DurableExecutionController.java:529-671 | The receipt of a confirmation is the reference its owner sent, or else names the operation's own effect |
| ExecutionRows.PreparedExactly | control-plane/src/main/java/com/runproof/controlplane/DurableExecutionController.java:373-410 | An operation comes to be exactly when the owner prepares it, with what the owner asked for and nothing applied |
| ExecutionRows.EffectExactly | control-plane/src/main/java/com/runproof/controlplane/DurableExecutionController.java:479-527 | The effect table grows by exactly the operation that is applied, with its environment, and by nothing else |
| ExecutionRows.StoredExactly | control-plane/src/main/java/com/runproof/controlplane/DurableExecutionController.java:684-758 | New evidence is stored exactly for the owner, or for anyone while the job is queued, under a free id and for a free entity, as sent and bound to the owner's attempt |
| ExecutionRows.RegisteredExactly | control-plane/src/main/java/com/runproof/controlplane/CanonicalMetadataService.java:62-125 | An artifact is registered by the first registration of its entity; later ones are replays or conflicts |
| ExecutionAnswers.RefusedExactly | control-plane/src/main/java/com/runproof/controlplane/DurableExecutionController.java:241-1010 | Every request is refused with a code exactly for the reason that code stands for: all codes, all requests, all states |
| ExecutionAnswers.RefusalChangesNothing | control-plane/src/main/java/com/runproof/controlplane/DurableExecutionController.java:241-1010 | Whatever is rejected or answered as a replay has changed no table |
| ExecutionAnswers.ReplayedExactly | control-plane/src/main/java/com/runproof/controlplane/DurableExecutionController.java:314-789 | A request is answered as a replay exactly when it has been done already |
| ExecutionAnswers.DeferredExactly | control-plane/src/main/java/com/runproof/controlplane/DurableExecutionController.java:816-931 | A claim, cancellation or timeout is deferred exactly when the state of the job stands against it, and is told the state the job is then in |
| ExecutionAnswers.HistoryExactly | control-plane/src/main/java/com/runproof/controlplane/DurableExecutionController.java:312-990 | Every request writes exactly the entries into the job's history that its change of state, version or evidence calls for |
| ExecutionCompletion.CanCompleteExactly | control-plane/src/main/java/com/runproof/controlplane/DurableExecutionController.java:760-789 | From any consistent state some run whose completions all name one evidence id completes the job exactly when it is completed already; or the id is free and the job neither terminal nor wedged; or the attempt that holds a live lease, not cancelling, stored sound evidence under the id, nothing else is registered for its entity and no operation is UNKNOWN_OUTCOME |
| ExecutionCompletion.ReachableJobsCanCompleteExactly | control-plane/src/main/java/com/runproof/controlplane/DurableExecutionController.java:241-1010 | After any run from a fresh submission the same condition decides whether the job can still be completed under the id |
| ExecutionCompletion.HopelessForever | control-plane/src/main/java/com/runproof/controlplane/DurableExecutionController.java:715-789 | Stored evidence that is orphaned, unsound, out of its owner's hands, contradicted by the registry or held up by an unknown outcome is of no use in any later run |
| ExecutionCompletion.FinishStored | control-plane/src/main/java/com/runproof/controlplane/DurableExecutionController.java:452-560 | The holder of sound stored evidence can settle every operation without an unknown outcome itself, register the artifact and complete |
| ExecutionCompletion.Requeue | control-plane/src/main/java/com/runproof/controlplane/DurableExecutionController.java:616-671 | Every job that can still end can be queued again with nothing unresolved, its evidence, registry and operation identities untouched |
| ExecutionCompletion.FactsOnlyStored | control-plane/src/main/java/com/runproof/controlplane/DurableExecutionController.java:684-758 | Only an ingest stores evidence and only a registration registers an artifact |
| ExecutionLimits.ExpiredClaimExactly | control-plane/src/main/java/com/runproof/controlplane/DurableExecutionController.java:919-933 | An expired lease stops for reconcile exactly when an unresolved operation was prepared by the expiring attempt |
| ExecutionLimits.ExpiryMissesInFlight | control-plane/README.md:46 | A reachable state in which a new attempt is granted although an operation, dispatched by a later attempt than the one that prepared it, is in flight |
| ExecutionLimits.UnownedChangesExactly | control-plane/src/main/java/com/runproof/controlplane/DurableExecutionController.java:715-725 | A request without a valid tuple changes something exactly when the job is queued and it stores new evidence or times out on platform evidence |
| ExecutionLimits.SupersededEvidenceAccepted | control-plane/src/main/java/com/runproof/controlplane/DurableExecutionController.java:715-742 | A reachable queued job accepts evidence of an attempt that is over, and that evidence can complete nothing |
| ExecutionLimits.CancelCanWedge | control-plane/src/main/java/com/runproof/controlplane/DurableExecutionController.java:816-848 | A cancelled job whose owner died is reachable |
| ExecutionLimits.CancelForgottenExactly | control-plane/src/main/java/com/runproof/controlplane/DurableExecutionController.java:891-904 | A requested cancellation is withdrawn exactly by the owner's timeout while an operation is unresolved |
| ExecutionLimits.CancelCanBeForgotten | control-plane/src/main/java/com/runproof/controlplane/DurableExecutionController.java:891-904 | A job that was asked to cancel is reachable in QUEUED |
| ExecutionLimits.ConfirmedWithoutEffectExactly | control-plane/src/main/java/com/runproof/controlplane/DurableExecutionController.java:546-558 | An operation is confirmed without an effect row exactly when its owner presents a receipt of its own |
| DurableWorld.WorldRefinesRun | runtime/runproof_runtime/durable_worker.py:242-418 | Every interleaving of workers, crashes, restarts, renewals and lost responses is a protocol run in which all completions name the job's one evidence id |
| DurableWorld.NoRerunOnceFileExists | runtime/runproof_runtime/durable_worker.py:309-316 | Once the evaluation file exists no attempt starts the Agent, in any interleaving |
| DurableWorld.QuietFileIsFinal | runtime/runproof_runtime/durable_worker.py:309-378 | With the file in place and no attempt inside the Agent, the file never changes and every attempt submits its content hash |
| DurableWorld.FileIsFinalExactly | runtime/runproof_runtime/evaluation.py:1339-1345 | The file is final exactly when no attempt is inside the Agent: it is overwritten without a check |
| DurableWorld.SoloStep | runtime/runproof_runtime/durable_worker.py:309-360 | While the Agent was started at most once at most one attempt is inside it and everything submitted is one content |
| DurableWorld.CompletionMatchesFile | runtime/runproof_runtime/durable_worker.py:360-384 | In every interleaving from a fresh submission a completed job is bound to evidence and a registered artifact of a content some worker submitted; if the Agent was started once, of the content of the evaluation file |
| DurableWorld.ReclaimOrphansEvidence | control-plane/src/main/java/com/runproof/controlplane/DurableExecutionController.java:912-959 | Every reclaim orphans all evidence stored before it |
| DurableWorld.OrphanedJobNeverCompletes | runtime/runproof_runtime/durable_worker.py:360-384 | A job whose evidence an older attempt stored is never completed in any interleaving, whatever the workers are doing; `RestartedCompletesExactly` has the exact condition |
| DurableCompletion.RestartedCompletesExactly | runtime/runproof_runtime/durable_worker.py:242-418 | Once every worker has stopped or looks for work again, some interleaving completes the job exactly when it is completed already, or there is a worker, the job is neither terminal nor wedged, evidence id and entity are free, the operation is new or has the same fingerprint, and nothing is registered but what a worker derives from the file (from some content, while there is no file) |
| DurableCompletion.ReachedCompletesExactly | runtime/runproof_runtime/durable_worker.py:242-418 | The same after any interleaving from a fresh submission |
| DurableCompletion.PassableCompletes | runtime/runproof_runtime/durable_worker.py:242-384 | The interleaving that completes the job: somebody settles what is unresolved, and one worker goes undisturbed from its claim to the completion |
| DurableCompletion.BlockedForever | runtime/runproof_runtime/durable_worker.py:242-418 | What blocks restarted workers blocks every interleaving: spent evidence, a taken entity, another fingerprint, another artifact, a terminal or wedged job |
| DurableCompletion.CompletionMove | runtime/runproof_runtime/durable_worker.py:378-384 | Among all moves only that of a worker about to complete completes the job, under the full terminal-evidence contract |
| DurableCompletion.StoringMove | runtime/runproof_runtime/durable_worker.py:360-378 | Only a worker about to submit stores the job's evidence, for the content of the file and an entity nothing else has |
| DurableSteps.ActExactly | runtime/runproof_runtime/durable_worker.py:242-384 | For each step of the worker's program, when its next action takes it there; in all other cases it looks for work again |
| DurableSteps.EventExactly | runtime/runproof_runtime/durable_worker.py:242-272 | What crashes, restarts, renewals, failing Agent runs and requests of others do to where a worker stands |
| DurableSteps.TupleExactly | runtime/runproof_runtime/durable_worker.py:242-266 | The tuple a worker presents: that of the claim it was granted, under the version of the last start or renewal whose answer arrived |
| DurableSteps.SentExactly | runtime/runproof_runtime/durable_worker.py:242-384 | What a worker sends at each of its steps, and at which it sends nothing |
| DurableSteps.FileExactly | runtime/runproof_runtime/durable_worker.py:309-378 | The evaluation file is written exactly by a finishing Agent run, and what is submitted is its content |
| DurableTurns.PrepareTurn | runtime/runproof_runtime/durable_worker.py:262-300 | Preparing with the job's fingerprint leaves a known operation as it is and a new one PREPARED |
| DurableTurns.SubmitTurn | runtime/runproof_runtime/durable_worker.py:360-378 | The submission leaves evidence that its owner can complete with |
| DurableLimits.ZombieReachable | runtime/runproof_runtime/durable_worker.py:309-341 | An interleaving that reaches a world in which the evaluation file exists and another attempt is still inside the Agent |
| DurableLimits.OrphanReachable | runtime/runproof_runtime/durable_worker.py:360-384 | An interleaving that reaches a claimed job whose evidence the attempt before had stored |
| DurableWorker.Worker.ReconcileJob | runtime/runproof_runtime/durable_worker.py:561-574 | The reconcile loop ends in the tables and with the exception its specification says |
| DurableWorker.Worker.CancelIfRequested | runtime/runproof_runtime/durable_worker.py:477-535 | The cancellation loop, the version refresh, the evidence and the acknowledgement, as one function of the tables |
| DurableWorker.SettleOneExactly | control-plane/src/main/java/com/runproof/controlplane/DurableExecutionController.java:562-671 | Declaring an outcome unknown and reconciling it settles one operation by the effect table and no other, unless it was already unknown: then the server refuses |
| DurableWorker.ReconcilePassExactly | runtime/runproof_runtime/durable_worker.py:561-574 | A pass over a job read raises exactly when a listed operation is UNKNOWN_OUTCOME, otherwise settles every unresolved one and no other |
| DurableWorker.ReconcilePassRequeues | runtime/runproof_runtime/durable_worker.py:561-574 | A pass that settles something queues the job again, one that settles nothing leaves it |
| DurableWorker.CancelPassExactly | runtime/runproof_runtime/durable_worker.py:488-501 | The cancellation loop gets through exactly when no operation is unknown, and no prepared one meets an outdated version |
| DurableWorker.CancelPassSkips | runtime/runproof_runtime/durable_worker.py:488-501 | Operations listed as settled are passed over, in a listing of any age |
| DurableWorker.ReconcilePassSkips | runtime/runproof_runtime/durable_worker.py:561-574 | Operations listed as settled are passed over, in a listing of any age |
| DurableWorker.AcknowledgesOnlyCancelling | runtime/runproof_runtime/durable_worker.py:502-504 | A job that is not cancelling any more behind the loop is left alone |
| DurableWorker.CancelWholeExactly | runtime/runproof_runtime/durable_worker.py:477-535 | A cancellation over the full operation list ends in CANCELLED exactly when the worker still holds the lease, nothing blocks the loop and the cancellation evidence is not taken |
| DurableWorker.CancelOutdatesItsWorker | runtime/runproof_runtime/durable_worker.py:494-495 | The request to cancel outdates the worker's tuple, so a worker that has not renewed since cannot withdraw a prepared operation |
| Framing.LinesOfJoin | ci/run-rpf86-owner-admission.py:209-211 | Splitting a file at LF, CR and CR LF gives back the frames and the piece of a cut frame |
| Framing.LinesExactly | ci/run-rpf86-owner-admission.py:209 | The lines of a file are the one way to split it, leaving out nothing, behind each LF, CR LF and CR without LF |
| Framing.CutIsWholeLinesAndPiece | ci/run-rpf86-owner-admission.py:186-201 | Any cut of a journal is whole frames and a piece that holds no line break |
| Framing.EqualTipsEqualLines | ci/run-rpf86-owner-admission.py:211-245 | With a collision-free hash equal tips of two chains mean equal lines |
| DenialJournal.ReadJournal | ci/run-rpf86-owner-admission.py:205-255 | The reader's loop returns exactly the accepted prefix, its state and the first flaw; `DenialState` tells prefix, state and flaw from the bytes and the log alone |
| DenialJournal.Journal.Emit | ci/run-rpf86-owner-admission.py:186-201 | One append through any schedule of short writes and any fsync: succeeds exactly when it fits, every byte arrives and the sync succeeds; otherwise exactly the bytes that arrived are in the file, the frame that failed is the next of the chain, and nothing is appended any more |
| DenialJournal.Journal.WriteAll | ci/run-rpf86-owner-admission.py:196-198 | The short-write loop appends exactly the bytes the schedule lets through, and succeeds exactly when that is all of them |
| DenialJournal.ArrivedExactly | ci/run-rpf86-owner-admission.py:196-198 | The bytes that arrive are the sum of the returns before the first that is missing, no progress or more than was asked for |
| DenialRecovery.TruncationRecovers | ci/run-rpf86-owner-admission.py:205-255 | For a proper log and any byte truncation the reader recovers exactly the whole frames before the cut, with the fold of their payloads; no flaw exactly for a cut between frames; zero denials exactly for an uncut log ending in TERMINAL PASS |
| DenialRecovery.CrashRecovers | ci/run-rpf86-owner-admission.py:175-255 | Whatever short or failed writes and syncs a journal has been through, the reader recovers from every truncation of its file the whole frames, and the refused frame exactly when all its bytes arrived; no acknowledged frame is missing from the uncut file |
| DenialRecovery.TerminalSticks | ci/run-rpf86-owner-admission.py:217-218 | Nothing is accepted after a TERMINAL |
| DenialProof.RecoveredPrefixIsValid | ci/run-rpf86-owner-admission.py:209-245 | For any bytes the recovered frames are the first lines of the file, chained, and the reported state is the fold of their payloads |
| DenialProof.EqualTipsEqualLogs | ci/run-rpf86-owner-admission.py:211-249 | Two files recovered to the same tip have the same recovered lines and frames |
| DenialProof.ZeroDenialsExactly | ci/run-rpf86-owner-admission.py:223-243 | Among accepted logs, zero denials are proved exactly by INIT, every id started and passed once in some order, TERMINAL PASS |
| DenialProof.GreenIsAccepted | ci/run-rpf86-owner-admission.py:223-243 | Every such log is accepted |
| DenialProof.ZeroDenialsMeansGreenFile | ci/run-rpf86-owner-admission.py:205-255 | For any bytes, zero denials proved means exactly a flawless file of a green log |
| DenialState.StateOfTest | ci/run-rpf86-owner-admission.py:205-255 | For every accepted log and every test: the report has it exactly when the log starts it, as STARTED until its stop and then with that stop's status, and calls it running exactly in between |
| DenialState.StateOfLog | ci/run-rpf86-owner-admission.py:205-255 | The report's denials are the log's, in order; a TERMINAL is reported exactly when it is last; INIT comes first and once |
| DenialState.NamelessStops | ci/run-rpf86-owner-admission.py:226-227 | A status without a test is reported exactly after a stop that names none |
| DenialState.TestsOnce | ci/run-rpf86-owner-admission.py:217-243 | In an accepted log every started test is a configured one, started and stopped at most once and in this order |
| DenialState.ReportOfAnyFile | ci/run-rpf86-owner-admission.py:205-255 | What the reader reports of any bytes, test by test and denial by denial, on the frames it recovered |
| DenialState.FlawExactly | ci/run-rpf86-owner-admission.py:217-243 | Each flaw of a further payload, told from the log before it alone |
| DenialState.AcceptedListsExactly | ci/run-rpf86-owner-admission.py:205-243 | A payload list is accepted exactly when no payload has a flaw after those before it |
| DenialState.RecoversLongest | ci/run-rpf86-owner-admission.py:205-255 | From any file of admissible size the reader recovers the longest run of good lines (whole, decoding, numbered, bound, chained, later, flawless), no more and no fewer |
| DenialState.FlawOfFile | ci/run-rpf86-owner-admission.py:205-246 | The flaw that is reported: the size of the file, the first flaw of the first line that is not good, told from the lines before it, or that there is no line |
| DenialGuard.Guard.MethodStart | ci/run-rpf86-owner-admission.py:279-281 | Starting a method, as a function of the guard's state |
| DenialGuard.Guard.MethodStop | ci/run-rpf86-owner-admission.py:282-287 | Stopping the running method labels its denials and emits one frame; any other stop is refused before writing |
| DenialGuard.Guard.DenyAccess | ci/run-rpf86-owner-admission.py:323-347 | A denial is recorded and emitted, or beyond the limit replaced by a single overflow frame |
| DenialGuard.RecordsExactly | ci/run-rpf86-owner-admission.py:323-347 | The guard counts all denials, records and emits the first ones up to the limit, and is truncated exactly when there were more |
| DenialGuard.LabelsExactly | ci/run-rpf86-owner-admission.py:279-287 | Each recorded denial ends up with exactly the status the test it fell into stopped with, or none |
| DenialGuard.CapExactly | ci/run-rpf86-owner-admission.py:175-201 | Over all runs that start each of n ids at most once, the frame cap is out of reach exactly when it is at least 2n + limit + 3 |
| DenialGuard.OrderlyExactly | ci/run-rpf86-owner-admission.py:279-347 | The reader accepts what a guarded run emits exactly when every start, stop and denial fits the run before it (a refused stop leaves no trace), and then counts its methods and denials exactly |
| DenialGuard.GuardedRunIsProper | ci/run-rpf86-owner-admission.py:186-347 | The chained journal of an orderly guarded run is a proper log, so the recovery theorem holds of it |
| DenialGuard.DenialForbidsGreen | ci/run-rpf86-owner-admission.py:234-243 | A guarded run with a recorded denial can never close with an accepted passing TERMINAL |
| ScopeJournal.AcceptsExactly | ci/run-rpf88-r72-owner-scope.py:137-153 | Among payload lists the reader's checks pass exactly those whose frames other than listings are INIT, each id in order started and stopped with PASS, TERMINAL PASS, with allowed listings in between |
| ScopeJournal.AcceptedLength | ci/run-rpf88-r72-owner-scope.py:129-155 | With n ids and L listings an accepted log has 2n + 2 + L frames |
| ScopeJournal.ListingsLeaveNoTrace | ci/run-rpf88-r72-owner-scope.py:145-146 | Allowed listings between INIT and TERMINAL leave no trace in the reader's state |
| ScopeFile.ReadJournal | ci/run-rpf88-r72-owner-scope.py:129-155 | The reader's loop accepts exactly when every line is in order and the final checks hold |
| ScopeFile.AcceptedExactly | ci/run-rpf88-r72-owner-scope.py:129-155 | The reader accepts exactly the files of admissible size whose lines are frames in order (numbered, bound to the run, chained, clock rising, LF at the end) that form a passing log |
| ScopeFile.WrittenAcceptedExactly | ci/run-rpf88-r72-owner-scope.py:120-155 | What a writer has written with a rising clock is accepted exactly when it is a passing log of admissible size |
| ScopeFile.AcceptedFileIsGreen | ci/run-rpf88-r72-owner-scope.py:129-155 | An accepted file is a hash chain of 2n + 2 frames and its listings, in order and green |
| ScopeFile.EqualTipsEqualFiles | ci/run-rpf88-r72-owner-scope.py:131-152 | Accepted files with equal tips are byte for byte equal |
| ScopeFile.TruncationRejected | ci/run-rpf88-r72-owner-scope.py:129-155 | No proper prefix of an accepted file is accepted |
| ScopeGuard.Journal.Emit | ci/run-rpf88-r72-owner-scope.py:119-127 | One append in any state of the file: succeeds exactly when it fits, every byte arrives and the sync succeeds; exactly the bytes that arrived are added, the counters move only on success, and an undamaged file stays so |
| ScopeGuard.ArrivedExactly | ci/run-rpf88-r72-owner-scope.py:124-126 | The bytes that arrive are the sum of the returns before the first that is no progress, at most all |
| ScopeGuard.GuardedRunAcceptedExactly | ci/run-rpf88-r72-owner-scope.py:129-222 | What a guarded run emits, closed with TERMINAL PASS, is accepted exactly when nothing was denied and the tests ran in order, each once and with PASS |
| ScopeGuard.GuardedJournalAcceptedExactly | ci/run-rpf88-r72-owner-scope.py:114-222 | The same for the file of any journal that wrote such a run: writer, guard and reader together |
| ScopeGuard.JournalAcceptedExactly | ci/run-rpf88-r72-owner-scope.py:114-155 | The file of any undamaged journal is accepted exactly when its frames are a passing log of admissible size |
| ScopeGuard.Guard.Deny | ci/run-rpf88-r72-owner-scope.py:170-174 | Denials are counted without bound and emitted up to the limit |
| ScopeGuard.Guard.Listing | ci/run-rpf88-r72-owner-scope.py:205-222 | A listing is recorded up to the limit and denied when it is not an allowed import |
| ScopeGuard.CapExactly | ci/run-rpf88-r72-owner-scope.py:120-127 | Over all runs that start and stop each of n ids at most once, the frame cap is out of reach exactly when it is at least 2n + 2 plus both limits |
| TestRecorder.Recorder.Record | ci/run-rpf86-owner-admission.py:437-456 | The recorded outcome is the fold of the callbacks, for this recorder, the router's and the owner-scope one |
| TestRecorder.OutcomeExactly | ci/run-rpf86-owner-admission.py:437-456 | Which callbacks make either recorder say SKIP, ERROR or FAIL: the last decisive one |
| TestRecorder.LenientStartedExactly | ci/run-rpf88-r72-owner-scope.py:295-307 | The second recorder leaves a test STARTED exactly when nothing decisive was called |
| TestRecorder.StrictPassesExactly | ci/run-rpf86-owner-admission.py:446-456 | The first recorder says PASS exactly when the test succeeded and nothing adverse happened at all |
| TestRecorder.LenientPassesExactly | ci/run-rpf88-r72-owner-scope.py:295-307 | The second recorder says PASS exactly when some success has nothing adverse after it |
| TestRecorder.RecordersDisagreeExactly | ci/run-rpf88-r72-owner-scope.py:298-306 | They disagree exactly on tests with an adverse callback before a late success |
| HelperClosure.AcceptedExactly | ci/run-runtime-contract-tests.py:131-165 | A test is accepted exactly when every walk along self-calls that stops at the first owner prerequisite meets only declared methods, repeats none, stays within 32 and calls only approved outsiders |
| HelperClosure.ClosureExactly | ci/run-runtime-contract-tests.py:131-165 | A class is accepted exactly when all walks of all its tests are sound, and each test is then owner-bound exactly when a walk ends at an owner prerequisite |
| HelperClosure.SoundTestIsJudged | ci/run-runtime-contract-tests.py:142-165 | A test whose walks are all sound is accepted, and owner-bound exactly when one of them ends at an owner prerequisite |
| HelperClosure.BoundIsFirst | ci/run-runtime-contract-tests.py:142-163 | Of all paths to an owner prerequisite the first in call order is reported |
| HelperClosure.FirstOwnerExactly | ci/run-runtime-contract-tests.py:150-155 | The owner call that is reported is the first one of its method |
| HelperClosure.RefusalIsReal | ci/run-runtime-contract-tests.py:142-163 | Every refusal is shown by a walk that ends with what the refusal names |
| HelperClosure.RootExactly | ci/run-runtime-contract-tests.py:146-155 | The prerequisite that is reported is the first owner call, or without one the write to the hidden root |
| HelperClosure.UnboundExactly | ci/run-runtime-contract-tests.py:131-165 | A test is accepted as unbound exactly when every walk from it along self-calls is safe: declared methods without owner prerequisites, approved outsiders only, acyclic, at most 32 deep |
| HelperClosure.BoundIsRealPath | ci/run-runtime-contract-tests.py:153-155 | A reported chain is a call path of the class that ends at the owner prerequisite it names |
| HelperClosure.BoundExactly | ci/run-runtime-contract-tests.py:131-165 | An accepted test is owner-bound exactly when it reaches a method with an owner call or a hidden-root write |
| HelperClosure.ClosureCoversTests | ci/run-runtime-contract-tests.py:165 | An accepted class has exactly one verdict per test, that of its walk |
| HelperClosure.TruthfulExactly | ci/run-runtime-contract-tests.py:157-159 | The verdict tells the truth about all declared methods, for all bodies, exactly when none is named like an assertion |
| Routing.Classify | ci/run-runtime-contract-tests.py:196-216 | Accepts exactly valid ids without overlap, hidden known failure or idle rule; every id keeps its position and gets its one route |
| Routing.MatchesExactly | ci/run-runtime-contract-tests.py:203-206 | A rule covers a test exactly when its selector is the test or its class |
| Routing.NoOverlapExactly | ci/run-runtime-contract-tests.py:204-215 | When every rule is used, no id matches two rules exactly when no selector equals or is a dotted ancestor of another |
| Settlement.NativeEvents | ci/verify-runtime-coverage-handoff.py:152-186 | The reconstruction loop accepts exactly when the fold of the log settles the report |
| Settlement.NativeShape | ci/verify-runtime-coverage-handoff.py:160-186 | In an accepted log each selected id has exactly STARTED then PASS or SKIP, or no event and a skipped fixture |
| Settlement.NativeCounts | ci/verify-runtime-coverage-handoff.py:174-176 | Started and fixture-skipped tests add up to the selection |
| Settlement.ImplementationsAgreeExactly | ci/run-runtime-contract-tests.py:219-247 | On a report the reconstruction accepts, the router's check accepts with exit 0 exactly when fixture skips repeat no id and each names its exact module or class fixture |
| SettlementLogs.NativeFoldExactly | ci/verify-runtime-coverage-handoff.py:152-173 | The reconstruction gets through exactly the logs that name selected tests in order and each skipped fixture above one of them once |
| SettlementLogs.NativeAcceptsExactly | ci/verify-runtime-coverage-handoff.py:152-186 | It accepts exactly such a log with no test under two skipped fixtures, and a report whose skips, counts and rows say what the log says |
| SettlementLogs.ReconcilesExactly | ci/run-runtime-contract-tests.py:219-247 | The router settles a child exactly when its report is about the tests asked for and consistent with itself and the exit code, as many distinct ones of them started as were run, and the log bears out every row |
| SettlementLogs.FixtureOfTest | ci/run-runtime-contract-tests.py:242-244 | The fixture that may explain a skip carries the exact module or class name of the test |
| SettlementLogs.ProgressFoldExactly | ci/run-runtime-contract-tests.py:584-595 | Progress of a broken child is kept exactly when its log names only tests it was asked to run and fixtures that ended badly or were skipped, each test plausibly |
| SettlementLogs.MarkedExactly | ci/run-runtime-contract-tests.py:596-598 | A row the log mentions is executed with the last status reported for it, an error if that is only its start |
| Settlement.PartialProgress | ci/run-runtime-contract-tests.py:584-598 | Rejecting changes no row; accepting updates every row from the fold of the log |
| Settlement.ProgressPrefix | ci/run-runtime-contract-tests.py:584-598 | Every prefix of an accepted event log is accepted |
| Settlement.PartialProgressExactly | ci/run-runtime-contract-tests.py:596-598 | A row ends as PASS exactly when its events are STARTED then PASS; a dangling STARTED is ERROR; without events it is untouched |
| Settlement.OthersUntouched | ci/run-runtime-contract-tests.py:585-598 | Rows of tests the child was not asked to run are never touched |
| Ledger.Supervise | ci/run-runtime-contract-tests.py:601-668 | The finished records are those of the modules and the verdict of the incrementally kept flags is failed, passed or unavailable by what became of the modules: a broken child or a portable FAIL or ERROR; every portable test of an executed lane settled |
| Ledger.Project | ci/diagnose-runtime-router-gate.py:202-298 | The recomputed verdict is a function of the finished records alone |
| Ledger.LaneExactly | ci/run-runtime-contract-tests.py:601-668 | Every row carries the mark its child reported or left, NOT_RUN or UNAVAILABLE; the lane fails exactly when a child broke or reported FAIL or ERROR for a portable test, and is complete exactly when every portable test passed or was skipped |
| Ledger.ProjectedExactly | ci/diagnose-runtime-router-gate.py:202-298 | The diagnosis's verdict on what became of the modules |
| Ledger.VerdictsAgreeExactly | ci/diagnose-runtime-router-gate.py:286-291 | The two portable verdicts agree exactly when the lane failed, was executed or is incomplete; the overall ones exactly when it failed or a row is not portable |
| Ledger.IdleLaneDisagrees | ci/diagnose-runtime-router-gate.py:286-291 | A lane of unexecuted modules without portable rows on which they differ |
| Admission.Admit | ci/reconcile-rpf88-required-coverage.py:326-337 | A stage refuses exactly the inadmissible, otherwise rebuilds and counts every row, admitting all ids or none |
| Admission.StageConserves | ci/reconcile-rpf86-required-coverage.py:316-328 | Ids, order and total stay fixed, no row is demoted, and PASS grows and UNAVAILABLE shrinks by exactly the admitted number or nothing changes |
| Admission.StagesAreDisjoint | ci/reconcile-rpf88-required-coverage.py:326-337 | The two stages never admit the same row, and their gains add up |
| Manifest.ReadTree | ci/reconcile-rpf88-required-coverage.py:243-270 | The row loop and the directory listings accept exactly as specified |
| Manifest.AcceptsExactly | ci/reconcile-rpf88-required-coverage.py:243-270 | Listing only parents of declared files, the reader accepts exactly the trees with the declared files and nothing undeclared at any depth |
| Manifest.ReadWal | ci/reconcile-rpf88-required-coverage.py:250-262 | The log loop accepts exactly the sound logs: chained, sealed, one session, clocks never back, after an unknown outcome only reads |
| Manifest.EqualTipsEqualFrames | ci/reconcile-rpf88-required-coverage.py:250-262 | With a collision-free digest equal tips of two chained logs mean equal frame sequences |
| Manifest.SoundLogsWithEqualTips | ci/reconcile-rpf88-required-coverage.py:250-262 | Two accepted logs with equal tips are the same log of the same session |
| SideEffects.ToolExecutor.Execute | runtime/runproof_runtime/agent.py:106-214 | One tool call, as a function of executor, environment and the fate of its commands |
| SideEffects.ToolExecutor.Apply | runtime/runproof_runtime/agent.py:150-212 | The guarded change: blind retry, missing observation, precondition, write, transition, lost response; `ApplyExactly` says when it succeeds and what it then leaves |
| SideEffects.ToolExecutor.Reconcile | runtime/runproof_runtime/agent.py:122-148 | Reconciling an unknown outcome |
| SideEffects.DockerEnvironment.ApplyChange | runtime/runproof_runtime/docker_environment.py:296-307 | A change runs only in a verified environment and is receipted only after its read-back; `ApplyExactly` says when it succeeds and what it then leaves |
| SideEffects.DockerEnvironment.VerifyInitial | runtime/runproof_runtime/docker_environment.py:285-294 | Initial verification, with quarantine on mismatch |
| SideEffects.DockerEnvironment.Readiness | runtime/runproof_runtime/docker_environment.py:242-278 | Readiness, the controlled failure hook and quarantine |
| SideEffects.DockerEnvironment.Cleanup | runtime/runproof_runtime/docker_environment.py:321-333 | Cleanup, with quarantine when removal is not confirmed |
| SideEffectCalls.ApplyExactly | runtime/runproof_runtime/agent.py:149-212 | In every run an apply succeeds exactly when nothing is uncertain, the untouched seed was observed and is read again, and write and read-back succeed; then it counts one mutation, leaves the receipt, logs INITIAL to TARGET and is reported unknown exactly when a fault is planned |
| SideEffectCalls.ReconcileExactly | runtime/runproof_runtime/agent.py:123-148 | In every run a reconcile succeeds exactly when an outcome is unknown and the state can be read |
| SideEffectCalls.ReadExactly | runtime/runproof_runtime/agent.py:106-122 | In every run a read succeeds exactly when the command does and the file parses, and reports what the file holds |
| SideEffectCalls.MalformedChangesNothing | runtime/runproof_runtime/agent.py:100-106 | A malformed call raises and changes nothing |
| SideEffectCalls.UnplannedRunPasses | runtime/runproof_runtime/verifier.py:14-53 | A run without a fault that passes verification |
| SideEffectCalls.PlannedRunPasses | runtime/runproof_runtime/verifier.py:14-53 | A run with a planned fault that passes verification |
| SideEffectCalls.LifecycleExactly | runtime/runproof_runtime/docker_environment.py:175-333 | Which operation of the environment enters each stage of its lifecycle |
| SideEffectCalls.CleanupExactly | runtime/runproof_runtime/docker_environment.py:321-333 | What a cleanup leaves, for every outcome of the removal |
| SideEffectRuns.GatesExactly | runtime/runproof_runtime/docker_environment.py:242-333 | Only a verified environment is written, it is verified exactly by reading the seed after readiness, and quarantine holds until the container is provisioned anew |
| SideEffectRuns.WrittenAtMostOnce | runtime/runproof_runtime/agent.py:150-212 | For every sequence of calls and failures without late landings the state is physically written at most once |
| SideEffectRuns.SecondWriteExactly | runtime/runproof_runtime/docker_environment.py:296-307 | A second physical write happens exactly when a timed-out write lands after another |
| SideEffectRuns.LateLandingWritesTwice | runtime/runproof_runtime/docker_environment.py:23-38 | A run on which that happens |
| SideEffectRuns.NoWriteWhileUncertain | runtime/runproof_runtime/agent.py:151-162 | While an outcome is unknown no call touches the environment |
| SideEffectRuns.ReadableState | runtime/runproof_runtime/docker_environment.py:116-131 | In every run the readable state is INITIAL or TARGET exactly while no torn write is left behind, and a third state exactly when one torn in its last line is; while the outcome is unknown the receipt is there and the state is TARGET |
| SideEffectRuns.TornExactly | runtime/runproof_runtime/docker_environment.py:296-307 | In every run the file is torn exactly when an apply that passed every check had its write torn and no timed-out write landed after it |
| SideEffectRuns.TornWriteReadsAsThird | runtime/runproof_runtime/docker_environment.py:23-38 | A run that leaves the file readable as neither INITIAL nor TARGET |
| SideEffectRuns.LogRun | runtime/runproof_runtime/agent.py:106-225 | In every run every field of the snapshot is the corresponding statement about the event log, and every transition was observed before |
| RunVerifier.PassesExactly | runtime/runproof_runtime/verifier.py:14-53 | For every run in a freshly verified environment the verifier passes exactly when the final read succeeds and the log is conformant |
| RunVerifier.FaultRun | runtime/runproof_runtime/agent.py:180-199 | A planned run logs one fault per transition, an unplanned one none |
| Evaluation.CountOutcomes | runtime/runproof_runtime/evaluation.py:666-674 | The counting loop puts every item under its outcome, unknown ones under INVALID |
| Evaluation.CountsAreComplete | runtime/runproof_runtime/evaluation.py:666-674 | The counts add up to the number of items |
| Evaluation.RateRisesExactly | runtime/runproof_runtime/evaluation.py:677-687 | Every additional success is visible in the rate rounded to six digits exactly up to a million members |
| Evaluation.HiddenImprovement | runtime/runproof_runtime/evaluation.py:686 | At 1,000,001 members an improvement that the rounded rate hides |
| Evaluation.RatesAddUp | runtime/runproof_runtime/evaluation.py:686-687 | Success and failure rate add up to one after rounding |
| Evaluation.FullCoverageExactly | runtime/runproof_runtime/evaluation.py:696-713 | Rounded coverage is 1.0 exactly while gaps are at most one in two million |
| Evaluation.DeltaLaw | runtime/runproof_runtime/evaluation.py:1094-1139 | Pass and failure deltas as improvements, regressions and one-sided evidence, for all members |
| Evaluation.ComparableDeltas | runtime/runproof_runtime/evaluation.py:1094-1139 | Without incomparable members the pass delta is IMPROVED minus REGRESSED and the failure delta its negation |
| Evaluation.OutcomeDeltasCancel | runtime/runproof_runtime/evaluation.py:1116-1121 | Outcome deltas sum to zero |
| Evaluation.ClassExactly | runtime/runproof_runtime/evaluation.py:1044-1062 | The class of a member, by what its two results say |
| Evaluation.SummaryExactly | runtime/runproof_runtime/evaluation.py:1044-1112 | Each of the five verdicts of a comparison, on the results of its members |
| Evaluation.ImprovedExactly | runtime/runproof_runtime/evaluation.py:1044-1112 | CANDIDATE_IMPROVED exactly when some member improved and all others are unchanged; then the rounded rate strictly rises up to a million members |
| Ingest.IngestWithReconcile | runtime/runproof_runtime/control_plane_client.py:594-613 | At most two writes and one inserted row, no row changed, and a normal return means the stored row has the manifest's content hash |
| Ingest.RegisterExactly | control-plane/src/main/java/com/runproof/controlplane/CanonicalMetadataService.java:62-125 | The server's answer to a registration and what it stores |
| Ingest.EndingExactly | runtime/runproof_runtime/control_plane_client.py:594-613 | When a call ends how, as equivalences over everything that can happen to it |
| Ingest.LostResponseIsRecovered | runtime/runproof_runtime/control_plane_client.py:594-613 | After a lost response to a stored write the client finds its row and returns without a second write |
| Ingest.SecondWriteExactly | runtime/runproof_runtime/control_plane_client.py:597-613 | A second write is sent exactly when the first outcome was uncertain and the read found no row |
| Ingest.OthersStore | control-plane/src/main/java/com/runproof/controlplane/CanonicalMetadataService.java:62-125 | Other writers store whatever has a free identity and a free key, and nothing else |
| Ingest.OthersKeep | control-plane/src/main/java/com/runproof/controlplane/CanonicalMetadataService.java:62-125 | Registrations never change or remove a row |

## Left out

- Authentication, roles, field and schema shape checks, error texts: plumbing; frames and
  rows whose single fields are malformed are those a decoding returns nothing for.
- JSON, SHA-256 and regular expressions: an arbitrary injective framing, a collision-free
  hash, and names as component lists take their place.
- The audit-hook path guards: sandbox scoping; only their denial and listing counters are
  modelled.
- Other jobs of the same server: operation and evidence ids are those of one job, so the
  refusals for an id that belongs to another job are not modelled.
- Submission, discovery, pagination and metrics endpoints: a run starts at the submitted
  row.
- The statistical-trial branch of the worker: it differs from the evaluation branch in
  the entity it names and in the outcome it reports, which a completion accepts only as PASS.
- The lease renewer's timing: a renewal is a step that may happen at any moment.
- The short gap between a worker hashing the evaluation file and sending the hash: both
  are one step of a world.
- DurableWorker.Worker.ReconcileJob: one pass is not overtaken by other writers;
  `DurableWorld` has the interleavings, with cancellation and reconcile requests as
  arbitrary closing or outside requests.
- DurableWorker.Worker.CancelIfRequested: one pass without lost or overtaken requests, as
  for the reconcile pass.
- DenialRecovery.TruncationRecovers: the strictly rising clock is a hypothesis, because the
  reader demands it and the writer does not check it.
- Files of the owner-scope journal with frames behind a failed write: their bytes are
  specified, but whether a line that begins with a torn frame decodes depends on the framing.
- SideEffectRuns.WrittenAtMostOnce: a write that is reported failed has reached the file,
  whole or torn, or not at all, by the time it is reported, or lands whole as a later step.
- Manifest.ReadTree: paths are component lists, so the lexical order of the rows, size
  bounds and reparse points are not modelled.
- Ledger.Project: receipt and aggregate validation are not modelled.
- Ledger.Supervise: receipts, provenance fields and the counts per mark are not modelled.
- Evaluation.RateRisesExactly: rates are exact rationals; the binary floating-point
  quotient that is rounded in the source is not modelled.
- Evaluation metrics (tokens, cost, latency), suite building and artifact validation: they
  would only add easy members.
- Provider client, CLI, demo, web interface, documentation checks and the one-off assessors
  of later revisions: not part of this model.
