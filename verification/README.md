# Verified model of the Octagon attempt and scoring backend

This project models the backend that runs agent attempts, scores them, and shows the results, and proves
what its parts keep over whole runs.

* **Attempt and scoring protocol.** `AttemptTables` states every SQLite transaction on attempts, scoring jobs,
  outbox, judge runs and runs as a function; `AttemptStore` is the imperative store whose methods perform them
  statement by statement, with the effect that `AttemptEffects` names: what a transaction lets happen next,
  what it keeps for ever, and what it does not touch. `AttemptRows` says value by value what it leaves in the
  row it writes, with all statuses written out. `ScoringProtocol` is the state machine of dispatch, worker,
  rejudge route, Stop, sweeper, crash and restart: one step per transaction, any interleaving, a crash between
  any two steps. On it rest `CommitHistory` (one commit per job, revisions, final execution conclusions),
  `CommitRecords` (judge runs match the commits they describe), `ScoreSafety`, `StopConditions`, `ScoreRuns`
  and `RejudgeConditions` (the last good score is never lost, and exactly when it is), `LostScore` (a run that
  loses it), `RejudgedViolations` (what brings an attempt that violated its model contract a score),
  `LateCommit` (a late commit that loses its score), `SkippedCommits` (what closes a scoring axis, and
  attempts that nothing closes), `SweepConclusions` (what a swept attempt shows), `Convergence` (convergence,
  Stop, sweep, run projection) and `IsoTime` (string order of timestamps against time order).
* **Ledgers.** `ModelIntegrity` and `IntegrityLatch` (the latch and its caches), `AttemptRunner` (the decision
  table after an adapter returns), `Idempotency`, `RunCreation` and `DispatchLeases`.
* **Frozen scoring input.** `FileTrees`, `SnapshotRules`, `SnapshotStore`, `SnapshotIsolation` and
  `FrozenScoring`: trees over shared inodes, the making and unpacking of snapshots, what can leak into them,
  and what a score was computed from.
* **Arithmetic and bounded views.** `ArtifactWalk`, `ArtifactContents`, `ArtifactTotals`, `ArtifactTree`,
  `ArtifactListing`, `PathKeys`, `Pricing`, `PricingLaws`, `PricingTable`, `CellReferences`, `Workbook`,
  `Document`.

## What the proofs found

Where the code does not give what its comments or documentation promise, the code is modelled as it is and
the exact condition is proved.

1. A failed rejudge restores the score saved when the request was prepared, not the latest one. Three
   overlapping requests lose a better score without any Stop or crash
   (`LostScore.OverlappingRejudgesLoseAScore`). A submission is safe exactly if it is fresh
   (`RejudgeConditions.SubmissionExact`). Every submission is fresh in runs with one rejudge at a time, asked
   for when the task of the attempt is gone, in which late commits meet no request, Stops are harmless, and nothing fails or is finalized after its commit
   (`RejudgeConditions.PoliteRunsAreLawful`); the exact conditions behind the last three are in item 2.
2. Stopping a queued rejudge loses the earlier score, stopping a job after its commit loses the new one,
   stopping a running uncommitted one loses nothing (`StopConditions.StopScoringExact`).
   The failure path of the worker likewise does not look whether the job has committed: an error after
   the commit brings the saved score back (`StopConditions.LateFailureExact`). A worker that was cancelled while
   its commit was under way commits all the same; the score is safe exactly if no newer job of the attempt is in
   flight without a commit of its own (`StopConditions.LateCommitExact`); otherwise the failure of that job loses
   it, even with one rejudge at a time (`LateCommit.LateCommitsLoseAScore`). And the handlers that
   finalize an attempt without a score, among them the one around the inline scoring at recovery, empty the
   row even after a commit (`StopConditions.FinalizationExact`).
3. A crash between a Stop and the worker's reaction leaves the job `running` for ever, and every later
   rejudge of that attempt is refused (`RejudgeConditions.CrashedStopBlocksRejudges`); a claim, a Stop and a crash
   get there (`RejudgeConditions.JobsGetStuck`). A restart takes a job up again exactly if it was in flight and
   not stopped (`AttemptEffects.RecoveryEffect`).
4. A failed rejudge rebuilds the legacy status from the execution axis and ignores the saved one, so
   `gave_up` becomes `completed` (`RejudgeConditions.FailedRejudgeRestores`).
5. A Stop whose only open work is scoring leaves the run status stale
   (`Convergence.StopOfScoringAloneKeepsRunStatus`): a stopped run shows its projection exactly if the Stop
   converged one of its attempts or it showed it before (`Convergence.StopProjectsExactly`).
6. The already-committed branch of the worker completes the job and leaves the attempt at
   `scoring`/`running`; a commit, a crash and a restart get there (`SkippedCommits.SkippedCommitsAreHeldUp`). After
   that branch the scoring axis is closed exactly if a Stop or a sweep closed it since the claim
   (`SkippedCommits.SkipClosesNothing`); from there it stays in flight and every rejudge is refused exactly until a
   Stop or a sweep reaches the attempt (`SkippedCommits.HeldUntilHalted`); and without a scoring deadline, or after
   one more restart, no sweep ever does (`SkippedCommits.HeldForEver`).
7. The scoring pass of the sweeper overwrites an open legacy status with `scoring_failed`, while the
   comments of the scoring queue say that the top-level status keeps the execution conclusion. A row swept for its
   scoring keeps its status exactly if that was closed (`SweepConclusions.LegacyStatusExact`); in reachable states it
   never is, so that no such row shows the conclusion of its execution
   (`SweepConclusions.SweptScoringLosesTheConclusion`, `SweepConclusions.AConclusionIsLost`).
8. The iteration controller writes deadlines with microseconds (`backend/iteration/controller.py:49`) into
   a column the sweeper compares as a string: such a deadline counts as passed from the start of its
   second (`IsoTime.DeadlineBeforeCutoff`).
9. Reconciliation at startup can complete a key whose result exists, but no reachable running row carries a
   result, so it always fails them (`Idempotency.ReconciliationOnlyFails`). A run whose creation was
   interrupted after its first attempt stays short for ever and is replayed as it is
   (`RunCreation.ShortExactly`, `RunCreation.ShortRunsArePermanent`).
10. Freezing identical content a second time makes the shared files of the published snapshot writable again
    (`SnapshotIsolation.RepublishingThaws`). An attempt file that was copied still leaks if another hard
    link of it was linked (`SnapshotIsolation.WriteLeaksExactly`). Checking before and after the evaluation
    does not exclude a write that is taken back in between (`FrozenScoring.WrittenBackUnnoticed`).
11. Cost under guessed input semantics is not additive (`PricingLaws.AutoLoss`), and the total is no lower
    bound when the true cache-write rate is below the prompt rate it falls back to
    (`PricingLaws.WriteFallbackMayExceed`).
12. The `truncated` flag of a document does not cover the fixed limits on header and footer parts
    (`Document.SilentLimitsExactly`).
13. An attempt that violated its model contract is never queued or scored by the runner, whose comment says it
    must never enter scoring or ranking. A later rejudge of it is accepted all the same, since the checks read
    the execution axis and no integrity column: the attempt ends as `completed`, with a score and an outbox
    row (`RejudgedViolations.ViolatedAttemptsAreScoredByARejudge`). Nothing but a rejudge does this
    (`RejudgedViolations.ViolatedAttemptsNeedARejudge`).
14. The record of a judge run reads the newest revision and the score of the row at that moment. A Stop or the
    late commit of a cancelled worker between a commit and its record makes the record describe something
    else (`CommitRecords.RecordExact`); without them it never does (`CommitRecords.JudgeRunsMatchCommits`).
15. A preview is flagged as truncated although nothing is missing exactly when a budget was used up before
    trailing rows or elements that show nothing, or, for a workbook, when it holds exactly 10,000 cells
    (`Workbook.RenderRows`, `Workbook.RenderWorkbook`, `Document.RenderBody`).
16. Changing the lease capacity while a woken task has not run yet lets more attempts become active than any
    capacity allows (`DispatchLeases.ResizingBreaksTheBound`). A resize is safe exactly if nobody waits for the
    semaphore it replaces (`DispatchLeases.ResizeExactly`), and then the bound holds over the whole run
    (`DispatchLeases.LeasesAreBounded`).

## Model

| member | source | states |
|---|---|---|
| IsoTime.WholeSecondsSortByTime | backend/db.py:1881-1906 | Timestamps of the service's own writers compare as strings exactly as in time, over the whole range of `datetime`. |
| IsoTime.MixedFormsSortByTime | backend/iteration/controller.py:46-56 | With the microsecond form in play, string order is time order except exactly when both share a second and are written differently in the listed ways. |
| IsoTime.DeadlineBeforeCutoff | backend/sweeper.py:44-63 | What the sweeper's comparison decides for a whole-second cutoff: a fractional deadline passes from the start of its second. |
| IsoTime.ParseRender | backend/db.py:1885-1892 | Reading a written timestamp gives back the time that was written. |
| IsoTime.TicksAreSeconds | backend/db.py:1881-1906 | Seconds count the ticks of the clock and calendar, through months of every length and leap years. |
| AttemptStore.Store.constructor | backend/db.py:157-178 | A new store holds empty tables. |
| AttemptStore.Store.InsertAttempt | backend/runner.py:123-170 | A new attempt is open, unscored and within reach of a Stop of its run, and nothing that existed changes; a taken id inserts nothing. |
| AttemptStore.Store.StartExecution | backend/run_dispatch.py:874-903 | A queued attempt runs afterwards under the deadline given, and its queued run with it; an execution that is over is never reopened, starting again changes nothing, and no other row, run, job or commit is touched. |
| AttemptStore.Store.EnqueueScoringJob | backend/scoring_queue.py:133-171 | Job and execution result are written together or, exactly on a second job of the same scorer version, not at all; the execution is `completed`, `timeout` or `failed` by what the adapter said, the attempt is unscored and waits for scoring; the job can be claimed, and until it is over rejudges and that version are refused. |
| AttemptStore.Store.FinalizeWithoutScore | backend/runner.py:829-872 | The attempt is closed without a score under the status given, with the execution and scoring values of each status; a later rejudge is refused exactly after a cancellation or while a job is in flight; nothing else changes. |
| AttemptStore.Store.ClaimJob | backend/scoring_queue.py:293-319 | A claim succeeds exactly for a queued job nobody stopped; job and scoring axis run, under the deadline given; from then on that job, and no other, is lost to every other worker, the attempt is closed for rejudges, and no score or execution axis moves. |
| AttemptStore.Store.FinishJobFailure | backend/scoring_queue.py:376-455 | The job is over; its attempt has exactly the saved score, keeps its execution axis, and shows for each outcome of the job and the execution the status listed; nothing else changes. |
| AttemptStore.Store.NextScoreRevision | backend/experiments/scoring.py:124-143 | The loop finds the first free revision above the judge runs. |
| AttemptStore.Store.CommitScoringResult | backend/experiments/scoring.py:146-300 | A commit is refused exactly for a job that has one. Otherwise the attempt is `completed` or `gave_up` by whether the evaluation passed, its scoring is completed and an open execution with it; row and newest outbox entry show the score under the least free revision above every earlier commit and judge run, the job can never commit again, and nothing else changes. |
| AttemptStore.Store.RecordJudge | backend/provenance.py:338-379 | One judge run is added, with the least number above every earlier one of the attempt and not below any of its commits, and the score the row shows. |
| AttemptStore.Store.Complete | backend/scoring_queue.py:727-739 | The job is over; of its attempt only the scoring axis changes, so score, status and execution stay what the commit left; the attempt is free for a rejudge exactly if no other job of it is in flight. |
| AttemptStore.Store.CompleteCommitted | backend/scoring_queue.py:495-509 | The job is over and the attempt row is left exactly as it was, also where it says `running`. |
| AttemptStore.Store.Requeue | backend/scoring_queue.py:755-768 | The job can be claimed again exactly if it was in flight and nobody stopped it; job and scoring axis are queued if they ran and untouched otherwise; score, status and execution stay. |
| AttemptEffects.InterruptionEffect | backend/scoring_queue.py:742-770 | A cancelled worker fails its job with the saved score if somebody stopped it, and gives it back otherwise. |
| AttemptStore.Store.StartupScoringRecovery | backend/scoring_queue.py:860-878 | Scheduled are exactly the jobs in flight that nobody stopped, queued again; a running scoring axis is queued again and shows as `scoring`; every other job and row, every score and every execution axis stays; a second recovery changes nothing. |
| AttemptStore.Store.PrepareRejudgeOf | backend/scoring_queue.py:189-271 | Accepted exactly when the execution came to an end of its own and nothing of its scoring is in flight; then no job of the attempt is left and any scorer version can be queued, all other jobs and all rows stay, and a second request is still accepted. |
| AttemptStore.Store.CancelScoringForRuns | backend/scoring_queue.py:881-931 | Of the jobs in flight in the runs the queued ones are cancelled and the running ones marked, none can be claimed any more; exactly their attempts are unscored with a cancelled scoring axis, and `scoring` becomes `cancelled`; nothing else changes, also not by stopping again. |
| AttemptStore.Store.RefreshRunStatus | backend/run_dispatch.py:956-1005 | Only the run of the attempt changes: it is running, scoring, completed, cancelled or failed exactly under the condition each of these has over the attempts of the run; a further refresh for any of them changes nothing. |
| AttemptStore.Store.ConvergeEach | backend/convergence.py:62-111 | The loop converges exactly the listed open rows, axis by axis, and reports exactly those. |
| AttemptStore.Store.ConvergeRows | backend/convergence.py:42-121 | Convergence and the projections that follow it. |
| AttemptStore.Store.ReprojectEach | backend/convergence.py:113-131 | Refreshing the runs of the touched rows one by one, in any order, gives every such run its projection. |
| AttemptStore.Store.Stop | backend/api.py:1948-2015 | Afterwards every open status, execution and scoring axis of the stopped runs says `cancelled`, and the others are what they were; an attempt whose job was stopped has no score, and any other keeps its own; nothing of those runs can be claimed; a run in which something was executed shows what its attempts show; rows of other runs and commits stay; stopping again changes nothing. |
| AttemptStore.Store.SweepOnce | backend/sweeper.py:66-128 | Each row fares by its own two deadlines, with the status, execution and scoring it then shows; nothing stays overdue; jobs and commits stay; the counts are the overdue executions and the overdue scorings of the other rows. |
| Convergence.ConvergenceCloses | backend/convergence.py:69-111 | Every listed row is closed on all axes; closed axes, scores, deadlines, other rows, jobs and outbox stay. |
| Convergence.FirstWriterWins | backend/convergence.py:83-100 | A second convergence under any policy changes and reports nothing. |
| Convergence.OpenRowsAreTheRowsToConverge | backend/convergence.py:139-152 | The listed open attempts are exactly the rows convergence would report and would change. |
| Convergence.StopClosesEveryAxis | backend/convergence.py:155-168 | After a Stop nothing in its runs is open and no open attempt is listed; existing conclusions stay. |
| AttemptEffects.StoppedOpenRunIsCancelled | backend/convergence.py:155-168 | A run that is stopped while something executes and every attempt is open ends as `cancelled` with all its attempts, and no attempt that executed can be rejudged. |
| Convergence.StoppedJobsStayStopped | backend/scoring_queue.py:881-931 | After a Stop no job of its runs can be claimed. |
| Convergence.StopIsIdempotent | backend/api.py:1948-2015 | A repeated Stop changes nothing at all. |
| Convergence.ProjectionMeaning | backend/run_dispatch.py:956-1005 | When a run is running, scoring, completed, cancelled, failed or left alone, and when it is terminal. |
| AttemptRows.ProjectionDecided | backend/run_dispatch.py:956-1005 | A run with attempts gets exactly the one status whose own condition on the columns of its attempts holds; a run without attempts gets none. |
| AttemptRows.CommittedRunsComplete | backend/experiments/scoring.py:223-235 | A run whose attempts were each written last by a commit is completed, passed or not. |
| Convergence.ProjectionForgetsHistory | backend/run_dispatch.py:956-1005 | Whatever refreshes happened before in whatever order, one refresh at the end gives the same run status. |
| Convergence.StopProjectsConvergedRuns | backend/convergence.py:113-116 | A Stop that converges an attempt of a run leaves that run terminal and equal to its projection. |
| Convergence.StopOfScoringAloneKeepsRunStatus | backend/convergence.py:83-84 | A Stop with only scoring open leaves the run status as it was, against the projection. |
| Convergence.StopProjectsExactly | backend/convergence.py:83-116 | After a Stop a run equals its projection exactly if one of its attempts was converged or it did before. |
| Convergence.OverdueIsBeforeCutoff | backend/sweeper.py:70-99 | A deadline column is before the cutoff exactly if the deadline plus the grace period has passed. |
| Convergence.SweepIsExact | backend/sweeper.py:66-128 | After a sweep no running axis is past deadline plus grace, and each row changed exactly by its own lateness: which rows change, that they are closed, and the status, execution and scoring value each gets. |
| SweepConclusions.LegacyStatusExact | backend/sweeper.py:116-128 | A row swept for its scoring keeps its status exactly if that was closed, gets `scoring_failed` otherwise, and shows its execution conclusion exactly if it did before. |
| SweepConclusions.SweptScoringLosesTheConclusion | backend/scoring_queue.py:376-395 | In every reachable state a row with overdue scoring has an open status, so the sweep makes it `scoring_failed` and it does not show its execution conclusion. |
| SweepConclusions.AConclusionIsLost | backend/sweeper.py:116-128 | A reachable completed execution whose attempt ends as `scoring_failed` and whose run ends as `failed`. |
| ScoringProtocol.WorkerKeepsExecution | backend/scoring_queue.py:458-841 | No worker step reopens an execution axis or leaves a job of an open execution. |
| ScoringProtocol.DispatchKeepsExecution | backend/run_dispatch.py:874-903 | Nor does creation, start or the end of an execution. |
| ScoringProtocol.SweepingKeepsExecution | backend/sweeper.py:101-128 | Nor do Stop, both sweeps and the run projection; the scoring sweep meets only closed executions. |
| ScoringProtocol.OtherKeepsExecution | backend/recovery.py:521-565 | Nor do rejudge requests, a crash and the classification of attempts at restart. |
| ScoringProtocol.StepKeepsExecution | backend/scoring_queue.py:133-171 | Every step keeps the execution invariant and never reopens a closed execution axis. |
| ScoringProtocol.RunsKeepExecution | backend/scoring_queue.py:311-316 | The same over every run from every state that satisfies the invariant. |
| ScoringProtocol.RunsCompose | backend/scoring_queue.py:458-770 | Runs can be continued. |
| ScoringProtocol.ExecutionNeverReopens | backend/convergence.py:62-110 | Over every interleaving: a closed execution axis stays closed, jobs exist only for closed executions, no execution axis holds `scoring_failed`, and scoring in flight shows as `scoring`. |
| CommitHistory.CommitIsNewest | backend/experiments/scoring.py:124-143 | Although the scan only looks above the judge runs, a commit takes a revision above all earlier ones. |
| CommitHistory.CommitKeepsRevisions | backend/experiments/scoring.py:124-143 | Revisions of an attempt stay strictly increasing in commit order, without gaps above the last judge run. |
| CommitHistory.RecordKeepsRevisions | backend/provenance.py:338-354 | A judge run keeps the revisions ordered, also after skipped records. |
| CommitHistory.LatestHasHighestRevision | backend/db.py:623-637 | The row with the highest revision is the last commit. |
| CommitHistory.StepKeepsHistory | backend/scoring_queue.py:351-363 | Every step keeps one row per job and ordered revisions, and only appends to the outbox. |
| CommitHistory.RunsKeepHistory | backend/scoring_queue.py:860-878 | The same over every run. |
| CommitHistory.JobsCommitAtMostOnce | backend/scoring_queue.py:495-509 | No scoring job is committed twice, whatever crashes and requeueings happen between commit and completion. |
| CommitHistory.ConclusionsAreFinal | backend/scoring_queue.py:205-211 | Once its task is gone, an execution conclusion never changes; rejudging never turns a cancellation into a failure. |
| CommitRecords.RecordExact | backend/provenance.py:338-379 | Whatever happened since the commit: the judge run has the number of the worker's own commit exactly if that is still the last of the attempt and not judged, and its score exactly if the row still shows it. |
| CommitRecords.RunsKeepRecords | backend/scoring_queue.py:690-702 | Every lawful run in which no late commit lands between a commit of the same attempt and its record keeps: each judge run matches a commit, and each worker about to record owns the last commit. |
| CommitRecords.JudgeRunsMatchCommits | backend/provenance.py:338-354 | In every such run every judge run has the number and score of a commit, namely of the worker that recorded it, whatever else interleaved. |
| ScoreSafety.EnqueueKeepsLaw | backend/scoring_queue.py:107-110 | Queueing keeps the score law if nothing is in flight and the saved score is the row's. |
| ScoreSafety.FailureKeepsLaw | backend/scoring_queue.py:431-455 | A failure before the commit keeps the score law. |
| ScoreSafety.FinishKeepsLaw | backend/scoring_queue.py:727-739 | Completion after the commit keeps the score law. |
| ScoreSafety.PrepareKeepsLaw | backend/scoring_queue.py:229-241 | Preparing a rejudge keeps the score law. |
| ScoreSafety.CommitExact | backend/experiments/scoring.py:146-300 | A commit, by a job in flight, a cancelled worker or inline, keeps the score law exactly if every other job of the attempt in flight has committed. |
| ScoreRuns.StepKeepsScores | backend/scoring_queue.py:458-770 | Every lawful step keeps the invariant behind the score law. |
| ScoreRuns.RunsKeepScores | backend/scoring_queue.py:458-770 | The same over every lawful run. |
| ScoreRuns.LastGoodScoreSurvives | backend/scoring_queue.py:431-455 | Over every run with rejudges, harmless Stops, failures, sweeps, crashes: at rest an attempt shows its latest commit; while an uncommitted job is in flight that score is saved in the job. |
| RejudgeConditions.SubmissionExact | backend/api.py:2017-2058 | A submission that takes effect keeps the score law exactly if no job is in flight and the saved score is the row's, and the invariant exactly if in addition no task executes the attempt. |
| StopConditions.LateFailureExact | backend/scoring_queue.py:824-841 | A failure keeps the score law exactly if the job has not committed or saved the very score it committed. |
| RejudgeConditions.FailedRejudgeRestores | backend/scoring_queue.py:397-455 | What a failed rejudge leaves behind, and exactly when the legacy status comes back. |
| RejudgeConditions.PoliteRunsAreLawful | backend/scoring_queue.py:212-218 | One rejudge at a time, late commits that meet no request, harmless Stops, and no failure or finalization after a commit make every submission fresh and the whole run lawful. |
| RejudgeConditions.PoliteRunsKeepTheScore | backend/scoring_queue.py:431-455 | Such runs end, at rest, with the latest committed score. |
| StopConditions.StopScoringExact | backend/scoring_queue.py:897-916 | Stopping scoring keeps the score law exactly if every stopped job is uncommitted and, if queued, has no earlier score. |
| StopConditions.StoppedRejudgeRestores | backend/scoring_queue.py:746-754 | The worker of a stopped running rejudge puts the earlier score back. |
| StopConditions.FinalizationExact | backend/recovery.py:521-600 | Finalizing without a score keeps the score law exactly if the row shows none. |
| StopConditions.LateCommitExact | backend/scoring_queue.py:742-770 | The commit of a cancelled worker keeps the score law exactly if every job of the attempt in flight is its own or has committed. |
| RejudgeConditions.CrashedStopBlocksRejudges | backend/scoring_queue.py:860-878 | A stopped running job whose worker died stays running for ever and blocks every rejudge. |
| RejudgeConditions.JobsGetStuck | backend/scoring_queue.py:881-931 | Such a job is reached by a claim, a Stop and a crash. |
| SkippedCommits.ScoringAxisExactly | backend/scoring_queue.py:293-319 | Over every run from every state: the scoring axis is in flight exactly if the last transaction that moved it was a claim or a submission. |
| SkippedCommits.SkipClosesNothing | backend/scoring_queue.py:495-509 | After the already-committed branch the job is completed and the scoring axis is closed exactly if a Stop or a sweep closed it since the claim. |
| SkippedCommits.HeldUntilHalted | backend/scoring_queue.py:205-218 | Over every run from there the axis stays in flight and every rejudge is refused exactly until a Stop or a sweep reaches the attempt. |
| SkippedCommits.HaltFrees | backend/convergence.py:83-100 | That Stop or sweep makes a rejudge acceptable unless the execution was cancelled. |
| SkippedCommits.ListedExactly | backend/sweeper.py:44-63 | The sweeper lists such an attempt exactly if its running scoring axis is past its deadline. |
| SkippedCommits.HeldForEver | backend/scoring_queue.py:860-878 | Without a scoring deadline, or after a further restart, only a Stop that lists the attempt ever frees it. |
| SkippedCommits.SkippedCommitsAreHeldUp | backend/scoring_queue.py:495-509 | A reachable state with a completed job, no task, a committed score and the attempt at `scoring`/`running` for ever. |
| LostScore.OverlappingRejudgesLoseAScore | backend/api.py:2017-2058 | A reachable state at rest that shows 50 although 80 was committed later. |
| LateCommit.LateCommitsLoseAScore | backend/scoring_queue.py:742-770 | A reachable state at rest that shows 50 although a cancelled worker committed 80 later, with one rejudge at a time. |
| RejudgedViolations.ViolationIsRejudgeable | backend/scoring_queue.py:205-218 | A rejudge of an attempt finalized for violating its contract is accepted exactly if no job of it is in flight. |
| RejudgedViolations.ViolatedAttemptsAreScoredByARejudge | backend/runner.py:448-462 | A reachable state in which such an attempt is `completed`, has a score and an outbox row. |
| RejudgedViolations.OnlyRejudgesBringJobs | backend/api.py:2017-2058 | Over every run such an attempt gets a job exactly if a rejudge of it is submitted; without one it never has a job or an outbox row. |
| RejudgedViolations.ViolatedAttemptsNeedARejudge | backend/scoring_queue.py:189-271 | Over every run after its conclusion: without an accepted rejudge request nothing is ever queued, scored or committed for it. |
| ModelIntegrity.NormalizeIdentifies | backend/model_integrity.py:80-89 | Two contracts name the same model exactly if they are equal or differ in the provider's own prefix. |
| ModelIntegrity.PrefixStrips | backend/model_integrity.py:80-89 | The prefix is the provider name without the slashes around it, and one slash. |
| ModelIntegrity.ShortenedNames | backend/model_integrity.py:92-95 | Names in a violation message have at most 200 characters and keep their beginning. |
| ModelIntegrity.CachedStepAgrees | backend/model_integrity.py:98-174 | One cached observation decides and records as the uncached one, up to the time. |
| ModelIntegrity.CachesAreInvisible | backend/model_integrity.py:43-52 | The same over every sequence of observations with the caches emptied anywhere. |
| ModelIntegrity.Recorder.constructor | backend/model_integrity.py:43-46 | A new recorder starts with empty, consistent caches. |
| ModelIntegrity.Recorder.ResetCaches | backend/model_integrity.py:49-52 | Empties both caches and nothing else. |
| ModelIntegrity.Recorder.ExpectedModel | backend/model_integrity.py:65-77 | Finds the contract of exactly the existing attempts, from cache or table. |
| ModelIntegrity.Recorder.Record | backend/model_integrity.py:98-174 | Skipped or written, the rows are those of a recorder that always writes, up to the time; the caches stay true, a violation latches the row, and a match is skipped from then on. |
| ModelIntegrity.Recorder.Check | backend/model_integrity.py:177-309 | A proxied request is allowed exactly if it names the model of the contract without the provider prefix, or the contract itself where it has no such prefix; a reported model likewise, with or without a provider; the refusal says whether the model is missing or another; the attempt row is latched accordingly, and all is as without caches. |
| IntegrityLatch.FirstSeenOrder | backend/model_integrity.py:128-137 | The observed list has no duplicates and the order of first occurrence. |
| IntegrityLatch.LatchMeaning | backend/model_integrity.py:128-171 | Violated iff some observation violated, verified iff something was observed and nothing violated; list, count and code. |
| IntegrityLatch.CachedLatchMeaning | backend/model_integrity.py:98-174 | The same for the rows of the cached recorder after any sequence of observations of all attempts, with names in order and the last code. |
| IntegrityLatch.LatchOverObservations | backend/model_integrity.py:98-309 | Over the observations themselves, with caches emptied anywhere: violated exactly if one of them named no model or another one, verified exactly if there was one and none did; the count is that of those, and the list holds exactly the names observed. |
| AttemptRunner.Conclude | backend/runner.py:341-531 | The early returns amount to: scoring is reached exactly under the listed conditions, otherwise the status names who is to blame. |
| AttemptRunner.ConclusionDecided | backend/runner.py:341-531 | The whole table with its statuses written out: who is queued, who is scored inline, and under which status everybody else ends. |
| AttemptRunner.RunnerNeverScoresViolations | backend/runner.py:434-462 | The runner itself never queues or scores an attempt of which an observation before the adapter returned named no model or another one; a later rejudge does. |
| Idempotency.Ledger.constructor | backend/db.py:1465-1481 | A new ledger knows no key. |
| Idempotency.Ledger.ClaimKey | backend/db.py:1465-1515 | A grant takes a key nobody holds, so that every later claim of it is busy or in conflict; any other answer changes nothing; other keys are untouched. |
| Idempotency.Ledger.Complete | backend/db.py:1518-1541 | Succeeds exactly for a key in hand; from then on its request is answered with the stored result and any other is in conflict; otherwise nothing changes. |
| Idempotency.Ledger.Fail | backend/db.py:1544-1551 | Sets free exactly a key in hand, for its own request only; other keys and finished keys are untouched. |
| Idempotency.Ledger.Reconcile | backend/db.py:1554-1586 | Nothing stays in progress; exactly the running keys whose result exists are completed, with the stored answer or one made of the id; all others stay; and the count is that of the running keys. |
| Idempotency.ReconciliationResolves | backend/db.py:1554-1586 | Each key by itself: which operations can be completed, under which condition, and with which answer. |
| Idempotency.KeysKeepTheirRequest | backend/db.py:1482-1493 | A key keeps its request hash for ever, and a completed row never changes. |
| Idempotency.CompletedKeysReplay | backend/db.py:1497-1506 | After its completion a key replays the stored result to its own request and refuses every other. |
| Idempotency.GrantsAreSeparated | backend/db.py:1507-1515 | Between two granted claims of a key lies a fail or a reconciliation that released it. |
| Idempotency.ReconciliationOnlyFails | backend/db.py:1507-1512 | In every reachable state a running key has no result, so reconciliation fails it. |
| RunCreation.StepKeepsInvariant | backend/run_service.py:394-436 | Every step of keyed creation keeps one run per key, built from one plan. |
| RunCreation.OneRunPerKey | backend/run_service.py:394-436 | Over any requests, errors and restarts a run only grows, and never again once nobody builds it. |
| RunCreation.CompletedKeysFindTheirRun | backend/run_service.py:415-423 | A completed key always finds its run and answers with exactly its attempts. |
| RunCreation.ShortExactly | backend/run_service.py:466-562 | A run becomes short exactly by an error or crash after its first and before its last attempt. |
| RunCreation.ShortRunsArePermanent | backend/run_service.py:424-436 | A short run is never repaired; the retried key completes with the attempts there are. |
| DispatchLeases.StepKeepsCounts | backend/run_service.py:587-680 | The counters equal the lease holders and the open run groups after every step. |
| DispatchLeases.LeasesAreBounded | backend/run_service.py:622-680 | Over every run whose resizes find nobody waiting, the active attempts never exceed the capacity in force, nor their maximum the largest one; legacy runs are admitted exactly while no group is active. |
| DispatchLeases.BoundedExactly | backend/run_service.py:587-680 | With no lease of an older semaphore held, the active attempts stay within the capacity in force on every continuation up to the next resize exactly if nobody can come out of an older semaphore. |
| DispatchLeases.ResizeExactly | backend/run_service.py:587-599 | A resize keeps that bound exactly if nobody waits for the semaphore it replaces. |
| DispatchLeases.ResizingBreaksTheBound | backend/run_service.py:587-599 | With two capacities three attempts become active at once. |
| FileTrees.WriteAllReaches | backend/scoring_snapshot.py:90-126 | Writes reach exactly the named inodes and are seen there as a change. |
| FileTrees.LastWriteShows | backend/scoring_snapshot.py:90-126 | The last write to a file, through whichever of its names, is what the file holds. |
| FileTrees.ManifestsAgreeExactly | backend/scoring_snapshot.py:194-250 | Two trees have one manifest exactly if they have the same paths, the same folders and the same bytes in every file. |
| SnapshotStore.Volume.constructor | backend/scoring_snapshot.py:312-325 | An empty volume. |
| SnapshotStore.Volume.Copy | backend/scoring_snapshot.py:63-87 | The copy shows the original's bytes and permission in a file no other name reaches, and nothing that existed changes. |
| SnapshotStore.Volume.LinkOrCopy | backend/scoring_snapshot.py:63-87 | Links exactly when the last name has none of the six unfinished endings and the file system agrees, copies otherwise, and counts which. |
| SnapshotStore.Volume.CopyEntry | backend/scoring_snapshot.py:326-333 | One entry of the copied tree. |
| SnapshotStore.Volume.CopyTree | backend/scoring_snapshot.py:167-191 | The copy has exactly the deliverable paths; each file is the attempt's own or a new one with its bytes. |
| SnapshotStore.Volume.StabilizeEnvDb | backend/scoring_snapshot.py:297-309 | The database of the copy becomes a new file; nothing that existed before changes. |
| SnapshotStore.Volume.ObserveLinks | backend/scoring_snapshot.py:100-112 | The loop observes exactly the files that have another name, each with its change count. |
| SnapshotStore.Volume.BreakLink | backend/scoring_snapshot.py:117-126 | A changed file is replaced by its own copy. |
| SnapshotStore.Volume.BreakLinks | backend/scoring_snapshot.py:113-126 | Exactly the files that changed since they were observed get copies, with equal bytes. |
| SnapshotStore.Volume.ChmodTree | backend/scoring_snapshot.py:266-281 | Permissions change on the shared inodes of the tree, and only there. |
| SnapshotStore.Volume.RemoveTree | backend/scoring_snapshot.py:284-294 | The tree is gone and every file it shared is writable. |
| SnapshotStore.Volume.Verify | backend/scoring_snapshot.py:372-395 | The file-by-file comparison succeeds exactly if the whole published tree still has the manifest it is registered under. |
| SnapshotStore.Volume.Freeze | backend/scoring_snapshot.py:326-341 | The temporary tree shares exactly the safe files with the attempt and holds what the attempt held before or after the observed window. |
| SnapshotStore.Volume.CreateSnapshot | backend/scoring_snapshot.py:312-369 | Publication: exactly the deliverable paths; a file is the attempt's own exactly if it can be linked, is not the database, was not written meanwhile, and its last name, however deep, has none of the six unfinished endings; content, permissions, and every earlier tree unchanged; a mismatch only if an identical earlier snapshot exists or a shared file was written between the hashing and the final verification. |
| SnapshotStore.Volume.Materialize | backend/scoring_snapshot.py:398-425 | A verified snapshot is unpacked into a private writable copy that equals it; nothing else changes. |
| SnapshotIsolation.ActionIsolates | backend/scoring_snapshot.py:420-425 | Work copies share no file with anything after any action. |
| SnapshotIsolation.HarmlessKeepsSnapshot | backend/scoring_snapshot.py:266-281 | An action that writes no shared file leaves the snapshot's tree and manifest as they are. |
| SnapshotIsolation.SnapshotsAreFrozen | backend/scoring_snapshot.py:312-369 | The same over whole histories of writes, chmods, unlinks, renames, links, snapshots and unpackings. |
| SnapshotIsolation.WriteLeaksExactly | backend/scoring_snapshot.py:47-56 | A write shows in a snapshot exactly if it changes a file the snapshot shares under any name. |
| SnapshotIsolation.SharedPathsLeakExactly | backend/scoring_snapshot.py:55-87 | A file of the attempt leaks into a new snapshot exactly if one of its names is linkable, not still being written, not the database, and the file was not written meanwhile. |
| SnapshotIsolation.RepublishingThaws | backend/scoring_snapshot.py:353-359 | After freezing identical content again a snapshot file is writable exactly if it was before or the new tree links it. |
| FrozenScoring.QuietScoresAreFaithful | backend/scoring_queue.py:549-561 | Without a leak while unpacking, a score was computed on exactly the registered tree. |
| FrozenScoring.AppendsNeverScoreWrongly | backend/scoring_queue.py:625-633 | With writers that only append, a leak can only end in a rejection, never in a score. |
| FrozenScoring.ScoredExactly | backend/scoring_queue.py:549-633 | The scored copy is the registered tree exactly if, for each file, the last write to it before its own copying left the registered bytes; and the last check passes exactly if the last write of all did. |
| FrozenScoring.RegisteredJobsExactly | backend/scoring_queue.py:549-561 | From its queueing on: a job is rejected at once exactly if its snapshot is not intact, and otherwise scored as above. |
| FrozenScoring.WrittenBackUnnoticed | backend/scoring_snapshot.py:372-395 | A write taken back between the two checks gives a score for other bytes. |
| ArtifactWalk.IterArtifactFiles | backend/artifact_scope.py:46-80 | The stack loop yields the recursive walk, cut at the limit. |
| ArtifactWalk.WalkIsExact | backend/artifact_scope.py:46-80 | Every deliverable file exactly once and nothing else. |
| PathKeys.JoinIsInjective | backend/api.py:1000-1006 | Different directory paths have different index keys. |
| ArtifactTotals.BelowSplits | backend/api.py:1012-1024 | A directory holds its own files and those of its subdirectories, each once, under any weight. |
| ArtifactTotals.RootHoldsEverything | backend/api.py:1012-1026 | The root holds the whole collection. |
| Sorting.SortSorts | backend/api.py:1020-1021 | Sorting by name orders the entries and keeps exactly them. |
| ArtifactTree.Dir.constructor | backend/api.py:992-994 | A new directory node. |
| ArtifactTree.Scan.constructor | backend/api.py:996-997 | The tree of nothing: a root node. |
| ArtifactTree.Scan.Child | backend/api.py:1001-1009 | The child node exists afterwards, at most it is new, no files move, and every path still has exactly one node. |
| ArtifactTree.Scan.Add | backend/api.py:998-1010 | The file is filed in its parent, only missing directories above it are added. |
| ArtifactTree.Scan.Build | backend/api.py:998-1010 | The nodes are exactly the directories of the collection, each with its own files in order. |
| ArtifactTree.Scan.Settle | backend/api.py:1020-1023 | One node sorted and totalled, the rest untouched. |
| ArtifactTree.Scan.Finalize | backend/api.py:1012-1024 | Every node of the subtree has the totals of everything below it and sorted children; nodes outside are untouched. |
| ArtifactTree.Scan.Fold | backend/api.py:992-1026 | The finished tree of a whole collection. |
| ArtifactListing.FlatteningGivesBack | backend/api.py:992-1026 | Reading the finished tree back gives the collected files as a multiset. |
| ArtifactListing.ScanArtifacts | backend/api.py:943-1028 | Walk, filter and fold: the finished tree of the visible files seen, and the flag; without the flag each directory of the tree has the number and bytes of the visible files that lie in that directory of the workspace. |
| ArtifactListing.UntruncatedScanIsComplete | backend/api.py:1027-1028 | Without the flag an item is in the collection exactly if following its path through the workspace ends at a file of its size, with nothing hidden or left out on the way. |
| ArtifactListing.CollectedIsThere | backend/api.py:943-991 | With or without the flag, what is collected is a file of that size at that path. |
| ArtifactListing.TotalsAreHoldings | backend/api.py:1012-1024 | The totals of a directory are what its subtree of the workspace holds, counted over the directories themselves. |
| ArtifactListing.DirectoriesAreThere | backend/api.py:998-1010 | Every directory of the tree is one of the workspace. |
| Pricing.MergeUsage | backend/adapters/dsh_events.py:58-72 | Merging adds field by field and keeps what only one record reports. |
| Pricing.SessionsReportCounts | backend/adapters/dsh_events.py:36-72 | Whatever producers send, the merged usage holds counts only, and a field without value exactly if no event has a number for it. |
| Pricing.MergeAssociates | backend/adapters/dsh_events.py:58-72 | Summing records up does not depend on their grouping. |
| Pricing.ComputeCost | backend/pricing.py:180-249 | Total, items and unpriced tokens are those of the non-overlapping tiers; an empty usage has no cost. |
| PricingLaws.BillByReported | backend/pricing.py:30-69 | The total in one formula of the reported counts and the named rates: cache writes without a rate at the prompt's, reasoning at the completion's, and what each semantics leaves of input and reasoning. |
| PricingLaws.UnpricedByReported | backend/pricing.py:226-249 | The unpriced tokens are the reported counts of the tiers whose rate is missing. |
| PricingLaws.MergeIdentity | backend/pricing.py:208-249 | Separate costs equal the merged cost plus the input no longer billed plus the reasoning dropped, under any semantics. |
| PricingLaws.DisjointIsAdditive | backend/pricing.py:279-280 | Disjoint cost is additive exactly if no billed reasoning is dropped. |
| PricingLaws.InclusiveLoss | backend/pricing.py:283-292 | Inclusive merging never bills more input, and exactly as much under the same-side condition. |
| PricingLaws.InclusiveIsAdditive | backend/pricing.py:283-292 | Inclusive cost never rises by merging and is additive exactly under the stated conditions. |
| PricingLaws.AutoLoss | backend/pricing.py:289-291 | Exactly when guessing the semantics record by record bills all input after a merge, with or without a reported input. |
| PricingLaws.PricedAndUnpriced | backend/pricing.py:226-242 | Priced and unpriced tokens partition the tiers. |
| PricingLaws.InclusiveTiersPartitionInput | backend/pricing.py:258-271 | The input-side tiers add up to the reported input exactly if the cached tokens do not exceed it. |
| PricingLaws.TotalIsLowerBound | backend/pricing.py:63-69 | The total is a lower bound for every non-negative filling of missing rates, and exact if nothing is unpriced. |
| PricingLaws.WriteFallbackMayExceed | backend/pricing.py:54-59 | The cache-write fallback overestimates exactly if the true rate is below the prompt rate. |
| PricingTable.Lookup | backend/pricing.py:97-116 | The hit is the entry of the longest candidate name, and a miss means no candidate is priced. |
| PricingTable.StripsExactly | backend/pricing.py:97-104 | Stripping takes the white space off both ends of a name and nothing else. |
| PricingTable.ProviderPrefixIsIgnored | backend/pricing.py:98-104 | A provider prefix does not change what is found unless the longer name is priced itself. |
| CellReferences.ColumnIndex | backend/artifact_xlsx.py:68-72 | The loop computes the bijective base-26 value. |
| CellReferences.IndexOfName | backend/artifact_xlsx.py:68-72 | Every positive number is the index of its name. |
| CellReferences.NameOfIndex | backend/artifact_xlsx.py:68-72 | Every letter string is the name of its index. |
| CellReferences.PositionRoundTrip | backend/artifact_xlsx.py:75-79 | Writing a position and reading it back gives it again. |
| CellReferences.PositionsExactly | backend/artifact_xlsx.py:36-79 | Exactly one to four capital letters followed by a number without leading zero have a position. |
| Workbook.UsableExactly | backend/artifact_xlsx.py:255-258 | Exactly the cells with such a reference in the columns A to CV can be shown. |
| Workbook.RenderRow | backend/artifact_xlsx.py:254-268 | The usable cells of a row up to the budget; the flag says exactly whether a cell is missing. |
| Workbook.RenderRows | backend/artifact_xlsx.py:248-275 | The fused loops equal filtering and then cutting at both budgets; the flag is raised exactly if a cell is unusable, something to show is missing, or a budget was used up before a last row with nothing to show. |
| Workbook.RenderSheet | backend/artifact_xlsx.py:234-314 | The same for a sheet, up to 500 rows; its flag also covers exactly more than 2,000 merges and 500 column entries. |
| Workbook.RenderWorkbook | backend/artifact_xlsx.py:317-360 | The first 32 sheets with a part, in order, each under what its predecessors left of the 10,000 cells, stopping only when they are used up; the exact flag. |
| Workbook.UnflaggedIsWhole | backend/artifact_xlsx.py:317-360 | A sheet of such a workbook that is not flagged is whole. |
| Document.CutTableCells | backend/artifact_docx.py:126-149 | A cut table holds exactly the first cells of the table. |
| Document.CutTablesKeepFirstCells | backend/artifact_docx.py:200-228 | The cell budget shows the first cells of the whole document, however its tables share them, and every paragraph. |
| Document.WeightIsBytes | backend/artifact_docx.py:214-228 | What a block takes of the text budget is the bytes of the strings in it, and five more for a table. |
| Document.BytesCount | backend/artifact_docx.py:223 | UTF-8: every character takes a byte, and one more from each of U+0080, U+0800 and U+10000 on. |
| Document.RenderTable | backend/artifact_docx.py:126-149 | The first cells up to the budget, and the flag says exactly whether some are missing. |
| Document.PeripheralBlocks | backend/artifact_docx.py:161-188 | The longest beginning of the candidates within both budgets; the flag says exactly whether it is shorter. |
| Document.RenderBody | backend/artifact_docx.py:200-228 | The blocks are the longest beginning, within block and text budget, of what the cell budget leaves; the flag is raised exactly if something is missing or the blocks were used up before a last element that shows nothing. |
| Document.RenderDocument | backend/artifact_docx.py:191-262 | Body, headers and footers each go as far as their predecessors left of 5,000 blocks and 4 MiB of text, tables as far as 10,000 cells; the flag is exact up to the fixed limits of headers and footers. |
| Document.SilentLimitsExactly | backend/artifact_docx.py:173-178 | The unflagged limits cut nothing exactly if there is no text beyond the first 20 parts and the first 200 paragraphs of a part. |

## Left out

- AttemptStore.Store.CommitScoringResult: the score rows, the manifest, cost columns and leader notification of the same transaction are not part of the state; the score is an integer.
- FrozenScoring.QuietScoresAreFaithful: one direction; ScoredExactly has the exact condition, and WrittenBackUnnoticed a score for other bytes.
- FrozenScoring.AppendsNeverScoreWrongly: one direction, for writers that only append; for any writer see ScoredExactly.
- The work copy of a scoring job is represented in FrozenScoring by what was copied into it; nothing but its own scorer can write it (SnapshotIsolation.ActionIsolates).
- Document.RenderDocument: parts beyond the fixed limits of headers and footers are outside the flag, as in the source.
- Error codes, messages, failure kinds, retry flags and end timestamps of attempts and jobs.
- SQLite failures inside a transaction, and concurrency inside one transaction: a transaction is one step.
- Adapters, subprocesses, containers, HTTP, server-sent events, judges and scorers: their outcomes are step parameters.
- Experiment cells, run-group projections, leader consumption, rubric versions, cost keys and wire capture.
- The renewal of deadlines by the iteration controller; only the form of the timestamps it writes is modelled.
- The link mode recorded with a snapshot, and the counters behind it beyond their updates.
- The proxy check without a bound runtime, which low-level callers use.
- Failing database access in the model-integrity recorder, and deletion of attempts under it.
- Symlinks in snapshots, directory permissions, the metadata file beside a snapshot, and copy or link errors that abort a snapshot.
- Size and mtime as two numbers: a change counter stands for both, so a write always shows.
- Hash functions, generated ids and run ids derived from keys are taken to be injective or fresh.
- Whitespace beyond space, tab, newline and carriage return when names are stripped.
- Rounding of amounts to ten digits; loading and writing of the price list.
- ZIP and XML parsing, cell value formatting, styles and links of documents: the renderers start from parsed rows, cells and blocks.
- Path containment checks, MIME inspection and unreadable single files of the artifact scan.
