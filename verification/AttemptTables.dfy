/** The tables of the attempt and scoring protocol, and what each SQLite transaction does to them.

    One function here is one transaction: everything between opening a connection and its commit. */
module AttemptTables {
  import opened Statuses
  import IsoTime

  type AttemptId = nat
  type JobId = nat
  type RunId = nat

  /** A row of `attempts`.  Deadlines are the persisted timestamp strings. */
  datatype Attempt = Attempt(run: RunId, status: Status, execution: Status, scoring: Status, score: Option<int>,
                             executionDeadline: Option<string>, scoringDeadline: Option<string>)

  /** The `rejudge` object inside a job's `scorer_config_json`. */
  datatype Previous = Previous(score: Option<int>, status: Status)

  /** A row of `scoring_jobs`. */
  datatype Job = Job(attempt: AttemptId, status: Status, version: nat, cancelRequested: bool, rejudge: Option<Previous>)

  /** A row of `score_transition_outbox`; rows are only ever appended. */
  datatype Commit = Commit(attempt: AttemptId, revision: nat, score: int, job: Option<JobId>)

  /** A row of `attempt_judge_runs`. */
  datatype JudgeRun = JudgeRun(attempt: AttemptId, revision: nat, score: int)

  datatype Db = Db(attempts: map<AttemptId, Attempt>, jobs: map<JobId, Job>, outbox: seq<Commit>,
                   judgeRuns: seq<JudgeRun>, runs: map<RunId, Status>)

  const EMPTY := Db(map[], map[], [], [], map[])

  // ---------- questions about the tables ----------

  predicate Committed(outbox: seq<Commit>, j: JobId) {
    exists c | c in outbox :: c.job == Some(j)
  }

  /** The score of the last outbox row of an attempt. */
  function Latest(outbox: seq<Commit>, a: AttemptId): Option<int> {
    if outbox == [] then None
    else if outbox[|outbox| - 1].attempt == a then Some(outbox[|outbox| - 1].score)
    else Latest(outbox[..|outbox| - 1], a)
  }

  function Revisions(outbox: seq<Commit>, a: AttemptId): set<nat> {
    set c | c in outbox && c.attempt == a :: c.revision
  }

  /** `COALESCE(MAX(score_revision),0)` over the outbox rows of an attempt. */
  function MaxRevision(outbox: seq<Commit>, a: AttemptId): nat {
    if outbox == [] then 0
    else
      var m, c := MaxRevision(outbox[..|outbox| - 1], a), outbox[|outbox| - 1];
      if c.attempt == a && c.revision > m then c.revision else m
  }

  function MaxJudged(runs: seq<JudgeRun>, a: AttemptId): nat {
    if runs == [] then 0
    else
      var m, r := MaxJudged(runs[..|runs| - 1], a), runs[|runs| - 1];
      if r.attempt == a && r.revision > m then r.revision else m
  }

  predicate VersionTaken(db: Db, a: AttemptId, version: nat) {
    exists j | j in db.jobs :: db.jobs[j].attempt == a && db.jobs[j].version == version
  }

  predicate HasJobInFlight(db: Db, a: AttemptId) {
    exists j | j in db.jobs :: db.jobs[j].attempt == a && InFlight(db.jobs[j].status)
  }

  /** The score `_finish_failure` restores: an absent `rejudge` object reads as no score. */
  function PreviousScore(job: Job): Option<int> {
    if job.rejudge.Some? then job.rejudge.value.score else None
  }

  predicate JobCancelled(db: Db, j: JobId) {
    j !in db.jobs || db.jobs[j].cancelRequested || db.jobs[j].status == Cancelled
  }

  // ---------- creation and start ----------

  function CreateAttempt(db: Db, a: AttemptId, run: RunId): Db {
    db.(attempts := db.attempts[a := Attempt(run, Queued, Queued, NotReady, None, None, None)],
        runs := if run in db.runs then db.runs else db.runs[run := Queued])
  }

  /** `_mark_running`: the second UPDATE is not guarded by the first. */
  function MarkRunning(db: Db, a: AttemptId, deadline: Option<string>): Db {
    if a !in db.attempts then db
    else
      var row := db.attempts[a];
      var attempts :=
        if row.status != Queued then db.attempts
        else db.attempts[a := row.(status := Running, execution := Running,
                                   executionDeadline := if deadline.Some? then deadline else row.executionDeadline)];
      db.(attempts := attempts,
          runs := if row.run in db.runs && db.runs[row.run] == Queued then db.runs[row.run := Running] else db.runs)
  }

  // ---------- end of execution ----------

  /** `_execution_status`. */
  function ExecutionConclusion(adapter: Status): Status {
    match adapter
    case Completed => Completed
    case Timeout => Timeout
    case _ => Failed
  }

  /** The foreign key and `UNIQUE(attempt_id, scorer_version)`; a violation rolls everything back. */
  predicate EnqueueAccepted(db: Db, a: AttemptId, version: nat) {
    a in db.attempts && !VersionTaken(db, a, version)
  }

  function Enqueue(db: Db, a: AttemptId, adapter: Status, j: JobId, version: nat, rejudge: Option<Previous>): Db {
    if !EnqueueAccepted(db, a, version) then db
    else
      db.(attempts := db.attempts[a := db.attempts[a].(status := Scoring, execution := ExecutionConclusion(adapter),
                                                       scoring := Queued, score := None)],
          jobs := db.jobs[j := Job(a, Queued, version, false, rejudge)])
  }

  /** `_finalize_no_score`. */
  function FinalizeNoScore(db: Db, a: AttemptId, status: Status): Db {
    if a !in db.attempts then db
    else
      db.(attempts := db.attempts[a := db.attempts[a].(
        status := status,
        score := None,
        execution := match status
          case Cancelled => Cancelled
          case Timeout => Timeout
          case ScoringFailed => Completed
          case _ => Failed,
        scoring := match status
          case Cancelled => Cancelled
          case ScoringFailed => Failed
          case _ => Skipped)])
  }

  // ---------- the scoring worker ----------

  predicate ClaimAccepted(db: Db, j: JobId) {
    j in db.jobs && db.jobs[j].status == Queued && !db.jobs[j].cancelRequested
  }

  /** `_claim_job`. */
  function Claim(db: Db, j: JobId, deadline: Option<string>): Db {
    if !ClaimAccepted(db, j) then db
    else
      var a := db.jobs[j].attempt;
      db.(jobs := db.jobs[j := db.jobs[j].(status := Running)],
          attempts := if a !in db.attempts then db.attempts
                      else db.attempts[a := db.attempts[a].(status := Scoring, scoring := Running,
                                                            scoringDeadline := deadline)])
  }

  /** `_EXEC_TO_STATUS`, falling back to `scoring_failed`. */
  function ExecutionProjection(execution: Status): Status {
    match execution
    case Completed => Completed
    case Timeout => Timeout
    case Failed => ChatFailed
    case _ => ScoringFailed
  }

  /** `_finish_failure`. */
  function FinishFailure(db: Db, j: JobId, status: Status): Db {
    if j !in db.jobs then db
    else
      var job := db.jobs[j];
      db.(jobs := db.jobs[j := job.(status := status)],
          attempts :=
            if job.attempt !in db.attempts then db.attempts
            else
              var row := db.attempts[job.attempt];
              db.attempts[job.attempt := row.(
                status := if status == Cancelled then Cancelled else ExecutionProjection(row.execution),
                scoring := status,
                score := PreviousScore(job))])
  }

  /** The least number at or above `r` outside `taken`: the scan of `_next_score_revision`. */
  function FirstFree(taken: set<nat>, r: nat): (f: nat)
    ensures r <= f && f !in taken
    ensures forall x :: r <= x < f ==> x in taken
    decreases set x | x in taken && r <= x
  {
    if r !in taken then r
    else
      assert (set x | x in taken && r <= x) - {r} == (set x | x in taken && r + 1 <= x);
      FirstFree(taken, r + 1)
  }

  function NextRevision(db: Db, a: AttemptId): nat {
    FirstFree(Revisions(db.outbox, a), MaxJudged(db.judgeRuns, a) + 1)
  }

  predicate CommitAccepted(db: Db, a: AttemptId, j: Option<JobId>) {
    && a in db.attempts
    && (j.Some? ==> !exists c | c in db.outbox :: c.attempt == a && c.job == j)
  }

  /** `commit_scoring_result`, on behalf of a scoring job or of the inline path (`None`). */
  function CommitScore(db: Db, a: AttemptId, j: Option<JobId>, passed: bool, score: int): Db {
    if !CommitAccepted(db, a, j) then db
    else
      var row := db.attempts[a];
      db.(attempts := db.attempts[a := row.(status := if passed then Completed else GaveUp,
                                            score := Some(score),
                                            execution := if OpenExecution(row.execution) then Completed else row.execution,
                                            scoring := Completed)],
          outbox := db.outbox + [Commit(a, NextRevision(db, a), score, j)])
  }

  /** `record_judge_run`. */
  function RecordJudgeRun(db: Db, a: AttemptId): Db {
    if a !in db.attempts then db
    else
      var judged, committed := MaxJudged(db.judgeRuns, a) + 1, MaxRevision(db.outbox, a);
      var score := if db.attempts[a].score.Some? then db.attempts[a].score.value else 0;
      db.(judgeRuns := db.judgeRuns + [JudgeRun(a, if judged > committed then judged else committed, score)])
  }

  /** The last transaction of `_execute_job`. */
  function CompleteJob(db: Db, j: JobId): Db {
    if j !in db.jobs then db
    else
      var a := db.jobs[j].attempt;
      db.(jobs := db.jobs[j := db.jobs[j].(status := Completed)],
          attempts := if a in db.attempts then db.attempts[a := db.attempts[a].(scoring := Completed)] else db.attempts)
  }

  /** The already-committed branch of `_execute_job`: the attempt row is not written. */
  function CompleteJobOnly(db: Db, j: JobId): Db {
    if j in db.jobs then db.(jobs := db.jobs[j := db.jobs[j].(status := Completed)]) else db
  }

  /** Cancellation at shutdown: give the job back to the queue. */
  function RequeueJob(db: Db, j: JobId): Db {
    if j !in db.jobs then db
    else
      var a := db.jobs[j].attempt;
      db.(jobs := if db.jobs[j].status == Running then db.jobs[j := db.jobs[j].(status := Queued)] else db.jobs,
          attempts := if a in db.attempts && db.attempts[a].scoring == Running
                      then db.attempts[a := db.attempts[a].(scoring := Queued)] else db.attempts)
  }

  /** The transaction of `schedule_startup_scoring_recovery`. */
  function RecoverScoring(db: Db): Db {
    db.(jobs := map j | j in db.jobs ::
          if db.jobs[j].status == Running && !db.jobs[j].cancelRequested then db.jobs[j].(status := Queued) else db.jobs[j],
        attempts := map a | a in db.attempts ::
          if db.attempts[a].scoring == Running then db.attempts[a].(scoring := Queued, status := Scoring) else db.attempts[a])
  }

  // ---------- rejudge ----------

  /** The checks of `_prepare_rejudge` that answer 409 instead of going on. */
  predicate RejudgeAccepted(db: Db, a: AttemptId) {
    && a in db.attempts
    && db.attempts[a].execution in {Completed, Timeout, Failed}
    && !HasJobInFlight(db, a)
    && !InFlight(db.attempts[a].scoring)
  }

  function PrepareRejudge(db: Db, a: AttemptId): Db {
    if !RejudgeAccepted(db, a) then db
    else db.(jobs := map j | j in db.jobs && db.jobs[j].attempt != a :: db.jobs[j])
  }

  // ---------- Stop ----------

  predicate StopsJob(db: Db, j: JobId, runs: set<RunId>) {
    && j in db.jobs && InFlight(db.jobs[j].status)
    && db.jobs[j].attempt in db.attempts && db.attempts[db.jobs[j].attempt].run in runs
  }

  predicate StopsScoringOf(db: Db, a: AttemptId, runs: set<RunId>) {
    exists j | j in db.jobs :: StopsJob(db, j, runs) && db.jobs[j].attempt == a
  }

  function CancelledScoringRow(row: Attempt): Attempt {
    row.(scoring := Cancelled, score := None, status := if row.status == Scoring then Cancelled else row.status)
  }

  /** `cancel_scoring_for_runs`. */
  function CancelScoring(db: Db, runs: set<RunId>): Db {
    db.(jobs := map j | j in db.jobs ::
          if !StopsJob(db, j, runs) then db.jobs[j]
          else db.jobs[j].(cancelRequested := true,
                           status := if db.jobs[j].status == Queued then Cancelled else db.jobs[j].status),
        attempts := map a | a in db.attempts ::
          if StopsScoringOf(db, a, runs) then CancelledScoringRow(db.attempts[a]) else db.attempts[a])
  }

  // ---------- convergence ----------

  /** What a caller of `converge_attempts` asks for; absent axes are derived from `status`. */
  datatype Policy = Policy(status: Status, execution: Option<Status>, scoring: Option<Status>)

  const STOP := Policy(Cancelled, None, None)
  const EXECUTION_OVERDUE := Policy(Timeout, Some(Timeout), Some(Skipped))
  const SCORING_OVERDUE := Policy(ScoringFailed, None, Some(TimedOut))

  predicate Open(row: Attempt) {
    OpenLegacy(row.status) || OpenExecution(row.execution) || OpenScoring(row.scoring)
  }

  function ConvergeRow(row: Attempt, p: Policy): Attempt {
    row.(status := if OpenLegacy(row.status) then p.status else row.status,
         execution := if !OpenExecution(row.execution) then row.execution
                      else if p.execution.Some? then p.execution.value else p.status,
         scoring := if !OpenScoring(row.scoring) then row.scoring
                    else if p.scoring.Some? then p.scoring.value else Cancelled)
  }

  /** The transaction of `converge_attempts`, without the projections that follow it. */
  function Converge(attempts: map<AttemptId, Attempt>, ids: set<AttemptId>, p: Policy): map<AttemptId, Attempt> {
    map a | a in attempts :: if a in ids then ConvergeRow(attempts[a], p) else attempts[a]
  }

  /** The rows `converge_attempts` reports as advanced. */
  function Touched(attempts: map<AttemptId, Attempt>, ids: set<AttemptId>): set<AttemptId> {
    set a | a in ids && a in attempts && Open(attempts[a])
  }

  /** `open_attempt_ids_for_runs`. */
  function OpenIn(attempts: map<AttemptId, Attempt>, runs: set<RunId>): set<AttemptId> {
    set a | a in attempts && attempts[a].run in runs && Open(attempts[a])
  }

  // ---------- run projection ----------

  function AttemptsOf(attempts: map<AttemptId, Attempt>, r: RunId): set<AttemptId> {
    set a | a in attempts && attempts[a].run == r
  }

  /** `_refresh_run_status`: the status written for a run, none when it has no attempt. */
  function ProjectRun(attempts: map<AttemptId, Attempt>, r: RunId): Option<Status> {
    var ids := AttemptsOf(attempts, r);
    if exists a | a in ids :: InFlight(attempts[a].execution) then Some(Running)
    else if exists a | a in ids :: InFlight(attempts[a].scoring) then Some(Scoring)
    else if ids == {} then None
    else if forall a | a in ids :: attempts[a].status in {Completed, GaveUp} then Some(Completed)
    else if (exists a | a in ids :: attempts[a].status == Cancelled)
         && (forall a | a in ids :: attempts[a].status in {Completed, GaveUp, Cancelled}) then Some(Cancelled)
    else Some(Failed)
  }

  function RefreshRun(db: Db, r: RunId): Db {
    var projected := ProjectRun(db.attempts, r);
    if r in db.runs && projected.Some? then db.(runs := db.runs[r := projected.value]) else db
  }

  function Refresh(db: Db, a: AttemptId): Db {
    if a in db.attempts then RefreshRun(db, db.attempts[a].run) else db
  }

  /** Refreshing every run that holds one of `touched`, in any order. */
  function Reproject(db: Db, touched: set<AttemptId>): Db {
    db.(runs := map r | r in db.runs ::
          var projected := ProjectRun(db.attempts, r);
          if projected.Some? && (exists a | a in touched :: a in db.attempts && db.attempts[a].run == r)
          then projected.value else db.runs[r])
  }

  /** `converge_attempts` as a whole. */
  function ConvergeAttempts(db: Db, ids: set<AttemptId>, p: Policy): Db {
    Reproject(db.(attempts := Converge(db.attempts, ids, p)), Touched(db.attempts, ids))
  }

  /** The state changes of `POST /runs/{id}/stop`: scoring first, then the attempts still open. */
  function StopRuns(db: Db, runs: set<RunId>): Db {
    var cancelled := CancelScoring(db, runs);
    ConvergeAttempts(cancelled, OpenIn(cancelled.attempts, runs), STOP)
  }

  // ---------- deadline sweep ----------

  /** The row filter of `_expired_execution`. */
  predicate ExecutionOverdue(row: Attempt, cutoff: string) {
    row.execution == Running && row.executionDeadline.Some? && IsoTime.LexLess(row.executionDeadline.value, cutoff)
  }

  /** The row filter of `_expired_scoring`. */
  predicate ScoringOverdue(row: Attempt, cutoff: string) {
    row.scoring == Running && row.scoringDeadline.Some? && IsoTime.LexLess(row.scoringDeadline.value, cutoff)
  }

  function ExpiredExecution(attempts: map<AttemptId, Attempt>, cutoff: string): set<AttemptId> {
    set a | a in attempts && ExecutionOverdue(attempts[a], cutoff)
  }

  function ExpiredScoring(attempts: map<AttemptId, Attempt>, cutoff: string): set<AttemptId> {
    set a | a in attempts && ScoringOverdue(attempts[a], cutoff)
  }

  /** `sweep_once` with its cutoff already computed. */
  function Sweep(db: Db, cutoff: string): Db {
    var afterExecution := ConvergeAttempts(db, ExpiredExecution(db.attempts, cutoff), EXECUTION_OVERDUE);
    ConvergeAttempts(afterExecution, ExpiredScoring(afterExecution.attempts, cutoff), SCORING_OVERDUE)
  }
}
