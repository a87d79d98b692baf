/** What a transaction leaves in the row it writes, value by value: the statuses, deadlines and scores written
    out, without the functions and the groups of statuses that the transactions share. */
module AttemptRows {
  import opened Statuses
  import opened AttemptTables

  /** Everything of a row but its three statuses and its score. */
  predicate SameRest(before: Attempt, after: Attempt) {
    && after.run == before.run
    && after.executionDeadline == before.executionDeadline && after.scoringDeadline == before.scoringDeadline
  }

  /** `queued` becomes running with its deadline; anything else is left alone. */
  predicate StartedRow(before: Attempt, after: Attempt, deadline: Option<string>) {
    if before.status != Queued then after == before
    else
      && after.status == Running && after.execution == Running
      && after.executionDeadline == (if deadline.Some? then deadline else before.executionDeadline)
      && (after.run, after.scoring, after.score, after.scoringDeadline) ==
         (before.run, before.scoring, before.score, before.scoringDeadline)
  }

  /** A queued run becomes running with its first attempt, and no other run changes. */
  predicate StartedRuns(before: map<RunId, Status>, after: map<RunId, Status>, run: RunId) {
    && after.Keys == before.Keys
    && forall r :: r in before ==> after[r] == if r == run && before[r] == Queued then Running else before[r]
  }

  /** The execution ended with the result `adapter`, and its scoring waits. */
  predicate QueuedRow(before: Attempt, after: Attempt, adapter: Status) {
    && SameRest(before, after)
    && after.status == Scoring && after.scoring == Queued && after.score == None
    && (after.execution == Completed <==> adapter == Completed)
    && (after.execution == Timeout <==> adapter == Timeout)
    && (after.execution == Failed <==> adapter !in {Completed, Timeout})
  }

  /** The terminal triple of an attempt without a score. */
  predicate UnscoredRow(before: Attempt, after: Attempt, status: Status) {
    && SameRest(before, after)
    && after.status == status && after.score == None
    && after.execution == (if status in {Cancelled, Timeout} then status else if status == ScoringFailed then Completed else Failed)
    && after.scoring == (if status == Cancelled then Cancelled else if status == ScoringFailed then Failed else Skipped)
  }

  predicate ClaimedRow(before: Attempt, after: Attempt, deadline: Option<string>) {
    && after.status == Scoring && after.scoring == Running && after.scoringDeadline == deadline
    && (after.run, after.execution, after.score, after.executionDeadline) ==
       (before.run, before.execution, before.score, before.executionDeadline)
  }

  /** The scoring failed: the status says what the execution came to, unless the job was stopped. */
  predicate FailedRow(before: Attempt, after: Attempt, status: Status, saved: Option<int>) {
    && SameRest(before, after) && after.execution == before.execution
    && after.scoring == status && after.score == saved
    && (after.status == Cancelled <==> status == Cancelled)
    && (status != Cancelled ==>
          && (after.status == Completed <==> before.execution == Completed)
          && (after.status == Timeout <==> before.execution == Timeout)
          && (after.status == ChatFailed <==> before.execution == Failed)
          && (after.status == ScoringFailed <==> before.execution !in {Completed, Timeout, Failed}))
  }

  /** A committed evaluation: whether it passed decides between `completed` and `gave_up`, both of which are
      results. */
  predicate CommittedRow(before: Attempt, after: Attempt, passed: bool, score: int) {
    && SameRest(before, after)
    && after.status == (if passed then Completed else GaveUp)
    && after.scoring == Completed && after.score == Some(score)
    && after.execution == (if before.execution in {Queued, Running} then Completed else before.execution)
  }

  /** A running scoring axis goes back to the queue, and at a restart its status with it. */
  predicate RequeuedRow(before: Attempt, after: Attempt, restart: bool) {
    && SameRest(before, after) && after.execution == before.execution && after.score == before.score
    && after.scoring == (if before.scoring == Running then Queued else before.scoring)
    && after.status == (if restart && before.scoring == Running then Scoring else before.status)
  }

  predicate RequeuedJob(before: Job, after: Job) {
    && (after.attempt, after.version, after.cancelRequested, after.rejudge) == (before.attempt, before.version, before.cancelRequested, before.rejudge)
    && after.status == if before.status == Running then Queued else before.status
  }

  /** A job stopped on behalf of its run. */
  predicate StoppedJob(before: Job, after: Job) {
    && (after.attempt, after.version, after.rejudge) == (before.attempt, before.version, before.rejudge)
    && after.cancelRequested && after.status == if before.status == Queued then Cancelled else before.status
  }

  predicate OnlyStatus(before: Job, after: Job, status: Status) {
    && (after.attempt, after.version, after.cancelRequested, after.rejudge) == (before.attempt, before.version, before.cancelRequested, before.rejudge)
    && after.status == status
  }

  /** The attempt has a job in flight. */
  predicate Busy(db: Db, a: AttemptId) {
    exists j | j in db.jobs :: db.jobs[j].attempt == a && db.jobs[j].status in {Queued, Running}
  }

  /** The row of an attempt whose run is stopped; `busy` says whether its job was. */
  predicate StoppedAttempt(before: Attempt, after: Attempt, busy: bool) {
    && SameRest(before, after)
    && after.status == (if before.status in {Queued, StartingSession, Running, Scoring} then Cancelled else before.status)
    && after.execution == (if before.execution in {Queued, Running} then Cancelled else before.execution)
    && after.scoring == (if busy || before.scoring in {NotReady, Queued, Running} then Cancelled else before.scoring)
    && after.score == (if busy then None else before.score)
  }

  /** The row of an attempt whose scoring alone is stopped. */
  predicate UnscoredByStop(before: Attempt, after: Attempt) {
    && SameRest(before, after) && after.execution == before.execution
    && after.status == (if before.status == Scoring then Cancelled else before.status)
    && after.scoring == Cancelled && after.score == None
  }

  // ---------- a run and its attempts ----------

  predicate Member(attempts: map<AttemptId, Attempt>, r: RunId, a: AttemptId) {
    a in attempts && attempts[a].run == r
  }

  predicate Executes(attempts: map<AttemptId, Attempt>, r: RunId) {
    exists a | a in attempts :: Member(attempts, r, a) && attempts[a].execution in {Queued, Running}
  }

  predicate IsScored(attempts: map<AttemptId, Attempt>, r: RunId) {
    exists a | a in attempts :: Member(attempts, r, a) && attempts[a].scoring in {Queued, Running}
  }

  predicate AllShow(attempts: map<AttemptId, Attempt>, r: RunId, statuses: set<Status>) {
    forall a | a in attempts :: Member(attempts, r, a) ==> attempts[a].status in statuses
  }

  /** What each status of a run says about its attempts. */
  predicate Projects(attempts: map<AttemptId, Attempt>, r: RunId, status: Status) {
    && status in {Running, Scoring, Completed, Cancelled, Failed}
    && (status == Running <==> Executes(attempts, r))
    && (status == Scoring <==> !Executes(attempts, r) && IsScored(attempts, r))
    && (status in {Completed, Cancelled, Failed} ==>
          && (status == Completed <==> AllShow(attempts, r, {Completed, GaveUp}))
          && (status == Failed <==> !AllShow(attempts, r, {Completed, GaveUp, Cancelled})))
  }

  /** `_refresh_run_status`: a run with attempts gets the one status that says what they show, a run without any
      none. */
  lemma ProjectionDecided(attempts: map<AttemptId, Attempt>, r: RunId)
    ensures ProjectRun(attempts, r).None? <==> forall a :: !Member(attempts, r, a)
    ensures forall s :: ProjectRun(attempts, r) == Some(s) <==> Projects(attempts, r, s) && exists a :: Member(attempts, r, a)
  {
    var ids := AttemptsOf(attempts, r);
    assert forall a :: a in ids <==> Member(attempts, r, a);
  }

  /** A run of committed attempts is completed, whether they passed or not. */
  lemma CommittedRunsComplete(attempts: map<AttemptId, Attempt>, r: RunId, evaluations: map<AttemptId, (Attempt, bool, int)>)
    requires exists a :: Member(attempts, r, a)
    requires forall a :: Member(attempts, r, a) ==>
               a in evaluations && CommittedRow(evaluations[a].0, attempts[a], evaluations[a].1, evaluations[a].2)
    ensures ProjectRun(attempts, r) == Some(Completed)
  {
    ProjectionDecided(attempts, r);
    assert !Executes(attempts, r) && !IsScored(attempts, r) && AllShow(attempts, r, {Completed, GaveUp});
  }
}
