/** What each transaction means to the rest of the service: what it lets happen next, what it keeps for
    ever, and that it touches one row, one job or one log and nothing else. */
module AttemptEffects {
  import opened Statuses
  import opened AttemptTables
  import opened ScoringProtocol
  import opened CommitHistory
  import opened Convergence
  import opened AttemptRows

  /** What every transaction may rely on and has to keep. */
  predicate Sound(db: Db) {
    ExecutionOk(db) && RevisionsOk(db)
  }

  // ---------- frames ----------

  predicate SameRowsBut(before: Db, after: Db, a: AttemptId) {
    && after.attempts.Keys == before.attempts.Keys
    && forall b :: b in before.attempts && b != a ==> after.attempts[b] == before.attempts[b]
  }

  predicate SameJobsBut(before: Db, after: Db, j: JobId) {
    && after.jobs.Keys == before.jobs.Keys
    && forall k :: k in before.jobs && k != j ==> after.jobs[k] == before.jobs[k]
  }

  predicate SameLogs(before: Db, after: Db) {
    after.outbox == before.outbox && after.judgeRuns == before.judgeRuns
  }

  /** Only one attempt's row and one job were written. */
  predicate SameBut(before: Db, after: Db, a: AttemptId, j: JobId) {
    SameRowsBut(before, after, a) && SameJobsBut(before, after, j) && SameLogs(before, after) && after.runs == before.runs
  }

  /** A transaction that appends nothing to a log leaves the revisions alone. */
  lemma SameLogsStaySound(before: Db, after: Db)
    requires Sound(before) && Keeps(before, after) && SameLogs(before, after)
    ensures Sound(after)
  {
  }

  // ---------- dispatch ----------

  /** A new attempt is open, unscored and within reach of a Stop of its run; nothing that existed changes. */
  ghost predicate Inserted(before: Db, after: Db, a: AttemptId, run: RunId) {
    && after.attempts.Keys == before.attempts.Keys + {a} && SameRowsBut(before, after.(attempts := after.attempts - {a}), a)
    && after.attempts[a] == Attempt(run, Queued, Queued, NotReady, None, None, None) && a in OpenIn(after.attempts, {run})
    && after.jobs == before.jobs && SameLogs(before, after)
    && after.runs.Keys == before.runs.Keys + {run} && (run !in before.runs ==> after.runs[run] == Queued)
    && forall r :: r in before.runs ==> after.runs[r] == before.runs[r]
  }

  lemma InsertEffect(db: Db, a: AttemptId, run: RunId)
    requires Sound(db) && a !in db.attempts
    ensures Sound(CreateAttempt(db, a, run)) && Inserted(db, CreateAttempt(db, a, run), a, run)
  {
    CreationKeepsExecution(db, a, run);
    var after := CreateAttempt(db, a, run);
    assert after.attempts - {a} == db.attempts;
  }

  /** A queued attempt runs with its deadline, and its run with it; an execution that is over is never reopened;
      and starting again changes nothing. */
  ghost predicate Started(before: Db, after: Db, a: AttemptId, deadline: Option<string>) {
    && SameRowsBut(before, after, a) && after.jobs == before.jobs && SameLogs(before, after)
    && (if a !in before.attempts then after == before
        else
          && StartedRow(before.attempts[a], after.attempts[a], deadline)
          && StartedRuns(before.runs, after.runs, before.attempts[a].run)
          && (!OpenExecution(before.attempts[a].execution) ==> after.attempts[a] == before.attempts[a]))
    && forall again :: MarkRunning(after, a, again) == after
  }

  lemma StartEffect(db: Db, a: AttemptId, deadline: Option<string>)
    requires Sound(db)
    ensures Sound(MarkRunning(db, a, deadline)) && Started(db, MarkRunning(db, a, deadline), a, deadline)
  {
    StartKeepsExecution(db, a, deadline);
    if a in db.attempts {
      assert RowOk(db.attempts[a]);
    }
  }

  /** A finalized attempt is closed and unscored under the status given; only `scoring_failed` counts as an
      execution that completed; and a later rejudge is refused exactly after a cancellation or while a job of
      the attempt is in flight. */
  ghost predicate Finalized(before: Db, after: Db, a: AttemptId, status: Status) {
    && SameRowsBut(before, after, a) && after.jobs == before.jobs && SameLogs(before, after) && after.runs == before.runs
    && (a in before.attempts ==>
          && UnscoredRow(before.attempts[a], after.attempts[a], status)
          && (!OpenLegacy(status) ==> Closed(after.attempts[a]))
          && (RejudgeAccepted(after, a) <==> status != Cancelled && !HasJobInFlight(before, a)))
  }

  lemma FinalizeEffect(db: Db, a: AttemptId, status: Status)
    requires Sound(db)
    ensures Finalized(db, FinalizeNoScore(db, a, status), a, status)
  {
    if a in db.attempts {
      FinalizedRow(db, a, status);
    }
  }

  lemma FinalizedRow(db: Db, a: AttemptId, status: Status)
    requires a in db.attempts
    ensures var after := FinalizeNoScore(db, a, status);
            && after == db.(attempts := db.attempts[a := after.attempts[a]])
            && UnscoredRow(db.attempts[a], after.attempts[a], status)
            && (!OpenLegacy(status) ==> Closed(after.attempts[a]))
            && (after.attempts[a].execution in {Completed, Timeout, Failed} <==> status != Cancelled)
            && !InFlight(after.attempts[a].scoring)
  {
  }

  /** A queued job is waiting for a worker, its attempt is unscored, closed on the execution axis and out of
      reach of a rejudge, and the same scorer version is refused from then on. */
  ghost predicate JobQueued(before: Db, after: Db, a: AttemptId, adapter: Status, j: JobId, version: nat, rejudge: Option<Previous>, accepted: bool) {
    && Queueable(before, a, version, accepted)
    && if !accepted then after == before
       else JobInserted(before, after, a, adapter, j, version, rejudge) && QueuedUp(after, a, j, version)
  }

  predicate Queueable(db: Db, a: AttemptId, version: nat, accepted: bool) {
    accepted <==> a in db.attempts && forall k :: k in db.jobs && db.jobs[k].attempt == a ==> db.jobs[k].version != version
  }

  predicate JobInserted(before: Db, after: Db, a: AttemptId, adapter: Status, j: JobId, version: nat, rejudge: Option<Previous>) {
    && SameRowsBut(before, after, a) && SameLogs(before, after) && after.runs == before.runs
    && after.jobs.Keys == before.jobs.Keys + {j} && (forall k :: k in before.jobs && k != j ==> after.jobs[k] == before.jobs[k])
    && a in before.attempts && QueuedRow(before.attempts[a], after.attempts[a], adapter)
    && after.jobs[j] == Job(a, Queued, version, false, rejudge)
  }

  predicate QueuedUp(db: Db, a: AttemptId, j: JobId, version: nat) {
    && a in db.attempts && ClaimAccepted(db, j) && !OpenExecution(db.attempts[a].execution)
    && !RejudgeAccepted(db, a) && !EnqueueAccepted(db, a, version)
  }

  lemma EnqueuedTables(db: Db, a: AttemptId, adapter: Status, j: JobId, version: nat, rejudge: Option<Previous>)
    requires EnqueueAccepted(db, a, version)
    ensures JobInserted(db, Enqueue(db, a, adapter, j, version, rejudge), a, adapter, j, version, rejudge)
  {
    var after := Enqueue(db, a, adapter, j, version, rejudge);
    assert QueuedRow(db.attempts[a], after.attempts[a], adapter);
  }

  lemma EnqueueEffect(db: Db, a: AttemptId, adapter: Status, j: JobId, version: nat, rejudge: Option<Previous>)
    requires Sound(db)
    ensures JobQueued(db, Enqueue(db, a, adapter, j, version, rejudge), a, adapter, j, version, rejudge, EnqueueAccepted(db, a, version))
  {
    var after := Enqueue(db, a, adapter, j, version, rejudge);
    if EnqueueAccepted(db, a, version) {
      EnqueuedTables(db, a, adapter, j, version, rejudge);
      assert VersionTaken(after, a, version) by {
        assert after.jobs[j].attempt == a && after.jobs[j].version == version;
      }
    }
  }

  // ---------- the scoring worker ----------

  /** Once claimed, a job can be claimed by nobody else; no other job's turn, no execution axis and no score
      changes; and the attempt is out of reach of a rejudge. */
  ghost predicate JobClaimed(before: Db, after: Db, j: JobId, deadline: Option<string>)
    requires j in before.jobs
  {
    && SameBut(before, after, before.jobs[j].attempt, j)
    && before.jobs[j].status == Queued && !before.jobs[j].cancelRequested && OnlyStatus(before.jobs[j], after.jobs[j], Running)
    && before.jobs[j].attempt in before.attempts
    && ClaimedRow(before.attempts[before.jobs[j].attempt], after.attempts[before.jobs[j].attempt], deadline)
    && (forall k :: ClaimAccepted(after, k) <==> k != j && ClaimAccepted(before, k))
    && (forall a :: a in before.attempts ==>
          after.attempts[a].execution == before.attempts[a].execution && after.attempts[a].score == before.attempts[a].score)
    && !RejudgeAccepted(after, before.jobs[j].attempt)
  }

  lemma ClaimEffect(db: Db, j: JobId, deadline: Option<string>)
    requires Sound(db)
    ensures if ClaimAccepted(db, j) then JobClaimed(db, Claim(db, j, deadline), j, deadline) else Claim(db, j, deadline) == db
  {
    var after := Claim(db, j, deadline);
    if ClaimAccepted(db, j) {
      assert after.jobs[j].attempt == db.jobs[j].attempt && InFlight(after.jobs[j].status);
    }
  }

  /** A failed job is over; its attempt has the score saved for it, the execution it had, and a status that
      says what that execution came to, unless the job was stopped. */
  ghost predicate JobFailed(before: Db, after: Db, j: JobId, status: Status)
    requires j in before.jobs
  {
    var a := before.jobs[j].attempt;
    var rejudge := before.jobs[j].rejudge;
    && SameBut(before, after, a, j) && OnlyStatus(before.jobs[j], after.jobs[j], status)
    && a in before.attempts
    && FailedRow(before.attempts[a], after.attempts[a], status, if rejudge.Some? then rejudge.value.score else None)
  }

  lemma FailureEffect(db: Db, j: JobId, status: Status)
    requires Sound(db)
    ensures if j in db.jobs then JobFailed(db, FinishFailure(db, j, status), j, status) else FinishFailure(db, j, status) == db
  {
  }

  /** The committed score is the row's score and the newest of the outbox, under a revision above every
      earlier one; the same job can never commit again; nothing else changes. */
  ghost predicate CommitLanded(before: Db, after: Db, a: AttemptId, j: Option<JobId>, passed: bool, score: int) {
    && CommitWritten(before, after, a, passed, score) && CommitLogged(before, after, a, j, score)
    && (j.Some? ==> !CommitAccepted(after, a, j))
  }

  predicate CommitWritten(before: Db, after: Db, a: AttemptId, passed: bool, score: int) {
    && SameRowsBut(before, after, a) && after.jobs == before.jobs && after.judgeRuns == before.judgeRuns && after.runs == before.runs
    && a in before.attempts && CommittedRow(before.attempts[a], after.attempts[a], passed, score)
  }

  ghost predicate CommitLogged(before: Db, after: Db, a: AttemptId, j: Option<JobId>, score: int) {
    && Latest(after.outbox, a) == Some(score)
    && |after.outbox| == |before.outbox| + 1 && before.outbox == after.outbox[..|before.outbox|]
    && var last := after.outbox[|before.outbox|];
    && last.attempt == a && last.job == j && last.score == score
    && (forall c :: c in before.outbox && c.attempt == a ==> c.revision < last.revision)
    && (forall r :: r in before.judgeRuns && r.attempt == a ==> r.revision < last.revision)
    && (forall x :: LeftFree(before, a, x) ==> last.revision <= x)
  }

  /** A number above all judge runs of the attempt that none of its commits has. */
  predicate LeftFree(db: Db, a: AttemptId, x: nat) {
    && x > 0 && (forall r :: r in db.judgeRuns && r.attempt == a ==> r.revision < x)
    && (forall c :: c in db.outbox && c.attempt == a ==> c.revision != x)
  }

  lemma NextIsLeast(db: Db, a: AttemptId, x: nat)
    requires LeftFree(db, a, x)
    ensures NextRevision(db, a) <= x
  {
    MaxJudgedAttained(db.judgeRuns, a);
    assert x < NextRevision(db, a) ==> x in Revisions(db.outbox, a);
  }

  lemma {:induction false} CommitEffect(db: Db, a: AttemptId, j: Option<JobId>, passed: bool, score: int)
    requires Sound(db)
    ensures Sound(CommitScore(db, a, j, passed, score))
    ensures if CommitAccepted(db, a, j) then CommitLanded(db, CommitScore(db, a, j, passed, score), a, j, passed, score)
            else CommitScore(db, a, j, passed, score) == db
  {
    CommitKeepsExecution(db, a, j, passed, score);
    CommitKeepsRevisions(db, a, j, passed, score);
    if CommitAccepted(db, a, j) {
      CommitIsLogged(db, a, j, passed, score);
      var after := CommitScore(db, a, j, passed, score);
      assert after.outbox[|db.outbox|] in after.outbox;
    }
  }

  lemma {:induction false} CommitIsLogged(db: Db, a: AttemptId, j: Option<JobId>, passed: bool, score: int)
    requires RevisionsOk(db) && CommitAccepted(db, a, j)
    ensures CommitLogged(db, CommitScore(db, a, j, passed, score), a, j, score)
  {
    CommitIsNewest(db, a);
    MaxJudgedBounds(db.judgeRuns, a);
    forall x | LeftFree(db, a, x)
      ensures NextRevision(db, a) <= x
    {
      NextIsLeast(db, a, x);
    }
    assert CommitScore(db, a, j, passed, score).outbox[..|db.outbox|] == db.outbox;
  }

  /** A number a new judge run of `a` may have. */
  predicate Numbered(db: Db, a: AttemptId, revision: nat) {
    && revision > 0
    && (forall r :: r in db.judgeRuns && r.attempt == a ==> r.revision < revision)
    && (forall c :: c in db.outbox && c.attempt == a ==> c.revision <= revision)
  }

  /** One judge run is added: with the least number above every earlier one of the attempt and not below any
      of its commits, and with the score the row shows. */
  ghost predicate Recorded(before: Db, after: Db, a: AttemptId) {
    && after == before.(judgeRuns := after.judgeRuns)
    && if a !in before.attempts then after == before
       else
         && |after.judgeRuns| == |before.judgeRuns| + 1 && before.judgeRuns == after.judgeRuns[..|before.judgeRuns|]
         && var r := after.judgeRuns[|before.judgeRuns|];
         && r.attempt == a && Numbered(before, a, r.revision) && (forall x :: Numbered(before, a, x) ==> r.revision <= x)
         && r.score == if before.attempts[a].score.Some? then before.attempts[a].score.value else 0
  }

  lemma {:induction false} MaxJudgedAttained(runs: seq<JudgeRun>, a: AttemptId)
    ensures MaxJudged(runs, a) != 0 ==> exists r :: r in runs && r.attempt == a && r.revision == MaxJudged(runs, a)
  {
    if runs != [] {
      var n := |runs| - 1;
      MaxJudgedAttained(runs[..n], a);
      assert runs[n] in runs;
    }
  }

  lemma RecordEffect(db: Db, a: AttemptId)
    requires Sound(db)
    ensures Sound(RecordJudgeRun(db, a)) && Recorded(db, RecordJudgeRun(db, a), a)
  {
    RecordKeepsRevisions(db, a);
    MaxJudgedBounds(db.judgeRuns, a);
    MaxJudgedAttained(db.judgeRuns, a);
    MaxRevisionBounds(db.outbox, a);
    if a in db.attempts {
      var after := RecordJudgeRun(db, a);
      assert after.judgeRuns[..|db.judgeRuns|] == db.judgeRuns;
      var r := after.judgeRuns[|db.judgeRuns|].revision;
      forall x | Numbered(db, a, x)
        ensures r <= x
      {
        if r == MaxRevision(db.outbox, a) && r > 0 {
          var c :| c in db.outbox && c.attempt == a && c.revision == r;
        }
      }
    }
  }

  /** A completed job is over and was the only job written; of its attempt at most the scoring axis changes:
      score, status and execution stay what the commit, or a later one, left. */
  ghost predicate JobCompleted(before: Db, after: Db, j: JobId, rowToo: bool)
    requires j in before.jobs
  {
    var a := before.jobs[j].attempt;
    && SameBut(before, after, a, j) && OnlyStatus(before.jobs[j], after.jobs[j], Completed) && !ClaimAccepted(after, j)
    && a in before.attempts
    && (if rowToo then after.attempts[a].scoring == Completed && after.attempts[a].(scoring := before.attempts[a].scoring) == before.attempts[a]
        else after.attempts[a] == before.attempts[a])
    && (HasJobInFlight(after, a) <==> OthersBusy(before, a, j))
  }

  /** Another job of the attempt is in flight. */
  predicate OthersBusy(db: Db, a: AttemptId, j: JobId) {
    exists k | k in db.jobs && k != j :: db.jobs[k].attempt == a && db.jobs[k].status in {Queued, Running}
  }

  lemma CompletionEffect(db: Db, j: JobId)
    requires Sound(db)
    ensures if j in db.jobs then JobCompleted(db, CompleteJob(db, j), j, true) else CompleteJob(db, j) == db
  {
    if j in db.jobs {
      OthersInFlight(db, CompleteJob(db, j), j);
    }
  }

  lemma CommittedCompletionEffect(db: Db, j: JobId)
    requires Sound(db)
    ensures if j in db.jobs then JobCompleted(db, CompleteJobOnly(db, j), j, false) else CompleteJobOnly(db, j) == db
  {
    if j in db.jobs {
      OthersInFlight(db, CompleteJobOnly(db, j), j);
    }
  }

  lemma OthersInFlight(before: Db, after: Db, j: JobId)
    requires j in before.jobs && SameJobsBut(before, after, j) && after.jobs[j].status == Completed
    ensures HasJobInFlight(after, before.jobs[j].attempt) <==> OthersBusy(before, before.jobs[j].attempt, j)
  {
    var a := before.jobs[j].attempt;
    if HasJobInFlight(after, a) {
      var k :| k in after.jobs && after.jobs[k].attempt == a && InFlight(after.jobs[k].status);
      assert k != j && k in before.jobs;
    }
    if k :| k in before.jobs && k != j && before.jobs[k].attempt == a && InFlight(before.jobs[k].status) {
      assert k in after.jobs && after.jobs[k] == before.jobs[k];
    }
  }

  /** A job given back can be claimed again unless somebody stopped it or it was over; every attempt keeps its
      jobs in flight, its score, its status and its execution; and no running scoring axis is left behind. */
  ghost predicate Requeued(before: Db, after: Db, j: JobId)
    requires j in before.jobs
  {
    var a := before.jobs[j].attempt;
    && SameBut(before, after, a, j)
    && (ClaimAccepted(after, j) <==> InFlight(before.jobs[j].status) && !before.jobs[j].cancelRequested)
    && RequeuedJob(before.jobs[j], after.jobs[j])
    && a in before.attempts && RequeuedRow(before.attempts[a], after.attempts[a], false)
  }

  lemma RequeueEffect(db: Db, j: JobId)
    requires Sound(db)
    ensures if j in db.jobs then Requeued(db, RequeueJob(db, j), j) else RequeueJob(db, j) == db
  {
  }

  /** The handler of a worker's cancellation: a job somebody stopped fails as cancelled, with its saved score back;
      any other is given back to the queue; one that is gone changes nothing. */
  lemma InterruptionEffect(db: Db, j: JobId)
    requires Sound(db)
    ensures var after := ScoringProtocol.Interrupted(db, j);
            if j !in db.jobs then after == db
            else if db.jobs[j].cancelRequested || db.jobs[j].status == Cancelled then JobFailed(db, after, j, Cancelled)
            else Requeued(db, after, j)
  {
    FailureEffect(db, j, Cancelled);
    RequeueEffect(db, j);
  }

  /** After the startup recovery the jobs to schedule are exactly those that were in flight and not stopped,
      no scoring axis runs, no score and no execution changed, and recovering twice is recovering once. */
  ghost predicate Recovered(before: Db, after: Db, schedule: set<JobId>) {
    && SameLogs(before, after) && after.runs == before.runs
    && JobsRecovered(before, after, schedule) && RowsRecovered(before, after)
    && RecoverScoring(after) == after
  }

  ghost predicate JobsRecovered(before: Db, after: Db, schedule: set<JobId>) {
    && after.jobs.Keys == before.jobs.Keys
    && (forall j :: j in schedule <==> ClaimAccepted(after, j))
    && (forall j :: j in schedule <==> j in before.jobs && before.jobs[j].status in {Queued, Running} && !before.jobs[j].cancelRequested)
    && (forall j :: j in before.jobs && j !in schedule ==> after.jobs[j] == before.jobs[j])
    && (forall j :: j in schedule ==> RequeuedJob(before.jobs[j], after.jobs[j]))
  }

  ghost predicate RowsRecovered(before: Db, after: Db) {
    && after.attempts.Keys == before.attempts.Keys
    && forall a :: a in before.attempts ==> RequeuedRow(before.attempts[a], after.attempts[a], true)
  }

  lemma RecoveryEffect(db: Db)
    requires Sound(db)
    ensures Recovered(db, RecoverScoring(db), set j | j in db.jobs && ClaimAccepted(RecoverScoring(db), j))
  {
    RecoveringTwice(db);
    assert RowsRecovered(db, RecoverScoring(db));
    RecoveredJobs(db, set j | j in db.jobs && ClaimAccepted(RecoverScoring(db), j));
  }

  lemma RecoveredJobs(db: Db, schedule: set<JobId>)
    requires schedule == set j | j in db.jobs && ClaimAccepted(RecoverScoring(db), j)
    ensures JobsRecovered(db, RecoverScoring(db), schedule)
  {
  }

  lemma RecoveringTwice(db: Db)
    ensures RecoverScoring(RecoverScoring(db)) == RecoverScoring(db)
  {
    var after := RecoverScoring(db);
    assert RecoverScoring(after).jobs == after.jobs;
    assert RecoverScoring(after).attempts == after.attempts;
  }

  // ---------- rejudge ----------

  /** A prepared rejudge leaves no job of the attempt, so that any scorer version can be queued; every other
      job and all that is known of the attempt stay, and nothing yet stops a second request. */
  ghost predicate Prepared(before: Db, after: Db, a: AttemptId) {
    && Rejudgeable(before, a) && after == before.(jobs := after.jobs)
    && (forall j :: j in after.jobs <==> j in before.jobs && before.jobs[j].attempt != a)
    && (forall j :: j in after.jobs ==> after.jobs[j] == before.jobs[j])
    && (forall version :: EnqueueAccepted(after, a, version))
    && RejudgeAccepted(after, a)
  }

  /** An attempt whose execution came to an end of its own, with nothing of its scoring in flight. */
  predicate Rejudgeable(db: Db, a: AttemptId) {
    && a in db.attempts && db.attempts[a].execution in {Completed, Timeout, Failed}
    && db.attempts[a].scoring !in {Queued, Running} && !Busy(db, a)
  }

  lemma RejudgeableExactly(db: Db, a: AttemptId)
    ensures RejudgeAccepted(db, a) <==> Rejudgeable(db, a)
  {
  }

  lemma PreparationEffect(db: Db, a: AttemptId)
    requires Sound(db)
    ensures if Rejudgeable(db, a) then Prepared(db, PrepareRejudge(db, a), a) else PrepareRejudge(db, a) == db
  {
    RejudgeableExactly(db, a);
  }

  // ---------- the run projection ----------

  /** Only the run of the attempt changes; its status says what its attempts show; refreshing again, for any attempt of the run, changes nothing. */
  ghost predicate Refreshed(before: Db, after: Db, a: AttemptId) {
    && after == before.(runs := after.runs) && after.runs.Keys == before.runs.Keys
    && if a !in before.attempts then after == before
       else
         var r := before.attempts[a].run;
         && (forall q :: q in before.runs && q != r ==> after.runs[q] == before.runs[q])
         && (r in before.runs ==> Projects(before.attempts, r, after.runs[r]))
         && (forall b :: b in AttemptsOf(before.attempts, r) ==> Refresh(after, b) == after)
  }

  lemma RefreshEffect(db: Db, a: AttemptId)
    ensures Refreshed(db, Refresh(db, a), a)
  {
    if a in db.attempts {
      var r := db.attempts[a].run;
      assert a in AttemptsOf(db.attempts, r);
      ProjectionDecided(db.attempts, r);
      assert Member(db.attempts, r, a);
    }
  }

  // ---------- Stop and the sweep ----------

  /** Stopping scoring: of the jobs in flight in the runs the queued ones are over and the running ones are marked,
      so that none of them can be claimed any more; their attempts are unscored, closed on the scoring axis and
      keep their execution; and nothing else changes, also not by stopping again. */
  ghost predicate ScoringStopped(before: Db, after: Db, runs: set<RunId>, cancelled: set<JobId>) {
    && SameLogs(before, after) && after.runs == before.runs
    && JobsStopped(before, after, runs, cancelled) && ScoringRowsStopped(before, after, runs)
    && CancelScoring(after, runs) == after
  }

  ghost predicate JobsStopped(before: Db, after: Db, runs: set<RunId>, cancelled: set<JobId>) {
    && after.jobs.Keys == before.jobs.Keys
    && (forall j :: j in cancelled <==> j in before.jobs && before.jobs[j].status in {Queued, Running} && RunOf(before, before.jobs[j].attempt, runs))
    && (forall j :: j in before.jobs && j !in cancelled ==> after.jobs[j] == before.jobs[j])
    && (forall j :: j in cancelled ==> StoppedJob(before.jobs[j], after.jobs[j]))
    && (forall j :: ClaimAccepted(after, j) <==> j !in cancelled && ClaimAccepted(before, j))
  }

  ghost predicate ScoringRowsStopped(before: Db, after: Db, runs: set<RunId>) {
    && after.attempts.Keys == before.attempts.Keys
    && forall a :: a in before.attempts ==>
         if RunOf(before, a, runs) && Busy(before, a) then UnscoredByStop(before.attempts[a], after.attempts[a])
         else after.attempts[a] == before.attempts[a]
  }

  /** An attempt of one of the runs. */
  predicate RunOf(db: Db, a: AttemptId, runs: set<RunId>) {
    a in db.attempts && db.attempts[a].run in runs
  }

  lemma StoppingScoringTwice(db: Db, runs: set<RunId>)
    ensures CancelScoring(CancelScoring(db, runs), runs) == CancelScoring(db, runs)
  {
    var once := CancelScoring(db, runs);
    var twice := CancelScoring(once, runs);
    forall a | a in once.attempts && StopsScoringOf(once, a, runs)
      ensures StopsScoringOf(db, a, runs)
    {
      var j :| j in once.jobs && StopsJob(once, j, runs) && once.jobs[j].attempt == a;
      assert StopsJob(db, j, runs) && db.jobs[j].attempt == a;
    }
    assert twice.attempts == once.attempts;
    assert twice.jobs == once.jobs;
  }

  lemma StoppedJobsEffect(db: Db, runs: set<RunId>, cancelled: set<JobId>)
    requires cancelled == set j | j in db.jobs && StopsJob(db, j, runs)
    ensures JobsStopped(db, CancelScoring(db, runs), runs, cancelled)
  {
  }

  lemma StoppedRowsEffect(db: Db, runs: set<RunId>)
    ensures ScoringRowsStopped(db, CancelScoring(db, runs), runs)
  {
    var after := CancelScoring(db, runs);
    forall a | a in db.attempts
      ensures if RunOf(db, a, runs) && Busy(db, a) then UnscoredByStop(db.attempts[a], after.attempts[a])
              else after.attempts[a] == db.attempts[a]
    {
      if RunOf(db, a, runs) {
        BusyIsStopped(db, runs, a);
      }
    }
  }

  lemma StoppedScoringEffect(db: Db, runs: set<RunId>, cancelled: set<JobId>)
    requires cancelled == set j | j in db.jobs && StopsJob(db, j, runs)
    ensures ScoringStopped(db, CancelScoring(db, runs), runs, cancelled)
  {
    StoppingScoringTwice(db, runs);
    StoppedJobsEffect(db, runs, cancelled);
    StoppedRowsEffect(db, runs);
  }

  lemma StoppedScoringStaysSound(db: Db, runs: set<RunId>)
    requires Sound(db)
    ensures Sound(CancelScoring(db, runs))
  {
    CancellationKeepsExecution(db, runs);
    SameLogsStaySound(db, CancelScoring(db, runs));
  }

  /** After a Stop every open axis of the stopped runs says `cancelled`, what was concluded stays, nothing can be
      claimed, a run in which something was executed shows what its attempts show, other runs and all commits
      stay, and stopping again changes nothing. */
  ghost predicate Stopped(before: Db, after: Db, runs: set<RunId>)
    requires ExecutionOk(before)
  {
    && after.attempts.Keys == before.attempts.Keys && SameLogs(before, after)
    && OpenIn(after.attempts, runs) == {}
    && (forall a :: a in before.attempts && !RunOf(before, a, runs) ==> after.attempts[a] == before.attempts[a])
    && (forall a :: RunOf(before, a, runs) ==>
          Closed(after.attempts[a]) && StoppedAttempt(before.attempts[a], after.attempts[a], Busy(before, a)))
    && after.runs.Keys == before.runs.Keys
    && (forall r :: r in before.runs && r !in runs ==> after.runs[r] == before.runs[r])
    && (forall r :: r in before.runs && r in runs && Executes(before.attempts, r) ==> Projects(after.attempts, r, after.runs[r]))
    && after.jobs.Keys == before.jobs.Keys
    && (forall j :: ClaimAccepted(after, j) <==> ClaimAccepted(before, j) && before.attempts[before.jobs[j].attempt].run !in runs)
    && StopRuns(after, runs) == after
  }

  lemma StopClaims(db: Db, runs: set<RunId>)
    requires ExecutionOk(db)
    ensures StopRuns(db, runs).jobs.Keys == db.jobs.Keys
    ensures forall j :: ClaimAccepted(StopRuns(db, runs), j) <==> ClaimAccepted(db, j) && db.attempts[db.jobs[j].attempt].run !in runs
  {
    assert StopRuns(db, runs).jobs == CancelScoring(db, runs).jobs;
  }

  lemma StopEffect(db: Db, runs: set<RunId>)
    requires Sound(db)
    ensures Sound(StopRuns(db, runs)) && Stopped(db, StopRuns(db, runs), runs)
  {
    StopKeepsSound(db, runs);
    StopClosesEveryAxis(db, runs);
    StopIsIdempotent(db, runs);
    StopClaims(db, runs);
    StoppedAttempts(db, runs);
    StoppedRuns(db, runs);
  }

  lemma StopKeepsSound(db: Db, runs: set<RunId>)
    requires Sound(db)
    ensures Sound(StopRuns(db, runs)) && SameLogs(db, StopRuns(db, runs))
  {
    var cancelled := CancelScoring(db, runs);
    CancellationKeepsExecution(db, runs);
    ConvergenceKeepsExecution(cancelled, OpenIn(cancelled.attempts, runs), STOP);
    SameLogsStaySound(db, StopRuns(db, runs));
  }

  lemma StoppedAttempts(db: Db, runs: set<RunId>)
    requires ExecutionOk(db)
    ensures forall a :: RunOf(db, a, runs) ==>
              && a in StopRuns(db, runs).attempts && Closed(StopRuns(db, runs).attempts[a])
              && StoppedAttempt(db.attempts[a], StopRuns(db, runs).attempts[a], Busy(db, a))
  {
    StopClosesEveryAxis(db, runs);
    var after := StopRuns(db, runs);
    forall a | RunOf(db, a, runs)
      ensures Closed(after.attempts[a]) && StoppedAttempt(db.attempts[a], after.attempts[a], Busy(db, a))
    {
      assert a !in OpenIn(after.attempts, runs);
      StoppedAttemptRow(db, runs, a);
    }
  }

  lemma BusyIsStopped(db: Db, runs: set<RunId>, a: AttemptId)
    requires a in db.attempts && db.attempts[a].run in runs
    ensures Busy(db, a) <==> StopsScoringOf(db, a, runs)
  {
    if Busy(db, a) {
      var j :| j in db.jobs && db.jobs[j].attempt == a && db.jobs[j].status in {Queued, Running};
      assert StopsJob(db, j, runs);
    }
  }

  lemma StoppedAttemptRow(db: Db, runs: set<RunId>, a: AttemptId)
    requires a in db.attempts && db.attempts[a].run in runs
    ensures StoppedAttempt(db.attempts[a], StopRuns(db, runs).attempts[a], Busy(db, a))
  {
    BusyIsStopped(db, runs, a);
    var cancelled := CancelScoring(db, runs).attempts[a];
    assert cancelled == if Busy(db, a) then CancelledScoringRow(db.attempts[a]) else db.attempts[a];
    assert StopRuns(db, runs).attempts[a] == if Open(cancelled) then ConvergeRow(cancelled, STOP) else cancelled;
  }

  lemma StoppedRuns(db: Db, runs: set<RunId>)
    ensures var after := StopRuns(db, runs);
            && after.runs.Keys == db.runs.Keys
            && (forall r :: r in db.runs && r !in runs ==> after.runs[r] == db.runs[r])
            && (forall r :: r in db.runs && r in runs && Executes(db.attempts, r) ==> Projects(after.attempts, r, after.runs[r]))
  {
    var after := StopRuns(db, runs);
    forall r | r in db.runs && r in runs && Executes(db.attempts, r)
      ensures Projects(after.attempts, r, after.runs[r])
    {
      var a :| a in db.attempts && Member(db.attempts, r, a) && db.attempts[a].execution in {Queued, Running};
      assert a in OpenIn(CancelScoring(db, runs).attempts, runs);
      StopProjectsConvergedRuns(db, runs, r);
      ProjectionDecided(after.attempts, r);
    }
  }

  lemma OpenAttemptsAreCancelled(before: Db, after: Db, runs: set<RunId>, r: RunId, a: AttemptId)
    requires ExecutionOk(before) && Stopped(before, after, runs) && r in runs && a in before.attempts
    requires AllShow(before.attempts, r, {Queued, StartingSession, Running, Scoring})
    ensures a in after.attempts && (Member(before.attempts, r, a) <==> Member(after.attempts, r, a))
    ensures Member(before.attempts, r, a) ==> after.attempts[a].status == Cancelled && Closed(after.attempts[a])
    ensures Member(before.attempts, r, a) && before.attempts[a].execution in {Queued, Running} ==> after.attempts[a].execution == Cancelled
  {
    if RunOf(before, a, runs) {
      assert StoppedAttempt(before.attempts[a], after.attempts[a], Busy(before, a));
    }
  }

  lemma CancelledRun(attempts: map<AttemptId, Attempt>, r: RunId, a: AttemptId, status: Status)
    requires Member(attempts, r, a) && Projects(attempts, r, status)
    requires forall b :: Member(attempts, r, b) ==> attempts[b].status == Cancelled && Closed(attempts[b])
    ensures status == Cancelled
  {
    assert !Executes(attempts, r) && !IsScored(attempts, r);
    assert !AllShow(attempts, r, {Completed, GaveUp});
    assert AllShow(attempts, r, {Completed, GaveUp, Cancelled});
  }

  /** A run stopped while something was executed, with every attempt still open, ends as cancelled, and so do its
      attempts; none that was executed can be rejudged. */
  lemma StoppedOpenRunIsCancelled(db: Db, runs: set<RunId>, r: RunId)
    requires Sound(db) && r in runs && r in db.runs && Executes(db.attempts, r)
    requires AllShow(db.attempts, r, {Queued, StartingSession, Running, Scoring})
    ensures var after := StopRuns(db, runs);
            && r in after.runs && after.runs[r] == Cancelled
            && forall a :: Member(db.attempts, r, a) ==>
                 && a in after.attempts && after.attempts[a].status == Cancelled
                 && (db.attempts[a].execution in {Queued, Running} ==> !Rejudgeable(after, a))
  {
    var after := StopRuns(db, runs);
    assert Stopped(db, after, runs) by {
      StopEffect(db, runs);
    }
    forall b | b in db.attempts
      ensures b in after.attempts && (Member(db.attempts, r, b) <==> Member(after.attempts, r, b))
      ensures Member(db.attempts, r, b) ==> after.attempts[b].status == Cancelled && Closed(after.attempts[b])
      ensures Member(db.attempts, r, b) && db.attempts[b].execution in {Queued, Running} ==> after.attempts[b].execution == Cancelled
    {
      OpenAttemptsAreCancelled(db, after, runs, r, b);
    }
    var a :| a in db.attempts && Member(db.attempts, r, a) && db.attempts[a].execution in {Queued, Running};
    CancelledRun(after.attempts, r, a, after.runs[r]);
  }

  /** Each row fares by its own two deadlines, nothing stays overdue, no job and no commit is touched, and the
      two counts are the overdue executions and the overdue scorings of the other rows. */
  ghost predicate SweptOnce(before: Db, after: Db, cutoff: string, execution: nat, scoring: nat) {
    && after.attempts.Keys == before.attempts.Keys && after.jobs == before.jobs && SameLogs(before, after)
    && (forall a :: a in before.attempts ==>
          && SweptAsPromised(before.attempts[a], after.attempts[a],
                             ExecutionOverdue(before.attempts[a], cutoff), ScoringOverdue(before.attempts[a], cutoff))
          && !ExecutionOverdue(after.attempts[a], cutoff) && !ScoringOverdue(after.attempts[a], cutoff))
    && execution == |ExpiredExecution(before.attempts, cutoff)|
    && scoring == |ExpiredScoring(before.attempts, cutoff) - ExpiredExecution(before.attempts, cutoff)|
  }

  lemma SweepKeepsExecution(db: Db, cutoff: string)
    requires ExecutionOk(db)
    ensures Keeps(db, Sweep(db, cutoff))
  {
    var late := ExpiredExecution(db.attempts, cutoff);
    ConvergenceKeepsExecution(db, late, EXECUTION_OVERDUE);
    var first := ConvergeAttempts(db, late, EXECUTION_OVERDUE);
    var slow := ExpiredScoring(first.attempts, cutoff);
    assert forall a :: a in slow ==> RowOk(first.attempts[a]);
    ConvergenceKeepsExecution(first, slow, SCORING_OVERDUE);
  }

  lemma SweepCounts(db: Db, cutoff: string)
    ensures var late := ExpiredExecution(db.attempts, cutoff);
            var first := ConvergeAttempts(db, late, EXECUTION_OVERDUE);
            var slow := ExpiredScoring(first.attempts, cutoff);
            && Touched(db.attempts, late) == late && Touched(first.attempts, slow) == slow
            && slow == ExpiredScoring(db.attempts, cutoff) - late
  {
  }

  lemma SweepEffect(db: Db, cutoff: string)
    requires Sound(db)
    ensures var first := ConvergeAttempts(db, ExpiredExecution(db.attempts, cutoff), EXECUTION_OVERDUE);
            SweptOnce(db, Sweep(db, cutoff), cutoff,
                      |Touched(db.attempts, ExpiredExecution(db.attempts, cutoff))|,
                      |Touched(first.attempts, ExpiredScoring(first.attempts, cutoff))|)
  {
    SweepIsRowwise(db, cutoff);
    forall a | a in db.attempts
      ensures SweptAsPromised(db.attempts[a], Sweep(db, cutoff).attempts[a],
                              ExecutionOverdue(db.attempts[a], cutoff), ScoringOverdue(db.attempts[a], cutoff))
      ensures !ExecutionOverdue(Sweep(db, cutoff).attempts[a], cutoff) && !ScoringOverdue(Sweep(db, cutoff).attempts[a], cutoff)
    {
      SweptRowAsPromised(db.attempts[a], cutoff);
    }
    SweepCounts(db, cutoff);
  }

  // ---------- the invariant ----------

  lemma EnqueueStaysSound(db: Db, a: AttemptId, adapter: Status, j: JobId, version: nat, rejudge: Option<Previous>)
    requires Sound(db)
    ensures Sound(Enqueue(db, a, adapter, j, version, rejudge))
  {
    QueueKeepsExecution(db, a, adapter, j, version, rejudge);
    SameLogsStaySound(db, Enqueue(db, a, adapter, j, version, rejudge));
  }

  lemma FinalizeStaysSound(db: Db, a: AttemptId, status: Status)
    requires Sound(db) && !Stale(status)
    ensures Sound(FinalizeNoScore(db, a, status))
  {
    FinalizationKeepsExecution(db, a, status);
    SameLogsStaySound(db, FinalizeNoScore(db, a, status));
  }

  lemma FailureStaysSound(db: Db, j: JobId, status: Status)
    requires Sound(db) && !InFlight(status)
    ensures Sound(FinishFailure(db, j, status))
  {
    FailureKeepsExecution(db, j, status);
    SameLogsStaySound(db, FinishFailure(db, j, status));
  }

  lemma ClaimStaysSound(db: Db, j: JobId, deadline: Option<string>)
    requires Sound(db)
    ensures Sound(Claim(db, j, deadline))
  {
    ClaimKeepsExecution(db, j, deadline);
    SameLogsStaySound(db, Claim(db, j, deadline));
  }

  lemma RequeueStaysSound(db: Db, j: JobId)
    requires Sound(db)
    ensures Sound(RequeueJob(db, j))
  {
    RequeueKeepsExecution(db, j);
    SameLogsStaySound(db, RequeueJob(db, j));
  }

  lemma CompletionStaysSound(db: Db, j: JobId)
    requires Sound(db)
    ensures Sound(CompleteJob(db, j)) && Sound(CompleteJobOnly(db, j))
  {
    CompletionKeepsExecution(db, j);
    SameLogsStaySound(db, CompleteJob(db, j));
    SameLogsStaySound(db, CompleteJobOnly(db, j));
  }

  lemma RecoveryStaysSound(db: Db)
    requires Sound(db)
    ensures Sound(RecoverScoring(db))
  {
    RecoveryKeepsExecution(db);
    SameLogsStaySound(db, RecoverScoring(db));
  }

  lemma PreparationStaysSound(db: Db, a: AttemptId)
    requires Sound(db)
    ensures Sound(PrepareRejudge(db, a))
  {
    PreparationKeepsExecution(db, a);
    SameLogsStaySound(db, PrepareRejudge(db, a));
  }

  lemma SweepStaysSound(db: Db, cutoff: string)
    requires Sound(db)
    ensures Sound(Sweep(db, cutoff))
  {
    SweepKeepsExecution(db, cutoff);
    SameLogsStaySound(db, Sweep(db, cutoff));
  }
}
