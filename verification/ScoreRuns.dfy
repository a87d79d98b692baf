/** The score law over whole runs, and the exact conditions under which rejudges and Stops keep it. */
module ScoreRuns {
  import opened Statuses
  import opened AttemptTables
  import opened ScoringProtocol
  import opened CommitHistory
  import opened ScoreSafety
  import opened StopConditions

  /** A rejudge request that may be submitted: no task executes the attempt, no job of it is in flight, and
      the score it would restore is still the score of the row.  A caller can check all three. */
  predicate Fresh(s: System, q: nat)
    requires q in s.pending
  {
    var p := s.pending[q];
    && p.attempt in s.db.attempts
    && !Executing(s, p.attempt)
    && !HasJobInFlight(s.db, p.attempt)
    && p.previous.score == s.db.attempts[p.attempt].score
  }

  /** The runs the law is about.  Every condition is one the transaction could check before it writes: a
      Stop meets only jobs it does no harm to; a job that has committed is neither failed nor cancelled; the
      late commit of a cancelled worker has no rival; an attempt is finalized without a score
      only while it shows none; and a request that takes effect is fresh. */
  predicate Lawful(s: System, step: Step)
    requires Enabled(s, step)
  {
    match step
    case StopScoring(runs) => forall j :: j in s.db.jobs && StopsJob(s.db, j, runs) ==> Harmless(s.db, j)
    case FailJob(j, _) => !Committed(s.db.outbox, j)
    case InterruptJob(j) => JobCancelled(s.db, j) ==> !Committed(s.db.outbox, j)
    case OrphanCommits(j, _, _) => Unrivalled(s.db, s.issued[j], Some(j))
    case FinishUnscored(a, _) => a in s.db.attempts ==> s.db.attempts[a].score == None
    case SubmitRequest(q, _, version) => EnqueueAccepted(s.db, s.pending[q].attempt, version) ==> Fresh(s, q)
    case _ => true
  }

  predicate CommitStep(step: Step) {
    step.CommitJob? || step.OrphanCommits?
  }

  lemma FreshJob(s: System, j: JobId)
    requires Owned(s) && j !in s.issued
    ensures j !in s.db.jobs && !Committed(s.db.outbox, j)
  {
  }

  // ---------- the law, step by step ----------

  /** Clearing the row of an attempt that nothing was ever queued or committed for. */
  lemma UnscoredKeepsLaw(before: Db, after: Db, a: AttemptId)
    requires ScoresOk(before) && after.outbox == before.outbox && after.jobs == before.jobs
    requires a in after.attempts && after.attempts == before.attempts[a := after.attempts[a]] && Unscored(after, a)
    ensures ScoresOk(after)
  {
    UnscoredOk(after, a);
    assert forall b :: Flights(after, b) == Flights(before, b);
    OthersKeepLaw(before, after, a);
  }

  lemma CreationKeepsLaw(db: Db, a: AttemptId, run: RunId)
    requires ScoresOk(db) && References(db) && a !in db.attempts
    ensures ScoresOk(CreateAttempt(db, a, run))
  {
    UnscoredKeepsLaw(db, CreateAttempt(db, a, run), a);
  }

  lemma StartKeepsLaw(db: Db, a: AttemptId, deadline: Option<string>)
    requires ScoresOk(db)
    ensures ScoresOk(MarkRunning(db, a, deadline))
  {
    SameFlightsKeepLaw(db, MarkRunning(db, a, deadline));
  }

  lemma DispatchKeepsLaw(s: System, step: Step)
    requires Sane(s) && Enabled(s, step) && Lawful(s, step) && DispatchStep(step)
    ensures ScoresOk(Apply(s, step).db)
  {
    if step.Create? {
      CreationKeepsLaw(s.db, step.a, step.run);
    } else if step.FinishUnscored? {
      FinalizationKeepsLaw(s.db, step.a, step.status);
    } else if !step.Abandon? {
      assert Executing(s, step.a) && step.a in s.db.attempts && Unscored(s.db, step.a);
      UnscoredOk(s.db, step.a);
      if step.Start? {
        StartKeepsLaw(s.db, step.a, step.deadline);
      } else if step.FinishScored? {
        FreshJob(s, step.j);
        EnqueueKeepsLaw(s.db, step.a, step.adapter, step.j, step.version, None);
      } else {
        CommitExact(s.db, step.a, None, step.passed, step.score);
      }
    }
  }

  lemma ClaimKeepsFlights(db: Db, j: JobId, deadline: Option<string>)
    ensures SameFlights(db, Claim(db, j, deadline))
  {
  }

  lemma RequeueKeepsFlights(db: Db, j: JobId)
    ensures SameFlights(db, RequeueJob(db, j))
  {
  }

  /** What a step of the worker of `j` needs to know. */
  predicate WorkerKnown(s: System, j: JobId) {
    j in s.workers && WorkerOk(s.db, j, s.workers[j])
  }

  lemma QuietWorkerKeepsFlights(s: System, step: Step)
    requires WorkerStep(step) && WorkerKnown(s, step.j) && WorkerEnabled(s, step)
    requires step.BeginJob? || step.LoseJob? || step.InterruptJob? || step.LogJob? || step.ClearJob? || step.JudgeJob?
    requires step.InterruptJob? ==> !JobCancelled(s.db, step.j)
    ensures SameFlights(s.db, WorkerTables(s, step))
  {
    if step.BeginJob? || step.LoseJob? {
      ClaimKeepsFlights(s.db, step.j, step.deadline);
    } else if step.InterruptJob? {
      RequeueKeepsFlights(s.db, step.j);
    }
  }

  /** A worker that finds its job cancelled has not committed it. */
  lemma CancellationKeepsLaw(s: System, j: JobId)
    requires Sane(s) && At(s, j, {Claimed, Cleared, Judged, Landed, Logged}) && !Committed(s.db.outbox, j)
    ensures ScoresOk(FinishFailure(s.db, j, Cancelled))
  {
    assert WorkerOk(s.db, j, s.workers[j]);
    FailureKeepsLaw(s.db, j, Cancelled);
  }

  /** The commit of a worker that no longer runs, and of one that does. */
  lemma LandingKeepsLaw(s: System, step: Step)
    requires Sane(s) && CommitStep(step) && Enabled(s, step) && Lawful(s, step)
    ensures ScoresOk(WorkerTables(s, step))
  {
    var j, a := step.j, s.issued[step.j];
    CommitIsAccepted(s, j);
    if step.CommitJob? {
      OnlyFlight(s.db, j);
    }
    CommitExact(s.db, a, Some(j), step.passed, step.score);
  }

  lemma WorkerKeepsLaw(s: System, step: Step)
    requires Sane(s) && Enabled(s, step) && Lawful(s, step) && WorkerStep(step)
    ensures ScoresOk(Apply(s, step).db)
  {
    var j := step.j;
    assert WorkerOk(s.db, j, s.workers[j]);
    if step.SeeCancelled? || (step.InterruptJob? && JobCancelled(s.db, j)) {
      CancellationKeepsLaw(s, j);
    } else if step.SkipCommitted? || step.FinishJob? {
      FinishKeepsLaw(s.db, j);
    } else if step.FailJob? {
      FailureKeepsLaw(s.db, j, step.status);
    } else if CommitStep(step) {
      LandingKeepsLaw(s, step);
    } else {
      QuietWorkerKeepsFlights(s, step);
      SameFlightsKeepLaw(s.db, WorkerTables(s, step));
    }
  }

  /** A worker that is about to commit does commit, and its attempt is not executed any more. */
  lemma CommitIsAccepted(s: System, j: JobId)
    requires Sane(s) && At(s, j, {Judged, Orphaned}) && j in s.issued
    ensures var a := s.issued[j];
            && CommitAccepted(s.db, a, Some(j)) && !Executing(s, a) && !Stale(s.db.attempts[a].status)
            && (j in s.db.jobs ==> s.db.jobs[j].attempt == a)
            && (s.workers[j] == Judged ==> j in Flights(s.db, a))
  {
    assert WorkerOk(s.db, j, s.workers[j]);
    if s.workers[j] == Orphaned {
      assert OrphanOk(s, j);
    } else {
      assert !Unscored(s.db, s.issued[j]);
    }
  }

  lemma SubmissionKeepsLaw(s: System, step: Step)
    requires Sane(s) && step.SubmitRequest? && Enabled(s, step) && Lawful(s, step)
    ensures ScoresOk(Apply(s, step).db)
  {
    var p := s.pending[step.q];
    if EnqueueAccepted(s.db, p.attempt, step.version) {
      FreshJob(s, step.j);
      assert Flights(s.db, p.attempt) == map[];
      EnqueueKeepsLaw(s.db, p.attempt, p.adapter, step.j, step.version, Some(p.previous));
    }
  }

  lemma ConvergenceKeepsLaw(db: Db, ids: set<AttemptId>, p: Policy)
    requires ScoresOk(db)
    ensures ScoresOk(ConvergeAttempts(db, ids, p))
  {
    SameFlightsKeepLaw(db, ConvergeAttempts(db, ids, p));
  }

  lemma RestartKeepsLaw(db: Db, a: AttemptId)
    requires ScoresOk(db)
    ensures ScoresOk(RecoverScoring(db)) && ScoresOk(Refresh(db, a))
  {
    SameFlightsKeepLaw(db, RecoverScoring(db));
    SameFlightsKeepLaw(db, Refresh(db, a));
  }

  lemma OtherKeepsLaw(s: System, step: Step)
    requires Sane(s) && Enabled(s, step) && Lawful(s, step) && !WorkerStep(step) && !DispatchStep(step)
    ensures ScoresOk(Apply(s, step).db)
  {
    if step.PrepareRequest? {
      PrepareKeepsLaw(s.db, step.a);
    } else if step.SubmitRequest? {
      SubmissionKeepsLaw(s, step);
    } else if step.StopScoring? {
      StopScoringExact(s, step.runs);
    } else if step.StopAttempts? {
      ConvergenceKeepsLaw(s.db, step.ids, STOP);
    } else if step.SweepLateExecution? {
      ConvergenceKeepsLaw(s.db, s.lateExecution, EXECUTION_OVERDUE);
    } else if step.SweepLateScoring? {
      ConvergenceKeepsLaw(s.db, s.lateScoring, SCORING_OVERDUE);
    } else if step.RefreshOf? {
      RestartKeepsLaw(s.db, step.a);
    } else if step.RecoverJobs? {
      RestartKeepsLaw(s.db, 0);
    } else if step.RecoverAttempt? && step.fate.Interrupt? {
      FinalizationKeepsLaw(s.db, step.a, step.fate.status);
    } else {
      assert Apply(s, step).db == s.db;
    }
  }

  // ---------- owners, workers and references, step by step ----------

  /** A transaction that adds no job and no commit, and opens or scores no attempt. */
  predicate CalmTables(before: Db, after: Db) {
    && after.outbox == before.outbox && after.attempts.Keys == before.attempts.Keys
    && (forall j :: j in after.jobs ==> j in before.jobs && after.jobs[j].attempt == before.jobs[j].attempt)
    && (forall a :: a in before.attempts ==> CalmRow(before.attempts[a], after.attempts[a]) || HasJob(before, a))
    && (forall a :: a in before.attempts && Stale(after.attempts[a].status) ==> Stale(before.attempts[a].status))
  }

  predicate HasJob(db: Db, a: AttemptId) {
    exists j :: j in db.jobs && db.jobs[j].attempt == a
  }

  predicate Calm(s: System, t: System) {
    CalmTables(s.db, t.db) && t.issued == s.issued && forall a :: a in t.live ==> a in s.live && t.live[a] == s.live[a]
  }

  predicate CalmRow(before: Attempt, after: Attempt) {
    after.score == before.score || after.score == None
  }

  lemma CalmKeepsOwners(s: System, t: System)
    requires References(s.db) && OwnersOk(s) && Calm(s, t)
    ensures References(t.db) && OwnersOk(t)
    ensures forall j :: OrphanOk(s, j) ==> OrphanOk(t, j)
  {
  }

  /** Workers other than `j` keep their phase, and jobs in flight other than `j` stay as they are. */
  predicate Steady(s: System, t: System, j: Option<JobId>) {
    && t.db.outbox == s.db.outbox
    && (forall k :: k in t.workers && Some(k) != j ==> k in s.workers && t.workers[k] == s.workers[k])
    && (forall k :: k in s.db.jobs && Some(k) != j && InFlight(s.db.jobs[k].status) ==>
          k in t.db.jobs && t.db.jobs[k] == s.db.jobs[k])
  }

  lemma SteadyKeepsWorkers(s: System, t: System, j: Option<JobId>)
    requires WorkersOk(s) && Steady(s, t, j)
    requires j.Some? && j.value in t.workers ==> WorkerOk(t.db, j.value, t.workers[j.value])
    ensures WorkersOk(t)
  {
    forall k | k in t.workers && Some(k) != j
      ensures WorkerOk(t.db, k, t.workers[k])
    {
      assert WorkerOk(s.db, k, s.workers[k]);
    }
  }

  /** Orphans stay orphans, and `j` becomes one only with its execution over. */
  lemma SteadyKeepsOrphans(s: System, t: System, j: Option<JobId>)
    requires OrphansOk(s) && Steady(s, t, j) && forall k :: OrphanOk(s, k) ==> OrphanOk(t, k)
    requires j.Some? && j.value in t.workers && t.workers[j.value] == Orphaned ==> OrphanOk(s, j.value)
    ensures OrphansOk(t)
  {
    forall k | k in t.workers && t.workers[k] == Orphaned
      ensures OrphanOk(t, k)
    {
      assert OrphanOk(s, k);
    }
  }

  lemma ClaimIsCalm(db: Db, j: JobId, deadline: Option<string>)
    ensures CalmTables(db, Claim(db, j, deadline))
  {
  }

  lemma RequeueIsCalm(db: Db, j: JobId)
    ensures CalmTables(db, RequeueJob(db, j))
  {
  }

  lemma CompletionIsCalm(db: Db, j: JobId)
    ensures CalmTables(db, CompleteJob(db, j))
  {
  }

  lemma SkippingIsCalm(db: Db, j: JobId)
    ensures CalmTables(db, CompleteJobOnly(db, j))
  {
  }

  lemma FailureIsCalm(db: Db, j: JobId, status: Status)
    requires j in db.jobs && !InFlight(status)
    ensures CalmTables(db, FinishFailure(db, j, status))
  {
    var after, owner := FinishFailure(db, j, status), db.jobs[j].attempt;
    assert HasJob(db, owner);
    forall a | a in db.attempts
      ensures CalmRow(db.attempts[a], after.attempts[a]) || HasJob(db, a)
      ensures Stale(after.attempts[a].status) ==> Stale(db.attempts[a].status)
    {
      assert a != owner ==> after.attempts[a] == db.attempts[a];
    }
    assert after.jobs == db.jobs[j := db.jobs[j].(status := status)];
  }

  lemma NotingIsCalm(db: Db, a: AttemptId)
    ensures CalmTables(db, RecordJudgeRun(db, a)) && CalmTables(db, Refresh(db, a)) && CalmTables(db, PrepareRejudge(db, a))
  {
  }

  lemma WorkerIsCalm(s: System, step: Step)
    requires WorkerStep(step) && WorkerKnown(s, step.j) && WorkerEnabled(s, step) && !CommitStep(step)
    ensures CalmTables(s.db, WorkerTables(s, step))
  {
    var j := step.j;
    if step.SeeCancelled? || (step.InterruptJob? && JobCancelled(s.db, j)) {
      FailureIsCalm(s.db, j, Cancelled);
    } else if step.BeginJob? || step.LoseJob? {
      ClaimIsCalm(s.db, j, step.deadline);
    } else if step.FailJob? {
      FailureIsCalm(s.db, j, step.status);
    } else if step.LogJob? {
      NotingIsCalm(s.db, s.issued[j]);
    } else if step.InterruptJob? {
      RequeueIsCalm(s.db, j);
    } else if step.FinishJob? {
      CompletionIsCalm(s.db, j);
    } else if step.SkipCommitted? {
      SkippingIsCalm(s.db, j);
    }
  }

  /** Job `j` is written, no other job and no commit. */
  predicate OnlyJob(before: Db, after: Db, j: JobId) {
    after.outbox == before.outbox && after.jobs.Keys == before.jobs.Keys
    && forall k :: k in before.jobs && k != j ==> after.jobs[k] == before.jobs[k]
  }

  lemma FailureWritesOneJob(db: Db, j: JobId, status: Status)
    ensures OnlyJob(db, FinishFailure(db, j, status), j)
  {
  }

  lemma TransactionsWriteOneJob(db: Db, j: JobId, deadline: Option<string>)
    ensures OnlyJob(db, Claim(db, j, deadline), j) && OnlyJob(db, RequeueJob(db, j), j)
    ensures OnlyJob(db, CompleteJob(db, j), j) && OnlyJob(db, CompleteJobOnly(db, j), j)
  {
  }

  lemma WorkerWritesOneJob(s: System, step: Step)
    requires WorkerStep(step) && WorkerEnabled(s, step) && !CommitStep(step)
    ensures OnlyJob(s.db, WorkerTables(s, step), step.j)
  {
    var j := step.j;
    if step.BeginJob? || step.LoseJob? {
      TransactionsWriteOneJob(s.db, j, step.deadline);
    } else if step.FailJob? {
      FailureWritesOneJob(s.db, j, step.status);
    } else if !step.LogJob? {
      FailureWritesOneJob(s.db, j, Cancelled);
      TransactionsWriteOneJob(s.db, j, None);
    }
  }

  lemma WorkerIsSteady(s: System, step: Step)
    requires WorkerStep(step) && WorkerKnown(s, step.j) && Enabled(s, step) && !CommitStep(step)
    ensures Steady(s, Apply(s, step), Some(step.j))
  {
    WorkerWritesOneJob(s, step);
  }

  lemma WorkerGoesOn(s: System, step: Step)
    requires WorkerStep(step) && WorkerKnown(s, step.j) && Enabled(s, step) && !CommitStep(step)
    ensures var t := Apply(s, step); step.j in t.workers ==> WorkerOk(t.db, step.j, t.workers[step.j])
  {
  }

  /** What has to hold besides the law. */
  predicate RestOk(t: System) {
    References(t.db) && OwnersOk(t) && WorkersOk(t) && OrphansOk(t)
  }

  lemma WorkerKeepsRest(s: System, step: Step)
    requires Sane(s) && Enabled(s, step) && WorkerStep(step) && !CommitStep(step)
    ensures RestOk(Apply(s, step))
  {
    var t, j := Apply(s, step), step.j;
    assert WorkerKnown(s, j);
    assert Calm(s, t) by {
      WorkerIsCalm(s, step);
    }
    assert Steady(s, t, Some(j)) by {
      WorkerIsSteady(s, step);
    }
    CalmKeepsOwners(s, t);
    assert WorkersOk(t) by {
      WorkerGoesOn(s, step);
      SteadyKeepsWorkers(s, t, Some(j));
    }
    if j in t.workers && t.workers[j] == Orphaned {
      OrphanIsOk(s, step);
    }
    SteadyKeepsOrphans(s, t, Some(j));
  }

  /** A worker that is cancelled while it commits has its execution over. */
  lemma OrphanIsOk(s: System, step: Step)
    requires Sane(s) && Enabled(s, step) && WorkerStep(step) && !CommitStep(step)
    requires step.j in Apply(s, step).workers && Apply(s, step).workers[step.j] == Orphaned
    ensures OrphanOk(s, step.j)
  {
    CommitIsAccepted(s, step.j);
  }

  lemma CommitKeepsRest(s: System, step: Step)
    requires Sane(s) && Enabled(s, step) && CommitStep(step)
    ensures RestOk(Apply(s, step))
  {
    var j, a, t := step.j, s.issued[step.j], Apply(s, step);
    assert WorkerOk(s.db, j, s.workers[j]);
    CommitIsAccepted(s, j);
    assert RestOk(s);
    CommittedKeepsRest(s, t, a, j, step.passed, step.score);
  }

  lemma CommittedKeepsRest(s: System, t: System, a: AttemptId, j: JobId, passed: bool, score: int)
    requires RestOk(s) && At(s, j, {Judged, Orphaned}) && CommitAccepted(s.db, a, Some(j)) && !Executing(s, a)
    requires t.db == CommitScore(s.db, a, Some(j), passed, score) && t.live == s.live && t.issued == s.issued
    requires t.workers == if s.workers[j] == Judged then s.workers[j := Landed] else s.workers - {j}
    ensures RestOk(t)
  {
    CommitKeepsOwners(s, a, Some(j), passed, score);
    assert WorkersOk(t) by {
      assert WorkerOk(s.db, j, s.workers[j]);
      assert t.db.jobs == s.db.jobs;
    }
    assert OrphansOk(t) by {
      CommitKeepsOrphans(s, t, a, Some(j), passed, score);
    }
  }

  lemma CommitKeepsOrphans(s: System, t: System, a: AttemptId, job: Option<JobId>, passed: bool, score: int)
    requires OrphansOk(s) && t.db == CommitScore(s.db, a, job, passed, score) && t.issued == s.issued
    requires forall b :: Executing(t, b) ==> Executing(s, b)
    requires forall k :: k in t.workers && t.workers[k] == Orphaned ==> k in s.workers && s.workers[k] == Orphaned
    ensures OrphansOk(t)
  {
    forall k | k in t.workers && t.workers[k] == Orphaned
      ensures OrphanOk(t, k)
    {
      assert OrphanOk(s, k);
    }
  }

  /** A commit leaves the owners of other attempts and the workers of other jobs alone. */
  lemma CommitKeepsOwners(s: System, a: AttemptId, job: Option<JobId>, passed: bool, score: int)
    requires RestOk(s) && CommitAccepted(s.db, a, job)
    ensures var after := CommitScore(s.db, a, job, passed, score);
            && References(after)
            && (forall j :: j in s.workers && Some(j) != job ==> WorkerOk(after, j, s.workers[j]))
            && (forall b :: Executing(s, b) && b != a ==> b in after.attempts && Unscored(after, b))
            && (forall b :: b in after.attempts && Stale(after.attempts[b].status) ==> Unscored(after, b))
            && (job.Some? ==> Committed(after.outbox, job.value))
  {
    var c := Commit(a, NextRevision(s.db, a), score, job);
    var after := CommitScore(s.db, a, job, passed, score);
    assert after.outbox == s.db.outbox + [c];
    forall j | j in s.workers && Some(j) != job
      ensures WorkerOk(after, j, s.workers[j])
    {
      CommittedAfterCommit(s.db.outbox, c, j);
    }
    if job.Some? {
      CommittedAfterCommit(s.db.outbox, c, job.value);
    }
  }

  /** Queueing a scoring job for an attempt nobody executes any more. */
  lemma QueueKeepsRest(s: System, t: System, a: AttemptId, adapter: Status, j: JobId, version: nat, rejudge: Option<Previous>)
    requires Owned(s) && RestOk(s) && EnqueueAccepted(s.db, a, version) && j !in s.issued
    requires t.db == Enqueue(s.db, a, adapter, j, version, rejudge) && t.workers == s.workers[j := Scheduled] && t.issued == s.issued[j := a]
    requires forall b :: b in t.live ==> if b == a then t.live[b] == Ending else b in s.live && t.live[b] == s.live[b]
    ensures RestOk(t)
  {
    FreshJob(s, j);
    QueueKeepsTables(s.db, a, adapter, j, version, rejudge);
    assert OwnersOk(t) by {
      forall b | b in t.live
        ensures b in t.db.attempts && (t.live[b] != Ending ==> Unscored(t.db, b))
      {
        assert b != a ==> b in s.db.attempts;
      }
    }
    assert WorkersOk(t) by {
      SteadyKeepsWorkers(s, t, Some(j));
    }
    assert OrphansOk(t) by {
      QueueKeepsOrphans(s, t, a, j);
    }
  }

  lemma QueueKeepsTables(db: Db, a: AttemptId, adapter: Status, j: JobId, version: nat, rejudge: Option<Previous>)
    requires References(db) && j !in db.jobs && EnqueueAccepted(db, a, version)
    requires forall b :: b in db.attempts && Stale(db.attempts[b].status) ==> Unscored(db, b)
    ensures var after := Enqueue(db, a, adapter, j, version, rejudge);
            && References(after) && after.attempts.Keys == db.attempts.Keys && after.attempts[a].status == Scoring
            && (forall b :: b in db.attempts && b != a ==> after.attempts[b] == db.attempts[b])
            && (forall b :: b in db.attempts && b != a && Unscored(db, b) ==> Unscored(after, b))
            && (forall b :: b in after.attempts && Stale(after.attempts[b].status) ==> Unscored(after, b))
  {
  }

  lemma QueueKeepsOrphans(s: System, t: System, a: AttemptId, j: JobId)
    requires OrphansOk(s) && t.workers == s.workers[j := Scheduled] && t.issued == s.issued[j := a] && j !in s.issued
    requires t.db.attempts.Keys == s.db.attempts.Keys && a in t.db.attempts && t.db.attempts[a].status == Scoring
    requires forall b :: b in s.db.attempts && b != a ==> t.db.attempts[b] == s.db.attempts[b]
    requires forall b :: b in t.live ==> if b == a then t.live[b] == Ending else b in s.live && t.live[b] == s.live[b]
    ensures OrphansOk(t)
  {
    forall k | k in t.workers && t.workers[k] == Orphaned
      ensures OrphanOk(t, k)
    {
      assert OrphanOk(s, k);
    }
  }

  /** A new attempt changes nothing for the others. */
  lemma CreationKeepsRest(s: System, step: Step)
    requires Owned(s) && RestOk(s) && Enabled(s, step) && step.Create?
    ensures RestOk(Apply(s, step))
  {
    var t := Apply(s, step);
    CreationKeepsTables(s.db, step.a, step.run);
    assert t.db == CreateAttempt(s.db, step.a, step.run) && t.live == s.live[step.a := Deferred];
    assert t.workers == s.workers && t.issued == s.issued;
    assert WorkersOk(t) by {
      SteadyKeepsWorkers(s, t, None);
    }
    assert OrphansOk(t) by {
      SteadyKeepsOrphans(s, t, None);
    }
  }

  lemma CreationKeepsTables(db: Db, a: AttemptId, run: RunId)
    requires References(db) && a !in db.attempts
    ensures var after := CreateAttempt(db, a, run);
            && References(after) && Unscored(after, a)
            && (forall b :: b in db.attempts && Unscored(db, b) ==> Unscored(after, b))
  {
  }

  lemma StartIsCalm(db: Db, a: AttemptId, deadline: Option<string>)
    ensures CalmTables(db, MarkRunning(db, a, deadline))
  {
  }

  lemma InlineKeepsRest(s: System, step: Step)
    requires Owned(s) && RestOk(s) && Enabled(s, step) && step.FinishInline?
    ensures RestOk(Apply(s, step))
  {
    var t := Apply(s, step);
    CommitKeepsOwners(s, step.a, None, step.passed, step.score);
    CommitKeepsOrphans(s, t, step.a, None, step.passed, step.score);
  }

  /** A transaction that is calm and steady for everybody. */
  lemma QuietKeepsRest(s: System, t: System)
    requires Sane(s) && Calm(s, t) && Steady(s, t, None)
    ensures RestOk(t)
  {
    CalmKeepsOwners(s, t);
    SteadyKeepsWorkers(s, t, None);
    SteadyKeepsOrphans(s, t, None);
  }

  lemma DispatchKeepsRest(s: System, step: Step)
    requires Sane(s) && Enabled(s, step) && DispatchStep(step)
    ensures RestOk(Apply(s, step))
  {
    var t := Apply(s, step);
    if step.FinishInline? {
      InlineKeepsRest(s, step);
    } else if step.FinishScored? {
      DeferralKeepsRest(s, step);
    } else if step.Create? {
      CreationKeepsRest(s, step);
    } else {
      if step.Start? {
        StartIsCalm(s.db, step.a, step.deadline);
      } else if step.FinishUnscored? {
        InterruptionIsCalm(s.db, step.a, step.status);
      }
      QuietKeepsRest(s, t);
    }
  }

  lemma DeferralKeepsRest(s: System, step: Step)
    requires Sane(s) && Enabled(s, step) && step.FinishScored?
    ensures RestOk(Apply(s, step))
  {
    assert Executing(s, step.a) && EnqueueAccepted(s.db, step.a, step.version);
    QueueKeepsRest(s, Apply(s, step), step.a, step.adapter, step.j, step.version, None);
  }

  lemma RecoveryIsCalm(db: Db)
    ensures CalmTables(db, RecoverScoring(db))
  {
  }

  lemma ConvergenceIsCalm(db: Db, ids: set<AttemptId>, p: Policy)
    requires !Stale(p.status)
    ensures CalmTables(db, ConvergeAttempts(db, ids, p))
  {
    var after := ConvergeAttempts(db, ids, p);
    forall a | a in db.attempts
      ensures CalmRow(db.attempts[a], after.attempts[a])
      ensures Stale(after.attempts[a].status) ==> Stale(db.attempts[a].status)
    {
      assert after.attempts[a] == if a in ids then ConvergeRow(db.attempts[a], p) else db.attempts[a];
    }
    assert after.jobs == db.jobs;
  }

  lemma InterruptionIsCalm(db: Db, a: AttemptId, status: Status)
    requires !Stale(status)
    ensures CalmTables(db, FinalizeNoScore(db, a, status))
  {
  }

  lemma CancellationIsCalm(db: Db, runs: set<RunId>)
    ensures CalmTables(db, CancelScoring(db, runs))
  {
    var after := CancelScoring(db, runs);
    forall a | a in db.attempts
      ensures CalmRow(db.attempts[a], after.attempts[a])
      ensures Stale(after.attempts[a].status) ==> Stale(db.attempts[a].status)
    {
      assert after.attempts[a] == db.attempts[a] || after.attempts[a] == CancelledScoringRow(db.attempts[a]);
    }
  }

  lemma SweepingIsCalm(s: System, step: Step)
    requires SweepingStep(step)
    ensures CalmTables(s.db, ApplySweeping(s, step).db)
  {
    if step.StopScoring? {
      CancellationIsCalm(s.db, step.runs);
    } else if step.RefreshOf? {
      NotingIsCalm(s.db, step.a);
    } else if step.StopAttempts? {
      ConvergenceIsCalm(s.db, step.ids, STOP);
    } else if step.SweepLateExecution? {
      ConvergenceIsCalm(s.db, s.lateExecution, EXECUTION_OVERDUE);
    } else if step.SweepLateScoring? {
      ConvergenceIsCalm(s.db, s.lateScoring, SCORING_OVERDUE);
    }
  }

  lemma OtherIsCalm(s: System, step: Step)
    requires !WorkerStep(step) && !DispatchStep(step) && OtherEnabled(s, step)
    requires !step.SubmitRequest? && !(step.RecoverAttempt? && step.fate.Reattach?)
    ensures Calm(s, ApplyOther(s, step))
  {
    if SweepingStep(step) {
      SweepingIsCalm(s, step);
    } else if step.PrepareRequest? {
      NotingIsCalm(s.db, step.a);
    } else if step.RecoverJobs? {
      RecoveryIsCalm(s.db);
    } else if step.RecoverAttempt? && step.fate.Interrupt? {
      InterruptionIsCalm(s.db, step.a, step.fate.status);
    }
  }

  /** Jobs in flight stay as they are, and nothing is committed. */
  predicate SteadyTables(before: Db, after: Db) {
    && after.outbox == before.outbox
    && forall k :: k in before.jobs && InFlight(before.jobs[k].status) ==> k in after.jobs && after.jobs[k] == before.jobs[k]
  }

  lemma SweepingIsSteady(s: System, step: Step)
    requires SweepingStep(step) && !step.StopScoring?
    ensures SteadyTables(s.db, ApplySweeping(s, step).db) && ApplySweeping(s, step).workers == s.workers
  {
  }

  lemma PreparationIsSteady(db: Db, a: AttemptId)
    ensures SteadyTables(db, PrepareRejudge(db, a))
  {
    if RejudgeAccepted(db, a) {
      forall k | k in db.jobs && InFlight(db.jobs[k].status)
        ensures k in PrepareRejudge(db, a).jobs
      {
        assert db.jobs[k].attempt != a;
      }
    }
  }

  lemma OtherIsSteady(s: System, step: Step)
    requires !WorkerStep(step) && !DispatchStep(step) && OtherEnabled(s, step)
    requires !step.SubmitRequest? && !step.RecoverJobs? && !step.StopScoring?
    ensures Steady(s, ApplyOther(s, step), None)
  {
    if SweepingStep(step) {
      SweepingIsSteady(s, step);
    } else if step.PrepareRequest? {
      PreparationIsSteady(s.db, step.a);
    }
  }

  lemma SubmissionKeepsRest(s: System, step: Step)
    requires Sane(s) && Enabled(s, step) && Lawful(s, step) && step.SubmitRequest?
    ensures RestOk(Apply(s, step))
  {
    var t, p := Apply(s, step), s.pending[step.q];
    if EnqueueAccepted(s.db, p.attempt, step.version) {
      QueueKeepsRest(s, t, p.attempt, p.adapter, step.j, step.version, Some(p.previous));
    } else {
      assert t.db == s.db && t.workers == s.workers && t.live == s.live;
      forall k | OrphanOk(s, k)
        ensures OrphanOk(t, k)
      {
      }
    }
  }

  /** Reattaching hands an unscored attempt to a new task and touches no table. */
  lemma ReattachKeepsRest(s: System, step: Step)
    requires Owned(s) && RestOk(s) && Enabled(s, step) && step.RecoverAttempt? && step.fate.Reattach?
    ensures RestOk(Apply(s, step))
  {
    var t := Apply(s, step);
    assert t == s.(live := s.live[step.a := Inline]);
    assert Unscored(s.db, step.a);
    ReattachedKeepsRest(s, t, step.a);
  }

  lemma ReattachedKeepsRest(s: System, t: System, a: AttemptId)
    requires RestOk(s) && t == s.(live := s.live[a := Inline]) && a in s.db.attempts && Unscored(s.db, a)
    requires Stale(s.db.attempts[a].status)
    ensures RestOk(t)
  {
    assert OwnersOk(t);
    forall k | OrphanOk(s, k)
      ensures OrphanOk(t, k)
    {
    }
    assert OrphansOk(t) by {
      SteadyKeepsOrphans(s, t, None);
    }
    assert WorkersOk(t);
  }

  /** A restart schedules a worker for every queued job that nobody stopped. */
  lemma RestartKeepsWorkers(s: System, t: System)
    requires forall j :: j in t.workers ==> t.workers[j] == Scheduled
    ensures WorkersOk(t) && OrphansOk(t)
  {
  }

  /** Stopping scoring cancels the jobs of running workers, none of which has committed. */
  lemma StopKeepsRest(s: System, step: Step)
    requires Sane(s) && Enabled(s, step) && step.StopScoring? && Lawful(s, step)
    ensures RestOk(Apply(s, step))
  {
    var t := Apply(s, step);
    assert t.db == CancelScoring(s.db, step.runs);
    CancellationIsCalm(s.db, step.runs);
    CalmKeepsOwners(s, t);
    forall k | k in t.workers
      ensures WorkerOk(t.db, k, t.workers[k])
    {
      assert WorkerOk(s.db, k, s.workers[k]);
      StoppedWorkerOk(s.db, step.runs, k, s.workers[k]);
    }
    forall k | k in t.workers && t.workers[k] == Orphaned
      ensures OrphanOk(t, k)
    {
      assert OrphanOk(s, k);
    }
  }

  lemma StoppedWorkerOk(db: Db, runs: set<RunId>, k: JobId, phase: Phase)
    requires WorkerOk(db, k, phase) && (StopsJob(db, k, runs) ==> Harmless(db, k))
    ensures WorkerOk(CancelScoring(db, runs), k, phase)
  {
  }

  lemma OtherKeepsRest(s: System, step: Step)
    requires Sane(s) && Enabled(s, step) && Lawful(s, step) && !WorkerStep(step) && !DispatchStep(step)
    ensures RestOk(Apply(s, step))
  {
    var t := Apply(s, step);
    if step.SubmitRequest? {
      SubmissionKeepsRest(s, step);
    } else if step.StopScoring? {
      StopKeepsRest(s, step);
    } else if step.RecoverAttempt? && step.fate.Reattach? {
      ReattachKeepsRest(s, step);
    } else {
      OtherIsCalm(s, step);
      if step.RecoverJobs? {
        CalmKeepsOwners(s, t);
        RestartKeepsWorkers(s, t);
      } else {
        OtherIsSteady(s, step);
        QuietKeepsRest(s, t);
      }
    }
  }

  lemma StepKeepsScores(s: System, step: Step)
    requires ScoreInvariant(s) && Enabled(s, step) && Lawful(s, step)
    ensures ScoreInvariant(Apply(s, step))
  {
    StepKeepsHistory(s, step);
    if CommitStep(step) {
      WorkerKeepsLaw(s, step);
      CommitKeepsRest(s, step);
    } else if WorkerStep(step) {
      WorkerKeepsLaw(s, step);
      WorkerKeepsRest(s, step);
    } else if DispatchStep(step) {
      DispatchKeepsLaw(s, step);
      DispatchKeepsRest(s, step);
    } else {
      OtherKeepsLaw(s, step);
      OtherKeepsRest(s, step);
    }
  }

  /** Every step of the run is lawful where it is taken. */
  predicate LawfulRun(s: System, steps: seq<Step>)
    requires Runs(s, steps)
    decreases |steps|
  {
    steps == [] || (Lawful(s, steps[0]) && LawfulRun(Apply(s, steps[0]), steps[1..]))
  }

  lemma {:induction false} RunsKeepScores(s: System, steps: seq<Step>)
    requires ScoreInvariant(s) && Runs(s, steps) && LawfulRun(s, steps)
    ensures ScoreInvariant(After(s, steps))
    decreases |steps|
  {
    if steps != [] {
      StepKeepsScores(s, steps[0]);
      RunsKeepScores(Apply(s, steps[0]), steps[1..]);
    }
  }

  /** In every lawful run, with any number of rejudges, harmless Stops, judge failures before the commit,
      sweeps, crashes and restarts: an attempt without a job in flight shows exactly its latest committed
      score, and while a job is in flight and uncommitted that score is saved in the job. */
  lemma LastGoodScoreSurvives(steps: seq<Step>, a: AttemptId)
    requires Runs(INITIAL, steps) && LawfulRun(INITIAL, steps) && a in After(INITIAL, steps).db.attempts
    ensures var db := After(INITIAL, steps).db;
            && (!HasJobInFlight(db, a) ==> db.attempts[a].score == Latest(db.outbox, a))
            && (forall j :: j in db.jobs && db.jobs[j].attempt == a && InFlight(db.jobs[j].status) ==>
                  if Committed(db.outbox, j) then db.attempts[a].score == Latest(db.outbox, a)
                  else PreviousScore(db.jobs[j]) == Latest(db.outbox, a))
  {
    RunsKeepScores(INITIAL, steps);
    var db := After(INITIAL, steps).db;
    if !HasJobInFlight(db, a) {
      assert Flights(db, a) == map[];
      assert ScoreOk(db, a);
    }
    forall j | j in db.jobs && db.jobs[j].attempt == a && InFlight(db.jobs[j].status)
      ensures if Committed(db.outbox, j) then db.attempts[a].score == Latest(db.outbox, a)
              else PreviousScore(db.jobs[j]) == Latest(db.outbox, a)
    {
      OnlyFlight(db, j);
    }
  }
}
