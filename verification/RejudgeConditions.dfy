/** Exactly when a rejudge submission or a Stop keeps the score law, a discipline under which every
    submission does, and what happens without it. */
module RejudgeConditions {
  import opened Statuses
  import opened AttemptTables
  import opened ScoringProtocol
  import opened CommitHistory
  import opened ScoreSafety
  import opened StopConditions
  import opened ScoreRuns
  import LostScore

  // ---------- submissions ----------

  /** The two conditions of freshness that the score itself depends on. */
  predicate Restorable(s: System, q: nat)
    requires q in s.pending
  {
    var p := s.pending[q];
    p.attempt in s.db.attempts && !HasJobInFlight(s.db, p.attempt) && p.previous.score == s.db.attempts[p.attempt].score
  }

  lemma LawfulSubmissionRestores(s: System, step: Step)
    requires Sane(s) && step.SubmitRequest? && Enabled(s, step)
    requires EnqueueAccepted(s.db, s.pending[step.q].attempt, step.version)
    requires ScoresOk(Apply(s, step).db)
    ensures Restorable(s, step.q)
  {
    var t, p, j := Apply(s, step), s.pending[step.q], step.j;
    var a := p.attempt;
    FreshJob(s, j);
    var job := Job(a, Queued, step.version, false, Some(p.previous));
    JobWritten(s.db, t.db, j, job);
    assert t.db.jobs[j] == job;
    assert References(t.db);
    OnlyFlight(t.db, j);
    assert Flights(t.db, a) == Flights(s.db, a)[j := Flight(Committed(s.db.outbox, j), PreviousScore(job))];
    assert j !in Flights(s.db, a);
    forall k | k in s.db.jobs && s.db.jobs[k].attempt == a
      ensures !InFlight(s.db.jobs[k].status)
    {
      assert k != j;
      assert InFlight(s.db.jobs[k].status) ==> k in Flights(s.db, a);
      assert k in Flights(s.db, a) ==> k in Flights(t.db, a);
      assert Flights(t.db, a).Keys == {j};
    }
    assert Flights(s.db, a) == map[];
    assert ScoreOk(s.db, a);
  }

  lemma RestorableSubmissionIsLawful(s: System, step: Step)
    requires Sane(s) && step.SubmitRequest? && Enabled(s, step) && Restorable(s, step.q)
    ensures ScoresOk(Apply(s, step).db)
  {
    var p := s.pending[step.q];
    FreshJob(s, step.j);
    assert Flights(s.db, p.attempt) == map[];
    EnqueueKeepsLaw(s.db, p.attempt, p.adapter, step.j, step.version, Some(p.previous));
  }

  /** A rejudge submission that takes effect keeps the score law exactly if no job of the attempt is in
      flight and the saved score is still the row's; and it keeps the invariant that carries the law on
      exactly if it is fresh, that is, if nobody executes the attempt either. */
  lemma SubmissionExact(s: System, step: Step)
    requires ScoreInvariant(s) && step.SubmitRequest? && Enabled(s, step)
    requires EnqueueAccepted(s.db, s.pending[step.q].attempt, step.version)
    ensures ScoresOk(Apply(s, step).db) <==> Restorable(s, step.q)
    ensures ScoreInvariant(Apply(s, step)) <==> Fresh(s, step.q)
    ensures Fresh(s, step.q) <==> Restorable(s, step.q) && !Executing(s, s.pending[step.q].attempt)
  {
    var t, a := Apply(s, step), s.pending[step.q].attempt;
    if Fresh(s, step.q) {
      StepKeepsScores(s, step);
    }
    if Restorable(s, step.q) {
      RestorableSubmissionIsLawful(s, step);
    }
    if ScoresOk(t.db) {
      LawfulSubmissionRestores(s, step);
    }
    if ScoreInvariant(t) {
      assert !Executing(s, a) by {
        assert OwnersOk(t) && t.live == s.live && step.j in t.db.jobs && t.db.jobs[step.j].attempt == a;
      }
    }
  }

  // ---------- a failed rejudge ----------

  /** What a rejudge that fails before its commit leaves behind: execution conclusion, score, deadlines
      of the execution, outbox and every other attempt are as they were.  The legacy status is rebuilt
      from the execution axis, not from the saved one, so it comes back only if it already was that
      projection; `gave_up` does not. */
  lemma FailedRejudgeRestores(db: Db, a: AttemptId, j: JobId, version: nat, deadline: Option<string>, status: Status)
    requires RejudgeAccepted(db, a) && j !in db.jobs && status in {Failed, TimedOut, ScoringFailed}
    ensures var row := db.attempts[a];
            var queued := Enqueue(PrepareRejudge(db, a), a, row.execution, j, version, Some(Previous(row.score, row.status)));
            var after := FinishFailure(Claim(queued, j, deadline), j, status);
            && after.attempts == db.attempts[a := row.(status := ExecutionProjection(row.execution), scoring := status,
                                                       scoringDeadline := deadline)]
            && after.outbox == db.outbox && after.judgeRuns == db.judgeRuns && after.runs == db.runs
            && (after.attempts[a].status == row.status <==>
                  row.status == (if row.execution == Completed then Completed
                                 else if row.execution == Timeout then Timeout else ChatFailed))
  {
    var row := db.attempts[a];
    var queued := Enqueue(PrepareRejudge(db, a), a, row.execution, j, version, Some(Previous(row.score, row.status)));
    assert EnqueueAccepted(PrepareRejudge(db, a), a, version);
    assert ClaimAccepted(queued, j);
    assert Claim(queued, j, deadline).jobs[j].rejudge == Some(Previous(row.score, row.status));
  }

  // ---------- one rejudge at a time ----------

  /** The discipline: a rejudge is asked for only while no other request for the attempt is on its way and
      its dispatch task is gone, a late commit does not meet such a request either, and apart from
      submissions every step is lawful: Stops are harmless, nothing fails after its commit.  Freshness is not
      asked for; it follows. */
  predicate Polite(s: System, step: Step)
    requires Enabled(s, step)
  {
    match step
    case SubmitRequest(_, _, _) => true
    case PrepareRequest(a, _, _) => a !in s.live && forall q :: q in s.pending ==> s.pending[q].attempt != a
    case OrphanCommits(j, _, _) => Lawful(s, step) && forall q :: q in s.pending ==> s.pending[q].attempt != s.issued[j]
    case _ => Lawful(s, step)
  }

  /** A pending request of an attempt at rest. */
  predicate Waiting(s: System, q: nat)
    requires q in s.pending
  {
    var p := s.pending[q];
    && p.attempt in s.db.attempts && !OpenExecution(s.db.attempts[p.attempt].execution)
    && p.attempt !in s.live
    && (forall j :: j in s.db.jobs ==> s.db.jobs[j].attempt != p.attempt)
    && p.previous.score == s.db.attempts[p.attempt].score
  }

  predicate OneAtATime(s: System) {
    && (forall q :: q in s.pending ==> Waiting(s, q))
    && (forall q, r :: q in s.pending && r in s.pending && q != r ==> s.pending[q].attempt != s.pending[r].attempt)
  }

  lemma WaitingIsFresh(s: System, q: nat)
    requires q in s.pending && Waiting(s, q)
    ensures Fresh(s, q)
  {
  }

  /** A step that leaves a resting attempt alone. */
  predicate LeavesAlone(s: System, t: System, a: AttemptId)
    requires a in s.db.attempts
  {
    && a in t.db.attempts && t.db.attempts[a].score == s.db.attempts[a].score
    && a !in t.live
    && (forall j :: j in t.db.jobs && t.db.jobs[j].attempt == a ==> j in s.db.jobs && s.db.jobs[j].attempt == a)
  }

  /** The transaction writes no attempt but that of job `j` and `owner`, and no job but `j`. */
  predicate WritesOnly(before: Db, after: Db, j: JobId, owner: Option<AttemptId>) {
    && after.jobs.Keys == before.jobs.Keys && after.attempts.Keys == before.attempts.Keys
    && (forall k :: k in before.jobs ==> after.jobs[k].attempt == before.jobs[k].attempt)
    && (forall k :: k in before.jobs && k != j ==> after.jobs[k] == before.jobs[k])
    && (forall a :: a in before.attempts && (j in before.jobs ==> a != before.jobs[j].attempt) && Some(a) != owner ==>
          after.attempts[a] == before.attempts[a])
  }

  lemma ClaimWritesOnly(db: Db, j: JobId, deadline: Option<string>)
    ensures WritesOnly(db, Claim(db, j, deadline), j, None)
  {
  }

  lemma FailureWritesOnly(db: Db, j: JobId, status: Status)
    ensures WritesOnly(db, FinishFailure(db, j, status), j, None)
  {
  }

  lemma CompletionWritesOnly(db: Db, j: JobId)
    ensures WritesOnly(db, CompleteJob(db, j), j, None) && WritesOnly(db, CompleteJobOnly(db, j), j, None)
  {
  }

  lemma RequeueWritesOnly(db: Db, j: JobId)
    ensures WritesOnly(db, RequeueJob(db, j), j, None)
  {
  }

  lemma CommitWritesOnly(db: Db, a: AttemptId, j: JobId, passed: bool, score: int)
    ensures WritesOnly(db, CommitScore(db, a, Some(j), passed, score), j, Some(a)) && WritesOnly(db, RecordJudgeRun(db, a), j, Some(a))
  {
  }

  function OwnerOf(s: System, j: JobId): Option<AttemptId> {
    if j in s.issued then Some(s.issued[j]) else None
  }

  /** A worker writes its own job and the attempt of that job, nothing else. */
  lemma WorkerWritesItsOwn(s: System, step: Step)
    requires WorkerStep(step) && WorkerEnabled(s, step)
    ensures WritesOnly(s.db, WorkerTables(s, step), step.j, OwnerOf(s, step.j))
  {
    var db, j := s.db, step.j;
    if step.BeginJob? || step.LoseJob? {
      ClaimWritesOnly(db, j, step.deadline);
    } else if step.FailJob? {
      FailureWritesOnly(db, j, step.status);
    } else if step.CommitJob? || step.OrphanCommits? {
      CommitWritesOnly(db, s.issued[j], j, step.passed, step.score);
    } else if step.LogJob? {
      CommitWritesOnly(db, s.issued[j], j, true, 0);
    } else if step.SeeCancelled? || step.InterruptJob? {
      FailureWritesOnly(db, j, Cancelled);
      RequeueWritesOnly(db, j);
    } else {
      CompletionWritesOnly(db, j);
    }
  }

  lemma WorkerLeavesRestingAttempts(s: System, step: Step, q: nat)
    requires Owned(s) && WorkersOk(s) && WorkerStep(step) && Enabled(s, step) && Polite(s, step) && q in s.pending && Waiting(s, q)
    ensures LeavesAlone(s, Apply(s, step), s.pending[q].attempt)
  {
    var a, j := s.pending[q].attempt, step.j;
    assert Apply(s, step).live == s.live && Apply(s, step).db == WorkerTables(s, step);
    if j in s.db.jobs || step.OrphanCommits? {
      OwnersAreElsewhere(s, step, q);
      WorkerWritesItsOwn(s, step);
    } else {
      JoblessWorkersWriteNothing(s, step);
    }
  }

  lemma OwnersAreElsewhere(s: System, step: Step, q: nat)
    requires Owned(s) && WorkerStep(step) && Enabled(s, step) && Polite(s, step) && q in s.pending && Waiting(s, q)
    requires step.j in s.db.jobs || step.OrphanCommits?
    ensures step.j in s.db.jobs ==> s.db.jobs[step.j].attempt != s.pending[q].attempt
    ensures OwnerOf(s, step.j) != Some(s.pending[q].attempt)
  {
  }

  lemma JoblessWorkersWriteNothing(s: System, step: Step)
    requires WorkersOk(s) && WorkerStep(step) && WorkerEnabled(s, step) && step.j !in s.db.jobs && !step.OrphanCommits?
    ensures WorkerTables(s, step) == s.db
  {
    assert WorkerOk(s.db, step.j, s.workers[step.j]);
    assert s.workers[step.j] in {Scheduled, Orphaned};
  }

  /** A transaction that keeps the score of `a` and gives it no job. */
  predicate Spares(before: Db, after: Db, a: AttemptId) {
    && a in before.attempts && a in after.attempts && after.attempts[a].score == before.attempts[a].score
    && (forall j :: j in after.jobs && after.jobs[j].attempt == a ==> j in before.jobs && before.jobs[j].attempt == a)
  }

  lemma DispatchSpares(s: System, step: Step, a: AttemptId)
    requires DispatchStep(step) && DispatchEnabled(s, step) && a in s.db.attempts && a !in s.live
    ensures Spares(s.db, ApplyDispatch(s, step).db, a) && a !in ApplyDispatch(s, step).live
  {
  }

  /** A Stop of scoring passes by an attempt without jobs. */
  lemma StopSpares(db: Db, runs: set<RunId>, a: AttemptId)
    requires a in db.attempts && forall j :: j in db.jobs ==> db.jobs[j].attempt != a
    ensures Spares(db, CancelScoring(db, runs), a)
  {
    assert !StopsScoringOf(db, a, runs);
  }

  lemma SweepingSpares(s: System, step: Step, a: AttemptId)
    requires SweepingStep(step) && a in s.db.attempts
    requires forall j :: j in s.db.jobs ==> s.db.jobs[j].attempt != a
    ensures Spares(s.db, ApplySweeping(s, step).db, a) && ApplySweeping(s, step).live == s.live
  {
    if step.StopScoring? {
      StopSpares(s.db, step.runs, a);
    }
  }

  lemma RequestSpares(s: System, step: Step, a: AttemptId)
    requires (step.PrepareRequest? || step.SubmitRequest?) && OtherEnabled(s, step) && a in s.db.attempts
    requires step.SubmitRequest? ==> s.pending[step.q].attempt != a
    ensures Spares(s.db, ApplyOther(s, step).db, a) && ApplyOther(s, step).live == s.live
  {
  }

  lemma RestartSpares(s: System, step: Step, a: AttemptId)
    requires (step.Crash? || step.RecoverJobs? || step.RecoverAttempt?) && OtherEnabled(s, step)
    requires a in s.db.attempts && a !in s.live && !Stale(s.db.attempts[a].status)
    ensures Spares(s.db, ApplyOther(s, step).db, a) && a !in ApplyOther(s, step).live
  {
    if step.RecoverJobs? {
      assert ApplyOther(s, step).db == RecoverScoring(s.db);
    } else if step.RecoverAttempt? {
      assert step.a != a;
    }
  }

  lemma OthersLeaveRestingAttempts(s: System, step: Step, q: nat)
    requires ExecutionInvariant(s) && !WorkerStep(step) && OtherEnabled(s, step)
    requires q in s.pending && Waiting(s, q)
    requires step.SubmitRequest? ==> s.pending[step.q].attempt != s.pending[q].attempt
    ensures Spares(s.db, ApplyOther(s, step).db, s.pending[q].attempt) && s.pending[q].attempt !in ApplyOther(s, step).live
  {
    var a := s.pending[q].attempt;
    assert RowOk(s.db.attempts[a]);
    if DispatchStep(step) {
      DispatchSpares(s, step, a);
    } else if SweepingStep(step) {
      SweepingSpares(s, step, a);
    } else if step.PrepareRequest? || step.SubmitRequest? {
      RequestSpares(s, step, a);
    } else {
      RestartSpares(s, step, a);
    }
  }

  lemma WaitingStays(s: System, step: Step, q: nat)
    requires Owned(s) && WorkersOk(s) && ExecutionInvariant(s) && OneAtATime(s) && Enabled(s, step) && Polite(s, step)
    requires q in s.pending && q in Apply(s, step).pending && Apply(s, step).pending[q] == s.pending[q]
    requires step.SubmitRequest? ==> step.q != q
    ensures Waiting(Apply(s, step), q)
  {
    var t, a := Apply(s, step), s.pending[q].attempt;
    assert Waiting(s, q);
    assert LeavesAlone(s, t, a) by {
      if WorkerStep(step) {
        WorkerLeavesRestingAttempts(s, step, q);
      } else {
        OthersLeaveRestingAttempts(s, step, q);
      }
    }
    assert Progress(s.db, t.db) by {
      StepKeepsExecution(s, step);
    }
  }

  lemma PendingAfter(s: System, step: Step, q: nat)
    requires Enabled(s, step) && q in Apply(s, step).pending
    ensures if q in s.pending then Apply(s, step).pending[q] == s.pending[q] && (step.SubmitRequest? ==> step.q != q)
            else step.PrepareRequest? && step.q == q && RejudgeAccepted(s.db, step.a) && step.ready &&
                 Apply(s, step).pending[q].attempt == step.a
  {
  }

  lemma WaitsOn(s: System, step: Step, q: nat)
    requires Owned(s) && WorkersOk(s) && ExecutionInvariant(s) && OneAtATime(s) && Enabled(s, step) && Polite(s, step)
    requires q in Apply(s, step).pending
    ensures Waiting(Apply(s, step), q)
  {
    PendingAfter(s, step, q);
    if q in s.pending {
      WaitingStays(s, step, q);
    } else {
      PreparedWaits(s, step);
    }
  }

  lemma StepKeepsOneAtATime(s: System, step: Step)
    requires ScoreInvariant(s) && ExecutionInvariant(s) && OneAtATime(s) && Enabled(s, step) && Polite(s, step)
    ensures Lawful(s, step) && OneAtATime(Apply(s, step))
  {
    if step.SubmitRequest? {
      WaitingIsFresh(s, step.q);
    }
    var t := Apply(s, step);
    forall q | q in t.pending
      ensures Waiting(t, q)
    {
      WaitsOn(s, step, q);
    }
    forall q, r | q in t.pending && r in t.pending && q != r
      ensures t.pending[q].attempt != t.pending[r].attempt
    {
      PendingAfter(s, step, q);
      PendingAfter(s, step, r);
    }
  }

  lemma PreparedWaits(s: System, step: Step)
    requires Enabled(s, step) && step.PrepareRequest? && Polite(s, step) && RejudgeAccepted(s.db, step.a) && step.ready
    ensures Waiting(Apply(s, step), step.q)
  {
  }

  predicate PoliteRun(s: System, steps: seq<Step>)
    requires Runs(s, steps)
    decreases |steps|
  {
    steps == [] || (Polite(s, steps[0]) && PoliteRun(Apply(s, steps[0]), steps[1..]))
  }

  /** In polite runs every submission is fresh, so the score law holds over the whole run, with any number of
      rejudges, harmless Stops, failures before the commit, sweeps, crashes and restarts. */
  lemma {:induction false} PoliteRunsAreLawful(s: System, steps: seq<Step>)
    requires ScoreInvariant(s) && ExecutionInvariant(s) && OneAtATime(s) && Runs(s, steps) && PoliteRun(s, steps)
    ensures LawfulRun(s, steps) && ScoreInvariant(After(s, steps))
    decreases |steps|
  {
    if steps != [] {
      StepKeepsOneAtATime(s, steps[0]);
      StepKeepsScores(s, steps[0]);
      StepKeepsExecution(s, steps[0]);
      PoliteRunsAreLawful(Apply(s, steps[0]), steps[1..]);
    }
  }

  lemma PoliteRunsKeepTheScore(steps: seq<Step>, a: AttemptId)
    requires Runs(INITIAL, steps) && PoliteRun(INITIAL, steps) && a in After(INITIAL, steps).db.attempts
    requires !HasJobInFlight(After(INITIAL, steps).db, a)
    ensures After(INITIAL, steps).db.attempts[a].score == Latest(After(INITIAL, steps).db.outbox, a)
  {
    PoliteRunsAreLawful(INITIAL, steps);
    LastGoodScoreSurvives(steps, a);
  }

  // ---------- a Stop whose worker died ----------

  /** A stopped job that was running and whose worker is gone. */
  predicate Stuck(s: System, j: JobId) {
    && Owned(s)
    && j in s.db.jobs && s.db.jobs[j].status == Running && s.db.jobs[j].cancelRequested
    && j !in s.workers
  }

  lemma StuckStays(s: System, step: Step, j: JobId)
    requires HistoryInvariant(s) && Stuck(s, j) && Enabled(s, step)
    ensures var t := Apply(s, step);
            Stuck(t, j) && t.db.jobs[j].attempt == s.db.jobs[j].attempt
  {
    StepKeepsHistory(s, step);
    if WorkerStep(step) {
      assert step.j != j;
      WorkerWritesItsOwn(s, step);
    } else {
      OthersLeaveStuckJobs(s, step, j);
    }
  }

  /** The transaction leaves job `j` as it is. */
  predicate KeepsJob(before: Db, after: Db, j: JobId) {
    j in before.jobs && j in after.jobs && after.jobs[j] == before.jobs[j]
  }

  lemma SweepingKeepsStuckJobs(s: System, step: Step, j: JobId)
    requires SweepingStep(step) && j in s.db.jobs && s.db.jobs[j].status == Running && s.db.jobs[j].cancelRequested
    ensures KeepsJob(s.db, ApplySweeping(s, step).db, j) && ApplySweeping(s, step).workers == s.workers
  {
    if step.StopScoring? {
      assert ApplySweeping(s, step).db == CancelScoring(s.db, step.runs);
    }
  }

  lemma DispatchKeepsJobs(s: System, step: Step, j: JobId)
    requires DispatchStep(step) && DispatchEnabled(s, step) && j in s.db.jobs && j in s.issued && j !in s.workers
    ensures KeepsJob(s.db, ApplyDispatch(s, step).db, j) && j !in ApplyDispatch(s, step).workers
  {
  }

  lemma OthersLeaveStuckJobs(s: System, step: Step, j: JobId)
    requires Stuck(s, j) && !WorkerStep(step) && OtherEnabled(s, step)
    ensures KeepsJob(s.db, ApplyOther(s, step).db, j) && j !in ApplyOther(s, step).workers
  {
    assert j in s.issued;
    if DispatchStep(step) {
      DispatchKeepsJobs(s, step, j);
    } else if SweepingStep(step) {
      SweepingKeepsStuckJobs(s, step, j);
    } else if step.PrepareRequest? {
      assert RejudgeAccepted(s.db, step.a) ==> s.db.jobs[j].attempt != step.a;
    }
  }

  /** A crash between a Stop and the worker's reaction leaves the job `running` for ever: recovery
      requeues only jobs nobody stopped, so every later rejudge of the attempt is refused. */
  lemma {:induction false} CrashedStopBlocksRejudges(s: System, steps: seq<Step>, j: JobId)
    requires HistoryInvariant(s) && Stuck(s, j) && Runs(s, steps)
    ensures Stuck(After(s, steps), j) && !RejudgeAccepted(After(s, steps).db, s.db.jobs[j].attempt)
    decreases |steps|
  {
    if steps != [] {
      StuckStays(s, steps[0], j);
      StepKeepsHistory(s, steps[0]);
      CrashedStopBlocksRejudges(Apply(s, steps[0]), steps[1..], j);
    }
  }

  lemma MarkedTables(db: Db)
    requires db.attempts == map[0 := LostScore.Row(Completed, Scoring, Running, None)]
    requires db.jobs == map[0 := LostScore.JobRow(Running, None)]
    ensures CancelScoring(db, {0}) ==
            db.(attempts := map[0 := LostScore.Row(Completed, Cancelled, Cancelled, None)], jobs := map[0 := Job(0, Running, 1, true, None)])
  {
    assert StopsJob(db, 0, {0});
    assert StopsScoringOf(db, 0, {0});
    var after := CancelScoring(db, {0});
    assert after.attempts == map[0 := LostScore.Row(Completed, Cancelled, Cancelled, None)];
    assert after.jobs == map[0 := Job(0, Running, 1, true, None)];
  }

  function Marked(workers: map<JobId, Phase>): System {
    LostScore.Service(LostScore.Row(Completed, Cancelled, Cancelled, None), map[0 := Job(0, Running, 1, true, None)], [], workers, map[], map[0 := 0])
  }

  lemma AfterMark()
    ensures LostScore.Reachable(Marked(map[0 := Claimed]))
  {
    LostScore.AfterFinish();
    LostScore.AfterClaim(Completed, 0, None, [], map[], map[0 := 0]);
    var s := LostScore.Service(LostScore.Row(Completed, Scoring, Running, None), map[0 := LostScore.JobRow(Running, None)], [],
                               map[0 := Claimed], map[], map[0 := 0]);
    MarkedTables(s.db);
    LostScore.Next(s, StopScoring({0}), Marked(map[0 := Claimed]));
  }

  /** A claim, a Stop and a crash leave such a job behind. */
  lemma JobsGetStuck() returns (end: System)
    ensures LostScore.Reachable(end) && HistoryInvariant(end) && Stuck(end, 0) && end.db.jobs[0].attempt == 0
  {
    AfterMark();
    end := Marked(map[]);
    LostScore.Next(Marked(map[0 := Claimed]), Crash, end);
  }
}
