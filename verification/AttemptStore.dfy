/** The database as the services use it: one method per transaction, run statement by statement.  Each is
    the transaction of `AttemptTables` and has the effect that `AttemptEffects` names. */
module AttemptStore {
  import opened Statuses
  import opened AttemptTables
  import opened ScoringProtocol
  import opened CommitHistory
  import opened Convergence
  import opened AttemptEffects

  class Store {
    var attempts: map<AttemptId, Attempt>
    var jobs: map<JobId, Job>
    var outbox: seq<Commit>
    var judgeRuns: seq<JudgeRun>
    var runs: map<RunId, Status>

    ghost function Tables(): Db
      reads this
    {
      Db(attempts, jobs, outbox, judgeRuns, runs)
    }

    /** Every attempt row is consistent, every job has its attempt, revisions grow. */
    ghost predicate Valid()
      reads this
    {
      Sound(Tables())
    }

    constructor ()
      ensures Valid() && Tables() == EMPTY
    {
      attempts, jobs, outbox, judgeRuns, runs := map[], map[], [], [], map[];
    }

    /** The attempt part of `_create_attempt_sync`; a taken primary key rolls the transaction back. */
    method InsertAttempt(a: AttemptId, run: RunId) returns (inserted: bool)
      requires Valid()
      modifies this
      ensures Valid() && inserted == (a !in old(attempts))
      ensures inserted ==> Inserted(old(Tables()), Tables(), a, run)
      ensures Tables() == if inserted then CreateAttempt(old(Tables()), a, run) else old(Tables())
    {
      if a in attempts {
        return false;
      }
      InsertEffect(Tables(), a, run);
      if run !in runs {
        runs := runs[run := Queued];
      }
      attempts := attempts[a := Attempt(run, Queued, Queued, NotReady, None, None, None)];
      return true;
    }

    method StartExecution(a: AttemptId, deadline: Option<string>)
      requires Valid()
      modifies this
      ensures Valid() && Started(old(Tables()), Tables(), a, deadline)
      ensures Tables() == MarkRunning(old(Tables()), a, deadline)
    {
      StartEffect(Tables(), a, deadline);
      if a !in attempts {
        return;
      }
      var row := attempts[a];
      if row.status == Queued {
        var until := if deadline.Some? then deadline else row.executionDeadline;
        attempts := attempts[a := row.(status := Running, execution := Running, executionDeadline := until)];
      }
      if row.run in runs && runs[row.run] == Queued {
        runs := runs[row.run := Running];
      }
    }

    /** `enqueue_scoring_job`: the attempt is updated first, a constraint violation undoes it. */
    method EnqueueScoringJob(a: AttemptId, adapter: Status, j: JobId, version: nat, rejudge: Option<Previous>)
      returns (accepted: bool)
      requires Valid()
      modifies this
      ensures Valid() && accepted == EnqueueAccepted(old(Tables()), a, version)
      ensures JobQueued(old(Tables()), Tables(), a, adapter, j, version, rejudge, accepted)
      ensures Tables() == Enqueue(old(Tables()), a, adapter, j, version, rejudge)
    {
      EnqueueStaysSound(Tables(), a, adapter, j, version, rejudge);
      EnqueueEffect(Tables(), a, adapter, j, version, rejudge);
      var before := attempts;
      if a in attempts {
        attempts := attempts[a := attempts[a].(status := Scoring, execution := ExecutionConclusion(adapter),
                                               scoring := Queued, score := None)];
      }
      if a !in attempts || exists k | k in jobs :: jobs[k].attempt == a && jobs[k].version == version {
        attempts := before;
        assert !EnqueueAccepted(old(Tables()), a, version);
        assert Tables() == old(Tables());
        return false;
      }
      jobs := jobs[j := Job(a, Queued, version, false, rejudge)];
      assert EnqueueAccepted(old(Tables()), a, version);
      assert Tables() == Enqueue(old(Tables()), a, adapter, j, version, rejudge);
      return true;
    }

    method FinalizeWithoutScore(a: AttemptId, status: Status)
      requires Valid()
      modifies this
      ensures !Stale(status) ==> Valid()
      ensures Finalized(old(Tables()), Tables(), a, status)
      ensures Tables() == FinalizeNoScore(old(Tables()), a, status)
    {
      if a in attempts {
        var execution :=
          if status == Cancelled then Cancelled
          else if status == Timeout then Timeout
          else if status == ScoringFailed then Completed
          else Failed;
        var scoring :=
          if status == Cancelled then Cancelled
          else if status == ScoringFailed then Failed
          else Skipped;
        attempts := attempts[a := attempts[a].(status := status, score := None, execution := execution, scoring := scoring)];
      }
      assert Tables() == FinalizeNoScore(old(Tables()), a, status);
      FinalizeEffect(old(Tables()), a, status);
      if !Stale(status) {
        FinalizeStaysSound(old(Tables()), a, status);
      }
    }

    method ClaimJob(j: JobId, deadline: Option<string>) returns (claimed: bool)
      requires Valid()
      modifies this
      ensures Valid() && claimed == ClaimAccepted(old(Tables()), j)
      ensures if claimed then JobClaimed(old(Tables()), Tables(), j, deadline) else Tables() == old(Tables())
      ensures Tables() == Claim(old(Tables()), j, deadline)
    {
      claimed := j in jobs && jobs[j].status == Queued && !jobs[j].cancelRequested;
      if claimed {
        jobs := jobs[j := jobs[j].(status := Running)];
        var a := jobs[j].attempt;
        if a in attempts {
          attempts := attempts[a := attempts[a].(scoring := Running, scoringDeadline := deadline, status := Scoring)];
        }
      }
      assert Tables() == Claim(old(Tables()), j, deadline);
      ClaimEffect(old(Tables()), j, deadline);
      ClaimStaysSound(old(Tables()), j, deadline);
    }

    method FinishJobFailure(j: JobId, status: Status)
      requires Valid()
      modifies this
      ensures !InFlight(status) ==> Valid()
      ensures if j in old(jobs) then JobFailed(old(Tables()), Tables(), j, status) else Tables() == old(Tables())
      ensures Tables() == FinishFailure(old(Tables()), j, status)
    {
      var legacy := ScoringFailed;
      if status == Cancelled {
        legacy := Cancelled;
      } else if j in jobs && jobs[j].attempt in attempts {
        legacy := ExecutionProjection(attempts[jobs[j].attempt].execution);
      }
      if j in jobs {
        var a := jobs[j].attempt;
        var restored := None;
        if jobs[j].rejudge.Some? {
          restored := jobs[j].rejudge.value.score;
        }
        jobs := jobs[j := jobs[j].(status := status)];
        if a in attempts {
          attempts := attempts[a := attempts[a].(status := legacy, scoring := status, score := restored)];
        }
      }
      assert Tables() == FinishFailure(old(Tables()), j, status);
      FailureEffect(old(Tables()), j, status);
      if !InFlight(status) {
        FailureStaysSound(old(Tables()), j, status);
      }
    }

    /** `_next_score_revision`: scan upwards from the first revision no judge run has used. */
    method NextScoreRevision(a: AttemptId) returns (revision: nat)
      ensures revision == NextRevision(Tables(), a)
    {
      revision := MaxJudged(judgeRuns, a) + 1;
      ghost var first := revision;
      ghost var taken := Revisions(outbox, a);
      while exists c | c in outbox :: c.attempt == a && c.revision == revision
        invariant first <= revision
        invariant FirstFree(taken, first) == FirstFree(taken, revision)
        decreases set x | x in taken && revision <= x
      {
        assert revision in taken;
        assert (set x | x in taken && revision <= x) - {revision} == (set x | x in taken && revision + 1 <= x);
        revision := revision + 1;
      }
    }

    method CommitScoringResult(a: AttemptId, j: Option<JobId>, passed: bool, score: int) returns (committed: bool)
      requires Valid()
      modifies this
      ensures Valid() && committed == CommitAccepted(old(Tables()), a, j)
      ensures if committed then CommitLanded(old(Tables()), Tables(), a, j, passed, score) else Tables() == old(Tables())
      ensures Tables() == CommitScore(old(Tables()), a, j, passed, score)
    {
      var revision := NextScoreRevision(a);
      committed := a in attempts && !(j.Some? && exists c | c in outbox :: c.attempt == a && c.job == j);
      if committed {
        var row := attempts[a];
        var execution := if row.execution == Queued || row.execution == Running then Completed else row.execution;
        attempts := attempts[a := row.(status := if passed then Completed else GaveUp, score := Some(score),
                                       execution := execution, scoring := Completed)];
        outbox := outbox + [Commit(a, revision, score, j)];
      }
      assert Tables() == CommitScore(old(Tables()), a, j, passed, score);
      CommitEffect(old(Tables()), a, j, passed, score);
    }

    method RecordJudge(a: AttemptId)
      requires Valid()
      modifies this
      ensures Valid() && Recorded(old(Tables()), Tables(), a)
      ensures Tables() == RecordJudgeRun(old(Tables()), a)
    {
      RecordEffect(Tables(), a);
      if a !in attempts {
        return;
      }
      var revision := MaxJudged(judgeRuns, a) + 1;
      var committed := MaxRevision(outbox, a);
      if revision < committed {
        revision := committed;
      }
      var score := 0;
      if attempts[a].score.Some? {
        score := attempts[a].score.value;
      }
      judgeRuns := judgeRuns + [JudgeRun(a, revision, score)];
    }

    method Complete(j: JobId)
      requires Valid()
      modifies this
      ensures Valid()
      ensures if j in old(jobs) then JobCompleted(old(Tables()), Tables(), j, true) else Tables() == old(Tables())
      ensures Tables() == CompleteJob(old(Tables()), j)
    {
      CompletionEffect(Tables(), j);
      CompletionStaysSound(Tables(), j);
      if j in jobs {
        var a := jobs[j].attempt;
        jobs := jobs[j := jobs[j].(status := Completed)];
        if a in attempts {
          attempts := attempts[a := attempts[a].(scoring := Completed)];
        }
      }
    }

    method CompleteCommitted(j: JobId)
      requires Valid()
      modifies this
      ensures Valid()
      ensures if j in old(jobs) then JobCompleted(old(Tables()), Tables(), j, false) else Tables() == old(Tables())
      ensures Tables() == CompleteJobOnly(old(Tables()), j)
    {
      CommittedCompletionEffect(Tables(), j);
      CompletionStaysSound(Tables(), j);
      if j in jobs {
        jobs := jobs[j := jobs[j].(status := Completed)];
      }
    }

    method Requeue(j: JobId)
      requires Valid()
      modifies this
      ensures Valid()
      ensures if j in old(jobs) then Requeued(old(Tables()), Tables(), j) else Tables() == old(Tables())
      ensures Tables() == RequeueJob(old(Tables()), j)
    {
      if j in jobs {
        var a := jobs[j].attempt;
        if jobs[j].status == Running {
          jobs := jobs[j := jobs[j].(status := Queued)];
        }
        if a in attempts && attempts[a].scoring == Running {
          attempts := attempts[a := attempts[a].(scoring := Queued)];
        }
      }
      assert Tables() == RequeueJob(old(Tables()), j);
      RequeueEffect(old(Tables()), j);
      RequeueStaysSound(old(Tables()), j);
    }

    /** Startup: orphaned running jobs go back to the queue; the queued ones are scheduled. */
    method StartupScoringRecovery() returns (schedule: set<JobId>)
      requires Valid()
      modifies this
      ensures Valid() && Recovered(old(Tables()), Tables(), schedule)
      ensures Tables() == RecoverScoring(old(Tables()))
    {
      ghost var db := Tables();
      jobs := map j | j in jobs ::
        if jobs[j].status == Running && !jobs[j].cancelRequested then jobs[j].(status := Queued) else jobs[j];
      attempts := map a | a in attempts ::
        if attempts[a].scoring == Running then attempts[a].(scoring := Queued, status := Scoring) else attempts[a];
      schedule := set j | j in jobs && jobs[j].status == Queued && !jobs[j].cancelRequested;
      RecoveredTables(db, db.(jobs := jobs, attempts := attempts), schedule);
      assert Tables() == db.(jobs := jobs, attempts := attempts);
    }

    method PrepareRejudgeOf(a: AttemptId) returns (accepted: bool, adapter: Status, previous: Previous)
      requires Valid()
      modifies this
      ensures Valid() && accepted == Rejudgeable(old(Tables()), a)
      ensures if accepted then Prepared(old(Tables()), Tables(), a) else Tables() == old(Tables())
      ensures accepted ==> adapter == attempts[a].execution && previous == Previous(attempts[a].score, attempts[a].status)
    {
      RejudgeableExactly(Tables(), a);
      PreparationEffect(Tables(), a);
      PreparationStaysSound(Tables(), a);
      adapter, previous := Failed, Previous(None, Failed);
      if a !in attempts || attempts[a].execution !in {Completed, Timeout, Failed} {
        return false, adapter, previous;
      }
      if (exists j | j in jobs :: jobs[j].attempt == a && InFlight(jobs[j].status)) || InFlight(attempts[a].scoring) {
        return false, adapter, previous;
      }
      jobs := map j | j in jobs && jobs[j].attempt != a :: jobs[j];
      return true, attempts[a].execution, Previous(attempts[a].score, attempts[a].status);
    }

    method CancelScoringForRuns(stopped: set<RunId>) returns (cancelled: set<JobId>)
      requires Valid()
      modifies this
      ensures Valid() && ScoringStopped(old(Tables()), Tables(), stopped, cancelled)
      ensures cancelled == set j | j in old(jobs) && StopsJob(old(Tables()), j, stopped)
      ensures Tables() == CancelScoring(old(Tables()), stopped)
    {
      cancelled := set j | j in jobs && InFlight(jobs[j].status)
                           && jobs[j].attempt in attempts && attempts[jobs[j].attempt].run in stopped;
      var owners := set j | j in cancelled :: jobs[j].attempt;
      CancelledTables(Tables(), stopped, cancelled, owners);
      attempts := map a | a in attempts ::
        if a in owners
        then attempts[a].(scoring := Cancelled, score := None,
                          status := if attempts[a].status == Scoring then Cancelled else attempts[a].status)
        else attempts[a];
      jobs := map j | j in jobs ::
        if j in cancelled
        then jobs[j].(cancelRequested := true, status := if jobs[j].status == Queued then Cancelled else jobs[j].status)
        else jobs[j];
      assert Tables() == CancelScoring(old(Tables()), stopped);
      assert ScoringStopped(old(Tables()), Tables(), stopped, cancelled) by {
        StoppedScoringEffect(old(Tables()), stopped, cancelled);
      }
      StoppedScoringStaysSound(old(Tables()), stopped);
    }

    method RefreshRunStatus(a: AttemptId)
      modifies this`runs
      ensures Refreshed(old(Tables()), Tables(), a)
      ensures Tables() == Refresh(old(Tables()), a)
    {
      RefreshEffect(Tables(), a);
      if a in attempts {
        var r := attempts[a].run;
        var projected := ProjectRun(attempts, r);
        if projected.Some? && r in runs {
          runs := runs[r := projected.value];
        }
      }
    }

    /** The transaction of `converge_attempts`: row by row in whatever order SQLite returns them, axis
        by axis, collecting the rows that still had an open axis. */
    method ConvergeEach(ids: set<AttemptId>, p: Policy) returns (touched: set<AttemptId>)
      modifies this`attempts
      ensures attempts == Converge(old(attempts), ids, p)
      ensures touched == Touched(old(attempts), ids)
    {
      var execution := if p.execution.Some? then p.execution.value else p.status;
      var scoring := if p.scoring.Some? then p.scoring.value else Cancelled;
      var todo := set a | a in ids && a in attempts;
      touched := {};
      while todo != {}
        invariant todo <= ids && todo <= attempts.Keys
        invariant attempts.Keys == old(attempts).Keys
        invariant forall a :: a in attempts ==>
          attempts[a] == if a in ids && a !in todo then ConvergeRow(old(attempts)[a], p) else old(attempts)[a]
        invariant forall a :: a in touched <==> a in ids && a in old(attempts) && a !in todo && Open(old(attempts)[a])
        decreases todo
      {
        var a :| a in todo;
        todo := todo - {a};
        var row := attempts[a];
        if OpenLegacy(row.status) || OpenExecution(row.execution) || OpenScoring(row.scoring) {
          var next := row;
          if OpenLegacy(row.status) {
            next := next.(status := p.status);
          }
          if OpenExecution(row.execution) {
            next := next.(execution := execution);
          }
          if OpenScoring(row.scoring) {
            next := next.(scoring := scoring);
          }
          attempts := attempts[a := next];
          touched := touched + {a};
        }
      }
    }

    /** `converge_attempts`: one transaction, then the projections of the advanced rows. */
    method ConvergeRows(ids: set<AttemptId>, p: Policy) returns (count: nat)
      modifies this`attempts, this`runs
      ensures Tables() == ConvergeAttempts(old(Tables()), ids, p)
      ensures count == |Touched(old(attempts), ids)|
    {
      var touched := ConvergeEach(ids, p);
      ReprojectEach(touched);
      count := |touched|;
    }

    /** `_reproject` for every touched attempt. */
    method ReprojectEach(touched: set<AttemptId>)
      modifies this`runs
      ensures Tables() == Reproject(old(Tables()), touched)
    {
      var todo := touched;
      while todo != {}
        invariant todo <= touched
        invariant runs == Reproject(old(Tables()), touched - todo).runs
        decreases todo
      {
        var a :| a in todo;
        ghost var done := touched - todo;
        todo := todo - {a};
        RefreshRunStatus(a);
        OneMoreRefresh(old(Tables()), done, a);
        assert touched - todo == done + {a};
      }
      assert touched - {} == touched;
    }

    /** `open_attempt_ids_for_runs`: nothing is listed exactly if every row of the runs is closed. */
    method OpenAttemptIds(within: set<RunId>) returns (ids: set<AttemptId>)
      ensures ids == OpenIn(attempts, within)
      ensures ids == {} <==> forall a :: a in attempts && attempts[a].run in within ==> Closed(attempts[a])
    {
      assert forall a :: a in attempts && attempts[a].run in within && Open(attempts[a]) ==> a in OpenIn(attempts, within);
      ids := set a | a in attempts && attempts[a].run in within && Open(attempts[a]);
    }

    /** `cancel_scoring_for_runs` followed by `cancel_attempts_for_runs`, as the Stop route calls them. */
    method Stop(stopped: set<RunId>) returns (converged: nat)
      requires Valid()
      modifies this
      ensures Valid() && Stopped(old(Tables()), Tables(), stopped)
      ensures Tables() == StopRuns(old(Tables()), stopped)
    {
      StopEffect(Tables(), stopped);
      var _ := CancelScoringForRuns(stopped);
      var ids := OpenAttemptIds(stopped);
      converged := ConvergeRows(ids, STOP);
    }

    method SweepOnce(cutoff: string) returns (execution: nat, scoring: nat)
      requires Valid()
      modifies this
      ensures Valid() && SweptOnce(old(Tables()), Tables(), cutoff, execution, scoring)
      ensures Tables() == Sweep(old(Tables()), cutoff)
    {
      SweepEffect(Tables(), cutoff);
      SweepStaysSound(Tables(), cutoff);
      var overdue := ExpiredExecution(attempts, cutoff);
      execution := ConvergeRows(overdue, EXECUTION_OVERDUE);
      overdue := ExpiredScoring(attempts, cutoff);
      scoring := ConvergeRows(overdue, SCORING_OVERDUE);
    }
  }

  /** Refreshing the run of one more attempt. */
  lemma OneMoreRefresh(db: Db, done: set<AttemptId>, a: AttemptId)
    ensures Refresh(Reproject(db, done), a) == Reproject(db, done + {a})
  {
    var before, after := Reproject(db, done), Reproject(db, done + {a});
    assert Refresh(before, a).runs == after.runs;
  }

  /** The two updates of the startup recovery. */
  lemma RecoveredTables(db: Db, after: Db, schedule: set<JobId>)
    requires Sound(db) && after == db.(jobs := after.jobs, attempts := after.attempts)
    requires after.jobs == map j | j in db.jobs ::
               if db.jobs[j].status == Running && !db.jobs[j].cancelRequested then db.jobs[j].(status := Queued) else db.jobs[j]
    requires after.attempts == map a | a in db.attempts ::
               if db.attempts[a].scoring == Running then db.attempts[a].(scoring := Queued, status := Scoring) else db.attempts[a]
    requires schedule == set j | j in after.jobs && after.jobs[j].status == Queued && !after.jobs[j].cancelRequested
    ensures after == RecoverScoring(db) && Sound(after) && Recovered(db, after, schedule)
  {
    assert after == RecoverScoring(db);
    assert schedule == set j | j in db.jobs && ClaimAccepted(RecoverScoring(db), j);
    RecoveryEffect(db);
    RecoveryStaysSound(db);
  }

  lemma OwnersOfStopped(db: Db, stopped: set<RunId>, cancelled: set<JobId>, owners: set<AttemptId>)
    requires cancelled == set j | j in db.jobs && StopsJob(db, j, stopped)
    requires owners == set j | j in cancelled :: db.jobs[j].attempt
    ensures forall a :: a in owners <==> StopsScoringOf(db, a, stopped)
  {
  }

  /** The two updates of `cancel_scoring_for_runs`, by the set of cancelled jobs and that of their attempts. */
  lemma CancelledTables(db: Db, stopped: set<RunId>, cancelled: set<JobId>, owners: set<AttemptId>)
    requires cancelled == set j | j in db.jobs && StopsJob(db, j, stopped)
    requires owners == set j | j in cancelled :: db.jobs[j].attempt
    ensures CancelScoring(db, stopped).attempts == map a | a in db.attempts ::
              if a in owners
              then db.attempts[a].(scoring := Cancelled, score := None,
                                   status := if db.attempts[a].status == Scoring then Cancelled else db.attempts[a].status)
              else db.attempts[a]
    ensures CancelScoring(db, stopped).jobs == map j | j in db.jobs ::
              if j in cancelled
              then db.jobs[j].(cancelRequested := true, status := if db.jobs[j].status == Queued then Cancelled else db.jobs[j].status)
              else db.jobs[j]
  {
    OwnersOfStopped(db, stopped, cancelled, owners);
  }
}
