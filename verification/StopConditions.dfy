/** Which transactions keep the score law, each with its exact condition: stopping scoring, a failure after
    the commit, the late commit of a cancelled worker, and the handler that finalizes an attempt whose task raised. */
module StopConditions {
  import opened Statuses
  import opened AttemptTables
  import opened ScoringProtocol
  import opened CommitHistory
  import opened ScoreSafety

  // ---------- stopping a scoring job ----------

  /** A job whose Stop loses no score: it has not committed, and if it is still queued there is no
      earlier score to lose. */
  predicate Harmless(db: Db, j: JobId)
    requires j in db.jobs
  {
    !Committed(db.outbox, j) && (db.jobs[j].status == Queued ==> PreviousScore(db.jobs[j]) == None)
  }

  lemma StopTouchesOneFlight(db: Db, runs: set<RunId>, j: JobId)
    requires ScoresOk(db) && References(db) && StopsJob(db, j, runs)
    ensures var a, after := db.jobs[j].attempt, CancelScoring(db, runs);
            && after.attempts[a].score == None
            && Flights(after, a) == if db.jobs[j].status == Queued then map[] else Flights(db, a)
  {
    var a, after := db.jobs[j].attempt, CancelScoring(db, runs);
    OnlyFlight(db, j);
    assert StopsScoringOf(db, a, runs);
    assert after.attempts[a] == CancelledScoringRow(db.attempts[a]);
    forall k | k in db.jobs && k != j && db.jobs[k].attempt == a
      ensures !InFlight(db.jobs[k].status)
    {
      assert InFlight(db.jobs[k].status) <==> k in Flights(db, a);
    }
  }

  lemma StopSparesOthers(db: Db, runs: set<RunId>, a: AttemptId)
    requires ScoresOk(db) && a in db.attempts && !StopsScoringOf(db, a, runs)
    ensures ScoreOk(CancelScoring(db, runs), a)
  {
    var after := CancelScoring(db, runs);
    assert ScoreOk(db, a);
    assert after.attempts[a] == db.attempts[a];
    forall j | j in db.jobs && db.jobs[j].attempt == a
      ensures after.jobs[j] == db.jobs[j]
    {
      assert !StopsJob(db, j, runs);
    }
    assert Flights(after, a) == Flights(db, a);
  }

  lemma StoppedAttemptExact(s: System, runs: set<RunId>, j: JobId)
    requires Sane(s) && StopsJob(s.db, j, runs)
    ensures ScoreOk(CancelScoring(s.db, runs), s.db.jobs[j].attempt) <==> Harmless(s.db, j)
  {
    var a, after := s.db.jobs[j].attempt, CancelScoring(s.db, runs);
    OnlyFlight(s.db, j);
    StopTouchesOneFlight(s.db, runs, j);
    if Committed(s.db.outbox, j) {
      LatestOfNone(s.db.outbox, a);
      assert Latest(s.db.outbox, a).Some?;
    }
    if s.db.jobs[j].status == Running {
      var flights := Flights(after, a);
      assert flights == map[j := Flight(Committed(s.db.outbox, j), PreviousScore(s.db.jobs[j]))];
      assert j in flights && flights.Keys == {j};
    }
  }

  /** Stopping the scoring of some runs keeps the score law exactly if every job it stops is harmless:
      a queued rejudge loses the earlier score, a job stopped after its commit loses the new one, and a
      running rejudge that has not committed loses nothing. */
  lemma StopScoringExact(s: System, runs: set<RunId>)
    requires Sane(s)
    ensures ScoresOk(CancelScoring(s.db, runs)) <==> forall j :: StopsJob(s.db, j, runs) ==> Harmless(s.db, j)
  {
    var after := CancelScoring(s.db, runs);
    forall j | StopsJob(s.db, j, runs)
      ensures ScoreOk(after, s.db.jobs[j].attempt) <==> Harmless(s.db, j)
    {
      StoppedAttemptExact(s, runs, j);
    }
    forall a | a in after.attempts && !StopsScoringOf(s.db, a, runs)
      ensures ScoreOk(after, a)
    {
      StopSparesOthers(s.db, runs, a);
    }
    if ScoresOk(after) {
      forall j | StopsJob(s.db, j, runs)
        ensures Harmless(s.db, j)
      {
        assert ScoreOk(after, s.db.jobs[j].attempt);
      }
    }
  }

  /** The worker of a running rejudge that was stopped before it committed puts the earlier score back. */
  lemma StoppedRejudgeRestores(s: System, runs: set<RunId>, j: JobId)
    requires Sane(s) && StopsJob(s.db, j, runs) && s.db.jobs[j].status == Running && !Committed(s.db.outbox, j)
    ensures var a, stopped := s.db.jobs[j].attempt, CancelScoring(s.db, runs);
            && JobCancelled(stopped, j)
            && stopped.attempts[a].score == None
            && FinishFailure(stopped, j, Cancelled).attempts[a].score == Latest(s.db.outbox, a)
  {
    OnlyFlight(s.db, j);
  }

  // ---------- failures that come late ----------

  /** The failure path does not look whether the job has committed: an error after the commit, say in the
      last transaction, keeps the score law exactly if the job saved the very score it committed. */
  lemma LateFailureExact(s: System, j: JobId, status: Status)
    requires Sane(s) && j in s.db.jobs && InFlight(s.db.jobs[j].status) && !InFlight(status)
    ensures ScoresOk(FinishFailure(s.db, j, status)) <==>
            (!Committed(s.db.outbox, j) || PreviousScore(s.db.jobs[j]) == Latest(s.db.outbox, s.db.jobs[j].attempt))
  {
    var db, a, after := s.db, s.db.jobs[j].attempt, FinishFailure(s.db, j, status);
    OnlyFlight(db, j);
    JobWritten(db, after, j, db.jobs[j].(status := status));
    assert Flights(after, a) == map[];
    if PreviousScore(db.jobs[j]) == Latest(db.outbox, a) {
      OthersKeepLaw(db, after, a);
    } else {
      assert !ScoreOk(after, a);
    }
  }

  // ---------- commits that come late ----------

  /** The commit of a worker that was cancelled while it ran keeps the score law exactly if every job of the
      attempt in flight is its own or has committed: a newer job that has not would restore, when it fails,
      the score from before this commit. */
  lemma LateCommitExact(s: System, j: JobId, passed: bool, score: int)
    requires Sane(s) && Enabled(s, OrphanCommits(j, passed, score))
    ensures ScoresOk(Apply(s, OrphanCommits(j, passed, score)).db) <==>
            forall k :: k in s.db.jobs && s.db.jobs[k].attempt == s.issued[j] && InFlight(s.db.jobs[k].status) ==>
              k == j || Committed(s.db.outbox, k)
  {
    var a := s.issued[j];
    assert OrphanOk(s, j) && WorkerOk(s.db, j, s.workers[j]);
    CommitExact(s.db, a, Some(j), passed, score);
    assert forall k :: k in Flights(s.db, a) <==> k in s.db.jobs && s.db.jobs[k].attempt == a && InFlight(s.db.jobs[k].status);
  }

  lemma FinalizationKeepsLaw(db: Db, a: AttemptId, status: Status)
    requires ScoresOk(db) && a in db.attempts && db.attempts[a].score == None
    ensures ScoresOk(FinalizeNoScore(db, a, status))
  {
    SameFlightsKeepLaw(db, FinalizeNoScore(db, a, status));
  }

  /** Finalizing an attempt without a score, as the handlers of dispatch and of startup recovery do for
      whatever exception reaches them, keeps the score law exactly if the row shows no score: after an
      inline commit the handler empties the committed score. */
  lemma FinalizationExact(db: Db, a: AttemptId, status: Status)
    requires ScoresOk(db) && a in db.attempts
    ensures ScoresOk(FinalizeNoScore(db, a, status)) <==> db.attempts[a].score == None
  {
    var after := FinalizeNoScore(db, a, status);
    if db.attempts[a].score == None {
      FinalizationKeepsLaw(db, a, status);
    } else {
      assert ScoreOk(db, a);
      assert Flights(after, a) == Flights(db, a);
      assert !ScoreOk(after, a);
    }
  }
}
