/** The last good score of an attempt is never lost: `score_total` against the outbox over whole runs,
    and exactly which rejudge submissions and which Stops break the law. */
module ScoreSafety {
  import opened Statuses
  import opened AttemptTables
  import opened ScoringProtocol
  import opened CommitHistory

  // ---------- the score law ----------

  /** A scoring job that may still be worked on: whether it already committed, and the score its
      failure would restore. */
  datatype Flight = Flight(committed: bool, restore: Option<int>)

  function Flights(db: Db, a: AttemptId): map<JobId, Flight> {
    map j | j in db.jobs && db.jobs[j].attempt == a && InFlight(db.jobs[j].status) ::
      Flight(Committed(db.outbox, j), PreviousScore(db.jobs[j]))
  }

  /** Without a job in flight the score of the row is the latest commit.  With one, the score to restore
      is the latest commit, until that job has committed itself. */
  predicate Law(score: Option<int>, latest: Option<int>, flights: map<JobId, Flight>) {
    if flights == map[] then score == latest
    else exists j | j in flights :: && flights.Keys == {j}
                                    && if flights[j].committed then score == latest
                                       else score == None && flights[j].restore == latest
  }

  predicate ScoreOk(db: Db, a: AttemptId)
    requires a in db.attempts
  {
    Law(db.attempts[a].score, Latest(db.outbox, a), Flights(db, a))
  }

  /** Nothing was ever queued or committed for this attempt. */
  predicate Unscored(db: Db, a: AttemptId)
    requires a in db.attempts
  {
    && db.attempts[a].score == None
    && (forall j :: j in db.jobs ==> db.jobs[j].attempt != a)
    && (forall c :: c in db.outbox ==> c.attempt != a)
  }

  predicate WorkerOk(db: Db, j: JobId, phase: Phase) {
    && (phase in {Claimed, Cleared, Judged, Landed, Logged} ==> j in db.jobs && db.jobs[j].status == Running)
    && (phase in {Cleared, Judged, Orphaned} ==> !Committed(db.outbox, j))
    && (phase == Claimed && JobCancelled(db, j) ==> !Committed(db.outbox, j))
    && (phase in {Landed, Logged} ==> Committed(db.outbox, j))
  }

  predicate ScoresOk(db: Db) {
    forall a {:trigger ScoreOk(db, a)} :: a in db.attempts ==> ScoreOk(db, a)
  }

  predicate References(db: Db) {
    && (forall j :: j in db.jobs ==> db.jobs[j].attempt in db.attempts)
    && (forall c :: c in db.outbox ==> c.attempt in db.attempts)
  }

  /** Attempts some task may still execute, in this process or after a restart, are unscored. */
  predicate OwnersOk(s: System) {
    && (forall a :: a in s.live ==> a in s.db.attempts && (s.live[a] != Ending ==> Unscored(s.db, a)))
    && (forall a :: a in s.db.attempts && Stale(s.db.attempts[a].status) ==> Unscored(s.db, a))
  }

  /** The execution behind an orphaned commit is over, even if its job is gone. */
  predicate OrphansOk(s: System) {
    forall j :: j in s.workers && s.workers[j] == Orphaned ==> OrphanOk(s, j)
  }

  predicate OrphanOk(s: System, j: JobId) {
    && j in s.issued && s.issued[j] in s.db.attempts
    && !Executing(s, s.issued[j]) && !Stale(s.db.attempts[s.issued[j]].status)
  }

  predicate WorkersOk(s: System) {
    forall j :: j in s.workers ==> WorkerOk(s.db, j, s.workers[j])
  }

  /** The part of the invariant that does not speak of the whole history. */
  predicate Sane(s: System) {
    && Owned(s) && References(s.db)
    && OwnersOk(s) && WorkersOk(s) && OrphansOk(s)
    && ScoresOk(s.db)
  }

  predicate ScoreInvariant(s: System) {
    HistoryInvariant(s) && Sane(s)
  }

  // ---------- what a transaction does to the flights ----------

  lemma {:induction false} LatestOfNone(outbox: seq<Commit>, a: AttemptId)
    ensures Latest(outbox, a).None? <==> forall c :: c in outbox ==> c.attempt != a
  {
    if outbox != [] {
      var n := |outbox| - 1;
      LatestOfNone(outbox[..n], a);
      assert outbox == outbox[..n] + [outbox[n]];
    }
  }

  /** Writing one job row moves only the flights of its own attempt. */
  lemma JobWritten(before: Db, after: Db, j: JobId, job: Job)
    requires after.jobs == before.jobs[j := job] && after.outbox == before.outbox
    requires j in before.jobs ==> before.jobs[j].attempt == job.attempt
    ensures forall b {:trigger Flights(after, b)} :: b != job.attempt ==> Flights(after, b) == Flights(before, b)
    ensures Flights(after, job.attempt) ==
            if InFlight(job.status) then Flights(before, job.attempt)[j := Flight(Committed(before.outbox, j), PreviousScore(job))]
            else Flights(before, job.attempt) - {j}
  {
    forall b | b != job.attempt
      ensures Flights(after, b) == Flights(before, b)
    {
      assert forall k :: k in Flights(after, b) <==> k in Flights(before, b);
    }
  }

  /** The law survives in every attempt whose score, latest commit and flights are as before. */
  lemma OthersKeepLaw(before: Db, after: Db, a: AttemptId)
    requires ScoresOk(before) && after.outbox == before.outbox
    requires after.attempts.Keys <= before.attempts.Keys + {a}
    requires forall b :: b in after.attempts && b != a ==> after.attempts[b].score == before.attempts[b].score
    requires forall b {:trigger Flights(after, b)} :: b != a ==> Flights(after, b) == Flights(before, b)
    requires a in after.attempts ==> ScoreOk(after, a)
    ensures ScoresOk(after)
  {
    forall b | b in after.attempts && b != a
      ensures ScoreOk(after, b)
    {
      assert ScoreOk(before, b) && Flights(after, b) == Flights(before, b);
    }
  }

  /** A transaction that keeps every flight and every score. */
  predicate SameFlights(before: Db, after: Db) {
    && after.outbox == before.outbox
    && after.attempts.Keys == before.attempts.Keys
    && after.jobs.Keys == before.jobs.Keys
    && (forall a :: a in before.attempts ==> after.attempts[a].score == before.attempts[a].score)
    && (forall j :: j in before.jobs ==> SameFlight(before.jobs[j], after.jobs[j]))
  }

  predicate SameFlight(before: Job, after: Job) {
    && after.attempt == before.attempt && after.rejudge == before.rejudge
    && (InFlight(after.status) <==> InFlight(before.status))
  }

  lemma SameFlightsKeepLaw(before: Db, after: Db)
    requires ScoresOk(before) && SameFlights(before, after)
    ensures ScoresOk(after)
  {
    forall a | a in after.attempts
      ensures ScoreOk(after, a)
    {
      assert ScoreOk(before, a);
      assert Flights(after, a) == Flights(before, a);
    }
  }

  // ---------- single transactions keep the law ----------

  lemma EnqueueKeepsLaw(db: Db, a: AttemptId, adapter: Status, j: JobId, version: nat, rejudge: Option<Previous>)
    requires ScoresOk(db) && a in db.attempts && j !in db.jobs && !Committed(db.outbox, j)
    requires Flights(db, a) == map[]
    requires (if rejudge.Some? then rejudge.value.score else None) == db.attempts[a].score
    ensures ScoresOk(Enqueue(db, a, adapter, j, version, rejudge))
  {
    var after := Enqueue(db, a, adapter, j, version, rejudge);
    if EnqueueAccepted(db, a, version) {
      var job := Job(a, Queued, version, false, rejudge);
      JobWritten(db, after, j, job);
      assert ScoreOk(db, a);
      var flights := Flights(after, a);
      assert flights == map[j := Flight(false, PreviousScore(job))];
      assert j in flights && flights.Keys == {j};
      OthersKeepLaw(db, after, a);
    }
  }

  /** The single flight of an attempt whose law holds. */
  lemma OnlyFlight(db: Db, j: JobId)
    requires ScoresOk(db) && References(db) && j in db.jobs && InFlight(db.jobs[j].status)
    ensures var a := db.jobs[j].attempt;
            && Flights(db, a) == map[j := Flight(Committed(db.outbox, j), PreviousScore(db.jobs[j]))]
            && (Committed(db.outbox, j) ==> db.attempts[a].score == Latest(db.outbox, a))
            && (!Committed(db.outbox, j) ==> db.attempts[a].score == None && PreviousScore(db.jobs[j]) == Latest(db.outbox, a))
  {
    var a := db.jobs[j].attempt;
    assert ScoreOk(db, a);
    assert j in Flights(db, a);
  }

  lemma FailureKeepsLaw(db: Db, j: JobId, status: Status)
    requires ScoresOk(db) && References(db) && j in db.jobs && InFlight(db.jobs[j].status) && !Committed(db.outbox, j)
    requires !InFlight(status)
    ensures ScoresOk(FinishFailure(db, j, status))
  {
    var after := FinishFailure(db, j, status);
    OnlyFlight(db, j);
    JobWritten(db, after, j, db.jobs[j].(status := status));
    assert Flights(after, db.jobs[j].attempt) == map[];
    OthersKeepLaw(db, after, db.jobs[j].attempt);
  }

  lemma FinishKeepsLaw(db: Db, j: JobId)
    requires ScoresOk(db) && References(db) && j in db.jobs && InFlight(db.jobs[j].status) && Committed(db.outbox, j)
    ensures ScoresOk(CompleteJob(db, j)) && ScoresOk(CompleteJobOnly(db, j))
  {
    var a, after, only := db.jobs[j].attempt, CompleteJob(db, j), CompleteJobOnly(db, j);
    OnlyFlight(db, j);
    JobWritten(db, after, j, db.jobs[j].(status := Completed));
    JobWritten(db, only, j, db.jobs[j].(status := Completed));
    assert Flights(after, a) == map[] && Flights(only, a) == map[];
    OthersKeepLaw(db, after, a);
    OthersKeepLaw(db, only, a);
  }

  lemma PrepareKeepsLaw(db: Db, a: AttemptId)
    requires ScoresOk(db)
    ensures ScoresOk(PrepareRejudge(db, a))
  {
    var after := PrepareRejudge(db, a);
    if RejudgeAccepted(db, a) {
      forall b | b in after.attempts
        ensures ScoreOk(after, b)
      {
        assert ScoreOk(db, b);
        assert Flights(after, b) == Flights(db, b);
      }
    }
  }

  lemma LatestAfterCommit(outbox: seq<Commit>, c: Commit, a: AttemptId)
    ensures Latest(outbox + [c], a) == if c.attempt == a then Some(c.score) else Latest(outbox, a)
  {
    assert (outbox + [c])[..|outbox|] == outbox;
  }

  lemma CommittedAfterCommit(outbox: seq<Commit>, c: Commit, j: JobId)
    ensures Committed(outbox + [c], j) <==> Committed(outbox, j) || c.job == Some(j)
  {
    if Committed(outbox, j) {
      var d :| d in outbox && d.job == Some(j);
      assert d in outbox + [c];
    }
    assert c in outbox + [c];
  }

  /** Every job of the attempt still in flight is the one that commits, or has committed itself. */
  predicate Unrivalled(db: Db, a: AttemptId, job: Option<JobId>) {
    forall k :: k in Flights(db, a) ==> job == Some(k) || Committed(db.outbox, k)
  }

  lemma FlightsAfterCommit(db: Db, a: AttemptId, job: Option<JobId>, passed: bool, score: int, b: AttemptId)
    requires CommitAccepted(db, a, job)
    ensures var before, after := Flights(db, b), Flights(CommitScore(db, a, job, passed, score), b);
            && after.Keys == before.Keys
            && forall k :: k in before ==> after[k] == Flight(before[k].committed || job == Some(k), before[k].restore)
  {
    var c := Commit(a, NextRevision(db, a), score, job);
    var after := CommitScore(db, a, job, passed, score);
    forall k | k in db.jobs
      ensures Committed(after.outbox, k) <==> Committed(db.outbox, k) || job == Some(k)
    {
      CommittedAfterCommit(db.outbox, c, k);
    }
  }

  /** A commit leaves every other attempt alone. */
  lemma CommitSparesOthers(db: Db, a: AttemptId, job: Option<JobId>, passed: bool, score: int, b: AttemptId)
    requires ScoresOk(db) && References(db) && CommitAccepted(db, a, job) && b in db.attempts && b != a
    requires job.Some? && job.value in db.jobs ==> db.jobs[job.value].attempt == a
    ensures ScoreOk(CommitScore(db, a, job, passed, score), b)
  {
    var after := CommitScore(db, a, job, passed, score);
    LatestAfterCommit(db.outbox, Commit(a, NextRevision(db, a), score, job), b);
    FlightsAfterCommit(db, a, job, passed, score, b);
    assert ScoreOk(db, b);
    assert Flights(after, b) == Flights(db, b);
  }

  lemma CommittedAttemptExact(db: Db, a: AttemptId, job: Option<JobId>, passed: bool, score: int)
    requires ScoresOk(db) && References(db) && CommitAccepted(db, a, job)
    ensures ScoreOk(CommitScore(db, a, job, passed, score), a) <==> Unrivalled(db, a, job)
  {
    var after := CommitScore(db, a, job, passed, score);
    LatestAfterCommit(db.outbox, Commit(a, NextRevision(db, a), score, job), a);
    FlightsAfterCommit(db, a, job, passed, score, a);
    assert ScoreOk(db, a);
    if Flights(db, a) != map[] {
      var k :| k in Flights(db, a);
      OnlyFlight(db, k);
      assert k in Flights(after, a) && Flights(after, a).Keys == {k};
    } else {
      assert Flights(after, a) == map[];
    }
  }

  /** A commit, on whose behalf ever, keeps the score law exactly if it has no rival: no other job of the
      attempt is in flight that still would restore an older score. */
  lemma CommitExact(db: Db, a: AttemptId, job: Option<JobId>, passed: bool, score: int)
    requires ScoresOk(db) && References(db) && CommitAccepted(db, a, job)
    requires job.Some? && job.value in db.jobs ==> db.jobs[job.value].attempt == a
    ensures ScoresOk(CommitScore(db, a, job, passed, score)) <==> Unrivalled(db, a, job)
  {
    var after := CommitScore(db, a, job, passed, score);
    forall b | b in after.attempts && b != a
      ensures ScoreOk(after, b)
    {
      CommitSparesOthers(db, a, job, passed, score, b);
    }
    CommittedAttemptExact(db, a, job, passed, score);
  }

  lemma UnscoredOk(db: Db, a: AttemptId)
    requires a in db.attempts && Unscored(db, a)
    ensures ScoreOk(db, a) && Flights(db, a) == map[]
  {
    LatestOfNone(db.outbox, a);
    assert Flights(db, a) == map[];
  }
}
