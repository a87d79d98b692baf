/** A run in which the late commit of a cancelled worker loses its own score: why such a commit must meet no
    newer job. */
module LateCommit {
  import opened Statuses
  import opened AttemptTables
  import opened ScoringProtocol
  import opened LostScore

  const ISSUED: map<JobId, AttemptId> := map[0 := 0, 1 := 0]
  const LAST := Previous(Some(50), Cancelled)
  const STOPPED := Row(Completed, Cancelled, Cancelled, Some(50))

  function Marked(status: Status): Job {
    Job(0, status, 1, true, Some(SAVED))
  }

  /** The rejudge of attempt 0, which has the score 50, is being evaluated. */
  function Evaluating(phase: Phase): System {
    Service(Row(Completed, Scoring, Running, None), map[1 := JobRow(Running, Some(SAVED))], [FIRST], map[1 := phase], map[], ISSUED)
  }

  lemma Requested()
    ensures Reachable(Service(InQueue(Completed), map[1 := JobRow(Queued, Some(SAVED))], [FIRST], map[1 := Scheduled], map[], ISSUED))
  {
    FirstScore();
    AfterPrepare(Service(SCORED_50, map[0 := JobRow(Completed, None)], [FIRST], map[], map[], map[0 := 0]), 0);
    AfterSubmit(SCORED_50, SAVED, [FIRST], Pending(0), map[0 := 0], 0, 1);
    assert Pending(0) - {0} == map[];
    assert map[0 := 0][1 := 0] == ISSUED;
  }

  lemma AboutToCommit()
    ensures Reachable(Evaluating(Judged))
  {
    Requested();
    AfterEvaluation(Completed, 1, Some(SAVED), [FIRST], map[], ISSUED);
    Next(Evaluating(Cleared), JudgeJob(1), Evaluating(Judged));
  }

  lemma StoppedTables(db: Db)
    requires db.attempts == map[0 := Row(Completed, Scoring, Running, None)] && db.jobs == map[1 := JobRow(Running, Some(SAVED))]
    ensures CancelScoring(db, {0}) ==
            db.(attempts := map[0 := Row(Completed, Cancelled, Cancelled, None)], jobs := map[1 := Marked(Running)])
  {
    assert StopsJob(db, 1, {0});
    assert StopsScoringOf(db, 0, {0});
    var after := CancelScoring(db, {0});
    assert after.attempts == map[0 := Row(Completed, Cancelled, Cancelled, None)];
    assert after.jobs == map[1 := Marked(Running)];
  }

  lemma AfterStop()
    ensures Reachable(Service(Row(Completed, Cancelled, Cancelled, None), map[1 := Marked(Running)], [FIRST], map[1 := Judged], map[], ISSUED))
  {
    AboutToCommit();
    StoppedTables(Evaluating(Judged).db);
    Next(Evaluating(Judged), StopScoring({0}),
         Service(Row(Completed, Cancelled, Cancelled, None), map[1 := Marked(Running)], [FIRST], map[1 := Judged], map[], ISSUED));
  }

  /** The worker is cancelled while its commit is on the way: the job is over, the score 50 is back. */
  lemma AfterCancellation()
    ensures Reachable(Service(STOPPED, map[1 := Marked(Cancelled)], [FIRST], map[1 := Orphaned], map[], ISSUED))
  {
    AfterStop();
    Next(Service(Row(Completed, Cancelled, Cancelled, None), map[1 := Marked(Running)], [FIRST], map[1 := Judged], map[], ISSUED), InterruptJob(1),
         Service(STOPPED, map[1 := Marked(Cancelled)], [FIRST], map[1 := Orphaned], map[], ISSUED));
  }

  /** The next request saves 50. */
  lemma AfterNextRequest()
    ensures Reachable(Service(STOPPED, map[], [FIRST], map[1 := Orphaned], map[0 := Request(0, Completed, LAST)], ISSUED))
  {
    AfterCancellation();
    var s := Service(STOPPED, map[1 := Marked(Cancelled)], [FIRST], map[1 := Orphaned], map[], ISSUED);
    assert PrepareRejudge(s.db, 0).jobs == map[];
    Next(s, PrepareRequest(0, 0, true), Service(STOPPED, map[], [FIRST], map[1 := Orphaned], map[0 := Request(0, Completed, LAST)], ISSUED));
  }

  lemma AfterNextSubmission()
    ensures Reachable(Service(InQueue(Completed), map[2 := JobRow(Queued, Some(LAST))], [FIRST],
                              map[1 := Orphaned, 2 := Scheduled], map[], ISSUED[2 := 0]))
  {
    AfterNextRequest();
    var s := Service(STOPPED, map[], [FIRST], map[1 := Orphaned], map[0 := Request(0, Completed, LAST)], ISSUED);
    QueuedRow(s.db, LAST, 2);
    assert map[0 := Request(0, Completed, LAST)] - {0} == map[];
    Next(s, SubmitRequest(0, 2, 1),
         Service(InQueue(Completed), map[2 := JobRow(Queued, Some(LAST))], [FIRST], map[1 := Orphaned, 2 := Scheduled], map[], ISSUED[2 := 0]));
  }

  lemma LateRow(db: Db)
    requires db.attempts == map[0 := InQueue(Completed)] && db.judgeRuns == [] && db.outbox == [FIRST]
    ensures CommitScore(db, 0, Some(1), true, 80) == db.(attempts := map[0 := SCORED_80], outbox := [FIRST, SECOND])
  {
    assert Revisions([FIRST], 0) == {1} by {
      assert FIRST in [FIRST];
    }
    assert MaxJudged(db.judgeRuns, 0) == 0;
    assert FirstFree({1}, 1) == FirstFree({1}, 2) == 2;
    assert NextRevision(db, 0) == 2;
    assert CommitAccepted(db, 0, Some(1));
    assert [FIRST] + [SECOND] == [FIRST, SECOND];
  }

  /** The cancelled worker commits 80 while the new job waits. */
  lemma AfterLateCommit()
    ensures Reachable(Service(SCORED_80, map[2 := JobRow(Queued, Some(LAST))], [FIRST, SECOND], map[2 := Scheduled], map[], ISSUED[2 := 0]))
  {
    AfterNextSubmission();
    var s := Service(InQueue(Completed), map[2 := JobRow(Queued, Some(LAST))], [FIRST], map[1 := Orphaned, 2 := Scheduled], map[], ISSUED[2 := 0]);
    LateRow(s.db);
    assert map[1 := Orphaned, 2 := Scheduled] - {1} == map[2 := Scheduled];
    Next(s, OrphanCommits(1, true, 80),
         Service(SCORED_80, map[2 := JobRow(Queued, Some(LAST))], [FIRST, SECOND], map[2 := Scheduled], map[], ISSUED[2 := 0]));
  }

  lemma AfterNextClaim()
    ensures Reachable(Service(Row(Completed, Scoring, Running, Some(80)), map[2 := JobRow(Running, Some(LAST))], [FIRST, SECOND],
                              map[2 := Claimed], map[], ISSUED[2 := 0]))
  {
    AfterLateCommit();
    Next(Service(SCORED_80, map[2 := JobRow(Queued, Some(LAST))], [FIRST, SECOND], map[2 := Scheduled], map[], ISSUED[2 := 0]),
         BeginJob(2, None),
         Service(Row(Completed, Scoring, Running, Some(80)), map[2 := JobRow(Running, Some(LAST))], [FIRST, SECOND],
                 map[2 := Claimed], map[], ISSUED[2 := 0]));
  }

  /** The new job fails and restores 50: at rest the attempt shows 50 although 80 was committed later.  One
      rejudge at a time, one harmless Stop, no failure after a commit. */
  lemma LateCommitsLoseAScore() returns (end: System)
    ensures Reachable(end)
    ensures 0 in end.db.attempts && !HasJobInFlight(end.db, 0)
    ensures end.db.attempts[0].score == Some(50) && Latest(end.db.outbox, 0) == Some(80)
  {
    AfterNextClaim();
    end := Service(Row(Completed, Completed, Failed, Some(50)), map[2 := JobRow(Failed, Some(LAST))], [FIRST, SECOND], map[], map[], ISSUED[2 := 0]);
    assert map[2 := Claimed] - {2} == map[];
    Next(Service(Row(Completed, Scoring, Running, Some(80)), map[2 := JobRow(Running, Some(LAST))], [FIRST, SECOND],
                 map[2 := Claimed], map[], ISSUED[2 := 0]), FailJob(2, Failed), end);
  }
}
