/** A run, possible without any Stop or crash, in which overlapping rejudges lose the best score: the
    reason the score law needs fresh submissions. */
module LostScore {
  import opened Statuses
  import opened AttemptTables
  import opened ScoringProtocol
  import opened CommitHistory
  import opened ScoreSafety

  ghost predicate Reachable(s: System) {
    exists steps :: Runs(INITIAL, steps) && After(INITIAL, steps) == s
  }

  lemma Initially()
    ensures Reachable(INITIAL)
  {
    assert Runs(INITIAL, []) && After(INITIAL, []) == INITIAL;
  }

  lemma OneStep(s: System, step: Step)
    requires Enabled(s, step)
    ensures Runs(s, [step]) && After(s, [step]) == Apply(s, step)
  {
    var rest: seq<Step> := [];
    assert [step][1..] == rest;
    assert Runs(Apply(s, step), rest) && After(Apply(s, step), rest) == Apply(s, step);
  }

  lemma Next(s: System, step: Step, t: System)
    requires Reachable(s) && Enabled(s, step) && Apply(s, step) == t
    ensures Reachable(t)
  {
    var steps :| Runs(INITIAL, steps) && After(INITIAL, steps) == s;
    OneStep(s, step);
    RunsCompose(INITIAL, steps, [step]);
    assert Runs(INITIAL, steps + [step]) && After(INITIAL, steps + [step]) == t;
  }

  const FIRST := Commit(0, 1, 50, Some(0))
  const SECOND := Commit(0, 2, 80, Some(1))

  /** A row of attempt 0 whose execution ended as `e`. */
  function Row(e: Status, status: Status, scoring: Status, score: Option<int>): Attempt {
    Attempt(0, status, e, scoring, score, None, None)
  }

  /** The service with attempt 0 in the given state and `jobs` as its jobs. */
  function Service(row: Attempt, jobs: map<JobId, Job>, outbox: seq<Commit>, workers: map<JobId, Phase>,
                   pending: map<nat, Request>, issued: map<JobId, AttemptId>): System {
    System(Db(map[0 := row], jobs, outbox, [], map[0 := Running]), map[], workers, pending, {}, {}, issued)
  }

  const SCORED_50 := Row(Completed, Completed, Completed, Some(50))
  const SCORED_80 := Row(Completed, Completed, Completed, Some(80))
  const SAVED := Previous(Some(50), Completed)

  function InQueue(e: Status): Attempt {
    Row(e, Scoring, Queued, None)
  }

  function Pending(j: nat): map<nat, Request> {
    map[j := Request(0, Completed, SAVED)]
  }

  function JobRow(status: Status, rejudge: Option<Previous>): Job {
    Job(0, status, 1, false, rejudge)
  }

  /** A queued job is claimed and evaluated up to the point where it commits. */
  lemma AfterEvaluation(e: Status, j: JobId, rejudge: Option<Previous>, outbox: seq<Commit>, pending: map<nat, Request>, issued: map<JobId, AttemptId>)
    requires !Committed(outbox, j)
    requires Reachable(Service(InQueue(e), map[j := JobRow(Queued, rejudge)], outbox, map[j := Scheduled], pending, issued))
    ensures Reachable(Service(Row(e, Scoring, Running, None), map[j := JobRow(Running, rejudge)], outbox, map[j := Cleared], pending, issued))
  {
    AfterClaim(e, j, rejudge, outbox, pending, issued);
    var t := Service(Row(e, Scoring, Running, None), map[j := JobRow(Running, rejudge)], outbox, map[j := Claimed], pending, issued);
    Next(t, ClearJob(j), t.(workers := map[j := Cleared]));
  }

  lemma AfterClaim(e: Status, j: JobId, rejudge: Option<Previous>, outbox: seq<Commit>, pending: map<nat, Request>, issued: map<JobId, AttemptId>)
    requires Reachable(Service(InQueue(e), map[j := JobRow(Queued, rejudge)], outbox, map[j := Scheduled], pending, issued))
    ensures Reachable(Service(Row(e, Scoring, Running, None), map[j := JobRow(Running, rejudge)], outbox, map[j := Claimed], pending, issued))
  {
    Next(Service(InQueue(e), map[j := JobRow(Queued, rejudge)], outbox, map[j := Scheduled], pending, issued), BeginJob(j, None),
         Service(Row(e, Scoring, Running, None), map[j := JobRow(Running, rejudge)], outbox, map[j := Claimed], pending, issued));
  }

  lemma AfterCommit(e: Status, j: JobId, rejudge: Option<Previous>, outbox: seq<Commit>, pending: map<nat, Request>, issued: map<JobId, AttemptId>, c: Commit)
    requires !OpenExecution(e) && !Committed(outbox, j) && j in issued && issued[j] == 0
    requires c == Commit(0, FirstFree(Revisions(outbox, 0), 1), c.score, Some(j))
    requires Reachable(Service(Row(e, Scoring, Running, None), map[j := JobRow(Running, rejudge)], outbox, map[j := Cleared], pending, issued))
    ensures Reachable(Service(Row(e, Completed, Completed, Some(c.score)), map[j := JobRow(Running, rejudge)], outbox + [c], map[j := Landed], pending, issued))
  {
    var s := Service(Row(e, Scoring, Running, None), map[j := JobRow(Running, rejudge)], outbox, map[j := Cleared], pending, issued);
    var t := s.(workers := map[j := Judged]);
    Next(s, JudgeJob(j), t);
    CommitRow(e, t, j, c);
    var u := Service(Row(e, Completed, Completed, Some(c.score)), map[j := JobRow(Running, rejudge)], outbox + [c], map[j := Landed], pending, issued);
    Next(t, CommitJob(j, true, c.score), u);
  }

  lemma CommitRow(e: Status, t: System, j: JobId, c: Commit)
    requires !OpenExecution(e) && t.db.attempts == map[0 := Row(e, Scoring, Running, None)] && t.db.judgeRuns == []
    requires !Committed(t.db.outbox, j) && c == Commit(0, FirstFree(Revisions(t.db.outbox, 0), 1), c.score, Some(j))
    ensures CommitScore(t.db, 0, Some(j), true, c.score) ==
            t.db.(attempts := map[0 := Row(e, Completed, Completed, Some(c.score))], outbox := t.db.outbox + [c])
  {
    assert NextRevision(t.db, 0) == c.revision;
    assert CommitAccepted(t.db, 0, Some(j));
  }

  lemma AfterFinishJob(e: Status, j: JobId, rejudge: Option<Previous>, outbox: seq<Commit>, pending: map<nat, Request>, issued: map<JobId, AttemptId>, score: int)
    requires Reachable(Service(Row(e, Completed, Completed, Some(score)), map[j := JobRow(Running, rejudge)], outbox, map[j := Landed], pending, issued))
    ensures Reachable(Service(Row(e, Completed, Completed, Some(score)), map[j := JobRow(Completed, rejudge)], outbox, map[], pending, issued))
  {
    Next(Service(Row(e, Completed, Completed, Some(score)), map[j := JobRow(Running, rejudge)], outbox, map[j := Landed], pending, issued),
         FinishJob(j),
         Service(Row(e, Completed, Completed, Some(score)), map[j := JobRow(Completed, rejudge)], outbox, map[], pending, issued));
  }

  lemma AfterCreate()
    ensures Reachable(System(Db(map[0 := Attempt(0, Queued, Queued, NotReady, None, None, None)], map[], [], [], map[0 := Queued]),
                             map[0 := Deferred], map[], map[], {}, {}, map[]))
  {
    Initially();
    Next(INITIAL, Create(0, 0), System(Db(map[0 := Attempt(0, Queued, Queued, NotReady, None, None, None)], map[], [], [], map[0 := Queued]),
                             map[0 := Deferred], map[], map[], {}, {}, map[]));
  }

  lemma AfterStart()
    ensures Reachable(System(Db(map[0 := Attempt(0, Running, Running, NotReady, None, None, None)], map[], [], [], map[0 := Running]),
                             map[0 := Deferred], map[], map[], {}, {}, map[]))
  {
    AfterCreate();
    var created := System(Db(map[0 := Attempt(0, Queued, Queued, NotReady, None, None, None)], map[], [], [], map[0 := Queued]),
                          map[0 := Deferred], map[], map[], {}, {}, map[]);
    Next(created, Start(0, None), System(Db(map[0 := Attempt(0, Running, Running, NotReady, None, None, None)], map[], [], [], map[0 := Running]),
                                         map[0 := Deferred], map[], map[], {}, {}, map[]));
  }

  /** The result is in the queue, and the task is about to end. */
  lemma AfterQueueing()
    ensures Reachable(Service(InQueue(Completed), map[0 := JobRow(Queued, None)], [], map[0 := Scheduled], map[], map[0 := 0])
                      .(live := map[0 := Ending]))
  {
    AfterStart();
    var started := System(Db(map[0 := Attempt(0, Running, Running, NotReady, None, None, None)], map[], [], [], map[0 := Running]),
                          map[0 := Deferred], map[], map[], {}, {}, map[]);
    var t := Service(InQueue(Completed), map[0 := JobRow(Queued, None)], [], map[0 := Scheduled], map[], map[0 := 0]);
    assert Enqueue(started.db, 0, Completed, 0, 1, None) == t.db;
    Next(started, FinishScored(0, Completed, 0, 1), t.(live := map[0 := Ending]));
  }

  lemma AfterFinish()
    ensures Reachable(Service(InQueue(Completed), map[0 := JobRow(Queued, None)], [], map[0 := Scheduled], map[], map[0 := 0]))
  {
    AfterQueueing();
    var t := Service(InQueue(Completed), map[0 := JobRow(Queued, None)], [], map[0 := Scheduled], map[], map[0 := 0]);
    assert map[0 := Ending] - {0} == map[];
    Next(t.(live := map[0 := Ending]), Abandon(0), t);
  }

  lemma FirstScore()
    ensures Reachable(Service(SCORED_50, map[0 := JobRow(Completed, None)], [FIRST], map[], map[], map[0 := 0]))
  {
    AfterFinish();
    AfterEvaluation(Completed, 0, None, [], map[], map[0 := 0]);
    AfterCommit(Completed, 0, None, [], map[], map[0 := 0], FIRST);
    assert [] + [FIRST] == [FIRST];
    AfterFinishJob(Completed, 0, None, [FIRST], map[], map[0 := 0], 50);
  }

  /** A prepared request deletes the finished jobs of the attempt and saves its score. */
  lemma AfterPrepare(s: System, q: nat)
    requires Reachable(s) && s.db.attempts.Keys == {0} && s.db.attempts[0] in {SCORED_50, SCORED_80} && q !in s.pending
    requires forall j :: j in s.db.jobs ==> s.db.jobs[j].attempt == 0 && s.db.jobs[j].status == Completed
    ensures Reachable(s.(db := s.db.(jobs := map[]),
                         pending := s.pending[q := Request(0, Completed, Previous(s.db.attempts[0].score, Completed))]))
  {
    var t := s.(db := s.db.(jobs := map[]),
                pending := s.pending[q := Request(0, Completed, Previous(s.db.attempts[0].score, Completed))]);
    assert RejudgeAccepted(s.db, 0);
    assert PrepareRejudge(s.db, 0).jobs == map[];
    Next(s, PrepareRequest(0, q, true), t);
  }

  /** A request is submitted as job `j` while the attempt is at rest. */
  lemma AfterSubmit(row: Attempt, previous: Previous, outbox: seq<Commit>, pending: map<nat, Request>, issued: map<JobId, AttemptId>, q: nat, j: JobId)
    requires row.run == 0 && row.execution in {Completed, Timeout, Failed} && row.executionDeadline == None && row.scoringDeadline == None
    requires q in pending && pending[q] == Request(0, row.execution, previous) && j !in issued
    requires Reachable(Service(row, map[], outbox, map[], pending, issued))
    ensures Reachable(Service(InQueue(row.execution), map[j := JobRow(Queued, Some(previous))], outbox, map[j := Scheduled], pending - {q}, issued[j := 0]))
  {
    var s := Service(row, map[], outbox, map[], pending, issued);
    QueuedRow(s.db, previous, j);
    Next(s, SubmitRequest(q, j, 1),
         Service(InQueue(row.execution), map[j := JobRow(Queued, Some(previous))], outbox, map[j := Scheduled], pending - {q}, issued[j := 0]));
  }

  lemma QueuedRow(db: Db, previous: Previous, j: JobId)
    requires db.attempts.Keys == {0} && db.jobs == map[] && db.attempts[0].run == 0 && db.attempts[0].execution in {Completed, Timeout, Failed}
    requires db.attempts[0].executionDeadline == None && db.attempts[0].scoringDeadline == None
    ensures EnqueueAccepted(db, 0, 1)
    ensures Enqueue(db, 0, db.attempts[0].execution, j, 1, Some(previous)) ==
            db.(attempts := map[0 := InQueue(db.attempts[0].execution)], jobs := map[j := JobRow(Queued, Some(previous))])
  {
  }

  /** Two requests save the score 50. */
  lemma TwoRequests()
    ensures Reachable(Service(SCORED_50, map[], [FIRST], map[], Pending(0)[1 := Request(0, Completed, SAVED)], map[0 := 0]))
  {
    FirstScore();
    var s := Service(SCORED_50, map[0 := JobRow(Completed, None)], [FIRST], map[], map[], map[0 := 0]);
    AfterPrepare(s, 0);
    var t := Service(SCORED_50, map[], [FIRST], map[], Pending(0), map[0 := 0]);
    AfterPrepare(t, 1);
  }

  /** The first of them commits 80. */
  lemma SecondScore()
    ensures Reachable(Service(SCORED_80, map[1 := JobRow(Completed, Some(SAVED))], [FIRST, SECOND], map[], Pending(1), map[0 := 0, 1 := 0]))
  {
    TwoRequests();
    var pending, issued := Pending(0)[1 := Request(0, Completed, SAVED)], map[0 := 0];
    AfterSubmit(SCORED_50, SAVED, [FIRST], pending, issued, 0, 1);
    assert pending - {0} == Pending(1);
    assert issued[1 := 0] == map[0 := 0, 1 := 0];
    AfterEvaluation(Completed, 1, Some(SAVED), [FIRST], Pending(1), map[0 := 0, 1 := 0]);
    assert Revisions([FIRST], 0) == {1} by {
      assert FIRST in [FIRST];
    }
    AfterCommit(Completed, 1, Some(SAVED), [FIRST], Pending(1), map[0 := 0, 1 := 0], SECOND);
    assert [FIRST] + [SECOND] == [FIRST, SECOND];
    AfterFinishJob(Completed, 1, Some(SAVED), [FIRST, SECOND], Pending(1), map[0 := 0, 1 := 0], 80);
  }

  lemma AfterFailure(outbox: seq<Commit>, j: JobId, pending: map<nat, Request>, issued: map<JobId, AttemptId>)
    requires Reachable(Service(Row(Completed, Scoring, Running, None), map[j := JobRow(Running, Some(SAVED))], outbox, map[j := Cleared], pending, issued))
    ensures Reachable(Service(Row(Completed, Completed, Failed, Some(50)), map[j := JobRow(Failed, Some(SAVED))], outbox, map[], pending, issued))
  {
    Next(Service(Row(Completed, Scoring, Running, None), map[j := JobRow(Running, Some(SAVED))], outbox, map[j := Cleared], pending, issued),
         FailJob(j, Failed),
         Service(Row(Completed, Completed, Failed, Some(50)), map[j := JobRow(Failed, Some(SAVED))], outbox, map[], pending, issued));
  }

  /** Three rejudge requests that overlap, one judge failure, no Stop, no crash: the attempt ends at rest
      with the score 50 while its latest committed score is 80. */
  lemma OverlappingRejudgesLoseAScore() returns (end: System)
    ensures Reachable(end)
    ensures 0 in end.db.attempts && !HasJobInFlight(end.db, 0)
    ensures end.db.attempts[0].score == Some(50) && Latest(end.db.outbox, 0) == Some(80)
  {
    SecondScore();
    var outbox, issued := [FIRST, SECOND], map[0 := 0, 1 := 0];
    AfterPrepare(Service(SCORED_80, map[1 := JobRow(Completed, Some(SAVED))], outbox, map[], Pending(1), issued), 2);
    var third := Pending(1)[2 := Request(0, Completed, Previous(Some(80), Completed))];
    AfterSubmit(SCORED_80, SAVED, outbox, third, issued, 1, 2);
    end := ThirdRequestFails(outbox, third - {1}, issued[2 := 0]);
  }

  lemma ThirdRequestFails(outbox: seq<Commit>, pending: map<nat, Request>, issued: map<JobId, AttemptId>) returns (end: System)
    requires outbox == [FIRST, SECOND]
    requires Reachable(Service(InQueue(Completed), map[2 := JobRow(Queued, Some(SAVED))], outbox, map[2 := Scheduled], pending, issued))
    ensures Reachable(end)
    ensures 0 in end.db.attempts && !HasJobInFlight(end.db, 0)
    ensures end.db.attempts[0].score == Some(50) && Latest(end.db.outbox, 0) == Some(80)
  {
    AfterEvaluation(Completed, 2, Some(SAVED), outbox, pending, issued);
    AfterFailure(outbox, 2, pending, issued);
    end := Service(Row(Completed, Completed, Failed, Some(50)), map[2 := JobRow(Failed, Some(SAVED))], outbox, map[], pending, issued);
  }
}
