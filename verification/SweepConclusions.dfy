/** The top-level status of an attempt and the scoring pass of the sweeper: the status is to keep the conclusion
    of the execution, whatever becomes of the scoring.  When it does, and that it never does. */
module SweepConclusions {
  import opened Statuses
  import opened AttemptTables
  import opened IsoTime
  import opened Convergence
  import opened ScoringProtocol
  import LostScore

  /** The status says what the execution axis concludes. */
  predicate ShowsConclusion(row: Attempt) {
    row.execution in {Completed, Timeout, Failed} && row.status == ExecutionProjection(row.execution)
  }

  /** A row swept for its scoring alone keeps its legacy status exactly if that status was closed; and it shows
      the conclusion of its execution afterwards exactly if it did before. */
  lemma LegacyStatusExact(row: Attempt, cutoff: string)
    requires ScoringOverdue(row, cutoff) && !ExecutionOverdue(row, cutoff)
    ensures SweptRow(row, cutoff).status == row.status <==> !OpenLegacy(row.status)
    ensures OpenLegacy(row.status) ==> SweptRow(row, cutoff).status == ScoringFailed
    ensures ShowsConclusion(SweptRow(row, cutoff)) <==> ShowsConclusion(row)
  {
  }

  /** In every reachable state the scoring pass meets only rows whose status is still `scoring`, so that each of
      them ends as `scoring_failed`: none keeps its status and none shows the conclusion of its execution,
      although the execution axis has it. */
  lemma SweptScoringLosesTheConclusion(steps: seq<Step>, a: AttemptId, cutoff: string)
    requires Runs(INITIAL, steps) && a in After(INITIAL, steps).db.attempts
    requires ScoringOverdue(After(INITIAL, steps).db.attempts[a], cutoff)
    ensures var row := After(INITIAL, steps).db.attempts[a];
            var swept := Sweep(After(INITIAL, steps).db, cutoff).attempts;
            && row.status == Scoring && a in swept
            && swept[a].status == ScoringFailed && swept[a].execution == row.execution && !OpenExecution(row.execution)
            && !ShowsConclusion(swept[a])
  {
    var db := After(INITIAL, steps).db;
    assert RowOk(db.attempts[a]) by {
      RunsKeepExecution(INITIAL, steps);
    }
    SweptRowLosesTheConclusion(db.attempts[a], cutoff);
    SweepIsRowwise(db, cutoff);
  }

  lemma SweptRowLosesTheConclusion(row: Attempt, cutoff: string)
    requires RowOk(row) && ScoringOverdue(row, cutoff)
    ensures var swept := SweptRow(row, cutoff);
            && row.status == Scoring && swept.status == ScoringFailed
            && swept.execution == row.execution && !OpenExecution(row.execution) && !ShowsConclusion(swept)
  {
  }

  function Started(row: Attempt, run: Status, job: Status, phase: Phase): System {
    System(Db(map[0 := row], map[0 := LostScore.JobRow(job, None)], [], [], map[0 := run]),
           map[], map[0 := phase], map[], {}, {}, map[0 := 0])
  }

  /** A row whose execution completed, with a deadline for its scoring. */
  function Late(status: Status, scoring: Status, deadline: string): Attempt {
    Attempt(0, status, Completed, scoring, None, None, Some(deadline))
  }

  lemma AfterClaim(deadline: string)
    ensures LostScore.Reachable(Started(Late(Scoring, Running, deadline), Running, Running, Claimed))
  {
    LostScore.AfterFinish();
    LostScore.Next(Started(LostScore.InQueue(Completed), Running, Queued, Scheduled), BeginJob(0, Some(deadline)),
                   Started(Late(Scoring, Running, deadline), Running, Running, Claimed));
  }

  lemma AfterSelection(deadline: string, cutoff: string)
    requires LexLess(deadline, cutoff)
    ensures LostScore.Reachable(Started(Late(Scoring, Running, deadline), Running, Running, Claimed).(lateScoring := {0}))
  {
    AfterClaim(deadline);
    var s := Started(Late(Scoring, Running, deadline), Running, Running, Claimed);
    assert ExpiredScoring(s.db.attempts, cutoff) == {0};
    LostScore.Next(s, SelectLateScoring(cutoff), s.(lateScoring := {0}));
  }

  lemma SweptTables(db: Db, deadline: string)
    requires db.attempts == map[0 := Late(Scoring, Running, deadline)] && db.runs == map[0 := Running]
    ensures ConvergeAttempts(db, {0}, SCORING_OVERDUE) ==
            db.(attempts := map[0 := Late(ScoringFailed, TimedOut, deadline)], runs := map[0 := Failed])
  {
    var converged := Converge(db.attempts, {0}, SCORING_OVERDUE);
    assert converged == map[0 := Late(ScoringFailed, TimedOut, deadline)];
    assert Touched(db.attempts, {0}) == {0};
    assert AttemptsOf(converged, 0) == {0};
    assert ProjectRun(converged, 0) == Some(Failed);
    assert Reproject(db.(attempts := converged), {0}).runs == map[0 := Failed];
  }

  lemma AfterSweep(deadline: string, cutoff: string)
    requires LexLess(deadline, cutoff)
    ensures LostScore.Reachable(Started(Late(ScoringFailed, TimedOut, deadline), Failed, Running, Claimed))
  {
    AfterSelection(deadline, cutoff);
    var s := Started(Late(Scoring, Running, deadline), Running, Running, Claimed).(lateScoring := {0});
    var t := Started(Late(ScoringFailed, TimedOut, deadline), Failed, Running, Claimed);
    assert t == s.(db := ConvergeAttempts(s.db, {0}, SCORING_OVERDUE), lateScoring := {}) by {
      SweptTables(s.db, deadline);
    }
    SweptState(s, t);
    LostScore.Next(s, SweepLateScoring, t);
  }

  lemma SweptState(s: System, t: System)
    requires t == s.(db := ConvergeAttempts(s.db, s.lateScoring, SCORING_OVERDUE), lateScoring := {})
    ensures Enabled(s, SweepLateScoring) && Apply(s, SweepLateScoring) == t
  {
  }

  /** An execution that completed, a claimed job, a deadline that passes: the attempt ends as `scoring_failed`
      and its run as `failed`, with nothing wrong in the execution. */
  lemma AConclusionIsLost(deadline: string, cutoff: string) returns (end: System)
    requires LexLess(deadline, cutoff)
    ensures LostScore.Reachable(end) && 0 in end.db.attempts && 0 in end.db.runs
    ensures end.db.attempts[0].execution == Completed && end.db.attempts[0].status == ScoringFailed
    ensures end.db.runs[0] == Failed && !ShowsConclusion(end.db.attempts[0])
  {
    AfterSweep(deadline, cutoff);
    end := Started(Late(ScoringFailed, TimedOut, deadline), Failed, Running, Claimed);
  }
}
