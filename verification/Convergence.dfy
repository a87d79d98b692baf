/** What convergence, Stop, the deadline sweep and the run projection guarantee, for every table
    content whatever, reachable or not. */
module Convergence {
  import opened Statuses
  import opened AttemptTables
  import opened IsoTime

  predicate Closed(row: Attempt) {
    !OpenLegacy(row.status) && !OpenExecution(row.execution) && !OpenScoring(row.scoring)
  }

  /** A policy that names a closed value for every axis. */
  predicate Closing(p: Policy) {
    && !OpenLegacy(p.status)
    && !OpenExecution(if p.execution.Some? then p.execution.value else p.status)
    && (p.scoring.Some? ==> !OpenScoring(p.scoring.value))
  }

  lemma CallersClose()
    ensures Closing(STOP) && Closing(EXECUTION_OVERDUE) && Closing(SCORING_OVERDUE)
  {
  }

  /** Convergence closes every listed row, keeps every axis that was closed, and touches nothing else:
      no score, no deadline, no other row, no job, no outbox row. */
  lemma ConvergenceCloses(db: Db, ids: set<AttemptId>, p: Policy)
    requires Closing(p)
    ensures var after := ConvergeAttempts(db, ids, p);
            && after.attempts.Keys == db.attempts.Keys
            && (after.jobs, after.outbox, after.judgeRuns) == (db.jobs, db.outbox, db.judgeRuns)
            && forall a :: a in db.attempts ==>
                 var old', new' := db.attempts[a], after.attempts[a];
                 && (a in ids ==> Closed(new'))
                 && (a !in ids || Closed(old') ==> new' == old')
                 && (!OpenLegacy(old'.status) ==> new'.status == old'.status)
                 && (!OpenExecution(old'.execution) ==> new'.execution == old'.execution)
                 && (!OpenScoring(old'.scoring) ==> new'.scoring == old'.scoring)
                 && new'.(status := old'.status, execution := old'.execution, scoring := old'.scoring) == old'
  {
  }

  /** First writer wins: once rows are converged, a second convergence under any policy changes
      nothing and reports nothing. */
  lemma FirstWriterWins(db: Db, ids: set<AttemptId>, again: set<AttemptId>, p: Policy, q: Policy)
    requires Closing(p) && again <= ids
    ensures var after := ConvergeAttempts(db, ids, p);
            ConvergeAttempts(after, again, q) == after && Touched(after.attempts, again) == {}
  {
    var after := ConvergeAttempts(db, ids, p);
    assert forall a :: a in again && a in after.attempts ==> Closed(after.attempts[a]);
    assert Touched(after.attempts, again) == {};
    assert Converge(after.attempts, again, q) == after.attempts;
    assert Reproject(after, {}).runs == after.runs;
  }

  /** The open rows of a set of runs are exactly the rows a convergence over those runs would report,
      and exactly the rows it would change. */
  lemma OpenRowsAreTheRowsToConverge(attempts: map<AttemptId, Attempt>, runs: set<RunId>, p: Policy)
    requires Closing(p)
    ensures var all := set a | a in attempts && attempts[a].run in runs;
            && OpenIn(attempts, runs) == Touched(attempts, all)
            && forall a :: a in OpenIn(attempts, runs) <==> a in all && Converge(attempts, all, p)[a] != attempts[a]
  {
  }

  // ---------- Stop ----------

  /** After a Stop nothing in the stopped runs is open on any axis; execution conclusions that existed
      are kept, and every other run is untouched. */
  lemma StopClosesEveryAxis(db: Db, runs: set<RunId>)
    ensures var after := StopRuns(db, runs);
            && OpenIn(after.attempts, runs) == {}
            && after.attempts.Keys == db.attempts.Keys
            && forall a :: a in db.attempts ==>
                 && (db.attempts[a].run !in runs ==> after.attempts[a] == db.attempts[a])
                 && (!OpenExecution(db.attempts[a].execution) ==> after.attempts[a].execution == db.attempts[a].execution)
                 && after.attempts[a].run == db.attempts[a].run
  {
    var cancelled := CancelScoring(db, runs);
    CallersClose();
    ConvergenceCloses(cancelled, OpenIn(cancelled.attempts, runs), STOP);
  }

  lemma StoppedJobsStayStopped(db: Db, runs: set<RunId>)
    ensures var after := StopRuns(db, runs);
            && (forall j :: StopsJob(after, j, runs) ==> after.jobs[j].cancelRequested && StopsJob(db, j, runs))
            && (forall a :: StopsScoringOf(after, a, runs) ==> StopsScoringOf(db, a, runs))
  {
    var after := StopRuns(db, runs);
    StopClosesEveryAxis(db, runs);
    forall j | StopsJob(after, j, runs)
      ensures after.jobs[j].cancelRequested && StopsJob(db, j, runs)
    {
      assert j in db.jobs && db.jobs[j].attempt == after.jobs[j].attempt;
    }
    forall a | StopsScoringOf(after, a, runs)
      ensures StopsScoringOf(db, a, runs)
    {
      var j :| j in after.jobs && StopsJob(after, j, runs) && after.jobs[j].attempt == a;
      assert StopsJob(db, j, runs) && db.jobs[j].attempt == a;
    }
  }

  /** What one row looks like after a Stop. */
  lemma StoppedRow(db: Db, runs: set<RunId>, a: AttemptId)
    requires a in db.attempts && StopsScoringOf(db, a, runs)
    ensures var row := StopRuns(db, runs).attempts[a];
            row.scoring == Cancelled && row.score == None && row.status != Scoring
  {
    var j :| j in db.jobs && StopsJob(db, j, runs) && db.jobs[j].attempt == a;
    StopClosesEveryAxis(db, runs);
    assert StopRuns(db, runs).attempts[a].run in runs;
    assert a !in OpenIn(StopRuns(db, runs).attempts, runs);
  }

  lemma NothingToConverge(db: Db, p: Policy)
    ensures ConvergeAttempts(db, {}, p) == db
  {
    assert Touched(db.attempts, {}) == {};
    assert Converge(db.attempts, {}, p) == db.attempts;
    assert Reproject(db, {}).runs == db.runs;
  }

  lemma CancellingAgain(db: Db, runs: set<RunId>)
    ensures CancelScoring(StopRuns(db, runs), runs) == StopRuns(db, runs)
  {
    var after := StopRuns(db, runs);
    var again := CancelScoring(after, runs);
    StoppedJobsStayStopped(db, runs);
    forall a | a in after.attempts && StopsScoringOf(after, a, runs)
      ensures again.attempts[a] == after.attempts[a]
    {
      StopClosesEveryAxis(db, runs);
      StoppedRow(db, runs, a);
    }
    forall j | j in after.jobs
      ensures again.jobs[j] == after.jobs[j]
    {
      assert after.jobs[j] == CancelScoring(db, runs).jobs[j];
    }
    assert again.attempts == after.attempts;
    assert again.jobs == after.jobs;
  }

  /** A repeated Stop changes nothing at all. */
  lemma StopIsIdempotent(db: Db, runs: set<RunId>)
    ensures StopRuns(StopRuns(db, runs), runs) == StopRuns(db, runs)
  {
    CancellingAgain(db, runs);
    StopClosesEveryAxis(db, runs);
    NothingToConverge(StopRuns(db, runs), STOP);
  }

  // ---------- the run projection ----------

  predicate Terminal(s: Status) {
    s in {Completed, Cancelled, Failed}
  }

  /** When a run is projected to each of its statuses. */
  lemma ProjectionMeaning(attempts: map<AttemptId, Attempt>, r: RunId)
    ensures var p, ids := ProjectRun(attempts, r), AttemptsOf(attempts, r);
            && (p.None? <==> ids == {})
            && (p == Some(Running) <==> exists a :: a in ids && InFlight(attempts[a].execution))
            && (p == Some(Scoring) <==>
                  && (forall a :: a in ids ==> !InFlight(attempts[a].execution))
                  && exists a :: a in ids && InFlight(attempts[a].scoring))
            && (p.Some? && Terminal(p.value) <==> ids != {} && forall a :: a in ids ==>
                  !InFlight(attempts[a].execution) && !InFlight(attempts[a].scoring))
            && (p.Some? && Terminal(p.value) ==>
                  && (p.value == Completed <==> forall a :: a in ids ==> attempts[a].status in {Completed, GaveUp})
                  && (p.value == Cancelled <==>
                        && (exists a :: a in ids && attempts[a].status == Cancelled)
                        && (forall a :: a in ids ==> attempts[a].status in {Completed, GaveUp, Cancelled})))
  {
    var ids := AttemptsOf(attempts, r);
    if ids != {} {
      var witness' :| witness' in ids;
    }
  }

  /** One write to an attempt row, or one refresh of the run an attempt belongs to. */
  datatype Event = Write(a: AttemptId, row: Attempt) | Project(a: AttemptId)

  function Play(db: Db, events: seq<Event>): Db {
    if events == [] then db
    else
      var before := Play(db, events[..|events| - 1]);
      match events[|events| - 1]
      case Write(a, row) => before.(attempts := before.attempts[a := row])
      case Project(a) => Refresh(before, a)
  }

  function Writes(attempts: map<AttemptId, Attempt>, events: seq<Event>): map<AttemptId, Attempt> {
    if events == [] then attempts
    else
      var before := Writes(attempts, events[..|events| - 1]);
      match events[|events| - 1]
      case Write(a, row) => before[a := row]
      case Project(_) => before
  }

  lemma {:induction false} PlayedAttempts(db: Db, events: seq<Event>)
    ensures Play(db, events).attempts == Writes(db.attempts, events)
    ensures Play(db, events).runs.Keys == db.runs.Keys
  {
    if events != [] {
      PlayedAttempts(db, events[..|events| - 1]);
    }
  }

  /** The projection forgets its history: however refreshes are interleaved with the writes, a run
      whose attempt is refreshed last has the status of its final rows alone. */
  lemma ProjectionForgetsHistory(db: Db, events: seq<Event>, a: AttemptId, earlier: map<RunId, Status>)
    requires a in Writes(db.attempts, events)
    requires Writes(db.attempts, events)[a].run in db.runs && earlier.Keys == db.runs.Keys
    ensures Play(db, events + [Project(a)]).runs.Keys == db.runs.Keys
    ensures var rows := Writes(db.attempts, events);
            var r := rows[a].run;
            && Some(Play(db, events + [Project(a)]).runs[r]) == ProjectRun(rows, r)
            && Play(db, events + [Project(a)]).runs[r] == Refresh(db.(attempts := rows, runs := earlier), a).runs[r]
  {
    PlayedAttempts(db, events);
    var all := events + [Project(a)];
    assert all[..|all| - 1] == events;
    var rows := Writes(db.attempts, events);
    PlayedAttempts(db, all);
    assert a in AttemptsOf(rows, rows[a].run);
  }

  /** A Stop that converges at least one attempt of a run leaves that run terminal and equal to its
      projection; a run in which it converges none keeps the status it had. */
  lemma StopProjectsConvergedRuns(db: Db, runs: set<RunId>, r: RunId)
    requires r in db.runs && r in runs
    ensures var after := StopRuns(db, runs);
            var converged := exists a :: a in OpenIn(CancelScoring(db, runs).attempts, runs) && db.attempts[a].run == r;
            && (converged ==> Some(after.runs[r]) == ProjectRun(after.attempts, r) && Terminal(after.runs[r]))
            && (!converged ==> after.runs[r] == db.runs[r])
  {
    var cancelled := CancelScoring(db, runs);
    var ids := OpenIn(cancelled.attempts, runs);
    var after := StopRuns(db, runs);
    assert Touched(cancelled.attempts, ids) == ids;
    if a :| a in ids && db.attempts[a].run == r {
      assert a in AttemptsOf(after.attempts, r);
      StoppedRunIsTerminal(db, runs, r, a);
    }
  }

  /** After a Stop a run shows the projection of its attempts exactly if the Stop converged one of them or the run
      showed that projection before. */
  lemma StopProjectsExactly(db: Db, runs: set<RunId>, r: RunId)
    requires r in db.runs && r in runs
    ensures var after := StopRuns(db, runs);
            var converged := exists a :: a in OpenIn(CancelScoring(db, runs).attempts, runs) && db.attempts[a].run == r;
            Some(after.runs[r]) == ProjectRun(after.attempts, r) <==> converged || Some(db.runs[r]) == ProjectRun(after.attempts, r)
  {
    StopProjectsConvergedRuns(db, runs, r);
  }

  lemma StoppedRunIsTerminal(db: Db, runs: set<RunId>, r: RunId, a: AttemptId)
    requires r in runs && a in AttemptsOf(StopRuns(db, runs).attempts, r)
    ensures ProjectRun(StopRuns(db, runs).attempts, r).Some? && Terminal(ProjectRun(StopRuns(db, runs).attempts, r).value)
  {
    var after := StopRuns(db, runs);
    StopClosesEveryAxis(db, runs);
    ProjectionMeaning(after.attempts, r);
    forall b | b in AttemptsOf(after.attempts, r)
      ensures Closed(after.attempts[b])
    {
      assert b !in OpenIn(after.attempts, runs);
    }
  }

  /** The documentation promises that every Stop rebuilds the projections.  When the only open work of
      a run is scoring that still has its job, cancelling the scoring closes the rows, so nothing is
      left to converge and the run keeps its old status although its rows are all closed. */
  lemma StopOfScoringAloneKeepsRunStatus(db: Db, runs: set<RunId>, r: RunId)
    requires r in db.runs && r in runs && AttemptsOf(db.attempts, r) != {}
    requires forall a :: a in AttemptsOf(db.attempts, r) ==>
               Closed(db.attempts[a]) ||
               (StopsScoringOf(db, a, runs) && db.attempts[a].status == Scoring && !OpenExecution(db.attempts[a].execution))
    ensures var after := StopRuns(db, runs);
            && after.runs[r] == db.runs[r]
            && ProjectRun(after.attempts, r).Some? && Terminal(ProjectRun(after.attempts, r).value)
  {
    StopProjectsConvergedRuns(db, runs, r);
    var a :| a in AttemptsOf(db.attempts, r);
    assert a in AttemptsOf(StopRuns(db, runs).attempts, r);
    StoppedRunIsTerminal(db, runs, r, a);
  }

  // ---------- the deadline sweep ----------

  /** Every deadline column holds a timestamp some writer rendered. */
  ghost predicate Stamped(attempts: map<AttemptId, Attempt>) {
    forall a :: a in attempts ==> StampedColumn(attempts[a].executionDeadline) && StampedColumn(attempts[a].scoringDeadline)
  }

  ghost predicate StampedColumn(column: Option<string>) {
    column.Some? ==> exists d: Stamp :: Valid(d) && column.value == Render(d)
  }

  /** Past the deadline by more than the grace period, a fraction counting from the start of its second. */
  ghost predicate Overdue(column: Option<string>, now: Stamp, grace: nat)
    requires Valid(now)
  {
    column.Some? && exists d: Stamp ::
      Valid(d) && column.value == Render(d) && Seconds(d) + grace < Seconds(now) + (if d.micros.Some? then 1 else 0)
  }

  lemma OverdueIsBeforeCutoff(column: Option<string>, now: Stamp, cutoff: Stamp, grace: nat)
    requires Valid(now) && Valid(cutoff) && cutoff.micros.None? && Seconds(cutoff) + grace == Seconds(now)
    requires StampedColumn(column)
    ensures column.Some? && LexLess(column.value, Render(cutoff)) <==> Overdue(column, now, grace)
  {
    if column.Some? {
      forall d: Stamp | Valid(d) && column.value == Render(d)
        ensures LexLess(column.value, Render(cutoff)) <==> Seconds(d) + grace < Seconds(now) + (if d.micros.Some? then 1 else 0)
      {
        DeadlineBeforeCutoff(d, cutoff);
      }
    }
  }

  /** One row through both passes of the sweep. */
  function SweptRow(row: Attempt, cutoff: string): Attempt {
    var first := if ExecutionOverdue(row, cutoff) then ConvergeRow(row, EXECUTION_OVERDUE) else row;
    if ScoringOverdue(first, cutoff) then ConvergeRow(first, SCORING_OVERDUE) else first
  }

  /** What a sweep means for one row, given which of its running axes are past their deadline. */
  predicate SweptAsPromised(before: Attempt, after: Attempt, late: bool, slow: bool) {
    && (after != before <==> late || slow)
    && (late || slow ==> Closed(after))
    && (late || slow ==>
          after.status == if before.status !in {Queued, StartingSession, Running, Scoring} then before.status
                          else if late then Timeout else ScoringFailed)
    && (late ==> after.execution == Timeout
                 && after.scoring == if before.scoring in {NotReady, Queued, Running} then Skipped else before.scoring)
    && (slow && !late ==>
          && after.scoring == TimedOut
          && after.execution == if before.execution in {Queued, Running} then ScoringFailed else before.execution)
    && after.(status := before.status, execution := before.execution, scoring := before.scoring) == before
  }

  lemma SweptRowAsPromised(row: Attempt, cutoff: string)
    ensures SweptAsPromised(row, SweptRow(row, cutoff), ExecutionOverdue(row, cutoff), ScoringOverdue(row, cutoff))
    ensures !ExecutionOverdue(SweptRow(row, cutoff), cutoff) && !ScoringOverdue(SweptRow(row, cutoff), cutoff)
  {
  }

  lemma SweepIsRowwise(db: Db, cutoff: string)
    ensures Sweep(db, cutoff).attempts.Keys == db.attempts.Keys
    ensures forall a :: a in db.attempts ==> Sweep(db, cutoff).attempts[a] == SweptRow(db.attempts[a], cutoff)
  {
  }

  ghost predicate LateExecution(row: Attempt, now: Stamp, grace: nat)
    requires Valid(now)
  {
    row.execution == Running && Overdue(row.executionDeadline, now, grace)
  }

  ghost predicate LateScoring(row: Attempt, now: Stamp, grace: nat)
    requires Valid(now)
  {
    row.scoring == Running && Overdue(row.scoringDeadline, now, grace)
  }

  /** After a sweep no running axis is past its deadline plus the grace period; the rows changed are
      exactly the rows with such an axis; an execution timeout comes only from an execution deadline,
      and the scoring pass keeps closed execution conclusions. */
  lemma SweepIsExact(db: Db, now: Stamp, cutoff: Stamp, grace: nat)
    requires Valid(now) && Valid(cutoff) && cutoff.micros.None? && Seconds(cutoff) + grace == Seconds(now)
    requires Stamped(db.attempts)
    ensures Sweep(db, Render(cutoff)).attempts.Keys == db.attempts.Keys
    ensures forall a :: a in db.attempts ==>
              var before, after := db.attempts[a], Sweep(db, Render(cutoff)).attempts[a];
              && SweptAsPromised(before, after, LateExecution(before, now, grace), LateScoring(before, now, grace))
              && !LateExecution(after, now, grace) && !LateScoring(after, now, grace)
  {
    var c := Render(cutoff);
    SweepIsRowwise(db, c);
    forall a | a in db.attempts
      ensures SweptAsPromised(db.attempts[a], Sweep(db, c).attempts[a], LateExecution(db.attempts[a], now, grace),
                              LateScoring(db.attempts[a], now, grace))
      ensures !LateExecution(Sweep(db, c).attempts[a], now, grace) && !LateScoring(Sweep(db, c).attempts[a], now, grace)
    {
      var row := db.attempts[a];
      SweptRowAsPromised(row, c);
      OverdueIsBeforeCutoff(row.executionDeadline, now, cutoff, grace);
      OverdueIsBeforeCutoff(row.scoringDeadline, now, cutoff, grace);
    }
  }
}
