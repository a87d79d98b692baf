/** The already-committed branch of the worker: it completes the job and leaves the attempt's row as the claim
    wrote it.  What closes a scoring axis over any run, and who ever closes this one. */
module SkippedCommits {
  import opened Statuses
  import opened AttemptTables
  import opened ScoringProtocol
  import opened CommitHistory
  import opened RejudgeConditions
  import RejudgedViolations
  import LostScore

  // ---------- the scoring axis over any run ----------

  predicate Axis(s: System, a: AttemptId)
    requires a in s.db.attempts
  {
    InFlight(s.db.attempts[a].scoring)
  }

  /** The worker steps that end the scoring of `a`: failures, completions and commits of its jobs. */
  predicate WorkerCloses(s: System, step: Step, a: AttemptId)
    requires WorkerStep(step) && WorkerEnabled(s, step)
  {
    var j := step.j;
    if step.CommitJob? || step.OrphanCommits? then s.issued[j] == a && CommitAccepted(s.db, a, Some(j))
    else
      && j in s.db.jobs && s.db.jobs[j].attempt == a
      && (step.SeeCancelled? || step.FailJob? || step.FinishJob? || (step.InterruptJob? && JobCancelled(s.db, j)))
  }

  /** A Stop of its jobs or a convergence that lists the attempt. */
  predicate Halts(s: System, step: Step, a: AttemptId) {
    match step
    case StopScoring(runs) => StopsScoringOf(s.db, a, runs)
    case StopAttempts(ids) => a in ids
    case SweepLateExecution => a in s.lateExecution
    case SweepLateScoring => a in s.lateScoring
    case _ => false
  }

  predicate Closes(s: System, step: Step, a: AttemptId)
    requires Enabled(s, step)
  {
    if WorkerStep(step) then WorkerCloses(s, step, a)
    else
      || Halts(s, step, a)
      || ((step.FinishUnscored? || step.FinishInline?) && step.a == a)
      || (step.RecoverAttempt? && step.a == a && step.fate.Interrupt?)
  }

  predicate WorkerOpens(s: System, step: Step, a: AttemptId)
    requires WorkerStep(step)
  {
    (step.BeginJob? || (step.LoseJob? && step.claimed)) && ClaimAccepted(s.db, step.j) && s.db.jobs[step.j].attempt == a
  }

  /** A claim or a submission that takes effect. */
  predicate Opens(s: System, step: Step, a: AttemptId)
    requires Enabled(s, step)
  {
    if WorkerStep(step) then WorkerOpens(s, step, a)
    else match step
    case FinishScored(b, _, _, version) => b == a && EnqueueAccepted(s.db, a, version)
    case SubmitRequest(q, _, version) => s.pending[q].attempt == a && EnqueueAccepted(s.db, a, version)
    case _ => false
  }

  predicate Moved(before: bool, closes: bool, opens: bool) {
    if closes then false else if opens then true else before
  }

  lemma CommitMovesAxis(s: System, step: Step, a: AttemptId)
    requires (step.CommitJob? || step.OrphanCommits?) && WorkerEnabled(s, step) && a in s.db.attempts
    ensures a in WorkerTables(s, step).attempts
    ensures InFlight(WorkerTables(s, step).attempts[a].scoring) == Moved(Axis(s, a), WorkerCloses(s, step, a), false)
  {
  }

  lemma FailureMovesAxis(db: Db, j: JobId, status: Status, a: AttemptId)
    requires a in db.attempts && !InFlight(status)
    ensures a in FinishFailure(db, j, status).attempts
    ensures InFlight(FinishFailure(db, j, status).attempts[a].scoring) ==
            Moved(InFlight(db.attempts[a].scoring), j in db.jobs && db.jobs[j].attempt == a, false)
  {
  }

  lemma WorkerMovesAxis(s: System, step: Step, a: AttemptId)
    requires WorkerStep(step) && WorkerEnabled(s, step) && a in s.db.attempts
    ensures a in WorkerTables(s, step).attempts
    ensures InFlight(WorkerTables(s, step).attempts[a].scoring) == Moved(Axis(s, a), WorkerCloses(s, step, a), WorkerOpens(s, step, a))
  {
    if step.CommitJob? || step.OrphanCommits? {
      CommitMovesAxis(s, step, a);
    } else if step.FailJob? {
      FailureMovesAxis(s.db, step.j, step.status, a);
    } else if step.SeeCancelled? || (step.InterruptJob? && JobCancelled(s.db, step.j)) {
      FailureMovesAxis(s.db, step.j, Cancelled, a);
    }
  }

  lemma DispatchMovesAxis(s: System, step: Step, a: AttemptId)
    requires DispatchStep(step) && DispatchEnabled(s, step) && a in s.db.attempts
    ensures a in ApplyDispatch(s, step).db.attempts
    ensures Axis(ApplyDispatch(s, step), a) == Moved(Axis(s, a), Closes(s, step, a), Opens(s, step, a))
  {
  }

  lemma SweepingMovesAxis(s: System, step: Step, a: AttemptId)
    requires SweepingStep(step) && a in s.db.attempts
    ensures a in ApplySweeping(s, step).db.attempts
    ensures Axis(ApplySweeping(s, step), a) == Moved(Axis(s, a), Closes(s, step, a), Opens(s, step, a))
  {
  }

  lemma OtherMovesAxis(s: System, step: Step, a: AttemptId)
    requires !WorkerStep(step) && !DispatchStep(step) && !SweepingStep(step) && Enabled(s, step) && a in s.db.attempts
    ensures a in ApplyOther(s, step).db.attempts
    ensures Axis(ApplyOther(s, step), a) == Moved(Axis(s, a), Closes(s, step, a), Opens(s, step, a))
  {
    if step.SubmitRequest? {
      var p := s.pending[step.q];
      assert ApplyOther(s, step).db == Enqueue(s.db, p.attempt, p.adapter, step.j, step.version, Some(p.previous));
    }
  }

  /** One step, from any state whatever. */
  lemma StepMovesAxis(s: System, step: Step, a: AttemptId)
    requires Enabled(s, step) && a in s.db.attempts
    ensures a in Apply(s, step).db.attempts
    ensures Axis(Apply(s, step), a) == Moved(Axis(s, a), Closes(s, step, a), Opens(s, step, a))
  {
    if WorkerStep(step) {
      WorkerMovesAxis(s, step, a);
    } else if DispatchStep(step) {
      DispatchMovesAxis(s, step, a);
    } else if SweepingStep(step) {
      SweepingMovesAxis(s, step, a);
    } else {
      OtherMovesAxis(s, step, a);
    }
  }

  /** What the moves of a run leave of the axis. */
  predicate LeftOpen(s: System, steps: seq<Step>, a: AttemptId, open: bool)
    requires Runs(s, steps)
    decreases |steps|
  {
    if steps == [] then open
    else LeftOpen(Apply(s, steps[0]), steps[1..], a, Moved(open, Closes(s, steps[0], a), Opens(s, steps[0], a)))
  }

  /** Over any run from any state: the scoring axis is in flight exactly if the last transaction that moved it
      was a claim or a submission and not one of those that close it. */
  lemma {:induction false} ScoringAxisExactly(s: System, steps: seq<Step>, a: AttemptId)
    requires Runs(s, steps) && a in s.db.attempts
    ensures a in After(s, steps).db.attempts
    ensures Axis(After(s, steps), a) == LeftOpen(s, steps, a, Axis(s, a))
    decreases |steps|
  {
    if steps != [] {
      StepMovesAxis(s, steps[0], a);
      ScoringAxisExactly(Apply(s, steps[0]), steps[1..], a);
    }
  }

  // ---------- between the claim and the skip ----------

  /** Nobody executes, asks for or works on `a`, except the worker of `j` if one is named. */
  predicate Quiet(s: System, a: AttemptId, j: Option<JobId>) {
    && a !in s.live
    && (forall q :: q in s.pending ==> s.pending[q].attempt != a)
    && (forall k :: k in s.workers ==> k in s.issued && (s.issued[k] == a ==> Some(k) == j))
    && (forall k :: k in s.db.jobs && s.db.jobs[k].attempt == a && InFlight(s.db.jobs[k].status) ==> Some(k) == j)
  }

  predicate Alone(s: System, a: AttemptId, j: Option<JobId>) {
    && Owned(s) && ExecutionInvariant(s)
    && a in s.db.attempts && !OpenExecution(s.db.attempts[a].execution)
    && Quiet(s, a, j)
  }

  lemma WorkerKeepsQuiet(s: System, step: Step, a: AttemptId, j: Option<JobId>)
    requires Owned(s) && Quiet(s, a, j) && WorkerStep(step) && Enabled(s, step) && Some(step.j) != j
    ensures Quiet(Apply(s, step), a, j)
  {
    WorkerWritesItsOwn(s, step);
  }

  lemma DispatchKeepsQuiet(s: System, step: Step, a: AttemptId, j: Option<JobId>)
    requires Owned(s) && Quiet(s, a, j) && a in s.db.attempts && DispatchStep(step) && DispatchEnabled(s, step)
    ensures Quiet(ApplyDispatch(s, step), a, j)
  {
  }

  lemma SweepingKeepsQuiet(s: System, step: Step, a: AttemptId, j: Option<JobId>)
    requires Quiet(s, a, j) && SweepingStep(step)
    ensures Quiet(ApplySweeping(s, step), a, j)
  {
  }

  lemma RequestKeepsQuiet(s: System, step: Step, a: AttemptId, j: Option<JobId>)
    requires Quiet(s, a, j) && (step.PrepareRequest? || step.SubmitRequest?) && OtherEnabled(s, step) && !RejudgeAccepted(s.db, a)
    ensures Quiet(ApplyOther(s, step), a, j)
  {
  }

  lemma RestartKeepsQuiet(s: System, step: Step, a: AttemptId, j: Option<JobId>)
    requires Owned(s) && Quiet(s, a, j) && a in s.db.attempts && !Stale(s.db.attempts[a].status)
    requires (step.Crash? || step.RecoverJobs? || step.RecoverAttempt?) && OtherEnabled(s, step)
    ensures Quiet(ApplyOther(s, step), a, j)
  {
  }

  lemma StepKeepsAlone(s: System, step: Step, a: AttemptId, j: Option<JobId>)
    requires Alone(s, a, j) && Enabled(s, step) && !RejudgeAccepted(s.db, a)
    requires WorkerStep(step) ==> Some(step.j) != j
    ensures Alone(Apply(s, step), a, j)
  {
    assert RowOk(s.db.attempts[a]);
    StepKeepsExecution(s, step);
    RejudgedViolations.StepKeepsOwners(s, step);
    if WorkerStep(step) {
      WorkerKeepsQuiet(s, step, a, j);
    } else if DispatchStep(step) {
      DispatchKeepsQuiet(s, step, a, j);
    } else if SweepingStep(step) {
      SweepingKeepsQuiet(s, step, a, j);
    } else if step.PrepareRequest? || step.SubmitRequest? {
      RequestKeepsQuiet(s, step, a, j);
    } else {
      RestartKeepsQuiet(s, step, a, j);
    }
  }

  lemma OtherWorkersMoveNothing(s: System, step: Step, a: AttemptId)
    requires Owned(s) && WorkerStep(step) && WorkerEnabled(s, step) && step.j in s.issued && s.issued[step.j] != a
    ensures !WorkerCloses(s, step, a) && !WorkerOpens(s, step, a)
  {
  }

  /** Among the steps of others only a Stop or a sweep closes the axis, and none opens it. */
  lemma OnlyHaltsClose(s: System, step: Step, a: AttemptId, j: Option<JobId>)
    requires Alone(s, a, j) && Enabled(s, step) && (WorkerStep(step) ==> Some(step.j) != j)
    ensures Closes(s, step, a) <==> Halts(s, step, a)
    ensures !Opens(s, step, a)
  {
    if WorkerStep(step) {
      OtherWorkersMoveNothing(s, step, a);
    } else {
      assert RowOk(s.db.attempts[a]);
    }
  }

  /** A Stop or a sweep that reaches the attempt somewhere in the run. */
  predicate EverHalts(s: System, steps: seq<Step>, a: AttemptId)
    requires Runs(s, steps)
    decreases |steps|
  {
    steps != [] && (Halts(s, steps[0], a) || EverHalts(Apply(s, steps[0]), steps[1..], a))
  }

  /** The worker of `j` has claimed it and is about to look whether it is committed. */
  predicate Claiming(s: System, a: AttemptId, j: JobId) {
    Alone(s, a, Some(j)) && JobRuns(s, a, j)
  }

  /** No step of the worker of `j`, and no crash that ends it. */
  predicate Others(steps: seq<Step>, j: JobId) {
    forall i :: 0 <= i < |steps| ==> !steps[i].Crash? && (WorkerStep(steps[i]) ==> steps[i].j != j)
  }

  /** The running job of `a` is as it was, up to the mark of a Stop. */
  predicate JobRuns(t: System, a: AttemptId, j: JobId) {
    At(t, j, {Claimed}) && j in t.db.jobs && t.db.jobs[j].attempt == a && t.db.jobs[j].status == Running
  }

  lemma WorkersKeepJob(s: System, step: Step, a: AttemptId, j: JobId)
    requires Claiming(s, a, j) && WorkerStep(step) && WorkerEnabled(s, step) && step.j != j
    ensures JobRuns(Apply(s, step), a, j)
  {
    assert WritesOnly(s.db, WorkerTables(s, step), step.j, OwnerOf(s, step.j)) by {
      WorkerWritesItsOwn(s, step);
    }
    assert Apply(s, step).db.jobs[j] == s.db.jobs[j];
    assert j in Apply(s, step).workers && Apply(s, step).workers[j] == s.workers[j];
  }

  lemma DispatchKeepsJob(s: System, step: Step, a: AttemptId, j: JobId)
    requires Claiming(s, a, j) && DispatchStep(step) && DispatchEnabled(s, step)
    ensures JobRuns(ApplyDispatch(s, step), a, j)
  {
  }

  lemma SweepingKeepsJob(s: System, step: Step, a: AttemptId, j: JobId)
    requires Claiming(s, a, j) && SweepingStep(step)
    ensures JobRuns(ApplySweeping(s, step), a, j)
  {
  }

  lemma RestKeepsJob(s: System, step: Step, a: AttemptId, j: JobId)
    requires Claiming(s, a, j) && !WorkerStep(step) && !DispatchStep(step) && !SweepingStep(step) && OtherEnabled(s, step) && !step.Crash?
    ensures JobRuns(ApplyOther(s, step), a, j)
  {
    if step.PrepareRequest? && step.a == a {
      assert HasJobInFlight(s.db, a);
    }
  }

  lemma OthersKeepJob(s: System, step: Step, a: AttemptId, j: JobId)
    requires Claiming(s, a, j) && Enabled(s, step) && !step.Crash? && (WorkerStep(step) ==> step.j != j)
    ensures JobRuns(Apply(s, step), a, j)
  {
    if WorkerStep(step) {
      WorkersKeepJob(s, step, a, j);
    } else if DispatchStep(step) {
      DispatchKeepsJob(s, step, a, j);
    } else if SweepingStep(step) {
      SweepingKeepsJob(s, step, a, j);
    } else {
      RestKeepsJob(s, step, a, j);
    }
  }

  lemma StepKeepsClaiming(s: System, step: Step, a: AttemptId, j: JobId)
    requires Claiming(s, a, j) && Enabled(s, step) && !step.Crash? && (WorkerStep(step) ==> step.j != j)
    ensures Claiming(Apply(s, step), a, j)
  {
    assert HasJobInFlight(s.db, a);
    StepKeepsAlone(s, step, a, Some(j));
    OthersKeepJob(s, step, a, j);
  }

  lemma {:induction false} HaltedSinceClaim(s: System, steps: seq<Step>, a: AttemptId, j: JobId)
    requires Claiming(s, a, j) && Runs(s, steps) && Others(steps, j)
    ensures Claiming(After(s, steps), a, j)
    ensures Axis(After(s, steps), a) <==> Axis(s, a) && !EverHalts(s, steps, a)
    decreases |steps|
  {
    if steps != [] {
      StepKeepsClaiming(s, steps[0], a, j);
      StepMovesAxis(s, steps[0], a);
      OnlyHaltsClose(s, steps[0], a, Some(j));
      HaltedSinceClaim(Apply(s, steps[0]), steps[1..], a, j);
    }
  }

  /** A claim, any steps of others, and the already-committed branch: the job is completed, and the scoring axis
      is closed exactly if a Stop or a sweep closed it since the claim; the branch itself closes nothing.
      While it stays open every rejudge is refused. */
  lemma SkipClosesNothing(s: System, j: JobId, deadline: Option<string>, steps: seq<Step>)
    requires Enabled(s, BeginJob(j, deadline)) && ClaimAccepted(s.db, j)
    requires Alone(s, s.db.jobs[j].attempt, Some(j))
    requires var t := Apply(s, BeginJob(j, deadline));
             Runs(t, steps) && Others(steps, j) && Enabled(After(t, steps), SkipCommitted(j))
    ensures var a, t := s.db.jobs[j].attempt, Apply(s, BeginJob(j, deadline));
            var end := Apply(After(t, steps), SkipCommitted(j));
            && a in end.db.attempts && j in end.db.jobs && end.db.jobs[j].status == Completed
            && (Axis(end, a) <==> !EverHalts(t, steps, a))
            && Alone(end, a, None)
            && (Axis(end, a) ==> HeldUp(end, a))
  {
    var a, t := s.db.jobs[j].attempt, Apply(s, BeginJob(j, deadline));
    ClaimStarts(s, j, deadline);
    HaltedSinceClaim(t, steps, a, j);
    SkipEnds(After(t, steps), a, j);
  }

  lemma ClaimStarts(s: System, j: JobId, deadline: Option<string>)
    requires Enabled(s, BeginJob(j, deadline)) && ClaimAccepted(s.db, j) && Alone(s, s.db.jobs[j].attempt, Some(j))
    ensures Claiming(Apply(s, BeginJob(j, deadline)), s.db.jobs[j].attempt, j)
    ensures Axis(Apply(s, BeginJob(j, deadline)), s.db.jobs[j].attempt)
  {
    var t, a := Apply(s, BeginJob(j, deadline)), s.db.jobs[j].attempt;
    assert t.db == Claim(s.db, j, deadline);
    assert ExecutionInvariant(t) by {
      StepKeepsExecution(s, BeginJob(j, deadline));
    }
    assert Owned(t) by {
      RejudgedViolations.StepKeepsOwners(s, BeginJob(j, deadline));
    }
  }

  lemma SkipEnds(s: System, a: AttemptId, j: JobId)
    requires Claiming(s, a, j) && Enabled(s, SkipCommitted(j))
    ensures var t := Apply(s, SkipCommitted(j));
            && Alone(t, a, None) && j in t.db.jobs && t.db.jobs[j].status == Completed
            && t.db.attempts == s.db.attempts
  {
    StepKeepsExecution(s, SkipCommitted(j));
    RejudgedViolations.StepKeepsOwners(s, SkipCommitted(j));
  }

  // ---------- from the skip on ----------

  /** In flight on the scoring axis, and nobody at work on it. */
  predicate HeldUp(s: System, a: AttemptId) {
    Alone(s, a, None) && Axis(s, a)
  }

  /** Held up in every state of the run, with every rejudge refused. */
  predicate HeldThroughout(s: System, steps: seq<Step>, a: AttemptId)
    requires Runs(s, steps)
    decreases |steps|
  {
    && a in s.db.attempts && Axis(s, a) && !RejudgeAccepted(s.db, a)
    && (steps == [] || HeldThroughout(Apply(s, steps[0]), steps[1..], a))
  }

  lemma StepHoldsUp(s: System, step: Step, a: AttemptId)
    requires HeldUp(s, a) && Enabled(s, step)
    ensures Alone(Apply(s, step), a, None)
    ensures Axis(Apply(s, step), a) <==> !Halts(s, step, a)
  {
    StepKeepsAlone(s, step, a, None);
    StepMovesAxis(s, step, a);
    OnlyHaltsClose(s, step, a, None);
  }

  /** Over every run from there: the axis stays in flight and every rejudge is refused exactly until a Stop or a
      sweep reaches the attempt.  No restart, no other attempt's worker and no request does it. */
  lemma {:induction false} HeldUntilHalted(s: System, steps: seq<Step>, a: AttemptId)
    requires HeldUp(s, a) && Runs(s, steps)
    ensures HeldThroughout(s, steps, a) <==> !EverHalts(s, steps, a)
    ensures !EverHalts(s, steps, a) ==> HeldUp(After(s, steps), a)
    decreases |steps|
  {
    if steps != [] {
      StepHoldsUp(s, steps[0], a);
      if Halts(s, steps[0], a) {
        assert !HeldThroughout(Apply(s, steps[0]), steps[1..], a);
      } else {
        HeldUntilHalted(Apply(s, steps[0]), steps[1..], a);
      }
    }
  }

  /** The halt frees the attempt: a rejudge is accepted from then on unless the execution was cancelled. */
  lemma HaltFrees(s: System, step: Step, a: AttemptId)
    requires HeldUp(s, a) && Enabled(s, step) && Halts(s, step, a)
    ensures var t := Apply(s, step);
            a in t.db.attempts && (RejudgeAccepted(t.db, a) <==> t.db.attempts[a].execution != Cancelled)
  {
    var t := Apply(s, step);
    StepHoldsUp(s, step, a);
    assert ExecutionValue(t.db.attempts[a].execution) by {
      assert RowOk(t.db.attempts[a]);
    }
    assert !HasJobInFlight(t.db, a);
  }

  // ---------- when a sweep can reach it ----------

  /** The sweeper has not listed the attempt and never will: its scoring has no deadline, or a restart has put
      the axis back to `queued`, where no deadline is looked at. */
  predicate BeyondSweeps(s: System, a: AttemptId) {
    && HeldUp(s, a) && a !in s.lateExecution && a !in s.lateScoring
    && (s.db.attempts[a].scoringDeadline.None? || s.db.attempts[a].scoring == Queued)
  }

  /** The sweeper lists a held-up attempt exactly if its scoring runs past its deadline. */
  lemma ListedExactly(s: System, a: AttemptId, cutoff: string)
    requires HeldUp(s, a)
    ensures a in Apply(s, SelectLateScoring(cutoff)).lateScoring <==> ScoringOverdue(s.db.attempts[a], cutoff)
    ensures a !in Apply(s, SelectLateExecution(cutoff)).lateExecution
  {
  }

  /** Nothing but a Stop or a sweep writes the row, except that a restart puts its scoring back to `queued`. */
  predicate RowStays(before: Attempt, after: Attempt) {
    after == before || after == before.(scoring := Queued, status := Scoring)
  }

  lemma DispatchKeepsRow(s: System, step: Step, a: AttemptId)
    requires DispatchStep(step) && DispatchEnabled(s, step) && a in s.db.attempts && a !in s.live
    ensures a in ApplyDispatch(s, step).db.attempts && ApplyDispatch(s, step).db.attempts[a] == s.db.attempts[a]
  {
  }

  lemma SweepingKeepsRow(s: System, step: Step, a: AttemptId)
    requires SweepingStep(step) && a in s.db.attempts && !Halts(s, step, a)
    ensures a in ApplySweeping(s, step).db.attempts && ApplySweeping(s, step).db.attempts[a] == s.db.attempts[a]
  {
  }

  lemma RestKeepsRow(s: System, step: Step, a: AttemptId)
    requires HeldUp(s, a) && !WorkerStep(step) && !DispatchStep(step) && !SweepingStep(step) && OtherEnabled(s, step)
    ensures a in ApplyOther(s, step).db.attempts && RowStays(s.db.attempts[a], ApplyOther(s, step).db.attempts[a])
  {
    assert RowOk(s.db.attempts[a]);
  }

  lemma HeldRowStays(s: System, step: Step, a: AttemptId)
    requires HeldUp(s, a) && Enabled(s, step) && !Halts(s, step, a)
    ensures a in Apply(s, step).db.attempts && RowStays(s.db.attempts[a], Apply(s, step).db.attempts[a])
  {
    if WorkerStep(step) {
      WorkerWritesItsOwn(s, step);
    } else if DispatchStep(step) {
      DispatchKeepsRow(s, step, a);
    } else if SweepingStep(step) {
      SweepingKeepsRow(s, step, a);
    } else {
      RestKeepsRow(s, step, a);
    }
  }

  predicate ListsAttempt(step: Step, a: AttemptId) {
    step.StopAttempts? && a in step.ids
  }

  lemma StaysBeyondSweeps(s: System, step: Step, a: AttemptId)
    requires BeyondSweeps(s, a) && Enabled(s, step) && !ListsAttempt(step, a)
    ensures !Halts(s, step, a) && BeyondSweeps(Apply(s, step), a)
  {
    assert !Halts(s, step, a) by {
      assert step.StopScoring? ==> !StopsScoringOf(s.db, a, step.runs);
    }
    assert HeldUp(Apply(s, step), a) by {
      StepHoldsUp(s, step, a);
    }
    HeldRowStays(s, step, a);
    assert !OpenExecution(s.db.attempts[a].execution);
    StaysUnlisted(s, step, a);
  }

  lemma StaysUnlisted(s: System, step: Step, a: AttemptId)
    requires Enabled(s, step) && a in s.db.attempts && a !in s.lateExecution && a !in s.lateScoring
    requires s.db.attempts[a].execution != Running
    requires s.db.attempts[a].scoringDeadline.None? || s.db.attempts[a].scoring == Queued
    ensures a !in Apply(s, step).lateExecution && a !in Apply(s, step).lateScoring
  {
  }

  /** Without a deadline for scoring, or after a restart, no run ever frees the attempt but one with a Stop that
      lists it: whatever sweeps, requests, crashes and restarts happen, it stays in flight and every rejudge of
      it is refused. */
  lemma {:induction false} HeldForEver(s: System, steps: seq<Step>, a: AttemptId)
    requires BeyondSweeps(s, a) && Runs(s, steps)
    requires forall i :: 0 <= i < |steps| ==> !ListsAttempt(steps[i], a)
    ensures BeyondSweeps(After(s, steps), a) && HeldThroughout(s, steps, a)
    decreases |steps|
  {
    if steps != [] {
      StaysBeyondSweeps(s, steps[0], a);
      HeldForEver(Apply(s, steps[0]), steps[1..], a);
    }
  }

  // ---------- a run that gets there ----------

  function Scored(status: Status, jobStatus: Status, workers: map<JobId, Phase>): System {
    LostScore.Service(LostScore.Row(Completed, if status == Running then Scoring else Completed, status, Some(50)),
                      map[0 := LostScore.JobRow(jobStatus, None)], [LostScore.FIRST], workers, map[], map[0 := 0])
  }

  lemma AfterCrash()
    ensures LostScore.Reachable(Scored(Completed, Running, map[]))
  {
    LostScore.AfterFinish();
    LostScore.AfterEvaluation(Completed, 0, None, [], map[], map[0 := 0]);
    LostScore.AfterCommit(Completed, 0, None, [], map[], map[0 := 0], LostScore.FIRST);
    assert [] + [LostScore.FIRST] == [LostScore.FIRST];
    LostScore.Next(Scored(Completed, Running, map[0 := Landed]), Crash, Scored(Completed, Running, map[]));
  }

  lemma RecoveredTables(db: Db)
    requires db == Scored(Completed, Running, map[]).db
    ensures RecoverScoring(db) == Scored(Completed, Queued, map[]).db
  {
    var after := RecoverScoring(db);
    assert after.jobs == map[0 := LostScore.JobRow(Queued, None)];
    assert after.attempts == db.attempts;
  }

  lemma AfterRestart()
    ensures LostScore.Reachable(Scored(Completed, Queued, map[0 := Scheduled]))
  {
    AfterCrash();
    var s := Scored(Completed, Running, map[]);
    RecoveredTables(s.db);
    RestartedState(s, Scored(Completed, Queued, map[0 := Scheduled]));
    LostScore.Next(s, RecoverJobs, Scored(Completed, Queued, map[0 := Scheduled]));
  }

  lemma RestartedState(s: System, t: System)
    requires s.workers == map[] && RecoverScoring(s.db) == t.db && t == s.(db := t.db, workers := map[0 := Scheduled])
    requires t.db.jobs.Keys == {0} && ClaimAccepted(t.db, 0)
    ensures Enabled(s, RecoverJobs) && Apply(s, RecoverJobs) == t
  {
    assert (map j | j in t.db.jobs && ClaimAccepted(t.db, j) :: Scheduled) == map[0 := Scheduled];
  }

  lemma AfterSecondClaim()
    ensures LostScore.Reachable(Scored(Running, Running, map[0 := Claimed]))
  {
    AfterRestart();
    LostScore.Next(Scored(Completed, Queued, map[0 := Scheduled]), BeginJob(0, None), Scored(Running, Running, map[0 := Claimed]));
  }

  /** Create, start, end, claim, evaluation, commit, crash, restart, claim, skip: the job is completed, no task
      is left, and the attempt with its committed score 50 says `scoring`/`running` for ever, unless a Stop
      lists it. */
  lemma SkippedCommitsAreHeldUp() returns (end: System)
    ensures LostScore.Reachable(end)
    ensures 0 in end.db.jobs && end.db.jobs[0].status == Completed && end.workers == map[] && end.live == map[]
    ensures 0 in end.db.attempts && end.db.attempts[0].status == Scoring && end.db.attempts[0].scoring == Running
    ensures end.db.attempts[0].score == Some(50) && BeyondSweeps(end, 0)
  {
    AfterSkip();
    end := Scored(Running, Completed, map[]);
    NobodyLeft(end);
  }

  lemma AfterSkip()
    ensures LostScore.Reachable(Scored(Running, Completed, map[]))
  {
    AfterSecondClaim();
    var s := Scored(Running, Running, map[0 := Claimed]);
    assert Committed(s.db.outbox, 0) by {
      assert LostScore.FIRST in s.db.outbox;
    }
    assert map[0 := Claimed] - {0} == map[];
    LostScore.Next(s, SkipCommitted(0), Scored(Running, Completed, map[]));
  }

  lemma NobodyLeft(end: System)
    requires end == Scored(Running, Completed, map[])
    ensures BeyondSweeps(end, 0)
  {
    assert Owned(end);
    assert RowOk(end.db.attempts[0]);
    assert ExecutionInvariant(end);
  }
}
