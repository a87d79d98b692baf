/** The outbox over whole runs: one commit per scoring job, revisions in commit order, judge runs
    aligned with the commits they describe. */
module CommitHistory {
  import opened Statuses
  import opened AttemptTables
  import opened ScoringProtocol

  // ---------- revisions ----------

  /** Outbox revisions of an attempt grow in commit order; above the last judge run they leave no gap;
      judge runs grow too. */
  predicate RevisionsOk(db: Db) {
    && (forall i, k :: 0 <= i < k < |db.outbox| && db.outbox[i].attempt == db.outbox[k].attempt ==>
          db.outbox[i].revision < db.outbox[k].revision)
    && (forall i, x :: 0 <= i < |db.outbox| && MaxJudged(db.judgeRuns, db.outbox[i].attempt) < x < db.outbox[i].revision ==>
          x in Revisions(db.outbox, db.outbox[i].attempt))
    && (forall i, k :: 0 <= i < k < |db.judgeRuns| && db.judgeRuns[i].attempt == db.judgeRuns[k].attempt ==>
          db.judgeRuns[i].revision < db.judgeRuns[k].revision)
  }

  lemma {:induction false} MaxRevisionBounds(outbox: seq<Commit>, a: AttemptId)
    ensures forall c :: c in outbox && c.attempt == a ==> c.revision <= MaxRevision(outbox, a)
    ensures MaxRevision(outbox, a) != 0 ==> MaxRevision(outbox, a) in Revisions(outbox, a)
  {
    if outbox != [] {
      var n := |outbox| - 1;
      MaxRevisionBounds(outbox[..n], a);
      assert outbox == outbox[..n] + [outbox[n]];
      assert Revisions(outbox[..n], a) <= Revisions(outbox, a);
      assert outbox[n].attempt == a ==> outbox[n].revision in Revisions(outbox, a);
    }
  }

  lemma {:induction false} MaxJudgedBounds(runs: seq<JudgeRun>, a: AttemptId)
    ensures forall r :: r in runs && r.attempt == a ==> r.revision <= MaxJudged(runs, a)
  {
    if runs != [] {
      MaxJudgedBounds(runs[..|runs| - 1], a);
      assert runs == runs[..|runs| - 1] + [runs[|runs| - 1]];
    }
  }

  lemma MaxJudgedAppend(runs: seq<JudgeRun>, r: JudgeRun, a: AttemptId)
    ensures MaxJudged(runs + [r], a) == if r.attempt == a && r.revision > MaxJudged(runs, a) then r.revision else MaxJudged(runs, a)
  {
    assert (runs + [r])[..|runs|] == runs;
  }

  /** The revision a commit takes is above every revision the attempt already has, although the scan
      only looks for a free number above the judge runs. */
  lemma CommitIsNewest(db: Db, a: AttemptId)
    requires RevisionsOk(db)
    ensures forall c :: c in db.outbox && c.attempt == a ==> c.revision < NextRevision(db, a)
    ensures MaxJudged(db.judgeRuns, a) < NextRevision(db, a)
  {
    var f := NextRevision(db, a);
    forall c | c in db.outbox && c.attempt == a
      ensures c.revision < f
    {
      var i :| 0 <= i < |db.outbox| && db.outbox[i] == c;
      assert c.revision in Revisions(db.outbox, a);
    }
  }

  lemma CommitKeepsRevisions(db: Db, a: AttemptId, j: Option<JobId>, passed: bool, score: int)
    requires RevisionsOk(db)
    ensures RevisionsOk(CommitScore(db, a, j, passed, score))
  {
    if CommitAccepted(db, a, j) {
      CommitIsNewest(db, a);
      var f, after := NextRevision(db, a), CommitScore(db, a, j, passed, score).outbox;
      assert forall b :: Revisions(db.outbox, b) <= Revisions(after, b) by {
        assert forall c :: c in db.outbox ==> c in after;
      }
      forall i, x | 0 <= i < |after| && MaxJudged(db.judgeRuns, after[i].attempt) < x < after[i].revision
        ensures x in Revisions(after, after[i].attempt)
      {
        if i == |db.outbox| {
          assert x in Revisions(db.outbox, a);
        }
      }
    }
  }

  lemma RecordKeepsRevisions(db: Db, a: AttemptId)
    requires RevisionsOk(db)
    ensures RevisionsOk(RecordJudgeRun(db, a))
  {
    if a in db.attempts {
      MaxJudgedBounds(db.judgeRuns, a);
      var after := RecordJudgeRun(db, a).judgeRuns;
      forall b
        ensures MaxJudged(db.judgeRuns, b) <= MaxJudged(after, b)
      {
        MaxJudgedAppend(db.judgeRuns, after[|db.judgeRuns|], b);
      }
    }
  }

  /** Readers pick the row with the highest revision; that is the last commit of the attempt. */
  lemma {:induction false} LatestHasHighestRevision(db: Db, a: AttemptId)
    requires RevisionsOk(db)
    ensures Latest(db.outbox, a).None? <==> forall c :: c in db.outbox ==> c.attempt != a
    ensures forall c :: c in db.outbox && c.attempt == a && c.revision == MaxRevision(db.outbox, a) ==> Latest(db.outbox, a) == Some(c.score)
  {
    LatestOfOrdered(db.outbox, a);
  }

  lemma {:induction false} LatestOfOrdered(outbox: seq<Commit>, a: AttemptId)
    requires forall i, k :: 0 <= i < k < |outbox| && outbox[i].attempt == outbox[k].attempt ==> outbox[i].revision < outbox[k].revision
    ensures Latest(outbox, a).None? <==> forall c :: c in outbox ==> c.attempt != a
    ensures forall c :: c in outbox && c.attempt == a && c.revision == MaxRevision(outbox, a) ==> Latest(outbox, a) == Some(c.score)
  {
    if outbox != [] {
      var n := |outbox| - 1;
      var front, last := outbox[..n], outbox[n];
      assert outbox == front + [last];
      LatestOfOrdered(front, a);
      MaxRevisionBounds(outbox, a);
      MaxRevisionBounds(front, a);
      if last.attempt == a {
        forall c | c in outbox && c.attempt == a && c.revision == MaxRevision(outbox, a)
          ensures c == last
        {
          var i :| 0 <= i < |outbox| && outbox[i] == c;
          assert last in outbox;
        }
      }
    }
  }

  // ---------- one commit per job ----------

  predicate OnePerJob(outbox: seq<Commit>) {
    forall i, k :: 0 <= i < k < |outbox| && outbox[i].job.Some? ==> outbox[i].job != outbox[k].job
  }

  /** Job ids belong to one attempt for ever, and every outbox row of a job belongs to that attempt. */
  predicate Owned(s: System) {
    && (forall j :: j in s.db.jobs ==> j in s.issued && s.issued[j] == s.db.jobs[j].attempt)
    && (forall c :: c in s.db.outbox && c.job.Some? ==> c.job.value in s.issued && s.issued[c.job.value] == c.attempt)
  }

  predicate HistoryInvariant(s: System) {
    Owned(s) && OnePerJob(s.db.outbox) && RevisionsOk(s.db)
  }

  /** The steps that append to the outbox or to the judge runs. */
  predicate Appends(step: Step) {
    step.FinishInline? || step.CommitJob? || step.OrphanCommits? || step.LogJob?
  }

  /** No commit, no judge run, no new job, and every job keeps its attempt. */
  predicate Silent(before: Db, after: Db) {
    && after.outbox == before.outbox && after.judgeRuns == before.judgeRuns
    && forall j :: j in after.jobs ==> j in before.jobs && after.jobs[j].attempt == before.jobs[j].attempt
  }

  lemma FailureIsSilent(db: Db, j: JobId, status: Status)
    ensures Silent(db, FinishFailure(db, j, status))
  {
  }

  lemma WorkerTransactionsAreSilent(db: Db, j: JobId, deadline: Option<string>)
    ensures Silent(db, Claim(db, j, deadline)) && Silent(db, RequeueJob(db, j))
    ensures Silent(db, CompleteJob(db, j)) && Silent(db, CompleteJobOnly(db, j))
  {
  }

  lemma DispatchTransactionsAreSilent(db: Db, a: AttemptId, run: RunId, deadline: Option<string>, status: Status)
    ensures Silent(db, CreateAttempt(db, a, run)) && Silent(db, MarkRunning(db, a, deadline)) && Silent(db, FinalizeNoScore(db, a, status))
    ensures Silent(db, PrepareRejudge(db, a)) && Silent(db, Refresh(db, a))
  {
  }

  lemma SharedTransactionsAreSilent(db: Db, runs: set<RunId>, ids: set<AttemptId>, p: Policy)
    ensures Silent(db, CancelScoring(db, runs)) && Silent(db, ConvergeAttempts(db, ids, p)) && Silent(db, RecoverScoring(db))
  {
  }

  lemma SilentKeepsOwners(s: System, t: System)
    requires Owned(s) && Silent(s.db, t.db) && t.issued == s.issued
    ensures Owned(t)
  {
  }

  lemma WorkerIsSilent(s: System, step: Step)
    requires WorkerStep(step) && WorkerEnabled(s, step) && !Appends(step)
    ensures Silent(s.db, WorkerTables(s, step))
  {
    var j := step.j;
    if step.BeginJob? || step.LoseJob? {
      WorkerTransactionsAreSilent(s.db, j, step.deadline);
    } else if step.FailJob? {
      FailureIsSilent(s.db, j, step.status);
    } else {
      FailureIsSilent(s.db, j, Cancelled);
      WorkerTransactionsAreSilent(s.db, j, None);
    }
  }

  lemma WorkerKeepsHistory(s: System, step: Step)
    requires Owned(s) && WorkerStep(step) && Enabled(s, step) && !Appends(step)
    ensures var t := Apply(s, step);
            t.db.outbox == s.db.outbox && t.db.judgeRuns == s.db.judgeRuns && t.issued == s.issued && Owned(t)
  {
    WorkerIsSilent(s, step);
    SilentKeepsOwners(s, Apply(s, step));
  }

  lemma QueueingKeepsOwners(s: System, a: AttemptId, adapter: Status, j: JobId, version: nat, rejudge: Option<Previous>)
    requires Owned(s) && j !in s.issued
    ensures Owned(Queue(s, a, adapter, j, version, rejudge))
  {
  }

  lemma OthersKeepHistory(s: System, step: Step)
    requires Owned(s) && !WorkerStep(step) && Enabled(s, step) && !Appends(step)
    ensures var t := Apply(s, step);
            t.db.outbox == s.db.outbox && t.db.judgeRuns == s.db.judgeRuns && Owned(t)
  {
    var t := Apply(s, step);
    if step.FinishScored? {
      QueueingKeepsOwners(s, step.a, step.adapter, step.j, step.version, None);
    } else if step.SubmitRequest? {
      var p := s.pending[step.q];
      QueueingKeepsOwners(s, p.attempt, p.adapter, step.j, step.version, Some(p.previous));
    } else {
      OthersAreSilent(s, step);
      SilentKeepsOwners(s, t);
    }
  }

  lemma DispatchIsSilent(s: System, step: Step)
    requires DispatchStep(step) && DispatchEnabled(s, step) && !Appends(step) && !step.FinishScored?
    ensures Silent(s.db, ApplyDispatch(s, step).db) && ApplyDispatch(s, step).issued == s.issued
  {
    if step.Create? {
      DispatchTransactionsAreSilent(s.db, step.a, step.run, None, Failed);
    } else if step.Start? {
      DispatchTransactionsAreSilent(s.db, step.a, 0, step.deadline, Failed);
    } else if step.FinishUnscored? {
      DispatchTransactionsAreSilent(s.db, step.a, 0, None, step.status);
    }
  }

  lemma SweepingIsSilent(s: System, step: Step)
    requires SweepingStep(step)
    ensures Silent(s.db, ApplySweeping(s, step).db) && ApplySweeping(s, step).issued == s.issued
  {
    match step {
      case StopScoring(runs) => SharedTransactionsAreSilent(s.db, runs, {}, STOP);
      case StopAttempts(ids) => SharedTransactionsAreSilent(s.db, {}, ids, STOP);
      case SelectLateExecution(_) =>
      case SweepLateExecution => SharedTransactionsAreSilent(s.db, {}, s.lateExecution, EXECUTION_OVERDUE);
      case SelectLateScoring(_) =>
      case SweepLateScoring => SharedTransactionsAreSilent(s.db, {}, s.lateScoring, SCORING_OVERDUE);
      case RefreshOf(a) => DispatchTransactionsAreSilent(s.db, a, 0, None, Failed);
    }
  }

  lemma OthersAreSilent(s: System, step: Step)
    requires !WorkerStep(step) && OtherEnabled(s, step) && !Appends(step) && !step.FinishScored? && !step.SubmitRequest?
    ensures Silent(s.db, ApplyOther(s, step).db) && ApplyOther(s, step).issued == s.issued
  {
    if DispatchStep(step) {
      DispatchIsSilent(s, step);
    } else if SweepingStep(step) {
      SweepingIsSilent(s, step);
    } else if step.PrepareRequest? {
      DispatchTransactionsAreSilent(s.db, step.a, 0, None, Failed);
    } else if step.RecoverJobs? {
      SharedTransactionsAreSilent(s.db, {}, {}, STOP);
    } else if step.RecoverAttempt? && step.fate.Interrupt? {
      DispatchTransactionsAreSilent(s.db, step.a, 0, None, step.fate.status);
    }
  }

  /** A commit on behalf of a job appends only if no row of that job exists. */
  lemma CommitKeepsOnePerJob(s: System, a: AttemptId, job: Option<JobId>, passed: bool, score: int)
    requires HistoryInvariant(s) && (job.Some? ==> job.value in s.issued && s.issued[job.value] == a)
    ensures var db := CommitScore(s.db, a, job, passed, score);
            OnePerJob(db.outbox) && Owned(s.(db := db)) && s.db.outbox <= db.outbox
  {
    var db := CommitScore(s.db, a, job, passed, score);
    if CommitAccepted(s.db, a, job) && job.Some? {
      forall i | 0 <= i < |s.db.outbox|
        ensures s.db.outbox[i].job != job
      {
        assert s.db.outbox[i] in s.db.outbox;
      }
    }
    assert db.jobs == s.db.jobs;
    forall c | c in db.outbox && c.job.Some?
      ensures c.job.value in s.issued && s.issued[c.job.value] == c.attempt
    {
      if c !in s.db.outbox {
        assert c.job == job && c.attempt == a;
      }
    }
  }

  lemma AppendsKeepHistory(s: System, step: Step)
    requires HistoryInvariant(s) && Enabled(s, step) && Appends(step)
    ensures HistoryInvariant(Apply(s, step)) && s.db.outbox <= Apply(s, step).db.outbox
  {
    match step {
      case FinishInline(a, passed, score) =>
        CommitKeepsRevisions(s.db, a, None, passed, score);
        CommitKeepsOnePerJob(s, a, None, passed, score);
      case CommitJob(j, passed, score) =>
        CommitKeepsRevisions(s.db, s.issued[j], Some(j), passed, score);
        CommitKeepsOnePerJob(s, s.issued[j], Some(j), passed, score);
      case OrphanCommits(j, passed, score) =>
        CommitKeepsRevisions(s.db, s.issued[j], Some(j), passed, score);
        CommitKeepsOnePerJob(s, s.issued[j], Some(j), passed, score);
      case LogJob(j) =>
        RecordKeepsRevisions(s.db, s.issued[j]);
    }
  }

  lemma StepKeepsHistory(s: System, step: Step)
    requires HistoryInvariant(s) && Enabled(s, step)
    ensures HistoryInvariant(Apply(s, step)) && s.db.outbox <= Apply(s, step).db.outbox
  {
    if Appends(step) {
      AppendsKeepHistory(s, step);
    } else if WorkerStep(step) {
      WorkerKeepsHistory(s, step);
    } else {
      OthersKeepHistory(s, step);
    }
  }

  lemma {:induction false} RunsKeepHistory(s: System, steps: seq<Step>)
    requires HistoryInvariant(s) && Runs(s, steps)
    ensures HistoryInvariant(After(s, steps)) && s.db.outbox <= After(s, steps).db.outbox
    decreases |steps|
  {
    if steps != [] {
      StepKeepsHistory(s, steps[0]);
      RunsKeepHistory(Apply(s, steps[0]), steps[1..]);
    }
  }

  /** Over any run, crashes between commit and completion and repeated requeueing included: no scoring
      job is committed twice, committed rows are never changed, and the revisions of an attempt are
      strictly increasing in commit order. */
  lemma JobsCommitAtMostOnce(first: seq<Step>, second: seq<Step>)
    requires Runs(INITIAL, first) && Runs(After(INITIAL, first), second)
    ensures var mid, end := After(INITIAL, first).db, After(After(INITIAL, first), second).db;
            && mid.outbox <= end.outbox
            && OnePerJob(end.outbox) && RevisionsOk(end)
            && (forall j: JobId :: Committed(mid.outbox, j) ==>
                  forall i :: |mid.outbox| <= i < |end.outbox| ==> end.outbox[i].job != Some(j))
  {
    RunsKeepHistory(INITIAL, first);
    RunsKeepHistory(After(INITIAL, first), second);
    var mid, end := After(INITIAL, first).db, After(After(INITIAL, first), second).db;
    forall j: JobId, i | Committed(mid.outbox, j) && |mid.outbox| <= i < |end.outbox|
      ensures end.outbox[i].job != Some(j)
    {
      var c :| c in mid.outbox && c.job == Some(j);
      var k :| 0 <= k < |mid.outbox| && mid.outbox[k] == c;
      assert end.outbox[k].job == Some(j);
    }
  }

  // ---------- execution conclusions ----------

  /** Nothing in memory can still overwrite the conclusion `e` of attempt `a`. */
  predicate Settled(s: System, a: AttemptId, e: Status) {
    && ExecutionInvariant(s)
    && a in s.db.attempts && s.db.attempts[a].execution == e && !OpenExecution(e)
    && a !in s.live
    && forall q :: q in s.pending && s.pending[q].attempt == a ==> s.pending[q].adapter == e && e != Cancelled
  }

  /** Attempt `a` keeps its execution conclusion. */
  predicate SameConclusion(before: Db, after: Db, a: AttemptId) {
    a in before.attempts ==> a in after.attempts && after.attempts[a].execution == before.attempts[a].execution
  }

  lemma WorkerTransactionsConclude(db: Db, j: JobId, deadline: Option<string>, status: Status, a: AttemptId)
    ensures SameConclusion(db, Claim(db, j, deadline), a) && SameConclusion(db, FinishFailure(db, j, status), a)
    ensures SameConclusion(db, CompleteJob(db, j), a) && SameConclusion(db, CompleteJobOnly(db, j), a)
    ensures SameConclusion(db, RequeueJob(db, j), a)
  {
  }

  lemma CommitConcludes(db: Db, b: AttemptId, j: Option<JobId>, passed: bool, score: int, a: AttemptId)
    requires a in db.attempts && !OpenExecution(db.attempts[a].execution)
    ensures SameConclusion(db, CommitScore(db, b, j, passed, score), a) && SameConclusion(db, RecordJudgeRun(db, b), a)
  {
  }

  lemma OtherAttemptsConclude(db: Db, b: AttemptId, run: RunId, deadline: Option<string>, status: Status, a: AttemptId)
    requires a != b
    ensures SameConclusion(db, CreateAttempt(db, b, run), a) && SameConclusion(db, MarkRunning(db, b, deadline), a)
    ensures SameConclusion(db, FinalizeNoScore(db, b, status), a)
  {
  }

  lemma QueueConcludes(db: Db, b: AttemptId, adapter: Status, j: JobId, version: nat, rejudge: Option<Previous>, a: AttemptId)
    requires a == b && a in db.attempts ==> ExecutionConclusion(adapter) == db.attempts[a].execution
    ensures SameConclusion(db, Enqueue(db, b, adapter, j, version, rejudge), a)
  {
  }

  lemma SharedTransactionsConclude(db: Db, runs: set<RunId>, ids: set<AttemptId>, p: Policy, b: AttemptId, a: AttemptId)
    requires a in db.attempts && !OpenExecution(db.attempts[a].execution)
    ensures SameConclusion(db, CancelScoring(db, runs), a) && SameConclusion(db, ConvergeAttempts(db, ids, p), a)
    ensures SameConclusion(db, RecoverScoring(db), a) && SameConclusion(db, PrepareRejudge(db, b), a) && SameConclusion(db, Refresh(db, b), a)
  {
  }

  lemma WorkerConcludes(s: System, step: Step, a: AttemptId)
    requires a in s.db.attempts && !OpenExecution(s.db.attempts[a].execution) && WorkerStep(step) && WorkerEnabled(s, step)
    ensures SameConclusion(s.db, WorkerTables(s, step), a)
  {
    var j := step.j;
    if step.BeginJob? || step.LoseJob? {
      WorkerTransactionsConclude(s.db, j, step.deadline, Cancelled, a);
    } else if step.FailJob? {
      WorkerTransactionsConclude(s.db, j, None, step.status, a);
    } else if step.CommitJob? || step.OrphanCommits? {
      CommitConcludes(s.db, s.issued[j], Some(j), step.passed, step.score, a);
    } else if step.LogJob? {
      CommitConcludes(s.db, s.issued[j], None, true, 0, a);
    } else {
      WorkerTransactionsConclude(s.db, j, None, Cancelled, a);
    }
  }

  lemma DispatchConcludes(s: System, step: Step, a: AttemptId)
    requires a in s.db.attempts && !OpenExecution(s.db.attempts[a].execution) && a !in s.live
    requires DispatchStep(step) && DispatchEnabled(s, step)
    ensures SameConclusion(s.db, ApplyDispatch(s, step).db, a) && a !in ApplyDispatch(s, step).live
  {
    match step {
      case Create(b, run) => OtherAttemptsConclude(s.db, b, run, None, Failed, a);
      case Start(b, deadline) => OtherAttemptsConclude(s.db, b, 0, deadline, Failed, a);
      case FinishScored(b, adapter, j, version) => QueueConcludes(s.db, b, adapter, j, version, None, a);
      case FinishUnscored(b, status) => OtherAttemptsConclude(s.db, b, 0, None, status, a);
      case FinishInline(b, passed, score) => CommitConcludes(s.db, b, None, passed, score, a);
      case Abandon(_) =>
    }
  }

  lemma SweepingConcludes(s: System, step: Step, a: AttemptId)
    requires a in s.db.attempts && !OpenExecution(s.db.attempts[a].execution) && SweepingStep(step)
    ensures SameConclusion(s.db, ApplySweeping(s, step).db, a) && ApplySweeping(s, step).live == s.live
  {
    match step {
      case StopScoring(runs) => SharedTransactionsConclude(s.db, runs, {}, STOP, 0, a);
      case StopAttempts(ids) => SharedTransactionsConclude(s.db, {}, ids, STOP, 0, a);
      case SelectLateExecution(_) =>
      case SweepLateExecution => SharedTransactionsConclude(s.db, {}, s.lateExecution, EXECUTION_OVERDUE, 0, a);
      case SelectLateScoring(_) =>
      case SweepLateScoring => SharedTransactionsConclude(s.db, {}, s.lateScoring, SCORING_OVERDUE, 0, a);
      case RefreshOf(b) => SharedTransactionsConclude(s.db, {}, {}, STOP, b, a);
    }
  }

  lemma OtherStepConcludes(s: System, step: Step, a: AttemptId, e: Status)
    requires Settled(s, a, e) && !WorkerStep(step) && OtherEnabled(s, step)
    ensures SameConclusion(s.db, ApplyOther(s, step).db, a) && a !in ApplyOther(s, step).live
  {
    assert RowOk(s.db.attempts[a]);
    if DispatchStep(step) {
      DispatchConcludes(s, step, a);
    } else if SweepingStep(step) {
      SweepingConcludes(s, step, a);
    } else if step.PrepareRequest? {
      SharedTransactionsConclude(s.db, {}, {}, STOP, step.a, a);
    } else if step.SubmitRequest? {
      var p := s.pending[step.q];
      QueueConcludes(s.db, p.attempt, p.adapter, step.j, step.version, Some(p.previous), a);
    } else if step.RecoverJobs? {
      SharedTransactionsConclude(s.db, {}, {}, STOP, 0, a);
    } else if step.RecoverAttempt? && step.fate.Interrupt? {
      OtherAttemptsConclude(s.db, step.a, 0, None, step.fate.status, a);
    }
  }

  /** A request enters the pending ones only with the conclusion the row had when it was prepared. */
  lemma PendingAfterStep(s: System, step: Step, q: nat)
    requires !WorkerStep(step) && OtherEnabled(s, step) && q in ApplyOther(s, step).pending
    ensures (q in s.pending && ApplyOther(s, step).pending[q] == s.pending[q]) ||
            (step.PrepareRequest? && RejudgeAccepted(s.db, step.a) && ApplyOther(s, step).pending[q].attempt == step.a
             && ApplyOther(s, step).pending[q].adapter == s.db.attempts[step.a].execution)
  {
  }

  lemma PendingStaysSettled(s: System, step: Step, a: AttemptId, e: Status)
    requires Settled(s, a, e) && !WorkerStep(step) && OtherEnabled(s, step)
    ensures forall q :: q in ApplyOther(s, step).pending && ApplyOther(s, step).pending[q].attempt == a ==>
              ApplyOther(s, step).pending[q].adapter == e && e != Cancelled
  {
    forall q | q in ApplyOther(s, step).pending && ApplyOther(s, step).pending[q].attempt == a
      ensures ApplyOther(s, step).pending[q].adapter == e && e != Cancelled
    {
      PendingAfterStep(s, step, q);
    }
  }

  /** Once the task that owned an execution is gone, its conclusion never changes again: not by
      rejudges, worker failures, Stop, sweeps, crashes or restarts.  In particular a user's
      `cancelled` is never turned into a failure by rejudging. */
  lemma {:induction false} ConclusionsAreFinal(s: System, steps: seq<Step>, a: AttemptId, e: Status)
    requires Settled(s, a, e) && Runs(s, steps)
    ensures Settled(After(s, steps), a, e)
    decreases |steps|
  {
    if steps != [] {
      StepKeepsExecution(s, steps[0]);
      if WorkerStep(steps[0]) {
        WorkerConcludes(s, steps[0], a);
      } else {
        OtherStepConcludes(s, steps[0], a, e);
        PendingStaysSettled(s, steps[0], a, e);
      }
      ConclusionsAreFinal(Apply(s, steps[0]), steps[1..], a, e);
    }
  }
}
