/** The attempt protocol as a state machine: the tables plus the in-memory tasks of one service
    process, one step per transaction, any interleaving, a crash between any two steps. */
module ScoringProtocol {
  import opened Statuses
  import opened AttemptTables

  /** How the task that owns an execution ends it: dispatch queues the scoring, a task reattached by
      startup recovery scores inline.  `Ending`: the result is in the tables, but the task still runs, and
      if it raises now its handler finalizes the attempt all the same. */
  datatype Mode = Deferred | Inline | Ending

  /** Where the worker of a scoring job stands in `_execute_job`.
      `Claimed`: between the claim and the two checks that follow it.
      `Cleared`: evaluating.  `Judged`: about to commit.  `Landed`: committed.  `Logged`: judge run recorded.
      `Orphaned`: the task was cancelled while its commit was still running in a thread. */
  datatype Phase = Scheduled | Claimed | Cleared | Judged | Landed | Logged | Orphaned

  /** The result of `_prepare_rejudge`, held by the route until it calls `enqueue_scoring_job`. */
  datatype Request = Request(attempt: AttemptId, adapter: Status, previous: Previous)

  /** `issued` remembers which attempt each job id was ever issued for. */
  datatype System = System(db: Db, live: map<AttemptId, Mode>, workers: map<JobId, Phase>, pending: map<nat, Request>,
                           lateExecution: set<AttemptId>, lateScoring: set<AttemptId>, issued: map<JobId, AttemptId>)

  const INITIAL := System(EMPTY, map[], map[], map[], {}, {}, map[])

  datatype Fate = Interrupt(status: Status) | KeepRunning | Reattach

  datatype Step =
      // dispatch of one attempt
    | Create(a: AttemptId, run: RunId)
    | Start(a: AttemptId, deadline: Option<string>)
    | FinishScored(a: AttemptId, adapter: Status, j: JobId, version: nat)
    | FinishUnscored(a: AttemptId, status: Status)
    | FinishInline(a: AttemptId, passed: bool, score: int)
    | Abandon(a: AttemptId)
      // the worker of one scoring job
    | BeginJob(j: JobId, deadline: Option<string>)
    | LoseJob(j: JobId, claimed: bool, deadline: Option<string>)
    | SeeCancelled(j: JobId)
    | SkipCommitted(j: JobId)
    | ClearJob(j: JobId)
    | JudgeJob(j: JobId)
    | FailJob(j: JobId, status: Status)
    | CommitJob(j: JobId, passed: bool, score: int)
    | LogJob(j: JobId)
    | FinishJob(j: JobId)
    | InterruptJob(j: JobId)
    | OrphanCommits(j: JobId, passed: bool, score: int)
      // rejudge route
    | PrepareRequest(a: AttemptId, q: nat, ready: bool)
    | SubmitRequest(q: nat, j: JobId, version: nat)
      // Stop route
    | StopScoring(runs: set<RunId>)
    | StopAttempts(ids: set<AttemptId>)
      // deadline sweeper: selection and convergence are separate transactions
    | SelectLateExecution(cutoff: string)
    | SweepLateExecution
    | SelectLateScoring(cutoff: string)
    | SweepLateScoring
      // projection, crash and restart
    | RefreshOf(a: AttemptId)
    | Crash
    | RecoverJobs
    | RecoverAttempt(a: AttemptId, fate: Fate)

  predicate At(s: System, j: JobId, phases: set<Phase>) {
    j in s.workers && s.workers[j] in phases
  }

  /** The steps of a scoring worker; all of them concern one job `step.j`. */
  predicate WorkerStep(step: Step) {
    step.BeginJob? || step.LoseJob? || step.SeeCancelled? || step.SkipCommitted? || step.ClearJob? || step.JudgeJob? ||
    step.FailJob? || step.CommitJob? || step.LogJob? || step.FinishJob? || step.InterruptJob? || step.OrphanCommits?
  }

  predicate WorkerEnabled(s: System, step: Step)
    requires WorkerStep(step)
  {
    var j := step.j;
    if step.BeginJob? || step.LoseJob? then At(s, j, {Scheduled})
    else if step.SeeCancelled? then At(s, j, {Claimed, Cleared}) && JobCancelled(s.db, j)
    else if step.SkipCommitted? then At(s, j, {Claimed}) && Committed(s.db.outbox, j)
    else if step.ClearJob? then At(s, j, {Claimed}) && !Committed(s.db.outbox, j)
    else if step.JudgeJob? then At(s, j, {Cleared}) && !JobCancelled(s.db, j)
    else if step.FailJob? then At(s, j, {Claimed, Cleared, Judged, Landed, Logged}) && step.status in {Failed, TimedOut, ScoringFailed}
    else if step.CommitJob? then At(s, j, {Judged}) && j in s.issued
    else if step.LogJob? then At(s, j, {Landed}) && j in s.issued
    else if step.FinishJob? then At(s, j, {Landed, Logged})
    else if step.InterruptJob? then At(s, j, {Claimed, Cleared, Judged, Landed, Logged})
    else At(s, j, {Orphaned}) && j in s.issued
  }

  predicate Enabled(s: System, step: Step) {
    if WorkerStep(step) then WorkerEnabled(s, step) else OtherEnabled(s, step)
  }

  /** A task that has not delivered the result of its execution yet. */
  predicate Executing(s: System, a: AttemptId) {
    a in s.live && s.live[a] != Ending
  }

  /** The steps of the task that owns an execution. */
  predicate DispatchStep(step: Step) {
    step.Create? || step.Start? || step.FinishScored? || step.FinishUnscored? || step.FinishInline? || step.Abandon?
  }

  /** Steps that write many rows by one rule: Stop, the sweeper, the run projection. */
  predicate SweepingStep(step: Step) {
    step.StopScoring? || step.StopAttempts? || step.SelectLateExecution? || step.SweepLateExecution? ||
    step.SelectLateScoring? || step.SweepLateScoring? || step.RefreshOf?
  }

  predicate OtherEnabled(s: System, step: Step)
    requires !WorkerStep(step)
  {
    if DispatchStep(step) then DispatchEnabled(s, step)
    else if step.PrepareRequest? then step.q !in s.pending
    else if step.SubmitRequest? then step.q in s.pending && step.j !in s.issued
    else if step.RecoverJobs? then s.workers == map[]
    else if step.RecoverAttempt? then
      && step.a in s.db.attempts && step.a !in s.live && Stale(s.db.attempts[step.a].status)
      && (step.fate.Interrupt? ==> !Stale(step.fate.status))
    else true
  }

  predicate DispatchEnabled(s: System, step: Step)
    requires DispatchStep(step)
  {
    match step
    case Create(a, _) => a !in s.db.attempts
    case Start(a, _) => a in s.live && s.live[a] == Deferred
    case FinishScored(a, _, j, _) => a in s.live && s.live[a] == Deferred && j !in s.issued
    case FinishUnscored(a, status) => a in s.live && !Stale(status)
    case FinishInline(a, _, _) => a in s.live && s.live[a] == Inline
    case Abandon(a) => a in s.live
  }

  function Queue(s: System, a: AttemptId, adapter: Status, j: JobId, version: nat, rejudge: Option<Previous>): System {
    var accepted := EnqueueAccepted(s.db, a, version);
    s.(db := Enqueue(s.db, a, adapter, j, version, rejudge),
       issued := s.issued[j := a],
       workers := if accepted then s.workers[j := Scheduled] else s.workers)
  }

  /** The handler of `CancelledError`: a stopped job is finished, any other goes back to the queue. */
  function Interrupted(db: Db, j: JobId): Db {
    if JobCancelled(db, j) then FinishFailure(db, j, Cancelled) else RequeueJob(db, j)
  }

  /** The transaction of a worker step. */
  function WorkerTables(s: System, step: Step): Db
    requires WorkerStep(step) && WorkerEnabled(s, step)
  {
    var db, j := s.db, step.j;
    if step.BeginJob? then Claim(db, j, step.deadline)
    else if step.LoseJob? then (if step.claimed then Claim(db, j, step.deadline) else db)
    else if step.SeeCancelled? then FinishFailure(db, j, Cancelled)
    else if step.SkipCommitted? then CompleteJobOnly(db, j)
    else if step.FailJob? then FinishFailure(db, j, step.status)
    else if step.CommitJob? || step.OrphanCommits? then CommitScore(db, s.issued[j], Some(j), step.passed, step.score)
    else if step.LogJob? then RecordJudgeRun(db, s.issued[j])
    else if step.FinishJob? then CompleteJob(db, j)
    else if step.InterruptJob? then Interrupted(db, j)
    else db
  }

  /** Where the worker stands afterwards, if it still exists. */
  function WorkerPhase(s: System, step: Step): Option<Phase>
    requires WorkerStep(step) && WorkerEnabled(s, step)
  {
    if step.BeginJob? then (if ClaimAccepted(s.db, step.j) then Some(Claimed) else None)
    else if step.ClearJob? then Some(Cleared)
    else if step.JudgeJob? then Some(Judged)
    else if step.CommitJob? then Some(Landed)
    else if step.LogJob? then Some(Logged)
    else if step.InterruptJob? && s.workers[step.j] == Judged then Some(Orphaned)
    else None
  }

  function Apply(s: System, step: Step): System
    requires Enabled(s, step)
  {
    if WorkerStep(step) then
      var phase := WorkerPhase(s, step);
      s.(db := WorkerTables(s, step),
         workers := if phase.Some? then s.workers[step.j := phase.value] else s.workers - {step.j})
    else ApplyOther(s, step)
  }

  function ApplyOther(s: System, step: Step): System
    requires !WorkerStep(step) && OtherEnabled(s, step)
  {
    if DispatchStep(step) then ApplyDispatch(s, step)
    else if SweepingStep(step) then ApplySweeping(s, step)
    else if step.PrepareRequest? then
      if !RejudgeAccepted(s.db, step.a) then s
      else
        var row := s.db.attempts[step.a];
        s.(db := PrepareRejudge(s.db, step.a),
           pending := if step.ready then s.pending[step.q := Request(step.a, row.execution, Previous(row.score, row.status))]
                      else s.pending)
    else if step.SubmitRequest? then
      var p := s.pending[step.q];
      Queue(s, p.attempt, p.adapter, step.j, step.version, Some(p.previous)).(pending := s.pending - {step.q})
    else if step.Crash? then
      s.(live := map[], workers := map[], pending := map[], lateExecution := {}, lateScoring := {})
    else if step.RecoverJobs? then
      var db := RecoverScoring(s.db);
      s.(db := db, workers := map j | j in db.jobs && ClaimAccepted(db, j) :: Scheduled)
    else
      match step.fate
      case Interrupt(status) => s.(db := FinalizeNoScore(s.db, step.a, status))
      case KeepRunning => s
      case Reattach => s.(live := s.live[step.a := Inline])
  }

  function ApplyDispatch(s: System, step: Step): System
    requires DispatchStep(step) && DispatchEnabled(s, step)
  {
    match step
    case Create(a, run) => s.(db := CreateAttempt(s.db, a, run), live := s.live[a := Deferred])
    case Start(a, deadline) => s.(db := MarkRunning(s.db, a, deadline))
    case FinishScored(a, adapter, j, version) =>
      var queued := Queue(s, a, adapter, j, version, None);
      queued.(live := if EnqueueAccepted(s.db, a, version) then s.live[a := Ending] else s.live)
    case FinishUnscored(a, status) => s.(db := FinalizeNoScore(s.db, a, status), live := s.live - {a})
    case FinishInline(a, passed, score) => s.(db := CommitScore(s.db, a, None, passed, score), live := s.live[a := Ending])
    case Abandon(a) => s.(live := s.live - {a})
  }

  function ApplySweeping(s: System, step: Step): System
    requires SweepingStep(step)
  {
    match step
    case StopScoring(runs) => s.(db := CancelScoring(s.db, runs))
    case StopAttempts(ids) => s.(db := ConvergeAttempts(s.db, ids, STOP))
    case SelectLateExecution(cutoff) => s.(lateExecution := ExpiredExecution(s.db.attempts, cutoff))
    case SweepLateExecution => s.(db := ConvergeAttempts(s.db, s.lateExecution, EXECUTION_OVERDUE), lateExecution := {})
    case SelectLateScoring(cutoff) => s.(lateScoring := ExpiredScoring(s.db.attempts, cutoff))
    case SweepLateScoring => s.(db := ConvergeAttempts(s.db, s.lateScoring, SCORING_OVERDUE), lateScoring := {})
    case RefreshOf(a) => s.(db := Refresh(s.db, a))
  }

  /** A run: every step is enabled where it is taken. */
  predicate Runs(s: System, steps: seq<Step>)
    decreases |steps|
  {
    steps == [] || (Enabled(s, steps[0]) && Runs(Apply(s, steps[0]), steps[1..]))
  }

  function After(s: System, steps: seq<Step>): System
    requires Runs(s, steps)
    decreases |steps|
  {
    if steps == [] then s else After(Apply(s, steps[0]), steps[1..])
  }

  // ---------- execution axis ----------

  predicate ExecutionValue(s: Status) {
    s in {Queued, Running, Completed, Timeout, Failed, Cancelled}
  }

  predicate ExecutionOk(db: Db) {
    && (forall j :: j in db.jobs ==> db.jobs[j].attempt in db.attempts)
    && (forall j :: j in db.jobs ==> !OpenExecution(db.attempts[db.jobs[j].attempt].execution))
    && (forall a :: a in db.attempts ==> RowOk(db.attempts[a]))
  }

  predicate RowOk(row: Attempt) {
    && ExecutionValue(row.execution)
    && (InFlight(row.scoring) ==> !OpenExecution(row.execution) && row.status == Scoring)
    && (Stale(row.status) ==> OpenExecution(row.execution))
  }

  /** Attempts persist, and a closed execution axis stays closed. */
  predicate Progress(before: Db, after: Db) {
    && before.attempts.Keys <= after.attempts.Keys
    && forall a :: a in before.attempts && !OpenExecution(before.attempts[a].execution) ==>
         !OpenExecution(after.attempts[a].execution)
  }

  predicate ExecutionInvariant(s: System) {
    && ExecutionOk(s.db)
    && forall a :: a in s.lateScoring ==> a in s.db.attempts && !OpenExecution(s.db.attempts[a].execution)
  }

  lemma ConvergenceKeepsExecution(db: Db, ids: set<AttemptId>, p: Policy)
    requires ExecutionOk(db)
    requires p == STOP || p == EXECUTION_OVERDUE ||
             (p == SCORING_OVERDUE && forall a :: a in ids && a in db.attempts ==> !OpenExecution(db.attempts[a].execution))
    ensures ExecutionOk(ConvergeAttempts(db, ids, p)) && Progress(db, ConvergeAttempts(db, ids, p))
  {
    var after := ConvergeAttempts(db, ids, p);
    forall a | a in db.attempts
      ensures RowOk(after.attempts[a])
      ensures !OpenExecution(db.attempts[a].execution) ==> !OpenExecution(after.attempts[a].execution)
    {
      assert after.attempts[a] == if a in ids then ConvergeRow(db.attempts[a], p) else db.attempts[a];
    }
    assert after.jobs == db.jobs;
  }

  lemma QueueKeepsExecution(db: Db, a: AttemptId, adapter: Status, j: JobId, version: nat, rejudge: Option<Previous>)
    requires ExecutionOk(db)
    ensures var after := Enqueue(db, a, adapter, j, version, rejudge); ExecutionOk(after) && Progress(db, after)
  {
    if EnqueueAccepted(db, a, version) {
      var after := Enqueue(db, a, adapter, j, version, rejudge);
      assert RowOk(after.attempts[a]);
      forall b | b in db.attempts && b != a
        ensures after.attempts[b] == db.attempts[b]
      {
      }
    }
  }

  /** What a transaction has to do to keep the invariant. */
  predicate Keeps(before: Db, after: Db) {
    ExecutionOk(after) && Progress(before, after)
  }

  lemma ClaimKeepsExecution(db: Db, j: JobId, deadline: Option<string>)
    requires ExecutionOk(db)
    ensures Keeps(db, Claim(db, j, deadline))
  {
  }

  lemma FailureKeepsExecution(db: Db, j: JobId, status: Status)
    requires ExecutionOk(db) && !InFlight(status)
    ensures Keeps(db, FinishFailure(db, j, status))
  {
  }

  lemma CommitKeepsExecution(db: Db, a: AttemptId, job: Option<JobId>, passed: bool, score: int)
    requires ExecutionOk(db)
    ensures Keeps(db, CommitScore(db, a, job, passed, score))
  {
  }

  lemma CompletionKeepsExecution(db: Db, j: JobId)
    requires ExecutionOk(db)
    ensures Keeps(db, CompleteJob(db, j)) && Keeps(db, CompleteJobOnly(db, j))
  {
  }

  lemma RequeueKeepsExecution(db: Db, j: JobId)
    requires ExecutionOk(db)
    ensures Keeps(db, RequeueJob(db, j))
  {
  }

  lemma RecoveryKeepsExecution(db: Db)
    requires ExecutionOk(db)
    ensures Keeps(db, RecoverScoring(db))
  {
  }

  lemma CancelledRowOk(row: Attempt)
    requires RowOk(row)
    ensures RowOk(CancelledScoringRow(row)) && CancelledScoringRow(row).execution == row.execution
  {
  }

  lemma CancellationKeepsExecution(db: Db, runs: set<RunId>)
    requires ExecutionOk(db)
    ensures Keeps(db, CancelScoring(db, runs))
  {
    var after := CancelScoring(db, runs);
    forall a | a in db.attempts
      ensures RowOk(after.attempts[a]) && after.attempts[a].execution == db.attempts[a].execution
    {
      CancelledRowOk(db.attempts[a]);
      assert after.attempts[a] == db.attempts[a] || after.attempts[a] == CancelledScoringRow(db.attempts[a]);
    }
    assert after.jobs.Keys == db.jobs.Keys && forall j :: j in after.jobs ==> after.jobs[j].attempt == db.jobs[j].attempt;
  }

  lemma PreparationKeepsExecution(db: Db, a: AttemptId)
    requires ExecutionOk(db)
    ensures Keeps(db, PrepareRejudge(db, a)) && Keeps(db, Refresh(db, a))
  {
  }

  lemma CreationKeepsExecution(db: Db, a: AttemptId, run: RunId)
    requires ExecutionOk(db) && a !in db.attempts
    ensures Keeps(db, CreateAttempt(db, a, run))
  {
  }

  lemma StartKeepsExecution(db: Db, a: AttemptId, deadline: Option<string>)
    requires ExecutionOk(db)
    ensures Keeps(db, MarkRunning(db, a, deadline))
  {
    if a in db.attempts {
      assert RowOk(db.attempts[a]);
    }
  }

  lemma FinalizationKeepsExecution(db: Db, a: AttemptId, status: Status)
    requires ExecutionOk(db) && !Stale(status)
    ensures Keeps(db, FinalizeNoScore(db, a, status))
  {
    if a in db.attempts {
      assert RowOk(FinalizeNoScore(db, a, status).attempts[a]);
    }
  }

  lemma WorkerKeepsExecution(s: System, step: Step)
    requires ExecutionOk(s.db) && WorkerStep(step) && WorkerEnabled(s, step)
    ensures Keeps(s.db, WorkerTables(s, step))
  {
    var j := step.j;
    if step.BeginJob? || step.LoseJob? {
      ClaimKeepsExecution(s.db, j, step.deadline);
    } else if step.FailJob? {
      FailureKeepsExecution(s.db, j, step.status);
    } else if step.CommitJob? || step.OrphanCommits? {
      CommitKeepsExecution(s.db, s.issued[j], Some(j), step.passed, step.score);
    } else if step.SeeCancelled? || step.InterruptJob? {
      FailureKeepsExecution(s.db, j, Cancelled);
      RequeueKeepsExecution(s.db, j);
    } else {
      CompletionKeepsExecution(s.db, j);
    }
  }

  lemma DispatchKeepsExecution(s: System, step: Step)
    requires ExecutionOk(s.db) && DispatchStep(step) && DispatchEnabled(s, step)
    ensures Keeps(s.db, ApplyDispatch(s, step).db)
  {
    match step {
      case Create(a, run) => CreationKeepsExecution(s.db, a, run);
      case Start(a, deadline) => StartKeepsExecution(s.db, a, deadline);
      case FinishScored(a, adapter, j, version) => QueueKeepsExecution(s.db, a, adapter, j, version, None);
      case FinishUnscored(a, status) => FinalizationKeepsExecution(s.db, a, status);
      case FinishInline(a, passed, score) => CommitKeepsExecution(s.db, a, None, passed, score);
      case Abandon(_) =>
    }
  }

  lemma SweepingKeepsExecution(s: System, step: Step)
    requires ExecutionInvariant(s) && SweepingStep(step)
    ensures Keeps(s.db, ApplySweeping(s, step).db)
  {
    match step {
      case StopScoring(runs) => CancellationKeepsExecution(s.db, runs);
      case StopAttempts(ids) => ConvergenceKeepsExecution(s.db, ids, STOP);
      case SelectLateExecution(_) =>
      case SweepLateExecution => ConvergenceKeepsExecution(s.db, s.lateExecution, EXECUTION_OVERDUE);
      case SelectLateScoring(_) =>
      case SweepLateScoring => ConvergenceKeepsExecution(s.db, s.lateScoring, SCORING_OVERDUE);
      case RefreshOf(a) => PreparationKeepsExecution(s.db, a);
    }
  }

  lemma OtherKeepsExecution(s: System, step: Step)
    requires ExecutionInvariant(s) && !WorkerStep(step) && OtherEnabled(s, step)
    ensures Keeps(s.db, ApplyOther(s, step).db)
  {
    if DispatchStep(step) {
      DispatchKeepsExecution(s, step);
    } else if SweepingStep(step) {
      SweepingKeepsExecution(s, step);
    } else if step.PrepareRequest? {
      PreparationKeepsExecution(s.db, step.a);
    } else if step.SubmitRequest? {
      var p := s.pending[step.q];
      QueueKeepsExecution(s.db, p.attempt, p.adapter, step.j, step.version, Some(p.previous));
    } else if step.RecoverJobs? {
      RecoveryKeepsExecution(s.db);
    } else if step.RecoverAttempt? && step.fate.Interrupt? {
      FinalizationKeepsExecution(s.db, step.a, step.fate.status);
    }
  }

  lemma StepKeepsExecution(s: System, step: Step)
    requires ExecutionInvariant(s) && Enabled(s, step)
    ensures ExecutionInvariant(Apply(s, step)) && Progress(s.db, Apply(s, step).db)
  {
    if WorkerStep(step) {
      WorkerKeepsExecution(s, step);
    } else {
      OtherKeepsExecution(s, step);
    }
    LateSelection(s, step);
  }

  lemma LateSelection(s: System, step: Step)
    requires ExecutionInvariant(s) && Enabled(s, step)
    ensures Apply(s, step).lateScoring <= s.lateScoring ||
            (step.SelectLateScoring? && Apply(s, step).db == s.db &&
             forall a :: a in Apply(s, step).lateScoring ==> a in s.db.attempts && s.db.attempts[a].scoring == Running)
  {
  }

  /** Over every run: the invariant holds at the end, and every execution axis that was closed at the
      start is closed at the end. */
  lemma {:induction false} RunsKeepExecution(s: System, steps: seq<Step>)
    requires ExecutionInvariant(s) && Runs(s, steps)
    ensures ExecutionInvariant(After(s, steps)) && Progress(s.db, After(s, steps).db)
    decreases |steps|
  {
    if steps != [] {
      StepKeepsExecution(s, steps[0]);
      RunsKeepExecution(Apply(s, steps[0]), steps[1..]);
    }
  }

  lemma {:induction false} RunsCompose(s: System, first: seq<Step>, second: seq<Step>)
    requires Runs(s, first) && Runs(After(s, first), second)
    ensures Runs(s, first + second) && After(s, first + second) == After(After(s, first), second)
    decreases |first|
  {
    if first == [] {
      assert first + second == second;
    } else {
      assert (first + second)[0] == first[0] && (first + second)[1..] == first[1..] + second;
      RunsCompose(Apply(s, first[0]), first[1..], second);
    }
  }

  /** Over every interleaving of creation, start, finish, claim, commit, failure, Stop, sweep, crash,
      restart and rejudge: an execution axis that has left {queued, running} never comes back, a
      scoring job exists only for an attempt whose execution is over, and no execution axis ever
      holds the `scoring_failed` the scoring sweep would write by default. */
  lemma ExecutionNeverReopens(first: seq<Step>, second: seq<Step>)
    requires Runs(INITIAL, first) && Runs(After(INITIAL, first), second)
    ensures var mid, end := After(INITIAL, first).db, After(After(INITIAL, first), second).db;
            && Progress(mid, end)
            && (forall j :: j in mid.jobs ==> mid.jobs[j].attempt in mid.attempts)
            && (forall j :: j in mid.jobs ==> !OpenExecution(mid.attempts[mid.jobs[j].attempt].execution))
            && (forall a :: a in mid.attempts ==> mid.attempts[a].execution != ScoringFailed)
            && (forall a :: a in mid.attempts && InFlight(mid.attempts[a].scoring) ==> mid.attempts[a].status == Scoring)
  {
    RunsKeepExecution(INITIAL, first);
    RunsKeepExecution(After(INITIAL, first), second);
  }
}
