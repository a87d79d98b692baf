/** An attempt that violated its model contract "must never enter scoring": the runner sees to it, the
    rejudge route does not.  What can and what cannot bring such an attempt a score. */
module RejudgedViolations {
  import opened Statuses
  import opened AttemptTables
  import opened ScoringProtocol
  import opened CommitHistory
  import LostScore

  // ---------- one run that scores it ----------

  /** A rejudge of an attempt that was finalized for violating its contract is accepted exactly if no job
      of it is in flight: the checks read the execution axis, which says `failed`, and no integrity
      column. */
  lemma ViolationIsRejudgeable(db: Db, a: AttemptId)
    requires a in db.attempts
    ensures var after := FinalizeNoScore(db, a, ModelIntegrityFailed);
            && (RejudgeAccepted(after, a) <==> !HasJobInFlight(db, a))
            && (RejudgeAccepted(after, a) ==> forall version: nat :: EnqueueAccepted(PrepareRejudge(after, a), a, version))
  {
    var after := FinalizeNoScore(db, a, ModelIntegrityFailed);
    assert after.jobs == db.jobs;
  }

  lemma AfterViolation()
    ensures LostScore.Reachable(LostScore.Service(LostScore.Row(Failed, ModelIntegrityFailed, Skipped, None), map[], [], map[], map[], map[]))
  {
    LostScore.AfterStart();
    var started := System(Db(map[0 := Attempt(0, Running, Running, NotReady, None, None, None)], map[], [], [], map[0 := Running]),
                          map[0 := Deferred], map[], map[], {}, {}, map[]);
    assert map[0 := Deferred] - {0} == map[];
    LostScore.Next(started, FinishUnscored(0, ModelIntegrityFailed),
                   LostScore.Service(LostScore.Row(Failed, ModelIntegrityFailed, Skipped, None), map[], [], map[], map[], map[]));
  }

  lemma AfterRequest()
    ensures var saved := Previous(None, ModelIntegrityFailed);
            LostScore.Reachable(LostScore.Service(LostScore.InQueue(Failed), map[0 := LostScore.JobRow(Queued, Some(saved))], [],
                                                  map[0 := Scheduled], map[], map[0 := 0]))
  {
    AfterViolation();
    var saved := Previous(None, ModelIntegrityFailed);
    var row := LostScore.Row(Failed, ModelIntegrityFailed, Skipped, None);
    var pending: map<nat, Request> := map[0 := Request(0, Failed, saved)];
    var s := LostScore.Service(row, map[], [], map[], map[], map[]);
    assert PrepareRejudge(s.db, 0).jobs == map[];
    LostScore.Next(s, PrepareRequest(0, 0, true), s.(pending := pending));
    LostScore.AfterSubmit(row, saved, [], pending, map[], 0, 0);
    assert pending - {0} == map[];
  }

  /** Create, start, conclusion `model_integrity_failed`, rejudge, commit: the attempt ends with the status
      `completed`, a score, and a row in the outbox that ranking reads. */
  lemma ViolatedAttemptsAreScoredByARejudge(score: int) returns (end: System)
    ensures LostScore.Reachable(end)
    ensures 0 in end.db.attempts && end.db.attempts[0].status == Completed && end.db.attempts[0].execution == Failed
    ensures end.db.attempts[0].score == Some(score) && Latest(end.db.outbox, 0) == Some(score)
  {
    AfterRequest();
    var rejudge := Some(Previous(None, ModelIntegrityFailed));
    var c := Commit(0, 1, score, Some(0));
    LostScore.AfterEvaluation(Failed, 0, rejudge, [], map[], map[0 := 0]);
    LostScore.AfterCommit(Failed, 0, rejudge, [], map[], map[0 := 0], c);
    assert [] + [c] == [c];
    LostScore.AfterFinishJob(Failed, 0, rejudge, [c], map[], map[0 := 0], score);
    end := LostScore.Service(LostScore.Row(Failed, Completed, Completed, Some(score)), map[0 := LostScore.JobRow(Completed, rejudge)], [c], map[], map[],
                             map[0 := 0]);
  }

  // ---------- and nothing else does ----------

  predicate HasJob(db: Db, a: AttemptId) {
    exists j :: j in db.jobs && db.jobs[j].attempt == a
  }

  predicate HasCommit(db: Db, a: AttemptId) {
    exists c :: c in db.outbox && c.attempt == a
  }

  /** A rejudge of `a` that takes effect: what `enqueue_scoring_job` does for a prepared request. */
  predicate Submits(s: System, step: Step, a: AttemptId)
    requires Enabled(s, step)
  {
    step.SubmitRequest? && s.pending[step.q].attempt == a && EnqueueAccepted(s.db, a, step.version)
  }

  /** A rejudge request of `a` that passes the checks. */
  predicate Prepares(s: System, step: Step, a: AttemptId)
    requires Enabled(s, step)
  {
    step.PrepareRequest? && step.a == a && RejudgeAccepted(s.db, a) && step.ready
  }

  /** The execution of `a` is over, and nothing was ever queued, judged or committed for it. */
  predicate Aside(s: System, a: AttemptId) {
    && Owned(s) && ExecutionInvariant(s)
    && a in s.db.attempts && !OpenExecution(s.db.attempts[a].execution) && a !in s.live
    && !HasJob(s.db, a) && !HasCommit(s.db, a)
    && forall j :: j in s.workers ==> j in s.issued && s.issued[j] != a
  }

  /** A transaction that adds neither a job nor a commit of `a`. */
  predicate Bypasses(before: Db, after: Db, a: AttemptId) {
    && (forall j :: j in after.jobs && after.jobs[j].attempt == a ==> j in before.jobs && before.jobs[j].attempt == a)
    && (forall c :: c in after.outbox && c.attempt == a ==> c in before.outbox)
  }

  lemma SilentBypasses(before: Db, after: Db, a: AttemptId)
    requires Silent(before, after)
    ensures Bypasses(before, after, a)
  {
  }

  lemma WorkerBypasses(s: System, step: Step, a: AttemptId)
    requires WorkerStep(step) && WorkerEnabled(s, step) && step.j in s.issued && s.issued[step.j] != a
    ensures Bypasses(s.db, WorkerTables(s, step), a)
  {
    if !Appends(step) {
      WorkerIsSilent(s, step);
      SilentBypasses(s.db, WorkerTables(s, step), a);
    }
  }

  lemma OtherBypasses(s: System, step: Step, a: AttemptId)
    requires !WorkerStep(step) && Enabled(s, step) && !Submits(s, step, a) && a !in s.live
    ensures Bypasses(s.db, ApplyOther(s, step).db, a)
  {
    if !Appends(step) && !step.FinishScored? && !step.SubmitRequest? {
      OthersAreSilent(s, step);
      SilentBypasses(s.db, ApplyOther(s, step).db, a);
    }
  }

  /** New workers belong to submitted or recovered jobs. */
  lemma WorkersElsewhere(s: System, step: Step, a: AttemptId)
    requires Aside(s, a) && !WorkerStep(step) && Enabled(s, step) && !Submits(s, step, a)
    ensures forall j :: j in ApplyOther(s, step).workers ==> j in ApplyOther(s, step).issued && ApplyOther(s, step).issued[j] != a
  {
    var t := ApplyOther(s, step);
    if step.RecoverJobs? {
      forall j | j in t.workers
        ensures j in t.issued && t.issued[j] != a
      {
        assert j in s.db.jobs && t.issued == s.issued;
      }
    }
  }

  lemma StaysUnexecuted(s: System, step: Step, a: AttemptId)
    requires Aside(s, a) && Enabled(s, step)
    ensures a !in Apply(s, step).live
  {
    assert RowOk(s.db.attempts[a]);
  }

  lemma StepsAside(s: System, step: Step, a: AttemptId)
    requires Aside(s, a) && Enabled(s, step) && !Submits(s, step, a)
    ensures Aside(Apply(s, step), a)
  {
    var t := Apply(s, step);
    StepKeepsExecution(s, step);
    assert Owned(t) by {
      StepKeepsOwners(s, step);
    }
    StaysUnexecuted(s, step, a);
    if WorkerStep(step) {
      WorkerBypasses(s, step, a);
    } else {
      OtherBypasses(s, step, a);
      WorkersElsewhere(s, step, a);
    }
  }

  lemma StepKeepsOwners(s: System, step: Step)
    requires Owned(s) && Enabled(s, step)
    ensures Owned(Apply(s, step))
  {
    if !Appends(step) {
      if WorkerStep(step) {
        WorkerKeepsHistory(s, step);
      } else {
        OthersKeepHistory(s, step);
      }
    }
  }

  predicate EverSubmits(s: System, steps: seq<Step>, a: AttemptId)
    requires Runs(s, steps)
    decreases |steps|
  {
    steps != [] && (Submits(s, steps[0], a) || EverSubmits(Apply(s, steps[0]), steps[1..], a))
  }

  predicate EverPrepares(s: System, steps: seq<Step>, a: AttemptId)
    requires Runs(s, steps)
    decreases |steps|
  {
    steps != [] && (Prepares(s, steps[0], a) || EverPrepares(Apply(s, steps[0]), steps[1..], a))
  }

  /** Some state of the run has a job of `a`. */
  predicate EverHasJob(s: System, steps: seq<Step>, a: AttemptId)
    requires Runs(s, steps)
    decreases |steps|
  {
    HasJob(s.db, a) || (steps != [] && EverHasJob(Apply(s, steps[0]), steps[1..], a))
  }

  lemma SubmissionMakesAJob(s: System, step: Step, a: AttemptId)
    requires Enabled(s, step) && Submits(s, step, a)
    ensures HasJob(Apply(s, step).db, a)
  {
    assert step.j in Apply(s, step).db.jobs && Apply(s, step).db.jobs[step.j].attempt == a;
  }

  /** Over every run: such an attempt gets a job exactly if a rejudge of it is submitted, and without one it
      never has a job nor a row in the outbox. */
  lemma {:induction false} OnlyRejudgesBringJobs(s: System, steps: seq<Step>, a: AttemptId)
    requires Aside(s, a) && Runs(s, steps)
    ensures EverHasJob(s, steps, a) <==> EverSubmits(s, steps, a)
    ensures !EverSubmits(s, steps, a) ==> Aside(After(s, steps), a)
    decreases |steps|
  {
    if steps != [] {
      if Submits(s, steps[0], a) {
        SubmissionMakesAJob(s, steps[0], a);
        assert EverHasJob(Apply(s, steps[0]), steps[1..], a);
      } else {
        StepsAside(s, steps[0], a);
        OnlyRejudgesBringJobs(Apply(s, steps[0]), steps[1..], a);
      }
    }
  }

  /** No request of `a` is on its way. */
  predicate Unrequested(s: System, a: AttemptId) {
    forall q :: q in s.pending ==> s.pending[q].attempt != a
  }

  lemma RequestsArePrepared(s: System, step: Step, a: AttemptId)
    requires Unrequested(s, a) && Enabled(s, step) && !Prepares(s, step, a)
    ensures Unrequested(Apply(s, step), a) && !Submits(s, step, a)
  {
  }

  lemma {:induction false} SubmissionsArePrepared(s: System, steps: seq<Step>, a: AttemptId)
    requires Unrequested(s, a) && Runs(s, steps) && EverSubmits(s, steps, a)
    ensures EverPrepares(s, steps, a)
    decreases |steps|
  {
    if !Prepares(s, steps[0], a) {
      RequestsArePrepared(s, steps[0], a);
      SubmissionsArePrepared(Apply(s, steps[0]), steps[1..], a);
    }
  }

  /** An attempt that the runner concludes as `model_integrity_failed`, with nothing queued, committed or
      requested for it so far: over every run from there it gets a job exactly if a rejudge of it is
      submitted, which takes a request that passed the checks; otherwise it ends without a job, a score row
      in the outbox or a worker. */
  lemma ViolatedAttemptsNeedARejudge(s: System, steps: seq<Step>, a: AttemptId)
    requires Owned(s) && ExecutionInvariant(s) && a in s.live && a in s.db.attempts
    requires !HasJob(s.db, a) && !HasCommit(s.db, a) && Unrequested(s, a)
    requires forall j :: j in s.workers ==> j in s.issued && s.issued[j] != a
    requires Runs(Apply(s, FinishUnscored(a, ModelIntegrityFailed)), steps)
    ensures var t := Apply(s, FinishUnscored(a, ModelIntegrityFailed));
            && (EverHasJob(t, steps, a) <==> EverSubmits(t, steps, a))
            && (EverSubmits(t, steps, a) ==> EverPrepares(t, steps, a))
            && (!EverSubmits(t, steps, a) ==> !HasJob(After(t, steps).db, a) && !HasCommit(After(t, steps).db, a))
  {
    var step := FinishUnscored(a, ModelIntegrityFailed);
    var t := Apply(s, step);
    StepKeepsExecution(s, step);
    StepKeepsOwners(s, step);
    assert t.db.jobs == s.db.jobs && t.db.outbox == s.db.outbox;
    OnlyRejudgesBringJobs(t, steps, a);
    if EverSubmits(t, steps, a) {
      SubmissionsArePrepared(t, steps, a);
    }
  }
}
