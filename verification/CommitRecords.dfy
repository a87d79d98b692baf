/** Judge runs against the commits they describe, over whole runs: between a commit and the record of its
    judge run any other step may happen. */
module CommitRecords {
  import opened Statuses
  import opened AttemptTables
  import opened ScoringProtocol
  import opened CommitHistory
  import opened ScoreSafety
  import opened ScoreRuns

  /** No later row of the same attempt. */
  predicate IsLast(outbox: seq<Commit>, i: nat) {
    i < |outbox| && forall k :: i < k < |outbox| ==> outbox[k].attempt != outbox[i].attempt
  }

  // ---------- one record ----------

  lemma {:induction false} NewestIsLast(db: Db, i: nat)
    requires RevisionsOk(db) && i < |db.outbox|
    ensures db.outbox[i].revision <= MaxRevision(db.outbox, db.outbox[i].attempt)
    ensures db.outbox[i].revision == MaxRevision(db.outbox, db.outbox[i].attempt) <==> IsLast(db.outbox, i)
    ensures IsLast(db.outbox, i) ==> Latest(db.outbox, db.outbox[i].attempt) == Some(db.outbox[i].score)
  {
    var a := db.outbox[i].attempt;
    MaxRevisionBounds(db.outbox, a);
    assert db.outbox[i] in db.outbox;
    LatestHasHighestRevision(db, a);
    if IsLast(db.outbox, i) {
      var m := MaxRevision(db.outbox, a);
      assert m != 0 ==> m in Revisions(db.outbox, a);
      if m != 0 {
        var c :| c in db.outbox && c.attempt == a && c.revision == m;
        var k :| 0 <= k < |db.outbox| && db.outbox[k] == c;
        assert k <= i;
      }
    } else {
      var k :| i < k < |db.outbox| && db.outbox[k].attempt == a;
      assert db.outbox[k] in db.outbox;
    }
  }

  /** The judge run of a worker that has committed, whatever happened since: it carries the revision of the
      worker's own outbox row exactly if that row is still the last of the attempt and no judge run has
      taken its number, and it carries the committed score exactly if the row of the attempt still shows
      it, a missing score being recorded as 0. */
  lemma RecordExact(s: System, j: JobId, i: nat)
    requires HistoryInvariant(s) && Enabled(s, LogJob(j)) && s.issued[j] in s.db.attempts
    requires i < |s.db.outbox| && s.db.outbox[i].job == Some(j)
    ensures var db, c, after := s.db, s.db.outbox[i], Apply(s, LogJob(j)).db;
            && c.attempt == s.issued[j] && |after.judgeRuns| == |db.judgeRuns| + 1
            && var r := after.judgeRuns[|db.judgeRuns|];
            && r.attempt == c.attempt
            && (r.revision == c.revision <==> IsLast(db.outbox, i) && MaxJudged(db.judgeRuns, c.attempt) < c.revision)
            && (r.score == c.score <==> (db.attempts[c.attempt].score == Some(c.score)
                                         || (db.attempts[c.attempt].score == None && c.score == 0)))
  {
    assert s.db.outbox[i] in s.db.outbox;
    NewestIsLast(s.db, i);
  }

  // ---------- whole runs ----------

  /** Every judge run has the number and the score of a commit of its attempt. */
  predicate Aligned(db: Db) {
    forall r :: r in db.judgeRuns ==> HasCommit(db.outbox, r)
  }

  predicate HasCommit(outbox: seq<Commit>, r: JudgeRun) {
    exists c :: c in outbox && c.attempt == r.attempt && c.revision == r.revision && c.score == r.score
  }

  /** The own row of a committed worker is still the last of its attempt and not judged yet. */
  predicate ReadyToLog(s: System, j: JobId) {
    j in s.issued && exists i :: 0 <= i < |s.db.outbox| && OwnRow(s.db, i, j, s.issued[j])
  }

  predicate OwnRow(db: Db, i: nat, j: JobId, a: AttemptId) {
    && i < |db.outbox| && db.outbox[i].job == Some(j) && db.outbox[i].attempt == a
    && IsLast(db.outbox, i) && MaxJudged(db.judgeRuns, a) < db.outbox[i].revision
  }

  predicate RecordInvariant(s: System) {
    && ScoreInvariant(s) && Aligned(s.db)
    && forall j :: j in s.workers && s.workers[j] == Landed ==> ReadyToLog(s, j)
  }

  /** A lawful step that is no late commit between a commit of the same attempt and its record. */
  predicate Tidy(s: System, step: Step)
    requires Enabled(s, step)
  {
    && Lawful(s, step)
    && (step.OrphanCommits? ==> forall k :: k in s.workers && s.workers[k] == Landed && k in s.issued ==> s.issued[k] != s.issued[step.j])
  }

  predicate TidyRun(s: System, steps: seq<Step>)
    requires Runs(s, steps)
    decreases |steps|
  {
    steps == [] || (Tidy(s, steps[0]) && TidyRun(Apply(s, steps[0]), steps[1..]))
  }

  /** A committed worker is the only flight of its attempt. */
  lemma LandedIsAlone(s: System, j: JobId, k: JobId)
    requires Sane(s) && At(s, j, {Landed}) && j in s.issued && k in Flights(s.db, s.issued[j])
    ensures k == j
  {
    assert WorkerOk(s.db, j, s.workers[j]);
    OnlyFlight(s.db, j);
  }

  lemma OwnRowStays(before: Db, after: Db, i: nat, j: JobId, a: AttemptId)
    requires OwnRow(before, i, j, a) && before.outbox <= after.outbox
    requires forall k :: |before.outbox| <= k < |after.outbox| ==> after.outbox[k].attempt != a
    requires MaxJudged(after.judgeRuns, a) <= MaxJudged(before.judgeRuns, a)
    ensures OwnRow(after, i, j, a)
  {
  }

  /** Commits and records of other attempts leave a committed worker ready. */
  lemma OthersStayReady(s: System, t: System, k: JobId)
    requires ReadyToLog(s, k) && k in t.issued && t.issued[k] == s.issued[k] && s.db.outbox <= t.db.outbox
    requires forall n :: |s.db.outbox| <= n < |t.db.outbox| ==> t.db.outbox[n].attempt != s.issued[k]
    requires MaxJudged(t.db.judgeRuns, s.issued[k]) <= MaxJudged(s.db.judgeRuns, s.issued[k])
    ensures ReadyToLog(t, k)
  {
    var i :| 0 <= i < |s.db.outbox| && OwnRow(s.db, i, k, s.issued[k]);
    OwnRowStays(s.db, t.db, i, k, s.issued[k]);
  }

  lemma AppendedStaysAligned(before: Db, after: Db)
    requires Aligned(before) && before.outbox <= after.outbox && after.judgeRuns == before.judgeRuns
    ensures Aligned(after)
  {
    forall r | r in after.judgeRuns
      ensures HasCommit(after.outbox, r)
    {
      var c :| c in before.outbox && c.attempt == r.attempt && c.revision == r.revision && c.score == r.score;
      assert c in after.outbox;
    }
  }

  lemma LandedInFlight(s: System, k: JobId)
    requires Sane(s) && At(s, k, {Landed}) && k in s.issued
    ensures k in Flights(s.db, s.issued[k]) && k in s.db.jobs && s.db.jobs[k].attempt == s.issued[k]
  {
    assert WorkerOk(s.db, k, s.workers[k]);
    OnlyFlight(s.db, k);
  }

  /** The attempt that a tidy step commits for has no other committed worker. */
  lemma CommitsElsewhere(s: System, step: Step, k: JobId)
    requires RecordInvariant(s) && Enabled(s, step) && Tidy(s, step) && At(s, k, {Landed}) && k in s.issued
    requires step.FinishInline? || CommitStep(step)
    ensures s.issued[k] != if step.FinishInline? then step.a else s.issued[step.j]
  {
    LandedInFlight(s, k);
    if step.FinishInline? {
      assert Executing(s, step.a) && Unscored(s.db, step.a);
    } else if step.CommitJob? && s.issued[step.j] == s.issued[k] {
      CommitIsAccepted(s, step.j);
      LandedIsAlone(s, k, step.j);
    }
  }

  lemma CommitKeepsRecords(s: System, step: Step)
    requires RecordInvariant(s) && Enabled(s, step) && Tidy(s, step) && (step.FinishInline? || CommitStep(step))
    ensures Aligned(Apply(s, step).db)
    ensures forall k :: k in Apply(s, step).workers && Apply(s, step).workers[k] == Landed ==> ReadyToLog(Apply(s, step), k)
  {
    var t := Apply(s, step);
    StepKeepsHistory(s, step);
    AppendedStaysAligned(s.db, t.db);
    forall k | k in t.workers && t.workers[k] == Landed
      ensures ReadyToLog(t, k)
    {
      if step.CommitJob? && k == step.j {
        FreshlyLanded(s, step);
      } else {
        CommitLeavesReady(s, step, k);
      }
    }
  }

  lemma CommitLeavesReady(s: System, step: Step, k: JobId)
    requires RecordInvariant(s) && Enabled(s, step) && Tidy(s, step) && (step.FinishInline? || CommitStep(step))
    requires At(s, k, {Landed}) && ReadyToLog(s, k)
    ensures ReadyToLog(Apply(s, step), k)
  {
    CommitsElsewhere(s, step, k);
    CommitAppends(s, step);
    OthersStayReady(s, Apply(s, step), k);
  }

  lemma CommitAppends(s: System, step: Step)
    requires Enabled(s, step) && (step.FinishInline? || CommitStep(step))
    ensures var t, a := Apply(s, step), if step.FinishInline? then step.a else s.issued[step.j];
            && s.db.outbox <= t.db.outbox && t.db.judgeRuns == s.db.judgeRuns && t.issued == s.issued
            && forall n :: |s.db.outbox| <= n < |t.db.outbox| ==> t.db.outbox[n].attempt == a
  {
  }

  lemma FreshlyLanded(s: System, step: Step)
    requires RecordInvariant(s) && Enabled(s, step) && step.CommitJob?
    ensures ReadyToLog(Apply(s, step), step.j)
  {
    var t, a, n := Apply(s, step), s.issued[step.j], |s.db.outbox|;
    CommitIsAccepted(s, step.j);
    CommitIsNewest(s.db, a);
    assert OwnRow(t.db, n, step.j, a);
  }

  /** The record a ready worker makes is that of its own commit. */
  lemma ReadyRecords(s: System, j: JobId)
    requires RecordInvariant(s) && Enabled(s, LogJob(j))
    ensures var after := Apply(s, LogJob(j)).db;
            && s.issued[j] in s.db.attempts && |after.judgeRuns| == |s.db.judgeRuns| + 1
            && exists i :: 0 <= i < |s.db.outbox| && s.db.outbox[i].job == Some(j) &&
                 after.judgeRuns[|s.db.judgeRuns|] == JudgeRun(s.issued[j], s.db.outbox[i].revision, s.db.outbox[i].score)
  {
    assert WorkerOk(s.db, j, s.workers[j]);
    assert ReadyToLog(s, j);
    var i :| 0 <= i < |s.db.outbox| && OwnRow(s.db, i, j, s.issued[j]);
    RecordExact(s, j, i);
    NewestIsLast(s.db, i);
    OnlyFlight(s.db, j);
  }

  lemma LogKeepsRecords(s: System, step: Step)
    requires RecordInvariant(s) && Enabled(s, step) && step.LogJob?
    ensures Aligned(Apply(s, step).db)
    ensures forall k :: k in Apply(s, step).workers && Apply(s, step).workers[k] == Landed ==> ReadyToLog(Apply(s, step), k)
  {
    var t, j := Apply(s, step), step.j;
    ReadyRecords(s, j);
    var r := t.db.judgeRuns[|s.db.judgeRuns|];
    assert t.db.judgeRuns == s.db.judgeRuns + [r] && t.db.outbox == s.db.outbox;
    assert HasCommit(t.db.outbox, r);
    forall k | k in t.workers && t.workers[k] == Landed
      ensures ReadyToLog(t, k)
    {
      assert ReadyToLog(s, k) && WorkerOk(s.db, k, s.workers[k]);
      if s.issued[k] == s.issued[j] {
        LandedIsAlone(s, j, k);
      }
      MaxJudgedAppend(s.db.judgeRuns, r, s.issued[k]);
      OthersStayReady(s, t, k);
    }
  }

  lemma OtherLandedBefore(s: System, step: Step, k: JobId)
    requires !WorkerStep(step) && OtherEnabled(s, step) && !Appends(step)
    requires k in ApplyOther(s, step).workers && ApplyOther(s, step).workers[k] == Landed
    ensures k in s.workers && s.workers[k] == Landed
    ensures k in s.issued ==> k in ApplyOther(s, step).issued && ApplyOther(s, step).issued[k] == s.issued[k]
  {
  }

  lemma LandedBefore(s: System, step: Step, k: JobId)
    requires Enabled(s, step) && !Appends(step)
    requires k in Apply(s, step).workers && Apply(s, step).workers[k] == Landed
    ensures k in s.workers && s.workers[k] == Landed
    ensures k in s.issued ==> k in Apply(s, step).issued && Apply(s, step).issued[k] == s.issued[k]
  {
    if !WorkerStep(step) {
      OtherLandedBefore(s, step, k);
    }
  }

  lemma QuietTables(s: System, step: Step)
    requires Owned(s) && Enabled(s, step) && !Appends(step)
    ensures Apply(s, step).db.outbox == s.db.outbox && Apply(s, step).db.judgeRuns == s.db.judgeRuns
  {
    if WorkerStep(step) {
      WorkerKeepsHistory(s, step);
    } else {
      OthersKeepHistory(s, step);
    }
  }

  lemma StaysReady(s: System, step: Step, k: JobId)
    requires Owned(s) && Enabled(s, step) && !Appends(step) && ReadyToLog(s, k)
    requires k in Apply(s, step).workers && Apply(s, step).workers[k] == Landed
    ensures ReadyToLog(Apply(s, step), k)
  {
    QuietTables(s, step);
    LandedBefore(s, step, k);
    OthersStayReady(s, Apply(s, step), k);
  }

  lemma QuietKeepsRecords(s: System, step: Step)
    requires RecordInvariant(s) && Enabled(s, step) && !Appends(step)
    ensures Aligned(Apply(s, step).db)
    ensures forall k :: k in Apply(s, step).workers && Apply(s, step).workers[k] == Landed ==> ReadyToLog(Apply(s, step), k)
  {
    QuietTables(s, step);
    forall k | k in Apply(s, step).workers && Apply(s, step).workers[k] == Landed
      ensures ReadyToLog(Apply(s, step), k)
    {
      LandedBefore(s, step, k);
      StaysReady(s, step, k);
    }
  }

  lemma StepKeepsRecords(s: System, step: Step)
    requires RecordInvariant(s) && Enabled(s, step) && Tidy(s, step)
    ensures RecordInvariant(Apply(s, step))
  {
    StepKeepsScores(s, step);
    if step.LogJob? {
      LogKeepsRecords(s, step);
    } else if Appends(step) {
      CommitKeepsRecords(s, step);
    } else {
      QuietKeepsRecords(s, step);
    }
  }

  lemma {:induction false} RunsKeepRecords(s: System, steps: seq<Step>)
    requires RecordInvariant(s) && Runs(s, steps) && TidyRun(s, steps)
    ensures RecordInvariant(After(s, steps))
    decreases |steps|
  {
    if steps != [] {
      StepKeepsRecords(s, steps[0]);
      RunsKeepRecords(Apply(s, steps[0]), steps[1..]);
    }
  }

  /** In every tidy run, whatever else interleaves between a commit and its record: the record carries exactly
      the revision and the score of the worker's own commit, every judge run ever recorded matches a
      commit, and the judge runs of an attempt have strictly increasing revisions, also where commits
      recorded nothing. */
  lemma JudgeRunsMatchCommits(steps: seq<Step>, j: JobId)
    requires Runs(INITIAL, steps) && TidyRun(INITIAL, steps)
    ensures var s := After(INITIAL, steps);
            && Aligned(s.db) && RevisionsOk(s.db)
            && (Enabled(s, LogJob(j)) ==>
                  && |Apply(s, LogJob(j)).db.judgeRuns| == |s.db.judgeRuns| + 1
                  && exists i :: 0 <= i < |s.db.outbox| && s.db.outbox[i].job == Some(j) &&
                       Apply(s, LogJob(j)).db.judgeRuns[|s.db.judgeRuns|] ==
                       JudgeRun(s.issued[j], s.db.outbox[i].revision, s.db.outbox[i].score))
  {
    RunsKeepRecords(INITIAL, steps);
    var s := After(INITIAL, steps);
    if Enabled(s, LogJob(j)) {
      ReadyRecords(s, j);
    }
  }
}
