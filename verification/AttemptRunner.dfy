/** How the end of an adapter's run becomes a row: the decision table of the runner. */
module AttemptRunner {
  import opened Statuses
  import opened ModelIntegrity
  import opened IntegrityLatch

  /** What the runner looks at, in the order it looks. */
  datatype Ending = Ending(crashed: bool, rowsExist: bool, envLoaded: bool, adapter: Status, iterationError: bool,
                           finalizedFromLast: bool, integrity: Option<Integrity>, inputFrozen: bool, deferred: bool)

  datatype Conclusion = Unscored(status: Status) | Untouched | QueueScoring(adapter: Status) | ScoreInline(adapter: Status)

  /** `_ADAPTER_SCORABLE_DESPITE_FAILURE`. */
  predicate ScorableDespiteFailure(s: Status) {
    s in {Timeout, ChatFailed}
  }

  /** The values of `AttemptStatus`; the others occur only on the execution and scoring axes. */
  predicate Declared(s: Status) {
    s !in {NotReady, Failed, Skipped, TimedOut}
  }

  /** `_ADAPTER_TERMINAL_NO_SCORE`. */
  predicate NoScore(s: Status) {
    Declared(s) && !Stale(s) && s !in {Completed, GaveUp} && !ScorableDespiteFailure(s)
  }

  /** `_run_attempt_inner` up to the scoring. */
  method Conclude(e: Ending) returns (c: Conclusion)
    ensures c == Concluded(e)
  {
    if e.crashed {
      return Unscored(BladeServiceUnavailable);
    }
    if !e.rowsExist {
      return Untouched;
    }
    if !e.envLoaded {
      if e.adapter == Completed {
        return Unscored(ScoringFailed);
      }
      return Unscored(e.adapter);
    }
    if e.iterationError && !e.finalizedFromLast {
      return Unscored(e.adapter);
    }
    if e.integrity == Some(Violated) {
      return Unscored(ModelIntegrityFailed);
    }
    if NoScore(e.adapter) {
      return Unscored(e.adapter);
    }
    if !e.inputFrozen {
      return Unscored(if ScorableDespiteFailure(e.adapter) then e.adapter else InputSnapshotMissing);
    }
    if e.deferred {
      return QueueScoring(e.adapter);
    }
    return ScoreInline(e.adapter);
  }

  /** Everything an attempt needs to reach scoring. */
  predicate MayScore(e: Ending) {
    && !e.crashed && e.rowsExist && e.envLoaded && e.inputFrozen
    && (e.iterationError ==> e.finalizedFromLast)
    && e.integrity != Some(Violated)
    && !NoScore(e.adapter)
  }

  /** The conclusion by what it is about: scoring is reached exactly under `MayScore`, and an unscored
      conclusion says why in the order of blame. */
  function Concluded(e: Ending): Conclusion {
    if MayScore(e) then (if e.deferred then QueueScoring(e.adapter) else ScoreInline(e.adapter))
    else if !e.crashed && !e.rowsExist then Untouched
    else Unscored(Blame(e))
  }

  /** Who is to blame for an attempt without a score. */
  function Blame(e: Ending): Status {
    var stopped := e.iterationError && !e.finalizedFromLast;
    if e.crashed then BladeServiceUnavailable
    else if !e.envLoaded && e.adapter == Completed then ScoringFailed
    else if e.envLoaded && !stopped && e.integrity == Some(Violated) then ModelIntegrityFailed
    else if e.envLoaded && !stopped && !NoScore(e.adapter) && !ScorableDespiteFailure(e.adapter) then InputSnapshotMissing
    else e.adapter
  }

  /** The adapter statuses after which an attempt goes on to scoring if nothing else stops it: its two results, the
      two failures that may leave something to score, and what is no terminal status at all. */
  predicate GoesOn(s: Status) {
    s in {Completed, GaveUp, Timeout, ChatFailed, Queued, StartingSession, Running, NotReady, Failed, Skipped, TimedOut}
  }

  /** The whole table: who is scored, and under which status everybody else ends. */
  lemma ConclusionDecided(e: Ending)
    ensures var c := Concluded(e);
            var loaded := !e.crashed && e.rowsExist && e.envLoaded;
            var ended := loaded && (!e.iterationError || e.finalizedFromLast);
            && (c == Untouched <==> !e.crashed && !e.rowsExist)
            && (c == QueueScoring(e.adapter) <==> ended && e.integrity != Some(Violated) && GoesOn(e.adapter) && e.inputFrozen && e.deferred)
            && (c == ScoreInline(e.adapter) <==> ended && e.integrity != Some(Violated) && GoesOn(e.adapter) && e.inputFrozen && !e.deferred)
            && (e.crashed ==> c == Unscored(BladeServiceUnavailable))
            && (!e.crashed && e.rowsExist && !e.envLoaded ==> c == Unscored(if e.adapter == Completed then ScoringFailed else e.adapter))
            && (loaded && !ended ==> c == Unscored(e.adapter))
            && (ended && e.integrity == Some(Violated) ==> c == Unscored(ModelIntegrityFailed))
            && (ended && e.integrity != Some(Violated) && !GoesOn(e.adapter) ==> c == Unscored(e.adapter))
            && (ended && e.integrity != Some(Violated) && GoesOn(e.adapter) && !e.inputFrozen ==>
                  c == Unscored(if e.adapter in {Timeout, ChatFailed} then e.adapter else InputSnapshotMissing))
  {
  }

  /** The runner itself never queues or scores an attempt of which an observation named no model or another one,
      recorded before the adapter returned, whatever the adapter reports and however often the recorder's
      caches were emptied.  The promise ends with the runner: a later rejudge of the attempt is accepted
      and scores it, see `RejudgedViolations`. */
  lemma RunnerNeverScoresViolations(rows: Rows, events: seq<Event>, a: Id, m: string, e: Ending)
    requires ModelIntegrity.Fresh(rows) && a in rows && MadeFor(rows[a], m)
    requires exists o :: o in events && Breaks(o, a, m)
    requires a in RunCached(Cached(rows, map[], {}), events).rows ==>
               e.integrity == Some(RunCached(Cached(rows, map[], {}), events).rows[a].status)
    ensures !Concluded(e).QueueScoring? && !Concluded(e).ScoreInline?
  {
    LatchOverObservations(rows, events, a, m);
  }
}
