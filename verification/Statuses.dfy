/** Values shared by every table: optional columns and the status vocabulary.

    The three status columns of an attempt (legacy `status`, `execution_status`, `scoring_status`)
    and the status column of a scoring job are free text in SQLite.  They share one vocabulary here,
    so that a value written into the wrong column stays expressible. */
module Statuses {

  datatype Option<+T> = None | Some(value: T)

  datatype Status =
      // non-terminal attempt statuses
    | Queued | StartingSession | Running
    | Scoring
      // declared attempt conclusions
    | Cancelled | Interrupted | Completed | GaveUp | Timeout
    | BladeServiceUnavailable | AuthFailed | SessionCreateFailed | SessionSocketOverflow
    | ServerUnreachable | ProviderQuotaExhausted | ChatFailed | ScoringFailed
    | CliNotFound | CliError | CaptureInfrastructureFailed | ModelIntegrityFailed
    | SandboxUnavailable | InputSnapshotMissing | DiskExhausted
      // values used only on the execution or scoring axis
    | NotReady | Failed | Skipped | TimedOut

  /** `_OPEN_LEGACY`: the legacy axis still has to be converged. */
  predicate OpenLegacy(s: Status) {
    s in {Queued, StartingSession, Running, Scoring}
  }

  /** `_OPEN_EXECUTION`. */
  predicate OpenExecution(s: Status) {
    s in {Queued, Running}
  }

  /** `_OPEN_SCORING`. */
  predicate OpenScoring(s: Status) {
    s in {NotReady, Queued, Running}
  }

  /** A scoring axis or a scoring job that some worker may still finish. */
  predicate InFlight(s: Status) {
    s in {Queued, Running}
  }

  /** `NON_TERMINAL_ATTEMPT_STATUSES`: what startup recovery looks for.  `Scoring` is terminal in
      this sense although it is open in the sense of `OpenLegacy`. */
  predicate Stale(s: Status) {
    s in {Queued, StartingSession, Running}
  }
}
