/** The status of a durable goal and the reasons that go with it. */
module GoalStatus {
  import opened Options

  datatype Status = Queued | Running | AwaitingApproval | Pausing | Paused | Blocked | Completed | Failed | Cancelled

  datatype PauseReason = UserPause | AppRestarted | BudgetPause | ProviderUnavailable

  datatype BlockReason = WorkspaceConflict | AmbiguousToolEffect | NoProgress | VerifierRejected |
    CompletionCandidateInvalid | ModelResponseInvalid | RuntimeInvariant | CheckpointCorrupt | StorageLocked | RunawayGuard

  predicate Terminal(status: Status) {
    status.Completed? || status.Failed? || status.Cancelled?
  }
}
