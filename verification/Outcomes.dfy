/** What an issue run returns to the orchestrator: internal/service/issueflow/result.go. */
module Outcomes {
  datatype Outcome = NoOutcome | Done | WaitHuman | RetryFailure | RetryContinuation | Stopped

  datatype Failure = NoFailure | Canceled | Failed(message: string)

  datatype Exit = Exit(outcome: Outcome, failure: Failure)
}
