# Symphony service model

A Dafny model of the service in this repository that watches an issue tracker, runs a
coding agent for each eligible issue, and retries, reviews and cleans up after it. The
model is of the algorithms and protocols: `dafny verify dfyconfig.toml` checks all of it.

## What is modelled

**The scheduler.** `Tables` holds the orchestrator's coupled tables and its critical
sections as functions; `Orchestrator` is the class whose methods run those sections with
the loops the code has, each proved to do what its function says. `Scheduler` puts the
tables together with every worker, retry handler and armed timer and with the poll loop:
each has a program counter, each critical section is one step, and tracker answers, clock
ticks and timers that fire late are free choices, so a run is any interleaving. What all
interleavings keep is in `RetryInvariants` and `FleetInvariants`, the promises in
`SchedulerTheorems`. `WorkerExits` and `RetryHandlers` say what every return of a flow and
every fired timer lead to, `HistoryTheorems` what the tables remember, what shutdown does
and whom a scan for stalls reaches, and `BoardTheorems` what a running entry shows. The
attempt numbers of consecutive failures are in `RetryChain`, tokens and running time in
`Ledger`, the retry delay in `Backoff`, and one poll pass with its sorted candidates in
`PollPass`, `PassTheorems`, `CandidateOrder` and `Eligibility`.

**The issue flow.** `IssueFlow` is one run as a function of everything the agent and the
tracker may answer, leaving a log of what was seen, heard, begun, recorded and written, and
of what failed; `SessionLoop` is the session loop with its growing queue of prompts and the
closure that overwrites captured variables. `FlowProtocol` says, in words of its own, which
act is due after which log and how a log may end, `FlowTheorems` proves it of every run,
and `FlowStory` that logs tell all that comes from outside.

**The one-operation check.** `GraphQLScan` is the character scanner with its index loops.
`GraphQLDocument` prints documents of operations and fragments lexeme by lexeme (GraphQL,
October 2021 edition), and `GraphQLReading` is how the scanner reads a text, any text, token
by token. `GraphQLAgreement` compares its answer with what the document holds. A document is
tame there when block strings hold escaped triple quotes only inside braces and in pairs,
with no quote, number sign or brace between those of a pair, or hold none.
`GraphQLEscapes` is about documents that are not tame.

**Workspaces.** `Paths` is the lexical part. `FileTree` is a file system with symbolic
links, resolved as the kernel does, with at most 40 links followed, and as EvalSymlinks
does, with at most 255. `Workspace` is the manager on such a disk, `WorkspaceTheorems`
says what it can change, and `WorkspaceSuccess` exactly when it succeeds.

**Reloading.** `Reloader` is the two-phase reloader, `ReloaderRuns` the reloader while the
file is being written, and `Refresh` the swap of workflow, tracker, workspaces and runner.

**Two shells.** `Shell` is the quoting, and a reader of commands after POSIX.1-2017 XCU
sections 2.2 and 2.3.

## Where the code does not do what one would expect

- The doubling in the retry delay wraps at attempt 31 (`Backoff.FirstWrap`).
  `Backoff.BackoffExactlyWhen` says which attempts get the intended delay.
- The scanner takes a brace group in a header, such as an object default, for a selection
  set, so that it refuses an operation (`GraphQLAgreement.EmptyDefaultIsRefused`) and accepts
  a document without any (`GraphQLAgreement.ArgumentFragmentIsAccepted`).
  `GraphQLAgreement.ScanAgreesExactlyWhen` says when its answer is right.
- It ends a block string at an escaped triple quote, so that it refuses operations
  (`GraphQLEscapes.EscapedTripleIsRefused`), and lets through documents with any number of
  them (`GraphQLEscapes.ManyAreAccepted`): it takes what lies between two such strings for
  a string (`GraphQLEscapes.SwallowedIsNotCounted`). Without an escaped triple quote no
  document with two operations gets through (`GraphQLAgreement.ScanNeverAcceptsTwo`).
- A link at a workspace's entry is removed before the directory is made. When the root
  itself is found only by way of that link, the root is lost with it
  (`WorkspaceSuccess.NeededLinkIsLost`); `WorkspaceSuccess.EnsureExactlyWhen` says when
  ensuring succeeds.
- The reloader can miss a change when the same modification time and size are there before
  and after a load of something else (`ReloaderRuns.ThereAndBackIsMissed`), and only then
  (`ReloaderRuns.NeverMissesExactlyWhenStampsTell`).
- Token totals exceed what entries last reported when a report is below the one before
  (`Ledger.LowerReportIsCounted`), and only then (`Ledger.TokenConservation`).
- In auto mode an AI Review to Merging write buys a turn beyond the budget. The budget is a
  hard cap exactly when that write cannot happen (`FlowTheorems.CapExactlyWhen`).

## Assumptions

- A tracker asked for one issue answers with that issue.
- Configuration is resolved: per-state keys are lower case, active states are not empty.
- State names fold as ASCII letters do. Times are integers, and the clock does not go back.
- Every read of the workflow file sees one version of it, and calls on the file system do
  not interleave with changes made by others.

## Model

| member | source | states |
|---|---|---|
| SchedulerTheorems.NoOrphanedClaim | internal/service/orchestrator/orchestrator.go:712-909 | in every reachable state of every interleaving a claimed id has an unfinished worker, a queued retry, or a retry handler between its clear and its release |
| SchedulerTheorems.QuietClaimsAreArmed | internal/service/orchestrator/retry.go:42-97 | with no worker and no handler in flight before shutdown, every claim has a recorded timer that is armed for it |
| SchedulerTheorems.OneWorkerPerIssue | internal/service/orchestrator/orchestrator.go:712-766 | the cancel table's keys are exactly the ids of workers between dispatch and their delete, one worker each; running ids are unique and are exactly those still in the issue flow |
| SchedulerTheorems.RetryTablesAgree | internal/service/orchestrator/retry.go:42-97 | retrying ids are unique, equal the attempt table's keys with the same numbers, and until shutdown equal the timer table's keys; armed timers are recorded ones, and a recorded timer is armed or has its handler |
| SchedulerTheorems.DispatchFitsLimits | internal/service/orchestrator/orchestrator.go:722-748 | a dispatch ends within the global and the per-state limit in force, and the claimed answer it ignores can never be the one it gets |
| SchedulerTheorems.OnlyDispatchGrowsRunning | internal/service/orchestrator/orchestrator.go:466-499 | from every reachable state only a dispatch adds a running entry, exactly one, and within the limits of the configuration it finds |
| SchedulerTheorems.ConcurrencyBound | internal/service/orchestrator/orchestrator.go:1087-1092 | the number of running entries never exceeds the largest limit that was in force during the run; under a fixed configuration, the limit itself |
| RetryInvariants.ScheduleKeepsAgreement | internal/service/orchestrator/retry.go:42-75 | queueing a retry keeps the three retry tables in agreement, whether it replaces an entry or appends one |
| RetryInvariants.ClearKeepsAgreement | internal/service/orchestrator/retry.go:77-86 | clearing a retry keeps the three retry tables in agreement |
| RetryInvariants.ScheduleKeepsTimers | internal/service/orchestrator/retry.go:42-75 | after queueing, every recorded timer is armed or acting and every armed timer is recorded, even when the timer replaced has already fired |
| RetryInvariants.StepKeepsRetries | internal/service/orchestrator/orchestrator.go:841-909 | every step of every actor keeps the retry tables, timers and handlers in agreement |
| FleetInvariants.StepKeepsFleet | internal/service/orchestrator/orchestrator.go:712-766 | every step keeps one worker per issue and the running entries tied to workers still in the flow |
| FleetInvariants.StepKeepsInv | internal/service/orchestrator/orchestrator.go:712-909 | all scheduler invariants together are inductive |
| FleetInvariants.RunsKeepInv | internal/service/orchestrator/orchestrator.go:103-123 | all scheduler invariants hold after any run from a fresh start |
| WorkerExits.EveryReturnIsAnswered | internal/service/orchestrator/orchestrator.go:759-811 | whatever the flow returns and whatever anybody does meanwhile, the worker is still on its way out or its last step has given what the return is owed: for a failure the next attempt with its error, for a continuation the first one, for a requested retry the next, each in all retry tables, due after its delay under the configuration in force, with its timer armed and the claim kept; for a human, done, stopped, cleaned-up, marked or shut-down issue the release of the claim and no retry; for a cancelled one the release if and only if no retry is queued |
| WorkerExits.NeverStuck | internal/service/orchestrator/orchestrator.go:759-811 | from wherever a worker is, a step of its own brings it nearer to its end, in at most seven |
| RetryHandlers.EveryFiringIsAnswered | internal/service/orchestrator/orchestrator.go:841-909 | whatever the tracker answers and whatever anybody does meanwhile, the handler of a fired timer is still at it or its last step has ended it as it should: after a failed fetch the queued retry with the next attempt and that error; for an issue that is gone, no longer eligible or met by shutdown nothing of the retry left and then the claim released; without a slot or when the dispatch is refused the next attempt for want of slots; otherwise a worker with the attempt the table had |
| RetryHandlers.NeverStuck | internal/service/orchestrator/orchestrator.go:841-909 | from wherever a retry handler is, a step of its own brings it nearer to its end |
| HistoryTheorems.TablesRemember | internal/service/orchestrator/orchestrator.go:411-426 | over every run: the configuration in force is the last reloaded one, an issue is marked for cleanup exactly as last marked unless a worker on its way out has taken the mark, and the service has ended or stopped its timers exactly when such a step was taken |
| HistoryTheorems.ShutdownStartsNothing | internal/service/orchestrator/orchestrator.go:712-717 | once the service has ended no step starts a worker |
| HistoryTheorems.StopDisarmsAll | internal/service/orchestrator/retry.go:88-97 | stopping the timers leaves none armed and none recorded, in every reachable state |
| HistoryTheorems.ScanBegins | internal/service/orchestrator/orchestrator.go:347-355 | a scan for stalled entries begins with all running entries, if there is a stall timeout |
| HistoryTheorems.ScanIsComplete | internal/service/orchestrator/orchestrator.go:347-376 | under every interleaving a scan looks at each of them in order; those found stalled without a queued retry, and no others, get a retry with attempt one, due after its delay |
| BoardTheorems.EntriesShowTheLatest | internal/service/orchestrator/run_stage.go:23-74 | every field of every running entry of every run is the latest that was said of it since its dispatch: by stages entered, events reported or states restated, each field by the ones that say something for it |
| RetryChain.StepKeepsChain | internal/service/orchestrator/orchestrator.go:759-811 | while one worker or timer answers for an issue, every step but a stall or a poll dispatch keeps it that way and keeps the attempt number; a retry queued for a failure has the next number, one queued for a continuation starts with one again |
| RetryChain.QueuedIsDue | internal/service/orchestrator/retry.go:42-75 | whoever queues a retry, for whatever reason, its entry has the attempt and is due after that attempt's delay under the configuration in force |
| RetryChain.ChainCountsOn | internal/service/orchestrator/orchestrator.go:841-909 | over any run without a stall or a poll dispatch of the issue, through any mix of failures and continuations, each entry queued for it has the number that follows the one before and is due after its delay |
| RetryChain.FailuresCountUp | internal/service/orchestrator/retry.go:17-75 | from a poll dispatch on, under every interleaving until a stall or another poll dispatch: failures in a row, from the start or after any continuation, raise the attempt by one each, each entry due after its delay; up to the thirtieth that is the ideal delay, never shorter than the ones before unless the cap is lowered; continuations wait a second and start with one again |
| RetryChain.QueuedRetryCountsOn | internal/service/orchestrator/retry.go:17-75 | the same from any reachable moment at which the issue's queued retry is alone, as after a stall |
| RetryChain.DispatchStartsChain | internal/service/orchestrator/orchestrator.go:722-757 | the poll's dispatch of an issue nothing else answers for leaves its one worker to answer for it |
| RetryChain.AloneStartsChain | internal/service/orchestrator/retry.go:42-97 | a queued retry that is alone has one timer to answer for it |
| Backoff.ComputeRetryDelay | internal/service/orchestrator/retry.go:17-33 | the doubling loop in wrapping int64 arithmetic computes the delay function for every attempt and cap |
| Backoff.BackoffClosedForm | internal/service/orchestrator/retry.go:17-40 | up to attempt 30 the delay is the smaller of 10s times 2^(attempt-1) and the cap, monotone in the attempt and never above the cap |
| Backoff.DelaysInSeconds | internal/service/orchestrator/retry.go:17-40 | in plain seconds: ten, doubled for each failure after the first, up to the cap in milliseconds; one second for a continuation |
| Backoff.DefaultDelays | internal/service/orchestrator/retry.go:35-40 | without a configured cap: 10, 20, 40, 80, 160 and then 300 seconds |
| Backoff.BackoffExactlyWhen | internal/service/orchestrator/retry.go:17-40 | for every attempt and every int64 cap, the loop yields that delay if and only if the attempt is at most 30 or what the wrapping has left still reaches the cap |
| Backoff.DoubledPast30 | internal/service/orchestrator/retry.go:24-28 | what the wrapping leaves at every attempt past 30, as a table and then nothing |
| Backoff.BackoffBelowSixYears | internal/service/orchestrator/retry.go:17-40 | for caps below six years, the fixed list of later attempts that still get the cap; all others get no delay at all |
| Backoff.FirstWrap | internal/service/orchestrator/retry.go:24-31 | attempt 31 under the default cap yields a negative delay where the ideal one is five minutes |
| Eligibility.AvailableSlotsForState | internal/service/orchestrator/eligibility.go:62-90 | the counting loop returns the least of the free global slots and the free slots of the folded state, never below zero |
| Eligibility.RefusedForFirstReason | internal/service/orchestrator/eligibility.go:27-60 | an issue is eligible if and only if none of nine reasons, each spelled out in terms of its fields and the tables, stands against it; otherwise it is refused for the first one in their order |
| Names.ListedExactlyWhen | internal/service/orchestrator/eligibility.go:121-132 | a state name is listed exactly when it is not blank and the list has it, up to the case of letters and the space around either |
| Names.TrimTrims | internal/service/orchestrator/eligibility.go:121-132 | trimming takes away all white space at both ends and nothing else |
| Names.FoldIsCaseless | internal/service/orchestrator/eligibility.go:34-39 | two names fold together exactly when they differ at most in the case of letters |
| Names.LowerIsSmall | internal/service/orchestrator/eligibility.go:68-74 | lowering turns capital letters into small ones and leaves the rest |
| CandidateOrder.StrictWeakOrder | internal/service/orchestrator/eligibility.go:92-119 | the comparator is irreflexive, asymmetric and transitive, ties are an equivalence compatible with it, and two issues tie exactly with equal keys |
| CandidateOrder.StableSortSorts | internal/service/orchestrator/eligibility.go:92-105 | the sort specification is in order and keeps every class of tied issues in its given order |
| CandidateOrder.UrgentStandsFirst | internal/service/orchestrator/eligibility.go:92-119 | in the sorted list a priority from 1 to 4 never stands behind a higher number or behind none; among equal ranks an earlier creation stands first and a missing one last; among equal times the identifiers ascend |
| CandidateOrder.StableSortPermutes | internal/service/orchestrator/eligibility.go:92-105 | sorting loses and adds nothing |
| CandidateOrder.StableSortUnique | internal/service/orchestrator/eligibility.go:92-105 | there is only one arrangement in order that keeps ties in order, so any stable sort gives it |
| CandidateOrder.SortCandidates | internal/service/orchestrator/eligibility.go:92-105 | the in-place sort leaves exactly that arrangement in the array |
| CandidateOrder.Sink | internal/service/orchestrator/eligibility.go:92-105 | one step of the in-place sort inserts the next issue where a stable insertion puts it and touches nothing behind it |
| PollPass.PollCandidates | internal/service/orchestrator/orchestrator.go:191-223 | the loop gives every candidate its fate in order and stops early only at the one for which no global slot is free |
| PollPass.NoPriorityInversion | internal/service/orchestrator/orchestrator.go:191-247 | if a later candidate is dispatched, an earlier one never lost to the global limit: whenever it was refused a slot, at its first check, after its refresh or at its dispatch, a global slot was free and its state's cap was met |
| PollPass.PassAlongRunIsOrderly | internal/service/orchestrator/orchestrator.go:191-223 | a pass whose reads and dispatches are moments of any run of the scheduler, without a worker exit or a reload in between, is one these theorems speak of |
| PollPass.NoInversionAlongRun | internal/service/orchestrator/orchestrator.go:191-247 | so along every such run, retry handlers and all, there is no inversion, and an early end means no free slot |
| PollPass.StateCapRefused | internal/service/orchestrator/eligibility.go:62-90 | with a global slot free, only the per-state limit can leave no slot |
| PollPass.OnlyExitsShrink | internal/service/orchestrator/orchestrator.go:759-766 | no step but a worker's exit shrinks the running list |
| PollPass.ReadsOfARun | internal/service/orchestrator/orchestrator.go:466-499 | reads along any run without worker exits meet what the pass theorems ask of reads |
| PassTheorems.NoSlotLostToLessUrgent | internal/service/orchestrator/orchestrator.go:191-247 | along every such run over the sorted candidates, an issue never loses a slot that is free to all to a less urgent one: if that one was dispatched, it had its turn before, and a slot was refused to it only for its own state's limit |
| PassTheorems.DispatchedExactlyWhen | internal/service/orchestrator/orchestrator.go:192-247 | a candidate is dispatched if and only if it is sought, nothing stands against it as listed, nor as the tracker has it now, and at the dispatch nothing but a claim does, no worker has it and the service runs |
| PassTheorems.EndedExactlyWhen | internal/service/orchestrator/orchestrator.go:197-202 | the pass ends early exactly at a candidate refused for want of slots while no global slot is free |
| PassTheorems.RefreshedExactlyWhen | internal/service/orchestrator/orchestrator.go:225-276 | the refreshed candidate is the tracker's first answer with its id where that says something, and otherwise what was known |
| PassTheorems.AdmittedExactlyWhen | internal/service/orchestrator/orchestrator.go:712-730 | the check at a dispatch admits exactly an issue with nothing but a claim against it that no worker has, while the service runs |
| PassTheorems.SlotsOfTables | internal/service/orchestrator/eligibility.go:62-90 | no slot is left exactly when all agents are busy or as many entries as its limit allows are in the issue's state |
| Ledger.TokenConservation | internal/service/orchestrator/orchestrator.go:1124-1164 | totals equal, field by field, what all ended and live entries last reported plus what lower reports gave back; so they match the entries if and only if no report was below the one before |
| Ledger.LowerReportIsCounted | internal/service/orchestrator/orchestrator.go:1124-1164 | a concrete run with a report below the one before, after which totals and entries differ |
| Ledger.TotalsNeverDecrease | internal/service/orchestrator/orchestrator.go:1250-1263 | whatever is reported, the totals only grow, over every run |
| Ledger.RuntimeConservation | internal/service/orchestrator/orchestrator.go:125-140 | the reported running time equals the time agents have run, summed over the clock ticks of the run, and never goes back |
| Ledger.TotalRuntimeSeconds | internal/runtime/observability/snapshot.go:83-91 | the loop adds the live time of every started entry to the banked time |
| Ledger.SetStageConserves | internal/service/orchestrator/run_stage.go:50-73 | replacing or appending an entry moves neither the reported time nor the sum of tokens nor the totals |
| Ledger.RemoveRunningConserves | internal/service/orchestrator/orchestrator.go:1217-1234 | removing an entry banks exactly the live time it had and takes exactly its tokens from the live sum |
| Ledger.UpdateFromEventConserves | internal/service/orchestrator/orchestrator.go:1124-1164 | an event raises the totals by what the entry's tokens rise plus what a lower report gives back, and leaves the reported time |
| Ledger.StepConserves | internal/service/orchestrator/orchestrator.go:1217-1263 | every step keeps the token balance, never lowers the totals, and moves the reported time only by ticks |
| Orchestrators.Orchestrator.EligibilityStateLocked | internal/service/orchestrator/orchestrator.go:466-488 | the loop over the running list yields the eligibility state of the tables, without the ignored claim |
| Orchestrators.Orchestrator.SetRunningStageLocked | internal/service/orchestrator/run_stage.go:23-74 | the loop replaces the first entry of the issue, keeping start time, session and tokens, or appends |
| Orchestrators.Orchestrator.RemoveRunning | internal/service/orchestrator/orchestrator.go:1217-1234 | the loop drops every entry of the issue and banks its live time |
| Orchestrators.Orchestrator.UpdateRunningState | internal/service/orchestrator/orchestrator.go:400-409 | the loop changes the state of the issue's first entry only |
| Orchestrators.Orchestrator.UpdateRunningFromEvent | internal/service/orchestrator/orchestrator.go:1124-1164 | the loop updates the issue's first entry and adds the positive token differences to the totals |
| Orchestrators.Orchestrator.ScheduleRetry | internal/service/orchestrator/retry.go:42-75 | computes the delay with the loop and queues the retry in all three tables and the timer heap, stopping the timer it replaces |
| Orchestrators.Orchestrator.RemoveRetryLocked | internal/service/orchestrator/orchestrator.go:1193-1203 | the filtering loop keeps every other entry in order |
| Orchestrators.Orchestrator.ClearRetry | internal/service/orchestrator/retry.go:77-86 | the retry is gone from all three tables and its timer is stopped |
| Orchestrators.Orchestrator.StopRetryTimers | internal/service/orchestrator/retry.go:88-97 | every recorded timer is stopped and forgotten, attempts and entries stay |
| Orchestrators.Orchestrator.DispatchIssueDone | internal/service/orchestrator/orchestrator.go:712-757 | admits exactly when the service runs, no worker has the issue and it is eligible but for its own claim; then claims, records the worker, clears the retry and queues the entry, and otherwise changes nothing |
| Orchestrators.FilterInPlace | internal/service/orchestrator/orchestrator.go:1193-1203 | the filter that reuses the slice's own array leaves the kept entries in order at its front and the rest of the array untouched |
| FlowTheorems.EveryWriteFollowsProtocol | internal/service/issueflow/flow.go:12-270 | whatever agent and tracker answer, the only writes are Todo to In Progress, AI Review to Merging, and Pushing or Merging to Done, from the state last seen; the last three only after a turn, under the auto policy, in a workable state and after a passing message, and a Done write is the last act |
| FlowTheorems.EverySignalIsAnswered | internal/service/issueflow/agent_session.go:136-192 | and whenever they are due they happen: after every turn whose issue is still workable and whose context is not done, a passing message is followed by its write under the auto policy and by the wait for a human under any other; a Done write ends the run as Done, a Merging write leads to another turn, a failed write ends it with its error; without a signal the run goes on if and only if the budget is not used up |
| FlowStory.EveryRunTells | internal/service/issueflow/agent_session.go:88-229 | the log of every run tells what came from outside, in its order: every event, every state fetched, every record stored or dropped, every failure, every end of the context and whether each write went through |
| FlowTheorems.EveryTurnFitsItsState | internal/service/issueflow/agent_session.go:175-192 | every turn begins in the state last seen or written, with the prompt of that state unless it opens its session |
| FlowTheorems.TurnBound | internal/service/issueflow/agent_session.go:140-192 | turns never exceed the budget plus the AI Review to Merging writes of the run |
| FlowTheorems.CapExactlyWhen | internal/service/issueflow/agent_session.go:140-192 | the budget is a hard cap on the turns of every run if and only if the review write cannot happen: the policy is not auto, or AI Review is not a workable state |
| FlowTheorems.PassingRunTakes | internal/service/issueflow/agent_session.go:151-173 | where it can happen, a run in which the review keeps passing takes any number of turns |
| FlowTheorems.OutcomeSound | internal/service/issueflow/flow.go:101-109 | the exit is exactly what the end of the log calls for: by the state last seen, by the write that ended the run, or by its failure, where a cancelled session stops, any other failure is retried, and a resume that failed before its first turn is never the end unless the context is done |
| FlowTheorems.ResumeExact | internal/service/issueflow/agent_session.go:66-81 | at most two sessions; the first asks for the recorded thread exactly for Rework in the recorded workspace, the second for a fresh thread after a resume that recorded no turn |
| FlowTheorems.StoreIsLastRecord | internal/service/issueflow/agent_session.go:262-292 | over any history of runs of an issue, with cleanups between them and in the midst of them, the store holds the record of the last recorded turn unless it was dropped since |
| FlowTheorems.ReworkResumesLastTurn | internal/service/issueflow/agent_session.go:233-260 | so a Rework run resumes the thread of the last recorded turn of any earlier run in its workspace |
| FlowProtocol.RunKeeps | internal/service/issueflow/flow.go:12-37 | every run keeps the protocol, by which each act is one that is due after those before it, the turn bound and the session bound, and ends as its log calls for |
| FlowProtocol.SessionKeeps | internal/service/codex/runner.go:151-222 | a session keeps the protocol turn by turn |
| FlowProtocol.AfterTurnKeeps | internal/service/issueflow/agent_session.go:104-193 | the decision after a turn goes on only under the budget or paid for by its own review write |
| SessionLoop.SessionRun.AfterTurn | internal/service/issueflow/agent_session.go:104-193 | the closure over captured variables decides and leaves state, message, store and log as the decision function says |
| SessionLoop.SessionRun.DecideAfterTurn | internal/service/issueflow/flow.go:85-99 | the chain of early returns takes the branch the decision function takes, with its writes |
| SessionLoop.SessionRun.RunSession | internal/service/codex/runner.go:151-222 | the loop over the growing prompt queue runs exactly the turns of the session function, with its result |
| SessionLoop.SessionRun.HearEvents | internal/service/issueflow/agent_session.go:218-222 | after a turn's events the captured message is the last completed one |
| GraphQLAgreement.ScanAgreesExactlyWhen | internal/service/codex/dynamic_tool.go:171-230 | for every well-formed document, exactly when the scan's answer is right. Tame documents: always from two operations on; for one operation if and only if no header holds an operation keyword and after each of its brace groups the name fragment comes before the next one or the end; for none unless what the headers hold counts one. Others: if and only if what the scanner reads opens one operation just when the document has one |
| GraphQLReading.ScanIsReading | internal/service/codex/dynamic_tool.go:171-260 | any text at all is accepted if and only if every string in it ends, where the scanner takes it to end, and its tokens open one operation outside their braces: by an operation keyword, or by a brace group without a defining name since the group before |
| GraphQLReading.ReadingIsText | internal/service/codex/dynamic_tool.go:232-260 | a text with a reading is that reading printed, token by token; every other text is refused at any depth |
| GraphQLReading.RowReadsBack | internal/service/codex/dynamic_tool.go:232-260 | a row of tokens, each followed by what the scanner asks for, is the one reading of its text |
| GraphQLReading.PlainIsRead | internal/service/codex/dynamic_tool.go:239-246 | the scanner reads a well-formed document as its own tokens if and only if no triple quote in it is escaped |
| GraphQLReading.ScanTokens | internal/service/codex/dynamic_tool.go:176-228 | the scan of any row of tokens at any depth, balanced or not, counts what the row has at depth zero and goes on at the depth it leaves; also over block strings inside braces whose escaped triple quotes come in pairs |
| GraphQLReading.ScanThrough | internal/service/codex/dynamic_tool.go:239-246 | inside braces, a block string with any number of escaped triple quotes and silent text wherever the scanner is outside of strings is passed whole, or its closing quotes open a string |
| GraphQLReading.ScanInside | internal/service/codex/dynamic_tool.go:202-208 | inside braces any nesting of items that the scan passes counts nothing and brings the depth back |
| GraphQLReading.CommentIsPassed | internal/service/codex/dynamic_tool.go:232-237 | a comment says nothing: for every text without a line feed or carriage return, up to one of them or the end, the answer is that for what follows |
| GraphQLAgreement.AcceptedMeansOne | internal/service/codex/dynamic_tool.go:171-230 | a tame document is accepted if and only if its operations and what its headers hold are one together |
| GraphQLAgreement.OneDefinitionIsAccepted | internal/service/codex/dynamic_tool.go:171-230 | a tame operation on its own is accepted exactly with a tidy header, a tame fragment on its own exactly when one thing in its header counts |
| GraphQLAgreement.HeaderCounts | internal/service/codex/dynamic_tool.go:183-226 | what the scanner counts of any header and body, against the names and brace groups that are there |
| GraphQLAgreement.TidyMeansNoExtras | internal/service/codex/dynamic_tool.go:183-226 | nothing in a header counts if and only if it has no operation keyword and every brace group is followed by a defining name before the next one or the end |
| GraphQLAgreement.ExtrasAreBraceGroups | internal/service/codex/dynamic_tool.go:183-194 | in a header without defining names what counts is the number of its brace groups |
| GraphQLAgreement.EmptyDefaultIsRefused | internal/service/codex/dynamic_tool.go:183-194 | a concrete document of one operation that is refused: a variable with an object as its default value |
| GraphQLAgreement.ArgumentFragmentIsAccepted | internal/service/codex/dynamic_tool.go:183-194 | a concrete document without an operation that is accepted: a fragment with an object as an argument in its header |
| GraphQLEscapes.PairIsEven | internal/service/codex/dynamic_tool.go:239-246 | a block string with two escaped triple quotes and silent text between them is one whose own closing quotes close it for the scanner too |
| GraphQLEscapes.MisreadIsRefused | internal/service/codex/dynamic_tool.go:239-246 | every document is refused, however many operations it has, with a block string that holds a triple quote, nothing that starts a string or a comment after it, tame text before the string and no triple quote after it |
| GraphQLEscapes.EscapedTripleIsRefused | internal/service/codex/dynamic_tool.go:239-246 | a well-formed document of one operation that is refused, for each operation keyword and name: an escaped triple quote in a block string |
| GraphQLEscapes.SwallowedIsNotCounted | internal/service/codex/dynamic_tool.go:239-246 | two misread block strings inside braces with no triple quote between them: the document is accepted if and only if what is left of it without the text between them opens one operation, whatever that text holds |
| GraphQLEscapes.WrappedIsAccepted | internal/service/codex/dynamic_tool.go:239-246 | every well-formed document that begins and ends with an operation around a misread block string is accepted, whatever definitions without a triple quote lie between them |
| GraphQLEscapes.ManyAreAccepted | internal/service/codex/dynamic_tool.go:171-246 | for every number of operations from two on, a well-formed document with that many is accepted |
| GraphQLAgreement.ScanIsExactForPlainHeaders | internal/service/codex/dynamic_tool.go:171-230 | for every tame document of operations and fragments whose headers hold no braces and no operation keyword, the scan of its text accepts it if and only if it has exactly one operation |
| GraphQLAgreement.ScanNeverAcceptsTwo | internal/service/codex/dynamic_tool.go:171-230 | whatever the headers hold, no tame document with two operations is accepted |
| GraphQLAgreement.ScanCountsDefinitions | internal/service/codex/dynamic_tool.go:171-230 | the scan accepts a tame document exactly when its definitions count one, definition by definition |
| GraphQLDocument.ClosingIsFirstTriple | internal/service/codex/dynamic_tool.go:241-246 | without an escape, the quotes that close a block string are the first the scanner finds |
| GraphQLDocument.FitsReads | internal/service/codex/dynamic_tool.go:239-260 | a lexeme that fits the grammar is read as it is if and only if it has no escaped triple quote |
| GraphQLDocument.ScanLexeme | internal/service/codex/dynamic_tool.go:176-228 | the scan of a lexeme that is read as it is, at any depth, passes over it whole and counts it only at depth zero |
| GraphQLScan.HasExactlyOneGraphQLOperation | internal/service/codex/dynamic_tool.go:171-230 | the index loop terminates, keeps its index in range for every text, and gives the answer of the scan function |
| GraphQLScan.SkipStringAt | internal/service/codex/dynamic_tool.go:239-260 | the index after a string, or the end of the text when it is not closed, even after a final backslash |
| GraphQLScan.SkipLineCommentAt | internal/service/codex/dynamic_tool.go:232-237 | the index of the line end after a comment, or of the end of the text |
| GraphQLScan.IndexTriple | internal/service/codex/dynamic_tool.go:241-244 | the first triple quote at or after an index |
| GraphQLScan.NameEndAt | internal/service/codex/dynamic_tool.go:211-215 | the index after a name, past its start and within the text |
| Paths.PathWithinIsPrefix | internal/service/workspace/workspace.go:177-183 | on cleaned absolute paths, judging by the text of the relative path is judging by components: root's are a prefix of the path's |
| Paths.SafeIdentifierIsName | internal/service/workspace/workspace.go:334-343 | every identifier, the empty one included, becomes one safe component other than a dot or two; safe ones stay as they are, and only they |
| Paths.MaskedExactly | internal/service/workspace/workspace.go:17-17 | letters, digits, dots, underscores and dashes stay, everything else becomes an underscore |
| Paths.IssuePathIsDirectlyBelow | internal/service/workspace/workspace.go:87-99 | an issue's path is root plus exactly one safe component, and within root |
| Paths.CleanIsClean | internal/service/workspace/workspace.go:79-85 | lexical cleaning leaves only proper components |
| Paths.CleanKeeps | internal/service/workspace/workspace.go:79-85 | and changes nothing of a clean path |
| FileTree.WalkInPart | internal/service/workspace/workspace.go:300-332 | in a part of a tree, a lookup ends where it ended in the whole or finds something missing |
| FileTree.WalkSplit | internal/service/workspace/workspace.go:196-209 | looking up a path is looking up its front through every link and then the rest with the links that are left |
| FileTree.MkdirAllMakes | internal/service/workspace/workspace.go:251-255 | MkdirAll loses nothing and makes only directories, all below one missing name and all where prefixes of the path lead |
| FileTree.MkdirAllSucceeds | internal/service/workspace/workspace.go:251-255 | after a success the path leads to a directory, by no link if it led nowhere before |
| Workspace.Manager.NearestExistingPath | internal/service/workspace/workspace.go:196-209 | the loop terminates with the longest prefix that exists; every longer one is missing |
| Workspace.Manager.ValidateWorkspacePath | internal/service/workspace/workspace.go:101-130 | the chain of checks gives the verdict of the validation function |
| Workspace.Manager.Ensure | internal/service/workspace/workspace.go:231-298 | the calls in their order leave the disk and the result that the specification function says, on every error path |
| Workspace.Manager.RemoveWorkspace | internal/service/workspace/workspace.go:300-332 | likewise for removal |
| WorkspaceTheorems.ValidateJudgesTarget | internal/service/workspace/workspace.go:101-130 | a path that can be followed passes validation if and only if it leads inside the resolved root |
| WorkspaceSuccess.ValidatesExactlyWhen | internal/service/workspace/workspace.go:101-130 | for every path, there or not: validation passes if and only if the path is lexically below root and, where root is there, the longest part of the path that is there leads inside the resolved root |
| WorkspaceTheorems.RemoveStaysInside | internal/service/workspace/workspace.go:300-332 | for every tree with links and every cleaned path, removal makes nothing and leaves every node that is not at or below the path's own node as it was, and that node is inside the resolved root; static-cwd mode deletes nothing |
| WorkspaceTheorems.RemoveSucceeds | internal/service/workspace/workspace.go:300-332 | after a successful removal there is nothing at the path |
| WorkspaceSuccess.RemoveExactlyWhen | internal/service/workspace/workspace.go:300-332 | removal fails exactly for a path outside root, one that cannot be looked up, one that does not lead inside the resolved root, judged for a link by where the link is, and the file system's own root |
| WorkspaceSuccess.RemovesNothing | internal/service/workspace/workspace.go:300-306 | in static-cwd mode removal removes nothing and says whether the path is inside the directory |
| WorkspaceTheorems.EnsureStaysInside | internal/service/workspace/workspace.go:231-298 | for every identifier, apart from making root's missing ancestors nothing changes but at or below the issue's one entry in the resolved root; static-cwd mode changes nothing |
| WorkspaceTheorems.EnsureSucceeds | internal/service/workspace/workspace.go:231-298 | a success ends with a real directory, not a link, directly inside the resolved root |
| WorkspaceSuccess.EnsureExactlyWhen | internal/service/workspace/workspace.go:231-298 | exactly when ensuring succeeds: for a non-empty identifier, with a root that is there or can be made, and that can still be made when a link at the entry is taken away; the entry is then a directory, reported as new unless it was one, and nothing else of the tree has changed |
| WorkspaceSuccess.NeededLinkIsLost | internal/service/workspace/workspace.go:256-262 | a concrete tree in which a link at the entry is taken away and nothing made: the root itself is found only through that link |
| WorkspaceSuccess.MkdirAllExactlyWhen | internal/service/workspace/workspace.go:251-255 | MkdirAll succeeds if and only if some part of the path leads to a directory and the next name is missing there, or the whole path does |
| WorkspaceSuccess.StaticEnsureExactlyWhen | internal/service/workspace/workspace.go:232-247 | in static-cwd mode ensuring succeeds exactly when the directory is there, and changes nothing |
| WorkspaceSuccess.StaticExactlyWhen | internal/service/workspace/workspace.go:132-134 | the mode's name counts up to case and surrounding space |
| WorkspaceTheorems.EnsureTwice | internal/service/workspace/workspace.go:263-268 | ensuring again gives the same path, not new, and changes nothing |
| WorkspaceTheorems.RemoveUndoesEnsure | internal/service/workspace/workspace.go:231-332 | removing an ensured workspace succeeds, leaves nothing at its path and nothing else changed |
| Reloading.Reloader.LoadStableWorkflow | internal/service/workflow/reloader.go:42-61 | the bounded retry loop gives the result of the first-load function |
| Reloading.StableLoadIsFirstSettled | internal/service/workflow/reloader.go:42-61 | which succeeds exactly with the first attempt that finds one stamp before and after, if all attempts before it could be read |
| Reloading.Reloader.ReloadIfChanged | internal/service/workflow/reloader.go:73-94 | sets the candidate aside with the stamp of the stat before its load, and commits nothing |
| ReloaderRuns.NeverMissesExactlyWhenStampsTell | internal/service/workflow/reloader.go:42-106 | with writes at any moment between any stat and load, an unchanged answer means the committed workflow is what the file says, in every run, if and only if between two moments with the same stamp the file never says anything else than at the second; a fresh stamp for every write is enough |
| ReloaderRuns.MissedByFirstLoad | internal/service/workflow/reloader.go:42-61 | the same stamp before and after the load of something else is enough for a first load to miss a change |
| ReloaderRuns.ThereAndBackIsMissed | internal/service/workflow/reloader.go:42-61 | a concrete history: contents one, two, one with the first stamp back at the end |
| ReloaderRuns.UncommittedIsOfferedAgain | internal/service/workflow/reloader.go:73-94 | until a commit or a write, however many reloads look and load, a change once found is found again, and the next reload offers the file's workflow with its stamp |
| ReloaderRuns.RefreshConverges | internal/service/workflow/reloader.go:73-106 | once writes stop, one refresh makes the file's workflow current for good, whatever reloads were under way without an offer, and right after any refresh the reloader says unchanged; with none under way nothing changes any more |
| ReloaderRuns.RunKeepsInv | internal/service/workflow/reloader.go:73-106 | over any run, current and candidate workflows come from a load not before a stat that found their stamp |
| Refreshing.AllOrNothing | internal/service/orchestrator/orchestrator.go:601-660 | after any refreshes the service is as it started, or workflow, tracker, workspaces and runner all belong to the committed workflow, a runner made with a tracker to the tracker in service |
| Refreshing.RefreshFrom | internal/service/orchestrator/orchestrator.go:601-630 | exactly when a refresh fails; a failed one leaves everything in service and the committed stamp, a successful one has the stamp it found |
| Refreshing.ServiceOptions.RefreshWorkflow | internal/service/orchestrator/orchestrator.go:601-660 | the early returns before the swap leave the service as the refresh function says |
| Shell.EscapeRoundTrip | internal/service/ssh/ssh.go:149-151 | for every string, a POSIX shell reads its escaped form as one word, every character of it quoted, that is the string |
| Shell.EscapeInjective | internal/service/ssh/ssh.go:149-151 | different strings have different escaped forms |
| Shell.RemoteShellWords | internal/service/ssh/ssh.go:115-117 | the login shell splits the remote command into bash, -lc and exactly the command |
| Shell.LaunchWords | internal/service/codex/runner.go:558-560 | the launch command's first simple command is cd and the workspace, whatever both strings are, and what follows is untouched |
| Shell.TwoShells | internal/service/codex/runner.go:558-574 | through both shells the script bash runs begins with cd and the workspace, and goes on with the command as it was given |

## Left out

- Cancellation of worker contexts: a worker may return at any time with any exit, so what
  cancelling it does to the agent process is not modelled.
- Startup cleanup, terminal workspace cleanup and the session deletes of `workerExited`
  happen in the model only as answers (`CheckTerminal`, `PopCleanup`) and as deletes of an
  issue's record, between its runs or in the midst of one; they do not act on the workspace model.
- The poll loop's own choice of which issues to reconcile: any state update, pending
  cleanup or stall of any entry may happen at any idle moment of the loop.
- The review policy, of which dispatch sees whether AI Review is allowed and the flow
  whether its mode is auto.
- The moment between reading clock and configuration and queueing a retry: it is one step.
- Log lines, telemetry, last-error text, polling times and metrics, among them the retrying
  metric, which is not in step with the retrying list.
- `runAgent`, `addRetry`, `claimIssue` and `setRunning`, which have no caller.
- Overflow of token counters and of seconds; only the retry delay is modelled in int64.
- Unicode case folding and trimming beyond ASCII, and floating-point seconds.
- Stages and phases shown for a turn: entries carry whatever stage the flow sets.
- Hooks, which do nothing here; what a hook does inside a workspace is outside the model.
- Removing an uncleaned path: the model takes cleaned absolute paths, as PathForIssue
  gives them. Home expansion and the working directory are resolved before.
- Permissions, mount points, empty link targets and failures of the disk.
- ScanAgreesExactlyWhen: for a document that is not tame the condition is about the text as
  the scanner reads it. MisreadIsRefused and SwallowedIsNotCounted put it in terms of the
  document for one and for two misread block strings.
- Documents with type system definitions, which are not executable.
- Expansions by the shell: a command line with an unquoted or double-quoted dollar sign or
  backquote has no reading. What `cd` makes of a name that begins with a dash is left out.
- `cloneWorkflow` and `cloneAny`: workflows are values here, so nothing is shared.
- Rendering of prompts and parsing of workflow files: a workflow stands for all a file says.
- Factories of `refreshWorkflow` are told apart only by what they are given and whether
  they fail; the observer set on the workspace manager is left out.
- The agent's process, its pipes and timeouts: a turn is any list of events with any result.
- HTTP handlers, the tracker's client, the session database and the terminal dashboard.
