/**
 The scheduler as a state machine: the orchestrator's tables together with every
 worker goroutine, retry handler, armed timer and the poll loop. Each step is one
 critical section or one answer from outside; any interleaving of steps is a run.
 */
module Scheduler {
  import opened Wrappers
  import opened Eligibility
  import opened Keyed
  import opened Tables
  import opened Outcomes
  import opened Backoff

  // A worker runs the issue flow, then the sections of workerExited in order.
  datatype WorkerPc =
    | Trunk
    | Removed(exit: Exit)
    | Uncancelled(exit: Exit)
    | Unpopped(exit: Exit)
    | Settling(exit: Exit)
    | Deciding(exit: Exit)
    | Scheduling(nextAttempt: int, reason: RetryReason, error: string)
    | Releasing

  datatype Worker = Worker(issue: Issue, attempt: int, pc: WorkerPc) {
    predicate Active() { pc.Trunk? || pc.Removed? }
  }

  // A retry handler runs the sections of handleRetry.
  datatype HandlerPc =
    | Fired
    | Fetching
    | Recalling(reason: string)
    | Judging(issue: Issue)
    | Counting(issue: Issue)
    | Aiming(issue: Issue)
    | Dispatching(issue: Issue, attempt: int)
    | Rescheduling(issue: Issue, attempt: int, error: string)
    | Clearing
    | Freeing

  datatype Handler = Handler(id: string, pc: HandlerPc)

  // The poll loop's own position while it looks for stalled entries.
  datatype PollPc =
    | PollIdle
    | Scanning(rest: seq<RunningEntry>)
    | Stalling(entry: RunningEntry, rest: seq<RunningEntry>)

  datatype System = System(
    t: Tables,
    workers: map<WorkerId, Worker>,
    nextWorker: WorkerId,
    handlers: map<TimerId, Handler>,
    poll: PollPc,
    now: int,
    stopped: bool,
    ended: Usage,
    lost: Usage
  )

  datatype FetchAnswer = FetchFailed(message: string) | Missing | Found(issue: Issue)

  // Steps taken outside the process, by the poll loop, by a worker and by a handler.
  datatype OutsideStep = Tick(ticks: nat) | EndService | StopTimers | Fire(timer: TimerId)

  datatype PollStep =
    | Reload(cfg: Config)
    | DispatchCandidate(issue: Issue)
    | UpdateRunning(id: string, state: string)
    | MarkCleanup(issue: Issue)
    | StallScan
    | StallNext(stalled: bool)
    | StallSchedule(dueAt: int, error: string)

  datatype WorkerStep =
    | EnterStage(issue: Issue, stage: Stage)
    | Report(event: CodexEvent)
    | Return(exit: Exit)
    | Uncancel
    | PopCleanup
    | CheckTerminal(cleaned: bool)
    | Settle
    | Decide
    | QueueRetry(dueAt: int)
    | ReleaseClaim

  datatype HandlerStep =
    | Start
    | Fetch(answer: FetchAnswer)
    | Recall
    | Judge
    | Count
    | Aim
    | TryDispatch
    | Requeue(dueAt: int)
    | Clear
    | Free

  datatype Step =
    | Outside(outside: OutsideStep)
    | Poll(poll: PollStep)
    | Work(w: WorkerId, work: WorkerStep)
    | Handle(h: TimerId, handle: HandlerStep)

  function Init(cfg: Config): System {
    var tables := Tables(cfg, {}, map[], NO_RETRIES, EMPTY_BOARD, map[], false);
    System(tables, map[], 0, map[], PollIdle, 1, false, ZERO_USAGE, ZERO_USAGE)
  }

  function SumTokens(running: seq<RunningEntry>): Usage {
    if running == [] then ZERO_USAGE
    else SumTokens(running[..|running| - 1]).Plus(running[|running| - 1].tokens)
  }

  function TokensOf(running: seq<RunningEntry>, id: string): Usage {
    if running == [] then ZERO_USAGE
    else
      var last := running[|running| - 1];
      TokensOf(running[..|running| - 1], id).Plus(if last.id == id then last.tokens else ZERO_USAGE)
  }

  // The tokens an entry gives back when its next report is lower.
  function LostBy(b: Board, id: string, event: CodexEvent): Usage {
    var i := Find(b.running, RunKey, id);
    if i < |b.running| && event.usage.Some?
    then TokenDelta(b.running[i].tokens, event.usage.value)
    else ZERO_USAGE
  }

  // --- A worker ---

  // `next` is where the worker goes on, or None when its goroutine is over.
  datatype WorkerMove = WorkerMove(t: Tables, next: Option<WorkerPc>, ended: Usage, lost: Usage)

  function Go(t: Tables, pc: WorkerPc): WorkerMove {
    WorkerMove(t, Some(pc), ZERO_USAGE, ZERO_USAGE)
  }

  function Over(t: Tables): WorkerMove {
    WorkerMove(t, None, ZERO_USAGE, ZERO_USAGE)
  }

  // workerExited after the service check: what is queued, or nothing.
  function Decision(worker: Worker, exit: Exit): WorkerPc {
    if exit.failure.Failed? then Scheduling(worker.attempt + 1, Failure, exit.failure.message)
    else if exit.outcome.RetryContinuation? then Scheduling(1, Continuation, "")
    else if exit.outcome.RetryFailure? then
      Scheduling(worker.attempt + 1, Failure, "issue flow requested failure retry")
    else Releasing
  }

  function InTrunk(t: Tables, now: int, worker: Worker, step: WorkerStep): WorkerMove {
    var id := worker.issue.id;
    match step
    case EnterStage(issue, stage) =>
      Go(if issue.id == id then t.(board := SetStage(t.board, issue, worker.attempt, stage, now)) else t, Trunk)
    case Report(event) =>
      WorkerMove(
        t.(board := UpdateFromEvent(t.board, id, event, now)), Some(Trunk), ZERO_USAGE, LostBy(t.board, id, event))
    case Return(exit) =>
      WorkerMove(
        t.(board := RemoveRunning(t.board, id, now)), Some(Removed(exit)), TokensOf(t.board.running, id), ZERO_USAGE)
    case _ => Go(t, Trunk)
  }

  function InExit(t: Tables, worker: Worker, step: WorkerStep): WorkerMove {
    var id, pc := worker.issue.id, worker.pc;
    match (pc, step)
    case (Removed(exit), Uncancel) =>
      Go(t.(cancels := t.cancels - {id}), Uncancelled(exit))
    case (Uncancelled(exit), PopCleanup) =>
      if id in t.pendingCleanup
      then Go(t.(pendingCleanup := t.pendingCleanup - {id}), Releasing)
      else Go(t, Unpopped(exit))
    case (Unpopped(exit), CheckTerminal(cleaned)) =>
      Go(t, if cleaned then Releasing else Settling(exit))
    case (Settling(exit), Settle) =>
      if exit.failure.Canceled?
      then if id in t.retries.attempts then Over(t) else Go(t, Releasing)
      else if exit.outcome.WaitHuman? || exit.outcome.Done? || exit.outcome.Stopped?
      then Go(t, Releasing)
      else Go(t, Deciding(exit))
    case (Deciding(exit), Decide) =>
      Go(t, if t.serviceDone then Releasing else Decision(worker, exit))
    case (Scheduling(attempt, _, error), QueueRetry(dueAt)) =>
      Over(t.(retries := ScheduleRetry(t.retries, worker.issue, attempt, error, dueAt)))
    case (Releasing, ReleaseClaim) =>
      Over(t.(claimed := t.claimed - {id}))
    case _ => Go(t, pc)
  }

  function MoveWorker(t: Tables, now: int, worker: Worker, step: WorkerStep): WorkerMove {
    if worker.pc.Trunk? then InTrunk(t, now, worker, step) else InExit(t, worker, step)
  }

  // --- A retry handler ---

  // `next` is None when the handler returns; `start` is the worker it dispatched.
  datatype HandlerMove = HandlerMove(
    retries: Retries, claimed: set<string>, next: Option<HandlerPc>, start: Option<(Issue, int)>
  )

  function AttemptOf(q: Retries, id: string): int {
    if id in q.attempts then q.attempts[id] else 0
  }

  // What retryIssue finds: the queued entry, with the attempt table's number first.
  function Recalled(q: Retries, id: string): Option<(Issue, int)> {
    var i := Find(q.entries, RetryKey, id);
    if i == |q.entries| then None
    else
      var e := q.entries[i];
      Some((
        Issue(e.id, e.identifier, "", "", None, None, None, None),
        if AttemptOf(q, id) < 1 then e.attempt else AttemptOf(q, id)))
  }

  function Judged(t: Tables, issue: Issue): HandlerPc {
    match CandidateEligible(issue, EligibilityOf(t, issue.id))
    case Eligible => Aiming(issue)
    case Refused(NoSlots) => Counting(issue)
    case Refused(_) => Clearing
  }

  // Steps that only move the handler on.
  function NextPc(t: Tables, handler: Handler, step: HandlerStep): HandlerPc {
    var id, pc := handler.id, handler.pc;
    match (pc, step)
    case (Fired, Start) => if t.serviceDone then Clearing else Fetching
    case (Fetching, Fetch(FetchFailed(message))) => Recalling(message)
    case (Fetching, Fetch(Missing)) => Clearing
    case (Fetching, Fetch(Found(issue))) => if issue.id == id then Judging(issue) else pc
    case (Judging(issue), Judge) => Judged(t, issue)
    case (Counting(issue), Count) =>
      Rescheduling(issue, AttemptOf(t.retries, id) + 1, "no available orchestrator slots")
    case (Aiming(issue), Aim) => Dispatching(issue, AttemptOf(t.retries, id))
    case (Dispatching(issue, attempt), TryDispatch) =>
      Rescheduling(issue, attempt + 1, "no available orchestrator slots")
    case _ => pc
  }

  function MoveHandler(t: Tables, handler: Handler, step: HandlerStep): HandlerMove {
    var id, pc := handler.id, handler.pc;
    if pc.Rescheduling? && step.Requeue? then
      HandlerMove(ScheduleRetry(t.retries, pc.issue, pc.attempt, pc.error, step.dueAt), t.claimed, None, None)
    else if pc.Clearing? && step.Clear? then
      HandlerMove(ClearRetry(t.retries, id), t.claimed, Some(Freeing), None)
    else if pc.Freeing? && step.Free? then
      HandlerMove(t.retries, t.claimed - {id}, None, None)
    else if pc.Recalling? && step.Recall? then
      var found := Recalled(t.retries, id);
      HandlerMove(
        t.retries, t.claimed,
        if found.Some? then Some(Rescheduling(found.value.0, found.value.1 + 1, pc.reason)) else None, None)
    else if pc.Dispatching? && step.TryDispatch? && MayDispatch(t, pc.issue) then
      HandlerMove(t.retries, t.claimed, None, Some((pc.issue, pc.attempt)))
    else
      HandlerMove(t.retries, t.claimed, Some(NextPc(t, handler, step)), None)
  }

  // --- The poll loop ---

  datatype PollMove = PollMove(t: Tables, poll: PollPc, start: Option<(Issue, int)>)

  function StalledIssue(e: RunningEntry): Issue {
    Issue(e.id, e.identifier, "", e.state, None, None, None, None)
  }

  function PollIdly(t: Tables, step: PollStep): PollMove {
    match step
    case Reload(cfg) => PollMove(t.(cfg := cfg), PollIdle, None)
    case DispatchCandidate(issue) => PollMove(t, PollIdle, if MayDispatch(t, issue) then Some((issue, 0)) else None)
    case UpdateRunning(id, state) => PollMove(t.(board := UpdateState(t.board, id, state)), PollIdle, None)
    case MarkCleanup(issue) => PollMove(t.(pendingCleanup := t.pendingCleanup[issue.id := issue]), PollIdle, None)
    case StallScan => PollMove(t, if t.cfg.stallTimeout > 0 then Scanning(t.board.running) else PollIdle, None)
    case _ => PollMove(t, PollIdle, None)
  }

  function MovePoll(t: Tables, poll: PollPc, step: PollStep): PollMove {
    if poll.PollIdle? then PollIdly(t, step)
    else if poll.Scanning? && step.StallNext? then
      if poll.rest == [] then PollMove(t, PollIdle, None)
      else
        var e := poll.rest[0];
        if step.stalled && e.id !in t.retries.attempts
        then PollMove(t, Stalling(e, poll.rest[1..]), None)
        else PollMove(t, Scanning(poll.rest[1..]), None)
    else if poll.Stalling? && step.StallSchedule? then
      PollMove(
        t.(retries := ScheduleRetry(t.retries, StalledIssue(poll.entry), 1, step.error, step.dueAt)),
        Scanning(poll.rest), None)
    else PollMove(t, poll, None)
  }

  // --- The whole system ---

  function StartWorker(s: System, start: Option<(Issue, int)>): System {
    if start.None? then s
    else
      var (issue, attempt) := start.value;
      s.(
        t := Dispatch(s.t, issue, attempt, s.nextWorker, s.now),
        workers := s.workers[s.nextWorker := Worker(issue, attempt, Trunk)],
        nextWorker := s.nextWorker + 1)
  }

  function ApplyWork(s: System, w: WorkerId, step: WorkerStep): System {
    if w !in s.workers then s
    else
      var m := MoveWorker(s.t, s.now, s.workers[w], step);
      s.(
        t := m.t,
        workers := if m.next.Some? then s.workers[w := s.workers[w].(pc := m.next.value)] else s.workers - {w},
        ended := s.ended.Plus(m.ended),
        lost := s.lost.Plus(m.lost))
  }

  function ApplyHandle(s: System, h: TimerId, step: HandlerStep): System {
    if h !in s.handlers then s
    else
      var m := MoveHandler(s.t, s.handlers[h], step);
      StartWorker(
        s.(
          t := s.t.(retries := m.retries, claimed := m.claimed),
          handlers := if m.next.Some? then s.handlers[h := s.handlers[h].(pc := m.next.value)] else s.handlers - {h}),
        m.start)
  }

  function ApplyPoll(s: System, step: PollStep): System {
    var m := MovePoll(s.t, s.poll, step);
    StartWorker(s.(t := m.t, poll := m.poll), m.start)
  }

  function ApplyOutside(s: System, step: OutsideStep): System {
    match step
    case Tick(ticks) => s.(now := s.now + ticks)
    case EndService => s.(t := s.t.(serviceDone := true))
    case StopTimers => s.(t := s.t.(retries := StopRetryTimers(s.t.retries)), stopped := true)
    case Fire(k) =>
      if k in s.t.retries.armed
      then s.(
             t := s.t.(retries := s.t.retries.(armed := s.t.retries.armed - {k})),
             handlers := s.handlers[k := Handler(s.t.retries.armed[k], Fired)])
      else s
  }

  // A retry is due after its delay, under the configuration in force when it is queued.
  function DueAt(s: System, reason: RetryReason, attempt: int): int {
    s.now + RetryDelay(reason, attempt, MaxRetryBackoff(s.t.cfg.maxRetryBackoffMS))
  }

  // The retry that a step would queue is due when it should be.
  predicate Timely(s: System, step: Step) {
    match step
    case Work(w, QueueRetry(dueAt)) =>
      w in s.workers && s.workers[w].pc.Scheduling? ==>
        dueAt == DueAt(s, s.workers[w].pc.reason, s.workers[w].pc.nextAttempt)
    case Handle(h, Requeue(dueAt)) =>
      h in s.handlers && s.handlers[h].pc.Rescheduling? ==> dueAt == DueAt(s, Failure, s.handlers[h].pc.attempt)
    case Poll(StallSchedule(dueAt, _)) =>
      s.poll.Stalling? ==> dueAt == DueAt(s, Failure, 1)
    case _ => true
  }

  // A step whose actor is not at that point, or that would queue a retry for another
  // time, leaves the system as it is.
  function Apply(s: System, step: Step): System {
    if Timely(s, step) then Take(s, step) else s
  }

  function Take(s: System, step: Step): System {
    match step
    case Outside(outside) => ApplyOutside(s, outside)
    case Poll(poll) => ApplyPoll(s, poll)
    case Work(w, work) => ApplyWork(s, w, work)
    case Handle(h, handle) => ApplyHandle(s, h, handle)
  }

  function Exec(s: System, steps: seq<Step>): System {
    if steps == [] then s else Apply(Exec(s, steps[..|steps| - 1]), steps[|steps| - 1])
  }
}
