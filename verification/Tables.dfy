/**
 The orchestrator's coupled tables and, as functions, its critical sections under
 `o.mu`. The class in Orchestrator.dfy runs them step by step.
 */
module Tables {
  import opened Wrappers
  import opened Eligibility
  import opened Keyed

  datatype Usage = Usage(input: int, output: int, total: int) {
    function Plus(u: Usage): Usage {
      Usage(input + u.input, output + u.output, total + u.total)
    }

    predicate AtMost(u: Usage) {
      input <= u.input && output <= u.output && total <= u.total
    }
  }

  const ZERO_USAGE := Usage(0, 0, 0)

  function PositiveDelta(next: int, previous: int): nat {
    if next <= previous then 0 else next - previous
  }

  function TokenDelta(next: Usage, previous: Usage): Usage {
    Usage(
      PositiveDelta(next.input, previous.input),
      PositiveDelta(next.output, previous.output),
      PositiveDelta(next.total, previous.total))
  }

  datatype Session = Session(sessionId: string, threadId: string, turnId: string, pid: int)

  const NO_SESSION := Session("", "", "", 0)

  // A time is a count of clock ticks; 0 stands for the zero time.
  datatype RunningEntry = RunningEntry(
    id: string,
    identifier: string,
    state: string,
    phase: string,
    stage: string,
    workspacePath: string,
    attempt: int,
    turnCount: int,
    startedAt: int,
    lastEvent: string,
    lastMessage: string,
    lastEventAt: int,
    session: Session,
    tokens: Usage
  )

  datatype RetryEntry = RetryEntry(id: string, identifier: string, attempt: int, dueAt: int, error: string)

  datatype CodexEvent = CodexEvent(
    name: string,
    message: string,
    sessionId: string,
    threadId: string,
    turnId: string,
    pid: Option<int>,
    usage: Option<Usage>
  )

  datatype Stage = Stage(phase: string, stage: string, message: string, workspacePath: string, turnCount: int)

  const QUEUED := Stage("", "queued", "queued for worker", "", 1)

  function RunKey(e: RunningEntry): string { e.id }

  function RetryKey(e: RetryEntry): string { e.id }

  type WorkerId = int
  type TimerId = int

  // `timers` holds the timer of each queued retry; `armed` is the runtime's own
  // heap of timers that have neither fired nor been stopped.
  datatype Retries = Retries(
    timers: map<string, TimerId>,
    attempts: map<string, int>,
    entries: seq<RetryEntry>,
    armed: map<TimerId, string>,
    nextTimer: TimerId
  )

  // The running entries and the totals that are settled against them.
  datatype Board = Board(running: seq<RunningEntry>, totals: Usage, seconds: int)

  datatype Tables = Tables(
    cfg: Config,
    claimed: set<string>,
    cancels: map<string, WorkerId>,
    retries: Retries,
    board: Board,
    pendingCleanup: map<string, Issue>,
    serviceDone: bool
  )

  const NO_RETRIES := Retries(map[], map[], [], map[], 0)
  const EMPTY_BOARD := Board([], ZERO_USAGE, 0)

  function RunningIds(b: Board): set<string> { Keys(b.running, RunKey) }

  function RetryingIds(q: Retries): set<string> { Keys(q.entries, RetryKey) }

  // Later entries overwrite earlier ones, as the map built in a loop does.
  function RunningStates(running: seq<RunningEntry>): (r: map<string, string>)
    ensures r.Keys == Keys(running, RunKey)
  {
    if running == [] then map[]
    else
      var front, last := running[..|running| - 1], running[|running| - 1];
      var r := RunningStates(front)[last.id := last.state];
      KeysSnoc(running);
      r
  }

  lemma KeysSnoc(running: seq<RunningEntry>)
    requires running != []
    ensures Keys(running, RunKey) == Keys(running[..|running| - 1], RunKey) + {running[|running| - 1].id}
  {
    var front, last := running[..|running| - 1], running[|running| - 1];
    forall k | k in Keys(running, RunKey) ensures k in Keys(front, RunKey) + {last.id} {
      var i :| 0 <= i < |running| && RunKey(running[i]) == k;
      if i < |front| {
        assert RunKey(front[i]) == k;
      }
    }
    forall k | k in Keys(front, RunKey) + {last.id} ensures k in Keys(running, RunKey) {
      if k == last.id {
        assert RunKey(running[|running| - 1]) == k;
      } else {
        var i :| 0 <= i < |front| && RunKey(front[i]) == k;
        assert RunKey(running[i]) == k;
      }
    }
  }

  function EligibilityOf(t: Tables, ignoreClaim: string): EligibilityState {
    EligibilityState(t.cfg, t.claimed - {ignoreClaim}, RunningStates(t.board.running))
  }

  function FreeSlots(t: Tables): nat {
    var free := MaxConcurrent(t.cfg) - |t.board.running|;
    if free < 0 then 0 else free
  }

  // setRunningStageLocked: what a replaced entry passes on to its successor.
  function StageEntry(issue: Issue, attempt: int, stage: Stage, now: int): RunningEntry {
    RunningEntry(
      issue.id, issue.identifier, issue.state, stage.phase, stage.stage, stage.workspacePath, attempt,
      if stage.turnCount <= 0 then 1 else stage.turnCount,
      now, stage.stage, if stage.message == "" then stage.stage else stage.message, now,
      NO_SESSION, ZERO_USAGE)
  }

  function Inherit(entry: RunningEntry, existing: RunningEntry): RunningEntry {
    entry.(
      startedAt := if existing.startedAt != 0 then existing.startedAt else entry.startedAt,
      phase := if entry.phase == "" then existing.phase else entry.phase,
      stage := if entry.stage == "" then existing.stage else entry.stage,
      lastEvent := if entry.stage == "" then existing.lastEvent else entry.lastEvent,
      workspacePath := if entry.workspacePath == "" then existing.workspacePath else entry.workspacePath,
      session := existing.session,
      tokens := existing.tokens)
  }

  function SetStage(b: Board, issue: Issue, attempt: int, stage: Stage, now: int): Board {
    var entry := StageEntry(issue, attempt, stage, now);
    var i := Find(b.running, RunKey, issue.id);
    if i < |b.running|
    then b.(running := b.running[i := Inherit(entry, b.running[i])])
    else b.(running := b.running + [entry])
  }

  // Seconds an entry has been live at `now`.
  function Live(e: RunningEntry, now: int): int {
    if e.startedAt == 0 then 0 else now - e.startedAt
  }

  function LiveOf(running: seq<RunningEntry>, id: string, now: int): int {
    if running == [] then 0
    else
      var last := running[|running| - 1];
      LiveOf(running[..|running| - 1], id, now) + if last.id == id then Live(last, now) else 0
  }

  function RemoveRunning(b: Board, id: string, now: int): Board {
    b.(running := Without(b.running, RunKey, id), seconds := b.seconds + LiveOf(b.running, id, now))
  }

  // Stopping a timer that has already fired has no effect.
  function StopTimer(q: Retries, id: string): Retries {
    if id in q.timers then q.(armed := q.armed - {q.timers[id]}) else q
  }

  function ScheduleRetry(q: Retries, issue: Issue, attempt: int, error: string, dueAt: int): Retries {
    Retries(
      q.timers[issue.id := q.nextTimer],
      q.attempts[issue.id := attempt],
      Put(q.entries, RetryKey, RetryEntry(issue.id, issue.identifier, attempt, dueAt, error)),
      StopTimer(q, issue.id).armed[q.nextTimer := issue.id],
      q.nextTimer + 1)
  }

  function ClearRetry(q: Retries, id: string): Retries {
    Retries(
      q.timers - {id},
      q.attempts - {id},
      Without(q.entries, RetryKey, id),
      StopTimer(q, id).armed,
      q.nextTimer)
  }

  function StopRetryTimers(q: Retries): Retries {
    q.(armed := q.armed - q.timers.Values, timers := map[])
  }

  // The check that decides a dispatch. A claim alone does not refuse it.
  predicate MayDispatch(t: Tables, issue: Issue) {
    && !t.serviceDone
    && issue.id !in t.cancels
    && var verdict := CandidateEligible(issue, EligibilityOf(t, issue.id));
       verdict == Eligible || verdict == Refused(Claimed)
  }

  function Dispatch(t: Tables, issue: Issue, attempt: int, worker: WorkerId, now: int): Tables {
    t.(
      claimed := t.claimed + {issue.id},
      cancels := t.cancels[issue.id := worker],
      retries := ClearRetry(t.retries, issue.id),
      board := SetStage(t.board, issue, attempt, QUEUED, now))
  }

  function UpdateState(b: Board, id: string, state: string): Board {
    var i := Find(b.running, RunKey, id);
    if i < |b.running| then b.(running := b.running[i := b.running[i].(state := state)]) else b
  }

  function Observe(e: RunningEntry, event: CodexEvent, now: int): RunningEntry {
    e.(
      lastEvent := event.name,
      lastMessage := event.message,
      lastEventAt := now,
      session := Session(
        if event.sessionId != "" then event.sessionId else e.session.sessionId,
        if event.threadId != "" then event.threadId else e.session.threadId,
        if event.turnId != "" then event.turnId else e.session.turnId,
        if event.pid.Some? then event.pid.value else e.session.pid),
      tokens := if event.usage.Some? then event.usage.value else e.tokens)
  }

  function UpdateFromEvent(b: Board, id: string, event: CodexEvent, now: int): Board {
    var i := Find(b.running, RunKey, id);
    if i == |b.running| then b
    else
      var e := b.running[i];
      b.(
        running := b.running[i := Observe(e, event, now)],
        totals := if event.usage.Some? then b.totals.Plus(TokenDelta(event.usage.value, e.tokens)) else b.totals)
  }
}
