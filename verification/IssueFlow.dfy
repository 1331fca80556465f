/**
 One issue run: RunIssueTrunk, the Codex session loop and its AfterTurn decision.
 The agent and the tracker are arbitrary: every answer they give is an input. The
 run is judged by its log of what was seen, heard, begun and written, and of what failed.
 */
module IssueFlow {
  import opened Wrappers
  import opened Names
  import opened Outcomes

  datatype FlowConfig = FlowConfig(
    activeStates: seq<string>, terminalStates: seq<string>, maxTurns: int, reviewMode: string
  )

  datatype Event = Event(name: string, itemType: string, text: string)

  // What happens during one turn and what the tracker answers after it. `cleaned` says
  // that an earlier worker's exit deletes the stored record meanwhile.
  datatype Turn = Turn(
    startFails: Failure,
    cleaned: bool,
    events: seq<Event>,
    awaitFails: Failure,
    fetched: Result<string, Failure>,
    stored: bool,
    contextDone: Failure,
    updateFails: Failure
  )

  // `open` is the thread the session runs on, or why it could not start.
  datatype Session = Session(open: Result<string, Failure>, turns: seq<Turn>)

  datatype AttemptInput = AttemptInput(
    prepareFails: Failure,
    workspace: string,
    cleaned: bool,
    lookedUp: bool,
    first: Session,
    contextDone: Failure,
    dropped: bool,
    second: Session
  )

  datatype RunInput = RunInput(contextDone: Failure, promoteFails: Failure, attempt: AttemptInput)

  datatype Prompt = WorkflowPrompt | ContinuePrompt | AIReviewPrompt | PushingPrompt | MergingPrompt

  datatype Record = Record(thread: string, workspace: string)

  datatype Act =
    | Opened(resume: string)
    | Connected(thread: string)
    | Began(state: string, prompt: Prompt)
    | Heard(event: Event)
    | Saw(state: string)
    | Stored(record: Record)
    | Dropped
    | Wrote(to: string, ok: bool)
    | Broke(failure: Failure)
    | Cancelled(failure: Failure)

  datatype Flow = Flow(state: string, message: string, store: Option<Record>, log: seq<Act>) {
    function Add(a: Act): Flow {
      this.(log := log + [a])
    }
  }

  // --- State predicates ---

  // stateNameIn with a single, already trimmed name.
  predicate Is(state: string, name: string) {
    Trim(state) != "" && EqualFold(name, Trim(state))
  }

  predicate Active(cfg: FlowConfig, state: string) {
    cfg.activeStates == [] || StateNameIn(state, cfg.activeStates)
  }

  predicate Terminal(cfg: FlowConfig, state: string) {
    StateNameIn(state, cfg.terminalStates)
  }

  predicate InHumanReview(state: string) {
    Is(state, "Human Review") || Is(state, "In Review")
  }

  predicate WritesEnabled(cfg: FlowConfig) {
    EqualFold(Trim(cfg.reviewMode), "auto")
  }

  function MaxTurns(cfg: FlowConfig): int {
    if cfg.maxTurns <= 0 then 1 else cfg.maxTurns
  }

  predicate ReviewPasses(text: string) {
    var normalized := Lower(Trim(text));
    || IsPrefix("review: pass", normalized)
    || IsPrefix("conclusion: pass", normalized)
    || IsPrefix("结论: pass", normalized)
    || IsPrefix("结论：pass", normalized)
  }

  predicate MergePasses(text: string) {
    IsPrefix("merge: pass", Lower(Trim(text)))
  }

  predicate PushPasses(text: string) {
    IsPrefix("push: pass", Lower(Trim(text)))
  }

  function CompletedText(e: Event): string {
    if e.name == "item/completed" && e.itemType == "agentMessage" then e.text else ""
  }

  function NextPrompt(state: string): Prompt {
    if Is(state, "AI Review") then AIReviewPrompt
    else if Is(state, "Pushing") then PushingPrompt
    else if Is(state, "Merging") then MergingPrompt
    else ContinuePrompt
  }

  // --- The run as a function ---

  function HearOne(f: Flow, event: Event): Flow {
    var text := CompletedText(event);
    (if text == "" then f else f.(message := text)).Add(Heard(event))
  }

  function Hear(f: Flow, events: seq<Event>): Flow
    decreases |events|
  {
    if events == [] then f
    else
      Hear(HearOne(f, events[0]), events[1..])
  }

  // How AfterTurn ends: another turn, or the session's result.
  datatype Verdict = Again(flow: Flow) | Halt(flow: Flow, outcome: Outcome, failure: Failure)

  // UpdateIssueState: the flow takes the new state over only when the write succeeds.
  function Write(f: Flow, to: string, fails: Failure): Flow {
    if fails == NoFailure then f.(state := to).Add(Wrote(to, true)) else f.Add(Wrote(to, false))
  }

  function Fetched(f: Flow, state: string, turn: Turn, record: Record): Flow {
    var seen := f.(state := state).Add(Saw(state));
    if turn.stored && record.thread != "" then seen.(store := Some(record)).Add(Stored(record)) else seen
  }

  function Decide(cfg: FlowConfig, f: Flow, turn: Turn, turnStart: string, turnCount: int): Verdict {
    if turn.contextDone != NoFailure then Halt(f.Add(Cancelled(turn.contextDone)), Stopped, turn.contextDone)
    else if Terminal(cfg, f.state) then Halt(f, Done, NoFailure)
    else if InHumanReview(f.state) then Halt(f, WaitHuman, NoFailure)
    else if !Active(cfg, f.state) then Halt(f, Stopped, NoFailure)
    else if Is(f.state, "AI Review") && ReviewPasses(f.message) then
      if !WritesEnabled(cfg) then Halt(f, WaitHuman, NoFailure)
      else if turn.updateFails == NoFailure then Again(Write(f, "Merging", turn.updateFails))
      else Halt(Write(f, "Merging", turn.updateFails), RetryFailure, turn.updateFails)
    else if
      || (Is(turnStart, "Pushing") && Is(f.state, "Pushing") && PushPasses(f.message))
      || (Is(f.state, "Merging") && MergePasses(f.message))
    then
      if !WritesEnabled(cfg) then Halt(f, WaitHuman, NoFailure)
      else Halt(
        Write(f, "Done", turn.updateFails),
        if turn.updateFails == NoFailure then Done else RetryFailure,
        turn.updateFails)
    else if turnCount >= MaxTurns(cfg) then Halt(f, RetryContinuation, NoFailure)
    else Again(f)
  }

  function AfterTurn(cfg: FlowConfig, f: Flow, turn: Turn, record: Record, turnCount: int): Verdict {
    if turn.fetched.Err? then
      var failure := Reason(turn.fetched.error, "fetch failed");
      Halt(f.Add(Broke(failure)), RetryFailure, failure)
    else Decide(cfg, Fetched(f, turn.fetched.value, turn, record), turn, f.state, turnCount)
  }

  // An error is never empty.
  function Reason(failure: Failure, otherwise: string): Failure {
    if failure == NoFailure then Failed(otherwise) else failure
  }

  function Drop(f: Flow, dropped: bool): Flow {
    if dropped then f.(store := None).Add(Dropped) else f
  }

  // A turn, up to what its end brings.
  function Await(f: Flow, turn: Turn, prompt: Prompt): Flow {
    Hear(Drop(f.Add(Began(f.state, prompt)), turn.cleaned), turn.events)
  }

  // `turns` counts the turns that were awaited and recorded.
  datatype SessionEnd = SessionEnd(flow: Flow, turns: int, outcome: Outcome, failure: Failure)

  const STREAM_CLOSED := Failed("app-server stream closed")

  // RunSession from turn `turnCount` on; the agent process dies when `turns` is used up.
  function RunTurns(cfg: FlowConfig, f: Flow, turns: seq<Turn>, record: Record, turnCount: int,
      prompt: Prompt): SessionEnd
    decreases |turns|
  {
    if turns == [] then SessionEnd(f.Add(Broke(STREAM_CLOSED)), turnCount - 1, RetryContinuation, STREAM_CLOSED)
    else if turns[0].startFails != NoFailure then
      SessionEnd(f.Add(Broke(turns[0].startFails)), turnCount - 1, RetryContinuation, turns[0].startFails)
    else
      var heard := Await(f, turns[0], prompt);
      if turns[0].awaitFails != NoFailure then
        SessionEnd(heard.Add(Broke(turns[0].awaitFails)), turnCount, RetryContinuation, turns[0].awaitFails)
      else
        match AfterTurn(cfg, heard, turns[0], record, turnCount)
        case Again(next) => RunTurns(cfg, next, turns[1..], record, turnCount + 1, NextPrompt(next.state))
        case Halt(last, outcome, failure) => SessionEnd(last, turnCount, outcome, failure)
  }

  function RunSession(cfg: FlowConfig, f: Flow, session: Session, workspace: string, resume: string): SessionEnd {
    var begun := f.(message := "").Add(Opened(resume));
    if session.open.Err? then
      var failure := Reason(session.open.error, "session start failed");
      SessionEnd(begun.Add(Broke(failure)), 0, RetryContinuation, failure)
    else
      RunTurns(
        cfg, begun.Add(Connected(session.open.value)), session.turns, Record(session.open.value, workspace), 1,
        if resume == "" then WorkflowPrompt else ContinuePrompt)
  }

  function ResumeThread(f: Flow, workspace: string, lookedUp: bool): string {
    if lookedUp && Is(f.state, "Rework") && f.store.Some? && f.store.value.workspace == workspace
    then f.store.value.thread
    else ""
  }

  function ReturnRetryOrStop(failure: Failure): Exit {
    if failure == Canceled then Exit(Stopped, failure) else Exit(RetryFailure, failure)
  }

  function SessionExit(e: SessionEnd): Exit {
    if e.failure != NoFailure then ReturnRetryOrStop(e.failure) else Exit(e.outcome, NoFailure)
  }

  function WorkerAttempt(cfg: FlowConfig, f: Flow, input: AttemptInput): (Flow, Exit) {
    if input.prepareFails != NoFailure then (f.Add(Broke(input.prepareFails)), Exit(RetryFailure, input.prepareFails))
    else
      var g := Drop(f, input.cleaned);
      var resume := ResumeThread(g, input.workspace, input.lookedUp);
      var e := RunSession(cfg, g, input.first, input.workspace, resume);
      if e.failure != NoFailure && resume != "" && e.turns == 0 && input.contextDone != NoFailure
      then (e.flow.Add(Cancelled(input.contextDone)), SessionExit(e))
      else if e.failure != NoFailure && resume != "" && e.turns == 0
      then
        var again := RunSession(
          cfg, Drop(e.flow, input.dropped).(state := f.state), input.second, input.workspace, "");
        (again.flow, SessionExit(again))
      else (e.flow, SessionExit(e))
  }

  function RunIssueTrunk(cfg: FlowConfig, state: string, store: Option<Record>, input: RunInput): (Flow, Exit) {
    var f := Flow(state, "", store, [Saw(state)]);
    if input.contextDone != NoFailure then (f.Add(Cancelled(input.contextDone)), Exit(Stopped, input.contextDone))
    else if Terminal(cfg, state) then (f, Exit(Done, NoFailure))
    else if Is(state, "Blocked") then (f, Exit(WaitHuman, NoFailure))
    else
      var g := if Is(state, "Todo") then Write(f, "In Progress", input.promoteFails) else f;
      if Is(state, "Todo") && input.promoteFails != NoFailure then (g, Exit(RetryFailure, input.promoteFails))
      else if InHumanReview(g.state) then (g, Exit(WaitHuman, NoFailure))
      else if !Active(cfg, g.state) then (g, Exit(Stopped, NoFailure))
      else WorkerAttempt(cfg, g, input.attempt)
  }
}
