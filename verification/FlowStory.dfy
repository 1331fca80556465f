/** That a run's log tells all that the agent, the tracker and the context brought, in order. */
module FlowStory {
  import opened Wrappers
  import opened Outcomes
  import opened IssueFlow

  function Heards(events: seq<Event>): seq<Act> {
    if events == [] then [] else [Heard(events[0])] + Heards(events[1..])
  }

  // What is heard in one turn, once it has begun.
  function During(turn: Turn): seq<Act> {
    (if turn.cleaned then [Dropped] else []) + Heards(turn.events)
  }

  // What its end brings.
  function AtEnd(turn: Turn, record: Record): seq<Act> {
    if turn.awaitFails != NoFailure then [Broke(turn.awaitFails)]
    else
      match turn.fetched
      case Err(failure) => [Broke(if failure == NoFailure then Failed("fetch failed") else failure)]
      case Ok(state) =>
        [Saw(state)] +
        (if turn.stored && record.thread != "" then [Stored(record)] else []) +
        if turn.contextDone != NoFailure then [Cancelled(turn.contextDone)] else []
  }

  predicate GoesWrong(turn: Turn) {
    turn.awaitFails != NoFailure || turn.fetched.Err? || turn.contextDone != NoFailure
  }

  // The state write of a turn, if there is one.
  predicate WriteOf(turn: Turn, write: seq<Act>) {
    |write| <= 1 && forall a | a in write :: a.Wrote? && (a.ok <==> turn.updateFails == NoFailure)
  }

  // The log is one turn and what came after it.
  ghost predicate OneTurn(turn: Turn, record: Record, log: seq<Act>, rest: seq<Act>) {
    exists began: Act, write: seq<Act> ::
      && began.Began? && WriteOf(turn, write) && log == [began] + During(turn) + AtEnd(turn, record) + write + rest
      && (GoesWrong(turn) ==> write == [] && rest == [])
  }

  // The log of a session tells its turns one after the other, to the last one taken.
  ghost predicate Tells(turns: seq<Turn>, record: Record, log: seq<Act>)
    decreases |turns|
  {
    if turns == [] then log == [Broke(STREAM_CLOSED)]
    else if turns[0].startFails != NoFailure then log == [Broke(turns[0].startFails)]
    else exists rest :: OneTurn(turns[0], record, log, rest) && (rest == [] || Tells(turns[1..], record, rest))
  }

  lemma {:induction false} HearTells(f: Flow, events: seq<Event>)
    ensures Hear(f, events).log == f.log + Heards(events)
    decreases |events|
  {
    if events != [] {
      HearTells(HearOne(f, events[0]), events[1..]);
    }
  }

  lemma AwaitTells(f: Flow, turn: Turn, prompt: Prompt)
    ensures Await(f, turn, prompt).log == f.log + ([Began(f.state, prompt)] + During(turn))
  {
    HearTells(Drop(f.Add(Began(f.state, prompt)), turn.cleaned), turn.events);
  }

  lemma FetchedTells(f: Flow, state: string, turn: Turn, record: Record)
    ensures Fetched(f, state, turn, record).log ==
      f.log + [Saw(state)] + if turn.stored && record.thread != "" then [Stored(record)] else []
  {
  }

  // What a decision adds.
  function Added(cfg: FlowConfig, f: Flow, turn: Turn, turnStart: string, turnCount: int): seq<Act> {
    var log := Decide(cfg, f, turn, turnStart, turnCount).flow.log;
    if |log| <= |f.log| then [] else log[|f.log|..]
  }

  lemma DecideTells(cfg: FlowConfig, f: Flow, turn: Turn, turnStart: string, turnCount: int)
    ensures var added := Added(cfg, f, turn, turnStart, turnCount); var v := Decide(cfg, f, turn, turnStart, turnCount);
      && v.flow.log == f.log + added
      && if turn.contextDone != NoFailure then added == [Cancelled(turn.contextDone)] && v.Halt?
         else WriteOf(turn, added)
  {
    hide Terminal, Active, InHumanReview, Is, ReviewPasses, PushPasses, MergePasses, WritesEnabled, MaxTurns;
  }

  lemma AfterTurnTells(cfg: FlowConfig, f: Flow, turn: Turn, record: Record, turnCount: int)
      returns (write: seq<Act>)
    requires turn.awaitFails == NoFailure
    ensures var v := AfterTurn(cfg, f, turn, record, turnCount);
      && v.flow.log == f.log + (AtEnd(turn, record) + write) && WriteOf(turn, write)
      && (GoesWrong(turn) ==> write == [] && v.Halt?)
  {
    write := [];
    if turn.fetched.Ok? {
      var state := turn.fetched.value;
      var seen := Fetched(f, state, turn, record);
      FetchedTells(f, state, turn, record);
      DecideTells(cfg, seen, turn, f.state, turnCount);
      if turn.contextDone == NoFailure {
        write := Added(cfg, seen, turn, f.state, turnCount);
      }
      hide Decide, Fetched, Added;
      Assoc(f.log, [Saw(state)], if turn.stored && record.thread != "" then [Stored(record)] else []);
    }
  }

  lemma Assoc(a: seq<Act>, b: seq<Act>, c: seq<Act>)
    ensures (a + b) + c == a + (b + c)
  {
  }

  lemma {:induction false} RunTurnsTells(cfg: FlowConfig, f: Flow, turns: seq<Turn>, record: Record, turnCount: int,
      prompt: Prompt) returns (tail: seq<Act>)
    ensures RunTurns(cfg, f, turns, record, turnCount, prompt).flow.log == f.log + tail
    ensures Tells(turns, record, tail)
    decreases |turns|
  {
    hide AfterTurn, Await, During, AtEnd, OneTurn;
    if turns == [] {
      return [Broke(STREAM_CLOSED)];
    }
    var turn := turns[0];
    if turn.startFails != NoFailure {
      return [Broke(turn.startFails)];
    }
    var began := Began(f.state, prompt);
    var heard := Await(f, turn, prompt);
    AwaitTells(f, turn, prompt);
    var front := [began] + During(turn);
    if turn.awaitFails != NoFailure {
      AtEndOfWait(turn, record);
      tail := front + AtEnd(turn, record) + [] + [];
      IsOneTurn(turn, record, began, [], []);
      return;
    }
    var write := AfterTurnTells(cfg, heard, turn, record, turnCount);
    var v := AfterTurn(cfg, heard, turn, record, turnCount);
    var rest := [];
    if v.Again? {
      rest := RunTurnsTells(cfg, v.flow, turns[1..], record, turnCount + 1, NextPrompt(v.flow.state));
    }
    tail := front + AtEnd(turn, record) + write + rest;
    IsOneTurn(turn, record, began, write, rest);
    hide RunTurns;
    Assoc(f.log, front, AtEnd(turn, record) + write);
    assert v.flow.log + rest == f.log + tail;
  }

  lemma AtEndOfWait(turn: Turn, record: Record)
    requires turn.awaitFails != NoFailure
    ensures AtEnd(turn, record) == [Broke(turn.awaitFails)]
  {
  }

  lemma IsOneTurn(turn: Turn, record: Record, began: Act, write: seq<Act>, rest: seq<Act>)
    requires began.Began? && WriteOf(turn, write) && (GoesWrong(turn) ==> write == [] && rest == [])
    ensures OneTurn(turn, record, [began] + During(turn) + AtEnd(turn, record) + write + rest, rest)
  {
  }

  // --- The session, the attempt and the run ---

  ghost predicate SessionTells(session: Session, workspace: string, resume: string, log: seq<Act>) {
    match session.open
    case Err(failure) =>
      log == [Opened(resume), Broke(if failure == NoFailure then Failed("session start failed") else failure)]
    case Ok(thread) =>
      exists tail ::
        log == [Opened(resume), Connected(thread)] + tail && Tells(session.turns, Record(thread, workspace), tail)
  }

  lemma RunSessionTells(cfg: FlowConfig, f: Flow, session: Session, workspace: string, resume: string)
      returns (tail: seq<Act>)
    ensures RunSession(cfg, f, session, workspace, resume).flow.log == f.log + tail
    ensures SessionTells(session, workspace, resume, tail)
  {
    hide RunTurns, Tells;
    var begun := f.(message := "").Add(Opened(resume));
    if session.open.Err? {
      tail := [Opened(resume), Broke(Reason(session.open.error, "session start failed"))];
    } else {
      var thread := session.open.value;
      var more := RunTurnsTells(
        cfg, begun.Add(Connected(thread)), session.turns, Record(thread, workspace), 1,
        if resume == "" then WorkflowPrompt else ContinuePrompt);
      tail := [Opened(resume), Connected(thread)] + more;
    }
  }

  // After a session that has given up: the context's end, or a fresh session.
  ghost predicate FallbackTells(input: AttemptInput, log: seq<Act>) {
    if input.contextDone != NoFailure then log == [Cancelled(input.contextDone)]
    else
      exists second ::
        && log == (if input.dropped then [Dropped] else []) + second
        && SessionTells(input.second, input.workspace, "", second)
  }

  predicate InThree(log: seq<Act>, a: seq<Act>, b: seq<Act>, c: seq<Act>) {
    log == a + b + c
  }

  function Cleaning(input: AttemptInput): seq<Act> {
    if input.cleaned then [Dropped] else []
  }

  ghost predicate AttemptTells(input: AttemptInput, log: seq<Act>) {
    if input.prepareFails != NoFailure then log == [Broke(input.prepareFails)]
    else
      exists resume, first, rest ::
        && InThree(log, Cleaning(input), first, rest)
        && SessionTells(input.first, input.workspace, resume, first)
        && (rest == [] || FallbackTells(input, rest))
  }

  lemma WorkerAttemptTells(cfg: FlowConfig, f: Flow, input: AttemptInput) returns (tail: seq<Act>)
    ensures WorkerAttempt(cfg, f, input).0.log == f.log + tail && AttemptTells(input, tail)
  {
    if input.prepareFails != NoFailure {
      return [Broke(input.prepareFails)];
    }
    hide RunSession, SessionTells, ResumeThread, FallbackTells, AttemptTells;
    var g := Drop(f, input.cleaned);
    var resume := ResumeThread(g, input.workspace, input.lookedUp);
    assert g.log == f.log + Cleaning(input);
    var first := RunSessionTells(cfg, g, input.first, input.workspace, resume);
    var e := RunSession(cfg, g, input.first, input.workspace, resume);
    var rest := [];
    if e.failure != NoFailure && resume != "" && e.turns == 0 {
      rest := FallbackIsTold(cfg, e.flow, f.state, input);
    }
    assert WorkerAttempt(cfg, f, input).0.log == e.flow.log + rest;
    hide WorkerAttempt, Drop;
    tail := Cleaning(input) + first + rest;
    AttemptIsTold(input, resume, first, rest);
    Assoc(f.log, Cleaning(input), first);
    Assoc(f.log, Cleaning(input) + first, rest);
  }

  lemma AttemptIsTold(input: AttemptInput, resume: string, first: seq<Act>, rest: seq<Act>)
    requires input.prepareFails == NoFailure && SessionTells(input.first, input.workspace, resume, first)
    requires rest == [] || FallbackTells(input, rest)
    ensures AttemptTells(input, Cleaning(input) + first + rest)
  {
    assert InThree(Cleaning(input) + first + rest, Cleaning(input), first, rest);
  }

  lemma FallbackIsTold(cfg: FlowConfig, f: Flow, state: string, input: AttemptInput) returns (tail: seq<Act>)
    ensures FallbackTells(input, tail)
    ensures input.contextDone != NoFailure ==> f.Add(Cancelled(input.contextDone)).log == f.log + tail
    ensures input.contextDone == NoFailure ==>
      var g := Drop(f, input.dropped).(state := state);
      RunSession(cfg, g, input.second, input.workspace, "").flow.log == f.log + tail
  {
    hide RunSession, SessionTells;
    if input.contextDone != NoFailure {
      tail := [Cancelled(input.contextDone)];
    } else {
      var h := Drop(f, input.dropped).(state := state);
      var second := RunSessionTells(cfg, h, input.second, input.workspace, "");
      tail := (if input.dropped then [Dropped] else []) + second;
    }
  }

  ghost predicate RunTells(state: string, input: RunInput, log: seq<Act>) {
    if input.contextDone != NoFailure then log == [Saw(state), Cancelled(input.contextDone)]
    else
      exists write, rest ::
        && InThree(log, [Saw(state)], write, rest)
        && (write == [] || write == [Wrote("In Progress", input.promoteFails == NoFailure)])
        && (rest == [] || AttemptTells(input.attempt, rest))
  }

  // Whatever comes from outside is in the log where it came: every event, every answer,
  // every failure, whether writes and records went through, and the end of the context.
  lemma EveryRunTells(cfg: FlowConfig, state: string, before: Option<Record>, input: RunInput)
    ensures RunTells(state, input, RunIssueTrunk(cfg, state, before, input).0.log)
  {
    hide WorkerAttempt, AttemptTells, Is, Terminal, Active, InHumanReview;
    var f := Flow(state, "", before, [Saw(state)]);
    var write := if Is(state, "Todo") then [Wrote("In Progress", input.promoteFails == NoFailure)] else [];
    var g := if Is(state, "Todo") then Write(f, "In Progress", input.promoteFails) else f;
    var tail := WorkerAttemptTells(cfg, g, input.attempt);
    var log := RunIssueTrunk(cfg, state, before, input).0.log;
    assert g.log == [Saw(state)] + write;
    if input.contextDone == NoFailure {
      RunIsTold(state, input, [], []);
      RunIsTold(state, input, write, []);
      RunIsTold(state, input, write, tail);
      assert [Saw(state)] + [] + [] == f.log && [Saw(state)] + write + [] == g.log;
      assert [Saw(state)] + write + tail == g.log + tail;
    }
  }

  lemma RunIsTold(state: string, input: RunInput, write: seq<Act>, rest: seq<Act>)
    requires input.contextDone == NoFailure && (rest == [] || AttemptTells(input.attempt, rest))
    requires write == [] || write == [Wrote("In Progress", input.promoteFails == NoFailure)]
    ensures RunTells(state, input, [Saw(state)] + write + rest)
  {
    assert InThree([Saw(state)] + write + rest, [Saw(state)], write, rest);
  }
}
