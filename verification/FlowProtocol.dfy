/** The promises of an issue run, read off its log. */
module FlowProtocol {
  import opened Wrappers
  import opened Names
  import opened Outcomes
  import opened IssueFlow

  // --- What a log says ---

  function LastSaw(log: seq<Act>): string {
    if log == [] then ""
    else
      match log[|log| - 1]
      case Saw(state) => state
      case _ => LastSaw(log[..|log| - 1])
  }

  // The state last seen or successfully written.
  function LastKnown(log: seq<Act>): string {
    if log == [] then ""
    else
      match log[|log| - 1]
      case Saw(state) => state
      case Wrote(to, true) => to
      case _ => LastKnown(log[..|log| - 1])
  }

  // A completed message of the agent that says something.
  predicate Speaks(a: Act) {
    a.Heard? && a.event.name == "item/completed" && a.event.itemType == "agentMessage" && a.event.text != ""
  }

  // The latest completed agent message of the session.
  function LastSaid(log: seq<Act>): string {
    if log == [] then ""
    else
      var a := log[|log| - 1];
      if Speaks(a) then a.event.text else if a.Opened? then "" else LastSaid(log[..|log| - 1])
  }

  // The state in which the latest turn began.
  function LastBegan(log: seq<Act>): string {
    if log == [] then ""
    else
      match log[|log| - 1]
      case Began(state, _) => state
      case _ => LastBegan(log[..|log| - 1])
  }

  // The thread the latest session asked to resume.
  function LastResume(log: seq<Act>): string {
    if log == [] then ""
    else
      match log[|log| - 1]
      case Opened(resume) => resume
      case _ => LastResume(log[..|log| - 1])
  }

  // The thread the latest session runs on.
  function LastThread(log: seq<Act>): string {
    if log == [] then ""
    else
      match log[|log| - 1]
      case Connected(thread) => thread
      case _ => LastThread(log[..|log| - 1])
  }

  // The record of the last recorded turn, unless it was dropped since.
  function LastRecord(before: Option<Record>, log: seq<Act>): Option<Record> {
    if log == [] then before
    else
      match log[|log| - 1]
      case Stored(record) => Some(record)
      case Dropped => None
      case _ => LastRecord(before, log[..|log| - 1])
  }

  function Count(log: seq<Act>, of: Act -> bool): nat {
    if log == [] then 0 else Count(log[..|log| - 1], of) + if of(log[|log| - 1]) then 1 else 0
  }

  function IsTurn(a: Act): bool { a.Began? }

  function IsSession(a: Act): bool { a.Opened? }

  function IsReviewWrite(a: Act): bool { a == Wrote("Merging", true) }

  function Turns(log: seq<Act>): nat { Count(log, IsTurn) }

  function Sessions(log: seq<Act>): nat { Count(log, IsSession) }

  function ReviewWrites(log: seq<Act>): nat { Count(log, IsReviewWrite) }

  // --- What a run goes by ---

  // What it knows from outside: configuration, the stored record it starts from, its
  // workspace, and whether looking that record up works.
  datatype Setting = Setting(cfg: FlowConfig, before: Option<Record>, workspace: string, lookedUp: bool)

  // Names of states and modes count without case and surrounding space.
  predicate Named(state: string, name: string) {
    Lower(Trim(state)) == name
  }

  predicate Finished(cfg: FlowConfig, state: string) {
    StateNameIn(state, cfg.terminalStates)
  }

  predicate Waiting(state: string) {
    Named(state, "human review") || Named(state, "in review")
  }

  predicate Worked(cfg: FlowConfig, state: string) {
    StateNameIn(state, cfg.activeStates) || cfg.activeStates == []
  }

  predicate Ready(cfg: FlowConfig, state: string) {
    !Finished(cfg, state) && !Waiting(state) && Worked(cfg, state)
  }

  // The policy under which the service itself writes states.
  predicate Auto(cfg: FlowConfig) {
    Named(cfg.reviewMode, "auto")
  }

  function Budget(cfg: FlowConfig): int {
    if cfg.maxTurns < 1 then 1 else cfg.maxTurns
  }

  // The message begins with these words, without case and space before them.
  predicate Begins(message: string, words: string) {
    words <= Lower(Trim(message))
  }

  // The agent's latest message passes the state the issue was last seen in.
  predicate ReviewSignal(log: seq<Act>) {
    && Named(LastSaw(log), "ai review")
    && exists i | 0 <= i < 4 ::
         Begins(LastSaid(log), ["review: pass", "conclusion: pass", "结论: pass", "结论：pass"][i])
  }

  predicate DoneSignal(log: seq<Act>) {
    || (Named(LastSaw(log), "pushing") && Named(LastBegan(log), "pushing") && Begins(LastSaid(log), "push: pass"))
    || (Named(LastSaw(log), "merging") && Begins(LastSaid(log), "merge: pass"))
  }

  function DuePrompt(state: string): Prompt {
    if Named(state, "merging") then MergingPrompt
    else if Named(state, "pushing") then PushingPrompt
    else if Named(state, "ai review") then AIReviewPrompt
    else ContinuePrompt
  }

  // --- Where a run stands ---

  // The issue is seen for the first time.
  predicate AtStart(log: seq<Act>) {
    log != [] && log[|log| - 1].Saw? && Sessions(log) == 0
  }

  // A turn is on.
  predicate Listening(log: seq<Act>) {
    && log != [] && Sessions(log) > 0
    && var a := log[|log| - 1];
       a.Began? || a.Heard? || (a.Dropped? && Turns(log) > 0)
  }

  // The issue has been seen after a turn.
  predicate Deciding(log: seq<Act>) {
    log != [] && Sessions(log) > 0 && (log[|log| - 1].Saw? || log[|log| - 1].Stored?)
  }

  // Nothing speaks against a session.
  predicate Preparing(cfg: FlowConfig, log: seq<Act>) {
    && log != [] && Sessions(log) == 0
    && match log[|log| - 1]
       case Saw(state) => Ready(cfg, state) && !Named(state, "blocked") && !Named(state, "todo")
       case Wrote(to, ok) => to == "In Progress" && ok && Worked(cfg, to)
       case _ => false
  }

  // A resume has failed before its first turn.
  predicate GaveUp(log: seq<Act>) {
    log != [] && log[|log| - 1].Broke? && Sessions(log) == 1 && Turns(log) == 0 && LastResume(log) != ""
  }

  // The next turn is due: the first of a session, the one after a review that passed, and
  // any other that the budget has left.
  predicate TurnIsDue(cfg: FlowConfig, log: seq<Act>) {
    && log != []
    && match log[|log| - 1]
       case Connected(_) => true
       case Wrote(to, ok) => to == "Merging" && ok
       case _ =>
         && Deciding(log) && Ready(cfg, LastSaw(log))
         && !ReviewSignal(log) && !DoneSignal(log) && Turns(log) < Budget(cfg)
  }

  // --- What may come next ---

  predicate LegalWrite(cfg: FlowConfig, log: seq<Act>, to: string) {
    || (to == "In Progress" && AtStart(log) && Named(LastSaw(log), "todo") && !Finished(cfg, LastSaw(log)))
    || (to == "Merging" && Deciding(log) && Auto(cfg) && Ready(cfg, LastSaw(log)) && ReviewSignal(log))
    || (to == "Done" && Deciding(log) && Auto(cfg) && Ready(cfg, LastSaw(log)) && DoneSignal(log))
  }

  // A turn begins in the state last known, with the prompt for that state unless it
  // is the first of its session.
  predicate LegalTurn(log: seq<Act>, state: string, prompt: Prompt) {
    && Sessions(log) > 0
    && state == LastKnown(log)
    && if log[|log| - 1].Connected?
       then prompt == (if LastResume(log) == "" then WorkflowPrompt else ContinuePrompt)
       else prompt == DuePrompt(state)
  }

  // The thread a first session must ask for: the recorded one, for Rework in the same
  // workspace, and a fresh one otherwise.
  function DueResume(run: Setting, log: seq<Act>): string {
    var record := LastRecord(run.before, log);
    if run.lookedUp && Named(LastKnown(log), "rework") && record.Some? && record.value.workspace == run.workspace
    then record.value.thread
    else ""
  }

  // A second session is a fresh thread after a resume that recorded no turn.
  predicate LegalSession(run: Setting, log: seq<Act>, resume: string) {
    if Sessions(log) == 0 then resume == DueResume(run, log)
    else Sessions(log) == 1 && LastResume(log) != "" && Turns(log) == 0 && resume == ""
  }

  predicate SessionIsDue(cfg: FlowConfig, log: seq<Act>) {
    Preparing(cfg, log) || GaveUp(log) || (log != [] && log[|log| - 1].Dropped? && Turns(log) == 0)
  }

  // A failure may come wherever something is asked of the outside.
  predicate MayBreak(cfg: FlowConfig, log: seq<Act>) {
    Preparing(cfg, log) || (log != [] && log[|log| - 1].Opened?) || TurnIsDue(cfg, log) || Listening(log)
  }

  predicate Legal(run: Setting, log: seq<Act>, a: Act) {
    match a
    case Saw(_) => log == [] || Listening(log)
    case Stored(record) =>
      && Deciding(log) && log[|log| - 1].Saw?
      && record == Record(LastThread(log), run.workspace) && record.thread != ""
    case Wrote(to, _) => LegalWrite(run.cfg, log, to)
    case Opened(resume) => SessionIsDue(run.cfg, log) && LegalSession(run, log, resume)
    case Connected(_) => log != [] && log[|log| - 1].Opened?
    case Began(state, prompt) => TurnIsDue(run.cfg, log) && LegalTurn(log, state, prompt)
    case Heard(_) => Listening(log)
    case Dropped => Preparing(run.cfg, log) || GaveUp(log) || (log != [] && log[|log| - 1].Began?)
    case Broke(_) => MayBreak(run.cfg, log)
    case Cancelled(_) => AtStart(log) || Deciding(log) || GaveUp(log)
  }

  ghost predicate Protocol(run: Setting, log: seq<Act>) {
    forall k | 0 <= k < |log| :: Legal(run, log[..k], log[k])
  }

  // --- How it may end ---

  // A cancelled run stops, any other failure is retried.
  function Failing(failure: Failure): Exit {
    Exit(if failure == Canceled then Stopped else RetryFailure, failure)
  }

  // What the state last seen says, when nothing more is done.
  predicate Settles(cfg: FlowConfig, log: seq<Act>, outcome: Outcome) {
    var state := LastSaw(log);
    if Finished(cfg, state) then outcome == Done
    else if Sessions(log) == 0 && Named(state, "blocked") then outcome == WaitHuman
    else if Sessions(log) == 0 && Named(state, "todo") then false
    else if Waiting(state) then outcome == WaitHuman
    else if !Worked(cfg, state) then outcome == Stopped
    else if Sessions(log) == 0 then false
    else if ReviewSignal(log) || DoneSignal(log) then outcome == WaitHuman && !Auto(cfg)
    else outcome == RetryContinuation && Turns(log) >= Budget(cfg)
  }

  predicate EndsDuly(cfg: FlowConfig, log: seq<Act>, exit: Exit) {
    && log != []
    && match log[|log| - 1]
       case Saw(_) => exit.failure == NoFailure && Settles(cfg, log, exit.outcome)
       case Stored(_) => exit.failure == NoFailure && Settles(cfg, log, exit.outcome)
       case Wrote(to, true) =>
         if to == "Done" then exit == Exit(Done, NoFailure)
         else to == "In Progress" && !Worked(cfg, to) && exit == Exit(Stopped, NoFailure)
       case Wrote(to, false) =>
         && exit.failure != NoFailure
         && exit.outcome == if to == "In Progress" then RetryFailure else Failing(exit.failure).outcome
       case Broke(failure) =>
         && failure != NoFailure && !GaveUp(log)
         && exit == if Sessions(log) == 0 then Exit(RetryFailure, failure) else Failing(failure)
       case Cancelled(failure) =>
         && exit.failure != NoFailure
         && if Sessions(log) == 0 then exit == Exit(Stopped, failure)
            else if |log| > 1 && log[|log| - 2].Broke? then exit == Failing(log[|log| - 2].failure)
            else exit == Failing(failure)
       case _ => false
  }

  // --- Logs grow one act at a time ---

  lemma Added(log: seq<Act>, a: Act, before: Option<Record>)
    ensures LastSaw(log + [a]) == if a.Saw? then a.state else LastSaw(log)
    ensures LastKnown(log + [a]) == if a.Saw? then a.state else if a.Wrote? && a.ok then a.to else LastKnown(log)
    ensures LastSaid(log + [a]) == if Speaks(a) then a.event.text else if a.Opened? then "" else LastSaid(log)
    ensures LastBegan(log + [a]) == if a.Began? then a.state else LastBegan(log)
    ensures LastResume(log + [a]) == if a.Opened? then a.resume else LastResume(log)
    ensures LastThread(log + [a]) == if a.Connected? then a.thread else LastThread(log)
    ensures LastRecord(before, log + [a]) ==
      if a.Stored? then Some(a.record) else if a.Dropped? then None else LastRecord(before, log)
    ensures Turns(log + [a]) == Turns(log) + if a.Began? then 1 else 0
    ensures Sessions(log + [a]) == Sessions(log) + if a.Opened? then 1 else 0
    ensures ReviewWrites(log + [a]) == ReviewWrites(log) + if a == Wrote("Merging", true) then 1 else 0
  {
    assert (log + [a])[..|log|] == log;
  }

  lemma Extends(run: Setting, log: seq<Act>, a: Act)
    requires Protocol(run, log) && Legal(run, log, a)
    ensures Protocol(run, log + [a])
  {
    hide Legal;
    var r := log + [a];
    forall k | 0 <= k < |r| ensures Legal(run, r[..k], r[k]) {
      if k < |log| {
        assert r[..k] == log[..k] && r[k] == log[k];
        assert Legal(run, log[..k], log[k]);
      } else {
        assert r[..k] == log;
      }
    }
  }

  // What the flow's own variables stand for.
  ghost predicate Tracks(f: Flow, run: Setting) {
    && Protocol(run, f.log)
    && f.state == LastKnown(f.log)
    && f.message == LastSaid(f.log)
    && f.store == LastRecord(run.before, f.log)
  }

  lemma Notes(f: Flow, g: Flow, a: Act, run: Setting)
    requires Tracks(f, run) && Legal(run, f.log, a)
    requires g.log == f.log + [a]
    requires g.state == if a.Saw? then a.state else if a.Wrote? && a.ok then a.to else f.state
    requires g.message == if Speaks(a) then a.event.text else if a.Opened? then "" else f.message
    requires g.store == if a.Stored? then Some(a.record) else if a.Dropped? then None else f.store
    ensures Tracks(g, run)
  {
    Added(f.log, a, run.before);
    Extends(run, f.log, a);
  }

  // --- The names it goes by are the names the flow goes by ---

  lemma LowerNames()
    ensures Lower("Human Review") == "human review" && Lower("In Review") == "in review"
    ensures Lower("AI Review") == "ai review" && Lower("Pushing") == "pushing" && Lower("Merging") == "merging"
    ensures Lower("Rework") == "rework" && Lower("Todo") == "todo" && Lower("Blocked") == "blocked"
    ensures Lower("auto") == "auto"
  {
  }

  lemma SameNames(state: string)
    ensures InHumanReview(state) == Waiting(state)
    ensures Is(state, "AI Review") == Named(state, "ai review")
    ensures Is(state, "Pushing") == Named(state, "pushing")
    ensures Is(state, "Merging") == Named(state, "merging")
    ensures Is(state, "Rework") == Named(state, "rework")
    ensures Is(state, "Todo") == Named(state, "todo")
    ensures Is(state, "Blocked") == Named(state, "blocked")
    ensures NextPrompt(state) == DuePrompt(state)
  {
    LowerNames();
    assert Lower("") == "";
    hide Lower, Trim;
  }

  lemma SameSettings(cfg: FlowConfig, state: string)
    ensures Terminal(cfg, state) == Finished(cfg, state) && Active(cfg, state) == Worked(cfg, state)
    ensures WritesEnabled(cfg) == Auto(cfg) && MaxTurns(cfg) == Budget(cfg)
  {
    LowerNames();
  }

  lemma SameSignals(message: string)
    ensures PushPasses(message) == Begins(message, "push: pass")
    ensures MergePasses(message) == Begins(message, "merge: pass")
    ensures ReviewPasses(message) <==>
      exists i | 0 <= i < 4 :: Begins(message, ["review: pass", "conclusion: pass", "结论: pass", "结论：pass"][i])
  {
    hide Lower, Trim;
    var signals := ["review: pass", "conclusion: pass", "结论: pass", "结论：pass"];
    assert signals[0] == "review: pass" && signals[1] == "conclusion: pass";
    assert signals[2] == "结论: pass" && signals[3] == "结论：pass";
  }

  // --- The turn ---

  // What a note leaves alone.
  predicate SameCounts(log: seq<Act>, more: seq<Act>) {
    && Turns(more) == Turns(log) && Sessions(more) == Sessions(log) && ReviewWrites(more) == ReviewWrites(log)
    && LastBegan(more) == LastBegan(log) && LastResume(more) == LastResume(log) && LastThread(more) == LastThread(log)
  }

  lemma {:induction false} HearKeeps(f: Flow, events: seq<Event>, run: Setting)
    requires Tracks(f, run) && Listening(f.log)
    ensures var g := Hear(f, events);
      Tracks(g, run) && Listening(g.log) && g.state == f.state && SameCounts(f.log, g.log)
    decreases |events|
  {
    hide Tracks;
    if events != [] {
      HearOneKeeps(f, events[0], run);
      hide Listening, SameCounts;
      HearKeeps(HearOne(f, events[0]), events[1..], run);
      SameCountsCarry(f.log, HearOne(f, events[0]).log, Hear(f, events).log);
    }
  }

  lemma SameCountsCarry(a: seq<Act>, b: seq<Act>, c: seq<Act>)
    requires SameCounts(a, b) && SameCounts(b, c)
    ensures SameCounts(a, c)
  {
  }

  lemma HearOneKeeps(f: Flow, event: Event, run: Setting)
    requires Tracks(f, run) && Listening(f.log)
    ensures var g := HearOne(f, event);
      Tracks(g, run) && Listening(g.log) && g.state == f.state && SameCounts(f.log, g.log)
  {
    var g := HearOne(f, event);
    assert Legal(run, f.log, Heard(event));
    Notes(f, g, Heard(event), run);
    Added(f.log, Heard(event), run.before);
  }

  lemma FetchedKeeps(f: Flow, state: string, turn: Turn, record: Record, run: Setting)
    requires Tracks(f, run) && Listening(f.log) && record == Record(LastThread(f.log), run.workspace)
    ensures var g := Fetched(f, state, turn, record);
      && Tracks(g, run) && Deciding(g.log) && g.state == LastSaw(g.log) == state && SameCounts(f.log, g.log)
  {
    hide Protocol;
    var seen := f.(state := state).Add(Saw(state));
    assert Legal(run, f.log, Saw(state));
    Notes(f, seen, Saw(state), run);
    Added(f.log, Saw(state), run.before);
    if turn.stored && record.thread != "" {
      var stored := seen.(store := Some(record)).Add(Stored(record));
      assert Legal(run, seen.log, Stored(record));
      Notes(seen, stored, Stored(record), run);
      Added(seen.log, Stored(record), run.before);
    }
  }

  // What a decision comes to.
  ghost predicate Decided(run: Setting, f: Flow, v: Verdict) {
    && Tracks(v.flow, run)
    && Turns(v.flow.log) == Turns(f.log) && Sessions(v.flow.log) == Sessions(f.log)
    && LastResume(v.flow.log) == LastResume(f.log) && LastThread(v.flow.log) == LastThread(f.log)
    && match v
       case Again(next) =>
         && TurnIsDue(run.cfg, next.log) && !next.log[|next.log| - 1].Connected?
         && ReviewWrites(next.log) >= ReviewWrites(f.log)
         && (Turns(f.log) < Budget(run.cfg) || ReviewWrites(next.log) == ReviewWrites(f.log) + 1)
       case Halt(last, outcome, failure) =>
         && ReviewWrites(last.log) >= ReviewWrites(f.log)
         && EndsDuly(run.cfg, last.log, if failure == NoFailure then Exit(outcome, failure) else Failing(failure))
  }

  // A decision without an act.
  lemma DecidesQuietly(run: Setting, f: Flow, turn: Turn, turnStart: string, turnCount: int)
    requires Tracks(f, run) && Deciding(f.log) && f.state == LastSaw(f.log)
    requires turnStart == LastBegan(f.log) && turnCount == Turns(f.log)
    ensures var v := Decide(run.cfg, f, turn, turnStart, turnCount);
      v.flow == f ==> Decided(run, f, v)
  {
    SameNames(f.state);
    SameNames(turnStart);
    SameSettings(run.cfg, f.state);
    SameSignals(f.message);
    hide Protocol, Terminal, Active, ReviewPasses, MergePasses, PushPasses, WritesEnabled, MaxTurns, Is, InHumanReview;
    hide Named, Finished, Worked, Waiting, Auto, Begins, Budget, NextPrompt, DuePrompt;
  }

  // The only act a decision makes: what it says of the context, or a write.
  lemma DecidesByAct(run: Setting, f: Flow, turn: Turn, turnStart: string, turnCount: int)
    requires Tracks(f, run) && Deciding(f.log) && f.state == LastSaw(f.log)
    requires turnStart == LastBegan(f.log) && turnCount == Turns(f.log)
    ensures var v := Decide(run.cfg, f, turn, turnStart, turnCount);
      v.flow != f ==>
        exists a :: v.flow.log == f.log + [a] && Legal(run, f.log, a)
          && v.flow == f.(log := v.flow.log, state := if a.Wrote? && a.ok then a.to else f.state)
          && match a
             case Cancelled(failure) => v == Halt(v.flow, Stopped, failure) && failure != NoFailure
             case Wrote(to, ok) =>
               if ok then v == (if to == "Merging" then Again(v.flow) else Halt(v.flow, Done, NoFailure))
               else v.Halt? && v.failure != NoFailure
             case _ => false
  {
    SameNames(f.state);
    SameNames(turnStart);
    SameSettings(run.cfg, f.state);
    SameSignals(f.message);
    hide Protocol, Terminal, Active, ReviewPasses, MergePasses, PushPasses, WritesEnabled, MaxTurns, Is, InHumanReview;
    hide Named, Finished, Worked, Waiting, Auto, Begins, Budget, NextPrompt, DuePrompt;
    var v := Decide(run.cfg, f, turn, turnStart, turnCount);
    if v.flow != f {
      var a := v.flow.log[|f.log|];
      assert v.flow.log == f.log + [a];
    }
  }

  lemma ActDecides(run: Setting, f: Flow, a: Act, v: Verdict)
    requires Deciding(f.log) && Tracks(v.flow, run) && v.flow.log == f.log + [a] && Legal(run, f.log, a)
    requires match a
      case Cancelled(failure) => v == Halt(v.flow, Stopped, failure) && failure != NoFailure
      case Wrote(to, ok) =>
        if ok then v == (if to == "Merging" then Again(v.flow) else Halt(v.flow, Done, NoFailure))
        else v.Halt? && v.failure != NoFailure
      case _ => false
    ensures Decided(run, f, v)
  {
    Added(f.log, a, run.before);
    hide Tracks, Budget, Ready, ReviewSignal, DoneSignal, Auto, Settles;
    assert v.flow.log[|v.flow.log| - 1] == a && v.flow.log[|v.flow.log| - 2] == f.log[|f.log| - 1];
  }

  lemma DecideKeeps(run: Setting, f: Flow, turn: Turn, turnStart: string, turnCount: int)
    requires Tracks(f, run) && Deciding(f.log) && f.state == LastSaw(f.log)
    requires turnStart == LastBegan(f.log) && turnCount == Turns(f.log)
    ensures Decided(run, f, Decide(run.cfg, f, turn, turnStart, turnCount))
  {
    DecidesQuietly(run, f, turn, turnStart, turnCount);
    DecidesByAct(run, f, turn, turnStart, turnCount);
    hide Decide, Legal, Budget, Protocol;
    var v := Decide(run.cfg, f, turn, turnStart, turnCount);
    if v.flow != f {
      var a :| v.flow.log == f.log + [a] && Legal(run, f.log, a)
        && v.flow == f.(log := v.flow.log, state := if a.Wrote? && a.ok then a.to else f.state)
        && match a
           case Cancelled(failure) => v == Halt(v.flow, Stopped, failure) && failure != NoFailure
           case Wrote(to, ok) =>
             if ok then v == (if to == "Merging" then Again(v.flow) else Halt(v.flow, Done, NoFailure))
             else v.Halt? && v.failure != NoFailure
           case _ => false;
      Notes(f, v.flow, a, run);
      ActDecides(run, f, a, v);
    }
  }

  lemma BreakKeeps(run: Setting, f: Flow, failure: Failure)
    requires Tracks(f, run) && MayBreak(run.cfg, f.log) && failure != NoFailure
    ensures var g := f.Add(Broke(failure));
      && Tracks(g, run) && g.state == LastKnown(g.log) && SameCounts(f.log, g.log)
      && (GaveUp(g.log) ||
          EndsDuly(run.cfg, g.log, if Sessions(f.log) == 0 then Exit(RetryFailure, failure) else Failing(failure)))
  {
    hide Protocol, MayBreak;
    assert Legal(run, f.log, Broke(failure));
    Notes(f, f.Add(Broke(failure)), Broke(failure), run);
    Added(f.log, Broke(failure), run.before);
  }

  lemma AfterTurnKeeps(run: Setting, f: Flow, turn: Turn, record: Record, turnCount: int)
    requires Tracks(f, run) && Listening(f.log) && f.state == LastBegan(f.log) && turnCount == Turns(f.log) > 0
    requires record == Record(LastThread(f.log), run.workspace)
    ensures Decided(run, f, AfterTurn(run.cfg, f, turn, record, turnCount))
  {
    hide Decide, Fetched, Protocol, TurnIsDue, EndsDuly, Budget;
    if turn.fetched.Ok? {
      FetchedKeeps(f, turn.fetched.value, turn, record, run);
      DecideKeeps(run, Fetched(f, turn.fetched.value, turn, record), turn, f.state, turnCount);
    } else {
      BreakKeeps(run, f, Reason(turn.fetched.error, "fetch failed"));
    }
  }

  // --- The session ---

  // What holds whenever the session loop is about to start turn `turnCount`.
  ghost predicate AtTurn(run: Setting, f: Flow, turnCount: int, prompt: Prompt, record: Record) {
    && Tracks(f, run) && TurnIsDue(run.cfg, f.log) && LegalTurn(f.log, f.state, prompt)
    && turnCount == Turns(f.log) + 1 <= Budget(run.cfg) + ReviewWrites(f.log)
    && record == Record(LastThread(f.log), run.workspace)
  }

  lemma DropKeeps(f: Flow, dropped: bool, run: Setting)
    requires Tracks(f, run) && Legal(run, f.log, Dropped)
    ensures var g := Drop(f, dropped);
      && Tracks(g, run) && g.state == f.state && SameCounts(f.log, g.log) && LastSaw(g.log) == LastSaw(f.log)
      && (if dropped then g.log == f.log + [Dropped] else g == f)
  {
    hide Protocol, Legal;
    if dropped {
      Notes(f, Drop(f, dropped), Dropped, run);
      Added(f.log, Dropped, run.before);
    }
  }

  lemma TurnBegins(run: Setting, f: Flow, turnCount: int, prompt: Prompt, turn: Turn, record: Record)
    requires AtTurn(run, f, turnCount, prompt, record)
    ensures var g := Await(f, turn, prompt);
      && Tracks(g, run) && Listening(g.log) && g.state == LastBegan(g.log) && Turns(g.log) == turnCount
      && Sessions(g.log) == Sessions(f.log) && ReviewWrites(g.log) == ReviewWrites(f.log)
      && LastThread(g.log) == LastThread(f.log) && LastResume(g.log) == LastResume(f.log)
  {
    var begun := f.Add(Began(f.state, prompt));
    hide AtTurn, Tracks, Drop, Listening;
    TurnIsBegun(run, f, turnCount, prompt, record);
    hide Legal;
    DropKeeps(begun, turn.cleaned, run);
    var ready := Drop(begun, turn.cleaned);
    StillListening(begun.log, ready.log);
    HearKeeps(ready, turn.events, run);
    SameCountsCarry(begun.log, ready.log, Await(f, turn, prompt).log);
  }

  lemma TurnIsBegun(run: Setting, f: Flow, turnCount: int, prompt: Prompt, record: Record)
    requires AtTurn(run, f, turnCount, prompt, record)
    ensures var g := f.Add(Began(f.state, prompt));
      && Tracks(g, run) && Listening(g.log) && g.state == LastBegan(g.log) && Turns(g.log) == turnCount
      && Sessions(g.log) == Sessions(f.log) && ReviewWrites(g.log) == ReviewWrites(f.log)
      && LastThread(g.log) == LastThread(f.log) && LastResume(g.log) == LastResume(f.log)
      && Legal(run, g.log, Dropped)
  {
    var g := f.Add(Began(f.state, prompt));
    assert Legal(run, f.log, Began(f.state, prompt));
    hide TurnIsDue, Budget, Protocol, DuePrompt;
    Notes(f, g, Began(f.state, prompt), run);
    Added(f.log, Began(f.state, prompt), run.before);
  }

  lemma StillListening(log: seq<Act>, more: seq<Act>)
    requires Listening(log) && Turns(log) > 0 && SameCounts(log, more) && (more == log || more == log + [Dropped])
    ensures Listening(more)
  {
  }

  ghost predicate SessionDone(run: Setting, f: Flow, e: SessionEnd) {
    && Tracks(e.flow, run)
    && Turns(e.flow.log) == e.turns <= Budget(run.cfg) + ReviewWrites(e.flow.log)
    && Sessions(e.flow.log) == Sessions(f.log) && LastResume(e.flow.log) == LastResume(f.log)
    && (GaveUp(e.flow.log) || EndsDuly(run.cfg, e.flow.log, SessionExit(e)))
    && (e.turns == Turns(f.log) ==> e.flow == f.Add(Broke(e.failure)) && e.failure != NoFailure)
  }

  lemma SessionBreaks(run: Setting, f: Flow, turns: int, failure: Failure, start: Flow)
    requires Tracks(f, run) && MayBreak(run.cfg, f.log) && failure != NoFailure && Sessions(f.log) > 0
    requires turns == Turns(f.log) <= Budget(run.cfg) + ReviewWrites(f.log)
    requires Sessions(f.log) == Sessions(start.log) && LastResume(f.log) == LastResume(start.log)
    requires turns == Turns(start.log) ==> f == start
    ensures SessionDone(run, start, SessionEnd(f.Add(Broke(failure)), turns, RetryContinuation, failure))
  {
    hide Protocol, MayBreak, Budget, EndsDuly;
    BreakKeeps(run, f, failure);
  }

  lemma NextTurn(run: Setting, f: Flow, v: Verdict, turnCount: int, record: Record)
    requires v.Again? && Decided(run, f, v) && Sessions(f.log) > 0
    requires turnCount == Turns(f.log) <= Budget(run.cfg) + ReviewWrites(f.log)
    requires record == Record(LastThread(f.log), run.workspace)
    ensures AtTurn(run, v.flow, turnCount + 1, NextPrompt(v.flow.state), record)
    ensures Turns(v.flow.log) == turnCount && Sessions(v.flow.log) == Sessions(f.log)
    ensures LastResume(v.flow.log) == LastResume(f.log)
  {
    hide Budget, TurnIsDue, Protocol;
    SameNames(v.flow.state);
  }

  lemma {:induction false} RunTurnsKeeps(run: Setting, f: Flow, turns: seq<Turn>, record: Record,
      turnCount: int, prompt: Prompt)
    requires AtTurn(run, f, turnCount, prompt, record)
    ensures SessionDone(run, f, RunTurns(run.cfg, f, turns, record, turnCount, prompt))
    decreases |turns|
  {
    hide AfterTurn, Await, Budget, TurnIsDue, EndsDuly, GaveUp, Listening, Protocol, DuePrompt, NextPrompt;
    if turns == [] {
      SessionBreaks(run, f, turnCount - 1, STREAM_CLOSED, f);
    } else if turns[0].startFails != NoFailure {
      SessionBreaks(run, f, turnCount - 1, turns[0].startFails, f);
    } else {
      TurnBegins(run, f, turnCount, prompt, turns[0], record);
      var heard := Await(f, turns[0], prompt);
      if turns[0].awaitFails != NoFailure {
        SessionBreaks(run, heard, turnCount, turns[0].awaitFails, f);
      } else {
        AfterTurnKeeps(run, heard, turns[0], record, turnCount);
        var v := AfterTurn(run.cfg, heard, turns[0], record, turnCount);
        if v.Again? {
          NextTurn(run, heard, v, turnCount, record);
          hide AtTurn, Tracks, Decided;
          RunTurnsKeeps(run, v.flow, turns[1..], record, turnCount + 1, NextPrompt(v.flow.state));
          TurnsGrow(run.cfg, v.flow, turns[1..], record, turnCount + 1, NextPrompt(v.flow.state));
        }
      }
    }
  }

  lemma {:induction false} TurnsGrow(cfg: FlowConfig, f: Flow, turns: seq<Turn>, record: Record, turnCount: int,
      prompt: Prompt)
    ensures RunTurns(cfg, f, turns, record, turnCount, prompt).turns >= turnCount - 1
    decreases |turns|
  {
    hide AfterTurn, Await;
    if turns != [] && turns[0].startFails == NoFailure && turns[0].awaitFails == NoFailure {
      var v := AfterTurn(cfg, Await(f, turns[0], prompt), turns[0], record, turnCount);
      if v.Again? {
        TurnsGrow(cfg, v.flow, turns[1..], record, turnCount + 1, NextPrompt(v.flow.state));
      }
    }
  }

  // A session that ends without a turn has broken before it.
  ghost predicate SessionOver(run: Setting, f: Flow, e: SessionEnd, resume: string) {
    && Tracks(e.flow, run)
    && Turns(e.flow.log) == e.turns <= Budget(run.cfg) + ReviewWrites(e.flow.log)
    && Sessions(e.flow.log) == Sessions(f.log) + 1 && LastResume(e.flow.log) == resume
    && (GaveUp(e.flow.log) || EndsDuly(run.cfg, e.flow.log, SessionExit(e)))
    && (e.turns == 0 ==>
          && e.failure != NoFailure && e.flow.state == f.state
          && e.flow.log != [] && e.flow.log[|e.flow.log| - 1] == Broke(e.failure))
  }

  lemma SessionKeeps(run: Setting, f: Flow, session: Session, resume: string)
    requires Tracks(f, run) && Turns(f.log) == 0 && Legal(run, f.log, Opened(resume))
    ensures SessionOver(run, f, RunSession(run.cfg, f, session, run.workspace, resume), resume)
  {
    hide RunTurns, LegalSession, SessionIsDue, EndsDuly, GaveUp, Budget, Protocol;
    var begun := f.(message := "").Add(Opened(resume));
    Notes(f, begun, Opened(resume), run);
    Added(f.log, Opened(resume), run.before);
    if session.open.Err? {
      BudgetIsPositive(run.cfg);
      assert MayBreak(run.cfg, begun.log);
      BreakKeeps(run, begun, Reason(session.open.error, "session start failed"));
    } else {
      SessionRuns(run, f, begun, session, resume);
    }
  }

  lemma BudgetIsPositive(cfg: FlowConfig)
    ensures Budget(cfg) >= 1
  {
  }

  lemma SessionRuns(run: Setting, f: Flow, begun: Flow, session: Session, resume: string)
    requires Tracks(begun, run) && begun.log != [] && begun.log[|begun.log| - 1] == Opened(resume)
    requires Turns(begun.log) == 0 && Sessions(begun.log) == Sessions(f.log) + 1
    requires begun == f.(message := "").Add(Opened(resume)) && LastResume(begun.log) == resume && session.open.Ok?
    ensures SessionOver(run, f, RunSession(run.cfg, f, session, run.workspace, resume), resume)
  {
    var linked := begun.Add(Connected(session.open.value));
    var prompt := if resume == "" then WorkflowPrompt else ContinuePrompt;
    var record := Record(session.open.value, run.workspace);
    SessionIsTurns(run, f, session, resume);
    hide *;
    SessionLinks(run, begun, session.open.value, resume);
    RunTurnsKeeps(run, linked, session.turns, record, 1, prompt);
    TurnsOverSessionOver(
      run, f, begun, session.open.value, resume, RunTurns(run.cfg, linked, session.turns, record, 1, prompt));
  }

  lemma SessionIsTurns(run: Setting, f: Flow, session: Session, resume: string)
    requires session.open.Ok?
    ensures var linked := f.(message := "").Add(Opened(resume)).Add(Connected(session.open.value));
      RunSession(run.cfg, f, session, run.workspace, resume) ==
      RunTurns(
        run.cfg, linked, session.turns, Record(session.open.value, run.workspace), 1,
        if resume == "" then WorkflowPrompt else ContinuePrompt)
  {
    hide RunTurns;
  }

  lemma TurnsOverSessionOver(run: Setting, f: Flow, begun: Flow, thread: string, resume: string, e: SessionEnd)
    requires begun.state == f.state && Sessions(begun.log) == Sessions(f.log) + 1 && LastResume(begun.log) == resume
    requires Turns(begun.log) == 0 && Turns(begun.Add(Connected(thread)).log) == 0
    requires Sessions(begun.Add(Connected(thread)).log) == Sessions(begun.log)
    requires LastResume(begun.Add(Connected(thread)).log) == resume
    requires SessionDone(run, begun.Add(Connected(thread)), e)
    ensures SessionOver(run, f, e, resume)
  {
    hide EndsDuly, GaveUp, Budget, Tracks, SessionExit, Sessions, Turns, ReviewWrites, LastResume;
  }

  lemma SessionLinks(run: Setting, f: Flow, thread: string, resume: string)
    requires Tracks(f, run) && f.log != [] && f.log[|f.log| - 1] == Opened(resume) && LastResume(f.log) == resume
    requires Turns(f.log) == 0 && Sessions(f.log) > 0
    ensures var g := f.Add(Connected(thread)); var prompt := if resume == "" then WorkflowPrompt else ContinuePrompt;
      && AtTurn(run, g, 1, prompt, Record(thread, run.workspace))
      && Turns(g.log) == 0 && Sessions(g.log) == Sessions(f.log) && LastResume(g.log) == resume && g.log != []
  {
    var g := f.Add(Connected(thread));
    assert Legal(run, f.log, Connected(thread));
    assert TurnIsDue(run.cfg, g.log);
    hide Budget, Protocol, Legal, TurnIsDue;
    BudgetIsPositive(run.cfg);
    Notes(f, g, Connected(thread), run);
    Added(f.log, Connected(thread), run.before);
  }

  // --- The attempt and the whole run ---

  ghost predicate RunDone(run: Setting, f: Flow, exit: Exit) {
    && Tracks(f, run)
    && Turns(f.log) <= Budget(run.cfg) + ReviewWrites(f.log)
    && Sessions(f.log) <= 2
    && EndsDuly(run.cfg, f.log, exit)
  }

  // A second session, after a resume that recorded no turn.
  lemma AgainKeeps(run: Setting, f: Flow, input: AttemptInput)
    requires Tracks(f, run) && GaveUp(f.log)
    ensures var e := RunSession(run.cfg, Drop(f, input.dropped).(state := f.state), input.second, run.workspace, "");
      RunDone(run, e.flow, SessionExit(e))
  {
    hide RunSession, Protocol, EndsDuly, Budget;
    var g := Drop(f, input.dropped);
    assert Legal(run, f.log, Dropped);
    DropKeeps(f, input.dropped, run);
    assert g.(state := f.state) == g;
    assert SessionIsDue(run.cfg, g.log) && LegalSession(run, g.log, "");
    assert Legal(run, g.log, Opened(""));
    hide Legal, DueResume;
    SessionKeeps(run, g, input.second, "");
  }

  lemma CancelKeeps(run: Setting, f: Flow, failure: Failure, cancelled: Failure)
    requires Tracks(f, run) && GaveUp(f.log) && f.log[|f.log| - 1] == Broke(failure) && failure != NoFailure
    requires Turns(f.log) <= Budget(run.cfg) + ReviewWrites(f.log)
    ensures RunDone(run, f.Add(Cancelled(cancelled)), Failing(failure))
  {
    hide Protocol, Budget;
    var g := f.Add(Cancelled(cancelled));
    assert Legal(run, f.log, Cancelled(cancelled));
    Notes(f, g, Cancelled(cancelled), run);
    Added(f.log, Cancelled(cancelled), run.before);
    assert g.log[|g.log| - 2] == Broke(failure);
  }

  lemma AttemptKeeps(run: Setting, f: Flow, input: AttemptInput)
    requires Tracks(f, run) && Preparing(run.cfg, f.log) && Turns(f.log) == 0
    requires input.workspace == run.workspace && input.lookedUp == run.lookedUp
    ensures var (g, exit) := WorkerAttempt(run.cfg, f, input);
      RunDone(run, g, exit)
  {
    BudgetIsPositive(run.cfg);
    if input.prepareFails != NoFailure {
      hide Protocol, EndsDuly, Budget;
      BreakKeeps(run, f, input.prepareFails);
    } else {
      SessionsKeep(run, f, input);
    }
  }

  lemma FirstSessionIsDue(run: Setting, f: Flow, input: AttemptInput)
    requires Tracks(f, run) && Preparing(run.cfg, f.log) && Turns(f.log) == 0
    requires input.workspace == run.workspace && input.lookedUp == run.lookedUp
    ensures var h := Drop(f, input.cleaned);
      && Tracks(h, run) && Turns(h.log) == 0 && Sessions(h.log) == 0
      && Legal(run, h.log, Opened(ResumeThread(h, input.workspace, input.lookedUp)))
  {
    hide Protocol, Ready, Worked;
    assert Legal(run, f.log, Dropped);
    DropKeeps(f, input.cleaned, run);
    SameNames(Drop(f, input.cleaned).state);
  }

  lemma SessionsKeep(run: Setting, f: Flow, input: AttemptInput)
    requires Tracks(f, run) && Preparing(run.cfg, f.log) && Turns(f.log) == 0
    requires input.workspace == run.workspace && input.lookedUp == run.lookedUp && input.prepareFails == NoFailure
    ensures var (g, exit) := WorkerAttempt(run.cfg, f, input);
      RunDone(run, g, exit)
  {
    var h := Drop(f, input.cleaned);
    var resume := ResumeThread(h, input.workspace, input.lookedUp);
    FirstSessionIsDue(run, f, input);
    hide RunSession, Tracks, EndsDuly, Budget, Drop, Legal, DueResume, Preparing, SessionIsDue, ResumeThread;
    hide SessionOver, RunDone, SessionExit;
    SessionKeeps(run, h, input.first, resume);
    var e := RunSession(run.cfg, h, input.first, input.workspace, resume);
    if e.failure != NoFailure && resume != "" && e.turns == 0 {
      FallsBack(run, h, e, input, resume);
    } else {
      StaysOver(run, h, e, resume);
    }
  }

  lemma FallsBack(run: Setting, f: Flow, e: SessionEnd, input: AttemptInput, resume: string)
    requires SessionOver(run, f, e, resume) && Sessions(f.log) == 0
    requires e.failure != NoFailure && resume != "" && e.turns == 0
    ensures input.contextDone != NoFailure ==>
      RunDone(run, e.flow.Add(Cancelled(input.contextDone)), SessionExit(e))
    ensures
      var g := Drop(e.flow, input.dropped).(state := f.state);
      var again := RunSession(run.cfg, g, input.second, run.workspace, "");
      RunDone(run, again.flow, SessionExit(again))
  {
    hide RunSession, EndsDuly, Budget, Tracks, RunDone;
    assert GaveUp(e.flow.log);
    if input.contextDone != NoFailure {
      CancelKeeps(run, e.flow, e.failure, input.contextDone);
    }
    AgainKeeps(run, e.flow, input);
  }

  lemma StaysOver(run: Setting, f: Flow, e: SessionEnd, resume: string)
    requires SessionOver(run, f, e, resume) && Sessions(f.log) == 0
    requires !(e.failure != NoFailure && resume != "" && e.turns == 0)
    ensures RunDone(run, e.flow, SessionExit(e))
  {
    hide EndsDuly, Budget, Tracks;
  }

  // The issue as it is first seen.
  lemma Started(run: Setting, f: Flow)
    requires f == Flow(f.state, "", run.before, [Saw(f.state)])
    ensures Tracks(f, run) && AtStart(f.log) && LastSaw(f.log) == f.state && Turns(f.log) == 0 && Sessions(f.log) == 0
  {
    assert [] + [Saw(f.state)] == f.log;
    Notes(Flow("", "", run.before, []), f, Saw(f.state), run);
    Added([], Saw(f.state), run.before);
  }

  lemma Promoted(run: Setting, f: Flow, fails: Failure)
    requires Tracks(f, run) && AtStart(f.log) && Turns(f.log) == 0
    requires Named(LastSaw(f.log), "todo") && !Finished(run.cfg, LastSaw(f.log))
    ensures var g := Write(f, "In Progress", fails);
      && Tracks(g, run) && Turns(g.log) == 0 && Sessions(g.log) == 0
      && g.log == f.log + [Wrote("In Progress", fails == NoFailure)]
      && (fails == NoFailure ==> g.state == "In Progress")
  {
    hide Protocol, Finished, Named;
    var ok := fails == NoFailure;
    assert Legal(run, f.log, Wrote("In Progress", ok));
    Notes(f, Write(f, "In Progress", fails), Wrote("In Progress", ok), run);
    Added(f.log, Wrote("In Progress", ok), run.before);
  }

  // The states that are written are none of those that stop a run.
  lemma InProgressGoesOn()
    ensures !InHumanReview("In Progress")
  {
    assert Trim("In Progress") == "In Progress" && Lower("In Progress") == "in progress";
    LowerNames();
  }

  // A run that ends where the issue was first seen.
  lemma SettlesAtStart(run: Setting, f: Flow, outcome: Outcome)
    requires Tracks(f, run) && AtStart(f.log) && Turns(f.log) == 0 && Settles(run.cfg, f.log, outcome)
    ensures RunDone(run, f, Exit(outcome, NoFailure))
  {
    hide Tracks, Settles;
    BudgetIsPositive(run.cfg);
  }

  lemma CancelledAtStart(run: Setting, f: Flow, failure: Failure)
    requires Tracks(f, run) && AtStart(f.log) && Turns(f.log) == 0 && failure != NoFailure
    ensures RunDone(run, f.Add(Cancelled(failure)), Exit(Stopped, failure))
  {
    hide Protocol;
    assert Legal(run, f.log, Cancelled(failure));
    Notes(f, f.Add(Cancelled(failure)), Cancelled(failure), run);
    Added(f.log, Cancelled(failure), run.before);
  }

  lemma RunKeeps(run: Setting, state: string, input: RunInput)
    requires input.attempt.workspace == run.workspace && input.attempt.lookedUp == run.lookedUp
    ensures var (f, exit) := RunIssueTrunk(run.cfg, state, run.before, input);
      RunDone(run, f, exit)
  {
    var f := Flow(state, "", run.before, [Saw(state)]);
    Started(run, f);
    SameNames(state);
    SameSettings(run.cfg, state);
    hide WorkerAttempt, Protocol, Is, InHumanReview, Terminal, Active, Named, Waiting, Finished, Worked, RunDone;
    hide Tracks;
    if input.contextDone != NoFailure {
      CancelledAtStart(run, f, input.contextDone);
    } else if Finished(run.cfg, state) {
      SettlesAtStart(run, f, Done);
    } else if Named(state, "blocked") {
      SettlesAtStart(run, f, WaitHuman);
    } else if Named(state, "todo") {
      RunPromotes(run, f, input);
    } else if Waiting(state) {
      SettlesAtStart(run, f, WaitHuman);
    } else if !Worked(run.cfg, state) {
      SettlesAtStart(run, f, Stopped);
    } else {
      AttemptKeeps(run, f, input.attempt);
    }
  }

  lemma RunPromotes(run: Setting, f: Flow, input: RunInput)
    requires input.attempt.workspace == run.workspace && input.attempt.lookedUp == run.lookedUp
    requires Tracks(f, run) && AtStart(f.log) && Turns(f.log) == 0 && LastSaw(f.log) == f.state
    requires f == Flow(f.state, "", run.before, [Saw(f.state)]) && input.contextDone == NoFailure
    requires Named(f.state, "todo") && !Finished(run.cfg, f.state) && !Named(f.state, "blocked")
    ensures var (g, exit) := RunIssueTrunk(run.cfg, f.state, run.before, input);
      RunDone(run, g, exit)
  {
    SameNames(f.state);
    SameSettings(run.cfg, f.state);
    SameSettings(run.cfg, "In Progress");
    InProgressGoesOn();
    hide WorkerAttempt, Protocol, Is, InHumanReview, Terminal, Active, Named, Waiting, Finished, Worked;
    Promoted(run, f, input.promoteFails);
    BudgetIsPositive(run.cfg);
    var g := Write(f, "In Progress", input.promoteFails);
    if input.promoteFails == NoFailure && Worked(run.cfg, "In Progress") {
      AttemptKeeps(run, g, input.attempt);
    }
  }
}
