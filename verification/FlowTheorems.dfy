/** What every issue run promises, whatever the agent and the tracker answer. */
module FlowTheorems {
  import opened Wrappers
  import opened Names
  import opened Outcomes
  import opened IssueFlow
  import opened FlowProtocol

  function LogOf(run: Setting, state: string, input: RunInput): seq<Act> {
    RunIssueTrunk(run.cfg, state, run.before, input).0.log
  }

  predicate Fits(run: Setting, input: RunInput) {
    input.attempt.workspace == run.workspace && input.attempt.lookedUp == run.lookedUp
  }

  // Todo to In Progress, AI Review to Merging, and Pushing or Merging to Done are the
  // only writes, each from the state last seen; the last three need the auto policy,
  // a workable state and a passing latest message, and a Done write ends the run.
  lemma EveryWriteFollowsProtocol(run: Setting, state: string, input: RunInput, k: nat)
    requires Fits(run, input) && k < |LogOf(run, state, input)| && LogOf(run, state, input)[k].Wrote?
    ensures var log := LogOf(run, state, input);
      && LegalWrite(run.cfg, log[..k], log[k].to)
      && (log[k].to == "Done" ==> k == |log| - 1)
  {
    hide RunIssueTrunk, LegalWrite;
    RunKeeps(run, state, input);
    var log := LogOf(run, state, input);
    assert Legal(run, log[..k], log[k]);
    if k + 1 < |log| {
      assert Legal(run, log[..k + 1], log[k + 1]);
      assert log[..k + 1][k] == log[k];
      hide Ready, ReviewSignal, DoneSignal, Auto, Budget, Worked, Named, Finished;
      NothingAfterDone(run, log[..k + 1], log[k + 1]);
    }
  }

  lemma NothingAfterDone(run: Setting, log: seq<Act>, a: Act)
    requires log != [] && log[|log| - 1].Wrote? && Legal(run, log, a)
    ensures log[|log| - 1].to != "Done"
  {
  }

  // --- Every signal is answered ---

  function ExitOf(run: Setting, state: string, input: RunInput): Exit {
    RunIssueTrunk(run.cfg, state, run.before, input).1
  }

  // The log at a decision: the issue has been seen after a turn, and its record stored if
  // it is stored at all.
  predicate Decides(log: seq<Act>, k: nat) {
    k < |log| && Deciding(log[..k + 1]) && (k + 1 < |log| ==> !log[k + 1].Stored?)
  }

  // What the run does next, unless it is cancelled.
  predicate Answers(cfg: FlowConfig, log: seq<Act>, exit: Exit, k: nat)
    requires k < |log|
  {
    var front := log[..k + 1];
    if !Ready(cfg, LastSaw(front)) then
      k + 1 == |log| && exit.failure == NoFailure && Settles(cfg, log, exit.outcome)
    else if !Auto(cfg) && (ReviewSignal(front) || DoneSignal(front)) then
      k + 1 == |log| && exit == Exit(WaitHuman, NoFailure)
    else if ReviewSignal(front) then
      && k + 1 < |log| && log[k + 1].Wrote? && log[k + 1].to == "Merging"
      && if log[k + 1].ok then k + 2 < |log| && (log[k + 2].Began? || log[k + 2].Broke?)
         else k + 2 == |log| && exit.failure != NoFailure && exit == Failing(exit.failure)
    else if DoneSignal(front) then
      && k + 2 == |log| && log[k + 1].Wrote? && log[k + 1].to == "Done"
      && if log[k + 1].ok then exit == Exit(Done, NoFailure)
         else exit.failure != NoFailure && exit == Failing(exit.failure)
    else if Turns(front) < Budget(cfg) then k + 1 < |log| && (log[k + 1].Began? || log[k + 1].Broke?)
    else k + 1 == |log| && exit == Exit(RetryContinuation, NoFailure)
  }

  // A passing message is never overlooked: under the auto policy its write happens, and
  // under any other the run waits for a human; without one the run goes on exactly as
  // long as the budget lasts.
  lemma EverySignalIsAnswered(run: Setting, state: string, input: RunInput, k: nat)
    requires Fits(run, input) && Decides(LogOf(run, state, input), k)
    requires var log := LogOf(run, state, input); k + 1 < |log| ==> !log[k + 1].Cancelled?
    ensures Answers(run.cfg, LogOf(run, state, input), ExitOf(run, state, input), k)
  {
    hide RunIssueTrunk, Legal, EndsDuly, Deciding, Answers;
    RunKeeps(run, state, input);
    var log, exit := LogOf(run, state, input), ExitOf(run, state, input);
    assert log[..|log|] == log;
    if k + 1 == |log| {
      AnswersByEnding(run.cfg, log, exit, k);
    } else {
      assert Legal(run, log[..k + 1], log[k + 1]);
      if k + 2 < |log| {
        assert Legal(run, log[..k + 2], log[k + 2]);
      }
      AnswersByActing(run, log, exit, k);
    }
  }

  lemma AnswersByEnding(cfg: FlowConfig, log: seq<Act>, exit: Exit, k: nat)
    requires k + 1 == |log| && Deciding(log[..k + 1]) && EndsDuly(cfg, log, exit)
    ensures Answers(cfg, log, exit, k)
  {
    hide ReviewSignal, DoneSignal, Auto, Budget, Worked, Named, Finished, Waiting;
    assert log[..k + 1] == log;
  }

  lemma AnswersByActing(run: Setting, log: seq<Act>, exit: Exit, k: nat)
    requires k + 1 < |log| && Deciding(log[..k + 1]) && Legal(run, log[..k + 1], log[k + 1])
    requires !log[k + 1].Cancelled? && !log[k + 1].Stored?
    requires k + 2 < |log| ==> Legal(run, log[..k + 2], log[k + 2])
    requires k + 2 == |log| ==> EndsDuly(run.cfg, log, exit)
    ensures Answers(run.cfg, log, exit, k)
  {
    hide Ready, ReviewSignal, DoneSignal, Auto, Budget, Worked, Named, Finished, Settles;
    var front, a := log[..k + 1], log[k + 1];
    assert front[k] == log[k];
    ActAtDecision(run, front, a);
    if k + 2 < |log| {
      assert log[..k + 2][k + 1] == a;
      if a.Wrote? {
        AfterWrite(run, log[..k + 2], log[k + 2]);
      }
    }
    hide Legal, Deciding;
    SignalsDiffer(front);
  }

  lemma SignalsDiffer(log: seq<Act>)
    ensures !(ReviewSignal(log) && DoneSignal(log))
  {
  }

  lemma ActAtDecision(run: Setting, log: seq<Act>, a: Act)
    requires Deciding(log) && Legal(run, log, a) && !a.Cancelled? && !a.Stored?
    ensures Ready(run.cfg, LastSaw(log))
    ensures match a
      case Wrote(to, _) =>
        && Auto(run.cfg)
        && ((to == "Merging" && ReviewSignal(log)) || (to == "Done" && DoneSignal(log)))
      case _ =>
        && (a.Began? || a.Broke?) && !ReviewSignal(log) && !DoneSignal(log) && Turns(log) < Budget(run.cfg)
  {
    hide Ready, ReviewSignal, DoneSignal, Auto, Budget, Worked, Named, Finished;
  }

  lemma AfterWrite(run: Setting, log: seq<Act>, a: Act)
    requires log != [] && log[|log| - 1].Wrote? && Legal(run, log, a)
    ensures log[|log| - 1].ok
    ensures log[|log| - 1].to == "In Progress" || (log[|log| - 1].to == "Merging" && (a.Began? || a.Broke?))
  {
  }

  // A turn begins in the state the flow last saw or wrote, with the prompt for it.
  lemma EveryTurnFitsItsState(run: Setting, state: string, input: RunInput, k: nat)
    requires Fits(run, input) && k < |LogOf(run, state, input)| && LogOf(run, state, input)[k].Began?
    ensures var log := LogOf(run, state, input);
      LegalTurn(log[..k], log[k].state, log[k].prompt)
  {
    hide RunIssueTrunk, LegalTurn;
    RunKeeps(run, state, input);
    var log := LogOf(run, state, input);
    assert Legal(run, log[..k], log[k]);
  }

  // The policy and the states under which the review write can happen at all.
  predicate ReviewWritesEnabled(cfg: FlowConfig) {
    Auto(cfg) && Ready(cfg, "AI Review")
  }

  // However it is spelled, it is one state.
  lemma ReviewStateFolds(cfg: FlowConfig, state: string)
    requires Named(state, "ai review")
    ensures Ready(cfg, state) == Ready(cfg, "AI Review")
  {
    assert Trim("AI Review") == "AI Review";
    LowerNames();
  }

  lemma {:induction false} ReviewWritesNeedAuto(run: Setting, log: seq<Act>)
    requires Protocol(run, log) && !ReviewWritesEnabled(run.cfg)
    ensures ReviewWrites(log) == 0
  {
    hide Ready, Named, Begins, Auto;
    if log != [] {
      var front, last := log[..|log| - 1], log[|log| - 1];
      forall k | 0 <= k < |front| ensures Legal(run, front[..k], front[k]) {
        assert front[..k] == log[..k] && front[k] == log[k];
      }
      ReviewWritesNeedAuto(run, front);
      assert Legal(run, log[..|front|], last);
      if last == Wrote("Merging", true) {
        ReviewStateFolds(run.cfg, LastSaw(front));
      }
    }
  }

  // Every turn beyond the budget is paid for by its own AI Review to Merging write.
  lemma TurnBound(run: Setting, state: string, input: RunInput)
    requires Fits(run, input)
    ensures var log := LogOf(run, state, input);
      && Turns(log) <= Budget(run.cfg) + ReviewWrites(log)
      && (!ReviewWritesEnabled(run.cfg) ==> Turns(log) <= Budget(run.cfg))
  {
    hide RunIssueTrunk, Protocol, ReviewWritesEnabled;
    RunKeeps(run, state, input);
    if !ReviewWritesEnabled(run.cfg) {
      ReviewWritesNeedAuto(run, LogOf(run, state, input));
    }
  }

  // --- A run beyond the budget ---

  const PASS := Event("item/completed", "agentMessage", "Review: PASS")

  // The review passes, and the tracker says AI Review again.
  const PASSING_TURN :=
    Turn(NoFailure, false, [PASS], NoFailure, Ok("AI Review"), true, NoFailure, NoFailure)

  function PassingTurns(n: nat): (r: seq<Turn>)
    ensures |r| == n && forall i | 0 <= i < n :: r[i] == PASSING_TURN
  {
    seq(n, _ => PASSING_TURN)
  }

  function PassingRun(workspace: string, lookedUp: bool, turns: nat): RunInput {
    var session := Session(Ok("thread"), PassingTurns(turns));
    var attempt := AttemptInput(NoFailure, workspace, false, lookedUp, session, NoFailure, false, session);
    RunInput(NoFailure, NoFailure, attempt)
  }

  lemma PassPasses()
    ensures ReviewPasses("Review: PASS")
  {
    var text := "Review: PASS";
    assert Trim(text) == text && Lower(text) == "review: pass";
    assert "review: pass"[..|"review: pass"|] == "review: pass";
  }

  function HeardPass(f: Flow, prompt: Prompt): Flow {
    f.Add(Began(f.state, prompt)).(message := PASS.text).Add(Heard(PASS))
  }

  lemma AwaitPassing(f: Flow, prompt: Prompt)
    ensures Await(f, PASSING_TURN, prompt) == HeardPass(f, prompt)
    ensures Turns(HeardPass(f, prompt).log) == Turns(f.log) + 1
  {
    var begun := f.Add(Began(f.state, prompt));
    assert [PASS][1..] == [] && CompletedText(PASS) == PASS.text && PASS.text != "";
    assert Hear(begun, [PASS]) == Hear(HeardPass(f, prompt), []);
    Added(f.log, Began(f.state, prompt), None);
    Added(begun.log, Heard(PASS), None);
  }

  lemma FetchedAgain(heard: Flow, record: Record)
    ensures var f := Fetched(heard, "AI Review", PASSING_TURN, record);
      f.state == "AI Review" && f.message == heard.message && Turns(f.log) == Turns(heard.log)
  {
    var seen := heard.(state := "AI Review").Add(Saw("AI Review"));
    Added(heard.log, Saw("AI Review"), None);
    Added(seen.log, Stored(record), None);
  }

  lemma PassDecides(cfg: FlowConfig, f: Flow, turnStart: string, turnCount: int)
    requires ReviewWritesEnabled(cfg) && f.state == "AI Review" && f.message == "Review: PASS"
    ensures Decide(cfg, f, PASSING_TURN, turnStart, turnCount) == Again(Write(f, "Merging", NoFailure))
  {
    PassPasses();
    assert Trim("AI Review") == "AI Review" && Is("AI Review", "AI Review");
    hide WritesEnabled, ReviewPasses, PushPasses, MergePasses, Terminal, Active, InHumanReview, Is;
  }

  // A passing turn is followed by another.
  lemma PassingTurnGoesOn(cfg: FlowConfig, f: Flow, record: Record, turnCount: int, prompt: Prompt)
    requires ReviewWritesEnabled(cfg)
    ensures var v := AfterTurn(cfg, Await(f, PASSING_TURN, prompt), PASSING_TURN, record, turnCount);
      v.Again? && Turns(v.flow.log) == Turns(f.log) + 1
  {
    hide ReviewWritesEnabled, Await, Turns, Decide, Fetched;
    var heard := HeardPass(f, prompt);
    var fetched := Fetched(heard, "AI Review", PASSING_TURN, record);
    AwaitPassing(f, prompt);
    FetchedAgain(heard, record);
    PassDecides(cfg, fetched, heard.state, turnCount);
    Added(fetched.log, Wrote("Merging", true), None);
  }

  lemma {:induction false} PassingTurnsAreTaken(cfg: FlowConfig, f: Flow, n: nat, record: Record,
      turnCount: int, prompt: Prompt)
    requires ReviewWritesEnabled(cfg)
    ensures Turns(RunTurns(cfg, f, PassingTurns(n), record, turnCount, prompt).flow.log) == Turns(f.log) + n
    decreases n
  {
    Added(f.log, Broke(STREAM_CLOSED), None);
    hide AfterTurn, Await, ReviewWritesEnabled, Turns;
    if n > 0 {
      PassingTurnGoesOn(cfg, f, record, turnCount, prompt);
      var next := AfterTurn(cfg, Await(f, PASSING_TURN, prompt), PASSING_TURN, record, turnCount).flow;
      assert PassingTurns(n)[1..] == PassingTurns(n - 1);
      PassingTurnsAreTaken(cfg, next, n - 1, record, turnCount + 1, NextPrompt(next.state));
    }
  }

  // As many turns as one likes.
  lemma PassingRunTakes(run: Setting, turns: nat)
    requires ReviewWritesEnabled(run.cfg)
    ensures Turns(LogOf(run, "AI Review", PassingRun(run.workspace, run.lookedUp, turns))) == turns
  {
    var f := Flow("AI Review", "", run.before, [Saw("AI Review")]);
    var input := PassingRun(run.workspace, run.lookedUp, turns);
    var linked := f.Add(Opened("")).Add(Connected("thread"));
    var record := Record("thread", run.workspace);
    assert Turns(linked.log) == 0 by {
      assert [] + [Saw("AI Review")] == f.log;
      Added([], Saw("AI Review"), None);
      Added(f.log, Opened(""), None);
      Added(f.Add(Opened("")).log, Connected("thread"), None);
    }
    PassingRunBegins(run, input, f);
    hide RunIssueTrunk, ReviewWritesEnabled;
    PassingTurnsAreTaken(run.cfg, linked, turns, record, 1, WorkflowPrompt);
  }

  lemma PassingRunBegins(run: Setting, input: RunInput, f: Flow)
    requires ReviewWritesEnabled(run.cfg) && f == Flow("AI Review", "", run.before, [Saw("AI Review")])
    requires exists turns :: input == PassingRun(run.workspace, run.lookedUp, turns)
    ensures RunIssueTrunk(run.cfg, "AI Review", run.before, input).0 ==
      RunTurns(
        run.cfg, f.Add(Opened("")).Add(Connected("thread")), input.attempt.first.turns,
        Record("thread", run.workspace), 1, WorkflowPrompt).flow
  {
    assert Trim("AI Review") == "AI Review";
    assert !Is("AI Review", "Blocked") && !Is("AI Review", "Todo") && !Is("AI Review", "Rework");
    SameNames("AI Review");
    SameSettings(run.cfg, "AI Review");
    hide Auto, Terminal, Active, Is, RunTurns, Finished, Worked, InHumanReview, Waiting, Named;
  }

  // The budget is a hard cap for every run exactly when the review write cannot happen;
  // where it can, a run with one turn too many is one in which the review keeps passing.
  lemma CapExactlyWhen(cfg: FlowConfig)
    ensures
      (forall run: Setting, state: string, input: RunInput | run.cfg == cfg && Fits(run, input) ::
         Turns(LogOf(run, state, input)) <= Budget(cfg))
      <==> !ReviewWritesEnabled(cfg)
  {
    hide LogOf, Turns, ReviewWritesEnabled;
    if ReviewWritesEnabled(cfg) {
      var run := Setting(cfg, None, "", true);
      var input := PassingRun("", true, Budget(cfg) + 1);
      PassingRunTakes(run, Budget(cfg) + 1);
      assert Fits(run, input) && Turns(LogOf(run, "AI Review", input)) > Budget(cfg);
    } else {
      forall run: Setting, state: string, input: RunInput | run.cfg == cfg && Fits(run, input)
        ensures Turns(LogOf(run, state, input)) <= Budget(cfg)
      {
        TurnBound(run, state, input);
      }
    }
  }

  // The exit is what the log's end calls for: the state last seen, the write that ended the
  // run, or the failure that did. A failure retry always comes with its error.
  lemma OutcomeSound(run: Setting, state: string, input: RunInput)
    requires Fits(run, input)
    ensures var (f, exit) := RunIssueTrunk(run.cfg, state, run.before, input);
      && EndsDuly(run.cfg, f.log, exit)
      && (exit.outcome == RetryFailure ==> exit.failure != NoFailure)
      && exit.outcome != NoOutcome
  {
    hide RunIssueTrunk, ReviewSignal, DoneSignal, Finished, Worked, Waiting, Named, Auto, Budget;
    RunKeeps(run, state, input);
  }

  // A run opens at most two sessions. The first asks for the recorded thread exactly
  // when the issue is in Rework and the record is of this workspace; the second asks
  // for a fresh thread, after a resume that recorded no turn.
  lemma ResumeExact(run: Setting, state: string, input: RunInput, k: nat)
    requires Fits(run, input) && k < |LogOf(run, state, input)| && LogOf(run, state, input)[k].Opened?
    ensures var log := LogOf(run, state, input);
      && Sessions(log) <= 2
      && (Sessions(log[..k]) == 0 ==> log[k].resume == DueResume(run, log[..k]))
      && (Sessions(log[..k]) > 0 ==>
            Sessions(log[..k]) == 1 && LastResume(log[..k]) != "" && Turns(log[..k]) == 0 && log[k].resume == "")
  {
    hide RunIssueTrunk, DueResume;
    RunKeeps(run, state, input);
    var log := LogOf(run, state, input);
    assert Legal(run, log[..k], log[k]);
  }

  // --- The record across runs and terminal cleanups of one issue ---

  datatype Chapter =
    | Ran(cfg: FlowConfig, state: string, input: RunInput)
    | CleanedUp(deleted: bool)

  function StoreAfter(history: seq<Chapter>): Option<Record> {
    if history == [] then None
    else
      var before := StoreAfter(history[..|history| - 1]);
      match history[|history| - 1]
      case Ran(cfg, state, input) => RunIssueTrunk(cfg, state, before, input).0.store
      case CleanedUp(deleted) => if deleted then None else before
  }

  // Everything that was logged, with a cleanup's delete logged as a drop.
  function Story(history: seq<Chapter>): seq<Act> {
    if history == [] then []
    else
      var front := history[..|history| - 1];
      Story(front) +
      match history[|history| - 1]
      case Ran(cfg, state, input) => RunIssueTrunk(cfg, state, StoreAfter(front), input).0.log
      case CleanedUp(deleted) => if deleted then [Dropped] else []
  }

  lemma RecordOfLast(before: Option<Record>, log: seq<Act>, a: Act)
    ensures LastRecord(before, []) == before
    ensures LastRecord(before, log + [a]) ==
      if a.Stored? then Some(a.record) else if a.Dropped? then None else LastRecord(before, log)
  {
    assert (log + [a])[..|log|] == log;
  }

  lemma {:induction false} RecordCarriesOver(before: Option<Record>, log: seq<Act>, more: seq<Act>)
    ensures LastRecord(before, log + more) == LastRecord(LastRecord(before, log), more)
  {
    hide LastRecord;
    if more == [] {
      assert log + more == log;
      RecordOfLast(LastRecord(before, log), [], Dropped);
    } else {
      var front, last := more[..|more| - 1], more[|more| - 1];
      RecordCarriesOver(before, log, front);
      RecordOfLast(before, log + front, last);
      RecordOfLast(LastRecord(before, log), front, last);
      assert log + more == (log + front) + [last] && more == front + [last];
    }
  }

  // The store holds the record of the last recorded turn since the last drop.
  lemma {:induction false} StoreIsLastRecord(history: seq<Chapter>)
    ensures StoreAfter(history) == LastRecord(None, Story(history))
  {
    hide RunIssueTrunk;
    if history != [] {
      var front := history[..|history| - 1];
      StoreIsLastRecord(front);
      match history[|history| - 1] {
        case Ran(cfg, state, input) =>
          var run := Setting(cfg, StoreAfter(front), input.attempt.workspace, input.attempt.lookedUp);
          RunKeeps(run, state, input);
          RecordCarriesOver(None, Story(front), RunIssueTrunk(cfg, state, StoreAfter(front), input).0.log);
        case CleanedUp(deleted) =>
          RecordCarriesOver(None, Story(front), if deleted then [Dropped] else []);
      }
    }
  }

  // A Rework run resumes the thread of the last recorded turn, over all earlier runs
  // of the issue, unless its record was dropped or is of another workspace.
  lemma ReworkResumesLastTurn(history: seq<Chapter>, cfg: FlowConfig, state: string, input: RunInput, k: nat)
    requires input.attempt.lookedUp
    requires var log := RunIssueTrunk(cfg, state, StoreAfter(history), input).0.log;
      k < |log| && log[k].Opened? && Sessions(log[..k]) == 0
    ensures var log := RunIssueTrunk(cfg, state, StoreAfter(history), input).0.log;
      var record := LastRecord(None, Story(history) + log[..k]);
      var found := record.Some? && record.value.workspace == input.attempt.workspace;
      log[k].resume == if Is(LastKnown(log[..k]), "Rework") && found
                       then record.value.thread else ""
  {
    hide RunIssueTrunk;
    var run := Setting(cfg, StoreAfter(history), input.attempt.workspace, true);
    ResumeExact(run, state, input, k);
    StoreIsLastRecord(history);
    RecordCarriesOver(None, Story(history), RunIssueTrunk(cfg, state, StoreAfter(history), input).0.log[..k]);
  }
}
