/**
 The session loop as the code runs it: a queue of prompts that AfterTurn extends,
 and the variables that the AfterTurn closure captures and overwrites.
 */
module SessionLoop {
  import opened Wrappers
  import opened Outcomes
  import opened IssueFlow
  import Flows = IssueFlow

  class SessionRun {
    const cfg: FlowConfig
    const workspace: string
    var currentState: string
    var lastAgentMessage: string
    var store: Option<Record>
    var log: seq<Act>

    ghost function Now(): Flow
      reads this
    {
      Flow(currentState, lastAgentMessage, store, log)
    }

    constructor (cfg: FlowConfig, workspace: string, f: Flow)
      ensures Now() == f && this.cfg == cfg && this.workspace == workspace
    {
      this.cfg, this.workspace := cfg, workspace;
      currentState, lastAgentMessage, store, log := f.state, f.message, f.store, f.log;
    }

    method HearEvents(events: seq<Event>)
      modifies this
      ensures Now() == Hear(old(Now()), events)
    {
      var i := 0;
      while i < |events|
        invariant 0 <= i <= |events|
        invariant Hear(Now(), events[i..]) == Hear(old(Now()), events)
      {
        assert events[i..][0] == events[i] && events[i..][1..] == events[i + 1..];
        var text := CompletedText(events[i]);
        if text != "" {
          lastAgentMessage := text;
        }
        log := log + [Heard(events[i])];
        i := i + 1;
      }
    }

    method RecordTurn(record: Record, stored: bool)
      modifies this`store, this`log
      ensures store == if stored && record.thread != "" then Some(record) else old(store)
      ensures log == if stored && record.thread != "" then old(log) + [Stored(record)] else old(log)
    {
      if stored && record.thread != "" {
        store := Some(record);
        log := log + [Stored(record)];
      }
    }

    method LoseRecord(cleaned: bool)
      modifies this`store, this`log
      ensures Now() == Drop(old(Now()), cleaned)
    {
      if cleaned {
        store := None;
        log := log + [Dropped];
      }
    }

    method UpdateIssueState(to: string, fails: Failure)
      modifies this`currentState, this`log
      ensures Now() == Write(old(Now()), to, fails)
    {
      if fails == NoFailure {
        currentState := to;
        log := log + [Wrote(to, true)];
      } else {
        log := log + [Wrote(to, false)];
      }
    }

    method AfterTurn(turn: Turn, record: Record, turnCount: int)
      returns (again: bool, outcome: Outcome, failure: Failure)
      modifies this
      ensures var v := Flows.AfterTurn(cfg, old(Now()), turn, record, turnCount);
        && Now() == v.flow
        && again == v.Again?
        && (v.Halt? ==> outcome == v.outcome && failure == v.failure)
    {
      again, outcome, failure := false, RetryContinuation, NoFailure;
      var turnStart := currentState;
      if turn.fetched.Err? {
        failure := Reason(turn.fetched.error, "fetch failed");
        log := log + [Broke(failure)];
        return false, RetryFailure, failure;
      }
      currentState := turn.fetched.value;
      log := log + [Saw(currentState)];
      RecordTurn(record, turn.stored);
      again, outcome, failure := DecideAfterTurn(turn, turnStart, turnCount);
    }

    method DecideAfterTurn(turn: Turn, turnStart: string, turnCount: int)
      returns (again: bool, outcome: Outcome, failure: Failure)
      modifies this
      ensures var v := Decide(cfg, old(Now()), turn, turnStart, turnCount);
        && Now() == v.flow
        && again == v.Again?
        && (v.Halt? ==> outcome == v.outcome && failure == v.failure)
    {
      hide Terminal, Active, InHumanReview, ReviewPasses, PushPasses, MergePasses, Is, WritesEnabled;
      if turn.contextDone != NoFailure {
        log := log + [Cancelled(turn.contextDone)];
        return false, Stopped, turn.contextDone;
      }
      if Terminal(cfg, currentState) {
        return false, Done, NoFailure;
      }
      if InHumanReview(currentState) {
        return false, WaitHuman, NoFailure;
      }
      if !Active(cfg, currentState) {
        return false, Stopped, NoFailure;
      }
      if Is(currentState, "AI Review") && ReviewPasses(lastAgentMessage) {
        if !WritesEnabled(cfg) {
          return false, WaitHuman, NoFailure;
        }
        UpdateIssueState("Merging", turn.updateFails);
        if turn.updateFails != NoFailure {
          return false, RetryFailure, turn.updateFails;
        }
        return true, RetryContinuation, NoFailure;
      }
      if Is(turnStart, "Pushing") && Is(currentState, "Pushing") && PushPasses(lastAgentMessage) {
        again, outcome, failure := ApplyDone(turn.updateFails);
        return;
      }
      if Is(currentState, "Merging") && MergePasses(lastAgentMessage) {
        again, outcome, failure := ApplyDone(turn.updateFails);
        return;
      }
      if turnCount >= MaxTurns(cfg) {
        return false, RetryContinuation, NoFailure;
      }
      return true, RetryContinuation, NoFailure;
    }

    // applyPushPass and applyMergePass, behind the policy that allows state writes.
    method ApplyDone(updateFails: Failure) returns (again: bool, outcome: Outcome, failure: Failure)
      modifies this`currentState, this`log
      ensures !again
      ensures Now() == if WritesEnabled(cfg) then Write(old(Now()), "Done", updateFails) else old(Now())
      ensures outcome ==
        if !WritesEnabled(cfg) then WaitHuman else if updateFails == NoFailure then Done else RetryFailure
      ensures failure == if WritesEnabled(cfg) then updateFails else NoFailure
    {
      hide WritesEnabled;
      if !WritesEnabled(cfg) {
        return false, WaitHuman, NoFailure;
      }
      UpdateIssueState("Done", updateFails);
      return false, if updateFails == NoFailure then Done else RetryFailure, updateFails;
    }

    method RunSession(session: Session, resume: string) returns (turns: int, outcome: Outcome, failure: Failure)
      modifies this
      ensures SessionEnd(Now(), turns, outcome, failure) ==
        Flows.RunSession(cfg, old(Now()), session, workspace, resume)
    {
      hide Flows.AfterTurn, Hear, Drop;
      lastAgentMessage := "";
      log := log + [Opened(resume)];
      turns, outcome, failure := 0, RetryContinuation, NoFailure;
      if session.open.Err? {
        failure := Reason(session.open.error, "session start failed");
        log := log + [Broke(failure)];
        return 0, RetryContinuation, failure;
      }
      log := log + [Connected(session.open.value)];
      var record := Record(session.open.value, workspace);
      var prompts := [if resume == "" then WorkflowPrompt else ContinuePrompt];
      ghost var promised := RunTurns(cfg, Now(), session.turns, record, 1, prompts[0]);
      var i := 0;
      while i < |prompts|
        invariant turns == i && |prompts| == i + 1 && i <= |session.turns|
        invariant RunTurns(cfg, Now(), session.turns[i..], record, i + 1, prompts[i]) == promised
        decreases |session.turns| - i
      {
        if i == |session.turns| {
          log := log + [Broke(STREAM_CLOSED)];
          return turns, RetryContinuation, STREAM_CLOSED;
        }
        var turn := session.turns[i];
        assert session.turns[i..][0] == turn && session.turns[i..][1..] == session.turns[i + 1..];
        if turn.startFails != NoFailure {
          log := log + [Broke(turn.startFails)];
          return turns, RetryContinuation, turn.startFails;
        }
        log := log + [Began(currentState, prompts[i])];
        LoseRecord(turn.cleaned);
        HearEvents(turn.events);
        turns := i + 1;
        if turn.awaitFails != NoFailure {
          log := log + [Broke(turn.awaitFails)];
          return turns, RetryContinuation, turn.awaitFails;
        }
        var again;
        again, outcome, failure := AfterTurn(turn, record, i + 1);
        if !again {
          return;
        }
        prompts := prompts + [NextPrompt(currentState)];
        i := i + 1;
      }
    }
  }
}
