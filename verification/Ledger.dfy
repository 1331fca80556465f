/**
 Conservation: token totals against the usage of every entry that ever ran, and
 reported runtime against the time agents have been running.
 */
module Ledger {
  import opened Names
  import opened Wrappers
  import opened Eligibility
  import opened Keyed
  import opened Tables
  import opened Scheduler

  // --- Sums over the running entries ---

  lemma {:induction false} SumReplaced(running: seq<RunningEntry>, i: nat, e: RunningEntry)
    requires i < |running|
    ensures SumTokens(running[i := e]).Plus(running[i].tokens) == SumTokens(running).Plus(e.tokens)
  {
    var n := |running| - 1;
    if i < n {
      assert running[i := e][..n] == running[..n][i := e];
      SumReplaced(running[..n], i, e);
    } else {
      assert running[i := e][..n] == running[..n];
    }
  }

  lemma {:induction false} SumWithout(running: seq<RunningEntry>, id: string)
    ensures SumTokens(Without(running, RunKey, id)).Plus(TokensOf(running, id)) == SumTokens(running)
  {
    if running != [] {
      var front, last := running[..|running| - 1], running[|running| - 1];
      SumWithout(front, id);
      var rest := Without(front, RunKey, id);
      if RunKey(last) == id {
        assert Without(running, RunKey, id) == rest;
      } else {
        assert Without(running, RunKey, id) == rest + [last];
        assert (rest + [last])[..|rest|] == rest;
        assert SumTokens(rest + [last]) == SumTokens(rest).Plus(last.tokens);
      }
    }
  }

  function LiveAll(running: seq<RunningEntry>, now: int): int {
    if running == [] then 0
    else LiveAll(running[..|running| - 1], now) + Live(running[|running| - 1], now)
  }

  lemma {:induction false} LiveReplaced(running: seq<RunningEntry>, i: nat, e: RunningEntry, now: int)
    requires i < |running| && Live(e, now) == Live(running[i], now)
    ensures LiveAll(running[i := e], now) == LiveAll(running, now)
  {
    var n := |running| - 1;
    if i < n {
      assert running[i := e][..n] == running[..n][i := e];
      LiveReplaced(running[..n], i, e, now);
    } else {
      assert running[i := e][..n] == running[..n];
    }
  }

  lemma {:induction false} LiveWithout(running: seq<RunningEntry>, id: string, now: int)
    ensures LiveAll(running, now) == LiveAll(Without(running, RunKey, id), now) + LiveOf(running, id, now)
  {
    if running != [] {
      var front, last := running[..|running| - 1], running[|running| - 1];
      LiveWithout(front, id, now);
      var rest := Without(front, RunKey, id);
      assert (rest + [last])[..|rest|] == rest;
    }
  }

  lemma {:induction false} LiveLater(running: seq<RunningEntry>, now: int, ticks: nat)
    requires forall i | 0 <= i < |running| :: running[i].startedAt != 0
    ensures LiveAll(running, now + ticks) == LiveAll(running, now) + ticks * |running|
  {
    if running != [] {
      LiveLater(running[..|running| - 1], now, ticks);
      assert ticks * |running| == ticks * (|running| - 1) + ticks;
    }
  }

  // TotalRuntimeSeconds: what Snapshot reports at `now`.
  function Reported(b: Board, now: int): int {
    b.seconds + LiveAll(b.running, now)
  }

  method TotalRuntimeSeconds(b: Board, now: int) returns (total: int)
    ensures total == Reported(b, now)
  {
    total := b.seconds;
    for i := 0 to |b.running|
      invariant total == b.seconds + LiveAll(b.running[..i], now)
    {
      assert b.running[..i + 1][..i] == b.running[..i];
      if b.running[i].startedAt != 0 {
        total := total + (now - b.running[i].startedAt);
      }
    }
    assert b.running[..|b.running|] == b.running;
  }

  // --- Each update of the board, read at the moment it happens ---

  lemma Appended(running: seq<RunningEntry>, e: RunningEntry, now: int)
    ensures LiveAll(running + [e], now) == LiveAll(running, now) + Live(e, now)
    ensures SumTokens(running + [e]) == SumTokens(running).Plus(e.tokens)
  {
    assert (running + [e])[..|running|] == running;
  }

  // Nothing a worker or the poll loop does to the board moves the reported time.
  lemma SetStageConserves(b: Board, issue: Issue, attempt: int, stage: Stage, now: int)
    ensures var r := SetStage(b, issue, attempt, stage, now);
      && Reported(r, now) == Reported(b, now)
      && SumTokens(r.running) == SumTokens(b.running)
      && r.totals == b.totals
  {
    var entry := StageEntry(issue, attempt, stage, now);
    var i := Find(b.running, RunKey, issue.id);
    if i < |b.running| {
      var e := Inherit(entry, b.running[i]);
      assert Live(e, now) == Live(b.running[i], now) && e.tokens == b.running[i].tokens;
      LiveReplaced(b.running, i, e, now);
      SumReplaced(b.running, i, e);
    } else {
      assert Live(entry, now) == 0 && entry.tokens == ZERO_USAGE;
      Appended(b.running, entry, now);
    }
  }

  lemma RemoveRunningConserves(b: Board, id: string, now: int)
    ensures var r := RemoveRunning(b, id, now);
      && Reported(r, now) == Reported(b, now)
      && SumTokens(r.running).Plus(TokensOf(b.running, id)) == SumTokens(b.running)
      && r.totals == b.totals
  {
    LiveWithout(b.running, id, now);
    SumWithout(b.running, id);
  }

  lemma UpdateStateConserves(b: Board, id: string, state: string, now: int)
    ensures var r := UpdateState(b, id, state);
      && Reported(r, now) == Reported(b, now)
      && SumTokens(r.running) == SumTokens(b.running)
      && r.totals == b.totals
  {
    var i := Find(b.running, RunKey, id);
    if i < |b.running| {
      LiveReplaced(b.running, i, b.running[i].(state := state), now);
      SumReplaced(b.running, i, b.running[i].(state := state));
    }
  }

  lemma UpdateFromEventConserves(b: Board, id: string, event: CodexEvent, now: int)
    ensures var r := UpdateFromEvent(b, id, event, now);
      && Reported(r, now) == Reported(b, now)
      && r.totals.Plus(SumTokens(b.running)) == b.totals.Plus(SumTokens(r.running)).Plus(LostBy(b, id, event))
      && b.totals.AtMost(r.totals)
  {
    var i := Find(b.running, RunKey, id);
    if i < |b.running| {
      LiveReplaced(b.running, i, Observe(b.running[i], event, now), now);
      SumReplaced(b.running, i, Observe(b.running[i], event, now));
    }
  }

  // --- Every step, every run ---

  // Totals equal what ended entries last reported, plus what live ones report, plus
  // what entries gave back by reporting less than before.
  predicate Balanced(s: System) {
    s.t.board.totals == s.ended.Plus(SumTokens(s.t.board.running)).Plus(s.lost)
  }

  lemma InTrunkConserves(t: Tables, now: int, worker: Worker, step: WorkerStep)
    ensures var m := InTrunk(t, now, worker, step);
      && Reported(m.t.board, now) == Reported(t.board, now)
      && t.board.totals.AtMost(m.t.board.totals)
      && m.t.board.totals.Plus(SumTokens(t.board.running))
         == t.board.totals.Plus(SumTokens(m.t.board.running)).Plus(m.ended).Plus(m.lost)
  {
    hide SetStage, UpdateFromEvent, RemoveRunning, Reported, SumTokens, TokensOf, LostBy;
    if step.EnterStage? {
      SetStageConserves(t.board, step.issue, worker.attempt, step.stage, now);
    } else if step.Report? {
      UpdateFromEventConserves(t.board, worker.issue.id, step.event, now);
    } else if step.Return? {
      RemoveRunningConserves(t.board, worker.issue.id, now);
    }
  }

  lemma InExitConserves(t: Tables, worker: Worker, step: WorkerStep)
    ensures var m := InExit(t, worker, step);
      m.t.board == t.board && m.ended == ZERO_USAGE && m.lost == ZERO_USAGE
  {
  }

  // A move that balances the board's change keeps the whole balance.
  lemma BalanceCarries(s: System, r: System, ended: Usage, lost: Usage)
    requires Balanced(s) && r.ended == s.ended.Plus(ended) && r.lost == s.lost.Plus(lost)
    requires r.t.board.totals.Plus(SumTokens(s.t.board.running))
      == s.t.board.totals.Plus(SumTokens(r.t.board.running)).Plus(ended).Plus(lost)
    ensures Balanced(r)
  {
  }

  lemma WorkConserves(s: System, w: WorkerId, step: WorkerStep)
    ensures var r := ApplyWork(s, w, step);
      && (Balanced(s) ==> Balanced(r))
      && s.t.board.totals.AtMost(r.t.board.totals)
      && Reported(r.t.board, s.now) == Reported(s.t.board, s.now)
      && r.now == s.now
  {
    if w in s.workers {
      if s.workers[w].pc.Trunk? {
        InTrunkConserves(s.t, s.now, s.workers[w], step);
      } else {
        InExitConserves(s.t, s.workers[w], step);
      }
      var m := MoveWorker(s.t, s.now, s.workers[w], step);
      if Balanced(s) {
        BalanceCarries(s, ApplyWork(s, w, step), m.ended, m.lost);
      }
    }
  }

  // Steps of the poll loop and of handlers keep the sums; so do the others.
  ghost predicate SumsKept(s: System, r: System) {
    && Reported(r.t.board, s.now) == Reported(s.t.board, s.now)
    && SumTokens(r.t.board.running) == SumTokens(s.t.board.running)
    && r.t.board.totals == s.t.board.totals
    && r.ended == s.ended && r.lost == s.lost && r.now == s.now
  }

  lemma StartKeepsSums(s: System, start: Option<(Issue, int)>)
    ensures SumsKept(s, StartWorker(s, start))
  {
    if start.Some? {
      SetStageConserves(s.t.board, start.value.0, start.value.1, QUEUED, s.now);
    }
  }

  lemma MovePollKeepsSums(t: Tables, poll: PollPc, step: PollStep, now: int)
    ensures var b := MovePoll(t, poll, step).t.board;
      && Reported(b, now) == Reported(t.board, now)
      && SumTokens(b.running) == SumTokens(t.board.running)
      && b.totals == t.board.totals
  {
    if step.UpdateRunning? {
      UpdateStateConserves(t.board, step.id, step.state, now);
    } else {
      assert MovePoll(t, poll, step).t.board == t.board;
    }
  }

  lemma PollKeepsSums(s: System, step: PollStep)
    ensures SumsKept(s, ApplyPoll(s, step))
  {
    MovePollKeepsSums(s.t, s.poll, step, s.now);
    var m := MovePoll(s.t, s.poll, step);
    StartKeepsSums(s.(t := m.t, poll := m.poll), m.start);
  }

  lemma HandleKeepsSums(s: System, h: TimerId, step: HandlerStep)
    ensures SumsKept(s, ApplyHandle(s, h, step))
  {
    if h in s.handlers {
      var m := MoveHandler(s.t, s.handlers[h], step);
      var hs' := if m.next.Some? then s.handlers[h := s.handlers[h].(pc := m.next.value)] else s.handlers - {h};
      StartKeepsSums(s.(t := s.t.(retries := m.retries, claimed := m.claimed), handlers := hs'), m.start);
    }
  }

  lemma OutsideKeepsBoard(s: System, step: OutsideStep)
    ensures var r := ApplyOutside(s, step);
      && r.t.board == s.t.board && r.ended == s.ended && r.lost == s.lost
      && r.now == s.now + if step.Tick? then step.ticks else 0
  {
  }

  lemma StepConserves(s: System, step: Step)
    ensures var r := Apply(s, step);
      && (Balanced(s) ==> Balanced(r))
      && s.t.board.totals.AtMost(r.t.board.totals)
      && Reported(r.t.board, s.now) == Reported(s.t.board, s.now)
      && r.now == s.now + Ticks(step)
  {
    hide ApplyOutside, ApplyPoll, ApplyWork, ApplyHandle;
    match step {
      case Outside(outside) => OutsideKeepsBoard(s, outside);
      case Poll(poll) => PollKeepsSums(s, poll);
      case Work(w, work) => WorkConserves(s, w, work);
      case Handle(h, handle) => HandleKeepsSums(s, h, handle);
    }
  }

  function Ticks(step: Step): nat {
    if step.Outside? && step.outside.Tick? then step.outside.ticks else 0
  }

  // The report is below what the entry reported before.
  predicate ReportsLess(b: Board, id: string, step: WorkerStep) {
    var i := Find(b.running, RunKey, id);
    && i < |b.running| && step.Report? && step.event.usage.Some?
    && !b.running[i].tokens.AtMost(step.event.usage.value)
  }

  predicate Regresses(s: System, step: Step) {
    && step.Work? && step.w in s.workers && s.workers[step.w].pc.Trunk?
    && ReportsLess(s.t.board, s.workers[step.w].issue.id, step.work)
  }

  predicate NeverRegresses(s: System, steps: seq<Step>) {
    forall k | 0 <= k < |steps| :: !Regresses(Exec(s, steps[..k]), steps[k])
  }

  lemma ReportLoses(t: Tables, now: int, worker: Worker, step: WorkerStep)
    requires worker.pc.Trunk?
    ensures ZERO_USAGE.AtMost(InTrunk(t, now, worker, step).lost)
    ensures InTrunk(t, now, worker, step).lost == ZERO_USAGE <==> !ReportsLess(t.board, worker.issue.id, step)
  {
  }

  lemma LostMoves(s: System, step: Step)
    ensures var r := Apply(s, step);
      && s.lost.AtMost(r.lost)
      && (r.lost == s.lost <==> !Regresses(s, step))
  {
    match step {
      case Outside(outside) => OutsideKeepsBoard(s, outside);
      case Poll(poll) => PollKeepsSums(s, poll);
      case Handle(h, handle) => HandleKeepsSums(s, h, handle);
      case Work(w, work) => WorkLoses(s, w, work);
    }
  }

  lemma WorkLoses(s: System, w: WorkerId, step: WorkerStep)
    ensures var r := ApplyWork(s, w, step);
      && s.lost.AtMost(r.lost)
      && (r.lost == s.lost <==> !Regresses(s, Work(w, step)))
  {
    if w in s.workers {
      if s.workers[w].pc.Trunk? {
        ReportLoses(s.t, s.now, s.workers[w], step);
      } else {
        InExitConserves(s.t, s.workers[w], step);
      }
    }
  }

  lemma NeverSplits(s: System, steps: seq<Step>)
    requires steps != []
    ensures var front := steps[..|steps| - 1];
      NeverRegresses(s, steps) <==> NeverRegresses(s, front) && !Regresses(Exec(s, front), steps[|steps| - 1])
  {
    hide Apply, Regresses;
    var front := steps[..|steps| - 1];
    assert forall k | 0 <= k < |front| :: front[..k] == steps[..k] && front[k] == steps[k];
    if NeverRegresses(s, front) && !Regresses(Exec(s, front), steps[|steps| - 1]) {
      forall k | 0 <= k < |steps| ensures !Regresses(Exec(s, steps[..k]), steps[k]) {
        if k < |front| {
          assert !Regresses(Exec(s, front[..k]), front[k]);
        }
      }
    }
    if NeverRegresses(s, steps) {
      assert !Regresses(Exec(s, steps[..|front|]), steps[|front|]);
      forall k | 0 <= k < |front| ensures !Regresses(Exec(s, front[..k]), front[k]) {
        assert !Regresses(Exec(s, steps[..k]), steps[k]);
      }
    }
  }

  lemma {:induction false} NothingLostIff(s: System, steps: seq<Step>)
    ensures s.lost.AtMost(Exec(s, steps).lost)
    ensures Exec(s, steps).lost == s.lost <==> NeverRegresses(s, steps)
  {
    hide Apply, Regresses;
    if steps != [] {
      var front, last := steps[..|steps| - 1], steps[|steps| - 1];
      NothingLostIff(s, front);
      LostMoves(Exec(s, front), last);
      NeverSplits(s, steps);
    }
  }

  // The totals are exactly what all entries, ended and live, last reported plus what
  // was given back by lower reports; so they match the entries if and only if no
  // report was ever below the entry's previous one.
  lemma TokenConservation(cfg: Config, steps: seq<Step>)
    ensures Balanced(Exec(Init(cfg), steps))
    ensures var s := Exec(Init(cfg), steps);
      s.t.board.totals == s.ended.Plus(SumTokens(s.t.board.running)) <==> NeverRegresses(Init(cfg), steps)
  {
    BalancedAlways(cfg, steps);
    NothingLostIff(Init(cfg), steps);
    ExactWhenNothingLost(Exec(Init(cfg), steps));
  }

  lemma ExactWhenNothingLost(s: System)
    requires Balanced(s)
    ensures s.t.board.totals == s.ended.Plus(SumTokens(s.t.board.running)) <==> s.lost == ZERO_USAGE
  {
  }

  lemma {:induction false} BalancedAlways(cfg: Config, steps: seq<Step>)
    ensures Balanced(Exec(Init(cfg), steps))
  {
    if steps != [] {
      BalancedAlways(cfg, steps[..|steps| - 1]);
      StepConserves(Exec(Init(cfg), steps[..|steps| - 1]), steps[|steps| - 1]);
    }
  }

  // --- A report below the one before ---

  const ONE_AGENT := Config(["a"], [], 1, map[], false, 0, 0)
  const ONE_ISSUE := Issue("i", "n", "t", "a", None, None, None, None)

  function UsageEvent(n: int): CodexEvent {
    CodexEvent("usage", "", "", "", "", None, Some(Usage(n, n, n)))
  }

  function LowerReport(): seq<Step> {
    [Poll(DispatchCandidate(ONE_ISSUE)), Work(0, Report(UsageEvent(5))), Work(0, Report(UsageEvent(3)))]
  }

  lemma OneIssueMayBeDispatched()
    ensures MayDispatch(Init(ONE_AGENT).t, ONE_ISSUE)
  {
    assert EqualFold(Trim(["a"][0]), Trim("a"));
    assert StateNameIn("a", ["a"]) && !StateNameIn("a", []);
    assert !EqualFold("a", "Human Review") && !EqualFold("a", "In Review");
    assert !EqualFold("a", "AI Review") && !EqualFold("a", "Todo");
    assert IdsInState(map[], "a") == {};
  }

  lemma DispatchedOnly()
    ensures var r := Apply(Init(ONE_AGENT), Poll(DispatchCandidate(ONE_ISSUE)));
      && r.t.board == Board([StageEntry(ONE_ISSUE, 0, QUEUED, 1)], ZERO_USAGE, 0)
      && r.workers == map[0 := Worker(ONE_ISSUE, 0, Trunk)] && r.now == 1 && r.ended == ZERO_USAGE
  {
    OneIssueMayBeDispatched();
    hide MayDispatch, ClearRetry;
    var s := Init(ONE_AGENT);
    assert Find([], RunKey, "i") == 0;
    assert SetStage(EMPTY_BOARD, ONE_ISSUE, 0, QUEUED, 1).running == [StageEntry(ONE_ISSUE, 0, QUEUED, 1)];
    assert MovePoll(s.t, s.poll, DispatchCandidate(ONE_ISSUE)) == PollMove(s.t, PollIdle, Some((ONE_ISSUE, 0)));
  }

  lemma ExecThree(s: System, a: Step, b: Step, c: Step)
    ensures Exec(s, [a, b, c]) == Apply(Apply(Apply(s, a), b), c)
  {
    hide Apply;
    assert [a, b, c][..2] == [a, b] && [a, b][..1] == [a] && [a][..0] == [];
    assert Exec(s, []) == s;
    assert Exec(s, [a]) == Apply(s, a);
    assert Exec(s, [a, b]) == Apply(Apply(s, a), b);
  }

  // After it the totals are what was reported at most, not what was reported last.
  lemma LowerReportIsCounted()
    ensures var s := Exec(Init(ONE_AGENT), LowerReport());
      && s.t.board.totals == Usage(5, 5, 5)
      && s.ended.Plus(SumTokens(s.t.board.running)) == Usage(3, 3, 3)
      && !NeverRegresses(Init(ONE_AGENT), LowerReport())
  {
    var steps := LowerReport();
    var s0 := Init(ONE_AGENT);
    var entry := StageEntry(ONE_ISSUE, 0, QUEUED, 1);
    DispatchedOnly();
    TokenConservation(ONE_AGENT, steps);
    ExecThree(s0, steps[0], steps[1], steps[2]);
    hide Apply, Exec, Init, Balanced, NeverRegresses, SumTokens;
    var s1 := Apply(s0, steps[0]);
    ReportsOnly(s1, entry, 5);
    ReportsOnly(Apply(s1, steps[1]), Observe(entry, UsageEvent(5), 1), 3);
  }

  // One entry, one worker: a report replaces the usage and adds what it rose.
  lemma ReportsOnly(s: System, e: RunningEntry, n: int)
    requires s.t.board.running == [e] && e.id == "i" && s.now == 1
    requires s.workers == map[0 := Worker(ONE_ISSUE, 0, Trunk)]
    ensures var r := Apply(s, Work(0, Report(UsageEvent(n))));
      && r.t.board.running == [Observe(e, UsageEvent(n), 1)]
      && r.t.board.totals == s.t.board.totals.Plus(TokenDelta(Usage(n, n, n), e.tokens))
      && r.workers == s.workers && r.now == 1 && r.ended == s.ended
      && SumTokens(r.t.board.running) == Usage(n, n, n)
  {
    assert Find(s.t.board.running, RunKey, "i") == 0;
    var r := [Observe(e, UsageEvent(n), 1)];
    assert [e][0 := Observe(e, UsageEvent(n), 1)] == r && r[..0] == [];
    assert SumTokens([]) == ZERO_USAGE;
  }

  // With or without that, the totals only ever grow.
  lemma {:induction false} TotalsNeverDecrease(s: System, steps: seq<Step>)
    ensures s.t.board.totals.AtMost(Exec(s, steps).t.board.totals)
  {
    if steps != [] {
      TotalsNeverDecrease(s, steps[..|steps| - 1]);
      StepConserves(Exec(s, steps[..|steps| - 1]), steps[|steps| - 1]);
    }
  }

  // The time agents have been running, summed over the ticks of a run.
  function AgentTime(s: System, steps: seq<Step>): int {
    if steps == [] then 0
    else
      var front := steps[..|steps| - 1];
      AgentTime(s, front) + Ticks(steps[|steps| - 1]) * |Exec(s, front).t.board.running|
  }

  ghost predicate Stamped(s: System) {
    s.now > 0 && forall e | e in s.t.board.running :: e.startedAt != 0
  }

  lemma SetStageStamps(b: Board, issue: Issue, attempt: int, stage: Stage, now: int)
    requires now > 0 && forall e | e in b.running :: e.startedAt != 0
    ensures forall e | e in SetStage(b, issue, attempt, stage, now).running :: e.startedAt != 0
  {
  }

  lemma WorkStamps(t: Tables, now: int, worker: Worker, step: WorkerStep)
    requires now > 0 && forall e | e in t.board.running :: e.startedAt != 0
    ensures forall e | e in MoveWorker(t, now, worker, step).t.board.running :: e.startedAt != 0
  {
    if worker.pc.Trunk? {
      if step.EnterStage? {
        SetStageStamps(t.board, step.issue, worker.attempt, step.stage, now);
      } else if step.Return? {
        WithoutMembers(t.board.running, RunKey, worker.issue.id);
      }
    } else {
      InExitConserves(t, worker, step);
    }
  }

  lemma StartStamps(s: System, start: Option<(Issue, int)>)
    requires Stamped(s)
    ensures Stamped(StartWorker(s, start))
  {
    if start.Some? {
      SetStageStamps(s.t.board, start.value.0, start.value.1, QUEUED, s.now);
    }
  }

  lemma PollStamps(s: System, step: PollStep)
    requires Stamped(s)
    ensures Stamped(ApplyPoll(s, step))
  {
    var m := MovePoll(s.t, s.poll, step);
    assert forall e | e in m.t.board.running :: e.startedAt != 0;
    StartStamps(s.(t := m.t, poll := m.poll), m.start);
  }

  lemma HandleStamps(s: System, h: TimerId, step: HandlerStep)
    requires Stamped(s)
    ensures Stamped(ApplyHandle(s, h, step))
  {
    if h in s.handlers {
      var m := MoveHandler(s.t, s.handlers[h], step);
      var hs' := if m.next.Some? then s.handlers[h := s.handlers[h].(pc := m.next.value)] else s.handlers - {h};
      StartStamps(s.(t := s.t.(retries := m.retries, claimed := m.claimed), handlers := hs'), m.start);
    }
  }

  lemma WorkStampsAll(s: System, w: WorkerId, step: WorkerStep)
    requires Stamped(s)
    ensures Stamped(ApplyWork(s, w, step))
  {
    if w in s.workers {
      WorkStamps(s.t, s.now, s.workers[w], step);
    }
  }

  lemma StepStamps(s: System, step: Step)
    requires Stamped(s)
    ensures Stamped(Apply(s, step))
  {
    hide ApplyOutside, ApplyPoll, ApplyWork, ApplyHandle;
    match step {
      case Outside(outside) => OutsideKeepsBoard(s, outside);
      case Poll(poll) => PollStamps(s, poll);
      case Work(w, work) => WorkStampsAll(s, w, work);
      case Handle(h, handle) => HandleStamps(s, h, handle);
    }
  }

  lemma {:induction false} RunsStamp(cfg: Config, steps: seq<Step>)
    ensures Stamped(Exec(Init(cfg), steps))
  {
    if steps != [] {
      RunsStamp(cfg, steps[..|steps| - 1]);
      StepStamps(Exec(Init(cfg), steps[..|steps| - 1]), steps[|steps| - 1]);
    }
  }

  // What Snapshot reports is the agent time of the run, whatever entries were
  // replaced, ended or started on the way; hence it never goes back.
  lemma RuntimeConservation(cfg: Config, steps: seq<Step>, k: nat)
    requires k <= |steps|
    ensures var s, r := Exec(Init(cfg), steps[..k]), Exec(Init(cfg), steps);
      && Reported(r.t.board, r.now) == AgentTime(Init(cfg), steps)
      && Reported(s.t.board, s.now) <= Reported(r.t.board, r.now)
  {
    ReportedIsAgentTime(cfg, steps);
    ReportedIsAgentTime(cfg, steps[..k]);
    AgentTimeGrows(Init(cfg), steps, k);
  }

  lemma StepReports(s: System, step: Step)
    requires Stamped(s)
    ensures var r := Apply(s, step);
      Reported(r.t.board, r.now) == Reported(s.t.board, s.now) + Ticks(step) * |s.t.board.running|
  {
    StepConserves(s, step);
    if Ticks(step) > 0 {
      assert Apply(s, step).t.board == s.t.board;
      LiveLater(s.t.board.running, s.now, Ticks(step));
    }
    hide Apply, LiveAll, Ticks, Stamped, Balanced;
  }

  lemma {:induction false} ReportedIsAgentTime(cfg: Config, steps: seq<Step>)
    ensures var s := Exec(Init(cfg), steps);
      Reported(s.t.board, s.now) == AgentTime(Init(cfg), steps)
  {
    if steps != [] {
      var front := steps[..|steps| - 1];
      ReportedIsAgentTime(cfg, front);
      RunsStamp(cfg, front);
      StepReports(Exec(Init(cfg), front), steps[|steps| - 1]);
    }
  }

  lemma ProductIsNat(a: nat, b: nat)
    ensures a * b >= 0
  {
  }

  lemma {:induction false} AgentTimeGrows(s: System, steps: seq<Step>, k: nat)
    requires k <= |steps|
    ensures AgentTime(s, steps[..k]) <= AgentTime(s, steps)
    decreases |steps|
  {
    hide Exec, Ticks;
    if k < |steps| {
      var front := steps[..|steps| - 1];
      AgentTimeGrows(s, front, k);
      ProductIsNat(Ticks(steps[|steps| - 1]), |Exec(s, front).t.board.running|);
      assert front[..k] == steps[..k];
    } else {
      assert steps[..k] == steps;
    }
  }
}
