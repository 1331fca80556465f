/** What the tables remember of a run, and what its end and its stalls lead to. */
module HistoryTheorems {
  import opened Wrappers
  import opened Eligibility
  import opened Tables
  import opened Backoff
  import opened Scheduler
  import opened RetryInvariants
  import opened FleetInvariants
  import opened SchedulerTheorems
  import opened WorkerExits

  // --- Configuration, marks and shutdown ---

  // The configuration that the last reload brought.
  function LastReload(cfg: Config, steps: seq<Step>): Config {
    if steps == [] then cfg
    else
      var front := steps[..|steps| - 1];
      match steps[|steps| - 1]
      case Poll(Reload(next)) => if Exec(Init(cfg), front).poll.PollIdle? then next else LastReload(cfg, front)
      case _ => LastReload(cfg, front)
  }

  // The issue that was last marked for cleanup, unless a worker on its way out has taken it.
  function LastMark(s: System, steps: seq<Step>, id: string): Option<Issue> {
    if steps == [] then None
    else
      var front := steps[..|steps| - 1];
      var before := Exec(s, front);
      match steps[|steps| - 1]
      case Poll(MarkCleanup(issue)) =>
        if before.poll.PollIdle? && issue.id == id then Some(issue) else LastMark(s, front, id)
      case Work(w, PopCleanup) =>
        if w in before.workers && before.workers[w].pc.Uncancelled? && before.workers[w].issue.id == id then None
        else LastMark(s, front, id)
      case _ => LastMark(s, front, id)
  }

  function MarkOf(t: Tables, id: string): Option<Issue> {
    if id in t.pendingCleanup then Some(t.pendingCleanup[id]) else None
  }

  // What a step changes besides claims, workers, entries and retries.
  predicate Remembers(s: System, step: Step, r: System, id: string) {
    && r.t.cfg == (if step.Poll? && step.poll.Reload? && s.poll.PollIdle? then step.poll.cfg else s.t.cfg)
    && r.t.serviceDone == (s.t.serviceDone || step == Outside(EndService))
    && r.stopped == (s.stopped || step == Outside(StopTimers))
    && MarkOf(r.t, id) ==
       if step.Poll? && step.poll.MarkCleanup? && s.poll.PollIdle? && step.poll.issue.id == id
       then Some(step.poll.issue)
       else if step.Work? && step.work.PopCleanup? && step.w in s.workers && s.workers[step.w].pc.Uncancelled?
               && s.workers[step.w].issue.id == id
       then None
       else MarkOf(s.t, id)
  }

  lemma MoveRemembers(t: Tables, now: int, worker: Worker, work: WorkerStep, id: string)
    ensures var r := MoveWorker(t, now, worker, work).t;
      && r.cfg == t.cfg && r.serviceDone == t.serviceDone
      && MarkOf(r, id) ==
         if work.PopCleanup? && worker.pc.Uncancelled? && worker.issue.id == id then None else MarkOf(t, id)
  {
    hide ScheduleRetry, SetStage, RemoveRunning, UpdateFromEvent, TokensOf, LostBy;
  }

  lemma WorkRemembers(s: System, w: WorkerId, work: WorkerStep, id: string)
    ensures Remembers(s, Work(w, work), ApplyWork(s, w, work), id)
  {
    hide ScheduleRetry, SetStage, RemoveRunning, UpdateFromEvent, TokensOf, LostBy;
    if w in s.workers {
      MoveRemembers(s.t, s.now, s.workers[w], work, id);
      hide MoveWorker;
    }
  }

  lemma StartRemembers(s: System, start: Option<(Issue, int)>)
    ensures var r := StartWorker(s, start);
      && r.t.cfg == s.t.cfg && r.t.serviceDone == s.t.serviceDone && r.stopped == s.stopped
      && r.t.pendingCleanup == s.t.pendingCleanup && r.poll == s.poll
  {
    hide ClearRetry, SetStage;
  }

  lemma PollRemembers(s: System, step: PollStep, id: string)
    ensures Remembers(s, Poll(step), ApplyPoll(s, step), id)
  {
    hide ScheduleRetry, MayDispatch, StartWorker, UpdateState;
    var m := MovePoll(s.t, s.poll, step);
    StartRemembers(s.(t := m.t, poll := m.poll), m.start);
  }

  lemma HandleRemembers(s: System, h: TimerId, step: HandlerStep, id: string)
    ensures Remembers(s, Handle(h, step), ApplyHandle(s, h, step), id)
  {
    hide MoveHandler, StartWorker;
    if h in s.handlers {
      var m := MoveHandler(s.t, s.handlers[h], step);
      var handlers :=
        if m.next.Some? then s.handlers[h := s.handlers[h].(pc := m.next.value)] else s.handlers - {h};
      StartRemembers(s.(t := s.t.(retries := m.retries, claimed := m.claimed), handlers := handlers), m.start);
    }
  }

  lemma StepRemembers(s: System, step: Step, id: string)
    ensures Remembers(s, step, Apply(s, step), id)
  {
    UntimelyRemembers(s, step, id);
    hide ApplyPoll, ApplyWork, ApplyHandle, StopRetryTimers, Remembers;
    match step {
      case Outside(outside) => OutsideRemembers(s, outside, id);
      case Poll(poll) => PollRemembers(s, poll, id);
      case Work(w, work) => WorkRemembers(s, w, work, id);
      case Handle(h, handle) => HandleRemembers(s, h, handle, id);
    }
  }

  lemma OutsideRemembers(s: System, step: OutsideStep, id: string)
    ensures Remembers(s, Outside(step), ApplyOutside(s, step), id)
  {
  }

  lemma UntimelyRemembers(s: System, step: Step, id: string)
    ensures !Timely(s, step) ==> Remembers(s, step, s, id)
  {
  }

  // The tables hold the last configuration, the last marks, and whether the service has
  // ended, whatever the interleaving.
  lemma {:induction false} TablesRemember(cfg: Config, steps: seq<Step>, id: string)
    ensures var s := Exec(Init(cfg), steps);
      && s.t.cfg == LastReload(cfg, steps)
      && MarkOf(s.t, id) == LastMark(Init(cfg), steps, id)
      && (s.t.serviceDone <==> Outside(EndService) in steps)
      && (s.stopped <==> Outside(StopTimers) in steps)
    decreases |steps|
  {
    if steps != [] {
      var front, last := steps[..|steps| - 1], steps[|steps| - 1];
      assert steps == front + [last];
      TablesRemember(cfg, front, id);
      StepRemembers(Exec(Init(cfg), front), last, id);
      hide Apply, Init;
    }
  }

  // --- Shutdown ---

  // Once the service has ended no worker starts any more.
  lemma ShutdownStartsNothing(cfg: Config, steps: seq<Step>, step: Step)
    requires Outside(EndService) in steps
    ensures Started(Exec(Init(cfg), steps), step).None?
  {
    TablesRemember(cfg, steps, "");
    hide Exec, CandidateEligible, ScheduleRetry, ClearRetry, Init, EligibilityOf;
  }

  // And when its timers are stopped, none is armed or recorded.
  lemma StopDisarmsAll(cfg: Config, steps: seq<Step>)
    ensures var q := Apply(Exec(Init(cfg), steps), Outside(StopTimers)).t.retries; q.armed == map[] && q.timers == map[]
  {
    RunsKeepInv(cfg, steps);
    hide FleetInv, NoOrphan, HandlersOnTarget, Exec, Init, TablesAgree, TimersServed;
    var q := Exec(Init(cfg), steps).t.retries;
    forall k | k in q.armed ensures k in q.timers.Values {
      assert q.timers[q.armed[k]] == k;
    }
  }

  // --- Stalls ---

  // What the scan still has ahead.
  function Ahead(poll: PollPc): seq<RunningEntry> {
    match poll
    case PollIdle => []
    case Scanning(rest) => rest
    case Stalling(_, rest) => rest
  }

  predicate Visits(s: System, step: Step) {
    step.Poll? && step.poll.StallNext? && s.poll.Scanning? && s.poll.rest != []
  }

  // The entries the scan has looked at.
  function Visited(s: System, steps: seq<Step>): seq<RunningEntry> {
    if steps == [] then []
    else
      var front := steps[..|steps| - 1];
      var before := Exec(s, front);
      Visited(s, front) + if Visits(before, steps[|steps| - 1]) then [before.poll.rest[0]] else []
  }

  // Those of them that had stalled and had no retry queued.
  function FoundStalled(s: System, steps: seq<Step>): seq<RunningEntry> {
    if steps == [] then []
    else
      var front, last := steps[..|steps| - 1], steps[|steps| - 1];
      var before := Exec(s, front);
      FoundStalled(s, front) +
      if Visits(before, last) && last.poll.stalled && before.poll.rest[0].id !in before.t.retries.attempts
      then [before.poll.rest[0]] else []
  }

  // Those for which the poll loop has queued a first retry.
  function Answered(s: System, steps: seq<Step>): seq<RunningEntry> {
    if steps == [] then []
    else
      var front, last := steps[..|steps| - 1], steps[|steps| - 1];
      var before := Exec(s, front);
      Answered(s, front) +
      if before.poll.Stalling? && QueuesFirst(before, last) then [before.poll.entry] else []
  }

  predicate QueuesFirst(s: System, step: Step) {
    && s.poll.Stalling? && step.Poll? && step.poll.StallSchedule?
    && Apply(s, step).poll == Scanning(s.poll.rest)
    && QueuesFor(s, Apply(s, step).t, s.poll.entry.id, s.poll.entry.identifier, 1, Failure, step.poll.error)
  }

  function Pending(poll: PollPc): seq<RunningEntry> {
    if poll.Stalling? then [poll.entry] else []
  }

  lemma ScheduleQueuesFirst(s: System, step: PollStep)
    requires s.poll.Stalling? && step.StallSchedule? && Timely(s, Poll(step))
    ensures QueuesFirst(s, Poll(step)) && Apply(s, Poll(step)).poll == Scanning(s.poll.rest)
  {
    hide ScheduleRetry, RetryDelay, MaxRetryBackoff, QueuesFor;
    QueuedForSure(s, StalledIssue(s.poll.entry), 1, Failure, step.error, step.dueAt);
  }

  // Only the poll loop moves its scan.
  lemma OthersDoNotScan(s: System, step: Step)
    requires !step.Poll?
    ensures Apply(s, step).poll == s.poll
  {
    hide MoveWorker, MoveHandler, Dispatch, StopRetryTimers;
  }

  lemma ScanMoves(s: System, step: Step)
    requires !s.poll.PollIdle?
    ensures Ahead(s.poll) == IfVisits(s, step) + Ahead(Apply(s, step).poll)
    ensures Pending(s.poll) + IfFound(s, step) == IfAnswers(s, step) + Pending(Apply(s, step).poll)
  {
    if step.Poll? {
      if s.poll.Stalling? {
        StallingMoves(s, step.poll);
      } else {
        ScanningMoves(s, step.poll);
      }
    } else {
      OthersDoNotScan(s, step);
    }
  }

  lemma StallingMoves(s: System, step: PollStep)
    requires s.poll.Stalling?
    ensures Ahead(s.poll) == Ahead(Apply(s, Poll(step)).poll)
    ensures Pending(s.poll) == IfAnswers(s, Poll(step)) + Pending(Apply(s, Poll(step)).poll)
  {
    hide ScheduleRetry, MayDispatch, QueuesFor, DueAt;
    if step.StallSchedule? && Timely(s, Poll(step)) {
      ScheduleQueuesFirst(s, step);
    }
  }

  lemma ScanningMoves(s: System, step: PollStep)
    requires s.poll.Scanning?
    ensures Ahead(s.poll) == IfVisits(s, Poll(step)) + Ahead(Apply(s, Poll(step)).poll)
    ensures IfFound(s, Poll(step)) == Pending(Apply(s, Poll(step)).poll)
  {
    hide ScheduleRetry, MayDispatch, DueAt;
  }

  function IfVisits(s: System, step: Step): seq<RunningEntry> {
    if Visits(s, step) then [s.poll.rest[0]] else []
  }

  function IfFound(s: System, step: Step): seq<RunningEntry> {
    if Visits(s, step) && step.poll.stalled && s.poll.rest[0].id !in s.t.retries.attempts then [s.poll.rest[0]] else []
  }

  function IfAnswers(s: System, step: Step): seq<RunningEntry> {
    if s.poll.Stalling? && QueuesFirst(s, step) then [s.poll.entry] else []
  }

  lemma OneMore(s: System, steps: seq<Step>)
    requires steps != []
    ensures var front, last := steps[..|steps| - 1], steps[|steps| - 1]; var before := Exec(s, front);
      && Visited(s, steps) == Visited(s, front) + IfVisits(before, last)
      && FoundStalled(s, steps) == FoundStalled(s, front) + IfFound(before, last)
      && Answered(s, steps) == Answered(s, front) + IfAnswers(before, last)
  {
    hide Apply, QueuesFirst, Exec, Visits;
  }

  lemma Chains(a: seq<RunningEntry>, v: seq<RunningEntry>, b: seq<RunningEntry>, w: seq<RunningEntry>,
      c: seq<RunningEntry>)
    requires a == v + b && b == w + c
    ensures a == v + w + c
  {
  }

  lemma Swaps(p: seq<RunningEntry>, f: seq<RunningEntry>, a: seq<RunningEntry>, q: seq<RunningEntry>,
      g: seq<RunningEntry>, b: seq<RunningEntry>, r: seq<RunningEntry>)
    requires p + f == a + q && q + g == b + r
    ensures p + (f + g) == a + b + r
  {
    assert p + (f + g) == (p + f) + g == a + (q + g);
  }

  // A scan visits every running entry that there was at its beginning, in order; those it
  // finds stalled without a retry, and no others, get a first retry queued.
  lemma {:induction false} ScanIsComplete(s: System, steps: seq<Step>)
    requires !s.poll.PollIdle? && forall k | 0 <= k < |steps| :: !Exec(s, steps[..k]).poll.PollIdle?
    ensures Ahead(s.poll) == Visited(s, steps) + Ahead(Exec(s, steps).poll)
    ensures Pending(s.poll) + FoundStalled(s, steps) == Answered(s, steps) + Pending(Exec(s, steps).poll)
    decreases |steps|
  {
    if steps != [] {
      var front, last := steps[..|steps| - 1], steps[|steps| - 1];
      var before, after := Exec(s, front), Exec(s, steps);
      forall k | 0 <= k < |front| ensures !Exec(s, front[..k]).poll.PollIdle? {
        assert front[..k] == steps[..k];
      }
      assert steps[..|front|] == front && !before.poll.PollIdle?;
      ExecLast(s, steps);
      hide Apply, Exec, Ahead, Pending, Visited, FoundStalled, Answered, IfVisits, IfFound, IfAnswers;
      ScanIsComplete(s, front);
      ScanMoves(before, last);
      OneMore(s, steps);
      Chains(Ahead(s.poll), Visited(s, front), Ahead(before.poll), IfVisits(before, last), Ahead(after.poll));
      Swaps(Pending(s.poll), FoundStalled(s, front), Answered(s, front), Pending(before.poll), IfFound(before, last),
            IfAnswers(before, last), Pending(after.poll));
    }
  }

  // It begins with all of them, when there is a stall timeout.
  lemma ScanBegins(s: System)
    requires s.poll.PollIdle?
    ensures var r := Apply(s, Poll(StallScan));
      if s.t.cfg.stallTimeout > 0 then !r.poll.PollIdle? && Ahead(r.poll) == s.t.board.running && Pending(r.poll) == []
      else r.poll.PollIdle?
  {
  }
}
