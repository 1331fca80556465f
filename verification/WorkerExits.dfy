/**
 What every return of an issue run leads to, under every interleaving: the retry that is
 queued for it, or the release of its claim.
 */
module WorkerExits {
  import opened Eligibility
  import opened Keyed
  import opened Tables
  import opened Outcomes
  import opened Backoff
  import opened Scheduler
  import opened FleetInvariants

  // What the worker comes upon on its way out: the issue marked for cleanup, cleaned up as
  // terminal, queued for a retry by somebody else, or the service shut down.
  datatype Circumstances = Circumstances(marked: bool, cleaned: bool, queued: bool, down: bool)

  datatype Owed = Retried(attempt: int, reason: RetryReason, error: string) | Freed | Left

  // What a return is owed.
  function OwedFor(c: Circumstances, exit: Exit, attempt: int): Owed {
    if c.marked || c.cleaned then Freed
    else
      match exit
      case Exit(_, Canceled) => if c.queued then Left else Freed
      case Exit(Done, _) => Freed
      case Exit(WaitHuman, _) => Freed
      case Exit(Stopped, _) => Freed
      case Exit(_, Failed(error)) => if c.down then Freed else Retried(attempt + 1, Failure, error)
      case Exit(RetryContinuation, NoFailure) => if c.down then Freed else Retried(1, Continuation, "")
      case Exit(RetryFailure, NoFailure) =>
        if c.down then Freed else Retried(attempt + 1, Failure, "issue flow requested failure retry")
      case Exit(NoOutcome, NoFailure) => Freed
  }

  // What one step of the worker comes upon.
  predicate Meets(c: Circumstances, s: System, w: WorkerId, step: Step) {
    step.Work? && step.w == w && w in s.workers ==>
      match (s.workers[w].pc, step.work)
      case (Uncancelled(_), PopCleanup) => c.marked <==> s.workers[w].issue.id in s.t.pendingCleanup
      case (Unpopped(_), CheckTerminal(cleaned)) => c.cleaned <==> cleaned
      case (Settling(_), Settle) => c.queued <==> s.workers[w].issue.id in s.t.retries.attempts
      case (Deciding(_), Decide) => c.down <==> s.t.serviceDone
      case _ => true
  }

  ghost predicate MeetsAll(c: Circumstances, s: System, w: WorkerId, steps: seq<Step>) {
    forall k | 0 <= k < |steps| :: Meets(c, Exec(s, steps[..k]), w, steps[k])
  }

  // --- Where the worker can be ---

  predicate Concluded(outcome: Outcome) {
    outcome.Done? || outcome.WaitHuman? || outcome.Stopped?
  }

  predicate Heading(c: Circumstances, worker: Worker, exit: Exit) {
    match worker.pc
    case Trunk => false
    case Removed(e) => e == exit
    case Uncancelled(e) => e == exit
    case Unpopped(e) => e == exit && !c.marked
    case Settling(e) => e == exit && !c.marked && !c.cleaned
    case Deciding(e) => e == exit && !c.marked && !c.cleaned && !exit.failure.Canceled? && !Concluded(exit.outcome)
    case Scheduling(attempt, reason, error) => OwedFor(c, exit, worker.attempt) == Retried(attempt, reason, error)
    case Releasing => OwedFor(c, exit, worker.attempt).Freed?
  }

  // The queued entry, due after the delay under the configuration in force, its timer
  // armed, and the claim as it was.
  predicate QueuesFor(s: System, after: Tables, id: string, identifier: string, attempt: int, reason: RetryReason,
      error: string)
  {
    var q := after.retries;
    var dueAt := s.now + RetryDelay(reason, attempt, MaxRetryBackoff(s.t.cfg.maxRetryBackoffMS));
    && id in q.attempts && q.attempts[id] == attempt
    && RetryEntry(id, identifier, attempt, dueAt, error) in q.entries
    && id in q.timers && q.timers[id] in q.armed && q.armed[q.timers[id]] == id
    && after.claimed == s.t.claimed
  }

  // The step that ends the worker gives what is owed.
  predicate Gives(c: Circumstances, s: System, r: System, worker: Worker, exit: Exit) {
    match OwedFor(c, exit, worker.attempt)
    case Retried(attempt, reason, error) =>
      QueuesFor(s, r.t, worker.issue.id, worker.issue.identifier, attempt, reason, error)
    case Freed => r.t.claimed == s.t.claimed - {worker.issue.id} && r.t.retries == s.t.retries
    case Left => r.t == s.t
  }

  // One step of the worker itself.
  lemma OwnStep(c: Circumstances, s: System, w: WorkerId, step: WorkerStep, exit: Exit)
    requires w in s.workers && Heading(c, s.workers[w], exit) && Meets(c, s, w, Work(w, step))
    ensures var r := Apply(s, Work(w, step));
      if w in r.workers
      then Heading(c, r.workers[w], exit) && r.workers[w] == s.workers[w].(pc := r.workers[w].pc)
      else Gives(c, s, r, s.workers[w], exit)
  {
    hide ScheduleRetry, RetryDelay, MaxRetryBackoff, QueuesFor;
    var worker := s.workers[w];
    if worker.pc.Scheduling? {
      hide OwedFor;
      if step.QueueRetry? && Timely(s, Work(w, step)) {
        QueuedForSure(s, worker.issue, worker.pc.nextAttempt, worker.pc.reason, worker.pc.error, step.dueAt);
      }
    } else {
      hide Timely;
      MovesOn(c, s, w, step, exit);
    }
  }

  lemma MovesOn(c: Circumstances, s: System, w: WorkerId, step: WorkerStep, exit: Exit)
    requires w in s.workers && Heading(c, s.workers[w], exit) && !s.workers[w].pc.Scheduling?
    requires Meets(c, s, w, Work(w, step))
    ensures var worker := s.workers[w]; var m := MoveWorker(s.t, s.now, worker, step);
      if m.next.Some? then Heading(c, worker.(pc := m.next.value), exit)
      else
        match OwedFor(c, exit, worker.attempt)
        case Retried(_, _, _) => false
        case Freed => m.t == s.t.(claimed := s.t.claimed - {worker.issue.id})
        case Left => m.t == s.t
  {
  }

  lemma QueuedForSure(s: System, issue: Issue, attempt: int, reason: RetryReason, error: string, dueAt: int)
    requires dueAt == DueAt(s, reason, attempt)
    ensures var after := s.t.(retries := ScheduleRetry(s.t.retries, issue, attempt, error, dueAt));
      QueuesFor(s, after, issue.id, issue.identifier, attempt, reason, error)
  {
    PutFinds(s.t.retries.entries, RetryKey, RetryEntry(issue.id, issue.identifier, attempt, dueAt, error));
  }

  // The steps of others leave the worker where it is, and no worker comes back.
  lemma OthersLeave(s: System, w: WorkerId, step: Step)
    requires w < s.nextWorker && !(w in s.workers && step.Work? && step.w == w)
    ensures w in Apply(s, step).workers <==> w in s.workers
    ensures w in s.workers ==> Apply(s, step).workers[w] == s.workers[w]
    ensures w < Apply(s, step).nextWorker
  {
    hide MoveWorker, MoveHandler, MovePoll, Dispatch, StopRetryTimers;
  }

  // --- Every run ---

  // The worker's k-th step is its last, and gives what is owed.
  ghost predicate EndedAt(c: Circumstances, s: System, w: WorkerId, steps: seq<Step>, k: nat, worker: Worker,
      exit: Exit)
  {
    && k < |steps| && steps[k].Work? && steps[k].w == w
    && Gives(c, Exec(s, steps[..k]), Exec(s, steps[..k + 1]), worker, exit)
  }

  ghost predicate OnItsWay(c: Circumstances, s: System, w: WorkerId, worker: Worker, exit: Exit) {
    w in s.workers && Heading(c, s.workers[w], exit) && s.workers[w] == worker.(pc := s.workers[w].pc)
  }

  lemma OneMoreStep(c: Circumstances, s: System, w: WorkerId, steps: seq<Step>, worker: Worker, exit: Exit)
    requires steps != [] && MeetsAll(c, s, w, steps)
    requires var before := Exec(s, steps[..|steps| - 1]);
      w < before.nextWorker && OnItsWay(c, before, w, worker, exit)
    ensures var r := Exec(s, steps);
      if w in r.workers then OnItsWay(c, r, w, worker, exit) else EndedAt(c, s, w, steps, |steps| - 1, worker, exit)
  {
    var last := steps[|steps| - 1];
    var before := Exec(s, steps[..|steps| - 1]);
    assert steps[..|steps| - 1 + 1] == steps;
    assert Meets(c, before, w, last);
    hide Heading, Gives, Meets, Exec;
    assert Exec(s, steps) == Apply(before, last) by {
      ExecLast(s, steps);
    }
    if last.Work? && last.w == w {
      OwnStep(c, before, w, last.work, exit);
      hide Apply;
      SameGift(c, before, Apply(before, last), before.workers[w], worker, exit);
    } else {
      OthersLeave(before, w, last);
    }
  }

  lemma SameGift(c: Circumstances, s: System, r: System, now: Worker, worker: Worker, exit: Exit)
    requires now == worker.(pc := now.pc)
    ensures Gives(c, s, r, now, exit) == Gives(c, s, r, worker, exit)
  {
  }

  lemma ExecLast(s: System, steps: seq<Step>)
    requires steps != []
    ensures Exec(s, steps) == Apply(Exec(s, steps[..|steps| - 1]), steps[|steps| - 1])
  {
  }

  lemma NextStaysAhead(s: System, w: WorkerId, step: Step)
    requires w < s.nextWorker
    ensures w < Apply(s, step).nextWorker
  {
    hide MoveWorker, MoveHandler, MovePoll, Dispatch, StopRetryTimers;
  }

  lemma {:induction false} LeadsTo(c: Circumstances, s: System, w: WorkerId, steps: seq<Step>, exit: Exit)
    requires w in s.workers && w < s.nextWorker && s.workers[w].pc == Removed(exit) && MeetsAll(c, s, w, steps)
    ensures var r := Exec(s, steps);
      && w < r.nextWorker
      && if w in r.workers then OnItsWay(c, r, w, s.workers[w], exit)
         else exists k: nat :: EndedAt(c, s, w, steps, k, s.workers[w], exit)
    decreases |steps|
  {
    if steps != [] {
      var front, last := steps[..|steps| - 1], steps[|steps| - 1];
      forall k | 0 <= k < |front| ensures Meets(c, Exec(s, front[..k]), w, front[k]) {
        assert front[..k] == steps[..k] && front[k] == steps[k];
      }
      ExecLast(s, steps);
      hide Apply, Heading, Gives, Meets, Exec, OnItsWay, EndedAt;
      LeadsTo(c, s, w, front, exit);
      NextStaysAhead(Exec(s, front), w, last);
      if w in Exec(s, front).workers {
        OneMoreStep(c, s, w, steps, s.workers[w], exit);
      } else {
        OthersLeave(Exec(s, front), w, last);
        var k: nat :| EndedAt(c, s, w, front, k, s.workers[w], exit);
        EndedEarlier(c, s, w, steps, k, s.workers[w], exit);
      }
    }
  }

  lemma EndedEarlier(c: Circumstances, s: System, w: WorkerId, steps: seq<Step>, k: nat, worker: Worker, exit: Exit)
    requires steps != [] && EndedAt(c, s, w, steps[..|steps| - 1], k, worker, exit)
    ensures EndedAt(c, s, w, steps, k, worker, exit)
  {
    hide Gives, Exec;
    var front := steps[..|steps| - 1];
    assert front[..k] == steps[..k] && front[..k + 1] == steps[..k + 1];
  }

  // Whatever the flow returns, and whatever anybody else does meanwhile: the worker is
  // still on its way out, or its last step has given what the return is owed.
  lemma EveryReturnIsAnswered(cfg: Config, before: seq<Step>, w: WorkerId, exit: Exit, c: Circumstances,
      steps: seq<Step>)
    requires w in Exec(Init(cfg), before).workers && Exec(Init(cfg), before).workers[w].pc.Trunk?
    requires MeetsAll(c, Apply(Exec(Init(cfg), before), Work(w, Return(exit))), w, steps)
    ensures var s := Exec(Init(cfg), before); var left := Apply(s, Work(w, Return(exit)));
      if w in Exec(left, steps).workers then OnItsWay(c, Exec(left, steps), w, s.workers[w], exit)
      else exists k: nat :: EndedAt(c, left, w, steps, k, s.workers[w], exit)
  {
    var s := Exec(Init(cfg), before);
    var left := Apply(s, Work(w, Return(exit)));
    RunsKeepInv(cfg, before);
    assert w < s.nextWorker;
    NextStaysAhead(s, w, Work(w, Return(exit)));
    ReturnLeavesTrunk(s, w, exit);
    hide Heading, Exec, Apply, Inv, MeetsAll;
    LeadsTo(c, left, w, steps, exit);
    SameWay(c, Exec(left, steps), w, left.workers[w], s.workers[w], exit);
    SameEnd(c, left, w, steps, left.workers[w], s.workers[w], exit);
  }

  lemma ReturnLeavesTrunk(s: System, w: WorkerId, exit: Exit)
    requires w in s.workers && s.workers[w].pc.Trunk?
    ensures var r := Apply(s, Work(w, Return(exit)));
      w in r.workers && r.workers[w] == s.workers[w].(pc := Removed(exit))
  {
  }

  lemma SameWay(c: Circumstances, s: System, w: WorkerId, now: Worker, worker: Worker, exit: Exit)
    requires now == worker.(pc := now.pc)
    ensures OnItsWay(c, s, w, now, exit) == OnItsWay(c, s, w, worker, exit)
  {
  }

  lemma SameEnd(c: Circumstances, s: System, w: WorkerId, steps: seq<Step>, now: Worker, worker: Worker, exit: Exit)
    requires now == worker.(pc := now.pc)
    ensures forall k: nat :: EndedAt(c, s, w, steps, k, now, exit) <==> EndedAt(c, s, w, steps, k, worker, exit)
  {
    hide Gives, Exec;
    forall k: nat | k < |steps| ensures var a, b := Exec(s, steps[..k]), Exec(s, steps[..k + 1]);
      Gives(c, a, b, now, exit) == Gives(c, a, b, worker, exit)
    {
      SameGift(c, Exec(s, steps[..k]), Exec(s, steps[..k + 1]), now, worker, exit);
    }
  }

  // How many steps of its own the worker has left at most.
  function StepsLeft(pc: WorkerPc): nat {
    match pc
    case Trunk => 7
    case Removed(_) => 6
    case Uncancelled(_) => 5
    case Unpopped(_) => 4
    case Settling(_) => 3
    case Deciding(_) => 2
    case _ => 1
  }

  // And it is never stuck: whatever the others do, its own next step brings it nearer.
  lemma NeverStuck(s: System, w: WorkerId)
    requires w in s.workers
    ensures exists step: WorkerStep :: var r := Apply(s, Work(w, step));
      w in r.workers ==> StepsLeft(r.workers[w].pc) < StepsLeft(s.workers[w].pc)
  {
    hide RetryDelay, MaxRetryBackoff, ScheduleRetry, RemoveRunning;
    var pc := s.workers[w].pc;
    var step := match pc
      case Trunk => Return(Exit(Done, NoFailure))
      case Removed(_) => Uncancel
      case Uncancelled(_) => PopCleanup
      case Unpopped(_) => CheckTerminal(false)
      case Settling(_) => Settle
      case Deciding(_) => Decide
      case Scheduling(attempt, reason, _) => QueueRetry(DueAt(s, reason, attempt))
      case Releasing => ReleaseClaim;
    var r := Apply(s, Work(w, step));
    assert w in r.workers ==> StepsLeft(r.workers[w].pc) < StepsLeft(pc);
  }
}
