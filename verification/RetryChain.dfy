/**
 One issue's chain of failures: how the attempt number travels from a worker to the
 queued retry, through the retry handler and into the next worker.
 */
module RetryChain {
  import opened Wrappers
  import opened Eligibility
  import opened Tables
  import opened Scheduler
  import opened RetryInvariants
  import opened FleetInvariants
  import opened Backoff

  // A worker that may still queue a retry.
  predicate Outstanding(ws: Workers, w: WorkerId, id: string) {
    w in ws && ws[w].issue.id == id && !ws[w].pc.Releasing?
  }

  // A timer that is armed, or whose handler has not given up.
  predicate Flying(q: Retries, hs: Handlers, k: TimerId, id: string) {
    Armed(q, k, id) || Acting(hs, k, id)
  }

  predicate Carries(pc: HandlerPc, n: int) {
    match pc
    case Dispatching(_, attempt) => attempt == n
    case Rescheduling(_, attempt, _) => attempt == n + 1
    case _ => true
  }

  // A failure raises the attempt number, a continuation starts it anew.
  function NextAttempt(n: int, reason: RetryReason): int {
    if reason.Failure? then n + 1 else 1
  }

  predicate Schedules(pc: WorkerPc, n: int) {
    pc.Scheduling? ==> pc.nextAttempt == NextAttempt(n, pc.reason)
  }

  // At most one worker or one timer answers for the issue, and the attempt number it
  // has, wherever it is, is n.
  ghost predicate Chain(q: Retries, hs: Handlers, ws: Workers, id: string, n: int) {
    && (forall v, w | Outstanding(ws, v, id) && Outstanding(ws, w, id) :: v == w)
    && (forall j, k | Flying(q, hs, j, id) && Flying(q, hs, k, id) :: j == k)
    && (forall w | Outstanding(ws, w, id) ::
          id !in q.attempts && ws[w].attempt == n && Schedules(ws[w].pc, n))
    && (id in q.attempts ==> q.attempts[id] == n)
    && (forall k | Flying(q, hs, k, id) :: id in q.attempts)
    && (forall k | Acting(hs, k, id) :: Carries(hs[k].pc, n))
  }

  ghost predicate ChainAt(s: System, id: string, n: int) {
    Chain(s.t.retries, s.handlers, s.workers, id, n)
  }

  // The reason and the attempt number with which an actor queues a retry for the issue.
  function Queues(s: System, step: Step, id: string): Option<(RetryReason, int)> {
    match step
    case Work(w, QueueRetry(_)) =>
      if w in s.workers && s.workers[w].issue.id == id && s.workers[w].pc.Scheduling?
      then Some((s.workers[w].pc.reason, s.workers[w].pc.nextAttempt)) else None
    case Handle(h, Requeue(_)) =>
      if h in s.handlers && s.handlers[h].id == id && s.handlers[h].pc.Rescheduling?
      then Some((Failure, s.handlers[h].pc.attempt)) else None
    case Poll(StallSchedule(_, _)) =>
      if s.poll.Stalling? && s.poll.entry.id == id then Some((Failure, 1)) else None
    case _ => None
  }

  // Steps that let somebody else answer for the issue: a stall and a dispatch by the poll.
  predicate Resets(s: System, step: Step, id: string) {
    match step
    case Poll(poll) =>
      || (s.poll.Stalling? && poll.StallSchedule? && s.poll.entry.id == id)
      || (var start := MovePoll(s.t, s.poll, poll).start; start.Some? && start.value.0.id == id)
    case _ => false
  }

  function After(n: int, queued: Option<(RetryReason, int)>): int {
    if queued.Some? then queued.value.1 else n
  }

  predicate Follows(n: int, queued: Option<(RetryReason, int)>) {
    queued.Some? ==> queued.value.1 == NextAttempt(n, queued.value.0)
  }

  // What happens elsewhere, or only ends something here, keeps the chain.
  lemma Elsewhere(q: Retries, hs: Handlers, ws: Workers, q': Retries, hs': Handlers, ws': Workers, id: string, n: int)
    requires Chain(q, hs, ws, id, n)
    requires (id in q'.attempts <==> id in q.attempts) && (id in q.attempts ==> q'.attempts[id] == q.attempts[id])
    requires forall k | Armed(q', k, id) :: Flying(q, hs, k, id)
    requires forall k | Acting(hs', k, id) :: Flying(q, hs, k, id) && Carries(hs'[k].pc, n)
    requires forall w | Outstanding(ws', w, id) :: Outstanding(ws, w, id) && ws'[w] == ws[w]
    ensures Chain(q', hs', ws', id, n)
  {
    forall k | Flying(q', hs', k, id) ensures Flying(q, hs, k, id) {
    }
  }

  lemma OutsideKeepsChain(s: System, step: OutsideStep, id: string, n: int)
    requires Inv(s) && ChainAt(s, id, n)
    ensures ChainAt(ApplyOutside(s, step), id, n)
  {
    hide FleetInv, NoOrphan, HandlersOnTarget;
    var r := ApplyOutside(s, step);
    forall k | Acting(r.handlers, k, id)
      ensures Flying(s.t.retries, s.handlers, k, id) && Carries(r.handlers[k].pc, n)
    {
      if step.Fire? && step.timer == k && k in s.t.retries.armed {
        assert Armed(s.t.retries, k, id);
      } else {
        assert Acting(s.handlers, k, id);
      }
    }
    assert forall k | Armed(r.t.retries, k, id) :: Armed(s.t.retries, k, id);
    Elsewhere(s.t.retries, s.handlers, s.workers, r.t.retries, r.handlers, r.workers, id, n);
  }

  // Queueing and clearing for one issue leave every other's timers as they are, or stopped.
  lemma OtherRetries(q: Retries, issue: Issue, attempt: int, error: string, dueAt: int, id: string)
    requires issue.id != id
    ensures var r := ScheduleRetry(q, issue, attempt, error, dueAt);
      && (id in r.attempts <==> id in q.attempts) && (id in q.attempts ==> r.attempts[id] == q.attempts[id])
      && forall k | Armed(r, k, id) :: Armed(q, k, id)
    ensures var r := ClearRetry(q, issue.id);
      && (id in r.attempts <==> id in q.attempts) && (id in q.attempts ==> r.attempts[id] == q.attempts[id])
      && forall k | Armed(r, k, id) :: Armed(q, k, id)
  {
  }

  // A retry queued where nothing else answers for the issue any more.
  lemma QueuedAlone(q: Retries, hs: Handlers, ws: Workers, issue: Issue, attempt: int, error: string, dueAt: int)
    requires TablesAgree(q) && TimersRecorded(q, hs)
    requires forall k :: !Armed(q, k, issue.id)
    requires forall k :: !Acting(hs, k, issue.id)
    requires forall w :: !Outstanding(ws, w, issue.id)
    ensures Chain(ScheduleRetry(q, issue, attempt, error, dueAt), hs, ws, issue.id, attempt)
  {
    var r := ScheduleRetry(q, issue, attempt, error, dueAt);
    forall k ensures Flying(r, hs, k, issue.id) ==> k == q.nextTimer {
      assert !Armed(q, k, issue.id) && !Acting(hs, k, issue.id);
    }
  }

  // The issue's own worker queues its retry and is done.
  lemma QueuesOwn(s: System, w: WorkerId, step: WorkerStep, id: string, n: int)
    requires Heap(s.t.retries, s.handlers) && ChainAt(s, id, n) && w in s.workers && s.workers[w].issue.id == id
    requires s.workers[w].pc.Scheduling? && step.QueueRetry?
    ensures var next := s.workers[w].pc.nextAttempt;
      next == NextAttempt(n, s.workers[w].pc.reason) && ChainAt(ApplyWork(s, w, step), id, next)
  {
    hide ScheduleRetry, TablesAgree, TimersServed, InTrunk;
    var r, worker := ApplyWork(s, w, step), s.workers[w];
    assert Outstanding(s.workers, w, id);
    forall k ensures !Armed(s.t.retries, k, id) && !Acting(s.handlers, k, id) {
      assert !Flying(s.t.retries, s.handlers, k, id);
    }
    forall v ensures !Outstanding(r.workers, v, id) {
      assert Outstanding(r.workers, v, id) ==> Outstanding(s.workers, v, id);
    }
    hide Chain;
    QueuedAlone(s.t.retries, s.handlers, r.workers, worker.issue, worker.pc.nextAttempt, worker.pc.error, step.dueAt);
  }

  lemma WorkKeepsChain(s: System, w: WorkerId, step: WorkerStep, id: string, n: int)
    requires Inv(s) && ChainAt(s, id, n)
    ensures var queued := Queues(s, Work(w, step), id);
      && Follows(n, queued)
      && ChainAt(ApplyWork(s, w, step), id, After(n, queued))
  {
    hide FleetInv, NoOrphan, HandlersOnTarget, Chain, Heap;
    if w in s.workers {
      var r, worker := ApplyWork(s, w, step), s.workers[w];
      if worker.pc.Scheduling? && step.QueueRetry? {
        if worker.issue.id == id {
          QueuesOwn(s, w, step, id, n);
        } else {
          OtherRetries(s.t.retries, worker.issue, worker.pc.nextAttempt, worker.pc.error, step.dueAt, id);
          forall k | Acting(s.handlers, k, id) ensures Carries(s.handlers[k].pc, n) {
            CarriesOwn(s, k, id, n);
          }
          Elsewhere(s.t.retries, s.handlers, s.workers, r.t.retries, r.handlers, r.workers, id, n);
        }
      } else {
        MoveWorkerRetries(s.t, s.now, worker, step);
        WorkerMovesOn(s, w, step, id, n);
      }
    }
  }

  // A worker that goes on keeps its attempt, or turns it into the next one to queue.
  lemma WorkerMovesOn(s: System, w: WorkerId, step: WorkerStep, id: string, n: int)
    requires ChainAt(s, id, n) && w in s.workers
    requires !(s.workers[w].pc.Scheduling? && step.QueueRetry?)
    requires ApplyWork(s, w, step).t.retries == s.t.retries
    ensures ChainAt(ApplyWork(s, w, step), id, n)
  {
    var r, worker := ApplyWork(s, w, step), s.workers[w];
    forall v | Outstanding(r.workers, v, id)
      ensures Outstanding(s.workers, v, id)
      ensures r.workers[v].attempt == n && Schedules(r.workers[v].pc, n)
    {
      if v == w {
        WorkerPcMoves(s.t, s.now, worker, step);
        assert Outstanding(s.workers, v, id);
      }
    }
    forall k | Flying(r.t.retries, r.handlers, k, id) ensures Flying(s.t.retries, s.handlers, k, id) {
    }
  }

  lemma WorkerPcMoves(t: Tables, now: int, worker: Worker, step: WorkerStep)
    requires MoveWorker(t, now, worker, step).next.Some?
    ensures var pc := MoveWorker(t, now, worker, step).next.value;
      && (worker.pc.Releasing? ==> pc.Releasing?)
      && (pc.Scheduling? ==> pc == worker.pc || pc.nextAttempt == NextAttempt(worker.attempt, pc.reason))
  {
  }

  // A dispatch of another issue touches nothing here.
  lemma StartElsewhere(s: System, issue: Issue, attempt: int, id: string, n: int)
    requires ChainAt(s, id, n) && issue.id != id
    ensures ChainAt(StartWorker(s, Some((issue, attempt))), id, n)
  {
    hide SetStage, ScheduleRetry;
    var r := StartWorker(s, Some((issue, attempt)));
    OtherRetries(s.t.retries, issue, attempt, "", 0, id);
    assert r.t.retries == ClearRetry(s.t.retries, issue.id);
    Elsewhere(s.t.retries, s.handlers, s.workers, r.t.retries, r.handlers, r.workers, id, n);
  }

  lemma PollKeepsChain(s: System, step: PollStep, id: string, n: int)
    requires Inv(s) && ChainAt(s, id, n) && !Resets(s, Poll(step), id)
    ensures ChainAt(ApplyPoll(s, step), id, n)
  {
    hide FleetInv, NoOrphan, HandlersOnTarget, RetryInv, Chain;
    var m := MovePoll(s.t, s.poll, step);
    if m.start.Some? {
      StartElsewhere(s.(t := m.t, poll := m.poll), m.start.value.0, m.start.value.1, id, n);
    } else if s.poll.Stalling? && step.StallSchedule? {
      var issue, r := StalledIssue(s.poll.entry), ApplyPoll(s, step);
      OtherRetries(s.t.retries, issue, 1, step.error, step.dueAt, id);
      ChainElsewhere(s, r, id, n);
    } else {
      assert m.t.retries == s.t.retries;
    }
  }

  lemma ChainElsewhere(s: System, r: System, id: string, n: int)
    requires ChainAt(s, id, n) && r.handlers == s.handlers && r.workers == s.workers
    requires id in r.t.retries.attempts <==> id in s.t.retries.attempts
    requires id in s.t.retries.attempts ==> r.t.retries.attempts[id] == s.t.retries.attempts[id]
    requires forall k | Armed(r.t.retries, k, id) :: Armed(s.t.retries, k, id)
    ensures ChainAt(r, id, n)
  {
    Elsewhere(s.t.retries, s.handlers, s.workers, r.t.retries, r.handlers, r.workers, id, n);
  }

  // --- A retry handler ---

  function HandlersAfter(s: System, h: TimerId, step: HandlerStep): Handlers
    requires h in s.handlers
  {
    var m := MoveHandler(s.t, s.handlers[h], step);
    if m.next.Some? then s.handlers[h := s.handlers[h].(pc := m.next.value)] else s.handlers - {h}
  }

  // A handler for another issue.
  lemma OtherHandler(s: System, h: TimerId, step: HandlerStep, id: string, n: int)
    requires Inv(s) && ChainAt(s, id, n) && h in s.handlers && s.handlers[h].id != id
    ensures ChainAt(ApplyHandle(s, h, step), id, n)
  {
    hide FleetInv, NoOrphan, RetryInv, NextPc, MayDispatch, Chain;
    var m := MoveHandler(s.t, s.handlers[h], step);
    var hs := HandlersAfter(s, h, step);
    var mid := s.(t := s.t.(retries := m.retries, claimed := m.claimed), handlers := hs);
    assert OnTarget(s.handlers[h]);
    var pc := s.handlers[h].pc;
    var issue := Issue(s.handlers[h].id, "", "", "", None, None, None, None);
    if pc.Rescheduling? && step.Requeue? {
      OtherRetries(s.t.retries, pc.issue, pc.attempt, pc.error, step.dueAt, id);
    } else {
      OtherRetries(s.t.retries, issue, 0, "", 0, id);
    }
    ActingElsewhere(s, h, step, id, n);
    Elsewhere(s.t.retries, s.handlers, s.workers, m.retries, hs, s.workers, id, n);
    if m.start.Some? {
      StartElsewhere(mid, m.start.value.0, m.start.value.1, id, n);
    }
  }

  lemma ActingElsewhere(s: System, h: TimerId, step: HandlerStep, id: string, n: int)
    requires ChainAt(s, id, n) && h in s.handlers && s.handlers[h].id != id
    ensures forall k | Acting(HandlersAfter(s, h, step), k, id) ::
      Flying(s.t.retries, s.handlers, k, id) && Carries(HandlersAfter(s, h, step)[k].pc, n)
  {
    hide MoveHandler;
    forall k | Acting(HandlersAfter(s, h, step), k, id) ensures Acting(s.handlers, k, id) {
    }
  }

  // The issue's own handler has nothing beside it.
  lemma AloneWith(s: System, h: TimerId, id: string, n: int)
    requires ChainAt(s, id, n) && TimersRecorded(s.t.retries, s.handlers) && Acting(s.handlers, h, id)
    ensures id in s.t.retries.attempts && s.t.retries.attempts[id] == n
    ensures forall w :: !Outstanding(s.workers, w, id)
    ensures forall k :: !Armed(s.t.retries, k, id)
    ensures forall k :: k != h ==> !Acting(s.handlers, k, id)
  {
    assert Flying(s.t.retries, s.handlers, h, id);
    forall k ensures !Armed(s.t.retries, k, id) && (k != h ==> !Acting(s.handlers, k, id)) {
      assert Flying(s.t.retries, s.handlers, k, id) ==> k == h;
    }
  }

  // The number the handler carries on, from the tables as they are.
  lemma CarriesOn(s: System, h: TimerId, step: HandlerStep, n: int)
    requires h in s.handlers && OnTarget(s.handlers[h]) && TablesAgree(s.t.retries)
    requires var id := s.handlers[h].id; id in s.t.retries.attempts && s.t.retries.attempts[id] == n
    requires Carries(s.handlers[h].pc, n)
    ensures var m := MoveHandler(s.t, s.handlers[h], step);
      && (m.next.Some? ==> Carries(m.next.value, n))
      && (m.start.Some? ==> m.start.value.1 == n && m.start.value.0.id == s.handlers[h].id)
  {
    hide MayDispatch, Judged;
    RetryFound(s.t.retries, s.handlers[h].id);
    var pc := s.handlers[h].pc;
    if pc.Recalling? && step.Recall? {
      var q := s.t.retries;
      var i := Keyed.Find(q.entries, RetryKey, s.handlers[h].id);
      if i < |q.entries| {
        assert q.entries[i] in q.entries;
      }
    }
    JudgedCarries(s.t, pc, n);
  }

  lemma JudgedCarries(t: Tables, pc: HandlerPc, n: int)
    ensures pc.Judging? ==> Carries(Judged(t, pc.issue), n)
  {
  }

  lemma OwnHandler(s: System, h: TimerId, step: HandlerStep, id: string, n: int)
    requires Inv(s) && ChainAt(s, id, n) && Acting(s.handlers, h, id)
    ensures var queued := Queues(s, Handle(h, step), id);
      && Follows(n, queued)
      && ChainAt(ApplyHandle(s, h, step), id, After(n, queued))
  {
    hide FleetInv, NoOrphan, MoveHandler, Carries, ChainAt, TablesAgree;
    hide TimersServed, TimersRecorded, ApplyHandle, OnTarget;
    AloneWith(s, h, id, n);
    assert OnTarget(s.handlers[h]);
    CarriesOwn(s, h, id, n);
    CarriesOn(s, h, step, n);
    OnlyItself(s, h, step, id);
    var pc := s.handlers[h].pc;
    if pc.Rescheduling? && step.Requeue? {
      RequeuedAlone(s, h, step, id, n);
    } else if MoveHandler(s.t, s.handlers[h], step).start.Some? {
      DispatchedAlone(s, h, step, id, n);
    } else {
      StaysAlone(s, h, step, id, n);
    }
  }

  lemma CarriesOwn(s: System, h: TimerId, id: string, n: int)
    requires ChainAt(s, id, n) && Acting(s.handlers, h, id)
    ensures Carries(s.handlers[h].pc, n)
  {
  }

  lemma OnlyItself(s: System, h: TimerId, step: HandlerStep, id: string)
    requires h in s.handlers && forall k :: k != h ==> !Acting(s.handlers, k, id)
    ensures forall k | Acting(HandlersAfter(s, h, step), k, id) :: k == h
  {
    hide MoveHandler;
    forall k | Acting(HandlersAfter(s, h, step), k, id) && k != h ensures Acting(s.handlers, k, id) {
    }
  }

  lemma RequeuedAlone(s: System, h: TimerId, step: HandlerStep, id: string, n: int)
    requires Heap(s.t.retries, s.handlers) && Acting(s.handlers, h, id) && OnTarget(s.handlers[h])
    requires s.handlers[h].pc.Rescheduling? && step.Requeue? && Carries(s.handlers[h].pc, n)
    requires forall w :: !Outstanding(s.workers, w, id)
    requires forall k :: !Armed(s.t.retries, k, id)
    requires forall k | Acting(HandlersAfter(s, h, step), k, id) :: k == h
    ensures s.handlers[h].pc.attempt == n + 1 && ChainAt(ApplyHandle(s, h, step), id, n + 1)
  {
    hide ScheduleRetry, ClearRetry, TablesAgree, TimersServed, MayDispatch, NextPc;
    var pc, hs := s.handlers[h].pc, HandlersAfter(s, h, step);
    assert hs == s.handlers - {h};
    forall k ensures !Acting(hs, k, id) {
    }
    hide Chain;
    QueuedAlone(s.t.retries, hs, s.workers, pc.issue, n + 1, pc.error, step.dueAt);
  }

  lemma DispatchedAlone(s: System, h: TimerId, step: HandlerStep, id: string, n: int)
    requires h in s.handlers && s.handlers[h].id == id
    requires var m := MoveHandler(s.t, s.handlers[h], step);
      m.start.Some? && m.start.value.1 == n && m.start.value.0.id == id
    requires forall w :: !Outstanding(s.workers, w, id)
    requires forall k :: !Armed(s.t.retries, k, id)
    requires forall k | Acting(HandlersAfter(s, h, step), k, id) :: k == h
    ensures ChainAt(ApplyHandle(s, h, step), id, n)
  {
    hide Chain, MayDispatch, NextPc;
    var m := MoveHandler(s.t, s.handlers[h], step);
    var hs := HandlersAfter(s, h, step);
    forall k ensures !Acting(hs, k, id) {
    }
    StartedAlone(s, m, hs, id, n);
  }

  // The handler dispatches: the worker takes the number over.
  lemma StartedAlone(s: System, m: HandlerMove, hs: Handlers, id: string, n: int)
    requires m.start.Some? && m.start.value.0.id == id && m.start.value.1 == n && m.retries == s.t.retries
    requires forall w :: !Outstanding(s.workers, w, id)
    requires forall k :: !Armed(s.t.retries, k, id)
    requires forall k :: !Acting(hs, k, id)
    ensures var r := s.(t := s.t.(retries := m.retries, claimed := m.claimed), handlers := hs);
      ChainAt(StartWorker(r, m.start), id, n)
  {
    hide SetStage, MayDispatch;
    var r := StartWorker(s.(t := s.t.(retries := m.retries, claimed := m.claimed), handlers := hs), m.start);
    forall w ensures Outstanding(r.workers, w, id) ==> w == s.nextWorker {
      assert !Outstanding(s.workers, w, id);
    }
    forall k ensures !Flying(r.t.retries, r.handlers, k, id) {
      assert !Armed(s.t.retries, k, id) && !Acting(hs, k, id);
    }
  }

  // The handler goes on, gives up, or returns.
  lemma StaysAlone(s: System, h: TimerId, step: HandlerStep, id: string, n: int)
    requires Heap(s.t.retries, s.handlers) && ChainAt(s, id, n) && Acting(s.handlers, h, id) && OnTarget(s.handlers[h])
    requires forall w :: !Outstanding(s.workers, w, id)
    requires forall k :: !Armed(s.t.retries, k, id)
    requires forall k | Acting(HandlersAfter(s, h, step), k, id) :: k == h
    requires var m := MoveHandler(s.t, s.handlers[h], step);
      m.start.None? && (m.next.Some? ==> Carries(m.next.value, n))
    requires !(s.handlers[h].pc.Rescheduling? && step.Requeue?)
    ensures ChainAt(ApplyHandle(s, h, step), id, n)
  {
    hide NextPc, MayDispatch, Carries;
    var m := MoveHandler(s.t, s.handlers[h], step);
    var hs := HandlersAfter(s, h, step);
    forall k ensures Flying(m.retries, hs, k, id) ==> k == h && id in m.retries.attempts {
      assert !Armed(s.t.retries, k, id);
      assert Flying(s.t.retries, s.handlers, h, id);
    }
  }

  // A handler that has given up no longer counts.
  lemma FreeingHandler(s: System, h: TimerId, step: HandlerStep, id: string, n: int)
    requires ChainAt(s, id, n) && h in s.handlers && s.handlers[h].id == id && s.handlers[h].pc.Freeing?
    ensures ChainAt(ApplyHandle(s, h, step), id, n)
  {
    var r := ApplyHandle(s, h, step);
    assert r.t.retries == s.t.retries && r.workers == s.workers;
    forall k | Acting(r.handlers, k, id) ensures Acting(s.handlers, k, id) && r.handlers[k] == s.handlers[k] {
    }
    Elsewhere(s.t.retries, s.handlers, s.workers, r.t.retries, r.handlers, r.workers, id, n);
  }

  lemma StepKeepsChain(s: System, step: Step, id: string, n: int)
    requires Inv(s) && ChainAt(s, id, n) && !Resets(s, step, id)
    ensures var queued := if Timely(s, step) then Queues(s, step, id) else None;
      && Follows(n, queued)
      && ChainAt(Apply(s, step), id, After(n, queued))
  {
    if Timely(s, step) {
      ActorKeepsChain(s, step, id, n);
    }
  }

  lemma ActorKeepsChain(s: System, step: Step, id: string, n: int)
    requires Inv(s) && ChainAt(s, id, n) && !Resets(s, step, id)
    ensures var queued := Queues(s, step, id);
      && Follows(n, queued)
      && ChainAt(Take(s, step), id, After(n, queued))
  {
    hide ApplyOutside, ApplyPoll, ApplyWork, ApplyHandle, Inv, Chain;
    match step {
      case Outside(outside) => OutsideKeepsChain(s, outside, id, n);
      case Poll(poll) => PollKeepsChain(s, poll, id, n);
      case Work(w, work) => WorkKeepsChain(s, w, work, id, n);
      case Handle(h, handle) =>
        if Acting(s.handlers, h, id) {
          OwnHandler(s, h, handle, id, n);
        } else if h in s.handlers && s.handlers[h].id != id {
          OtherHandler(s, h, handle, id, n);
        } else if h in s.handlers {
          FreeingHandler(s, h, handle, id, n);
        } else {
          NoHandler(s, h, handle);
        }
    }
  }

  lemma NoHandler(s: System, h: TimerId, step: HandlerStep)
    requires h !in s.handlers
    ensures ApplyHandle(s, h, step) == s
  {
  }

  // --- The queued entry ---

  // A retry as it was queued: its entry in the tables, the clock, and the cap in force.
  datatype QueuedRetry = QueuedRetry(reason: RetryReason, entry: RetryEntry, at: int, cap: int)

  function QueuedBy(s: System, step: Step, id: string): Option<QueuedRetry> {
    var entries := Apply(s, step).t.retries.entries;
    var i := Keyed.Find(entries, RetryKey, id);
    var queues := Queues(s, step, id);
    if Timely(s, step) && queues.Some? && i < |entries|
    then Some(QueuedRetry(queues.value.0, entries[i], s.now, MaxRetryBackoff(s.t.cfg.maxRetryBackoffMS)))
    else None
  }

  predicate DueAfterDelay(r: QueuedRetry) {
    r.entry.dueAt == r.at + RetryDelay(r.reason, r.entry.attempt, r.cap)
  }

  // Whoever queues a retry, its entry has the attempt, and is due after its delay.
  lemma QueuedIsDue(s: System, step: Step, id: string)
    requires HandlersOnTarget(s.handlers)
    ensures var queued := if Timely(s, step) then Queues(s, step, id) else None;
      && (queued.Some? <==> QueuedBy(s, step, id).Some?)
      && (queued.Some? ==>
            var r := QueuedBy(s, step, id).value;
            r.entry.id == id && (r.reason, r.entry.attempt) == queued.value && DueAfterDelay(r))
  {
    hide RetryDelay, MaxRetryBackoff, ScheduleRetry, ClearRetry, MayDispatch;
    if Timely(s, step) && Queues(s, step, id).Some? {
      match step {
        case Work(w, work) =>
          var pc := s.workers[w].pc;
          ScheduledEntry(s.t.retries, s.workers[w].issue, pc.nextAttempt, pc.error, work.dueAt);
        case Handle(h, handle) =>
          assert OnTarget(s.handlers[h]);
          var pc := s.handlers[h].pc;
          ScheduledEntry(s.t.retries, pc.issue, pc.attempt, pc.error, handle.dueAt);
        case Poll(poll) =>
          ScheduledEntry(s.t.retries, StalledIssue(s.poll.entry), 1, poll.error, poll.dueAt);
      }
    }
  }

  lemma ScheduledEntry(q: Retries, issue: Issue, attempt: int, error: string, dueAt: int)
    ensures var entries := ScheduleRetry(q, issue, attempt, error, dueAt).entries;
      var i := Keyed.Find(entries, RetryKey, issue.id);
      i < |entries| && entries[i] == RetryEntry(issue.id, issue.identifier, attempt, dueAt, error)
  {
    Keyed.PutFinds(q.entries, RetryKey, RetryEntry(issue.id, issue.identifier, attempt, dueAt, error));
  }

  // --- Runs ---

  // The retries queued for the issue, in order.
  function Queued(s: System, steps: seq<Step>, id: string): seq<QueuedRetry> {
    if steps == [] then []
    else
      var front := steps[..|steps| - 1];
      var queued := QueuedBy(Exec(s, front), steps[|steps| - 1], id);
      Queued(s, front, id) + if queued.Some? then [queued.value] else []
  }

  ghost predicate Unreset(s: System, steps: seq<Step>, id: string) {
    forall k | 0 <= k < |steps| :: !Resets(Exec(s, steps[..k]), steps[k], id)
  }

  lemma UnresetBefore(s: System, steps: seq<Step>, id: string)
    requires Unreset(s, steps, id) && steps != []
    ensures Unreset(s, steps[..|steps| - 1], id)
    ensures !Resets(Exec(s, steps[..|steps| - 1]), steps[|steps| - 1], id)
  {
    hide Resets, Exec;
    var front := steps[..|steps| - 1];
    assert !Resets(Exec(s, steps[..|front|]), steps[|front|], id);
    forall k | 0 <= k < |front| ensures !Resets(Exec(s, front[..k]), front[k], id) {
      assert front[..k] == steps[..k] && !Resets(Exec(s, steps[..k]), steps[k], id);
    }
  }

  lemma InvOnTarget(s: System)
    requires Inv(s)
    ensures HandlersOnTarget(s.handlers)
  {
  }

  // The attempt number before the k-th retry is queued, beginning with n.
  function Before(n: int, queued: seq<QueuedRetry>, k: nat): int
    requires k <= |queued|
  {
    if k == 0 then n else queued[k - 1].entry.attempt
  }

  // Each entry has the number that follows the one before it, and is due after its delay.
  ghost predicate CountsOn(n: int, queued: seq<QueuedRetry>) {
    forall k | 0 <= k < |queued| ::
      queued[k].entry.attempt == NextAttempt(Before(n, queued, k), queued[k].reason) && DueAfterDelay(queued[k])
  }

  lemma CountsOnWith(n: int, queued: seq<QueuedRetry>, r: QueuedRetry)
    requires CountsOn(n, queued) && DueAfterDelay(r)
    requires r.entry.attempt == NextAttempt(Before(n, queued, |queued|), r.reason)
    ensures CountsOn(n, queued + [r])
  {
    var all := queued + [r];
    forall k | 0 <= k < |all|
      ensures all[k].entry.attempt == NextAttempt(Before(n, all, k), all[k].reason) && DueAfterDelay(all[k])
    {
      assert Before(n, all, k) == Before(n, queued, k);
    }
  }

  // While one worker or timer answers for the issue, its retries count on, through
  // failures and continuations, under every interleaving.
  lemma {:induction false} ChainCountsOn(s: System, steps: seq<Step>, id: string, n: int)
    requires Inv(s) && ChainAt(s, id, n) && Unreset(s, steps, id)
    ensures var queued := Queued(s, steps, id);
      && Inv(Exec(s, steps)) && ChainAt(Exec(s, steps), id, Before(n, queued, |queued|)) && CountsOn(n, queued)
    decreases |steps|
  {
    hide Inv, ChainAt, HandlersOnTarget, Resets, Queues, QueuedBy, DueAfterDelay, CountsOn, Timely, Apply, Unreset;
    if steps == [] {
      assert CountsOn(n, []) by {
        NothingCountsOn(n);
      }
    } else {
      var front, last := steps[..|steps| - 1], steps[|steps| - 1];
      var queued := Queued(s, front, id);
      UnresetBefore(s, steps, id);
      ChainCountsOn(s, front, id, n);
      StepKeepsInv(Exec(s, front), last);
      InvOnTarget(Exec(s, front));
      QueuedIsDue(Exec(s, front), last, id);
      StepKeepsChain(Exec(s, front), last, id, Before(n, queued, |queued|));
      var one := QueuedBy(Exec(s, front), last, id);
      if one.Some? {
        CountsOnWith(n, queued, one.value);
      } else {
        assert queued + [] == queued;
      }
    }
  }

  lemma NothingCountsOn(n: int)
    ensures CountsOn(n, [])
  {
  }

  // --- Failures in a row ---

  function Waits(r: QueuedRetry): int {
    r.entry.dueAt - r.at
  }

  ghost predicate Failures(queued: seq<QueuedRetry>, i: nat, j: nat)
    requires i <= j <= |queued|
  {
    forall k | i <= k < j :: queued[k].reason.Failure?
  }

  // From one retry to a later one with nothing but failures in between.
  lemma {:induction false} FailuresRaise(n: int, queued: seq<QueuedRetry>, i: nat, j: nat)
    requires CountsOn(n, queued) && i <= j <= |queued| && Failures(queued, i, j)
    ensures Before(n, queued, j) == Before(n, queued, i) + (j - i)
    decreases j - i
  {
    if i < j {
      FailureRaises(n, queued, j - 1);
      hide CountsOn, Before;
      FailuresRaise(n, queued, i, j - 1);
    }
  }

  lemma FailureRaises(n: int, queued: seq<QueuedRetry>, k: nat)
    requires CountsOn(n, queued) && k < |queued| && queued[k].reason.Failure?
    ensures Before(n, queued, k + 1) == Before(n, queued, k) + 1
  {
    hide DueAfterDelay;
  }

  lemma WaitIsDelay(n: int, queued: seq<QueuedRetry>, k: nat)
    requires CountsOn(n, queued) && k < |queued|
    ensures Waits(queued[k]) == RetryDelay(queued[k].reason, queued[k].entry.attempt, queued[k].cap)
    ensures queued[k].entry.attempt == NextAttempt(Before(n, queued, k), queued[k].reason)
  {
    hide RetryDelay;
    assert DueAfterDelay(queued[k]);
  }

  // So up to the thirtieth attempt the delays are the ideal ones, and do not shrink
  // unless the cap is lowered.
  lemma FailuresWait(n: int, queued: seq<QueuedRetry>, i: nat, j: nat)
    requires CountsOn(n, queued) && i <= j < |queued| && Failures(queued, i, j + 1) && queued[j].entry.attempt <= 30
    ensures Waits(queued[j]) == Ideal(queued[j].entry.attempt, queued[j].cap)
    ensures queued[i].cap <= queued[j].cap ==> Waits(queued[i]) <= Waits(queued[j])
  {
    hide Waits, RetryDelay, Ideal;
    WaitIsDelay(n, queued, i);
    WaitIsDelay(n, queued, j);
    FailuresRaise(n, queued, i, j);
    hide CountsOn;
    var a, b := queued[i].entry.attempt, queued[j].entry.attempt;
    assert queued[i].reason.Failure? && queued[j].reason.Failure?;
    BackoffClosedForm(a, b, queued[j].cap);
    BackoffClosedForm(b, b, queued[j].cap);
    if queued[i].cap <= queued[j].cap {
      BackoffWithCap(a, queued[i].cap, queued[j].cap);
    }
  }

  // Continuations wait a second and start with one again.
  ghost predicate ContinuationsRestart(queued: seq<QueuedRetry>) {
    forall k | 0 <= k < |queued| && queued[k].reason.Continuation? ::
      queued[k].entry.attempt == 1 && Waits(queued[k]) == SECOND
  }

  // Failures in a row, wherever they begin, raise the attempt by one each.
  ghost predicate FailuresCount(n: int, queued: seq<QueuedRetry>) {
    forall i: nat, j: nat | i <= j <= |queued| && Failures(queued, i, j) ::
      Before(n, queued, j) == Before(n, queued, i) + (j - i)
  }

  ghost predicate DelaysGrow(queued: seq<QueuedRetry>) {
    forall i: nat, j: nat | i <= j < |queued| && Failures(queued, i, j + 1) && queued[j].entry.attempt <= 30 ::
      && Waits(queued[j]) == Ideal(queued[j].entry.attempt, queued[j].cap)
      && (queued[i].cap <= queued[j].cap ==> Waits(queued[i]) <= Waits(queued[j]))
  }

  // What a run that begins with attempt n queues for the issue.
  ghost predicate CountsFailures(n: int, queued: seq<QueuedRetry>) {
    CountsOn(n, queued) && ContinuationsRestart(queued) && FailuresCount(n, queued) && DelaysGrow(queued)
  }

  lemma CountingMeansFailuresCount(n: int, queued: seq<QueuedRetry>)
    requires CountsOn(n, queued)
    ensures CountsFailures(n, queued)
  {
    hide CountsOn, Waits, Ideal;
    forall k | 0 <= k < |queued| && queued[k].reason.Continuation?
      ensures queued[k].entry.attempt == 1 && Waits(queued[k]) == SECOND
    {
      WaitIsDelay(n, queued, k);
    }
    hide Failures, Before;
    forall i: nat, j: nat | i <= j <= |queued| && Failures(queued, i, j)
      ensures Before(n, queued, j) == Before(n, queued, i) + (j - i)
    {
      FailuresRaise(n, queued, i, j);
    }
    forall i: nat, j: nat | i <= j < |queued| && Failures(queued, i, j + 1) && queued[j].entry.attempt <= 30
      ensures Waits(queued[j]) == Ideal(queued[j].entry.attempt, queued[j].cap)
      ensures queued[i].cap <= queued[j].cap ==> Waits(queued[i]) <= Waits(queued[j])
    {
      FailuresWait(n, queued, i, j);
    }
  }

  // --- Where a chain begins ---

  // No worker may still queue a retry, no handler is acting; a retry that is queued has
  // attempt n.
  ghost predicate Alone(s: System, id: string, n: int) {
    && (forall w :: !Outstanding(s.workers, w, id))
    && (forall k :: !Acting(s.handlers, k, id))
    && (id in s.t.retries.attempts ==> s.t.retries.attempts[id] == n)
  }

  // After a stall too: once the stalled worker is gone, the queued retry is alone.
  lemma AloneStartsChain(s: System, id: string, n: int)
    requires Inv(s) && Alone(s, id, n)
    ensures ChainAt(s, id, n)
  {
    forall k | Flying(s.t.retries, s.handlers, k, id)
      ensures id in s.t.retries.timers && s.t.retries.timers[id] == k && id in s.t.retries.attempts
    {
      assert Armed(s.t.retries, k, id);
    }
  }

  // The poll dispatches the issue, and stops the timer if one was armed.
  lemma DispatchStartsChain(s: System, issue: Issue, n: int)
    requires Inv(s) && Alone(s, issue.id, n) && s.poll.PollIdle? && MayDispatch(s.t, issue)
    ensures ChainAt(Apply(s, Poll(DispatchCandidate(issue))), issue.id, 0)
  {
    hide MayDispatch, SetStage, FleetInv, NoOrphan, HandlersOnTarget, ScheduleRetry;
    var r := StartWorker(s, Some((issue, 0)));
    forall w ensures Outstanding(r.workers, w, issue.id) ==> w == s.nextWorker {
      assert !Outstanding(s.workers, w, issue.id);
    }
    forall k ensures !Flying(r.t.retries, r.handlers, k, issue.id) {
      assert !Acting(s.handlers, k, issue.id);
      assert Armed(r.t.retries, k, issue.id) ==> Armed(s.t.retries, k, issue.id);
    }
    assert ApplyPoll(s, DispatchCandidate(issue)) == r;
  }

  // --- Every run ---

  // From a dispatch by the poll on, until a stall or another dispatch by the poll, under
  // every interleaving.
  lemma FailuresCountUp(cfg: Config, before: seq<Step>, issue: Issue, n: int, steps: seq<Step>)
    requires var s := Exec(Init(cfg), before); Alone(s, issue.id, n) && s.poll.PollIdle? && MayDispatch(s.t, issue)
    requires Unreset(Apply(Exec(Init(cfg), before), Poll(DispatchCandidate(issue))), steps, issue.id)
    ensures var dispatched := Apply(Exec(Init(cfg), before), Poll(DispatchCandidate(issue)));
      CountsFailures(0, Queued(dispatched, steps, issue.id))
  {
    hide Inv, ChainAt, Unreset, Apply, Exec, Alone, MayDispatch, Queued, CountsOn, CountsFailures;
    var s := Exec(Init(cfg), before);
    var dispatched := Apply(s, Poll(DispatchCandidate(issue)));
    RunsKeepInv(cfg, before);
    DispatchStartsChain(s, issue, n);
    StepKeepsInv(s, Poll(DispatchCandidate(issue)));
    ChainCountsOn(dispatched, steps, issue.id, 0);
    CountingMeansFailuresCount(0, Queued(dispatched, steps, issue.id));
  }

  // And from any moment at which the queued retry is alone, as after a stall.
  lemma QueuedRetryCountsOn(cfg: Config, before: seq<Step>, id: string, n: int, steps: seq<Step>)
    requires Alone(Exec(Init(cfg), before), id, n) && Unreset(Exec(Init(cfg), before), steps, id)
    ensures CountsFailures(n, Queued(Exec(Init(cfg), before), steps, id))
  {
    hide Inv, ChainAt, Unreset, Exec, Alone, Queued, CountsOn, CountsFailures;
    var s := Exec(Init(cfg), before);
    RunsKeepInv(cfg, before);
    AloneStartsChain(s, id, n);
    ChainCountsOn(s, steps, id, n);
    CountingMeansFailuresCount(n, Queued(s, steps, id));
  }
}
