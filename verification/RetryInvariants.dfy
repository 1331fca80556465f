/**
 What every interleaving keeps of the retry tables and of the timers and handlers
 that serve them.
 */
module RetryInvariants {
  import opened Eligibility
  import opened Keyed
  import opened Tables
  import opened Scheduler

  // The three retry tables describe the same queued retries.
  ghost predicate TablesAgree(q: Retries) {
    && Unique(q.entries, RetryKey)
    && RetryingIds(q) == q.attempts.Keys
    && (forall e | e in q.entries :: e.id in q.attempts && q.attempts[e.id] == e.attempt)
    && q.timers.Keys <= q.attempts.Keys
  }

  type Handlers = map<TimerId, Handler>

  // The handler of this timer has not yet cleared, replaced or dispatched its retry.
  predicate Acting(hs: Handlers, timer: TimerId, id: string) {
    timer in hs && hs[timer].id == id && !hs[timer].pc.Freeing?
  }

  predicate Armed(q: Retries, timer: TimerId, id: string) {
    timer in q.armed && q.armed[timer] == id
  }

  // Every recorded timer is going to act or is acting.
  ghost predicate TimersServed(q: Retries, hs: Handlers) {
    forall id | id in q.timers :: Armed(q, q.timers[id], id) || Acting(hs, q.timers[id], id)
  }

  // Every armed timer is the recorded one; timers and handlers are not reused.
  ghost predicate TimersRecorded(q: Retries, hs: Handlers) {
    && (forall k | k in q.armed :: q.armed[k] in q.timers && q.timers[q.armed[k]] == k)
    && (forall id | id in q.timers :: q.timers[id] < q.nextTimer)
    && (forall k | k in hs :: k < q.nextTimer && k !in q.armed)
  }

  ghost predicate Heap(q: Retries, hs: Handlers) {
    TablesAgree(q) && TimersServed(q, hs) && TimersRecorded(q, hs)
  }

  // `now` lost at most handlers that work for `id`.
  ghost predicate OnlyLost(was: Handlers, now: Handlers, id: string) {
    && now.Keys <= was.Keys
    && forall k, x | x != id && Acting(was, k, x) :: Acting(now, k, x)
  }

  lemma ScheduleKeepsAgreement(q: Retries, issue: Issue, attempt: int, error: string, dueAt: int)
    requires TablesAgree(q)
    ensures TablesAgree(ScheduleRetry(q, issue, attempt, error, dueAt))
  {
    var e := RetryEntry(issue.id, issue.identifier, attempt, dueAt, error);
    PutKeys(q.entries, RetryKey, e);
    var r := ScheduleRetry(q, issue, attempt, error, dueAt);
    assert r.attempts.Keys == q.attempts.Keys + {issue.id};
    forall x | x in r.entries ensures x.id in r.attempts && r.attempts[x.id] == x.attempt {
      assert RetryKey(x) == x.id && RetryKey(e) == e.id;
    }
  }

  lemma ClearKeepsAgreement(q: Retries, id: string)
    requires TablesAgree(q)
    ensures TablesAgree(ClearRetry(q, id))
  {
    WithoutMembers(q.entries, RetryKey, id);
    WithoutUnique(q.entries, RetryKey, id);
    WithoutKeys(q.entries, RetryKey, id);
    var r := ClearRetry(q, id);
    forall x | x in r.entries ensures x.id in r.attempts && r.attempts[x.id] == x.attempt {
      assert RetryKey(x) == x.id;
    }
  }

  lemma ScheduleKeepsTimers(q: Retries, hs: Handlers, hs': Handlers, issue: Issue, attempt: int, error: string,
      dueAt: int)
    requires TimersServed(q, hs) && TimersRecorded(q, hs) && OnlyLost(hs, hs', issue.id)
    ensures TimersServed(ScheduleRetry(q, issue, attempt, error, dueAt), hs')
    ensures TimersRecorded(ScheduleRetry(q, issue, attempt, error, dueAt), hs')
  {
  }

  lemma ClearKeepsTimers(q: Retries, hs: Handlers, hs': Handlers, id: string)
    requires TimersServed(q, hs) && TimersRecorded(q, hs) && OnlyLost(hs, hs', id)
    ensures TimersServed(ClearRetry(q, id), hs')
    ensures TimersRecorded(ClearRetry(q, id), hs')
  {
  }

  lemma FireKeepsHeap(q: Retries, hs: Handlers, k: TimerId)
    requires Heap(q, hs) && k in q.armed
    ensures Heap(q.(armed := q.armed - {k}), hs[k := Handler(q.armed[k], Fired)])
  {
  }

  lemma StopKeepsHeap(q: Retries, hs: Handlers)
    requires Heap(q, hs)
    ensures Heap(StopRetryTimers(q), hs)
  {
  }

  // A retry that is queued is found by id, and no other.
  lemma RetryFound(q: Retries, id: string)
    requires TablesAgree(q)
    ensures Find(q.entries, RetryKey, id) < |q.entries| <==> id in q.attempts
  {
    var i := Find(q.entries, RetryKey, id);
    if id in q.attempts {
      assert id in RetryingIds(q);
    } else if i < |q.entries| {
      KeysHas(q.entries, RetryKey, i);
    }
  }

  // --- The same, for every step of the system ---

  ghost predicate RetryInv(s: System) {
    && Heap(s.t.retries, s.handlers)
    && (!s.stopped ==> s.t.retries.timers.Keys == s.t.retries.attempts.Keys)
  }

  // A handler only ever handles issues with its own id.
  predicate OnTarget(h: Handler) {
    match h.pc
    case Judging(issue) => issue.id == h.id
    case Counting(issue) => issue.id == h.id
    case Aiming(issue) => issue.id == h.id
    case Dispatching(issue, _) => issue.id == h.id
    case Rescheduling(issue, _, _) => issue.id == h.id
    case _ => true
  }

  ghost predicate HandlersOnTarget(hs: Handlers) {
    forall h | h in hs :: OnTarget(hs[h])
  }

  lemma ScheduleStep(s: System, r: System, issue: Issue, attempt: int, error: string, dueAt: int)
    requires RetryInv(s) && r.stopped == s.stopped && OnlyLost(s.handlers, r.handlers, issue.id)
    requires r.t.retries == ScheduleRetry(s.t.retries, issue, attempt, error, dueAt)
    ensures RetryInv(r)
  {
    ScheduleKeepsAgreement(s.t.retries, issue, attempt, error, dueAt);
    ScheduleKeepsTimers(s.t.retries, s.handlers, r.handlers, issue, attempt, error, dueAt);
  }

  lemma ClearStep(s: System, r: System, id: string)
    requires RetryInv(s) && r.stopped == s.stopped && OnlyLost(s.handlers, r.handlers, id)
    requires r.t.retries == ClearRetry(s.t.retries, id)
    ensures RetryInv(r)
  {
    ClearKeepsAgreement(s.t.retries, id);
    ClearKeepsTimers(s.t.retries, s.handlers, r.handlers, id);
  }

  // A handler that goes on without acting, or had nothing left to act on.
  lemma HandlerMoves(q: Retries, hs: Handlers, hs': Handlers, h: TimerId)
    requires Heap(q, hs) && h in hs && hs'.Keys <= hs.Keys && hs' - {h} == hs - {h}
    requires hs[h].pc.Freeing? || hs[h].id !in q.attempts || Acting(hs', h, hs[h].id)
    ensures Heap(q, hs')
  {
    assert forall k | k in hs && k != h :: k in hs - {h} && (hs - {h})[k] == hs[k];
    assert forall k | k in hs' && k != h :: k in hs' - {h} && (hs' - {h})[k] == hs'[k];
    forall id | id in q.timers ensures Armed(q, q.timers[id], id) || Acting(hs', q.timers[id], id) {
      var k := q.timers[id];
      assert Armed(q, k, id) || Acting(hs, k, id);
      if Acting(hs, k, id) {
        if k == h {
          assert id in q.attempts;
        } else {
          assert k in hs' - {h};
        }
      }
    }
  }

  lemma MoveWorkerRetries(t: Tables, now: int, worker: Worker, step: WorkerStep)
    requires !(worker.pc.Scheduling? && step.QueueRetry?)
    ensures MoveWorker(t, now, worker, step).t.retries == t.retries
  {
  }

  lemma WorkStep(s: System, w: WorkerId, step: WorkerStep)
    requires RetryInv(s)
    ensures RetryInv(ApplyWork(s, w, step)) && ApplyWork(s, w, step).handlers == s.handlers
  {
    if w in s.workers {
      var r, worker := ApplyWork(s, w, step), s.workers[w];
      if worker.pc.Scheduling? && step.QueueRetry? {
        ScheduleStep(s, r, worker.issue, worker.pc.nextAttempt, worker.pc.error, step.dueAt);
      } else {
        MoveWorkerRetries(s.t, s.now, worker, step);
      }
    }
  }

  lemma PollStepKeeps(s: System, step: PollStep)
    requires RetryInv(s)
    ensures RetryInv(ApplyPoll(s, step)) && ApplyPoll(s, step).handlers == s.handlers
  {
    var r := ApplyPoll(s, step);
    if s.poll.Stalling? && step.StallSchedule? {
      ScheduleStep(s, r, StalledIssue(s.poll.entry), 1, step.error, step.dueAt);
    } else if MovePoll(s.t, s.poll, step).start.Some? {
      ClearStep(s, r, step.issue.id);
    } else {
      assert r.t.retries == s.t.retries;
    }
  }

  lemma OutsideStepKeeps(s: System, step: OutsideStep)
    requires RetryInv(s) && HandlersOnTarget(s.handlers)
    ensures RetryInv(ApplyOutside(s, step)) && HandlersOnTarget(ApplyOutside(s, step).handlers)
  {
    if step.StopTimers? {
      StopKeepsHeap(s.t.retries, s.handlers);
    } else if step.Fire? && step.timer in s.t.retries.armed {
      FireKeepsHeap(s.t.retries, s.handlers, step.timer);
    }
  }

  lemma HandlerPcStays(t: Tables, handler: Handler, step: HandlerStep)
    requires OnTarget(handler)
    ensures OnTarget(handler.(pc := NextPc(t, handler, step)))
    ensures NextPc(t, handler, step).Freeing? == handler.pc.Freeing?
  {
  }

  // What one handler step does, apart from starting a worker.
  lemma HandlerEffect(t: Tables, hs: Handlers, h: TimerId, step: HandlerStep)
    requires Heap(t.retries, hs) && h in hs && OnTarget(hs[h])
    ensures var m := MoveHandler(t, hs[h], step);
      var hs' := if m.next.Some? then hs[h := hs[h].(pc := m.next.value)] else hs - {h};
      && (m.start.Some? ==> m.retries == t.retries && m.start.value.0.id == hs[h].id && m.next.None?)
      && (m.start.None? ==> Heap(m.retries, hs'))
      && (m.retries.timers.Keys == m.retries.attempts.Keys || t.retries.timers.Keys != t.retries.attempts.Keys)
      && (m.next.Some? ==> OnTarget(hs[h].(pc := m.next.value)))
  {
    hide NextPc, MayDispatch;
    var m := MoveHandler(t, hs[h], step);
    var hs' := if m.next.Some? then hs[h := hs[h].(pc := m.next.value)] else hs - {h};
    var id, pc := hs[h].id, hs[h].pc;
    if pc.Rescheduling? && step.Requeue? {
      ScheduleKeepsAgreement(t.retries, pc.issue, pc.attempt, pc.error, step.dueAt);
      ScheduleKeepsTimers(t.retries, hs, hs', pc.issue, pc.attempt, pc.error, step.dueAt);
    } else if pc.Clearing? && step.Clear? {
      ClearKeepsAgreement(t.retries, id);
      ClearKeepsTimers(t.retries, hs, hs', id);
    } else if m.start.None? {
      QuietHandlerStep(t, hs, h, step);
    }
  }

  // A step that neither schedules, clears nor dispatches.
  lemma QuietHandlerStep(t: Tables, hs: Handlers, h: TimerId, step: HandlerStep)
    requires Heap(t.retries, hs) && h in hs && OnTarget(hs[h])
    requires !(hs[h].pc.Rescheduling? && step.Requeue?) && !(hs[h].pc.Clearing? && step.Clear?)
    ensures var m := MoveHandler(t, hs[h], step);
      m.start.None? ==>
        && m.retries == t.retries
        && Heap(t.retries, if m.next.Some? then hs[h := hs[h].(pc := m.next.value)] else hs - {h})
        && (m.next.Some? ==> OnTarget(hs[h].(pc := m.next.value)))
  {
    hide NextPc, MayDispatch;
    var m := MoveHandler(t, hs[h], step);
    if m.start.None? {
      RetryFound(t.retries, hs[h].id);
      HandlerPcStays(t, hs[h], step);
      HandlerMoves(
        t.retries, hs, if m.next.Some? then hs[h := hs[h].(pc := m.next.value)] else hs - {h}, h);
    }
  }

  lemma HandleStepKeeps(s: System, h: TimerId, step: HandlerStep)
    requires RetryInv(s) && HandlersOnTarget(s.handlers)
    ensures RetryInv(ApplyHandle(s, h, step)) && HandlersOnTarget(ApplyHandle(s, h, step).handlers)
  {
    hide MoveHandler, Heap, SetStage, ClearRetry, OnTarget;
    if h in s.handlers {
      assert OnTarget(s.handlers[h]);
      HandlerEffect(s.t, s.handlers, h, step);
      var m := MoveHandler(s.t, s.handlers[h], step);
      if m.start.Some? {
        ClearStep(s, ApplyHandle(s, h, step), s.handlers[h].id);
      }
    }
  }

  lemma StepKeepsRetries(s: System, step: Step)
    requires RetryInv(s) && HandlersOnTarget(s.handlers)
    ensures RetryInv(Apply(s, step)) && HandlersOnTarget(Apply(s, step).handlers)
  {
    hide ApplyOutside, ApplyPoll, ApplyWork, ApplyHandle;
    match step {
      case Outside(outside) => OutsideStepKeeps(s, outside);
      case Poll(poll) => PollStepKeeps(s, poll);
      case Work(w, work) => WorkStep(s, w, work);
      case Handle(h, handle) => HandleStepKeeps(s, h, handle);
    }
  }
}
