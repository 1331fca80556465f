/**
 What every fired retry timer leads to, under every interleaving: a worker, another retry,
 or the release of the claim.
 */
module RetryHandlers {
  import opened Wrappers
  import opened Eligibility
  import opened Keyed
  import opened Tables
  import opened Backoff
  import opened Scheduler
  import opened RetryInvariants
  import opened FleetInvariants
  import opened WorkerExits

  // What the handler comes upon: the service shut down, the tracker's answer, whether the
  // retry is still queued after a failed fetch, the verdict on the issue, whether its
  // dispatch is admitted, and the attempt number that it finds.
  datatype Sights = Sights(
    down: bool, answer: FetchAnswer, known: bool, verdict: Verdict, admitted: bool, found: int, identifier: string
  )

  datatype End = Cleared | Again(error: string) | Begun(issue: Issue) | Over

  function EndFor(c: Sights): End {
    if c.down then Cleared
    else
      match (c.answer, c.verdict)
      case (FetchFailed(message), _) => if c.known then Again(message) else Over
      case (Missing, _) => Cleared
      case (Found(issue), Eligible) => if c.admitted then Begun(issue) else Again("no available orchestrator slots")
      case (Found(_), Refused(NoSlots)) => Again("no available orchestrator slots")
      case (Found(_), Refused(_)) => Cleared
  }

  // The queued retry's number.
  predicate Finds(c: Sights, q: Retries, id: string) {
    c.found == if id in q.attempts then q.attempts[id] else 0
  }

  predicate Meets(c: Sights, s: System, h: TimerId, step: Step) {
    step.Handle? && step.h == h && h in s.handlers ==>
      var id := s.handlers[h].id;
      match (s.handlers[h].pc, step.handle)
      case (Fired, Start) => c.down <==> s.t.serviceDone
      case (Fetching, Fetch(answer)) => c.answer == answer
      case (Recalling(_), Recall) =>
        && (c.known <==> id in s.t.retries.attempts)
        && Finds(c, s.t.retries, id)
        && forall e | e in s.t.retries.entries && e.id == id :: e.identifier == c.identifier
      case (Judging(issue), Judge) =>
        c.verdict == CandidateEligible(issue, EligibilityOf(s.t, id)) && c.identifier == issue.identifier
      case (Counting(_), Count) => Finds(c, s.t.retries, id)
      case (Aiming(_), Aim) => Finds(c, s.t.retries, id)
      case (Dispatching(issue, _), TryDispatch) => c.admitted <==> MayDispatch(s.t, issue)
      case _ => true
  }

  // --- Where the handler can be ---

  predicate Offers(c: Sights, id: string, issue: Issue) {
    !c.down && c.answer == Found(issue) && issue.id == id
  }

  predicate Heading(c: Sights, handler: Handler) {
    match handler.pc
    case Fired => true
    case Fetching => !c.down
    case Recalling(message) => !c.down && c.answer == FetchFailed(message)
    case Judging(issue) => Offers(c, handler.id, issue)
    case Counting(issue) =>
      Offers(c, handler.id, issue) && c.verdict == Refused(NoSlots) && c.identifier == issue.identifier
    case Aiming(issue) => Offers(c, handler.id, issue) && c.verdict == Eligible && c.identifier == issue.identifier
    case Dispatching(issue, attempt) =>
      && Offers(c, handler.id, issue) && c.verdict == Eligible && c.identifier == issue.identifier && attempt == c.found
    case Rescheduling(issue, attempt, error) =>
      EndFor(c) == Again(error) && issue.id == handler.id && issue.identifier == c.identifier && attempt == c.found + 1
    case Clearing => EndFor(c).Cleared?
    case Freeing => EndFor(c).Cleared?
  }

  // Nothing of the retry is left.
  predicate Gone(q: Retries, id: string) {
    id !in q.attempts && id !in q.timers && forall e | e in q.entries :: e.id != id
  }

  // The step that ends the handler.
  predicate Gives(c: Sights, s: System, r: System, id: string) {
    match EndFor(c)
    case Cleared => r.t.claimed == s.t.claimed - {id} && r.t.retries == s.t.retries
    case Again(error) =>
      QueuesFor(s, r.t, id, c.identifier, c.found + 1, Failure, error)
    case Begun(issue) =>
      && r.workers == s.workers[s.nextWorker := Worker(issue, c.found, Trunk)]
      && r.t.claimed == s.t.claimed + {id} && Gone(r.t.retries, id)
    case Over => r.t == s.t && r.workers == s.workers
  }

  lemma NothingIsLeft(q: Retries, id: string)
    ensures Gone(ClearRetry(q, id), id)
  {
    WithoutMembers(q.entries, RetryKey, id);
  }

  // What a move of the handler comes to, before the tables take it over.
  predicate Moves(c: Sights, s: System, handler: Handler, m: HandlerMove) {
    var after := s.t.(retries := m.retries, claimed := m.claimed);
    if m.next.Some? then
      && Heading(c, handler.(pc := m.next.value)) && m.start.None?
      && (m.next.value.Freeing? && !handler.pc.Freeing? ==> Gone(m.retries, handler.id))
    else
      match EndFor(c)
      case Cleared => m.start.None? && m.claimed == s.t.claimed - {handler.id} && m.retries == s.t.retries
      case Again(error) => m.start.None? && QueuesFor(s, after, handler.id, c.identifier, c.found + 1, Failure, error)
      case Begun(issue) => m.start == Some((issue, c.found)) && after == s.t && issue.id == handler.id
      case Over => m.start.None? && after == s.t
  }

  lemma LooksAround(c: Sights, s: System, h: TimerId, step: HandlerStep)
    requires h in s.handlers && Heading(c, s.handlers[h]) && Meets(c, s, h, Handle(h, step))
    requires var pc := s.handlers[h].pc; !pc.Rescheduling? && !pc.Recalling? && !pc.Clearing?
    ensures Moves(c, s, s.handlers[h], MoveHandler(s.t, s.handlers[h], step))
  {
    hide CandidateEligible, MayDispatch, EligibilityOf, QueuesFor, Gone, Finds;
    var pc := s.handlers[h].pc;
    if (pc.Aiming? && step.Aim?) || (pc.Counting? && step.Count?) {
      assert Finds(c, s.t.retries, s.handlers[h].id);
      FoundIsAttempt(c, s.t.retries, s.handlers[h].id);
    }
  }

  lemma FoundIsAttempt(c: Sights, q: Retries, id: string)
    requires Finds(c, q, id)
    ensures c.found == AttemptOf(q, id)
  {
  }

  lemma Recalls(c: Sights, s: System, h: TimerId, step: HandlerStep)
    requires h in s.handlers && Heading(c, s.handlers[h]) && Meets(c, s, h, Handle(h, step))
    requires s.handlers[h].pc.Recalling? && TablesAgree(s.t.retries)
    ensures Moves(c, s, s.handlers[h], MoveHandler(s.t, s.handlers[h], step))
  {
    var q, id := s.t.retries, s.handlers[h].id;
    RetryFound(q, id);
    var i := Find(q.entries, RetryKey, id);
    assert i < |q.entries| ==> q.entries[i] in q.entries && q.entries[i].id == id;
    hide QueuesFor, Gone, Keys, Unique;
  }

  lemma Reschedules(c: Sights, s: System, h: TimerId, step: HandlerStep)
    requires h in s.handlers && Heading(c, s.handlers[h]) && s.handlers[h].pc.Rescheduling?
    requires Timely(s, Handle(h, step))
    ensures Moves(c, s, s.handlers[h], MoveHandler(s.t, s.handlers[h], step))
  {
    hide ScheduleRetry, RetryDelay, MaxRetryBackoff, QueuesFor, Gone;
    var handler := s.handlers[h];
    if step.Requeue? {
      QueuedForSure(s, handler.pc.issue, handler.pc.attempt, Failure, handler.pc.error, step.dueAt);
    }
  }

  lemma Clears(c: Sights, s: System, h: TimerId, step: HandlerStep)
    requires h in s.handlers && Heading(c, s.handlers[h]) && s.handlers[h].pc.Clearing?
    ensures Moves(c, s, s.handlers[h], MoveHandler(s.t, s.handlers[h], step))
  {
    hide ClearRetry, QueuesFor, Gone;
    NothingIsLeft(s.t.retries, s.handlers[h].id);
  }

  lemma Dispatches(s: System, issue: Issue, attempt: int)
    ensures var r := StartWorker(s, Some((issue, attempt)));
      && r.workers == s.workers[s.nextWorker := Worker(issue, attempt, Trunk)] && r.handlers == s.handlers
      && r.t.claimed == s.t.claimed + {issue.id} && Gone(r.t.retries, issue.id)
  {
    hide SetStage, ClearRetry, Gone;
    NothingIsLeft(s.t.retries, issue.id);
  }

  lemma EveryMove(c: Sights, s: System, h: TimerId, step: HandlerStep)
    requires h in s.handlers && Heading(c, s.handlers[h]) && Meets(c, s, h, Handle(h, step))
    requires TablesAgree(s.t.retries) && Timely(s, Handle(h, step))
    ensures Moves(c, s, s.handlers[h], MoveHandler(s.t, s.handlers[h], step))
  {
    hide MoveHandler, Moves, Heading, Meets, Timely;
    var pc := s.handlers[h].pc;
    if pc.Rescheduling? {
      Reschedules(c, s, h, step);
    } else if pc.Recalling? {
      Recalls(c, s, h, step);
    } else if pc.Clearing? {
      Clears(c, s, h, step);
    } else {
      LooksAround(c, s, h, step);
    }
  }

  // One step of the handler itself.
  lemma OwnStep(c: Sights, s: System, h: TimerId, step: HandlerStep)
    requires h in s.handlers && Heading(c, s.handlers[h]) && Meets(c, s, h, Handle(h, step))
    requires TablesAgree(s.t.retries)
    ensures var r := Apply(s, Handle(h, step)); var id := s.handlers[h].id;
      if h in r.handlers
      then
        && Heading(c, r.handlers[h]) && r.handlers[h].id == id
        && (r.handlers[h].pc.Freeing? && !s.handlers[h].pc.Freeing? ==> Gone(r.t.retries, id))
      else Gives(c, s, r, id)
  {
    hide MoveHandler, QueuesFor, Gone, Heading, Meets, Dispatch, Timely, EndFor, Moves, Gives, ApplyHandle;
    if Timely(s, Handle(h, step)) {
      EveryMove(c, s, h, step);
      MoveIsTaken(c, s, h, step);
    }
  }

  lemma MoveIsTaken(c: Sights, s: System, h: TimerId, step: HandlerStep)
    requires h in s.handlers && Moves(c, s, s.handlers[h], MoveHandler(s.t, s.handlers[h], step))
    ensures var r := ApplyHandle(s, h, step); var id := s.handlers[h].id;
      if h in r.handlers
      then
        && Heading(c, r.handlers[h]) && r.handlers[h].id == id
        && (r.handlers[h].pc.Freeing? && !s.handlers[h].pc.Freeing? ==> Gone(r.t.retries, id))
      else Gives(c, s, r, id)
  {
    hide MoveHandler, QueuesFor, Gone, Heading, Dispatch, EndFor;
    var m := MoveHandler(s.t, s.handlers[h], step);
    if m.start.Some? {
      Dispatches(
        s.(t := s.t.(retries := m.retries, claimed := m.claimed), handlers := s.handlers - {h}),
        m.start.value.0, m.start.value.1);
    }
  }

  // --- Every run ---

  // The timer has gone off, and its handler is the only one there will be.
  predicate Spent(s: System, h: TimerId) {
    SpentTimer(s.t.retries, h)
  }

  // The steps of others leave the handler where it is, and no handler comes back.
  lemma OthersLeave(s: System, h: TimerId, step: Step)
    requires Spent(s, h) && !(h in s.handlers && step.Handle? && step.h == h)
    ensures h in Apply(s, step).handlers <==> h in s.handlers
    ensures h in s.handlers ==> Apply(s, step).handlers[h] == s.handlers[h]
  {
    hide MoveWorker, MoveHandler, MovePoll, Dispatch, StopRetryTimers, Timely;
  }

  predicate SpentTimer(q: Retries, h: TimerId) {
    h < q.nextTimer && h !in q.armed
  }

  lemma TimersStaySpent(h: TimerId)
    ensures forall q, issue, attempt, error, dueAt | SpentTimer(q, h) ::
      SpentTimer(ScheduleRetry(q, issue, attempt, error, dueAt), h)
    ensures forall q, id | SpentTimer(q, h) :: SpentTimer(ClearRetry(q, id), h)
  {
  }

  lemma StartStaysSpent(s: System, start: Option<(Issue, int)>, h: TimerId)
    requires Spent(s, h)
    ensures Spent(StartWorker(s, start), h)
  {
    hide ClearRetry, SetStage;
    TimersStaySpent(h);
  }

  lemma PollStaysSpent(s: System, h: TimerId, step: PollStep)
    requires Spent(s, h)
    ensures Spent(ApplyPoll(s, step), h)
  {
    TimersStaySpent(h);
    hide ScheduleRetry, StartWorker, MayDispatch, UpdateState;
    var m := MovePoll(s.t, s.poll, step);
    assert SpentTimer(m.t.retries, h);
    StartStaysSpent(s.(t := m.t, poll := m.poll), m.start, h);
  }

  lemma HandleStaysSpent(s: System, k: TimerId, h: TimerId, step: HandlerStep)
    requires Spent(s, h)
    ensures Spent(ApplyHandle(s, k, step), h)
  {
    if k in s.handlers {
      TimersStaySpent(h);
      hide ScheduleRetry, ClearRetry, MayDispatch, StartWorker, CandidateEligible;
      var m := MoveHandler(s.t, s.handlers[k], step);
      assert SpentTimer(m.retries, h);
      var handlers :=
        if m.next.Some? then s.handlers[k := s.handlers[k].(pc := m.next.value)] else s.handlers - {k};
      StartStaysSpent(s.(t := s.t.(retries := m.retries, claimed := m.claimed), handlers := handlers), m.start, h);
    }
  }

  lemma WorkStaysSpent(s: System, w: WorkerId, h: TimerId, step: WorkerStep)
    requires Spent(s, h)
    ensures Spent(ApplyWork(s, w, step), h)
  {
    TimersStaySpent(h);
    hide ScheduleRetry, SetStage, RemoveRunning, UpdateFromEvent;
  }

  lemma OutsideStaysSpent(s: System, h: TimerId, step: OutsideStep)
    requires Spent(s, h)
    ensures Spent(ApplyOutside(s, step), h)
  {
  }

  lemma StaysSpent(s: System, h: TimerId, step: Step)
    requires Spent(s, h)
    ensures Spent(Apply(s, step), h)
  {
    hide ApplyPoll, ApplyWork, ApplyHandle, ApplyOutside, Timely, Spent;
    match step {
      case Outside(outside) => OutsideStaysSpent(s, h, outside);
      case Poll(poll) => PollStaysSpent(s, h, poll);
      case Work(w, work) => WorkStaysSpent(s, w, h, work);
      case Handle(k, handle) => HandleStaysSpent(s, k, h, handle);
    }
  }

  ghost predicate MeetsAll(c: Sights, s: System, h: TimerId, steps: seq<Step>) {
    forall k | 0 <= k < |steps| :: Meets(c, Exec(s, steps[..k]), h, steps[k])
  }

  // The handler's k-th step is its last, and ends it as it should.
  ghost predicate EndedAt(c: Sights, s: System, h: TimerId, steps: seq<Step>, k: nat, id: string) {
    && k < |steps| && steps[k].Handle? && steps[k].h == h
    && Gives(c, Exec(s, steps[..k]), Exec(s, steps[..k + 1]), id)
  }

  ghost predicate OnItsWay(c: Sights, s: System, h: TimerId, id: string) {
    h in s.handlers && Heading(c, s.handlers[h]) && s.handlers[h].id == id
  }

  lemma OneMoreStep(c: Sights, s: System, h: TimerId, steps: seq<Step>, id: string)
    requires steps != [] && MeetsAll(c, s, h, steps)
    requires var before := Exec(s, steps[..|steps| - 1]);
      Spent(before, h) && TablesAgree(before.t.retries) && OnItsWay(c, before, h, id)
    ensures var r := Exec(s, steps);
      if h in r.handlers then OnItsWay(c, r, h, id) else EndedAt(c, s, h, steps, |steps| - 1, id)
  {
    var last := steps[|steps| - 1];
    var before := Exec(s, steps[..|steps| - 1]);
    assert steps[..|steps| - 1 + 1] == steps;
    assert Meets(c, before, h, last);
    ExecLast(s, steps);
    hide Apply, Heading, Gives, Meets, Exec, TablesAgree, Spent;
    if last.Handle? && last.h == h {
      OwnStep(c, before, h, last.handle);
    } else {
      OthersLeave(before, h, last);
    }
  }

  lemma {:induction false} LeadsTo(c: Sights, s: System, h: TimerId, steps: seq<Step>)
    requires Inv(s) && h in s.handlers && Spent(s, h) && s.handlers[h].pc.Fired? && MeetsAll(c, s, h, steps)
    ensures var r := Exec(s, steps); var id := s.handlers[h].id;
      && Inv(r) && Spent(r, h)
      && if h in r.handlers then OnItsWay(c, r, h, id) else exists k: nat :: EndedAt(c, s, h, steps, k, id)
    decreases |steps|
  {
    if steps != [] {
      var front, last := steps[..|steps| - 1], steps[|steps| - 1];
      var id := s.handlers[h].id;
      forall k | 0 <= k < |front| ensures Meets(c, Exec(s, front[..k]), h, front[k]) {
        assert front[..k] == steps[..k] && front[k] == steps[k];
      }
      ExecLast(s, steps);
      hide Apply, Heading, Gives, Meets, Exec, OnItsWay, EndedAt, Spent;
      LeadsTo(c, s, h, front);
      StepKeepsInv(Exec(s, front), last);
      StaysSpent(Exec(s, front), h, last);
      hide FleetInv, NoOrphan, HandlersOnTarget;
      if h in Exec(s, front).handlers {
        OneMoreStep(c, s, h, steps, id);
      } else {
        OthersLeave(Exec(s, front), h, last);
        var k: nat :| EndedAt(c, s, h, front, k, id);
        EndedEarlier(c, s, h, steps, k, id);
      }
    }
  }

  lemma EndedEarlier(c: Sights, s: System, h: TimerId, steps: seq<Step>, k: nat, id: string)
    requires steps != [] && EndedAt(c, s, h, steps[..|steps| - 1], k, id)
    ensures EndedAt(c, s, h, steps, k, id)
  {
    hide Gives, Exec;
    var front := steps[..|steps| - 1];
    assert front[..k] == steps[..k] && front[..k + 1] == steps[..k + 1];
  }

  lemma FiredIsSpent(s: System, h: TimerId)
    requires Inv(s) && h in s.t.retries.armed
    ensures var r := Apply(s, Outside(Fire(h)));
      && Spent(r, h) && h in r.handlers && r.handlers[h] == Handler(s.t.retries.armed[h], Fired)
  {
  }

  // Whatever the tracker answers, and whatever anybody else does meanwhile: the handler of
  // a fired timer is still at it, or its last step has ended it as it should.
  lemma EveryFiringIsAnswered(cfg: Config, before: seq<Step>, h: TimerId, c: Sights, steps: seq<Step>)
    requires h in Exec(Init(cfg), before).t.retries.armed
    requires MeetsAll(c, Apply(Exec(Init(cfg), before), Outside(Fire(h))), h, steps)
    ensures var s := Exec(Init(cfg), before); var fired := Apply(s, Outside(Fire(h)));
      var id := s.t.retries.armed[h];
      if h in Exec(fired, steps).handlers then OnItsWay(c, Exec(fired, steps), h, id)
      else exists k: nat :: EndedAt(c, fired, h, steps, k, id)
  {
    var s := Exec(Init(cfg), before);
    RunsKeepInv(cfg, before);
    StepKeepsInv(s, Outside(Fire(h)));
    FiredIsSpent(s, h);
    hide Heading, Exec, MeetsAll, Inv, EndedAt, OnItsWay, Apply, Spent;
    LeadsTo(c, Apply(s, Outside(Fire(h))), h, steps);
  }

  // How many steps of its own the handler has left at most.
  function StepsLeft(pc: HandlerPc): nat {
    match pc
    case Fired => 6
    case Fetching => 5
    case Judging(_) => 4
    case Aiming(_) => 3
    case Recalling(_) => 2
    case Counting(_) => 2
    case Dispatching(_, _) => 2
    case Clearing => 2
    case Rescheduling(_, _, _) => 1
    case Freeing => 1
  }

  // And it is never stuck.
  lemma NeverStuck(s: System, h: TimerId)
    requires h in s.handlers
    ensures exists step: HandlerStep :: var r := Apply(s, Handle(h, step));
      h in r.handlers ==> StepsLeft(r.handlers[h].pc) < StepsLeft(s.handlers[h].pc)
  {
    hide RetryDelay, MaxRetryBackoff, ScheduleRetry, ClearRetry, CandidateEligible, MayDispatch, Dispatch;
    var pc := s.handlers[h].pc;
    var step := match pc
      case Fired => Start
      case Fetching => Fetch(Missing)
      case Recalling(_) => Recall
      case Judging(_) => Judge
      case Counting(_) => Count
      case Aiming(_) => Aim
      case Dispatching(_, _) => TryDispatch
      case Rescheduling(_, attempt, _) => Requeue(DueAt(s, Failure, attempt))
      case Clearing => Clear
      case Freeing => Free;
    var r := Apply(s, Handle(h, step));
    assert h in r.handlers ==> StepsLeft(r.handlers[h].pc) < StepsLeft(pc);
  }
}
