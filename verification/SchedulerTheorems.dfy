/** The scheduler's promises, for every run from a fresh start. */
module SchedulerTheorems {
  import opened Wrappers
  import opened Eligibility
  import opened Keyed
  import opened Tables
  import opened Scheduler
  import opened FleetInvariants

  // A claim is held by a worker that has not finished, by a queued retry, or by a
  // handler that is about to release it.
  lemma NoOrphanedClaim(cfg: Config, steps: seq<Step>, id: string)
    requires id in Exec(Init(cfg), steps).t.claimed
    ensures var s := Exec(Init(cfg), steps);
      || (exists w :: w in s.workers && s.workers[w].issue.id == id)
      || id in s.t.retries.attempts
      || (exists h :: h in s.handlers && s.handlers[h].id == id && s.handlers[h].pc.Freeing?)
  {
    RunsKeepInv(cfg, steps);
    assert Accounted(Exec(Init(cfg), steps), id);
  }

  predicate Quiet(s: System) {
    s.workers == map[] && s.handlers == map[] && !s.stopped
  }

  // Once nothing is in flight, every claim has its timer armed.
  lemma QuietClaimsAreArmed(cfg: Config, steps: seq<Step>, id: string)
    requires Quiet(Exec(Init(cfg), steps)) && id in Exec(Init(cfg), steps).t.claimed
    ensures var q := Exec(Init(cfg), steps).t.retries;
      id in q.attempts && id in q.timers && q.timers[id] in q.armed && q.armed[q.timers[id]] == id
  {
    RunsKeepInv(cfg, steps);
    assert Accounted(Exec(Init(cfg), steps), id);
  }

  // The keys of the cancel table are the ids of the workers between dispatch and
  // their delete, one worker each; the running ids are those still in the flow.
  lemma OneWorkerPerIssue(cfg: Config, steps: seq<Step>)
    ensures var s := Exec(Init(cfg), steps);
      && Unique(s.t.board.running, RunKey)
      && RunningIds(s.t.board) <= s.t.cancels.Keys
      && (forall id :: id in s.t.cancels <==>
            exists w :: w in s.workers && s.workers[w].Active() && s.workers[w].issue.id == id)
      && (forall id :: id in RunningIds(s.t.board) <==>
            exists w :: w in s.workers && s.workers[w].pc.Trunk? && s.workers[w].issue.id == id)
      && (forall v, w | v in s.workers && w in s.workers && s.workers[v].Active() && s.workers[w].Active()
                        && s.workers[v].issue.id == s.workers[w].issue.id :: v == w)
  {
    RunsKeepInv(cfg, steps);
    var s := Exec(Init(cfg), steps);
    forall id | id in s.t.cancels
      ensures exists w :: w in s.workers && s.workers[w].Active() && s.workers[w].issue.id == id
    {
      var w := s.t.cancels[id];
      assert w in s.workers && s.workers[w].Active() && s.workers[w].issue.id == id;
    }
    forall id | id in RunningIds(s.t.board)
      ensures exists w :: w in s.workers && s.workers[w].pc.Trunk? && s.workers[w].issue.id == id
    {
      var w := s.t.cancels[id];
      assert w in s.workers && s.workers[w].pc.Trunk? && s.workers[w].issue.id == id;
    }
  }

  // The retrying list, the attempt table and, until shutdown, the timer table hold
  // the same ids, with the same attempt numbers; armed timers are the recorded ones.
  lemma RetryTablesAgree(cfg: Config, steps: seq<Step>)
    ensures var s := Exec(Init(cfg), steps);
      var q := s.t.retries;
      && Unique(q.entries, RetryKey)
      && RetryingIds(q) == q.attempts.Keys
      && (forall e | e in q.entries :: e.id in q.attempts && q.attempts[e.id] == e.attempt)
      && q.timers.Keys <= q.attempts.Keys
      && (!s.stopped ==> q.timers.Keys == q.attempts.Keys)
      && (forall k | k in q.armed :: q.armed[k] in q.timers && q.timers[q.armed[k]] == k)
      && (forall id | id in q.timers ::
            || (q.timers[id] in q.armed && q.armed[q.timers[id]] == id)
            || (q.timers[id] in s.handlers && s.handlers[q.timers[id]].id == id))
  {
    RunsKeepInv(cfg, steps);
  }

  // --- Concurrency limits ---

  predicate WithinLimits(t: Tables, state: string) {
    && |t.board.running| <= MaxConcurrent(t.cfg)
    && |IdsInState(RunningStates(t.board.running), state)| <= StateLimit(t.cfg, state)
  }

  // An ignored claim cannot be the reason for a refusal, so the dispatch check has
  // always looked at the slots, and the new entry fits the limits in force.
  lemma DispatchFitsLimits(t: Tables, issue: Issue, attempt: int, worker: WorkerId, now: int)
    requires Unique(t.board.running, RunKey) && RunningIds(t.board) <= t.cancels.Keys && MayDispatch(t, issue)
    ensures WithinLimits(Dispatch(t, issue, attempt, worker, now), issue.state)
    ensures CandidateEligible(issue, EligibilityOf(t, issue.id)) == Eligible
  {
    EligibleHasSlots(issue, EligibilityOf(t, issue.id));
    AppendedEntryCounts(t.board, issue, attempt, now);
  }

  lemma EligibleHasSlots(issue: Issue, st: EligibilityState)
    requires CandidateEligible(issue, st) == Eligible || CandidateEligible(issue, st) == Refused(Claimed)
    requires issue.id !in st.claimed
    ensures CandidateEligible(issue, st) == Eligible
    ensures |st.running| < MaxConcurrent(st.cfg)
    ensures |IdsInState(st.running, issue.state)| < StateLimit(st.cfg, issue.state)
  {
  }

  lemma AppendedEntryCounts(b: Board, issue: Issue, attempt: int, now: int)
    requires Unique(b.running, RunKey) && issue.id !in RunningIds(b)
    ensures var r := SetStage(b, issue, attempt, QUEUED, now);
      && |r.running| == |RunningStates(b.running)| + 1
      && |IdsInState(RunningStates(r.running), issue.state)| == |IdsInState(RunningStates(b.running), issue.state)| + 1
  {
    UniqueCount(b.running, RunKey);
    var entry := StageEntry(issue, attempt, QUEUED, now);
    var i := Find(b.running, RunKey, issue.id);
    if i < |b.running| {
      KeysHas(b.running, RunKey, i);
    }
    var after := b.running + [entry];
    assert after[..|after| - 1] == b.running;
    assert SetStage(b, issue, attempt, QUEUED, now).running == after;
    var was := RunningStates(b.running);
    assert |was| == |was.Keys|;
    assert RunningStates(after) == was[issue.id := issue.state];
    assert IdsInState(RunningStates(after), issue.state) == IdsInState(was, issue.state) + {issue.id};
  }

  function Started(s: System, step: Step): Option<(Issue, int)> {
    match step
    case Poll(poll) => MovePoll(s.t, s.poll, poll).start
    case Handle(h, handle) => if h in s.handlers then MoveHandler(s.t, s.handlers[h], handle).start else None
    case _ => None
  }

  // Only a dispatch adds a running entry, and it ends within the limits in force.
  lemma OnlyDispatchGrowsRunning(cfg: Config, steps: seq<Step>, step: Step)
    ensures var s := Exec(Init(cfg), steps);
      var r := Apply(s, step);
      && (Started(s, step).None? ==> |r.t.board.running| <= |s.t.board.running|)
      && (Started(s, step).Some? ==>
            && r.t.cfg == s.t.cfg
            && |r.t.board.running| == |s.t.board.running| + 1
            && WithinLimits(r.t, Started(s, step).value.0.state))
  {
    RunsKeepInv(cfg, steps);
    GrowthFitsLimits(Exec(Init(cfg), steps), step);
  }

  lemma GrowthFitsLimits(s: System, step: Step)
    requires FleetInv(s)
    ensures var r := Apply(s, step);
      && (Started(s, step).None? ==> |r.t.board.running| <= |s.t.board.running|)
      && (Started(s, step).Some? ==>
            && r.t.cfg == s.t.cfg
            && |r.t.board.running| == |s.t.board.running| + 1
            && WithinLimits(r.t, Started(s, step).value.0.state))
  {
    hide ApplyOutside, ApplyPoll, ApplyWork, ApplyHandle;
    match step {
      case Outside(outside) => OutsideKeepsFleet(s, outside);
      case Work(w, work) => WorkKeepsFleet(s, w, work);
      case Poll(poll) =>
        PollKeepsFleet(s, poll);
        PollStartFits(s, poll);
      case Handle(h, handle) =>
        HandleKeepsFleet(s, h, handle);
        HandleStartFits(s, h, handle);
    }
  }

  lemma PollStartFits(s: System, step: PollStep)
    requires FleetInv(s)
    ensures MovePoll(s.t, s.poll, step).start.Some? ==>
      var r := ApplyPoll(s, step);
      && r.t.cfg == s.t.cfg
      && |r.t.board.running| == |s.t.board.running| + 1
      && WithinLimits(r.t, MovePoll(s.t, s.poll, step).start.value.0.state)
  {
    var m := MovePoll(s.t, s.poll, step);
    if m.start.Some? {
      StartFits(s.(t := m.t, poll := m.poll), m.start.value.0, m.start.value.1);
    }
  }

  lemma HandleStartFits(s: System, h: TimerId, step: HandlerStep)
    requires FleetInv(s)
    ensures h in s.handlers && MoveHandler(s.t, s.handlers[h], step).start.Some? ==>
      var r := ApplyHandle(s, h, step);
      && r.t.cfg == s.t.cfg
      && |r.t.board.running| == |s.t.board.running| + 1
      && WithinLimits(r.t, MoveHandler(s.t, s.handlers[h], step).start.value.0.state)
  {
    if h in s.handlers {
      var m := MoveHandler(s.t, s.handlers[h], step);
      if m.start.Some? {
        StartFits(
          s.(t := s.t.(retries := m.retries, claimed := m.claimed), handlers := s.handlers - {h}),
          m.start.value.0, m.start.value.1);
      }
    }
  }

  lemma StartFits(s: System, issue: Issue, attempt: int)
    requires FleetInv(s) && MayDispatch(s.t, issue)
    ensures var r := StartWorker(s, Some((issue, attempt)));
      && r.t.cfg == s.t.cfg
      && |r.t.board.running| == |s.t.board.running| + 1
      && WithinLimits(r.t, issue.state)
  {
    StartKeepsFleet(s, issue, attempt);
    DispatchFitsLimits(s.t, issue, attempt, s.nextWorker, s.now);
  }

  // No more agents than the largest limit that was ever in force; with a fixed
  // configuration that is the limit itself.
  lemma {:induction false} ConcurrencyBound(cfg: Config, steps: seq<Step>, most: int)
    requires forall k | 0 <= k <= |steps| :: MaxConcurrent(Exec(Init(cfg), steps[..k]).t.cfg) <= most
    ensures |Exec(Init(cfg), steps).t.board.running| <= most
  {
    if steps == [] {
      assert MaxConcurrent(Exec(Init(cfg), steps[..0]).t.cfg) <= most;
    } else {
      var front := steps[..|steps| - 1];
      forall k | 0 <= k <= |front| ensures MaxConcurrent(Exec(Init(cfg), front[..k]).t.cfg) <= most {
        assert front[..k] == steps[..k];
      }
      ConcurrencyBound(cfg, front, most);
      assert steps[..|steps|] == steps;
      OnlyDispatchGrowsRunning(cfg, front, steps[|steps| - 1]);
    }
  }
}
