/**
 What every interleaving keeps of workers, claims and running entries: one worker
 per issue, no orphaned claim, and no more agents than the limits allow.
 */
module FleetInvariants {
  import opened Wrappers
  import opened Eligibility
  import opened Keyed
  import opened Tables
  import opened Scheduler
  import opened RetryInvariants

  type Workers = map<WorkerId, Worker>

  // `cancels` has exactly the ids of the workers between dispatch and their own
  // delete, one each; `ids`, the running ids, are those still in the issue flow.
  ghost predicate Crewed(cancels: map<string, WorkerId>, ids: set<string>, workers: Workers, next: WorkerId) {
    && (forall w | w in workers :: w < next)
    && (forall id | id in cancels ::
          cancels[id] in workers && workers[cancels[id]].issue.id == id && workers[cancels[id]].Active())
    && (forall w | w in workers && workers[w].Active() ::
          workers[w].issue.id in cancels && cancels[workers[w].issue.id] == w)
    && (forall id | id in ids :: id in cancels && workers[cancels[id]].pc.Trunk?)
    && (forall w | w in workers && workers[w].pc.Trunk? :: workers[w].issue.id in ids)
  }

  ghost predicate FleetInv(s: System) {
    && Unique(s.t.board.running, RunKey)
    && Crewed(s.t.cancels, RunningIds(s.t.board), s.workers, s.nextWorker)
  }

  // --- Running entries keep their ids ---

  lemma SameKeys(running: seq<RunningEntry>, i: nat, e: RunningEntry)
    requires i < |running| && e.id == running[i].id
    ensures Keys(running[i := e], RunKey) == Keys(running, RunKey)
    ensures Unique(running, RunKey) ==> Unique(running[i := e], RunKey)
  {
    var r := running[i := e];
    assert forall k | 0 <= k < |running| :: RunKey(r[k]) == RunKey(running[k]);
    forall k | k in Keys(running, RunKey) ensures k in Keys(r, RunKey) {
      var j :| 0 <= j < |running| && RunKey(running[j]) == k;
      assert RunKey(r[j]) == k;
    }
  }

  lemma SetStageKeys(b: Board, issue: Issue, attempt: int, stage: Stage, now: int)
    ensures var r := SetStage(b, issue, attempt, stage, now);
      && RunningIds(r) == RunningIds(b) + {issue.id}
      && (Unique(b.running, RunKey) ==> Unique(r.running, RunKey))
      && |r.running| == if issue.id in RunningIds(b) then |b.running| else |b.running| + 1
  {
    var i := Find(b.running, RunKey, issue.id);
    var entry := StageEntry(issue, attempt, stage, now);
    if i < |b.running| {
      SameKeys(b.running, i, Inherit(entry, b.running[i]));
      KeysHas(b.running, RunKey, i);
    } else {
      KeysSnoc(b.running + [entry]);
      assert (b.running + [entry])[..|b.running|] == b.running;
    }
  }

  lemma RemoveRunningKeys(b: Board, id: string, now: int)
    ensures var r := RemoveRunning(b, id, now);
      && RunningIds(r) == RunningIds(b) - {id}
      && (Unique(b.running, RunKey) ==> Unique(r.running, RunKey))
      && |r.running| <= |b.running|
  {
    WithoutKeys(b.running, RunKey, id);
    WithoutMembers(b.running, RunKey, id);
    if Unique(b.running, RunKey) {
      WithoutUnique(b.running, RunKey, id);
    }
  }

  lemma UpdateKeys(b: Board, id: string, state: string, event: CodexEvent, now: int)
    ensures RunningIds(UpdateState(b, id, state)) == RunningIds(b) == RunningIds(UpdateFromEvent(b, id, event, now))
    ensures Unique(b.running, RunKey) ==>
      Unique(UpdateState(b, id, state).running, RunKey) && Unique(UpdateFromEvent(b, id, event, now).running, RunKey)
    ensures |UpdateState(b, id, state).running| == |b.running| == |UpdateFromEvent(b, id, event, now).running|
  {
    var i := Find(b.running, RunKey, id);
    if i < |b.running| {
      SameKeys(b.running, i, b.running[i].(state := state));
      SameKeys(b.running, i, Observe(b.running[i], event, now));
    }
  }

  // --- One worker per issue ---

  lemma InTrunkKeeps(t: Tables, now: int, worker: Worker, step: WorkerStep)
    requires worker.pc.Trunk? && worker.issue.id in RunningIds(t.board)
    ensures var m := InTrunk(t, now, worker, step);
      && m.t.cancels == t.cancels
      && (Unique(t.board.running, RunKey) ==> Unique(m.t.board.running, RunKey))
      && |m.t.board.running| <= |t.board.running|
      && if step.Return?
         then m.next == Some(Removed(step.exit)) && RunningIds(m.t.board) == RunningIds(t.board) - {worker.issue.id}
         else m.next == Some(Trunk) && RunningIds(m.t.board) == RunningIds(t.board)
  {
    if step.EnterStage? {
      SetStageKeys(t.board, step.issue, worker.attempt, step.stage, now);
    } else if step.Report? {
      UpdateKeys(t.board, worker.issue.id, "", step.event, now);
    } else if step.Return? {
      RemoveRunningKeys(t.board, worker.issue.id, now);
    }
  }

  lemma InExitKeeps(t: Tables, worker: Worker, step: WorkerStep)
    requires !worker.pc.Trunk?
    ensures var m := InExit(t, worker, step);
      && m.t.board == t.board
      && (m.next.Some? ==> !m.next.value.Trunk?)
      && (if worker.pc.Removed? && step.Uncancel?
          then m.t.cancels == t.cancels - {worker.issue.id} && m.next.Some? && m.next.value.Uncancelled?
          else
            && m.t.cancels == t.cancels
            && (m.next.Some? ==> m.next.value.Removed? == worker.pc.Removed?)
            && (m.next.None? ==> !worker.pc.Removed?))
  {
  }

  // A worker moves to `pc`, or ends, while the tables follow it.
  lemma CrewMoves(cancels: map<string, WorkerId>, ids: set<string>, workers: Workers, next: WorkerId, w: WorkerId,
                  cancels': map<string, WorkerId>, ids': set<string>, pc: Option<WorkerPc>)
    requires Crewed(cancels, ids, workers, next) && w in workers
    requires ids' == if workers[w].pc.Trunk? && pc != Some(Trunk) then ids - {workers[w].issue.id} else ids
    requires cancels' ==
      if workers[w].pc.Removed? && (pc.None? || !pc.value.Removed?) then cancels - {workers[w].issue.id} else cancels
    requires workers[w].pc.Trunk? ==> pc.Some? && (pc.value.Trunk? || pc.value.Removed?)
    requires !workers[w].pc.Trunk? ==> pc.None? || !pc.value.Trunk?
    requires !workers[w].Active() ==> pc.None? || !pc.value.Removed?
    ensures Crewed(cancels', ids', if pc.Some? then workers[w := workers[w].(pc := pc.value)] else workers - {w}, next)
  {
  }

  lemma WorkKeepsFleet(s: System, w: WorkerId, step: WorkerStep)
    requires FleetInv(s)
    ensures FleetInv(ApplyWork(s, w, step))
    ensures |ApplyWork(s, w, step).t.board.running| <= |s.t.board.running|
  {
    if w in s.workers {
      var worker := s.workers[w];
      var m := MoveWorker(s.t, s.now, worker, step);
      if worker.pc.Trunk? {
        InTrunkKeeps(s.t, s.now, worker, step);
      } else {
        InExitKeeps(s.t, worker, step);
      }
      CrewMoves(
        s.t.cancels, RunningIds(s.t.board), s.workers, s.nextWorker, w,
        m.t.cancels, RunningIds(m.t.board), m.next);
    }
  }

  lemma StartKeepsFleet(s: System, issue: Issue, attempt: int)
    requires FleetInv(s) && issue.id !in s.t.cancels
    ensures FleetInv(StartWorker(s, Some((issue, attempt))))
    ensures |StartWorker(s, Some((issue, attempt))).t.board.running| == |s.t.board.running| + 1
  {
    hide SetStage, ClearRetry;
    SetStageKeys(s.t.board, issue, attempt, QUEUED, s.now);
    var r := StartWorker(s, Some((issue, attempt)));
    assert r.t.board == SetStage(s.t.board, issue, attempt, QUEUED, s.now);
    assert RunningIds(r.t.board) == RunningIds(s.t.board) + {issue.id};
  }

  lemma PollKeepsFleet(s: System, step: PollStep)
    requires FleetInv(s)
    ensures FleetInv(ApplyPoll(s, step))
    ensures MovePoll(s.t, s.poll, step).start.None? ==> |ApplyPoll(s, step).t.board.running| == |s.t.board.running|
  {
    hide CandidateEligible, EligibilityOf, ScheduleRetry, SetStage;
    var m := MovePoll(s.t, s.poll, step);
    if m.start.Some? {
      StartKeepsFleet(s.(t := m.t, poll := m.poll), m.start.value.0, m.start.value.1);
    } else if step.UpdateRunning? {
      UpdateKeys(s.t.board, step.id, step.state, CodexEvent("", "", "", "", "", None, None), 0);
    }
  }

  lemma HandleKeepsFleet(s: System, h: TimerId, step: HandlerStep)
    requires FleetInv(s)
    ensures FleetInv(ApplyHandle(s, h, step))
    ensures h !in s.handlers || MoveHandler(s.t, s.handlers[h], step).start.None?
      ==> ApplyHandle(s, h, step).t.board == s.t.board
  {
    if h in s.handlers {
      var m := MoveHandler(s.t, s.handlers[h], step);
      if m.start.Some? {
        var mid := s.(t := s.t.(retries := m.retries, claimed := m.claimed), handlers := s.handlers - {h});
        StartKeepsFleet(mid, m.start.value.0, m.start.value.1);
      }
    }
  }

  lemma OutsideKeepsFleet(s: System, step: OutsideStep)
    requires FleetInv(s)
    ensures FleetInv(ApplyOutside(s, step)) && ApplyOutside(s, step).t.board == s.t.board
  {
  }

  lemma StepKeepsFleet(s: System, step: Step)
    requires FleetInv(s)
    ensures FleetInv(Apply(s, step))
  {
    hide ApplyOutside, ApplyPoll, ApplyWork, ApplyHandle;
    match step {
      case Outside(outside) => OutsideKeepsFleet(s, outside);
      case Poll(poll) => PollKeepsFleet(s, poll);
      case Work(w, work) => WorkKeepsFleet(s, w, work);
      case Handle(h, handle) => HandleKeepsFleet(s, h, handle);
    }
  }

  // --- No orphaned claim ---

  ghost predicate HasWorker(workers: Workers, id: string) {
    exists w :: w in workers && workers[w].issue.id == id
  }

  ghost predicate BeingFreed(hs: Handlers, id: string) {
    exists h :: h in hs && hs[h].id == id && hs[h].pc.Freeing?
  }

  // Something is still going to settle this claim.
  ghost predicate Accounted(s: System, id: string) {
    HasWorker(s.workers, id) || id in s.t.retries.attempts || BeingFreed(s.handlers, id)
  }

  ghost predicate NoOrphan(s: System) {
    forall id | id in s.t.claimed :: Accounted(s, id)
  }

  lemma MoveWorkerClaims(t: Tables, now: int, worker: Worker, step: WorkerStep)
    ensures var m := MoveWorker(t, now, worker, step);
      && m.t.claimed <= t.claimed
      && t.retries.attempts.Keys <= m.t.retries.attempts.Keys
      && (m.next.None? ==> worker.issue.id !in m.t.claimed || worker.issue.id in m.t.retries.attempts)
  {
  }

  lemma WorkKeepsClaims(s: System, w: WorkerId, step: WorkerStep)
    requires NoOrphan(s)
    ensures NoOrphan(ApplyWork(s, w, step))
  {
    if w in s.workers {
      MoveWorkerClaims(s.t, s.now, s.workers[w], step);
      var r := ApplyWork(s, w, step);
      forall id | id in r.t.claimed ensures Accounted(r, id) {
        assert Accounted(s, id);
        if HasWorker(s.workers, id) {
          var v :| v in s.workers && s.workers[v].issue.id == id;
          if v in r.workers {
            assert r.workers[v].issue.id == id;
          }
        }
      }
    }
  }

  lemma StartKeepsClaims(s: System, start: Option<(Issue, int)>)
    requires forall w | w in s.workers :: w < s.nextWorker
    requires forall id | id in s.t.claimed :: Accounted(s, id) || (start.Some? && start.value.0.id == id)
    ensures NoOrphan(StartWorker(s, start))
  {
    var r := StartWorker(s, start);
    forall id | id in r.t.claimed ensures Accounted(r, id) {
      if start.Some? && start.value.0.id == id {
        assert r.workers[s.nextWorker].issue.id == id;
      } else if HasWorker(s.workers, id) {
        var w :| w in s.workers && s.workers[w].issue.id == id;
        assert w in r.workers && r.workers[w].issue.id == id;
      }
    }
  }

  lemma PollKeepsClaims(s: System, step: PollStep)
    requires NoOrphan(s) && FleetInv(s)
    ensures NoOrphan(ApplyPoll(s, step))
  {
    var m := MovePoll(s.t, s.poll, step);
    var mid := s.(t := m.t, poll := m.poll);
    assert m.t.claimed == s.t.claimed && s.t.retries.attempts.Keys <= m.t.retries.attempts.Keys;
    forall id | id in mid.t.claimed ensures Accounted(mid, id) {
      assert Accounted(s, id);
    }
    StartKeepsClaims(mid, m.start);
  }

  lemma MoveHandlerClaims(t: Tables, handler: Handler, step: HandlerStep)
    requires OnTarget(handler)
    ensures var m := MoveHandler(t, handler, step);
      && (m.start.Some? ==> m.start.value.0.id == handler.id && !handler.pc.Freeing?)
      && m.claimed == (if handler.pc.Freeing? && m.next.None? then t.claimed - {handler.id} else t.claimed)
      && (handler.pc.Freeing? ==> m.next.None? || m.next.value.Freeing?)
      && t.retries.attempts.Keys - {handler.id} <= m.retries.attempts.Keys
      && (handler.id !in m.retries.attempts && handler.id in t.retries.attempts ==> m.next == Some(Freeing))
  {
  }

  lemma HandleKeepsClaims(s: System, h: TimerId, step: HandlerStep)
    requires NoOrphan(s) && FleetInv(s) && HandlersOnTarget(s.handlers)
    ensures NoOrphan(ApplyHandle(s, h, step))
  {
    if h in s.handlers {
      assert OnTarget(s.handlers[h]);
      MoveHandlerClaims(s.t, s.handlers[h], step);
      var m := MoveHandler(s.t, s.handlers[h], step);
      var hs' := if m.next.Some? then s.handlers[h := s.handlers[h].(pc := m.next.value)] else s.handlers - {h};
      var mid := s.(t := s.t.(retries := m.retries, claimed := m.claimed), handlers := hs');
      forall id | id in mid.t.claimed
        ensures Accounted(mid, id) || (m.start.Some? && m.start.value.0.id == id)
      {
        assert Accounted(s, id);
        if BeingFreed(s.handlers, id) {
          var k :| k in s.handlers && s.handlers[k].id == id && s.handlers[k].pc.Freeing?;
          assert k in hs' && hs'[k].id == id && hs'[k].pc.Freeing?;
        } else if id in s.t.retries.attempts && id !in m.retries.attempts {
          assert hs'[h].id == id && hs'[h].pc.Freeing?;
        }
      }
      StartKeepsClaims(mid, m.start);
    }
  }

  lemma OutsideKeepsClaims(s: System, step: OutsideStep)
    requires NoOrphan(s) && RetryInv(s)
    ensures NoOrphan(ApplyOutside(s, step))
  {
    var r := ApplyOutside(s, step);
    forall id | id in r.t.claimed ensures Accounted(r, id) {
      assert Accounted(s, id);
      if BeingFreed(s.handlers, id) {
        var k :| k in s.handlers && s.handlers[k].id == id && s.handlers[k].pc.Freeing?;
        assert k in r.handlers && r.handlers[k] == s.handlers[k];
      }
    }
  }

  // --- All of it together ---

  ghost predicate Inv(s: System) {
    RetryInv(s) && HandlersOnTarget(s.handlers) && FleetInv(s) && NoOrphan(s)
  }

  lemma StepKeepsInv(s: System, step: Step)
    requires Inv(s)
    ensures Inv(Apply(s, step))
  {
    StepKeepsRetries(s, step);
    StepKeepsFleet(s, step);
    hide ApplyOutside, ApplyPoll, ApplyWork, ApplyHandle;
    match step {
      case Outside(outside) => OutsideKeepsClaims(s, outside);
      case Poll(poll) => PollKeepsClaims(s, poll);
      case Work(w, work) => WorkKeepsClaims(s, w, work);
      case Handle(h, handle) => HandleKeepsClaims(s, h, handle);
    }
  }

  lemma {:induction false} RunsKeepInv(cfg: Config, steps: seq<Step>)
    ensures Inv(Exec(Init(cfg), steps))
  {
    if steps != [] {
      RunsKeepInv(cfg, steps[..|steps| - 1]);
      StepKeepsInv(Exec(Init(cfg), steps[..|steps| - 1]), steps[|steps| - 1]);
    }
  }
}
