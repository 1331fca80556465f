/**
 The orchestrator object. Each method is one critical section under `o.mu`, run in
 place on the object's maps and slices, and is proved to do what the section's
 function in Tables.dfy says.
 */
module Orchestrators {
  import opened Wrappers
  import opened Eligibility
  import opened Keyed
  import opened Tables
  import Section = Tables
  import Backoff

  class Orchestrator {
    var cfg: Config
    var claimed: set<string>
    var runningCancel: map<string, WorkerId>
    var retryTimers: map<string, TimerId>
    var retryAttempts: map<string, int>
    var armed: map<TimerId, string>
    var nextTimer: TimerId
    var running: seq<RunningEntry>
    var retrying: seq<RetryEntry>
    var totals: Usage
    var secondsRunning: int
    var pendingTerminalCleanup: map<string, Issue>
    var serviceDone: bool

    ghost function Queue(): Retries
      reads this`retryTimers, this`retryAttempts, this`retrying, this`armed, this`nextTimer
    {
      Retries(retryTimers, retryAttempts, retrying, armed, nextTimer)
    }

    ghost function Entries(): Board
      reads this`running, this`totals, this`secondsRunning
    {
      Board(running, totals, secondsRunning)
    }

    ghost function View(): Tables
      reads this
    {
      Tables(cfg, claimed, runningCancel, Queue(), Entries(), pendingTerminalCleanup, serviceDone)
    }

    constructor (cfg: Config)
      ensures View() == Tables(cfg, {}, map[], NO_RETRIES, EMPTY_BOARD, map[], false)
    {
      this.cfg := cfg;
      claimed, runningCancel, retryTimers, retryAttempts := {}, map[], map[], map[];
      armed, nextTimer, running, retrying := map[], 0, [], [];
      totals, secondsRunning, pendingTerminalCleanup, serviceDone := ZERO_USAGE, 0, map[], false;
    }

    method EligibilityStateLocked(ignoreClaim: string) returns (st: EligibilityState)
      ensures st == EligibilityOf(View(), ignoreClaim)
    {
      var states: map<string, string> := map[];
      for i := 0 to |running|
        invariant states == RunningStates(running[..i])
      {
        assert running[..i + 1][..i] == running[..i];
        states := states[running[i].id := running[i].state];
      }
      assert running[..|running|] == running;
      st := EligibilityState(cfg, claimed - {ignoreClaim}, states);
    }

    method GlobalSlotsAvailable() returns (available: nat)
      ensures available == FreeSlots(View())
      ensures available > 0 <==> |running| < MaxConcurrent(cfg)
    {
      var slots := MaxConcurrent(cfg) - |running|;
      available := if slots < 0 then 0 else slots;
    }

    method SetRunningStageLocked(issue: Issue, attempt: int, stage: Stage, now: int)
      modifies this`running
      ensures Entries() == SetStage(old(Entries()), issue, attempt, stage, now)
    {
      var entry := StageEntry(issue, attempt, stage, now);
      for i := 0 to |running|
        invariant running == old(running)
        invariant Find(running, RunKey, issue.id) >= i
      {
        if running[i].id == issue.id {
          assert RunKey(running[i]) == issue.id;
          running := running[i := Inherit(entry, running[i])];
          return;
        }
        FindPast(running, i, issue.id);
      }
      running := running + [entry];
    }

    lemma FindPast(running: seq<RunningEntry>, i: nat, id: string)
      requires i < |running| && running[i].id != id && Find(running, RunKey, id) >= i
      ensures Find(running, RunKey, id) >= i + 1
    {
      assert RunKey(running[i]) != id;
    }

    method RemoveRunning(id: string, now: int)
      modifies this`running, this`secondsRunning
      ensures Entries() == Section.RemoveRunning(old(Entries()), id, now)
    {
      var kept: seq<RunningEntry> := [];
      var seconds := secondsRunning;
      for i := 0 to |running|
        invariant kept == Without(running[..i], RunKey, id)
        invariant seconds == secondsRunning + LiveOf(running[..i], id, now)
      {
        assert running[..i + 1][..i] == running[..i];
        assert RunKey(running[i]) == running[i].id;
        if running[i].id == id {
          if running[i].startedAt != 0 {
            seconds := seconds + (now - running[i].startedAt);
          }
        } else {
          kept := kept + [running[i]];
        }
      }
      assert running[..|running|] == running;
      running, secondsRunning := kept, seconds;
    }

    method UpdateRunningState(id: string, state: string)
      modifies this`running
      ensures Entries() == UpdateState(old(Entries()), id, state)
    {
      for i := 0 to |running|
        invariant running == old(running)
        invariant Find(running, RunKey, id) >= i
      {
        if running[i].id == id {
          assert RunKey(running[i]) == id;
          running := running[i := running[i].(state := state)];
          return;
        }
        FindPast(running, i, id);
      }
    }

    method UpdateRunningFromEvent(id: string, event: CodexEvent, now: int)
      modifies this`running, this`totals
      ensures Entries() == UpdateFromEvent(old(Entries()), id, event, now)
    {
      for i := 0 to |running|
        invariant running == old(running) && totals == old(totals)
        invariant Find(running, RunKey, id) >= i
      {
        if running[i].id == id {
          assert RunKey(running[i]) == id;
          if event.usage.Some? {
            totals := totals.Plus(TokenDelta(event.usage.value, running[i].tokens));
          }
          running := running[i := Observe(running[i], event, now)];
          return;
        }
        FindPast(running, i, id);
      }
    }

    method StopTimer(id: string)
      modifies this`armed
      ensures armed == if id in retryTimers then old(armed) - {retryTimers[id]} else old(armed)
    {
      if id in retryTimers {
        armed := armed - {retryTimers[id]};
      }
    }

    method PutRetryLocked(entry: RetryEntry)
      modifies this`retrying
      ensures retrying == Put(old(retrying), RetryKey, entry)
    {
      assert RetryKey(entry) == entry.id;
      for i := 0 to |retrying|
        invariant retrying == old(retrying)
        invariant Find(retrying, RetryKey, entry.id) >= i
      {
        assert RetryKey(retrying[i]) == retrying[i].id;
        if retrying[i].id == entry.id {
          retrying := retrying[i := entry];
          return;
        }
      }
      retrying := retrying + [entry];
    }

    // The delay is computed before the section that queues the retry.
    method ScheduleRetry(issue: Issue, attempt: int, reason: Backoff.RetryReason, error: string, now: int)
      returns (delay: int)
      modifies this`retryTimers, this`retryAttempts, this`retrying, this`armed, this`nextTimer
      ensures delay == Backoff.RetryDelay(reason, attempt, Backoff.MaxRetryBackoff(cfg.maxRetryBackoffMS))
      ensures Queue() == Section.ScheduleRetry(old(Queue()), issue, attempt, error, now + delay)
    {
      delay := Backoff.ComputeRetryDelay(reason, attempt, Backoff.MaxRetryBackoff(cfg.maxRetryBackoffMS));
      QueueRetryLocked(issue, attempt, error, now + delay);
    }

    method QueueRetryLocked(issue: Issue, attempt: int, error: string, dueAt: int)
      modifies this`retryTimers, this`retryAttempts, this`retrying, this`armed, this`nextTimer
      ensures Queue() == Section.ScheduleRetry(old(Queue()), issue, attempt, error, dueAt)
    {
      StopTimer(issue.id);
      retryAttempts := retryAttempts[issue.id := attempt];
      PutRetryLocked(RetryEntry(issue.id, issue.identifier, attempt, dueAt, error));
      retryTimers := retryTimers[issue.id := nextTimer];
      armed := armed[nextTimer := issue.id];
      nextTimer := nextTimer + 1;
    }

    method RemoveRetryLocked(id: string)
      modifies this`retrying
      ensures retrying == Without(old(retrying), RetryKey, id)
    {
      var kept: seq<RetryEntry> := [];
      for i := 0 to |retrying|
        invariant kept == Without(retrying[..i], RetryKey, id)
      {
        assert retrying[..i + 1][..i] == retrying[..i];
        assert RetryKey(retrying[i]) == retrying[i].id;
        if retrying[i].id != id {
          kept := kept + [retrying[i]];
        }
      }
      assert retrying[..|retrying|] == retrying;
      retrying := kept;
    }

    method ClearRetry(id: string)
      modifies this`retryTimers, this`retryAttempts, this`retrying, this`armed
      ensures Queue() == Section.ClearRetry(old(Queue()), id)
    {
      StopTimer(id);
      retryTimers := retryTimers - {id};
      retryAttempts := retryAttempts - {id};
      RemoveRetryLocked(id);
    }

    method StopRetryTimers()
      modifies this`retryTimers, this`armed
      ensures armed == old(armed) - old(retryTimers).Values && retryTimers == map[]
      ensures Queue() == Section.StopRetryTimers(old(Queue()))
    {
      StopEachTimer();
    }

    method StopEachTimer()
      modifies this`retryTimers, this`armed
      ensures armed == old(armed) - old(retryTimers).Values && retryTimers == map[]
    {
      ghost var stopped: set<TimerId> := {};
      while retryTimers != map[]
        invariant armed == old(armed) - stopped
        invariant stopped + retryTimers.Values == old(retryTimers).Values
        decreases |retryTimers|
      {
        var id :| id in retryTimers;
        var timer := retryTimers[id];
        ValuesWithout(retryTimers, id);
        armed := armed - {timer};
        retryTimers := retryTimers - {id};
        stopped := stopped + {timer};
        assert armed == old(armed) - stopped;
      }
    }

    lemma ValuesWithout(timers: map<string, TimerId>, id: string)
      requires id in timers
      ensures timers.Values == (timers - {id}).Values + {timers[id]}
      ensures |timers - {id}| < |timers|
    {
      var rest := timers - {id};
      assert rest.Keys == timers.Keys - {id};
      assert |rest| == |rest.Keys| && |timers| == |timers.Keys|;
      forall k | k in timers.Values ensures k in rest.Values + {timers[id]} {
        var x :| x in timers && timers[x] == k;
        if x != id {
          assert x in rest && rest[x] == k;
        }
      }
    }

    method DispatchIssueDone(issue: Issue, attempt: int, worker: WorkerId, now: int) returns (ok: bool)
      modifies this
      ensures cfg == old(cfg)
      ensures ok == MayDispatch(old(View()), issue)
      ensures View() == if ok then Dispatch(old(View()), issue, attempt, worker, now) else old(View())
    {
      if serviceDone || issue.id in runningCancel {
        return false;
      }
      var st := EligibilityStateLocked(issue.id);
      var verdict := CandidateEligible(issue, st);
      if verdict != Eligible && verdict != Refused(Claimed) {
        return false;
      }
      AdmitLocked(issue, attempt, worker, now);
      return true;
    }

    method AdmitLocked(issue: Issue, attempt: int, worker: WorkerId, now: int)
      modifies this`claimed, this`runningCancel, this`retryTimers, this`retryAttempts, this`retrying, this`armed
      modifies this`running
      ensures claimed == old(claimed) + {issue.id} && runningCancel == old(runningCancel)[issue.id := worker]
      ensures Queue() == Section.ClearRetry(old(Queue()), issue.id)
      ensures Entries() == SetStage(old(Entries()), issue, attempt, QUEUED, now)
    {
      claimed := claimed + {issue.id};
      runningCancel := runningCancel[issue.id := worker];
      ClearRetry(issue.id);
      SetRunningStageLocked(issue, attempt, QUEUED, now);
    }

    method ReleaseIssue(id: string)
      modifies this`claimed
      ensures claimed == old(claimed) - {id}
    {
      claimed := claimed - {id};
    }

    method PopPendingTerminalCleanup(id: string) returns (cleanup: Option<Issue>)
      modifies this`pendingTerminalCleanup
      ensures cleanup == if id in old(pendingTerminalCleanup) then Some(old(pendingTerminalCleanup)[id]) else None
      ensures pendingTerminalCleanup == old(pendingTerminalCleanup) - {id}
    {
      if id in pendingTerminalCleanup {
        cleanup := Some(pendingTerminalCleanup[id]);
        pendingTerminalCleanup := pendingTerminalCleanup - {id};
      } else {
        cleanup := None;
        assert pendingTerminalCleanup == pendingTerminalCleanup - {id};
      }
    }
  }

  /**
   The filter of removeRetryLocked on the backing array itself: the kept entries are
   written into the front of the slice that is still being read.
   */
  method FilterInPlace(entries: array<RetryEntry>, len: nat, id: string) returns (kept: nat)
    requires len <= entries.Length
    modifies entries
    ensures kept <= len
    ensures entries[..kept] == Without(old(entries[..len]), RetryKey, id)
    ensures entries[len..] == old(entries[len..])
  {
    kept := 0;
    ghost var was := entries[..len];
    for i := 0 to len
      invariant kept <= i
      invariant entries[..kept] == Without(was[..i], RetryKey, id)
      invariant entries[i..] == old(entries[i..])
    {
      assert was[..i + 1][..i] == was[..i];
      assert entries[i] == entries[i..][0] && was[i] == old(entries[i..])[0];
      assert RetryKey(was[i]) == was[i].id;
      if entries[i].id != id {
        entries[kept] := entries[i];
        kept := kept + 1;
        assert entries[..kept] == entries[..kept - 1] + [was[i]];
      }
      assert entries[i + 1..] == old(entries[i + 1..]);
    }
    assert was[..len] == was;
  }
}
