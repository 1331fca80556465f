/**
 The reloader while somebody writes the workflow file: every stat and every load reads
 the file as it is at its own moment.
 */
module ReloaderRuns {
  import opened Reloading
  import opened Wrappers

  // What stat and Load find; a file that does not parse has no workflow.
  datatype File = Missing | File(stamp: Stamp, workflow: Option<Workflow>)

  function StatOf(f: File): Option<Stamp> {
    if f.Missing? then None else Some(f.stamp)
  }

  function LoadOf(f: File): Option<Workflow> {
    if f.Missing? then None else f.workflow
  }

  // A reload under way: it has found another stamp and not yet loaded, or has offered
  // its candidate and not yet heard whether to commit it.
  datatype Call = Statted(stamp: Stamp) | Offered

  // All the file has been, the present last; the reloader; and the reloads under way.
  datatype System = System(history: seq<File>, reloader: State, calls: seq<Call>)

  datatype Step = Write(file: File) | Look | Read(call: nat) | Accept(call: nat) | Abandon(call: nat)

  // The moments of the first load's calls to stat, load and stat, attempt by attempt.
  predicate Moments(history: seq<File>, times: seq<nat>) {
    && |times| == 3 * STABLE_LOAD_ATTEMPTS
    && (forall i | 0 <= i < |times| :: times[i] < |history|)
    && forall i, j | 0 <= i <= j < |times| :: times[i] <= times[j]
  }

  function AttemptAt(history: seq<File>, times: seq<nat>, n: nat): Attempt
    requires Moments(history, times) && n < STABLE_LOAD_ATTEMPTS
  {
    Attempt(StatOf(history[times[3 * n]]), LoadOf(history[times[3 * n + 1]]), StatOf(history[times[3 * n + 2]]))
  }

  function Boot(history: seq<File>, times: seq<nat>): Option<System>
    requires Moments(history, times)
  {
    var attempts := seq(STABLE_LOAD_ATTEMPTS, n requires 0 <= n < STABLE_LOAD_ATTEMPTS => AttemptAt(history, times, n));
    var r := StableLoad(attempts);
    if r.Err? then None
    else Some(System(history, State(r.value.0, r.value.1, None, Stamp(0, 0)), []))
  }

  function Present(s: System): File {
    if s.history == [] then Missing else s.history[|s.history| - 1]
  }

  predicate SaysUnchanged(s: System) {
    StatOf(Present(s)) == Some(s.reloader.stamp)
  }

  function Over(calls: seq<Call>, call: nat): seq<Call>
    requires call < |calls|
  {
    calls[..call] + calls[call + 1..]
  }

  // A reload stats in one step, loads in a later one, and in a third has its candidate
  // committed, or not; any number may be under way.
  function Next(s: System, step: Step): System {
    match step
    case Write(file) => s.(history := s.history + [file])
    case Look =>
      if StatOf(Present(s)).None? || SaysUnchanged(s) then s
      else s.(calls := s.calls + [Statted(StatOf(Present(s)).value)])
    case Read(call) =>
      if call >= |s.calls| || !s.calls[call].Statted? then s
      else
        var (reloader, said) := LoadAfter(s.reloader, s.calls[call].stamp, LoadOf(Present(s)));
        s.(reloader := reloader, calls := if said.Candidate? then s.calls[call := Offered] else Over(s.calls, call))
    case Accept(call) =>
      if call >= |s.calls| || !s.calls[call].Offered? then s
      else s.(reloader := Commit(s.reloader), calls := Over(s.calls, call))
    case Abandon(call) =>
      if call >= |s.calls| || !s.calls[call].Offered? then s
      else s.(calls := Over(s.calls, call))
  }

  function Exec(s: System, steps: seq<Step>): System
    decreases |steps|
  {
    if steps == [] then s else Exec(Next(s, steps[0]), steps[1..])
  }

  // --- Where the workflows come from ---

  // Stat found the stamp, and a load not before it found the workflow.
  ghost predicate Traced(history: seq<File>, stamp: Stamp, w: Workflow) {
    exists i, k | 0 <= i <= k < |history| ::
      StatOf(history[i]) == Some(stamp) && LoadOf(history[k]) == Some(w)
  }

  ghost predicate Seen(history: seq<File>, stamp: Stamp) {
    exists i | 0 <= i < |history| :: StatOf(history[i]) == Some(stamp)
  }

  ghost predicate Inv(s: System) {
    && s.history != []
    && Traced(s.history, s.reloader.stamp, s.reloader.current)
    && (s.reloader.pending.Some? ==> Traced(s.history, s.reloader.pendingStamp, s.reloader.pending.value))
    && forall c | c in s.calls && c.Statted? :: Seen(s.history, c.stamp)
  }

  lemma TracedLater(history: seq<File>, more: seq<File>, stamp: Stamp, w: Workflow)
    requires Traced(history, stamp, w) && history <= more
    ensures Traced(more, stamp, w)
  {
    var i, k :| 0 <= i <= k < |history| && StatOf(history[i]) == Some(stamp) && LoadOf(history[k]) == Some(w);
    assert more[i] == history[i] && more[k] == history[k];
  }

  lemma SeenLater(history: seq<File>, more: seq<File>, stamp: Stamp)
    requires Seen(history, stamp) && history <= more
    ensures Seen(more, stamp)
  {
    var i :| 0 <= i < |history| && StatOf(history[i]) == Some(stamp);
    assert more[i] == history[i];
  }

  lemma SeenThenLoaded(s: System, stamp: Stamp, w: Workflow)
    requires s.history != [] && Seen(s.history, stamp) && LoadOf(Present(s)) == Some(w)
    ensures Traced(s.history, stamp, w)
  {
    var i :| 0 <= i < |s.history| && StatOf(s.history[i]) == Some(stamp);
    var k := |s.history| - 1;
    assert i <= k && LoadOf(s.history[k]) == Some(w);
  }

  lemma StepKeepsInv(s: System, step: Step)
    requires Inv(s)
    ensures Inv(Next(s, step)) && s.history <= Next(s, step).history
  {
    hide Traced, Seen;
    var n := Next(s, step);
    if step.Write? {
      TracedLater(s.history, n.history, s.reloader.stamp, s.reloader.current);
      if s.reloader.pending.Some? {
        TracedLater(s.history, n.history, s.reloader.pendingStamp, s.reloader.pending.value);
      }
      forall c | c in n.calls && c.Statted? ensures Seen(n.history, c.stamp) {
        SeenLater(s.history, n.history, c.stamp);
      }
    } else if step.Look? {
      if n != s {
        SeenNow(s);
      }
    } else if step.Read? && step.call < |s.calls| && s.calls[step.call].Statted? && LoadOf(Present(s)).Some? {
      assert s.calls[step.call] in s.calls;
      SeenThenLoaded(s, s.calls[step.call].stamp, LoadOf(Present(s)).value);
    }
  }

  lemma SeenNow(s: System)
    requires s.history != [] && StatOf(Present(s)).Some?
    ensures Seen(s.history, StatOf(Present(s)).value)
  {
    assert StatOf(s.history[|s.history| - 1]) == StatOf(Present(s));
  }

  lemma {:induction false} RunKeepsInv(s: System, steps: seq<Step>)
    requires Inv(s)
    ensures Inv(Exec(s, steps)) && s.history <= Exec(s, steps).history
    decreases |steps|
  {
    if steps != [] {
      StepKeepsInv(s, steps[0]);
      RunKeepsInv(Next(s, steps[0]), steps[1..]);
    }
  }

  lemma BootIsTraced(history: seq<File>, times: seq<nat>)
    requires Moments(history, times) && Boot(history, times).Some?
    ensures Inv(Boot(history, times).value)
  {
    var attempts := seq(STABLE_LOAD_ATTEMPTS, n requires 0 <= n < STABLE_LOAD_ATTEMPTS => AttemptAt(history, times, n));
    var r := StableLoad(attempts);
    StableLoadIsFirstSettled(attempts, r.value.0, r.value.1);
    var n: nat :| FirstSettled(attempts, n, r.value.0, r.value.1);
    assert attempts[n] == AttemptAt(history, times, n);
    var i, k := times[3 * n], times[3 * n + 1];
    assert i <= k < |history| && StatOf(history[i]) == Some(r.value.1) && LoadOf(history[k]) == Some(r.value.0);
  }

  // --- When the reloader misses nothing ---

  // Between two moments with the same stamp, no load finds anything but what the file
  // says at the second.
  ghost predicate StampsTell(history: seq<File>) {
    forall i, k, j | 0 <= i <= k <= j < |history|
        && StatOf(history[i]).Some? && StatOf(history[i]) == StatOf(history[j]) && LoadOf(history[k]).Some? ::
      LoadOf(history[j]) == LoadOf(history[k])
  }

  ghost predicate FreshStamps(history: seq<File>) {
    forall i, j | 0 <= i < j < |history| && StatOf(history[i]).Some? :: StatOf(history[i]) != StatOf(history[j])
  }

  // Whenever the reloader says unchanged, what it committed is what the file says.
  ghost predicate NeverMisses(history: seq<File>) {
    forall boot: seq<File>, times: seq<nat>, steps: seq<Step> |
        Moments(boot, times) && Boot(boot, times).Some?
        && Exec(Boot(boot, times).value, steps).history <= history
        && SaysUnchanged(Exec(Boot(boot, times).value, steps)) ::
      LoadOf(Present(Exec(Boot(boot, times).value, steps))) ==
        Some(Exec(Boot(boot, times).value, steps).reloader.current)
  }

  lemma FreshStampsTell(history: seq<File>)
    requires FreshStamps(history)
    ensures StampsTell(history)
  {
    forall i, k, j | 0 <= i <= k <= j < |history| && StatOf(history[i]).Some?
        && StatOf(history[i]) == StatOf(history[j]) && LoadOf(history[k]).Some?
      ensures LoadOf(history[j]) == LoadOf(history[k])
    {
      assert i == j;
    }
  }

  lemma UnchangedIsCurrent(s: System, history: seq<File>)
    requires Inv(s) && s.history <= history && StampsTell(history) && SaysUnchanged(s)
    ensures LoadOf(Present(s)) == Some(s.reloader.current)
  {
    var i, k :| 0 <= i <= k < |s.history|
      && StatOf(s.history[i]) == Some(s.reloader.stamp) && LoadOf(s.history[k]) == Some(s.reloader.current);
    var j := |s.history| - 1;
    assert history[i] == s.history[i] && history[k] == s.history[k] && history[j] == s.history[j];
  }

  // An unlucky first load: stat before, load between and stat after a stamp that tells
  // nothing.
  lemma MissedByFirstLoad(history: seq<File>, i: nat, k: nat, j: nat)
    requires i <= k <= j < |history| && StatOf(history[i]).Some? && StatOf(history[i]) == StatOf(history[j])
    requires LoadOf(history[k]).Some? && LoadOf(history[j]) != LoadOf(history[k])
    ensures !NeverMisses(history)
  {
    var boot := history[..j + 1];
    var times: seq<nat> := [i, k, j, j, j, j, j, j, j];
    assert Moments(boot, times);
    var attempts := seq(STABLE_LOAD_ATTEMPTS, n requires 0 <= n < STABLE_LOAD_ATTEMPTS => AttemptAt(boot, times, n));
    assert attempts[0] == AttemptAt(boot, times, 0);
    var s := Boot(boot, times).value;
    assert Exec(s, []) == s;
    assert SaysUnchanged(Exec(s, [])) && Exec(s, []).history <= history;
  }

  // The reloader never misses a change, whatever the interleaving, exactly when stamps
  // tell contents apart; stamps fresh for every write do.
  lemma NeverMissesExactlyWhenStampsTell(history: seq<File>)
    ensures NeverMisses(history) <==> StampsTell(history)
    ensures FreshStamps(history) ==> NeverMisses(history)
  {
    if FreshStamps(history) {
      FreshStampsTell(history);
    }
    if StampsTell(history) {
      forall boot: seq<File>, times: seq<nat>, steps: seq<Step> |
          Moments(boot, times) && Boot(boot, times).Some?
          && Exec(Boot(boot, times).value, steps).history <= history
          && SaysUnchanged(Exec(Boot(boot, times).value, steps))
        ensures LoadOf(Present(Exec(Boot(boot, times).value, steps))) ==
          Some(Exec(Boot(boot, times).value, steps).reloader.current)
      {
        BootIsTraced(boot, times);
        RunKeepsInv(Boot(boot, times).value, steps);
        UnchangedIsCurrent(Exec(Boot(boot, times).value, steps), history);
      }
    } else {
      var i, k, j :| 0 <= i <= k <= j < |history| && StatOf(history[i]).Some?
        && StatOf(history[i]) == StatOf(history[j]) && LoadOf(history[k]).Some?
        && LoadOf(history[j]) != LoadOf(history[k]);
      MissedByFirstLoad(history, i, k, j);
    }
  }

  // Two writes that come back to the first stamp: the content in between is loaded, and
  // taken for the last.
  lemma ThereAndBackIsMissed()
    ensures var history := [File(Stamp(1, 5), Some(1)), File(Stamp(2, 5), Some(2)), File(Stamp(1, 5), Some(1))];
      !NeverMisses(history) && !FreshStamps(history)
  {
    var history := [File(Stamp(1, 5), Some(1)), File(Stamp(2, 5), Some(2)), File(Stamp(1, 5), Some(1))];
    MissedByFirstLoad(history, 0, 1, 2);
    assert StatOf(history[0]) == StatOf(history[2]);
  }

  // --- Candidates ---

  predicate Quiet(step: Step) {
    step.Look? || step.Read? || step.Abandon?
  }

  // One more reload, with no write in between.
  function Reload(s: System): System {
    Next(Next(s, Look), Read(|s.calls|))
  }

  // Until a commit or a write, looking and loading commit nothing; so a change once
  // found is found again, and the file's workflow is offered again with its stamp.
  lemma {:induction false} UncommittedIsOfferedAgain(s: System, steps: seq<Step>)
    requires forall i | 0 <= i < |steps| :: Quiet(steps[i])
    ensures var t := Exec(s, steps);
      && SaysUnchanged(t) == SaysUnchanged(s) && Present(t) == Present(s)
      && t.reloader.current == s.reloader.current && t.reloader.stamp == s.reloader.stamp
    ensures var t := Exec(s, steps);
      !SaysUnchanged(s) && StatOf(Present(s)).Some? && LoadOf(Present(s)).Some? ==>
        && Reload(t).reloader.pending == LoadOf(Present(s))
        && Reload(t).reloader.pendingStamp == StatOf(Present(s)).value
        && Reload(t).calls == t.calls + [Offered]
    decreases |steps|
  {
    if steps != [] {
      assert Quiet(steps[0]);
      UncommittedIsOfferedAgain(Next(s, steps[0]), steps[1..]);
    }
  }

  // --- Convergence ---

  // A reload that finds a change has its candidate committed.
  function Refresh(s: System): System {
    if SaysUnchanged(s) then s else Next(Reload(s), Accept(|s.calls|))
  }

  lemma RefreshIsARun(s: System)
    ensures exists steps: seq<Step> :: Refresh(s) == Exec(s, steps) && forall i | 0 <= i < |steps| :: !steps[i].Write?
  {
    if SaysUnchanged(s) {
      assert Exec(s, []) == s;
    } else {
      var read, accept := Read(|s.calls|), Accept(|s.calls|);
      var steps := [Look, read, accept];
      assert steps[1..] == [read, accept] && [read, accept][1..] == [accept] && [accept][1..] == [];
      hide Next;
      var looked := Next(s, Look);
      assert Exec(Next(Next(looked, read), accept), []) == Refresh(s);
      assert Exec(Next(looked, read), [accept]) == Refresh(s);
      assert Exec(looked, [read, accept]) == Refresh(s);
      assert Exec(s, steps) == Refresh(s);
    }
  }

  // What is current, and what may still be committed, is the file's workflow.
  predicate Converged(s: System, w: Workflow) {
    && LoadOf(Present(s)) == Some(w) && s.reloader.current == w
    && (Offered in s.calls ==> s.reloader.pending.None? || s.reloader.pending == Some(w))
  }

  lemma {:induction false} StaysConverged(s: System, w: Workflow, steps: seq<Step>)
    requires Converged(s, w) && forall i | 0 <= i < |steps| :: !steps[i].Write?
    ensures Converged(Exec(s, steps), w) && Present(Exec(s, steps)) == Present(s)
    decreases |steps|
  {
    if steps != [] {
      var n := Next(s, steps[0]);
      assert Offered in n.calls && !steps[0].Read? ==> Offered in s.calls;
      StaysConverged(n, w, steps[1..]);
    }
  }

  // With no reload under way there is nothing more to do.
  lemma {:induction false} NothingMoreToDo(s: System, steps: seq<Step>)
    requires SaysUnchanged(s) && s.calls == [] && forall i | 0 <= i < |steps| :: !steps[i].Write?
    ensures Exec(s, steps) == s
    decreases |steps|
  {
    if steps != [] {
      NothingMoreToDo(Next(s, steps[0]), steps[1..]);
    }
  }

  // Once writes stop at a file that parses, one refresh makes its workflow current for
  // good, whatever reloads were under way before it, unless one of those already holds
  // an offer; and right after it the reloader says unchanged.
  lemma RefreshConverges(s: System, w: Workflow, steps: seq<Step>)
    requires Inv(s) && StampsTell(s.history) && LoadOf(Present(s)) == Some(w)
    requires Offered !in s.calls && forall i | 0 <= i < |steps| :: !steps[i].Write?
    ensures Inv(Refresh(s)) && SaysUnchanged(Refresh(s)) && Refresh(Refresh(s)) == Refresh(s)
    ensures Exec(Refresh(s), steps).reloader.current == w
    ensures SaysUnchanged(Refresh(Exec(Refresh(s), steps)))
    ensures s.calls == [] ==> Exec(Refresh(s), steps) == Refresh(s)
  {
    RefreshIsARun(s);
    var run: seq<Step> :| Refresh(s) == Exec(s, run);
    RunKeepsInv(s, run);
    RefreshIsConverged(s, w);
    StaysConverged(Refresh(s), w, steps);
    RefreshTells(s, w);
    RefreshTells(Exec(Refresh(s), steps), w);
    if s.calls == [] {
      NothingMoreToDo(Refresh(s), steps);
    }
  }

  lemma RefreshTells(s: System, w: Workflow)
    requires LoadOf(Present(s)) == Some(w)
    ensures SaysUnchanged(Refresh(s)) && Refresh(Refresh(s)) == Refresh(s)
    ensures s.calls == [] ==> Refresh(s).calls == []
  {
    if !SaysUnchanged(s) {
      var looked := Next(s, Look);
      var loaded := Next(looked, Read(|s.calls|));
      assert looked.calls == s.calls + [Statted(StatOf(Present(s)).value)];
      assert loaded.calls == s.calls + [Offered];
    }
  }

  lemma RefreshIsConverged(s: System, w: Workflow)
    requires Inv(s) && StampsTell(s.history) && LoadOf(Present(s)) == Some(w) && Offered !in s.calls
    ensures Converged(Refresh(s), w)
  {
    if SaysUnchanged(s) {
      UnchangedIsCurrent(s, s.history);
    } else {
      var looked := Next(s, Look);
      var loaded := Next(looked, Read(|s.calls|));
      assert looked.calls == s.calls + [Statted(StatOf(Present(s)).value)];
      assert loaded.calls == s.calls + [Offered];
    }
  }
}
