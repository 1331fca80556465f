/**
 The two-phase workflow reloader: internal/service/workflow/reloader.go. A workflow
 stands for everything a workflow file says; a file that does not parse has none.
 */
module Reloading {
  import opened Wrappers

  type Workflow = int

  // Modification time and size.
  datatype Stamp = Stamp(modTime: int, size: nat)

  // One attempt of the first load; None is an error.
  datatype Attempt = Attempt(before: Option<Stamp>, loaded: Option<Workflow>, after: Option<Stamp>)

  datatype LoadError = ReadFailed | ChangedWhileLoading

  const STABLE_LOAD_ATTEMPTS := 3

  // What ReloadIfChanged says.
  datatype Reload = ReloadFailed | Unchanged | Candidate(workflow: Workflow)

  datatype State = State(current: Workflow, stamp: Stamp, pending: Option<Workflow>, pendingStamp: Stamp)

  predicate Broken(a: Attempt) {
    a.before.None? || a.loaded.None? || a.after.None?
  }

  function StableLoad(attempts: seq<Attempt>): Result<(Workflow, Stamp), LoadError> {
    if attempts == [] then Err(ChangedWhileLoading)
    else if Broken(attempts[0]) then Err(ReadFailed)
    else if attempts[0].before == attempts[0].after then Ok((attempts[0].loaded.value, attempts[0].after.value))
    else StableLoad(attempts[1..])
  }

  // A stat, and if it differs from the committed stamp a load, whose result waits with
  // the stamp of the stat.
  function ReloadFrom(r: State, info: Option<Stamp>, loaded: Option<Workflow>): (State, Reload) {
    if info.None? then (r, ReloadFailed)
    else if info.value == r.stamp then (r, Unchanged)
    else LoadAfter(r, info.value, loaded)
  }

  // The load of a reload whose stat found another stamp.
  function LoadAfter(r: State, info: Stamp, loaded: Option<Workflow>): (State, Reload) {
    if loaded.None? then (r, ReloadFailed)
    else (r.(pending := loaded, pendingStamp := info), Candidate(loaded.value))
  }

  function Commit(r: State): State {
    if r.pending.None? then r
    else r.(current := r.pending.value, stamp := r.pendingStamp, pending := None)
  }

  class Reloader {
    var current: Workflow
    var stamp: Stamp
    var pending: Option<Workflow>
    var pendingStamp: Stamp

    ghost function View(): State
      reads this
    {
      State(current, stamp, pending, pendingStamp)
    }

    constructor (loaded: Workflow, info: Stamp)
      ensures View() == State(loaded, info, None, Stamp(0, 0))
    {
      current, stamp, pending, pendingStamp := loaded, info, None, Stamp(0, 0);
    }

    static method LoadStableWorkflow(attempts: seq<Attempt>) returns (r: Result<(Workflow, Stamp), LoadError>)
      requires |attempts| == STABLE_LOAD_ATTEMPTS
      ensures r == StableLoad(attempts)
    {
      for attempt := 0 to STABLE_LOAD_ATTEMPTS
        invariant StableLoad(attempts[attempt..]) == StableLoad(attempts)
      {
        var a := attempts[attempt];
        if a.before.None? {
          return Err(ReadFailed);
        }
        if a.loaded.None? {
          return Err(ReadFailed);
        }
        if a.after.None? {
          return Err(ReadFailed);
        }
        if a.before == a.after {
          return Ok((a.loaded.value, a.after.value));
        }
        assert attempts[attempt..][1..] == attempts[attempt + 1..];
      }
      r := Err(ChangedWhileLoading);
    }

    method ReloadIfChanged(info: Option<Stamp>, loaded: Option<Workflow>) returns (r: Reload)
      modifies this`pending, this`pendingStamp
      ensures (View(), r) == ReloadFrom(old(View()), info, loaded)
    {
      if info.None? {
        return ReloadFailed;
      }
      if info.value == stamp {
        return Unchanged;
      }
      if loaded.None? {
        return ReloadFailed;
      }
      pending := loaded;
      pendingStamp := info.value;
      r := Candidate(loaded.value);
    }

    method CommitCandidate()
      modifies this
      ensures View() == Commit(old(View()))
    {
      if pending.None? {
        return;
      }
      current := pending.value;
      stamp := pendingStamp;
      pending := None;
    }
  }

  ghost predicate FirstSettled(attempts: seq<Attempt>, n: nat, w: Workflow, stamp: Stamp) {
    && n < |attempts|
    && attempts[n] == Attempt(Some(stamp), Some(w), Some(stamp))
    && forall m: nat | m < n :: !Broken(attempts[m]) && attempts[m].before != attempts[m].after
  }

  // The first load succeeds exactly with the first attempt that finds the same stamp
  // before and after, if every attempt before it could be read.
  lemma {:induction false} StableLoadIsFirstSettled(attempts: seq<Attempt>, w: Workflow, stamp: Stamp)
    ensures StableLoad(attempts) == Ok((w, stamp)) <==> exists n :: FirstSettled(attempts, n, w, stamp)
  {
    if attempts != [] {
      var later := attempts[1..];
      StableLoadIsFirstSettled(later, w, stamp);
      if Broken(attempts[0]) || attempts[0].before == attempts[0].after {
        assert StableLoad(attempts) == Ok((w, stamp)) ==> FirstSettled(attempts, 0, w, stamp);
      } else {
        if n: nat :| FirstSettled(later, n, w, stamp) {
          forall m: nat | m < n + 1 ensures !Broken(attempts[m]) && attempts[m].before != attempts[m].after {
            assert m > 0 ==> attempts[m] == later[m - 1];
          }
          assert FirstSettled(attempts, n + 1, w, stamp);
        }
        if n: nat :| FirstSettled(attempts, n, w, stamp) {
          assert FirstSettled(later, n - 1, w, stamp);
        }
      }
    }
  }
}
