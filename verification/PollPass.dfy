/** One pass of the poll loop over its sorted candidates: pollDispatched. */
module PollPass {
  import opened Wrappers
  import opened Eligibility
  import opened Keyed
  import opened Tables
  import opened Scheduler
  import opened SchedulerTheorems
  import opened FleetInvariants

  datatype Refresh = RefreshFailed | Refreshed(issues: seq<Issue>)

  // The tables as the pass finds them at each of its reads for one candidate, and
  // the tracker's answer in between.
  datatype Look = Look(first: Tables, slots: Tables, answer: Refresh, second: Tables, dispatch: Tables)

  datatype Fate =
    | Filtered
    | RefusedAtFirst(reason: Reason)
    | PassEnded
    | LostInRefresh
    | RefusedAtSecond(reason: Reason)
    | NotStarted
    | Dispatched

  function FindIssue(issues: seq<Issue>, id: string): Option<Issue> {
    if issues == [] then None
    else if issues[0].id == id then Some(issues[0])
    else FindIssue(issues[1..], id)
  }

  function RefreshedCandidate(issue: Issue, answer: Refresh): Option<Issue> {
    if answer.RefreshFailed? then None
    else
      var found := FindIssue(answer.issues, issue.id);
      if found.None? then None else Some(MergeRefresh(issue, found.value))
  }

  function FateOf(issue: Issue, look: Look, filter: string): Fate {
    if filter != "" && issue.identifier != filter && issue.id != filter then Filtered
    else
      var verdict := CandidateEligible(issue, EligibilityOf(look.first, ""));
      if verdict == Refused(NoSlots) && FreeSlots(look.slots) <= 0 then PassEnded
      else if verdict.Refused? then RefusedAtFirst(verdict.reason)
      else
        var refreshed := RefreshedCandidate(issue, look.answer);
        if refreshed.None? then LostInRefresh
        else
          var again := CandidateEligible(refreshed.value, EligibilityOf(look.second, ""));
          if again.Refused? then RefusedAtSecond(again.reason)
          else if MayDispatch(look.dispatch, refreshed.value) then Dispatched
          else NotStarted
  }

  /** The loop over the candidates, which stops early only at PassEnded. */
  method PollCandidates(issues: seq<Issue>, looks: seq<Look>, filter: string) returns (fates: seq<Fate>)
    requires |looks| == |issues|
    ensures IsPass(issues, looks, filter, fates)
  {
    hide FateOf;
    fates := [];
    for i := 0 to |issues|
      invariant |fates| == i
      invariant forall k | 0 <= k < i :: fates[k] == FateOf(issues[k], looks[k], filter) && !fates[k].PassEnded?
    {
      var fate := FateOf(issues[i], looks[i], filter);
      fates := fates + [fate];
      if fate.PassEnded? {
        return;
      }
    }
  }

  predicate IsPass(issues: seq<Issue>, looks: seq<Look>, filter: string, fates: seq<Fate>)
    requires |looks| == |issues|
  {
    && |fates| <= |issues|
    && (forall k | 0 <= k < |fates| :: fates[k] == FateOf(issues[k], looks[k], filter))
    && (forall k | 0 <= k < |fates| - 1 :: !fates[k].PassEnded?)
    && (|fates| < |issues| ==> fates != [] && fates[|fates| - 1].PassEnded?)
  }

  function Starts(fate: Fate): nat {
    if fate.Dispatched? then 1 else 0
  }

  // Reads of reachable tables, under one configuration, during which no worker exits:
  // the running list never shrinks and grows by what the pass itself starts.
  ghost predicate NoExits(looks: seq<Look>, fates: seq<Fate>, cfg: Config)
    requires |fates| <= |looks|
  {
    && (forall k | 0 <= k < |looks| :: OrderlyLook(looks[k], cfg))
    && (forall k | 0 <= k < |fates| - 1 ::
          |looks[k].dispatch.board.running| + Starts(fates[k]) <= |looks[k + 1].first.board.running|)
  }

  ghost predicate OrderlyTables(t: Tables, cfg: Config) {
    t.cfg == cfg && Unique(t.board.running, RunKey) && RunningIds(t.board) <= t.cancels.Keys
  }

  ghost predicate OrderlyLook(look: Look, cfg: Config) {
    && OrderlyTables(look.first, cfg) && OrderlyTables(look.slots, cfg)
    && OrderlyTables(look.second, cfg) && OrderlyTables(look.dispatch, cfg)
    && |look.first.board.running| <= |look.slots.board.running|
    && |look.slots.board.running| <= |look.second.board.running| <= |look.dispatch.board.running|
  }

  lemma RunningOnlyGrows(looks: seq<Look>, fates: seq<Fate>, cfg: Config, i: nat, j: nat)
    requires |fates| <= |looks| && NoExits(looks, fates, cfg) && i < j < |fates|
    ensures |looks[i].dispatch.board.running| <= |looks[j].first.board.running|
    decreases j - i
  {
    assert OrderlyLook(looks[i + 1], cfg);
    if i + 1 < j {
      RunningOnlyGrows(looks, fates, cfg, i + 1, j);
    }
  }

  // With a global slot free, only the per-state limit can leave no slot.
  lemma StateCapRefused(issue: Issue, t: Tables, ignoreClaim: string)
    requires Unique(t.board.running, RunKey) && |t.board.running| < MaxConcurrent(t.cfg)
    requires CandidateEligible(issue, EligibilityOf(t, ignoreClaim)) == Refused(NoSlots)
    ensures |IdsInState(RunningStates(t.board.running), issue.state)| >= StateLimit(t.cfg, issue.state)
  {
    RunningCount(t.board.running);
    NoSlotMeansFull(issue, EligibilityOf(t, ignoreClaim));
  }

  lemma RunningCount(running: seq<RunningEntry>)
    requires Unique(running, RunKey)
    ensures |RunningStates(running)| == |running|
  {
    UniqueCount(running, RunKey);
    var states := RunningStates(running);
    assert |states| == |states.Keys|;
  }

  lemma NoSlotMeansFull(issue: Issue, st: EligibilityState)
    requires CandidateEligible(issue, st) == Refused(NoSlots)
    ensures
      || |st.running| >= MaxConcurrent(st.cfg)
      || |IdsInState(st.running, issue.state)| >= StateLimit(st.cfg, issue.state)
  {
    hide Names.StateNameIn, Names.EqualFold, StateLimit, MaxConcurrent, IdsInState;
  }

  // The state cap was met when this candidate was refused for want of a slot.
  predicate StateCapMet(issue: Issue, t: Tables) {
    |IdsInState(RunningStates(t.board.running), issue.state)| >= StateLimit(t.cfg, issue.state)
  }

  lemma EligibleLeavesRoom(issue: Issue, t: Tables)
    requires Unique(t.board.running, RunKey) && CandidateEligible(issue, EligibilityOf(t, issue.id)) == Eligible
    ensures |t.board.running| < MaxConcurrent(t.cfg)
  {
    EligibleHasSlots(issue, EligibilityOf(t, issue.id));
    RunningCount(t.board.running);
  }

  // If a later candidate was dispatched, a global slot was free at every earlier read.
  lemma RoomBefore(issues: seq<Issue>, looks: seq<Look>, filter: string, fates: seq<Fate>, cfg: Config, i: nat, j: nat)
    requires |looks| == |issues| && IsPass(issues, looks, filter, fates) && NoExits(looks, fates, cfg)
    requires i < j < |fates| && fates[j].Dispatched?
    ensures OrderlyLook(looks[i], cfg) && !fates[i].PassEnded?
    ensures |looks[i].dispatch.board.running| < MaxConcurrent(cfg)
  {
    RunningOnlyGrows(looks, fates, cfg, i, j);
    assert OrderlyLook(looks[i], cfg) && OrderlyLook(looks[j], cfg);
    var winner := RefreshedCandidate(issues[j], looks[j].answer).value;
    DispatchFitsLimits(looks[j].dispatch, winner, 0, 0, 0);
    EligibleLeavesRoom(winner, looks[j].dispatch);
  }

  // Which read refused this candidate a slot, and for which version of the issue.
  function SlotRefusal(issue: Issue, look: Look, fate: Fate): Option<(Issue, Tables)> {
    var refreshed := RefreshedCandidate(issue, look.answer);
    if fate == RefusedAtFirst(NoSlots) then Some((issue, look.first))
    else if fate == RefusedAtSecond(NoSlots) && refreshed.Some? then Some((refreshed.value, look.second))
    else if
      && fate == NotStarted && refreshed.Some?
      && CandidateEligible(refreshed.value, EligibilityOf(look.dispatch, refreshed.value.id)) == Refused(NoSlots)
    then Some((refreshed.value, look.dispatch))
    else None
  }

  lemma SlotRefusalIsStateCap(issue: Issue, look: Look, filter: string, cfg: Config)
    requires OrderlyLook(look, cfg) && |look.dispatch.board.running| < MaxConcurrent(cfg)
    ensures var refusal := SlotRefusal(issue, look, FateOf(issue, look, filter));
      refusal.Some? ==> FreeSlots(refusal.value.1) > 0 && StateCapMet(refusal.value.0, refusal.value.1)
  {
    hide CandidateEligible, EligibilityOf;
    var fate := FateOf(issue, look, filter);
    var refreshed := RefreshedCandidate(issue, look.answer);
    if fate == RefusedAtFirst(NoSlots) {
      StateCapRefused(issue, look.first, "");
    } else if fate == RefusedAtSecond(NoSlots) {
      StateCapRefused(refreshed.value, look.second, "");
    } else if SlotRefusal(issue, look, fate).Some? {
      StateCapRefused(refreshed.value, look.dispatch, refreshed.value.id);
    }
  }

  // No priority inversion: if a later candidate was dispatched, an earlier one that
  // was not never lost to the global limit. Whenever it was refused a slot, at the
  // first check, after its refresh or at its dispatch, its own state's cap was met.
  lemma NoPriorityInversion(issues: seq<Issue>, looks: seq<Look>, filter: string, fates: seq<Fate>, cfg: Config,
      i: nat, j: nat)
    requires |looks| == |issues| && IsPass(issues, looks, filter, fates) && NoExits(looks, fates, cfg)
    requires i < j < |fates| && fates[j].Dispatched?
    ensures !fates[i].PassEnded?
    ensures var refusal := SlotRefusal(issues[i], looks[i], fates[i]);
      refusal.Some? ==> FreeSlots(refusal.value.1) > 0 && StateCapMet(refusal.value.0, refusal.value.1)
  {
    RoomBefore(issues, looks, filter, fates, cfg, i, j);
    SlotRefusalIsStateCap(issues[i], looks[i], filter, cfg);
  }

  // The pass skips candidates only when no slot is free at all.
  lemma EarlyEndMeansFull(issues: seq<Issue>, looks: seq<Look>, filter: string, fates: seq<Fate>, cfg: Config)
    requires |looks| == |issues| && IsPass(issues, looks, filter, fates) && NoExits(looks, fates, cfg)
    requires |fates| < |issues|
    ensures FreeSlots(looks[|fates| - 1].slots) == 0
    ensures |looks[|fates| - 1].slots.board.running| >= MaxConcurrent(cfg)
  {
    assert OrderlyLook(looks[|fates| - 1], cfg);
  }

  // --- Reads taken along a run of the scheduler ---

  predicate Exits(step: Step) {
    step.Work? && step.work.Return?
  }

  lemma OnlyExitsShrink(s: System, step: Step)
    requires FleetInv(s) && !Exits(step)
    ensures |s.t.board.running| <= |Apply(s, step).t.board.running|
  {
    hide ApplyOutside, ApplyPoll, ApplyWork, ApplyHandle;
    match step {
      case Outside(outside) => OutsideKeepsFleet(s, outside);
      case Poll(poll) =>
        PollKeepsFleet(s, poll);
        PollStartFits(s, poll);
      case Work(w, work) => WorkShrinks(s, w, work);
      case Handle(h, handle) =>
        HandleKeepsFleet(s, h, handle);
        HandleStartFits(s, h, handle);
    }
  }

  lemma WorkShrinks(s: System, w: WorkerId, step: WorkerStep)
    requires FleetInv(s) && !step.Return?
    ensures |ApplyWork(s, w, step).t.board.running| == |s.t.board.running|
  {
    if w in s.workers {
      if s.workers[w].pc.Trunk? {
        InTrunkKeeps(s.t, s.now, s.workers[w], step);
        var b := InTrunk(s.t, s.now, s.workers[w], step).t.board;
        UniqueCount(s.t.board.running, RunKey);
        UniqueCount(b.running, RunKey);
      } else {
        InExitKeeps(s.t, s.workers[w], step);
      }
    }
  }

  // Any two reads along a run see orderly tables, and between reads with no worker
  // exit the running list does not shrink: what NoExits asks of a pass.
  lemma {:induction false} ReadsOfARun(cfg: Config, steps: seq<Step>, k: nat)
    requires k <= |steps| && forall i | k <= i < |steps| :: !Exits(steps[i])
    ensures var t, u := Exec(Init(cfg), steps[..k]).t, Exec(Init(cfg), steps).t;
      OrderlyTables(t, t.cfg) && OrderlyTables(u, u.cfg) && |t.board.running| <= |u.board.running|
    decreases |steps|
  {
    RunsKeepInv(cfg, steps);
    RunsKeepInv(cfg, steps[..k]);
    if k < |steps| {
      var front := steps[..|steps| - 1];
      ReadsOfARun(cfg, front, k);
      assert front[..k] == steps[..k];
      RunsKeepInv(cfg, front);
      OnlyExitsShrink(Exec(Init(cfg), front), steps[|steps| - 1]);
    } else {
      assert steps[..k] == steps;
    }
  }

  // --- A pass in the middle of a run ---

  // How many steps of the run had been taken at each read.
  datatype Moment = Moment(first: nat, slots: nat, second: nat, dispatch: nat)

  function TablesAt(start: Config, steps: seq<Step>, k: nat): Tables
    requires k <= |steps|
  {
    Exec(Init(start), steps[..k]).t
  }

  ghost predicate ReadAt(start: Config, steps: seq<Step>, look: Look, m: Moment) {
    && m.first <= m.slots <= m.second <= m.dispatch <= |steps|
    && look.first == TablesAt(start, steps, m.first) && look.slots == TablesAt(start, steps, m.slots)
    && look.second == TablesAt(start, steps, m.second) && look.dispatch == TablesAt(start, steps, m.dispatch)
  }

  // The pass makes its dispatch the next step of the run.
  ghost predicate DispatchedAt(start: Config, steps: seq<Step>, issue: Issue, look: Look, m: Moment) {
    && m.dispatch < |steps|
    && Exec(Init(start), steps[..m.dispatch]).poll.PollIdle?
    && RefreshedCandidate(issue, look.answer).Some?
    && steps[m.dispatch] == Poll(DispatchCandidate(RefreshedCandidate(issue, look.answer).value))
  }

  // The pass's reads and dispatches are moments of the run, in their order.
  ghost predicate PassAlong(start: Config, steps: seq<Step>, issues: seq<Issue>, looks: seq<Look>,
      fates: seq<Fate>, moments: seq<Moment>)
    requires |looks| == |issues| == |moments| && |fates| <= |looks|
  {
    && (forall k | 0 <= k < |looks| :: ReadAt(start, steps, looks[k], moments[k]))
    && (forall k | 0 <= k < |looks| - 1 :: moments[k].dispatch <= moments[k + 1].first)
    && (forall k | 0 <= k < |fates| - 1 && fates[k].Dispatched? ::
          moments[k].dispatch < moments[k + 1].first && DispatchedAt(start, steps, issues[k], looks[k], moments[k]))
  }

  // From one moment to a later one with no worker exit in between.
  lemma ReadsInOrder(start: Config, steps: seq<Step>, j: nat, k: nat)
    requires j <= k <= |steps| && forall i | j <= i < |steps| :: !Exits(steps[i])
    ensures |TablesAt(start, steps, j).board.running| <= |TablesAt(start, steps, k).board.running|
    ensures var t := TablesAt(start, steps, k); OrderlyTables(t, t.cfg)
  {
    hide Exec;
    assert steps[..k][..j] == steps[..j];
    ReadsOfARun(start, steps[..k], j);
  }

  lemma {:induction false} DispatchGrows(start: Config, steps: seq<Step>, issue: Issue, look: Look, m: Moment)
    requires ReadAt(start, steps, look, m) && DispatchedAt(start, steps, issue, look, m)
    requires MayDispatch(look.dispatch, RefreshedCandidate(issue, look.answer).value)
    ensures |TablesAt(start, steps, m.dispatch + 1).board.running| == |look.dispatch.board.running| + 1
  {
    hide MayDispatch, RefreshedCandidate, FleetInv;
    var d := m.dispatch;
    assert steps[..d + 1][..d] == steps[..d];
    RunsKeepInv(start, steps[..d]);
    PollStartFits(Exec(Init(start), steps[..d]), steps[d].poll);
  }

  // A pass along a run, under one configuration and with no worker exit, is one that
  // the theorems above speak of.
  lemma PassAlongRunIsOrderly(start: Config, steps: seq<Step>, issues: seq<Issue>, looks: seq<Look>, filter: string,
                              fates: seq<Fate>, moments: seq<Moment>, cfg: Config)
    requires |looks| == |issues| == |moments| && IsPass(issues, looks, filter, fates)
    requires PassAlong(start, steps, issues, looks, fates, moments)
    requires forall k, i | 0 <= k < |moments| && moments[k].first <= i < |steps| :: !Exits(steps[i])
    requires forall k, i | 0 <= k < |moments| && moments[k].first <= i <= |steps| ::
      TablesAt(start, steps, i).cfg == cfg
    ensures NoExits(looks, fates, cfg)
  {
    hide TablesAt, FateOf, OrderlyLook, Exits, DispatchedAt, ReadAt;
    forall k | 0 <= k < |looks| ensures OrderlyLook(looks[k], cfg) {
      LookIsOrderly(start, steps, looks[k], moments[k], cfg);
    }
    forall k | 0 <= k < |fates| - 1
      ensures |looks[k].dispatch.board.running| + Starts(fates[k]) <= |looks[k + 1].first.board.running|
    {
      GrowsBetween(start, steps, issues[k], looks[k], moments[k], looks[k + 1], moments[k + 1], filter);
    }
  }

  // From one candidate's dispatch to the next candidate's first read.
  lemma GrowsBetween(start: Config, steps: seq<Step>, issue: Issue, look: Look, m: Moment, next: Look,
      n: Moment, filter: string)
    requires ReadAt(start, steps, look, m) && ReadAt(start, steps, next, n) && m.dispatch <= n.first
    requires FateOf(issue, look, filter).Dispatched? ==>
      m.dispatch < n.first && DispatchedAt(start, steps, issue, look, m)
    requires forall i | m.first <= i < |steps| :: !Exits(steps[i])
    ensures |look.dispatch.board.running| + Starts(FateOf(issue, look, filter)) <= |next.first.board.running|
  {
    hide TablesAt, FateOf, OrderlyTables, Exits, DispatchedAt, MayDispatch, RefreshedCandidate, Exec;
    if FateOf(issue, look, filter).Dispatched? {
      DispatchedFate(issue, look, filter);
      DispatchGrows(start, steps, issue, look, m);
      ReadsInOrder(start, steps, m.dispatch + 1, n.first);
    } else {
      ReadsInOrder(start, steps, m.dispatch, n.first);
    }
  }

  lemma DispatchedFate(issue: Issue, look: Look, filter: string)
    requires FateOf(issue, look, filter).Dispatched?
    ensures RefreshedCandidate(issue, look.answer).Some?
    ensures MayDispatch(look.dispatch, RefreshedCandidate(issue, look.answer).value)
  {
  }

  lemma LookIsOrderly(start: Config, steps: seq<Step>, look: Look, m: Moment, cfg: Config)
    requires ReadAt(start, steps, look, m)
    requires forall i | m.first <= i < |steps| :: !Exits(steps[i])
    requires forall i | m.first <= i <= |steps| :: TablesAt(start, steps, i).cfg == cfg
    ensures OrderlyLook(look, cfg)
  {
    hide TablesAt, OrderlyTables, Exits;
    ReadsInOrder(start, steps, m.first, m.first);
    ReadsInOrder(start, steps, m.first, m.slots);
    ReadsInOrder(start, steps, m.slots, m.second);
    ReadsInOrder(start, steps, m.second, m.dispatch);
  }

  // So along every run: no inversion, and an early end means that no slot was free.
  lemma NoInversionAlongRun(start: Config, steps: seq<Step>, issues: seq<Issue>, looks: seq<Look>, filter: string,
                            fates: seq<Fate>, moments: seq<Moment>, cfg: Config)
    requires |looks| == |issues| == |moments| && IsPass(issues, looks, filter, fates)
    requires PassAlong(start, steps, issues, looks, fates, moments)
    requires forall k, i | 0 <= k < |moments| && moments[k].first <= i < |steps| :: !Exits(steps[i])
    requires forall k, i | 0 <= k < |moments| && moments[k].first <= i <= |steps| ::
      TablesAt(start, steps, i).cfg == cfg
    ensures forall i, j | 0 <= i < j < |fates| && fates[j].Dispatched? ::
      && !fates[i].PassEnded?
      && var refusal := SlotRefusal(issues[i], looks[i], fates[i]);
         refusal.Some? ==> FreeSlots(refusal.value.1) > 0 && StateCapMet(refusal.value.0, refusal.value.1)
    ensures |fates| < |issues| ==> FreeSlots(looks[|fates| - 1].slots) == 0
  {
    assert |fates| <= |issues|;
    hide PassAlong, IsPass, NoExits, SlotRefusal, StateCapMet, TablesAt;
    PassAlongRunIsOrderly(start, steps, issues, looks, filter, fates, moments, cfg);
    forall i, j | 0 <= i < j < |fates| && fates[j].Dispatched?
      ensures !fates[i].PassEnded?
      ensures var refusal := SlotRefusal(issues[i], looks[i], fates[i]);
        refusal.Some? ==> FreeSlots(refusal.value.1) > 0 && StateCapMet(refusal.value.0, refusal.value.1)
    {
      NoPriorityInversion(issues, looks, filter, fates, cfg, i, j);
    }
    if |fates| < |issues| {
      EarlyEndMeansFull(issues, looks, filter, fates, cfg);
    }
  }
}
