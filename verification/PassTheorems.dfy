/** What a poll pass dispatches and in whose favour, in terms of the issues themselves. */
module PassTheorems {
  import opened Wrappers
  import opened Names
  import opened Eligibility
  import opened Keyed
  import opened Tables
  import opened Scheduler
  import opened CandidateOrder
  import opened PollPass

  // --- The slots that the tables leave ---

  function CountIn(running: seq<RunningEntry>, state: string): nat {
    if running == [] then 0
    else
      CountIn(running[..|running| - 1], state) +
      if SameText(running[|running| - 1].state, state) then 1 else 0
  }

  function InState(running: map<string, string>, state: string): set<string> {
    set id | id in running && SameText(running[id], state)
  }

  lemma {:induction false} CountsInState(running: seq<RunningEntry>, state: string)
    requires Unique(running, RunKey)
    ensures |InState(RunningStates(running), state)| == CountIn(running, state)
    decreases |running|
  {
    if running == [] {
      assert InState(map[], state) == {};
    } else {
      var front, last := running[..|running| - 1], running[|running| - 1];
      UniqueFront(running, RunKey);
      CountsInState(front, state);
      hide Unique, Keys;
      var was := InState(RunningStates(front), state);
      assert last.id !in was;
      assert InState(RunningStates(running), state) ==
        was + if SameText(last.state, state) then {last.id} else {};
    }
  }

  // No slot is left exactly when all agents are busy, or as many entries as its limit
  // allows are in the issue's state.
  lemma SlotsOfTables(t: Tables, issue: Issue, ignoreClaim: string)
    requires Unique(t.board.running, RunKey)
    ensures StandsAgainst(NoSlots, issue, EligibilityOf(t, ignoreClaim)) <==>
      || |t.board.running| >= GlobalLimit(t.cfg)
      || CountIn(t.board.running, issue.state) >= LimitFor(t.cfg, issue.state)
  {
    RunningCount(t.board.running);
    CountsInState(t.board.running, issue.state);
    var states := RunningStates(t.board.running);
    assert InState(states, issue.state) == set id | id in states && SameText(states[id], issue.state);
  }

  // --- What becomes of one candidate ---

  // Nothing stands against the issue, with the claims there are but for the ignored one.
  ghost predicate Welcome(issue: Issue, t: Tables, ignoreClaim: string) {
    forall reason :: !StandsAgainst(reason, issue, EligibilityOf(t, ignoreClaim))
  }

  lemma WelcomeIsEligible(issue: Issue, t: Tables, ignoreClaim: string)
    ensures Welcome(issue, t, ignoreClaim) <==> CandidateEligible(issue, EligibilityOf(t, ignoreClaim)) == Eligible
  {
    var st := EligibilityOf(t, ignoreClaim);
    RefusedForFirstReason(issue, st, 0);
    hide StandsAgainst, CandidateEligible, EligibilityOf;
    if FirstReason(|REASONS|, issue, st) {
      forall reason ensures !StandsAgainst(reason, issue, st) {
        assert REASONS[RankOf(reason)] == reason;
      }
    }
  }

  // What the tracker says, or what was known if it says nothing.
  predicate Updated(r: string, said: string, known: string) {
    r == if said == "" then known else said
  }

  // The issue as the tracker knows it now, from its first answer with the id.
  ghost predicate AsRefreshed(r: Issue, issue: Issue, answer: Refresh) {
    && answer.Refreshed?
    && exists k | 0 <= k < |answer.issues| ::
         && answer.issues[k].id == issue.id && (forall j | 0 <= j < k :: answer.issues[j].id != issue.id)
         && AsAnswered(r, issue, answer.issues[k])
  }

  predicate AsAnswered(r: Issue, issue: Issue, said: Issue) {
    && r.id == issue.id && Updated(r.identifier, said.identifier, issue.identifier)
    && Updated(r.title, said.title, issue.title) && Updated(r.state, said.state, issue.state)
    && r.blockedBy == (if said.blockedBy.None? then issue.blockedBy else said.blockedBy)
    && r.priority == issue.priority && r.createdAt == issue.createdAt && r.assignedToWorker == issue.assignedToWorker
  }

  lemma {:induction false} FoundIsFirst(issues: seq<Issue>, id: string, k: nat)
    requires k < |issues| && issues[k].id == id && forall j | 0 <= j < k :: issues[j].id != id
    ensures FindIssue(issues, id) == Some(issues[k])
  {
    if k > 0 {
      FoundIsFirst(issues[1..], id, k - 1);
    }
  }

  lemma {:induction false} FirstIsFound(issues: seq<Issue>, id: string) returns (k: nat)
    requires FindIssue(issues, id).Some?
    ensures k < |issues| && issues[k].id == id && forall j | 0 <= j < k :: issues[j].id != id
  {
    if issues[0].id == id {
      k := 0;
    } else {
      k := FirstIsFound(issues[1..], id);
      k := k + 1;
    }
  }

  lemma RefreshedExactlyWhen(r: Issue, issue: Issue, answer: Refresh)
    ensures RefreshedCandidate(issue, answer) == Some(r) <==> AsRefreshed(r, issue, answer)
  {
    if answer.Refreshed? {
      if FindIssue(answer.issues, issue.id).Some? {
        var k := FirstIsFound(answer.issues, issue.id);
        FoundIsFirst(answer.issues, issue.id, k);
        assert AsAnswered(r, issue, answer.issues[k]) <==> r == MergeRefresh(issue, answer.issues[k]);
      }
      if AsRefreshed(r, issue, answer) {
        var k :| 0 <= k < |answer.issues| && answer.issues[k].id == issue.id
          && (forall j | 0 <= j < k :: answer.issues[j].id != issue.id) && AsAnswered(r, issue, answer.issues[k]);
        FoundIsFirst(answer.issues, issue.id, k);
      }
    }
  }

  predicate Sought(issue: Issue, filter: string) {
    filter in ["", issue.id, issue.identifier]
  }

  // A candidate is dispatched exactly when it is sought, nothing stands against it as it
  // was listed, nor as the tracker has it now, and at the dispatch nothing but a claim
  // does, no worker has it, and the service is running.
  lemma DispatchedExactlyWhen(issue: Issue, look: Look, filter: string)
    ensures FateOf(issue, look, filter) == Dispatched <==>
      && Sought(issue, filter) && Welcome(issue, look.first, "")
      && exists r: Issue ::
           && AsRefreshed(r, issue, look.answer)
           && Welcome(r, look.second, "") && Welcome(r, look.dispatch, r.id)
           && !look.dispatch.serviceDone && r.id !in look.dispatch.cancels
  {
    WelcomeIsEligible(issue, look.first, "");
    if RefreshedCandidate(issue, look.answer).Some? {
      var r := RefreshedCandidate(issue, look.answer).value;
      RefreshedExactlyWhen(r, issue, look.answer);
      WelcomeIsEligible(r, look.second, "");
      AdmittedExactlyWhen(r, look.dispatch);
    }
    forall r: Issue | AsRefreshed(r, issue, look.answer) ensures RefreshedCandidate(issue, look.answer) == Some(r) {
      RefreshedExactlyWhen(r, issue, look.answer);
    }
    hide Welcome, AsRefreshed, CandidateEligible, RefreshedCandidate, EligibilityOf, MayDispatch, Sought;
    SoughtIsNotFiltered(issue, filter);
  }

  lemma SoughtIsNotFiltered(issue: Issue, filter: string)
    ensures Sought(issue, filter) <==> !(filter != "" && issue.identifier != filter && issue.id != filter)
  {
  }

  // The check at a dispatch, by the poll as by a retry.
  lemma AdmittedExactlyWhen(issue: Issue, t: Tables)
    ensures MayDispatch(t, issue) <==> Welcome(issue, t, issue.id) && !t.serviceDone && issue.id !in t.cancels
  {
    WelcomeIsEligible(issue, t, issue.id);
    hide Welcome, StateNameIn, EqualFold, AvailableSlots;
  }

  // The pass ends early exactly at a candidate whose first obstacle is that no slot is
  // left to it, when no slot is left to anybody.
  lemma EndedExactlyWhen(issue: Issue, look: Look, filter: string)
    ensures FateOf(issue, look, filter) == PassEnded <==>
      && Sought(issue, filter)
      && FirstReason(|REASONS| - 1, issue, EligibilityOf(look.first, ""))
      && |look.slots.board.running| >= GlobalLimit(look.slots.cfg)
  {
    RefusedForFirstReason(issue, EligibilityOf(look.first, ""), |REASONS| - 1);
    hide CandidateEligible, EligibilityOf, RefreshedCandidate, FirstReason;
  }

  // --- The order of a pass ---

  predicate MoreUrgent(a: Issue, b: Issue) {
    Ranked(a.priority) && (Ranked(b.priority) ==> a.priority.value < b.priority.value)
  }

  lemma UrgentIsEarlier(listed: seq<Issue>, i: nat, j: nat)
    requires i < |StableSort(listed)| && j < |StableSort(listed)|
    requires MoreUrgent(StableSort(listed)[i], StableSort(listed)[j])
    ensures i < j
  {
    if j < i {
      UrgentStandsFirst(listed, j, i);
    }
  }

  // Along every run without a worker exit or a reload: an issue never loses a slot that is
  // free to all to a less urgent one of the same pass. When the less urgent one was
  // dispatched, the other had its turn before it, and if a slot was refused to it, then
  // because its own state was full.
  lemma NoSlotLostToLessUrgent(listed: seq<Issue>, start: Config, steps: seq<Step>, issues: seq<Issue>,
      looks: seq<Look>, filter: string, fates: seq<Fate>, moments: seq<Moment>, cfg: Config, i: nat, j: nat)
    requires issues == StableSort(listed)
    requires |looks| == |issues| == |moments| && IsPass(issues, looks, filter, fates)
    requires PassAlong(start, steps, issues, looks, fates, moments)
    requires forall k, n | 0 <= k < |moments| && moments[k].first <= n < |steps| :: !Exits(steps[n])
    requires forall k, n | 0 <= k < |moments| && moments[k].first <= n <= |steps| ::
      TablesAt(start, steps, n).cfg == cfg
    requires i < |issues| && j < |fates| && fates[j].Dispatched? && MoreUrgent(issues[i], issues[j])
    ensures i < j && !fates[i].PassEnded?
    ensures var refusal := SlotRefusal(issues[i], looks[i], fates[i]);
      refusal.Some? ==> FreeSlots(refusal.value.1) > 0 && StateCapMet(refusal.value.0, refusal.value.1)
  {
    assert |fates| <= |issues|;
    hide *;
    UrgentIsEarlier(listed, i, j);
    NoInversionAlongRun(start, steps, issues, looks, filter, fates, moments, cfg);
  }
}
