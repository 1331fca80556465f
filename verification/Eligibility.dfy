/** Which issues may be dispatched: internal/service/orchestrator/eligibility.go. */
module Eligibility {
  import opened Wrappers
  import opened Names

  // Blockers are kept as the states of the blocking issues; None is a nil slice.
  datatype Issue = Issue(
    id: string,
    identifier: string,
    title: string,
    state: string,
    priority: Option<int>,
    createdAt: Option<int>,
    assignedToWorker: Option<bool>,
    blockedBy: Option<seq<string>>
  )

  // The resolved configuration that dispatch reads; per-state keys are lower case.
  datatype Config = Config(
    activeStates: seq<string>,
    terminalStates: seq<string>,
    maxConcurrentAgents: int,
    maxConcurrentByState: map<string, int>,
    allowsAIReview: bool,
    stallTimeout: int,
    maxRetryBackoffMS: int
  )

  datatype Reason =
    | MissingField
    | NotActive
    | WaitingForReview
    | WaitingForAIReview
    | NotAssigned
    | Claimed
    | AlreadyRunning
    | Blocked
    | NoSlots

  datatype Verdict = Eligible | Refused(reason: Reason)

  datatype EligibilityState = EligibilityState(cfg: Config, claimed: set<string>, running: map<string, string>)

  function MaxConcurrent(cfg: Config): (r: int)
    ensures r > 0
  {
    if cfg.maxConcurrentAgents > 0 then cfg.maxConcurrentAgents else 10
  }

  function StateLimit(cfg: Config, state: string): int {
    if Lower(state) in cfg.maxConcurrentByState
    then cfg.maxConcurrentByState[Lower(state)]
    else MaxConcurrent(cfg)
  }

  function IdsInState(running: map<string, string>, state: string): set<string> {
    set id | id in running && EqualFold(running[id], state)
  }

  function AvailableSlots(st: EligibilityState, state: string): int {
    var global := MaxConcurrent(st.cfg) - |st.running|;
    var inState := StateLimit(st.cfg, state) - |IdsInState(st.running, state)|;
    var least := if inState < global then inState else global;
    if least < 0 then 0 else least
  }

  /** The loop form: counts the running issues whose state folds to `state`. */
  method AvailableSlotsForState(state: string, st: EligibilityState) returns (slots: int)
    ensures slots == AvailableSlots(st, state)
  {
    var global := MaxConcurrent(st.cfg) - |st.running|;
    if global < 0 {
      global := 0;
    }
    var limit := MaxConcurrent(st.cfg);
    if Lower(state) in st.cfg.maxConcurrentByState {
      limit := st.cfg.maxConcurrentByState[Lower(state)];
    }
    var runningInState := 0;
    ghost var counted: set<string> := {};
    var rest := st.running.Keys;
    while rest != {}
      invariant rest <= st.running.Keys && counted <= st.running.Keys
      invariant forall id | id in st.running && id !in rest :: id in counted <==> EqualFold(st.running[id], state)
      invariant counted !! rest
      invariant runningInState == |counted|
      decreases |rest|
    {
      var id :| id in rest;
      rest := rest - {id};
      if EqualFold(st.running[id], state) {
        runningInState := runningInState + 1;
        counted := counted + {id};
      }
    }
    assert counted == IdsInState(st.running, state);
    var stateAvailable := limit - runningInState;
    if stateAvailable < 0 {
      stateAvailable := 0;
    }
    slots := if stateAvailable < global then stateAvailable else global;
  }

  function CandidateEligible(issue: Issue, st: EligibilityState): Verdict {
    if issue.id == "" || issue.identifier == "" || issue.title == "" || issue.state == "" then
      Refused(MissingField)
    else if !StateNameIn(issue.state, st.cfg.activeStates) || StateNameIn(issue.state, st.cfg.terminalStates) then
      Refused(NotActive)
    else if EqualFold(issue.state, "Human Review") || EqualFold(issue.state, "In Review") then
      Refused(WaitingForReview)
    else if EqualFold(issue.state, "AI Review") && !st.cfg.allowsAIReview then
      Refused(WaitingForAIReview)
    else if issue.assignedToWorker == Some(false) then
      Refused(NotAssigned)
    else if issue.id in st.claimed then
      Refused(Claimed)
    else if issue.id in st.running then
      Refused(AlreadyRunning)
    else if
      && EqualFold(issue.state, "Todo")
      && issue.blockedBy.Some?
      && exists i | 0 <= i < |issue.blockedBy.value| :: !StateNameIn(issue.blockedBy.value[i], st.cfg.terminalStates)
    then
      Refused(Blocked)
    else if AvailableSlots(st, issue.state) <= 0 then
      Refused(NoSlots)
    else
      Eligible
  }

  // What a refreshed tracker answer replaces; the routing flag stays as it was.
  function MergeRefresh(base: Issue, refreshed: Issue): Issue {
    base.(
      id := if refreshed.id != "" then refreshed.id else base.id,
      identifier := if refreshed.identifier != "" then refreshed.identifier else base.identifier,
      title := if refreshed.title != "" then refreshed.title else base.title,
      state := if refreshed.state != "" then refreshed.state else base.state,
      blockedBy := if refreshed.blockedBy.Some? then refreshed.blockedBy else base.blockedBy)
  }

  // --- When an issue may be dispatched, in plain terms ---

  predicate Lists(list: seq<string>, state: string) {
    Trim(state) != "" && exists i | 0 <= i < |list| :: SameText(Trim(list[i]), Trim(state))
  }

  // Agents at once: as configured, or ten.
  function GlobalLimit(cfg: Config): int {
    if cfg.maxConcurrentAgents < 1 then 10 else cfg.maxConcurrentAgents
  }

  // Agents at once in the state: what is configured for its lower-case name, if anything.
  function LimitFor(cfg: Config, state: string): int {
    if Lower(state) in cfg.maxConcurrentByState then cfg.maxConcurrentByState[Lower(state)] else GlobalLimit(cfg)
  }

  predicate StandsAgainst(reason: Reason, issue: Issue, st: EligibilityState) {
    match reason
    case MissingField => "" in [issue.id, issue.identifier, issue.title, issue.state]
    case NotActive => Lists(st.cfg.terminalStates, issue.state) || !Lists(st.cfg.activeStates, issue.state)
    case WaitingForReview => SameText(issue.state, "In Review") || SameText(issue.state, "Human Review")
    case WaitingForAIReview => !st.cfg.allowsAIReview && SameText(issue.state, "AI Review")
    case NotAssigned => issue.assignedToWorker.Some? && !issue.assignedToWorker.value
    case Claimed => issue.id in st.claimed
    case AlreadyRunning => issue.id in st.running
    case Blocked =>
      && SameText(issue.state, "Todo") && issue.blockedBy.Some?
      && exists i | 0 <= i < |issue.blockedBy.value| :: !Lists(st.cfg.terminalStates, issue.blockedBy.value[i])
    case NoSlots =>
      || |st.running| >= GlobalLimit(st.cfg)
      || |set id | id in st.running && SameText(st.running[id], issue.state)| >= LimitFor(st.cfg, issue.state)
  }

  const REASONS := [
    MissingField, NotActive, WaitingForReview, WaitingForAIReview, NotAssigned, Claimed, AlreadyRunning, Blocked,
    NoSlots]

  // The first reason that stands against it, or none.
  ghost predicate FirstReason(k: nat, issue: Issue, st: EligibilityState) {
    && k <= |REASONS|
    && (forall j | 0 <= j < k :: !StandsAgainst(REASONS[j], issue, st))
    && (k < |REASONS| ==> StandsAgainst(REASONS[k], issue, st))
  }

  lemma SlotsInPlainTerms(issue: Issue, st: EligibilityState)
    ensures AvailableSlots(st, issue.state) <= 0 <==> StandsAgainst(NoSlots, issue, st)
  {
    forall id | id in st.running
      ensures EqualFold(st.running[id], issue.state) == SameText(st.running[id], issue.state)
    {
      FoldIsCaseless(st.running[id], issue.state);
    }
    assert IdsInState(st.running, issue.state) == set id | id in st.running && SameText(st.running[id], issue.state);
  }

  lemma ListsInPlainTerms(list: seq<string>)
    ensures forall state :: StateNameIn(state, list) == Lists(list, state)
  {
    forall state ensures StateNameIn(state, list) == Lists(list, state) {
      ListedExactlyWhen(state, list);
    }
  }

  function RankOf(reason: Reason): (k: nat)
    ensures k < |REASONS| && REASONS[k] == reason
  {
    match reason
    case MissingField => 0
    case NotActive => 1
    case WaitingForReview => 2
    case WaitingForAIReview => 3
    case NotAssigned => 4
    case Claimed => 5
    case AlreadyRunning => 6
    case Blocked => 7
    case NoSlots => 8
  }

  lemma VerdictIsFirst(issue: Issue, st: EligibilityState)
    ensures var v := CandidateEligible(issue, st);
      FirstReason(if v.Eligible? then |REASONS| else RankOf(v.reason), issue, st)
  {
    SlotsInPlainTerms(issue, st);
    ListsInPlainTerms(st.cfg.activeStates);
    ListsInPlainTerms(st.cfg.terminalStates);
    FoldIsCaseless(issue.state, "Human Review");
    FoldIsCaseless(issue.state, "In Review");
    FoldIsCaseless(issue.state, "AI Review");
    FoldIsCaseless(issue.state, "Todo");
    hide StateNameIn, EqualFold, SameText, Lists, AvailableSlots, LimitFor, GlobalLimit;
  }

  // An issue is eligible exactly when nothing stands against it, and is refused for the
  // first thing that does.
  lemma RefusedForFirstReason(issue: Issue, st: EligibilityState, k: nat)
    requires k < |REASONS|
    ensures CandidateEligible(issue, st) == Refused(REASONS[k]) <==> FirstReason(k, issue, st)
    ensures CandidateEligible(issue, st) == Eligible <==> FirstReason(|REASONS|, issue, st)
  {
    VerdictIsFirst(issue, st);
    hide CandidateEligible, StandsAgainst;
  }
}
