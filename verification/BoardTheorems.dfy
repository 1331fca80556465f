/** What a running entry shows: of everything its worker went through, the latest. */
module BoardTheorems {
  import opened Wrappers
  import opened Eligibility
  import opened Keyed
  import opened Tables
  import opened Scheduler
  import opened FleetInvariants
  import opened Ledger

  // What can happen to an issue's entry, and when.
  datatype News =
    | Begins(issue: Issue, attempt: int)
    | Enters(issue: Issue, attempt: int, stage: Stage)
    | Reports(event: CodexEvent)
    | Restated(state: string)

  datatype Note = Note(news: News, at: int)

  function NewsOf(s: System, step: Step, id: string): Option<News> {
    match step
    case Work(w, EnterStage(issue, stage)) =>
      if w in s.workers && s.workers[w].pc.Trunk? && s.workers[w].issue.id == id == issue.id
      then Some(Enters(issue, s.workers[w].attempt, stage)) else None
    case Work(w, Report(event)) =>
      if w in s.workers && s.workers[w].pc.Trunk? && s.workers[w].issue.id == id then Some(Reports(event)) else None
    case Poll(UpdateRunning(issue, state)) =>
      if s.poll.PollIdle? && issue == id then Some(Restated(state)) else None
    case Poll(DispatchCandidate(issue)) =>
      if s.poll.PollIdle? && issue.id == id && MayDispatch(s.t, issue) then Some(Begins(issue, 0)) else None
    case Handle(h, TryDispatch) =>
      if h in s.handlers && s.handlers[h].pc.Dispatching? && s.handlers[h].pc.issue.id == id
        && MayDispatch(s.t, s.handlers[h].pc.issue)
      then Some(Begins(s.handlers[h].pc.issue, s.handlers[h].pc.attempt)) else None
    case _ => None
  }

  function Notes(s: System, steps: seq<Step>, id: string): seq<Note> {
    if steps == [] then []
    else
      var front, last := steps[..|steps| - 1], steps[|steps| - 1];
      var before := Exec(s, front);
      var news := NewsOf(before, last, id);
      Notes(s, front, id) + if news.Some? then [Note(news.value, before.now)] else []
  }

  // The latest note that says something.
  function Latest<T>(notes: seq<Note>, says: Note -> Option<T>, nothing: T): T {
    if notes == [] then nothing
    else
      var said := says(notes[|notes| - 1]);
      if said.Some? then said.value else Latest(notes[..|notes| - 1], says, nothing)
  }

  function Worded(text: string): Option<string> {
    if text == "" then None else Some(text)
  }

  // --- What the notes say, field by field ---

  function SaysIdentifier(n: Note): Option<string> {
    match n.news
    case Begins(issue, _) => Some(issue.identifier)
    case Enters(issue, _, _) => Some(issue.identifier)
    case _ => None
  }

  function SaysState(n: Note): Option<string> {
    match n.news
    case Begins(issue, _) => Some(issue.state)
    case Enters(issue, _, _) => Some(issue.state)
    case Restated(state) => Some(state)
    case Reports(_) => None
  }

  function SaysPhase(n: Note): Option<string> {
    match n.news
    case Begins(_, _) => Some("")
    case Enters(_, _, stage) => Worded(stage.phase)
    case _ => None
  }

  function SaysStage(n: Note): Option<string> {
    match n.news
    case Begins(_, _) => Some("queued")
    case Enters(_, _, stage) => Worded(stage.stage)
    case _ => None
  }

  function SaysWorkspace(n: Note): Option<string> {
    match n.news
    case Begins(_, _) => Some("")
    case Enters(_, _, stage) => Worded(stage.workspacePath)
    case _ => None
  }

  function SaysAttempt(n: Note): Option<int> {
    match n.news
    case Begins(_, attempt) => Some(attempt)
    case Enters(_, attempt, _) => Some(attempt)
    case _ => None
  }

  function SaysTurn(n: Note): Option<int> {
    match n.news
    case Begins(_, _) => Some(1)
    case Enters(_, _, stage) => Some(if stage.turnCount >= 1 then stage.turnCount else 1)
    case _ => None
  }

  function SaysStart(n: Note): Option<int> {
    if n.news.Begins? then Some(n.at) else None
  }

  function SaysEvent(n: Note): Option<string> {
    match n.news
    case Begins(_, _) => Some("queued")
    case Enters(_, _, stage) => Worded(stage.stage)
    case Reports(event) => Some(event.name)
    case Restated(_) => None
  }

  function SaysMessage(n: Note): Option<string> {
    match n.news
    case Begins(_, _) => Some("queued for worker")
    case Enters(_, _, stage) => Some(if stage.message == "" then stage.stage else stage.message)
    case Reports(event) => Some(event.message)
    case Restated(_) => None
  }

  function SaysTime(n: Note): Option<int> {
    if n.news.Restated? then None else Some(n.at)
  }

  function SaysSession(n: Note): Option<string> {
    match n.news
    case Begins(_, _) => Some("")
    case Reports(event) => Worded(event.sessionId)
    case _ => None
  }

  function SaysThread(n: Note): Option<string> {
    match n.news
    case Begins(_, _) => Some("")
    case Reports(event) => Worded(event.threadId)
    case _ => None
  }

  function SaysTurnId(n: Note): Option<string> {
    match n.news
    case Begins(_, _) => Some("")
    case Reports(event) => Worded(event.turnId)
    case _ => None
  }

  function SaysPid(n: Note): Option<int> {
    match n.news
    case Begins(_, _) => Some(0)
    case Reports(event) => event.pid
    case _ => None
  }

  function SaysTokens(n: Note): Option<Usage> {
    match n.news
    case Begins(_, _) => Some(ZERO_USAGE)
    case Reports(event) => event.usage
    case _ => None
  }

  function Shown(id: string, notes: seq<Note>): RunningEntry {
    RunningEntry(
      id,
      Latest(notes, SaysIdentifier, ""),
      Latest(notes, SaysState, ""),
      Latest(notes, SaysPhase, ""),
      Latest(notes, SaysStage, ""),
      Latest(notes, SaysWorkspace, ""),
      Latest(notes, SaysAttempt, 0),
      Latest(notes, SaysTurn, 0),
      Latest(notes, SaysStart, 0),
      Latest(notes, SaysEvent, ""),
      Latest(notes, SaysMessage, ""),
      Latest(notes, SaysTime, 0),
      Session(
        Latest(notes, SaysSession, ""), Latest(notes, SaysThread, ""), Latest(notes, SaysTurnId, ""),
        Latest(notes, SaysPid, 0)),
      Latest(notes, SaysTokens, ZERO_USAGE))
  }

  // --- One step ---

  function EntryOf(b: Board, id: string): Option<RunningEntry> {
    var i := Find(b.running, RunKey, id);
    if i < |b.running| then Some(b.running[i]) else None
  }

  // The entry after a note.
  function Noted(e: Option<RunningEntry>, n: Note): Option<RunningEntry> {
    match n.news
    case Begins(issue, attempt) => Some(StageEntry(issue, attempt, QUEUED, n.at))
    case Enters(issue, attempt, stage) =>
      var entry := StageEntry(issue, attempt, stage, n.at);
      Some(if e.Some? then Inherit(entry, e.value) else entry)
    case Reports(event) => if e.Some? then Some(Observe(e.value, event, n.at)) else None
    case Restated(state) => if e.Some? then Some(e.value.(state := state)) else None
  }

  lemma FindReplaced(running: seq<RunningEntry>, i: nat, e: RunningEntry, id: string)
    requires i < |running| && e.id == running[i].id
    ensures Find(running[i := e], RunKey, id) == Find(running, RunKey, id)
  {
    FindIsFirst(running[i := e], id, Find(running, RunKey, id));
  }

  lemma {:induction false} FindIsFirst(running: seq<RunningEntry>, id: string, k: nat, from: nat := 0)
    requires from <= k <= |running| && (forall j | from <= j < k :: running[j].id != id)
    requires k < |running| ==> running[k].id == id
    ensures Find(running, RunKey, id, from) == k
    decreases k - from
  {
    if from < k {
      FindIsFirst(running, id, k, from + 1);
    }
  }

  lemma SetStageShows(b: Board, issue: Issue, attempt: int, stage: Stage, now: int, id: string)
    ensures EntryOf(SetStage(b, issue, attempt, stage, now), id) ==
      if issue.id == id then Noted(EntryOf(b, id), Note(Enters(issue, attempt, stage), now)) else EntryOf(b, id)
  {
    var entry := StageEntry(issue, attempt, stage, now);
    var i := Find(b.running, RunKey, issue.id);
    if i < |b.running| {
      FindReplaced(b.running, i, Inherit(entry, b.running[i]), id);
    } else {
      var k := if issue.id == id then |b.running| else Find(b.running, RunKey, id);
      var r := b.running + [entry];
      if k < |b.running| || issue.id == id {
        FindIsFirst(r, id, k);
      } else {
        FindIsFirst(r, id, |r|);
      }
    }
  }

  lemma UpdatesShow(b: Board, other: string, state: string, event: CodexEvent, now: int, id: string)
    ensures EntryOf(UpdateState(b, other, state), id) ==
      if other == id then Noted(EntryOf(b, id), Note(Restated(state), now)) else EntryOf(b, id)
    ensures EntryOf(UpdateFromEvent(b, other, event, now), id) ==
      if other == id then Noted(EntryOf(b, id), Note(Reports(event), now)) else EntryOf(b, id)
  {
    var i := Find(b.running, RunKey, other);
    if i < |b.running| {
      FindReplaced(b.running, i, b.running[i].(state := state), id);
      FindReplaced(b.running, i, Observe(b.running[i], event, now), id);
    }
  }

  lemma {:induction false} WithoutKeepsFirst(running: seq<RunningEntry>, other: string, id: string)
    requires other != id
    ensures var r := Without(running, RunKey, other); var i, k := Find(running, RunKey, id), Find(r, RunKey, id);
      if i < |running| then k < |r| && r[k] == running[i] else k == |r|
    decreases |running|
  {
    if running != [] {
      var front, last := running[..|running| - 1], running[|running| - 1];
      WithoutKeepsFirst(front, other, id);
      var i, rest := Find(front, RunKey, id), Without(front, RunKey, other);
      FirstOfSnoc(front, last, id);
      FirstOfSnoc(rest, last, id);
      assert running == front + [last];
    }
  }

  lemma FirstOfSnoc(front: seq<RunningEntry>, last: RunningEntry, id: string)
    ensures var i := Find(front, RunKey, id);
      Find(front + [last], RunKey, id) == if i == |front| && last.id != id then |front| + 1 else i
  {
    var i := Find(front, RunKey, id);
    FindIsFirst(front + [last], id, if i == |front| && last.id != id then |front| + 1 else i);
  }

  lemma RemovalShows(b: Board, other: string, now: int, id: string)
    ensures EntryOf(RemoveRunning(b, other, now), id) == if other == id then None else EntryOf(b, id)
  {
    var r := Without(b.running, RunKey, other);
    if other == id {
      WithoutMembers(b.running, RunKey, id);
      forall j | 0 <= j < |r| ensures r[j].id != id {
        assert r[j] in r;
      }
      FindIsFirst(r, id, |r|);
    } else {
      WithoutKeepsFirst(b.running, other, id);
    }
  }

  predicate Leaves(s: System, step: Step, id: string) {
    && step.Work? && step.work.Return? && step.w in s.workers
    && s.workers[step.w].pc.Trunk? && s.workers[step.w].issue.id == id
  }

  // What the step makes of the entry.
  function After(s: System, step: Step, id: string): Option<RunningEntry> {
    var news := NewsOf(s, step, id);
    if Leaves(s, step, id) then None
    else if news.Some? then Noted(EntryOf(s.t.board, id), Note(news.value, s.now))
    else EntryOf(s.t.board, id)
  }

  lemma TrunkShows(s: System, w: WorkerId, work: WorkerStep, id: string)
    requires w in s.workers && s.workers[w].pc.Trunk?
    ensures EntryOf(InTrunk(s.t, s.now, s.workers[w], work).t.board, id) == After(s, Work(w, work), id)
  {
    hide SetStage, UpdateFromEvent, RemoveRunning, EntryOf, Noted, TokensOf, LostBy;
    var worker := s.workers[w];
    match work {
      case EnterStage(issue, stage) => SetStageShows(s.t.board, issue, worker.attempt, stage, s.now, id);
      case Report(event) => UpdatesShow(s.t.board, worker.issue.id, "", event, s.now, id);
      case Return(exit) => RemovalShows(s.t.board, worker.issue.id, s.now, id);
      case _ =>
    }
  }

  lemma WorkShows(s: System, w: WorkerId, work: WorkerStep, id: string)
    ensures EntryOf(ApplyWork(s, w, work).t.board, id) == After(s, Work(w, work), id)
  {
    hide InTrunk, InExit, EntryOf, Noted;
    if w in s.workers {
      if s.workers[w].pc.Trunk? {
        TrunkShows(s, w, work, id);
        hide After;
      } else {
        InExitConserves(s.t, s.workers[w], work);
      }
    }
  }

  // A dispatch finds no entry of the issue.
  lemma BeginningShows(s: System, issue: Issue, attempt: int, id: string)
    requires FleetInv(s) && issue.id !in s.t.cancels
    ensures EntryOf(StartWorker(s, Some((issue, attempt))).t.board, id) ==
      var e := EntryOf(s.t.board, id);
      if issue.id == id then Noted(e, Note(Begins(issue, attempt), s.now)) else e
  {
    hide ClearRetry;
    SetStageShows(s.t.board, issue, attempt, QUEUED, s.now, id);
    var i := Find(s.t.board.running, RunKey, issue.id);
    if i < |s.t.board.running| {
      KeysHas(s.t.board.running, RunKey, i);
    }
  }

  lemma PollShows(s: System, step: PollStep, id: string)
    requires FleetInv(s)
    ensures EntryOf(ApplyPoll(s, step).t.board, id) == After(s, Poll(step), id)
  {
    hide CandidateEligible, EligibilityOf, ScheduleRetry, SetStage, UpdateState, Noted;
    var m := MovePoll(s.t, s.poll, step);
    if m.start.Some? {
      BeginningShows(s.(t := m.t, poll := m.poll), m.start.value.0, m.start.value.1, id);
    } else if s.poll.PollIdle? && step.UpdateRunning? {
      UpdatesShow(s.t.board, step.id, step.state, CodexEvent("", "", "", "", "", None, None), s.now, id);
    }
  }

  lemma HandleShows(s: System, h: TimerId, step: HandlerStep, id: string)
    requires FleetInv(s)
    ensures EntryOf(ApplyHandle(s, h, step).t.board, id) == After(s, Handle(h, step), id)
  {
    hide CandidateEligible, EligibilityOf, ScheduleRetry, SetStage, ClearRetry, Noted;
    if h in s.handlers {
      var m := MoveHandler(s.t, s.handlers[h], step);
      if m.start.Some? {
        var mid := s.(t := s.t.(retries := m.retries, claimed := m.claimed), handlers := s.handlers - {h});
        BeginningShows(mid, m.start.value.0, m.start.value.1, id);
      }
    }
  }

  lemma StepShows(s: System, step: Step, id: string)
    requires FleetInv(s)
    ensures EntryOf(Apply(s, step).t.board, id) == After(s, step, id)
  {
    UntimelyIsNoNews(s, step, id);
    hide ApplyOutside, ApplyPoll, ApplyWork, ApplyHandle, EntryOf, After;
    match step {
      case Outside(outside) =>
        OutsideKeepsFleet(s, outside);
        NoNews(s, outside, id);
      case Poll(poll) => PollShows(s, poll, id);
      case Work(w, work) => WorkShows(s, w, work, id);
      case Handle(h, handle) => HandleShows(s, h, handle, id);
    }
  }

  lemma UntimelyIsNoNews(s: System, step: Step, id: string)
    ensures !Timely(s, step) ==> After(s, step, id) == EntryOf(s.t.board, id)
  {
  }

  lemma NoNews(s: System, step: OutsideStep, id: string)
    ensures After(s, Outside(step), id) == EntryOf(s.t.board, id)
  {
  }

  // --- Every run ---

  lemma LatestOfSnoc<T>(notes: seq<Note>, n: Note, says: Note -> Option<T>, nothing: T)
    ensures Latest(notes + [n], says, nothing) ==
      if says(n).Some? then says(n).value else Latest(notes, says, nothing)
  {
    assert (notes + [n])[..|notes|] == notes;
  }

  // The entry after a note shows what the notes up to it say.
  lemma NoteIsShown(id: string, e: Option<RunningEntry>, notes: seq<Note>, n: Note)
    requires e.Some? ==> e.value == Shown(id, notes) && e.value.startedAt != 0
    requires n.news.Enters? ==> e.Some?
    requires (n.news.Begins? || n.news.Enters?) ==> n.news.issue.id == id
    ensures Noted(e, n).Some? ==> Noted(e, n).value == Shown(id, notes + [n])
  {
    LatestOfSnoc(notes, n, SaysIdentifier, "");
    LatestOfSnoc(notes, n, SaysState, "");
    LatestOfSnoc(notes, n, SaysPhase, "");
    LatestOfSnoc(notes, n, SaysStage, "");
    LatestOfSnoc(notes, n, SaysWorkspace, "");
    LatestOfSnoc(notes, n, SaysAttempt, 0);
    LatestOfSnoc(notes, n, SaysTurn, 0);
    LatestOfSnoc(notes, n, SaysStart, 0);
    LatestOfSnoc(notes, n, SaysEvent, "");
    LatestOfSnoc(notes, n, SaysMessage, "");
    LatestOfSnoc(notes, n, SaysTime, 0);
    LatestOfSnoc(notes, n, SaysSession, "");
    LatestOfSnoc(notes, n, SaysThread, "");
    LatestOfSnoc(notes, n, SaysTurnId, "");
    LatestOfSnoc(notes, n, SaysPid, 0);
    LatestOfSnoc(notes, n, SaysTokens, ZERO_USAGE);
    hide Latest;
  }

  // A worker in its flow has an entry, and any news but a dispatch comes from such a worker
  // or restates a state.
  lemma NewsHasItsEntry(s: System, step: Step, id: string)
    requires FleetInv(s)
    ensures var news := NewsOf(s, step, id);
      && (news.Some? && news.value.Enters? ==> EntryOf(s.t.board, id).Some?)
      && (news.Some? && (news.value.Begins? || news.value.Enters?) ==> news.value.issue.id == id)
  {
    var news := NewsOf(s, step, id);
    hide MayDispatch;
    if news.Some? && news.value.Enters? {
      assert id in RunningIds(s.t.board);
      var k :| 0 <= k < |s.t.board.running| && RunKey(s.t.board.running[k]) == id;
    }
  }

  // Every field of every running entry: the latest that was said of it since its dispatch.
  lemma {:induction false} EntriesShowTheLatest(cfg: Config, steps: seq<Step>, id: string)
    ensures var e := EntryOf(Exec(Init(cfg), steps).t.board, id);
      e.Some? ==> e.value == Shown(id, Notes(Init(cfg), steps, id))
    decreases |steps|
  {
    if steps != [] {
      var front, last := steps[..|steps| - 1], steps[|steps| - 1];
      var s, notes := Exec(Init(cfg), front), Notes(Init(cfg), front, id);
      EntriesShowTheLatest(cfg, front, id);
      RunsKeepInv(cfg, front);
      RunsStamp(cfg, front);
      StepShows(s, last, id);
      NewsHasItsEntry(s, last, id);
      hide Apply, Shown, NewsOf, Noted, FleetInv;
      var e := EntryOf(s.t.board, id);
      assert e.Some? ==> e.value in s.t.board.running;
      var news := NewsOf(s, last, id);
      if news.Some? {
        NoteIsShown(id, e, notes, Note(news.value, s.now));
      } else {
        assert notes + [] == notes;
      }
    }
  }
}
