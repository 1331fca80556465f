/**
 Taking a changed workflow into service: refreshWorkflow and reloadDependencies of
 internal/service/orchestrator/orchestrator.go.
 */
module Refreshing {
  import opened Reloading
  import opened Wrappers

  // What a dependency was made from; Given is what the service started with.
  datatype Tracker = GivenTracker | TrackerFor(workflow: Workflow)
  datatype Workspaces = GivenWorkspaces | WorkspacesFor(workflow: Workflow)
  datatype Runner = GivenRunner | RunnerFor(workflow: Workflow) | RunnerWith(workflow: Workflow, tracker: Tracker)

  datatype Options = Options(workflow: Workflow, tracker: Tracker, workspaces: Workspaces, runner: Runner)

  // Which factories there are.
  datatype Factories = Factories(
    tracker: bool, workspaces: bool, runnerWithTracker: bool, workflowRunner: bool, runner: bool
  )

  // What one refresh meets: the stat, the load, and which factories fail.
  datatype World = World(info: Option<Stamp>, loaded: Option<Workflow>, trackerFails: bool, runnerFails: bool)

  datatype Service = Service(options: Options, reloader: State)

  function MakeTracker(f: Factories, o: Options, w: Workflow): Tracker {
    if f.tracker then TrackerFor(w) else o.tracker
  }

  function MakeRunner(f: Factories, o: Options, w: Workflow, tracker: Tracker): Runner {
    if f.runnerWithTracker then RunnerWith(w, tracker)
    else if f.workflowRunner || f.runner then RunnerFor(w)
    else o.runner
  }

  predicate FactoriesFail(f: Factories, world: World) {
    (f.tracker && world.trackerFails) || (!f.runnerWithTracker && f.workflowRunner && world.runnerFails)
  }

  function ReloadDependencies(f: Factories, o: Options, w: Workflow, world: World): Option<Options> {
    if FactoriesFail(f, world) then None
    else
      var tracker := MakeTracker(f, o, w);
      Some(Options(w, tracker, if f.workspaces then WorkspacesFor(w) else o.workspaces, MakeRunner(f, o, w, tracker)))
  }

  // The service after one refresh, and whether the refresh failed. It fails exactly when
  // the file cannot be read, or has changed and cannot be loaded or served; then what is
  // in service stays, and so does the committed stamp: the change is found again.
  function RefreshFrom(f: Factories, s: Service, world: World): (r: (Service, bool))
    ensures r.1 <==>
      || world.info.None?
      || (world.info.value != s.reloader.stamp &&
          (|| world.loaded.None?
           || (world.trackerFails && f.tracker)
           || (world.runnerFails && f.workflowRunner && !f.runnerWithTracker)))
    ensures r.1 ==> r.0.options == s.options && r.0.reloader.(pending := None, pendingStamp := s.reloader.stamp) ==
                                                 s.reloader.(pending := None, pendingStamp := s.reloader.stamp)
    ensures !r.1 ==> world.info == Some(r.0.reloader.stamp)
  {
    var (reloader, said) := ReloadFrom(s.reloader, world.info, world.loaded);
    match said
    case ReloadFailed => (s.(reloader := reloader), true)
    case Unchanged => (s.(reloader := reloader), false)
    case Candidate(w) =>
      var made := ReloadDependencies(f, s.options, w, world);
      if made.None? then (s.(reloader := reloader), true)
      else (Service(made.value, Commit(reloader)), false)
  }

  class ServiceOptions {
    const factories: Factories
    const reloader: Reloader
    var workflow: Workflow
    var tracker: Tracker
    var workspaces: Workspaces
    var runner: Runner

    ghost function View(): Service
      reads this, reloader
    {
      Service(Options(workflow, tracker, workspaces, runner), reloader.View())
    }

    constructor (factories: Factories, reloader: Reloader)
      ensures this.factories == factories && this.reloader == reloader
      ensures View() == Service(Options(reloader.current, GivenTracker, GivenWorkspaces, GivenRunner), reloader.View())
    {
      this.factories, this.reloader := factories, reloader;
      workflow, tracker, workspaces, runner := reloader.current, GivenTracker, GivenWorkspaces, GivenRunner;
    }

    method RefreshWorkflow(world: World) returns (failed: bool)
      modifies this, reloader
      ensures (View(), failed) == RefreshFrom(factories, old(View()), world)
    {
      var said := reloader.ReloadIfChanged(world.info, world.loaded);
      if said.ReloadFailed? {
        return true;
      }
      if said.Candidate? {
        var w := said.workflow;
        var nextTracker := tracker;
        if factories.tracker {
          if world.trackerFails {
            return true;
          }
          nextTracker := TrackerFor(w);
        }
        var nextWorkspaces := if factories.workspaces then WorkspacesFor(w) else workspaces;
        var nextRunner := runner;
        if factories.runnerWithTracker {
          nextRunner := RunnerWith(w, nextTracker);
        } else if factories.workflowRunner {
          if world.runnerFails {
            return true;
          }
          nextRunner := RunnerFor(w);
        } else if factories.runner {
          nextRunner := RunnerFor(w);
        }
        reloader.CommitCandidate();
        workflow, tracker, workspaces, runner := w, nextTracker, nextWorkspaces, nextRunner;
      }
      failed := false;
    }
  }

  function Refreshes(f: Factories, s: Service, worlds: seq<World>): Service
    decreases |worlds|
  {
    if worlds == [] then s else Refreshes(f, RefreshFrom(f, s, worlds[0]).0, worlds[1..])
  }

  // Everything that has a factory was made for the workflow in service, the runner with
  // the tracker in service; everything else is still what it was.
  predicate Matched(f: Factories, start: Options, s: Service) {
    && s.options.workflow == s.reloader.current
    && s.options.tracker == (if f.tracker then TrackerFor(s.options.workflow) else start.tracker)
    && s.options.workspaces == (if f.workspaces then WorkspacesFor(s.options.workflow) else start.workspaces)
    && s.options.runner ==
       (if f.runnerWithTracker then RunnerWith(s.options.workflow, s.options.tracker)
        else if f.workflowRunner || f.runner then RunnerFor(s.options.workflow)
        else start.runner)
  }

  // After any refreshes the service is as it started, or workflow, tracker, workspaces
  // and runner all go together.
  lemma {:induction false} AllOrNothing(f: Factories, start: Options, s: Service, worlds: seq<World>)
    requires s.options.workflow == s.reloader.current
    requires s.options == start || Matched(f, start, s)
    ensures var t := Refreshes(f, s, worlds);
      t.options.workflow == t.reloader.current && (t.options == start || Matched(f, start, t))
    decreases |worlds|
  {
    if worlds != [] {
      AllOrNothing(f, start, RefreshFrom(f, s, worlds[0]).0, worlds[1..]);
    }
  }
}
