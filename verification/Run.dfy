/** The whole of `AppBuilder::run`: plugins, then services, then the schedule, with the build events in between. */
module Run {
  import opened Dealing
  import opened Lifecycle
  import opened PluginGraph
  import opened BuildHistory
  import opened Application
  import opened Startup
  import opened ComponentMacro
  import opened Wiring
  import opened ServiceGraph
  import opened Services

  datatype BuildEvent = ConfigEvent | PluginsBuiltEvent | ServicesInjectedEvent

  /** What the listeners of each build event do with the builder, in their order; which of them accept their event;
      and what the schedule is answered. */
  datatype Listeners = Listeners(
    config: seq<Plugin>, built: seq<Plugin>, injected: seq<Plugin>,
    configOk: nat -> bool, builtOk: nat -> bool, injectedOk: nat -> bool, schedule: Answers)

  datatype RunOutcome =
    | AddPanic(outcome: Outcome)  // while adding the plugins that the macros registered
    | EventFailed(event: BuildEvent, end: Published)
    | PluginPanic(outcome: Outcome)
    | ServiceError(result: InjectOutcome)
    | Scheduled(ok: bool)

  /** What a run has done: the plugin history, the services installed, how many listeners of the last build event
      acted, the components at the end, and the run of the schedule with its last state. */
  datatype Progress = Progress(
    h: History, done: seq<Service>, ran: nat, cs: Components, acts: seq<Action>, s: State)

  /** The components that the services find: what the plugins added, then the listeners. */
  function Offered(p: Progress, ls: Listeners): Components {
    After(After(p.h.cs, p.h.built), ls.built)
  }

  /** The tasks and hooks that the schedule finds. */
  function AllTasks(h: History, ls: Listeners): seq<Job> {
    h.tasks + TasksOf(h.built) + (TasksOf(ls.built) + TasksOf(ls.injected))
  }

  function AllHooks(h: History, ls: Listeners): seq<Job> {
    h.hooks + HooksOf(h.built) + (HooksOf(ls.built) + HooksOf(ls.injected))
  }

  ghost predicate ServicesDone(p: Progress, ls: Listeners, services: seq<Service>, configs: set<ConfigId>,
                               cs: Components, i: InjectOutcome) {
    Ran(p.h, Completed) && InjectResult(services, configs, Offered(p, ls), cs, p.done, i)
  }

  /** A run that a listener ended: what had been done when its event was published, and how the listener failed. */
  ghost predicate EndedByEvent(p: Progress, ls: Listeners, services: seq<Service>, configs: set<ConfigId>,
                               event: BuildEvent, e: Published) {
    match event
    case ConfigEvent => p.done == [] && PublishEnds(p.h.cs, ls.config, ls.configOk, p.ran, e)
    case PluginsBuiltEvent =>
      Ran(p.h, Completed) && p.done == [] && PublishEnds(After(p.h.cs, p.h.built), ls.built, ls.builtOk, p.ran, e)
    case ServicesInjectedEvent =>
      var installed := WithServices(Offered(p, ls), p.done);
      && ServicesDone(p, ls, services, configs, installed, Installed)
      && PublishEnds(installed, ls.injected, ls.injectedOk, p.ran, e)
  }

  /** What is known when `run` has ended. */
  ghost predicate RunResult(p: Progress, ls: Listeners, services: seq<Service>, configs: set<ConfigId>, r: RunOutcome) {
    match r
    case AddPanic(o) => o != Completed && p.done == [] && p.acts == []
    case EventFailed(event, e) => e != Delivered && p.acts == [] && EndedByEvent(p, ls, services, configs, event, e)
    case PluginPanic(o) => o != Completed && Ran(p.h, o) && p.done == [] && p.acts == []
    case ServiceError(i) => i != Installed && ServicesDone(p, ls, services, configs, p.cs, i) && p.acts == []
    case Scheduled(ok) =>
      var installed := WithServices(Offered(p, ls), p.done);
      && ServicesDone(p, ls, services, configs, installed, Installed) && p.cs == After(installed, ls.injected)
      && IsRun(AllTasks(p.h, ls), AllHooks(p.h, ls), p.acts, p.s)
      && (if ls.schedule.built then Halted(p.s) && p.s.spawned == AllTasks(p.h, ls) else p.acts == [])
      && (ok <==> EndsWell(ls.schedule, |AllTasks(p.h, ls)|, |AllHooks(p.h, ls)|))
      && (ok <==> p.s.phase == Ended)
  }

  predicate BuildsPlugins(r: RunOutcome) {
    !r.AddPanic? && !(r.EventFailed? && r.event.ConfigEvent?)
  }

  lemma JobsOfAll(first: seq<Job>, built: seq<Job>, second: seq<Job>, third: seq<Job>)
    ensures first + built + second + third == first + built + (second + third)
  {
  }

  /** `inventory` and `services` are what the macros registered; `p.cs` is what the application holds at the end. */
  method InnerRun(app: AppBuilder, inventory: seq<Plugin>, services: seq<Service>, configs: set<ConfigId>,
                  ls: Listeners)
    returns (r: RunOutcome, ghost p: Progress)
    requires app.Valid()
    requires NoRepeats(services) && DistinctTypes(services)
    modifies app, app.closures
    ensures BuildsPlugins(r) || r.EventFailed? ==> NoClash(old(app.pluginRegistry), inventory)
    ensures BuildsPlugins(r) ==>
      SameStart(p.h, WithPlugins(old(app.pluginRegistry), inventory), p.h.order,
                After(After(old(app.components), Immediate(inventory)), ls.config),
                old(Jobs(app.schedulers)) + TasksOf(Immediate(inventory)) + TasksOf(ls.config),
                old(Jobs(app.shutdownHooks)) + HooksOf(Immediate(inventory)) + HooksOf(ls.config))
    ensures r.EventFailed? && r.event.ConfigEvent? ==> p.h.cs == After(old(app.components), Immediate(inventory))
    ensures r.AddPanic? ==>
      exists added: nat :: AddFails(old(app.pluginRegistry), old(app.components), inventory, added, r.outcome)
    ensures RunResult(p, ls, services, configs, r)
  {
    var outcome;
    ghost var added: nat;
    outcome, added := app.AddAutoPlugins(inventory);
    ghost var h := History(app.pluginRegistry, [], app.components, [], [], [], []);
    p := Progress(h, [], 0, app.components, [], Start([], []));
    if outcome != Completed {
      return AddPanic(outcome), p;
    }
    assert inventory[..added] == inventory;
    var published;
    ghost var ran: nat;
    published, ran := app.PublishBuild(ls.config, ls.configOk);
    if published != Delivered {
      return EventFailed(ConfigEvent, published), p.(ran := ran, cs := app.components);
    }
    assert ls.config[..ran] == ls.config;
    r, p := PluginsAndServices(app, services, configs, ls);
  }

  /** The rest of it, once the listeners of ConfigEvent have acted. */
  method PluginsAndServices(app: AppBuilder, services: seq<Service>, configs: set<ConfigId>, ls: Listeners)
    returns (r: RunOutcome, ghost p: Progress)
    requires app.Valid()
    requires NoRepeats(services) && DistinctTypes(services)
    modifies app, app.closures
    ensures BuildsPlugins(r)
    ensures SameStart(p.h, old(app.pluginRegistry), p.h.order, old(app.components), old(Jobs(app.schedulers)),
                      old(Jobs(app.shutdownHooks)))
    ensures RunResult(p, ls, services, configs, r)
  {
    var order := app.Snapshot();
    var outcome;
    ghost var h;
    ghost var rounds: nat;
    outcome, h, rounds := app.BuildPlugins(order);
    p := Progress(h, [], 0, app.components, [], Start([], []));
    if outcome != Completed {
      return PluginPanic(outcome), p;
    }
    var published;
    ghost var ran: nat;
    published, ran := app.PublishBuild(ls.built, ls.builtOk);
    if published != Delivered {
      return EventFailed(PluginsBuiltEvent, published), p.(ran := ran, cs := app.components);
    }
    assert ls.built[..ran] == ls.built;
    r, p := ServicesAndSchedule(app, services, configs, ls, h);
  }

  /** The rest, once the plugins are built and the listeners of PluginsBuiltEvent have acted. */
  method ServicesAndSchedule(app: AppBuilder, services: seq<Service>, configs: set<ConfigId>,
                             ls: Listeners, ghost h: History)
    returns (r: RunOutcome, ghost p: Progress)
    requires app.Valid() && Ran(h, Completed)
    requires NoRepeats(services) && DistinctTypes(services)
    requires app.components == After(After(h.cs, h.built), ls.built)
    requires Jobs(app.schedulers) == h.tasks + TasksOf(h.built) + TasksOf(ls.built)
    requires Jobs(app.shutdownHooks) == h.hooks + HooksOf(h.built) + HooksOf(ls.built)
    modifies app, app.closures
    ensures BuildsPlugins(r) && p.h == h
    ensures RunResult(p, ls, services, configs, r)
  {
    p := Progress(h, [], 0, app.components, [], Start([], []));
    var injected;
    ghost var done;
    ghost var attempts: nat;
    injected, done, attempts := AutoInject(app, services, configs);
    p := p.(done := done, cs := app.components);
    if injected != Installed {
      return ServiceError(injected), p;
    }
    var published;
    ghost var ran: nat;
    published, ran := app.PublishBuild(ls.injected, ls.injectedOk);
    p := p.(ran := ran, cs := app.components);
    if published != Delivered {
      return EventFailed(ServicesInjectedEvent, published), p;
    }
    assert ls.injected[..ran] == ls.injected;
    JobsOfAll(h.tasks, TasksOf(h.built), TasksOf(ls.built), TasksOf(ls.injected));
    JobsOfAll(h.hooks, HooksOf(h.built), HooksOf(ls.built), HooksOf(ls.injected));
    var ok, cs, end;
    ghost var acts;
    ok, cs, end, acts := app.Schedule(ls.schedule);
    return Scheduled(ok), p.(cs := cs, acts := acts, s := end);
  }

  /** However a run ends, and whatever plugins written by hand and listeners do in it: a generated build panicked
      only if a configuration was missing or its function did not answer a value, and each generated build was
      given the components of the plugins it depends on. */
  lemma GeneratedPluginsInARun(p: Progress, ls: Listeners, services: seq<Service>, configs: set<ConfigId>,
                               r: RunOutcome, gen: set<string>, fs: set<ComponentFn>, host: Host)
    requires RunResult(p, ls, services, configs, r) && BuildsPlugins(r)
    requires Generated(p.h.reg, gen, fs, host) && NamesLead(p.h.reg, fs, host) && SoleProviders(p.h.reg, gen, p.h.cs)
    ensures r.PluginPanic? && r.outcome != Stuck ==>
              IsPanic(r.outcome) && (r.outcome.plugin.name !in gen || FunctionCrashes(r.outcome.plugin, fs, host))
    ensures |p.h.calls| == |p.h.built|
    ensures forall i :: 0 <= i < |p.h.built| && p.h.built[i].name in gen ==>
              p.h.calls[i] == Call(p.h.built[i].name, p.h.built[i].deps)
  {
    GeneratedBuildsFindComponents(p.h, if r.PluginPanic? then r.outcome else Completed, gen, fs, host);
  }

  /** From start to finish: if `run` reaches the schedule and a hook of plugin `a` runs, then every hook of every
      plugin that depends on `a` has run before it, and before that every scheduler task had finished. */
  lemma TeardownMirrorsStartup(p: Progress, ls: Listeners, services: seq<Service>, configs: set<ConfigId>, ok: bool,
                               b: string, a: string, via: seq<string>)
    requires RunResult(p, ls, services, configs, Scheduled(ok))
    requires Owned(p.h.built) && DependsOn(p.h.reg, b, a, via)
    requires forall hk :: hk in p.h.hooks + (HooksOf(ls.built) + HooksOf(ls.injected)) ==> hk.owner != a
    ensures forall k, hk :: 0 <= k < |p.s.ran| && p.s.ran[k].owner == a && hk in HooksOf(p.h.built) && hk.owner == b ==>
              hk in p.s.ran[..k]
    ensures p.s.ran != [] ==> forall t: nat :: t < |AllTasks(p.h, ls)| ==> Finish(t, false) in p.acts
  {
    var tasks, hooks := AllTasks(p.h, ls), AllHooks(p.h, ls);
    DependentsShutDownFirst(p.h, b, a, via, p.h.hooks, HooksOf(ls.built) + HooksOf(ls.injected), tasks, p.acts, p.s);
    if p.s.ran != [] {
      JoinedState(tasks, hooks, p.acts, p.s);
      StateRemembers(tasks, hooks, p.acts, p.s);
      RunKeepsInv(tasks, hooks, p.acts);
      forall t: nat | t < |tasks|
        ensures Finish(t, false) in p.acts
      {
        assert t in p.s.finished;
      }
    }
  }
}
