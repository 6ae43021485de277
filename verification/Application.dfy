/**
 The application builder (`AppBuilder`): plugin registry, component registry, and the one-shot
 schedulers and shutdown hooks that plugins register while they are built.
 */
module Application {
  import opened Dealing
  import opened Lifecycle
  import opened PluginGraph
  import opened BuildHistory

  /** A closure that may be taken once; a second `run` panics ("already executed"). */
  class Scheduler {
    const job: Job
    ghost const slot: nat
    ghost const isHook: bool
    var armed: bool

    constructor (job: Job, ghost slot: nat, ghost isHook: bool)
      ensures this.job == job && this.slot == slot && this.isHook == isHook && armed
    {
      this.job, this.slot, this.isHook := job, slot, isHook;
      armed := true;
    }

    method Run() returns (ok: bool)
      modifies this
      ensures ok == old(armed) && !armed
    {
      ok := armed;
      armed := false;
    }
  }

  function Jobs(ss: seq<Scheduler>): (js: seq<Job>)
    ensures |js| == |ss| && forall i :: 0 <= i < |ss| ==> js[i] == ss[i].job
  {
    seq(|ss|, i requires 0 <= i < |ss| => ss[i].job)
  }

  /** None of the closures has been taken; since each knows its slot, they are distinct objects. */
  ghost predicate Armed(ss: seq<Scheduler>, hooks: bool)
    reads ss
  {
    forall i :: 0 <= i < |ss| ==> ss[i].armed && ss[i].slot == i && ss[i].isHook == hooks
  }

  class AppBuilder {
    var pluginRegistry: Registry
    var components: Components
    var schedulers: seq<Scheduler>
    var shutdownHooks: seq<Scheduler>
    ghost var closures: set<Scheduler>  // all closures ever registered

    ghost predicate Valid()
      reads this, closures
    {
      && (forall x :: x in schedulers ==> x in closures)
      && (forall x :: x in shutdownHooks ==> x in closures)
      && Keyed(pluginRegistry)
      && Armed(schedulers, false) && Armed(shutdownHooks, true)
    }

    /** `AppBuilder::default`: nothing but the event bus. */
    constructor (eventBus: TypeId)
      ensures Valid() && closures == {}
      ensures pluginRegistry == map[] && schedulers == [] && shutdownHooks == []
      ensures components == map[eventBus := "EventBus"]
    {
      pluginRegistry, components, schedulers, shutdownHooks, closures := map[], map[], [], [], {};
      new;
      var added := AddComponent(eventBus, "EventBus");
    }

    method AddScheduler(job: Job)
      requires Valid()
      modifies this`schedulers, this`closures
      ensures Valid() && fresh(closures - old(closures))
      ensures Jobs(schedulers) == old(Jobs(schedulers)) + [job]
    {
      var s := new Scheduler(job, |schedulers|, false);
      schedulers := schedulers + [s];
      closures := closures + {s};
    }

    method AddShutdownHook(job: Job)
      requires Valid()
      modifies this`shutdownHooks, this`closures
      ensures Valid() && fresh(closures - old(closures))
      ensures Jobs(shutdownHooks) == old(Jobs(shutdownHooks)) + [job]
    {
      var s := new Scheduler(job, |shutdownHooks|, true);
      shutdownHooks := shutdownHooks + [s];
      closures := closures + {s};
    }

    /** `add_component` panics on a type that is already there. */
    method AddComponent(ty: TypeId, owner: string) returns (ok: bool)
      modifies this`components
      ensures ok == (ty !in old(components))
      ensures components == if ok then old(components)[ty := owner] else old(components)
    {
      ok := ty !in components;
      if ok {
        components := components[ty := owner];
      }
    }

    method FetchAll(p: Plugin) returns (outcome: Outcome, call: Call)
      ensures outcome == Completed ==> Fetches(components, p, call)
      ensures outcome != Completed ==> BuildFails(components, p, outcome)
    {
      call := Call(p.name, []);
      for k := 0 to |p.fetches|
        invariant call.plugin == p.name && |call.args| == k
        invariant forall i :: 0 <= i < k ==> p.fetches[i] in components && call.args[i] == components[p.fetches[i]]
      {
        if p.fetches[k] !in components {
          return NotFound(p, p.fetches[k]), call;
        }
        call := call.(args := call.args + [components[p.fetches[k]]]);
      }
      outcome := Completed;
    }

    method AddAllComponents(p: Plugin) returns (outcome: Outcome)
      modifies this`components
      ensures outcome == Completed ==>
                components == AddAll(old(components), p.adds, p.name) && CanAdd(old(components), p.adds)
      ensures outcome != Completed ==> BuildFails(old(components), p, outcome)
    {
      for k := 0 to |p.adds|
        invariant components == AddAll(old(components), p.adds[..k], p.name) && CanAdd(old(components), p.adds[..k])
      {
        AddAllSnoc(old(components), p.adds[..k], p.adds[k], p.name);
        assert p.adds[..k + 1] == p.adds[..k] + [p.adds[k]];
        var ok := AddComponent(p.adds[k], p.name);
        if !ok {
          return Duplicate(p, p.adds[k]);
        }
      }
      assert p.adds[..|p.adds|] == p.adds;
      outcome := Completed;
    }

    method RegisterJobs(tasks: seq<Job>, hooks: seq<Job>)
      requires Valid()
      modifies this`schedulers, this`shutdownHooks, this`closures
      ensures Valid() && fresh(closures - old(closures))
      ensures Jobs(schedulers) == old(Jobs(schedulers)) + tasks
      ensures Jobs(shutdownHooks) == old(Jobs(shutdownHooks)) + hooks
    {
      for k := 0 to |tasks|
        invariant Valid() && fresh(closures - old(closures))
        invariant Jobs(schedulers) == old(Jobs(schedulers)) + tasks[..k] && shutdownHooks == old(shutdownHooks)
      {
        AddScheduler(tasks[k]);
      }
      for k := 0 to |hooks|
        invariant Valid() && fresh(closures - old(closures))
        invariant Jobs(shutdownHooks) == old(Jobs(shutdownHooks)) + hooks[..k]
        invariant Jobs(schedulers) == old(Jobs(schedulers)) + tasks
      {
        AddShutdownHook(hooks[k]);
      }
    }

    /** What one plugin's `build` does: fetch, run its code, add, register jobs; the first failure panics. */
    method BuildPlugin(p: Plugin) returns (outcome: Outcome, call: Call)
      requires Valid()
      modifies this`components, this`schedulers, this`shutdownHooks, this`closures
      ensures Valid() && fresh(closures - old(closures))
      ensures outcome != Completed ==> BuildFails(old(components), p, outcome)
      ensures outcome == Completed ==>
        && Builds(old(components), p, call)
        && components == AddAll(old(components), p.adds, p.name)
        && Jobs(schedulers) == old(Jobs(schedulers)) + p.tasks
        && Jobs(shutdownHooks) == old(Jobs(shutdownHooks)) + p.hooks
      ensures outcome != Completed ==> schedulers == old(schedulers) && shutdownHooks == old(shutdownHooks)
    {
      var early: bool := *;  // some of its code runs before the last fetch
      if p.crashes && early {
        return Crashed(p), Call(p.name, []);
      }
      outcome, call := FetchAll(p);
      if outcome == Completed && p.crashes {
        outcome := Crashed(p);
      }
      if outcome == Completed {
        outcome := AddAllComponents(p);
        if outcome == Completed {
          RegisterJobs(p.tasks, p.hooks);
        }
      }
    }

    /** `add_plugin`: an immediate plugin runs at once and is never registered under its name. */
    method AddPlugin(p: Plugin) returns (outcome: Outcome)
      requires Valid()
      modifies this
      ensures Valid() && fresh(closures - old(closures))
      ensures p.immediately ==> pluginRegistry == old(pluginRegistry)
      ensures p.immediately && outcome != Completed ==> BuildFails(old(components), p, outcome)
      ensures p.immediately && outcome == Completed ==>
        && !p.crashes && CanAdd(old(components), p.adds) && components == AddAll(old(components), p.adds, p.name)
        && Jobs(schedulers) == old(Jobs(schedulers)) + p.tasks
        && Jobs(shutdownHooks) == old(Jobs(shutdownHooks)) + p.hooks
      ensures !p.immediately ==> outcome == if p.name in old(pluginRegistry) then PluginExists(p.name) else Completed
      ensures !p.immediately ==> components == old(components)
      ensures !p.immediately && outcome == Completed ==> pluginRegistry == old(pluginRegistry)[p.name := p]
      ensures outcome != Completed ==> pluginRegistry == old(pluginRegistry)
      ensures !p.immediately || outcome != Completed ==>
        schedulers == old(schedulers) && shutdownHooks == old(shutdownHooks)
    {
      if p.immediately {
        var call;
        outcome, call := BuildPlugin(p);
        return;
      }
      if p.name in pluginRegistry {
        return PluginExists(p.name);
      }
      pluginRegistry := pluginRegistry[p.name := p];
      outcome := Completed;
    }

    /** Everything but the components, after adding `ps` to a builder that held `reg`, `tasks` and `hooks`. */
    ghost predicate Added(reg: Registry, tasks: seq<Job>, hooks: seq<Job>, ps: seq<Plugin>)
      reads this, closures
    {
      && Valid() && NoClash(reg, ps) && pluginRegistry == WithPlugins(reg, ps)
      && Jobs(schedulers) == tasks + TasksOf(Immediate(ps))
      && Jobs(shutdownHooks) == hooks + HooksOf(Immediate(ps))
    }

    /** `add_auto_plugins`: here a name clash panics even for an immediate plugin. `added` of them were added. */
    method AddAutoPlugins(plugins: seq<Plugin>) returns (outcome: Outcome, ghost added: nat)
      requires Valid()
      modifies this
      ensures fresh(closures - old(closures)) && added <= |plugins|
      ensures Added(old(pluginRegistry), old(Jobs(schedulers)), old(Jobs(shutdownHooks)), plugins[..added])
      ensures outcome == Completed <==> added == |plugins|
      ensures outcome == Completed ==> components == After(old(components), Immediate(plugins))
      ensures outcome != Completed ==> AddFails(old(pluginRegistry), old(components), plugins, added, outcome)
    {
      added := 0;
      for k := 0 to |plugins|
        invariant fresh(closures - old(closures)) && added == k
        invariant Added(old(pluginRegistry), old(Jobs(schedulers)), old(Jobs(shutdownHooks)), plugins[..k])
        invariant components == After(old(components), Immediate(plugins[..k]))
      {
        if plugins[k].name in pluginRegistry {
          return PluginExists(plugins[k].name), k;
        }
        AddOne(old(pluginRegistry), old(components), old(Jobs(schedulers)), old(Jobs(shutdownHooks)), plugins, k);
        outcome := AddPlugin(plugins[k]);
        if outcome != Completed {
          return;
        }
        added := k + 1;
      }
      assert plugins[..|plugins|] == plugins;
      outcome := Completed;
    }

    /** `publish` of a build event: every listener may do with the builder what a plugin's build may. */
    method PublishBuild(listeners: seq<Plugin>, accepts: nat -> bool) returns (e: Published, ghost ran: nat)
      requires Valid()
      modifies this`components, this`schedulers, this`shutdownHooks, this`closures
      ensures Valid() && fresh(closures - old(closures))
      ensures PublishEnds(old(components), listeners, accepts, ran, e)
      ensures Jobs(schedulers) == old(Jobs(schedulers)) + TasksOf(listeners[..ran])
      ensures Jobs(shutdownHooks) == old(Jobs(shutdownHooks)) + HooksOf(listeners[..ran])
      ensures !e.ListenerPanic? ==> components == After(old(components), listeners[..ran])
    {
      ran := 0;
      for k := 0 to |listeners|
        invariant Valid() && fresh(closures - old(closures)) && ran == k && forall i :: 0 <= i < k ==> accepts(i)
        invariant Jobs(schedulers) == old(Jobs(schedulers)) + TasksOf(listeners[..k])
        invariant Jobs(shutdownHooks) == old(Jobs(shutdownHooks)) + HooksOf(listeners[..k])
        invariant components == After(old(components), listeners[..k])
      {
        var outcome, call := BuildPlugin(listeners[k]);
        if outcome != Completed {
          return ListenerPanic(outcome), k;
        }
        ListenerActs(old(components), old(Jobs(schedulers)), old(Jobs(shutdownHooks)), listeners, k);
        ran := k + 1;
        if !accepts(k) {
          return Refused, ran;
        }
      }
      e := Delivered;
    }

    /** The registry is a hash map, so its plugins come in any order. */
    method Snapshot() returns (order: seq<Plugin>)
      requires Keyed(pluginRegistry)
      ensures Enumerates(order, pluginRegistry)
    {
      order := [];
      var names := pluginRegistry.Keys;
      while names != {}
        invariant names <= pluginRegistry.Keys && NoRepeats(order)
        invariant forall p :: p in order ==> p.name in pluginRegistry && pluginRegistry[p.name] == p && p.name !in names
        invariant forall n :: n in pluginRegistry && n !in names ==> pluginRegistry[n] in order
      {
        var n :| n in names;
        ListOneMore(order, pluginRegistry[n]);
        order := order + [pluginRegistry[n]];
        names := names - {n};
      }
    }

    /** Invariant of both loops of `build_plugins`, with `todo` still to be visited. */
    ghost predicate Loop(h: History, registered: set<string>, todo: seq<Plugin>)
      reads this, closures
    {
      match h
      case History(reg, order, cs, tasks, hooks, built, calls) =>
        && Valid() && pluginRegistry == map[]
        && Building(reg, order, cs, components, built, calls, todo)
        && registered == Names(built)
        && Jobs(schedulers) == tasks + TasksOf(built)
        && Jobs(shutdownHooks) == hooks + HooksOf(built)
    }

    /** The state in which a panic of some plugin's own build leaves the builder. */
    ghost predicate Interrupted(h: History, o: Outcome)
      reads this, closures
    {
      && Valid() && o != Completed && o != Stuck && BuildResult(h, o)
      && Jobs(schedulers) == h.tasks + TasksOf(h.built)
      && Jobs(shutdownHooks) == h.hooks + HooksOf(h.built)
    }

    /** A plugin that is not ready goes to the end of the list. */
    lemma PutBack(h: History, registered: set<string>, plugin: Plugin, rest: seq<Plugin>)
      requires Enumerates(h.order, h.reg) && Loop(h, registered, [plugin] + rest)
      ensures Loop(h, registered, rest + [plugin])
    {
      DealStep(h.order, h.built, plugin, rest);
    }

    /** A visit of a plugin whose dependencies are all registered: it is built, or its build panics. */
    method BuildReady(plugin: Plugin, ghost registered: set<string>, ghost h: History, ghost rest: seq<Plugin>)
      returns (outcome: Outcome, ghost h': History)
      requires Enumerates(h.order, h.reg) && Loop(h, registered, [plugin] + rest) && DepSet(plugin) <= registered
      modifies this`components, this`schedulers, this`shutdownHooks, this`closures
      ensures fresh(closures - old(closures)) && h' == h.(built := h'.built, calls := h'.calls)
      ensures outcome == Completed ==> h'.built == h.built + [plugin] && Loop(h', registered + {plugin.name}, rest)
      ensures outcome != Completed ==> Interrupted(h', outcome)
    {
      ghost var cs := components;
      var call;
      outcome, call := BuildPlugin(plugin);
      h' := h;
      if outcome == Completed {
        h' := h.(built := h.built + [plugin], calls := h.calls + [call]);
        BuildingGoesOn(h, cs, plugin, rest, call);
      } else {
        BuildingPanics(h, cs, plugin, rest, outcome);
      }
    }

    /** The state of a round after `i` visits: what is left of this round, and what waits for the next. */
    ghost predicate Round(h: History, registered: set<string>, toRegister: seq<Plugin>, i: nat,
                          nextRound: seq<Plugin>, progress: bool)
      requires i <= |toRegister|
      reads this, closures
    {
      && Loop(h, registered, toRegister[i..] + nextRound)
      && if progress then |nextRound| < i else |nextRound| == i && Blocked(nextRound, Ready(registered))
    }

    /** The body of the inner loop: build the plugin if its dependencies are registered, else leave it. */
    method Visit(toRegister: seq<Plugin>, i: nat, nextRound: seq<Plugin>, registered: set<string>,
                     progress: bool, ghost h: History)
      returns (outcome: Outcome, nextRound': seq<Plugin>, registered': set<string>, progress': bool, ghost h': History)
      requires i < |toRegister| && Enumerates(h.order, h.reg)
      requires Round(h, registered, toRegister, i, nextRound, progress)
      modifies this`components, this`schedulers, this`shutdownHooks, this`closures
      ensures fresh(closures - old(closures)) && h' == h.(built := h'.built, calls := h'.calls)
      ensures outcome == Completed ==> Round(h', registered', toRegister, i + 1, nextRound', progress')
      ensures outcome == Completed ==>
                h'.built == if DepSet(toRegister[i]) <= registered then h.built + [toRegister[i]] else h.built
      ensures outcome != Completed ==> Interrupted(h', outcome)
    {
      nextRound', registered', progress' := nextRound, registered, progress;
      var plugin := toRegister[i];
      Visiting(toRegister, i, nextRound);
      ghost var rest := toRegister[i + 1..] + nextRound;
      if forall dep :: dep in plugin.deps ==> dep in registered {
        outcome, h' := BuildReady(plugin, registered, h, rest);
        registered' := registered + {plugin.name};
        progress' := true;
      } else {
        outcome, h' := Completed, h;
        PutBack(h, registered, plugin, rest);
        if !progress {
          BlockedSnoc(nextRound, Ready(registered), plugin);
        }
        nextRound' := nextRound + [plugin];
      }
    }

    lemma RoundBegins(h: History, registered: set<string>, toRegister: seq<Plugin>)
      requires Loop(h, registered, toRegister)
      ensures Round(h, registered, toRegister, 0, [], false)
    {
      assert toRegister[0..] + [] == toRegister;
    }

    lemma RoundEnds(h: History, registered: set<string>, toRegister: seq<Plugin>, nextRound: seq<Plugin>,
                    progress: bool)
      requires Round(h, registered, toRegister, |toRegister|, nextRound, progress)
      ensures Loop(h, registered, nextRound)
    {
      assert toRegister[|toRegister|..] + nextRound == nextRound;
    }

    /** One round of `build_plugins`: visit every waiting plugin once. */
    method BuildRound(toRegister: seq<Plugin>, registered: set<string>, ghost h: History)
      returns (outcome: Outcome, nextRound: seq<Plugin>, registered': set<string>, progress: bool, ghost h': History)
      requires Enumerates(h.order, h.reg) && Loop(h, registered, toRegister)
      modifies this`components, this`schedulers, this`shutdownHooks, this`closures
      ensures fresh(closures - old(closures)) && h' == h.(built := h'.built, calls := h'.calls)
      ensures outcome == Completed ==> Loop(h', registered', nextRound)
      ensures outcome == Completed && progress ==> |nextRound| < |toRegister|
      ensures outcome == Completed && !progress ==>
        |nextRound| == |toRegister| && Blocked(nextRound, Ready(registered'))
      ensures outcome != Completed ==> Interrupted(h', outcome)
    {
      outcome, nextRound, registered', progress, h' := Completed, [], registered, false, h;
      RoundBegins(h, registered, toRegister);
      for i := 0 to |toRegister|
        invariant fresh(closures - old(closures)) && outcome == Completed
        invariant h' == h.(built := h'.built, calls := h'.calls)
        invariant Round(h', registered', toRegister, i, nextRound, progress)
      {
        outcome, nextRound, registered', progress, h' := Visit(toRegister, i, nextRound, registered', progress, h');
        if outcome != Completed {
          return;
        }
      }
      RoundEnds(h', registered', toRegister, nextRound, progress);
    }

    /** `build_plugins`: rounds over an unordered snapshot, building what is ready. */
    method BuildPlugins(order: seq<Plugin>) returns (outcome: Outcome, ghost h: History, ghost rounds: nat)
      requires Valid() && Enumerates(order, pluginRegistry)
      modifies this
      ensures Valid() && fresh(closures - old(closures))
      ensures SameStart(h, old(pluginRegistry), order, old(components), old(Jobs(schedulers)), old(Jobs(shutdownHooks)))
      ensures BuildResult(h, outcome)
      ensures Jobs(schedulers) == h.tasks + TasksOf(h.built)
      ensures Jobs(shutdownHooks) == h.hooks + HooksOf(h.built)
      ensures outcome == Completed ==> pluginRegistry == old(pluginRegistry) && components == After(h.cs, h.built)
      ensures rounds <= |order|
    {
      h := History(pluginRegistry, order, components, Jobs(schedulers), Jobs(shutdownHooks), [], []);
      var registry := pluginRegistry;
      pluginRegistry := map[];
      var toRegister := order;
      var registered: set<string> := {};
      BuildingStarts(h.reg, order, h.cs, h.tasks, h.hooks);
      rounds := 0;
      while toRegister != []
        invariant SameStart(h, old(pluginRegistry), order, old(components), old(Jobs(schedulers)),
                            old(Jobs(shutdownHooks)))
        invariant fresh(closures - old(closures)) && Loop(h, registered, toRegister)
        invariant rounds + |toRegister| <= |order|
        decreases |toRegister|
      {
        var progress;
        outcome, toRegister, registered, progress, h := BuildRound(toRegister, registered, h);
        rounds := rounds + 1;
        if outcome != Completed {
          return;
        }
        if !progress {
          BuildingStops(h, components, toRegister);
          outcome := Stuck;
          return;
        }
      }
      BuildingStops(h, components, toRegister);
      pluginRegistry := registry;
      outcome := Completed;
    }

    /** Pops the last closure and runs it; nothing has taken it before, so this never panics. */
    method PopHook() returns (job: Job)
      requires Valid() && shutdownHooks != []
      modifies this`shutdownHooks, closures
      ensures Valid()
      ensures old(Jobs(shutdownHooks)) == Jobs(shutdownHooks) + [job]
      ensures shutdownHooks == old(shutdownHooks)[..|old(shutdownHooks)| - 1]
    {
      var hook := shutdownHooks[|shutdownHooks| - 1];
      shutdownHooks := shutdownHooks[..|shutdownHooks| - 1];
      var armed := hook.Run();
      assert armed;
      job := hook.job;
    }

    /** Meanwhile, any of the spawned tasks may finish, normally or by a panic, in any order. */
    method LetTasksRun(tasks: seq<Job>, hooks: seq<Job>, s: State, ghost acts: seq<Action>, answers: Answers)
      returns (s': State, ghost acts': seq<Action>)
      requires IsRun(tasks, hooks, acts, s) && Told(s, answers)
      ensures IsRun(tasks, hooks, acts', s') && Told(s', answers)
      ensures s' == s.(finished := s'.finished, panicked := s'.panicked)
    {
      s', acts' := s, acts;
      var budget := |s.spawned|;
      while budget > 0
        invariant IsRun(tasks, hooks, acts', s') && Told(s', answers)
        invariant s' == s.(finished := s'.finished, panicked := s'.panicked)
      {
        var t: nat := *;
        if Next(s', Finish(t, answers.panics(t))).Some? {
          s', acts' := FinishTask(tasks, hooks, s', acts', answers, t);
        }
        budget := budget - 1;
      }
    }

    method FinishTask(tasks: seq<Job>, hooks: seq<Job>, s: State, ghost acts: seq<Action>, answers: Answers, t: nat)
      returns (s': State, ghost acts': seq<Action>)
      requires IsRun(tasks, hooks, acts, s) && Told(s, answers) && t < |s.spawned| && t !in s.finished
      ensures IsRun(tasks, hooks, acts', s') && Told(s', answers) && t in s'.finished
      ensures s' == s.(finished := s'.finished, panicked := s'.panicked)
    {
      RunKeepsInv(tasks, hooks, acts);
      RunStep(tasks, hooks, acts, s, Finish(t, answers.panics(t)));
      s' := Next(s, Finish(t, answers.panics(t))).value;
      acts' := acts + [Finish(t, answers.panics(t))];
    }

    method SpawnTasks(hooks: seq<Job>, answers: Answers) returns (s: State, ghost acts: seq<Action>)
      requires Valid()
      modifies this`schedulers, closures
      ensures Valid() && schedulers == []
      ensures IsRun(old(Jobs(schedulers)), hooks, acts, s) && s.phase == Joining && !s.before
      ensures Told(s, answers) && s.handles == |old(schedulers)|
    {
      var tasks := schedulers;
      schedulers := [];
      s, acts := Start(Jobs(tasks), hooks), [];
      for k := 0 to |tasks|
        invariant schedulers == []
        invariant IsRun(Jobs(tasks), hooks, acts, s) && Told(s, answers)
        invariant s.tasks == Jobs(tasks) && !s.before && |s.spawned| == s.handles == k
        invariant s.phase == if k == |tasks| then Joining else Spawning
        invariant forall i :: k <= i < |tasks| ==> tasks[i].armed
        invariant forall i :: 0 <= i < |tasks| ==> tasks[i].slot == i && !tasks[i].isHook
        invariant Armed(shutdownHooks, true)
      {
        var armed := tasks[k].Run();
        assert armed;
        RunStep(Jobs(tasks), hooks, acts, s, Spawn);
        s, acts := Next(s, Spawn).value, acts + [Spawn];
        s, acts := LetTasksRun(Jobs(tasks), hooks, s, acts, answers);
      }
    }

    /** `handles.pop()` and `handle.await?`: the await does not return before the task has finished. */
    method JoinNext(tasks: seq<Job>, hooks: seq<Job>, s0: State, ghost acts0: seq<Action>, answers: Answers)
      returns (s: State, ghost acts: seq<Action>)
      requires IsRun(tasks, hooks, acts0, s0) && s0.phase == Joining && s0.handles != 0 && Told(s0, answers)
      ensures IsRun(tasks, hooks, acts, s) && Told(s, answers) && s.before == s0.before && s.ran == s0.ran
      ensures s.phase == (if answers.panics(s0.handles - 1) then Failed else Joining) && s.handles == s0.handles - 1
    {
      RunKeepsInv(tasks, hooks, acts0);
      s, acts := LetTasksRun(tasks, hooks, s0, acts0, answers);
      if s.handles - 1 !in s.finished {
        s, acts := FinishTask(tasks, hooks, s, acts, answers, s.handles - 1);
      }
      RunStep(tasks, hooks, acts, s, Join);
      s, acts := Next(s, Join).value, acts + [Join];
    }

    /** Until no handle is left or one reports a panic. */
    method JoinTasks(tasks: seq<Job>, hooks: seq<Job>, s0: State, ghost acts0: seq<Action>, answers: Answers)
      returns (s: State, ghost acts: seq<Action>)
      requires IsRun(tasks, hooks, acts0, s0) && s0.phase == Joining && !s0.before && Told(s0, answers)
      requires s0.handles == |tasks|
      ensures IsRun(tasks, hooks, acts, s) && !s.before
      ensures if AnyPanics(answers, |tasks|) then s.phase == Failed else s.phase == Joining && s.handles == 0
    {
      s, acts := s0, acts0;
      while s.phase == Joining && s.handles != 0
        invariant IsRun(tasks, hooks, acts, s) && Told(s, answers) && !s.before && s.handles <= |tasks|
        invariant if s.phase == Failed then AnyPanics(answers, |tasks|) else
                  s.phase == Joining && forall t: nat :: s.handles <= t < |tasks| ==> !answers.panics(t)
        decreases if s.phase == Joining then s.handles + 1 else 0
      {
        s, acts := JoinNext(tasks, hooks, s, acts, answers);
      }
    }

    /** One turn of the hook loop: the last hook is taken and answers `ok`. */
    method RunNextHook(tasks: seq<Job>, hooks: seq<Job>, s0: State, ghost acts0: seq<Action>, ok: bool)
      returns (s: State, ghost acts: seq<Action>)
      requires Valid() && shutdownHooks != [] && |s0.ran| < |hooks|
      requires Jobs(shutdownHooks) == hooks[..|hooks| - |s0.ran|]
      requires IsRun(tasks, hooks, acts0, s0) && s0.phase == Hooking
      modifies this`shutdownHooks, closures
      ensures Valid() && shutdownHooks == old(shutdownHooks)[..|old(shutdownHooks)| - 1]
      ensures IsRun(tasks, hooks, acts, s) && |s.ran| == |s0.ran| + 1
      ensures s.phase == if ok then Hooking else Failed
      ensures Jobs(shutdownHooks) == hooks[..|hooks| - |s.ran|]
    {
      var job := PopHook();
      StateRemembers(tasks, hooks, acts0, s0);
      LastOfTake(hooks, |hooks| - |s0.ran|, Jobs(shutdownHooks), job);
      RunStep(tasks, hooks, acts0, s0, RunHook(ok));
      s, acts := Next(s0, RunHook(ok)).value, acts0 + [RunHook(ok)];
      assert s.ran[|s.ran| - 1] == job;
    }

    /** First hook added, last run; a hook that fails ends the sequence. */
    method RunHooks(tasks: seq<Job>, hooks: seq<Job>, s0: State, ghost acts0: seq<Action>, answers: Answers)
      returns (s: State, ghost acts: seq<Action>)
      requires Valid() && Jobs(shutdownHooks) == hooks
      requires IsRun(tasks, hooks, acts0, s0) && s0.phase == Hooking && s0.ran == []
      modifies this`shutdownHooks, closures
      ensures IsRun(tasks, hooks, acts, s) && StopsAfter(answers, |hooks|, |s.ran|)
      ensures if forall i: nat :: i < |hooks| ==> answers.hookOk(i) then s.phase == Hooking else s.phase == Failed
      ensures s.phase == Hooking ==> |s.ran| == |hooks|
      ensures |s.ran| <= |hooks| && Jobs(shutdownHooks) == hooks[..|hooks| - |s.ran|]
    {
      s, acts := s0, acts0;
      assert hooks[..|hooks|] == hooks;
      while s.phase == Hooking && shutdownHooks != []
        invariant Valid() && shutdownHooks <= old(shutdownHooks)
        invariant |s.ran| <= |hooks| && Jobs(shutdownHooks) == hooks[..|hooks| - |s.ran|]
        invariant IsRun(tasks, hooks, acts, s) && (s.phase == Hooking || s.phase == Failed)
        invariant AnswersSoFar(answers, |hooks|, |s.ran|, s.phase == Failed)
        decreases |shutdownHooks|
      {
        AnswersGoOn(answers, |hooks|, |s.ran|, answers.hookOk(|hooks| - |s.ran| - 1));
        s, acts := RunNextHook(tasks, hooks, s, acts, answers.hookOk(|hooks| - |s.ran| - 1));
      }
    }

    /** `build_app`: the components move into the application; publishing AppBuiltEvent may fail. */
    method BuildApp(delivered: bool) returns (ok: bool, app: Components)
      modifies this`components
      ensures app == old(components) && components == map[] && ok == delivered
    {
      app := components;
      components := map[];
      ok := delivered;
    }

    /** The end of `schedule`: the first event, the hooks, the second event; whatever fails ends it. */
    method Shutdown(tasks: seq<Job>, hooks: seq<Job>, s0: State, ghost acts0: seq<Action>, answers: Answers)
      returns (s: State, ghost acts: seq<Action>)
      requires Valid() && Jobs(shutdownHooks) == hooks
      requires IsRun(tasks, hooks, acts0, s0) && s0.phase == Joining && s0.handles == 0 && s0.ran == []
      modifies this`shutdownHooks, closures
      ensures IsRun(tasks, hooks, acts, s) && Halted(s)
      ensures s.phase == Ended <==>
        answers.before && (forall i: nat :: i < |hooks| ==> answers.hookOk(i)) && answers.after
      ensures if answers.before then StopsAfter(answers, |hooks|, |s.ran|) else s.ran == []
      ensures |s.ran| <= |hooks| && Jobs(shutdownHooks) == hooks[..|hooks| - |s.ran|]
    {
      var published := answers.before;
      RunStep(tasks, hooks, acts0, s0, PublishBefore(published));
      s, acts := Next(s0, PublishBefore(published)).value, acts0 + [PublishBefore(published)];
      if !published {
        assert hooks[..|hooks|] == hooks;
        return;
      }
      s, acts := RunHooks(tasks, hooks, s, acts, answers);
      if s.phase == Hooking {
        StateRemembers(tasks, hooks, acts, s);
        published := answers.after;
        RunStep(tasks, hooks, acts, s, PublishAfter(published));
        s, acts := Next(s, PublishAfter(published)).value, acts + [PublishAfter(published)];
      }
    }

    /** `schedule`: run the tasks, wait for all of them, then shut down. */
    method Schedule(answers: Answers) returns (ok: bool, app: Components, s: State, ghost acts: seq<Action>)
      requires Valid()
      modifies this`components, this`schedulers, this`shutdownHooks, closures
      ensures app == old(components) && components == map[]
      ensures IsRun(old(Jobs(schedulers)), old(Jobs(shutdownHooks)), acts, s)
      ensures ok <==> EndsWell(answers, |old(schedulers)|, |old(shutdownHooks)|)
      ensures ok <==> s.phase == Ended
      ensures if answers.built then Halted(s) && s.spawned == old(Jobs(schedulers)) else acts == []
      ensures if answers.built && !AnyPanics(answers, |old(schedulers)|) && answers.before
              then StopsAfter(answers, |old(shutdownHooks)|, |s.ran|) else s.ran == []
      ensures |s.ran| <= |old(shutdownHooks)|
      ensures Jobs(shutdownHooks) == old(Jobs(shutdownHooks))[..|old(shutdownHooks)| - |s.ran|]
    {
      var tasks, hooks := Jobs(schedulers), Jobs(shutdownHooks);
      assert hooks[..|hooks|] == hooks;
      var built;
      built, app := BuildApp(answers.built);
      if !built {
        return false, app, Start(tasks, hooks), [];
      }
      s, acts := SpawnTasks(hooks, answers);
      SpawnedAll(tasks, hooks, acts, s);
      s, acts := JoinTasks(tasks, hooks, s, acts, answers);
      JoinedState(tasks, hooks, acts, s);
      if s.phase == Joining {
        s, acts := Shutdown(tasks, hooks, s, acts, answers);
      }
      SpawnedAll(tasks, hooks, acts, s);
      ok := s.phase == Ended;
    }
  }
}
