/**
 What building plugins does to the application, without the loop that does it: the component
 registry after a sequence of builds, the panics, and the bookkeeping of the scheduler.
 */
module BuildHistory {
  import opened Dealing
  import opened Fixpoint
  import opened Lifecycle
  import opened PluginGraph

  /** Component values are told apart by who added them. */
  type Components = map<TypeId, string>

  datatype Outcome =
    | Completed
    | Stuck                                    // "Cyclic dependency detected or missing dependencies"
    | NotFound(plugin: Plugin, ty: TypeId)     // "Component ... not found"
    | Duplicate(plugin: Plugin, ty: TypeId)    // "component was already added"
    | Crashed(plugin: Plugin)                  // a panic of the plugin's own code
    | PluginExists(name: string)               // "plugin was already added"

  /** The arguments one `build` fetched, in order. */
  datatype Call = Call(plugin: string, args: seq<string>)

  function AddAll(cs: Components, tys: seq<TypeId>, owner: string): (r: Components)
    ensures r.Keys == cs.Keys + set ty | ty in tys
    ensures forall ty :: ty in tys ==> r[ty] == owner
    ensures forall ty :: ty in cs && ty !in tys ==> r[ty] == cs[ty]
  {
    cs + map ty | ty in tys :: owner
  }

  lemma AddAllSnoc(cs: Components, tys: seq<TypeId>, ty: TypeId, owner: string)
    ensures AddAll(cs, tys + [ty], owner) == AddAll(cs, tys, owner)[ty := owner]
  {
    assert forall x :: x in tys + [ty] <==> x in tys || x == ty;
  }

  /** The component registry after building `built` on top of `cs`. */
  function After(cs: Components, built: seq<Plugin>): Components {
    if built == [] then cs
    else
      var p := built[|built| - 1];
      AddAll(After(cs, built[..|built| - 1]), p.adds, p.name)
  }

  function HooksOf(built: seq<Plugin>): seq<Job> {
    if built == [] then [] else HooksOf(built[..|built| - 1]) + built[|built| - 1].hooks
  }

  function TasksOf(built: seq<Plugin>): seq<Job> {
    if built == [] then [] else TasksOf(built[..|built| - 1]) + built[|built| - 1].tasks
  }

  /** Plugins that ask to be built at once, instead of being registered and built by dependency. */
  function Immediate(ps: seq<Plugin>): seq<Plugin> {
    if ps == [] then []
    else
      var p := ps[|ps| - 1];
      Immediate(ps[..|ps| - 1]) + if p.immediately then [p] else []
  }

  /** The plugin registry after adding all the others. */
  function WithPlugins(reg: Registry, ps: seq<Plugin>): Registry {
    if ps == [] then reg
    else
      var p, before := ps[|ps| - 1], WithPlugins(reg, ps[..|ps| - 1]);
      if p.immediately then before else before[p.name := p]
  }

  /** No plugin's name was in the registry when its turn came. */
  predicate NoClash(reg: Registry, ps: seq<Plugin>) {
    ps == [] || (ps[|ps| - 1].name !in WithPlugins(reg, ps[..|ps| - 1]) && NoClash(reg, ps[..|ps| - 1]))
  }

  /** Without a clash, every plugin but the immediate ones is registered, none replaces another, and
      nothing else is added. */
  lemma {:induction false} AllRegistered(reg: Registry, ps: seq<Plugin>)
    requires NoClash(reg, ps)
    ensures forall p :: p in ps && !p.immediately ==>
      p.name in WithPlugins(reg, ps) && WithPlugins(reg, ps)[p.name] == p
    ensures forall n :: n in reg ==> n in WithPlugins(reg, ps) && WithPlugins(reg, ps)[n] == reg[n]
    ensures forall n :: n in WithPlugins(reg, ps) && n !in reg ==> WithPlugins(reg, ps)[n] in ps
  {
    if ps != [] {
      var rest := ps[..|ps| - 1];
      AllRegistered(reg, rest);
      assert forall p :: p in ps <==> p in rest || p == ps[|ps| - 1];
    }
  }

  /** After `added` plugins the next one clashes, or is immediate and its build panics. */
  ghost predicate AddFails(reg: Registry, cs: Components, ps: seq<Plugin>, added: nat, o: Outcome) {
    && added < |ps| && NoClash(reg, ps[..added])
    && if ps[added].name in WithPlugins(reg, ps[..added]) then o == PluginExists(ps[added].name)
       else ps[added].immediately && BuildFails(After(cs, Immediate(ps[..added])), ps[added], o)
  }

  lemma AddOne(reg: Registry, cs: Components, tasks: seq<Job>, hooks: seq<Job>, ps: seq<Plugin>, k: nat)
    requires k < |ps|
    ensures NoClash(reg, ps[..k + 1]) <==> NoClash(reg, ps[..k]) && ps[k].name !in WithPlugins(reg, ps[..k])
    ensures ps[k].immediately ==>
      && WithPlugins(reg, ps[..k + 1]) == WithPlugins(reg, ps[..k])
      && After(cs, Immediate(ps[..k + 1])) == AddAll(After(cs, Immediate(ps[..k])), ps[k].adds, ps[k].name)
      && tasks + TasksOf(Immediate(ps[..k + 1])) == tasks + TasksOf(Immediate(ps[..k])) + ps[k].tasks
      && hooks + HooksOf(Immediate(ps[..k + 1])) == hooks + HooksOf(Immediate(ps[..k])) + ps[k].hooks
    ensures !ps[k].immediately ==>
      && WithPlugins(reg, ps[..k + 1]) == WithPlugins(reg, ps[..k])[ps[k].name := ps[k]]
      && Immediate(ps[..k + 1]) == Immediate(ps[..k])
  {
    assert ps[..k + 1][..k] == ps[..k];
    if ps[k].immediately {
      AfterSnoc(cs, Immediate(ps[..k]), ps[k]);
      Assoc(tasks, TasksOf(Immediate(ps[..k])), ps[k].tasks);
      Assoc(hooks, HooksOf(Immediate(ps[..k])), ps[k].hooks);
    }
  }

  /** What publishing a build event ends in: a listener may answer with an error, or panic. */
  datatype Published = Delivered | Refused | ListenerPanic(outcome: Outcome)

  /** The first `ran` listeners have acted on the builder that held `cs`, each like a plugin's build; then one of
      them ended the publication, if any did. `accepts` tells what each answers. */
  ghost predicate PublishEnds(cs: Components, listeners: seq<Plugin>, accepts: nat -> bool, ran: nat, e: Published) {
    && ran <= |listeners| && (forall k :: 0 <= k < ran - 1 ==> accepts(k))
    && (ran > 0 ==> (accepts(ran - 1) <==> e != Refused))
    && match e
       case Delivered => ran == |listeners|
       case Refused => ran > 0
       case ListenerPanic(o) => ran < |listeners| && BuildFails(After(cs, listeners[..ran]), listeners[ran], o)
  }

  lemma ListenerActs(cs: Components, tasks: seq<Job>, hooks: seq<Job>, listeners: seq<Plugin>, k: nat)
    requires k < |listeners|
    ensures var (l, before) := (listeners[k], listeners[..k]);
      && After(cs, listeners[..k + 1]) == AddAll(After(cs, before), l.adds, l.name)
      && tasks + TasksOf(listeners[..k + 1]) == tasks + TasksOf(before) + l.tasks
      && hooks + HooksOf(listeners[..k + 1]) == hooks + HooksOf(before) + l.hooks
  {
    SliceSnoc(listeners, 0, k);
    assert listeners[..k] == listeners[0..k] && listeners[..k + 1] == listeners[0..k + 1];
    AfterSnoc(cs, listeners[..k], listeners[k]);
    Assoc(tasks, TasksOf(listeners[..k]), listeners[k].tasks);
    Assoc(hooks, HooksOf(listeners[..k]), listeners[k].hooks);
  }

  ghost predicate Fetches(cs: Components, p: Plugin, call: Call) {
    && call.plugin == p.name
    && |call.args| == |p.fetches|
    && forall k :: 0 <= k < |p.fetches| ==> p.fetches[k] in cs && call.args[k] == cs[p.fetches[k]]
  }

  /** No type is already there, and none is added twice. */
  ghost predicate CanAdd(cs: Components, tys: seq<TypeId>) {
    && (forall ty :: ty in tys ==> ty !in cs)
    && forall i, j :: 0 <= i < j < |tys| ==> tys[i] != tys[j]
  }

  /** A build that did not panic: it found what it fetches, its code went well, and nothing it adds was there. */
  ghost predicate Builds(cs: Components, p: Plugin, call: Call) {
    Fetches(cs, p, call) && !p.crashes && CanAdd(cs, p.adds)
  }

  /** Each plugin built on what those before it had added. */
  ghost predicate CallsMatch(cs: Components, built: seq<Plugin>, calls: seq<Call>) {
    && |calls| == |built|
    && forall i {:trigger calls[i]} :: 0 <= i < |built| ==> Builds(After(cs, built[..i]), built[i], calls[i])
  }

  /** `o` is a panic of `p`'s own build on the registry `cs`, and names the offending type. */
  ghost predicate BuildFails(cs: Components, p: Plugin, o: Outcome) {
    match o
    case NotFound(q, ty) => q == p && ty in p.fetches && ty !in cs
    case Duplicate(q, ty) => q == p && ty in p.adds && !CanAdd(cs, p.adds)
    case Crashed(q) => q == p && p.crashes
    case _ => false
  }

  /** `order` lists the registry's plugins, each once, in whatever order the hash map yields them. */
  ghost predicate Enumerates(order: seq<Plugin>, reg: Registry) {
    && NoRepeats(order)
    && (forall p :: p in order ==> p.name in reg && reg[p.name] == p)
    && (forall n :: n in reg ==> reg[n] in order)
  }

  /** The loop's bookkeeping: `built` in dependency order, `todo` still waiting, nothing lost or repeated. */
  ghost predicate Building(reg: Registry, order: seq<Plugin>, cs0: Components, cs: Components,
                           built: seq<Plugin>, calls: seq<Call>, todo: seq<Plugin>) {
    && Dealt(order, built, todo)
    && DepsFirst(built)
    && Derivable(Rules(reg), {}, Names(built))
    && CallsMatch(cs0, built, calls)
    && cs == After(cs0, built)
  }

  lemma BuildingStarts(reg: Registry, order: seq<Plugin>, cs: Components, tasks: seq<Job>, hooks: seq<Job>)
    requires Enumerates(order, reg)
    ensures Building(reg, order, cs, cs, [], [], order) && Names([]) == {}
    ensures tasks + TasksOf([]) == tasks && hooks + HooksOf([]) == hooks
  {
    assert Names([]) == {};
  }

  lemma AfterSnoc(cs: Components, built: seq<Plugin>, p: Plugin)
    ensures After(cs, built + [p]) == AddAll(After(cs, built), p.adds, p.name)
    ensures HooksOf(built + [p]) == HooksOf(built) + p.hooks && TasksOf(built + [p]) == TasksOf(built) + p.tasks
  {
    assert (built + [p])[..|built|] == built;
  }

  /** What one call of `build_plugins` started from, and what it has built so far. */
  datatype History = History(
    reg: Registry, order: seq<Plugin>, cs: Components, tasks: seq<Job>, hooks: seq<Job>,
    built: seq<Plugin>, calls: seq<Call>)

  ghost predicate SameStart(h: History, reg: Registry, order: seq<Plugin>, cs: Components, tasks: seq<Job>,
                            hooks: seq<Job>) {
    h.reg == reg && h.order == order && h.cs == cs && h.tasks == tasks && h.hooks == hooks
  }

  /** A panic while some plugin is built. */
  predicate IsPanic(o: Outcome) {
    o.NotFound? || o.Duplicate? || o.Crashed?
  }

  /** `o` is a panic of a plugin whose turn had come: its dependencies built, itself not yet. */
  ghost predicate BuildPanics(h: History, o: Outcome) {
    && IsPanic(o)
    && o.plugin in h.order && o.plugin !in h.built && DepSet(o.plugin) <= Names(h.built)
    && BuildFails(After(h.cs, h.built), o.plugin, o)
  }

  lemma NamesSnoc(ps: seq<Plugin>, p: Plugin)
    ensures Names(ps + [p]) == Names(ps) + {p.name}
  {
    assert forall q :: q in ps + [p] <==> q in ps || q == p;
  }

  lemma DepsFirstSnoc(built: seq<Plugin>, p: Plugin)
    requires DepsFirst(built) && DepSet(p) <= Names(built)
    ensures DepsFirst(built + [p])
  {
    forall i | 0 <= i < |built| + 1
      ensures DepSet((built + [p])[i]) <= Names((built + [p])[..i])
    {
      assert (built + [p])[..i] == built[..i];
      assert built[..|built|] == built;
    }
  }

  lemma CallsMatchSnoc(cs: Components, built: seq<Plugin>, calls: seq<Call>, p: Plugin, call: Call)
    requires CallsMatch(cs, built, calls) && Builds(After(cs, built), p, call)
    ensures CallsMatch(cs, built + [p], calls + [call])
  {
    forall i | 0 <= i < |built| + 1
      ensures Builds(After(cs, (built + [p])[..i]), (built + [p])[i], (calls + [call])[i])
    {
      assert (built + [p])[..i] == built[..i];
      assert built[..|built|] == built;
    }
  }

  lemma BuildingStep(reg: Registry, order: seq<Plugin>, cs0: Components, cs: Components,
                     built: seq<Plugin>, calls: seq<Call>, p: Plugin, todo: seq<Plugin>, call: Call)
    requires Enumerates(order, reg)
    requires Building(reg, order, cs0, cs, built, calls, [p] + todo)
    requires DepSet(p) <= Names(built) && Builds(cs, p, call)
    ensures Building(reg, order, cs0, AddAll(cs, p.adds, p.name), built + [p], calls + [call], todo)
    ensures Names(built + [p]) == Names(built) + {p.name}
  {
    DealStep(order, built, p, todo);
    assert p in order by { assert p in [p] + todo; }
    NamesSnoc(built, p);
    AfterSnoc(cs0, built, p);
    DepsFirstSnoc(built, p);
    CallsMatchSnoc(cs0, built, calls, p, call);
    assert RuleOf(reg[p.name]) in Rules(reg);
    DerivableStep(Rules(reg), {}, Names(built), RuleOf(p));
  }

  /** A plugin whose dependencies are all registered. */
  ghost function Ready(registered: set<string>): Plugin -> bool {
    p => DepSet(p) <= registered
  }

  /** What a call of `build_plugins` has done when it ends in `o`. */
  ghost predicate BuildResult(h: History, o: Outcome) {
    // each plugin at most once, after everything it depends on, and only plugins that can be built
    && NoRepeats(h.built) && (forall p :: p in h.built ==> p in h.order)
    && DepsFirst(h.built)
    && Derivable(Rules(h.reg), {}, Names(h.built))
    && CallsMatch(h.cs, h.built, h.calls)
    && match o
       case Completed => Buildable(h.reg, Names(h.built)) && forall p :: p in h.order ==> p in h.built
       case Stuck => Buildable(h.reg, Names(h.built)) && exists p :: p in h.order && p !in h.built
       case _ => BuildPanics(h, o)
  }

  /** A plugin was built: the bookkeeping after it. */
  lemma BuildingGoesOn(h: History, cs: Components, p: Plugin, todo: seq<Plugin>, call: Call)
    requires Enumerates(h.order, h.reg)
    requires Building(h.reg, h.order, h.cs, cs, h.built, h.calls, [p] + todo)
    requires DepSet(p) <= Names(h.built) && Builds(cs, p, call)
    ensures Building(h.reg, h.order, h.cs, AddAll(cs, p.adds, p.name), h.built + [p], h.calls + [call], todo)
    ensures Names(h.built + [p]) == Names(h.built) + {p.name}
    ensures h.tasks + TasksOf(h.built) + p.tasks == h.tasks + TasksOf(h.built + [p])
    ensures h.hooks + HooksOf(h.built) + p.hooks == h.hooks + HooksOf(h.built + [p])
  {
    BuildingStep(h.reg, h.order, h.cs, cs, h.built, h.calls, p, todo, call);
    AfterSnoc(h.cs, h.built, p);
    Assoc(h.tasks, TasksOf(h.built), p.tasks);
    Assoc(h.hooks, HooksOf(h.built), p.hooks);
  }

  /** Its build panicked. */
  lemma BuildingPanics(h: History, cs: Components, p: Plugin, todo: seq<Plugin>, o: Outcome)
    requires Building(h.reg, h.order, h.cs, cs, h.built, h.calls, [p] + todo)
    requires DepSet(p) <= Names(h.built) && BuildFails(cs, p, o)
    ensures BuildResult(h, o)
  {
    assert p in [p] + todo;
  }

  /** When nothing that is left can be built, what was built is the least fixed point. */
  lemma BuildingStops(h: History, cs: Components, todo: seq<Plugin>)
    requires Enumerates(h.order, h.reg)
    requires Building(h.reg, h.order, h.cs, cs, h.built, h.calls, todo)
    requires Blocked(todo, Ready(Names(h.built)))
    ensures BuildResult(h, if todo == [] then Completed else Stuck)
  {
    forall r | r in Rules(h.reg) && r.needs <= Names(h.built)
      ensures r.gives in Names(h.built)
    {
      var n :| n in h.reg && r == RuleOf(h.reg[n]);
      assert h.reg[n] in h.order;
      if h.reg[n] in todo {
        BlockedMember(todo, Ready(Names(h.built)), h.reg[n]);
      }
    }
    if todo != [] {
      assert todo[0] in h.order && todo[0] !in h.built;
    }
  }
}
