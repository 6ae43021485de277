/**
 Plugins generated by `#[component]` under the plugin scheduler, among plugins written by hand: why their builds
 find what they fetch, where their arguments come from, and when a dependency finds no creator.
 */
module Wiring {
  import opened Machine
  import opened Syntax
  import opened PluginGraph
  import opened BuildHistory
  import opened Startup
  import opened ComponentMacro

  /** The k-th component a plugin fetches is added by the plugin its k-th dependency names. */
  ghost predicate Wired(reg: Registry, p: Plugin) {
    && |p.deps| == |p.fetches|
    && forall k :: 0 <= k < |p.deps| && p.deps[k] in reg ==> p.fetches[k] in reg[p.deps[k]].adds
  }

  /** What the plugin adds was not there at the start, and no other plugin adds it. */
  ghost predicate SoleProvider(reg: Registry, cs0: Components, p: Plugin) {
    CanAdd(cs0, p.adds) && forall n, ty :: n in reg && ty in p.adds && ty in reg[n].adds ==> reg[n] == p
  }

  /** A type is in the registry exactly if it was there at the start or a built plugin added it. */
  lemma {:induction false} AfterHas(cs0: Components, built: seq<Plugin>, ty: TypeId)
    ensures ty in After(cs0, built) <==> ty in cs0 || exists p :: p in built && ty in p.adds
  {
    if built != [] {
      var n := |built| - 1;
      AfterHas(cs0, built[..n], ty);
      assert forall p :: p in built <==> p in built[..n] || p == built[n];
    }
  }

  lemma {:induction false} AfterValue(cs0: Components, built: seq<Plugin>, ty: TypeId, q: Plugin)
    requires q in built && ty in q.adds
    requires forall p :: p in built && ty in p.adds ==> p.name == q.name
    ensures ty in After(cs0, built) && After(cs0, built)[ty] == q.name
  {
    var n := |built| - 1;
    assert forall p :: p in built <==> p in built[..n] || p == built[n];
    if ty !in built[n].adds {
      AfterValue(cs0, built[..n], ty, q);
    }
  }

  /** The "component not found" panic can only come from a plugin whose wiring is wrong. */
  lemma WiredFetchesSucceed(h: History, o: Outcome)
    requires Ran(h, o) && o.NotFound?
    ensures !Wired(h.reg, o.plugin)
  {
    var p := o.plugin;
    if Wired(h.reg, p) {
      var k :| 0 <= k < |p.fetches| && p.fetches[k] == o.ty;
      assert p.deps[k] in DepSet(p);
      var q :| q in h.built && q.name == p.deps[k];
      assert q in h.order;
      AfterHas(h.cs, h.built, o.ty);
    }
  }

  /** The "already added" panic can only come from a plugin that is not the sole provider of its types. */
  lemma SoleProviderAdds(h: History, o: Outcome)
    requires Ran(h, o) && o.Duplicate?
    ensures !SoleProvider(h.reg, h.cs, o.plugin)
  {
    var p := o.plugin;
    if SoleProvider(h.reg, h.cs, p) {
      forall ty | ty in p.adds
        ensures ty !in After(h.cs, h.built)
      {
        AfterHas(h.cs, h.built, ty);
        assert forall q :: q in h.built ==> q in h.order;
      }
    }
  }

  /** Since a second provider panics, no two of the plugins built so far add the same type. */
  lemma AddedOnce(cs0: Components, built: seq<Plugin>, calls: seq<Call>, i: nat, j: nat, ty: TypeId)
    requires CallsMatch(cs0, built, calls) && i < j < |built| && ty in built[i].adds
    ensures ty !in built[j].adds
  {
    assert Builds(After(cs0, built[..j]), built[j], calls[j]);
    assert built[..j][i] == built[i];
    AfterHas(cs0, built[..j], ty);
  }

  lemma OneProviderAmong(cs0: Components, built: seq<Plugin>, calls: seq<Call>, i: nat, q: Plugin, ty: TypeId)
    requires CallsMatch(cs0, built, calls) && i <= |built| && q in built[..i] && ty in q.adds
    ensures forall r :: r in built[..i] && ty in r.adds ==> r == q
  {
    var n :| 0 <= n < i && built[n] == q;
    forall r | r in built[..i] && ty in r.adds
      ensures r == q
    {
      var m :| 0 <= m < i && built[m] == r;
      if m < n {
        AddedOnce(cs0, built, calls, m, n, ty);
      } else if n < m {
        AddedOnce(cs0, built, calls, n, m, ty);
      }
    }
  }

  /** In every run, the k-th argument of a wired plugin's build is the component added by the plugin that its
      k-th dependency names, and no other plugin built before it adds that type. */
  lemma ArgumentsComeFromDependencies(h: History, o: Outcome, i: nat, k: nat)
    requires Ran(h, o)
    requires i < |h.built| && Wired(h.reg, h.built[i]) && k < |h.built[i].deps|
    ensures |h.calls| == |h.built| && h.calls[i].plugin == h.built[i].name
    ensures |h.calls[i].args| == |h.built[i].deps| && h.calls[i].args[k] == h.built[i].deps[k]
    ensures forall p :: p in h.built[..i] && h.built[i].fetches[k] in p.adds ==> p.name == h.built[i].deps[k]
  {
    var p, before := h.built[i], h.built[..i];
    assert Builds(After(h.cs, before), p, h.calls[i]);
    assert p in h.built && p.deps[k] in DepSet(p);
    assert DepSet(p) <= Names(before);
    var q :| q in before && q.name == p.deps[k];
    assert forall r :: r in before ==> r in h.built && r in h.order;
    OneProviderAmong(h.cs, h.built, h.calls, i, q, p.fetches[k]);
    AfterValue(h.cs, before, p.fetches[k], q);
  }

  // ---- Generated plugins among others ----

  ghost predicate IsGenerated(p: Plugin, fs: set<ComponentFn>, host: Host) {
    exists f :: f in fs && p == Generate(f, host)
  }

  /** The names in `gen` belong to plugins generated from the functions `fs`; any others were written by hand. */
  ghost predicate Generated(reg: Registry, gen: set<string>, fs: set<ComponentFn>, host: Host) {
    && Keyed(reg) && gen <= reg.Keys
    && (forall f :: f in fs ==> Accepted(f.params))
    && forall n :: n in gen ==> IsGenerated(reg[n], fs, host)
  }

  /** A dependency whose name is in the registry leads to a plugin, of either kind, that adds the type asked for. */
  ghost predicate NamesLead(reg: Registry, fs: set<ComponentFn>, host: Host) {
    forall g, d :: g in fs && d in Dependencies(g.params) && DependencyName(d) in reg ==>
      host.id(d.componentType) in reg[DependencyName(d)].adds
  }

  lemma GeneratedAreWired(reg: Registry, gen: set<string>, fs: set<ComponentFn>, host: Host, n: string)
    requires Generated(reg, gen, fs, host) && NamesLead(reg, fs, host) && n in gen
    ensures Wired(reg, reg[n])
  {
    assert IsGenerated(reg[n], fs, host);
    var g :| g in fs && reg[n] == Generate(g, host);
    FetchesEveryDependency(g.params, Dependencies(g.params));
    forall k | 0 <= k < |reg[n].deps| && reg[n].deps[k] in reg
      ensures reg[n].fetches[k] in reg[reg[n].deps[k]].adds
    {
      assert Dependencies(g.params)[k] in Dependencies(g.params);
    }
  }

  ghost predicate SoleProviders(reg: Registry, gen: set<string>, cs0: Components) {
    forall n :: n in gen && n in reg ==> SoleProvider(reg, cs0, reg[n])
  }

  /** `p` comes from one of the functions, and that function's own part of the build panics. */
  ghost predicate FunctionCrashes(p: Plugin, fs: set<ComponentFn>, host: Host) {
    exists f :: f in fs && p == Generate(f, host) && Crashes(f, host)
  }

  /** In every run, whatever else is in the registry and in whatever order it is visited: a generated build finds
      every component and adds its own, and each of its arguments is the component added by the plugin that its
      dependency names. It panics only if a configuration is missing or its function does not answer a value. */
  lemma GeneratedBuildsFindComponents(h: History, o: Outcome, gen: set<string>, fs: set<ComponentFn>, host: Host)
    requires Ran(h, o) && Generated(h.reg, gen, fs, host)
    requires NamesLead(h.reg, fs, host) && SoleProviders(h.reg, gen, h.cs)
    ensures IsPanic(o) && o.plugin.name in gen ==> o.Crashed? && FunctionCrashes(o.plugin, fs, host)
    ensures IsPanic(o) ==> o.plugin.name in h.reg
    ensures !IsPanic(o) ==> o == if HasAbsentDependency(h.reg) || HasCycle(h.reg) then Stuck else Completed
    ensures |h.calls| == |h.built|
    ensures forall i :: 0 <= i < |h.built| && h.built[i].name in gen ==>
      h.calls[i] == Call(h.built[i].name, h.built[i].deps)
  {
    if !IsPanic(o) {
      PanicsExactlyWhenImpossible(h, o);
    } else {
      assert o.plugin in h.order;
      if o.plugin.name in gen {
        GeneratedAreWired(h.reg, gen, fs, host, o.plugin.name);
        assert IsGenerated(h.reg[o.plugin.name], fs, host);
        match o
        case NotFound(_, _) => WiredFetchesSucceed(h, o);
        case Duplicate(_, _) => SoleProviderAdds(h, o);
        case Crashed(_) =>
      }
    }
    forall i | 0 <= i < |h.built| && h.built[i].name in gen
      ensures h.calls[i] == Call(h.built[i].name, h.built[i].deps)
    {
      assert h.built[i] in h.built && h.built[i] in h.order;
      GeneratedAreWired(h.reg, gen, fs, host, h.built[i].name);
      assert Builds(After(h.cs, h.built[..i]), h.built[i], h.calls[i]);
      forall k | 0 <= k < |h.built[i].deps|
        ensures h.calls[i].args[k] == h.built[i].deps[k]
      {
        ArgumentsComeFromDependencies(h, o, i, k);
      }
    }
  }

  // ---- When the hypotheses hold ----

  /** Return types are pairwise distinct, not registered before the plugins are built, nor added by other plugins. */
  ghost predicate DistinctReturns(reg: Registry, gen: set<string>, fs: set<ComponentFn>, host: Host,
                                  cs0: Components) {
    && (forall f {:trigger Gives(f, host)} :: f in fs ==> Gives(f, host) !in cs0)
    && (forall f, g {:trigger Gives(f, host), Gives(g, host)} ::
          f in fs && g in fs && Gives(f, host) == Gives(g, host) ==> f == g)
    && forall f, n {:trigger Gives(f, host), reg[n]} ::
         f in fs && n in reg && n !in gen ==> Gives(f, host) !in reg[n].adds
  }

  lemma DistinctReturnsSuffice(reg: Registry, gen: set<string>, fs: set<ComponentFn>, host: Host, cs0: Components)
    requires Generated(reg, gen, fs, host) && DistinctReturns(reg, gen, fs, host, cs0)
    ensures SoleProviders(reg, gen, cs0)
  {
    forall n | n in gen
      ensures SoleProvider(reg, cs0, reg[n])
    {
      assert IsGenerated(reg[n], fs, host);
      var f :| f in fs && reg[n] == Generate(f, host);
      forall m, ty | m in reg && ty in reg[n].adds && ty in reg[m].adds
        ensures reg[m] == reg[n]
      {
        assert ty == Gives(f, host);
        assert m in gen && IsGenerated(reg[m], fs, host);
        var g :| g in fs && reg[m] == Generate(g, host);
        assert ty == Gives(g, host);
      }
    }
  }

  /** No names given by hand, no `Result`, no `#[inject]`. */
  predicate Default(f: ComponentFn) {
    && f.name == None && !IsNamed(f.output, "Result")
    && forall d :: d in Dependencies(f.params) ==> d.explicitName == None
  }

  /** Types that end in the same identifier are the same type. */
  ghost predicate Unambiguous(fs: set<ComponentFn>, host: Host) {
    forall f, g, d ::
      f in fs && g in fs && d in Dependencies(g.params) && TypeName(d.componentType) == TypeName(f.output) ==>
        host.id(d.componentType) == host.id(f.output)
  }

  /** Default names lead to the right plugin, unless one written by hand carries such a name. */
  lemma DefaultNamesLead(reg: Registry, gen: set<string>, fs: set<ComponentFn>, host: Host)
    requires Generated(reg, gen, fs, host) && (forall f :: f in fs ==> Default(f)) && Unambiguous(fs, host)
    requires forall n, s :: n in reg && n !in gen ==> n != CreatorName(s)
    ensures NamesLead(reg, fs, host)
  {
    forall g, d | g in fs && d in Dependencies(g.params) && DependencyName(d) in reg
      ensures host.id(d.componentType) in reg[DependencyName(d)].adds
    {
      InferredName(g.params, d);
      var n := DependencyName(d);
      assert n in gen && IsGenerated(reg[n], fs, host);
      var f :| f in fs && reg[n] == Generate(f, host);
      CreatorNameInjective(TypeName(d.componentType), TypeName(f.output));
    }
  }

  lemma {:induction false} InferredName(params: seq<Param>, d: Dependency)
    requires d in Dependencies(params)
    ensures d.inferredName == CreatorName(TypeName(d.componentType))
  {
    if d !in DependencyOf(params[0]) {
      InferredName(params[1..], d);
    }
  }

  /** Where the default names fail: a function returning `Result<T, E>` is registered under the name
      for `Result`, so a dependency on `T` finds it exactly when `T` itself is called `Result`. */
  lemma ResultHidesComponent(f: ComponentFn)
    requires f.name == None && IsNamed(f.output, "Result") && Typed(Param("", f.output, None))
    ensures PluginName(f) == CreatorName(TypeName(ValueType(f.output))) <==> TypeName(ValueType(f.output)) == "Result"
  {
    if PluginName(f) == CreatorName(TypeName(ValueType(f.output))) {
      CreatorNameInjective("Result", TypeName(ValueType(f.output)));
    }
  }

  // ---- When a dependency finds no creator ----

  /** The function's plugin carries the name that the dependency asks for: the last identifiers agree of the type
      asked for and the type the function is declared to return, or the names given by hand do. */
  predicate Serves(f: ComponentFn, d: Dependency) {
    match f.name
    case None =>
      (match d.explicitName
       case None => TypeName(f.output) == TypeName(d.componentType)
       case Some(asked) => asked == "__Create" + TypeName(f.output) + "Plugin")
    case Some(given) =>
      match d.explicitName
      case None => given == "__Create" + TypeName(d.componentType) + "Plugin"
      case Some(asked) => asked == given
  }

  lemma ServesIff(f: ComponentFn, params: seq<Param>, d: Dependency)
    requires d in Dependencies(params)
    ensures Serves(f, d) <==> PluginName(f) == DependencyName(d)
  {
    InferredName(params, d);
    if f.name == None && d.explicitName == None && PluginName(f) == DependencyName(d) {
      CreatorNameInjective(TypeName(f.output), TypeName(d.componentType));
    }
  }

  ghost predicate Registered(reg: Registry, gen: set<string>, f: ComponentFn, host: Host) {
    PluginName(f) in gen && PluginName(f) in reg && reg[PluginName(f)] == Generate(f, host)
  }

  /** A dependency `d` of a registered function `g` that no registered function serves, nor a plugin written by hand. */
  ghost predicate Unserved(reg: Registry, gen: set<string>, fs: set<ComponentFn>, host: Host,
                           g: ComponentFn, d: Dependency) {
    && g in fs && Registered(reg, gen, g, host) && d in Dependencies(g.params)
    && DependencyName(d) !in reg.Keys - gen
    && forall f :: f in fs && Registered(reg, gen, f, host) ==> !Serves(f, d)
  }

  ghost predicate AbsentFor(reg: Registry, n: string, name: string) {
    Edge(reg, n, name) && name !in reg
  }

  lemma UnservedIsAbsent(reg: Registry, gen: set<string>, fs: set<ComponentFn>, host: Host, g: ComponentFn,
                         d: Dependency)
    requires Generated(reg, gen, fs, host) && Unserved(reg, gen, fs, host, g, d)
    ensures AbsentFor(reg, PluginName(g), DependencyName(d))
  {
    var k :| 0 <= k < |Dependencies(g.params)| && Dependencies(g.params)[k] == d;
    var name := reg[PluginName(g)].deps[k];
    if name in reg {
      assert name in gen && IsGenerated(reg[name], fs, host);
      var f :| f in fs && reg[name] == Generate(f, host);
      ServesIff(f, g.params, d);
      assert Registered(reg, gen, f, host);
    }
  }

  /** A generated plugin has an absent dependency exactly when one of its function's dependencies is served by no
      one. */
  lemma AbsentIffUnserved(reg: Registry, gen: set<string>, fs: set<ComponentFn>, host: Host)
    requires Generated(reg, gen, fs, host)
    ensures (exists n, name :: n in gen && AbsentFor(reg, n, name)) <==>
            exists g, d :: Unserved(reg, gen, fs, host, g, d)
  {
    if n, name :| n in gen && AbsentFor(reg, n, name) {
      assert IsGenerated(reg[n], fs, host);
      var g :| g in fs && reg[n] == Generate(g, host);
      var k :| 0 <= k < |reg[n].deps| && reg[n].deps[k] == name;
      var d := Dependencies(g.params)[k];
      assert d in Dependencies(g.params);
      forall f | f in fs && Registered(reg, gen, f, host)
        ensures !Serves(f, d)
      {
        ServesIff(f, g.params, d);
      }
      assert Unserved(reg, gen, fs, host, g, d);
    }
    if g, d :| Unserved(reg, gen, fs, host, g, d) {
      UnservedIsAbsent(reg, gen, fs, host, g, d);
    }
  }

  /** Then startup never succeeds, in any order: it is stuck, unless a build panics before that. */
  lemma UnservedStopsStartup(h: History, o: Outcome, gen: set<string>, fs: set<ComponentFn>, host: Host,
                             g: ComponentFn, d: Dependency)
    requires Ran(h, o) && Generated(h.reg, gen, fs, host) && Unserved(h.reg, gen, fs, host, g, d)
    ensures o == Stuck || IsPanic(o)
    ensures NamesLead(h.reg, fs, host) && SoleProviders(h.reg, gen, h.cs) ==>
              o == Stuck || o.plugin.name !in gen || FunctionCrashes(o.plugin, fs, host)
  {
    UnservedIsAbsent(h.reg, gen, fs, host, g, d);
    assert HasAbsentDependency(h.reg);
    if o == Completed {
      PanicsExactlyWhenImpossible(h, o);
    }
    if NamesLead(h.reg, fs, host) && SoleProviders(h.reg, gen, h.cs) {
      GeneratedBuildsFindComponents(h, o, gen, fs, host);
    }
  }

  // ---- One creator and one consumer ----

  function ComponentOf(t: Type): Type {
    Path([Segment("Component", [TypeArg(t)])])
  }

  function ResultOf(t: Type, e: Type): Type {
    Path([Segment("Result", [TypeArg(t), TypeArg(e)])])
  }

  /** What a parameter `Component(..): Component<T>`, perhaps with `#[inject(..)]`, declares. */
  function DependencyOn(t: Type, inject: Option<string>): Dependency {
    Dependency(t, inject, CreatorName(TypeName(t)))
  }

  /** The registry of a function without parameters and one with a single `Component<T>` parameter. */
  ghost predicate Pair(reg: Registry, cs0: Components, c: ComponentFn, u: ComponentFn, t: Type,
                       inject: Option<string>, host: Host) {
    && c.params == [] && |u.params| == 1 && u.params[0].ty == ComponentOf(t) && u.params[0].inject == inject
    && PluginName(c) != PluginName(u) && DependencyName(DependencyOn(t, inject)) != PluginName(u)
    && reg == map[PluginName(c) := Generate(c, host), PluginName(u) := Generate(u, host)]
    && Gives(c, host) == host.id(t) != Gives(u, host) && Gives(c, host) !in cs0 && Gives(u, host) !in cs0
  }

  lemma ConsumerIs(u: ComponentFn, t: Type, inject: Option<string>, host: Host)
    requires |u.params| == 1 && u.params[0].ty == ComponentOf(t) && u.params[0].inject == inject
    ensures Accepted(u.params) && Dependencies(u.params) == [DependencyOn(t, inject)]
    ensures Generate(u, host).deps == [DependencyName(DependencyOn(t, inject))]
  {
    assert LastIdent(ComponentOf(t)) == Some("Component");
    assert Dependencies(u.params) == DependencyOf(u.params[0]) + Dependencies(u.params[1..]);
  }

  lemma PairIsGenerated(reg: Registry, cs0: Components, c: ComponentFn, u: ComponentFn, t: Type,
                        inject: Option<string>, host: Host)
    requires Pair(reg, cs0, c, u, t, inject, host)
    ensures Generated(reg, reg.Keys, {c, u}, host)
  {
    ConsumerIs(u, t, inject, host);
    assert IsGenerated(Generate(c, host), {c, u}, host) && IsGenerated(Generate(u, host), {c, u}, host);
  }

  lemma PairProviders(reg: Registry, cs0: Components, c: ComponentFn, u: ComponentFn, t: Type,
                      inject: Option<string>, host: Host)
    requires Pair(reg, cs0, c, u, t, inject, host)
    ensures SoleProviders(reg, reg.Keys, cs0)
  {
    PairIsGenerated(reg, cs0, c, u, t, inject, host);
    DistinctReturnsSuffice(reg, reg.Keys, {c, u}, host, cs0);
  }

  lemma PairNamesLead(reg: Registry, cs0: Components, c: ComponentFn, u: ComponentFn, t: Type,
                      inject: Option<string>, host: Host)
    requires Pair(reg, cs0, c, u, t, inject, host)
    ensures NamesLead(reg, {c, u}, host)
  {
    ConsumerIs(u, t, inject, host);
    assert Dependencies(c.params) == [];
    assert Generate(c, host).adds == [Gives(c, host)];
  }

  /** Only the consumer depends on anything. */
  lemma PairEdge(reg: Registry, cs0: Components, c: ComponentFn, u: ComponentFn, t: Type, inject: Option<string>,
                 host: Host,
                 n: string, d: string)
    requires Pair(reg, cs0, c, u, t, inject, host)
    ensures Edge(reg, n, d) <==> n == PluginName(u) && d == DependencyName(DependencyOn(t, inject))
  {
    ConsumerIs(u, t, inject, host);
    assert Generate(c, host).deps == [];
  }

  lemma FirstTwoSteps(reg: Registry, cycle: seq<string>) returns (n: string, m: string)
    requires IsCycle(reg, cycle)
    ensures Edge(reg, cycle[0], n) && Edge(reg, n, m)
  {
    n := if |cycle| == 1 then cycle[0] else cycle[1];
    m := if |cycle| <= 2 then cycle[0] else cycle[2];
    assert Edge(reg, cycle[0], n) && Edge(reg, n, m);
  }

  /** No order of the two goes wrong: nothing lies on a cycle, and a dependency is absent exactly if it is unserved. */
  lemma PairGraph(reg: Registry, cs0: Components, c: ComponentFn, u: ComponentFn, t: Type, inject: Option<string>,
                  host: Host)
    requires Pair(reg, cs0, c, u, t, inject, host)
    ensures !HasCycle(reg) && (HasAbsentDependency(reg) <==> !Serves(c, DependencyOn(t, inject)))
  {
    var d := DependencyOn(t, inject);
    if cycle :| IsCycle(reg, cycle) {
      var n, m := FirstTwoSteps(reg, cycle);
      PairEdge(reg, cs0, c, u, t, inject, host, cycle[0], n);
      PairEdge(reg, cs0, c, u, t, inject, host, n, m);
    }
    PairEdge(reg, cs0, c, u, t, inject, host, PluginName(u), DependencyName(d));
    if n, m :| Edge(reg, n, m) && m !in reg {
      PairEdge(reg, cs0, c, u, t, inject, host, n, m);
    }
    ConsumerIs(u, t, inject, host);
    ServesIff(c, u.params, d);
  }

  lemma BuiltWithoutCrash(h: History, o: Outcome, p: Plugin)
    requires Ran(h, o) && p in h.built
    ensures !p.crashes
  {
    var i :| 0 <= i < |h.built| && h.built[i] == p;
    assert Builds(After(h.cs, h.built[..i]), h.built[i], h.calls[i]);
  }

  /** What a plugin depends on is built before its own build is reached. */
  lemma DependencyIsBuilt(h: History, o: Outcome, p: Plugin, d: string)
    requires Ran(h, o) && (p in h.built || (IsPanic(o) && o.plugin == p)) && d in p.deps
    ensures d in h.reg && h.reg[d] in h.built
  {
    assert d in DepSet(p);
    if p in h.built {
      var i :| 0 <= i < |h.built| && h.built[i] == p;
      assert DepSet(p) <= Names(h.built[..i]);
    }
    var q :| q in h.built && q.name == d;
    assert q in h.order;
  }

  lemma FreeIsBuilt(h: History, o: Outcome, n: string)
    requires Ran(h, o) && (o == Completed || o == Stuck) && n in h.reg && h.reg[n].deps == []
    ensures h.reg[n] in h.built
  {
    assert RuleOf(h.reg[n]) in Rules(h.reg);
    var p :| p in h.built && p.name == n;
    assert p in h.order;
  }

  /** The consumer's build is reached only if the creator serves it. */
  lemma ConsumerFollowsCreator(h: History, o: Outcome, c: ComponentFn, u: ComponentFn, t: Type,
                               inject: Option<string>, host: Host)
    requires Ran(h, o) && Pair(h.reg, h.cs, c, u, t, inject, host)
    requires Generate(u, host) in h.built || (IsPanic(o) && o.plugin == Generate(u, host))
    ensures Generate(c, host) in h.built && Serves(c, DependencyOn(t, inject))
  {
    var d := DependencyOn(t, inject);
    ConsumerIs(u, t, inject, host);
    DependencyIsBuilt(h, o, Generate(u, host), DependencyName(d));
    ServesIff(c, u.params, d);
  }

  lemma PairPanics(h: History, o: Outcome, c: ComponentFn, u: ComponentFn, t: Type, inject: Option<string>, host: Host)
    requires Ran(h, o) && Pair(h.reg, h.cs, c, u, t, inject, host)
    ensures !IsPanic(o) ==> o == if HasAbsentDependency(h.reg) || HasCycle(h.reg) then Stuck else Completed
    ensures IsPanic(o) ==> o == Crashed(o.plugin) && o.plugin.crashes && o.plugin !in h.built
    ensures IsPanic(o) ==> o.plugin == Generate(c, host) || o.plugin == Generate(u, host)
  {
    PairIsGenerated(h.reg, h.cs, c, u, t, inject, host);
    PairProviders(h.reg, h.cs, c, u, t, inject, host);
    PairNamesLead(h.reg, h.cs, c, u, t, inject, host);
    GeneratedBuildsFindComponents(h, o, h.reg.Keys, {c, u}, host);
    if IsPanic(o) {
      assert o.plugin in h.order;
    }
  }

  /** Only a function's own part of the build can panic here; otherwise the consumer decides. */
  lemma PairEnds(h: History, o: Outcome, c: ComponentFn, u: ComponentFn, t: Type, inject: Option<string>, host: Host)
    requires Ran(h, o) && Pair(h.reg, h.cs, c, u, t, inject, host)
    ensures !IsPanic(o) ==> o == if Serves(c, DependencyOn(t, inject)) then Completed else Stuck
    ensures IsPanic(o) ==> o == Crashed(o.plugin) && o.plugin.crashes && o.plugin !in h.built
    ensures IsPanic(o) ==> o.plugin == Generate(c, host) || o.plugin == Generate(u, host)
  {
    PairPanics(h, o, c, u, t, inject, host);
    PairGraph(h.reg, h.cs, c, u, t, inject, host);
  }

  /** If no function crashes, the consumer gets its component exactly when the creator's plugin carries the name
      asked for; otherwise startup is stuck, although the creator makes a value of the very type asked for. */
  lemma PairStartsIff(h: History, o: Outcome, c: ComponentFn, u: ComponentFn, t: Type, inject: Option<string>,
                      host: Host)
    requires Ran(h, o) && Pair(h.reg, h.cs, c, u, t, inject, host)
    ensures o == if Crashes(c, host) then Crashed(Generate(c, host))
                 else if !Serves(c, DependencyOn(t, inject)) then Stuck
                 else if Crashes(u, host) then Crashed(Generate(u, host))
                 else Completed
  {
    PairEnds(h, o, c, u, t, inject, host);
    if !IsPanic(o) {
      FreeIsBuilt(h, o, PluginName(c));
      BuiltWithoutCrash(h, o, Generate(c, host));
      if o == Completed {
        ConsumerIsBuilt(h, c, u, t, inject, host);
      }
    } else if o.plugin != Generate(c, host) {
      ConsumerFollowsCreator(h, o, c, u, t, inject, host);
      BuiltWithoutCrash(h, o, Generate(c, host));
    }
  }

  lemma ConsumerIsBuilt(h: History, c: ComponentFn, u: ComponentFn, t: Type, inject: Option<string>, host: Host)
    requires Ran(h, Completed) && Pair(h.reg, h.cs, c, u, t, inject, host)
    ensures !Generate(u, host).crashes
  {
    assert h.reg[PluginName(u)] in h.order;
    BuiltWithoutCrash(h, Completed, Generate(u, host));
  }

  /** So a default-named creator of `Result<T, E>` never serves a plain `Component<T>`, even if it answers `Ok` ... */
  lemma ResultCreatorIsNotFound(h: History, o: Outcome, c: ComponentFn, u: ComponentFn, t: Type, e: Type,
                                host: Host)
    requires Ran(h, o) && Pair(h.reg, h.cs, c, u, t, None, host)
    requires c.name == None && c.output == ResultOf(t, e) && TypeName(t) != "Result"
    ensures o == if host.answer(c) == Value then Stuck else Crashed(Generate(c, host))
  {
    PairStartsIff(h, o, c, u, t, None, host);
    assert LastIdent(c.output) == Some("Result");
  }

  /** ... and neither does a creator with a name of its own. */
  lemma NamedCreatorIsNotFound(h: History, o: Outcome, c: ComponentFn, u: ComponentFn, t: Type, host: Host)
    requires Ran(h, o) && Pair(h.reg, h.cs, c, u, t, None, host)
    requires c.name.Some? && c.name.value != CreatorName(TypeName(t))
    ensures o == if Crashes(c, host) then Crashed(Generate(c, host)) else Stuck
  {
    PairStartsIff(h, o, c, u, t, None, host);
  }
}
