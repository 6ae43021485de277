/**
 Service injection: what `#[derive(Service)]` makes of each field, which services can be installed
 at all, and the bookkeeping of the loop that installs them.
 */
module ServiceGraph {
  import opened Machine
  import opened Dealing
  import opened Fixpoint
  import opened PluginGraph
  import opened BuildHistory

  type ConfigId = nat

  /** `InjectableType`, for services that are not prototypes. */
  datatype Field =
    | AlwaysNone
    | Component(optional: bool, ty: TypeId)
    | LazyComponent(lazyTy: TypeId)
    | Config(config: ConfigId)
    | ComponentRef(refTy: TypeId)
    | ConfigRef(refConfig: ConfigId)
    | FuncCall

  datatype Service = Service(name: string, fields: seq<Field>, gives: TypeId)

  /** What ends up in a field: a component (by who added it), nothing, a wrapper that will look for a component
      later, a configuration, or the value of an expression. */
  datatype Injected = NoValue | Instance(owner: string) | Later(ty: TypeId) | Configuration(config: ConfigId) | Made

  /** The statement generated for one field; `None` is the early return of `?`. */
  function InjectField(f: Field, cs: Components, configs: set<ConfigId>): Option<Injected> {
    match f
    case AlwaysNone => Some(NoValue)
    case Component(optional, ty) =>
      if ty in cs then Some(Instance(cs[ty])) else if optional then Some(NoValue) else None
    case LazyComponent(ty) => Some(Later(ty))
    case Config(c) => if c in configs then Some(Configuration(c)) else None
    case ComponentRef(ty) => if ty in cs then Some(Instance(cs[ty])) else None
    case ConfigRef(c) => if c in configs then Some(Configuration(c)) else None
    case FuncCall => Some(Made)
  }

  /** The generated `build`: the fields in order, stopping at the first error. */
  function BuildService(fields: seq<Field>, cs: Components, configs: set<ConfigId>): Option<seq<Injected>> {
    if fields == [] then Some([])
    else
      match InjectField(fields[0], cs, configs)
      case None => None
      case Some(v) =>
        match BuildService(fields[1..], cs, configs)
        case None => None
        case Some(vs) => Some([v] + vs)
  }

  /** The component types a service cannot be built without. */
  function Needs(fields: seq<Field>): set<TypeId> {
    (set f | f in fields && f.Component? && !f.optional :: f.ty)
    + (set f | f in fields && f.ComponentRef? :: f.refTy)
  }

  predicate Configured(fields: seq<Field>, configs: set<ConfigId>) {
    forall f :: f in fields ==>
      (f.Config? ==> f.config in configs) && (f.ConfigRef? ==> f.refConfig in configs)
  }

  /** A build succeeds exactly when the needed components and configurations are there; optional
      and lazy fields do not matter, nor does the order in which the fields are evaluated. */
  lemma {:induction false} BuildsIff(fields: seq<Field>, cs: Components, configs: set<ConfigId>)
    ensures BuildService(fields, cs, configs).Some? <==> Needs(fields) <= cs.Keys && Configured(fields, configs)
  {
    if fields != [] {
      var f, rest := fields[0], fields[1..];
      BuildsIff(rest, cs, configs);
      assert forall g :: g in fields <==> g == f || g in rest;
      assert Needs(fields) == Needs([f]) + Needs(rest);
      assert f in [f];
      assert InjectField(f, cs, configs).Some? <==> Needs([f]) <= cs.Keys && Configured([f], configs);
    }
  }

  /** What a finished build has put into a field: the registered component of the field's own type, or for an
      optional one that is not there nothing. */
  ghost predicate Filled(f: Field, v: Injected, cs: Components, configs: set<ConfigId>) {
    match f
    case AlwaysNone => v == NoValue
    case Component(optional, ty) =>
      if ty in cs then v == Instance(cs[ty]) else optional && v == NoValue
    case LazyComponent(ty) => v == Later(ty)
    case Config(c) => c in configs && v == Configuration(c)
    case ComponentRef(ty) => ty in cs && v == Instance(cs[ty])
    case ConfigRef(c) => c in configs && v == Configuration(c)
    case FuncCall => v == Made
  }

  lemma {:induction false} InjectedValues(fields: seq<Field>, cs: Components, configs: set<ConfigId>, vs: seq<Injected>)
    requires BuildService(fields, cs, configs) == Some(vs)
    ensures |vs| == |fields|
    ensures forall k :: 0 <= k < |fields| ==> Filled(fields[k], vs[k], cs, configs)
  {
    if fields != [] {
      InjectedValues(fields[1..], cs, configs, vs[1..]);
    }
  }

  ghost function Rules(services: seq<Service>, configs: set<ConfigId>): set<Rule<TypeId>> {
    set s | s in services && Configured(s.fields, configs) :: Rule(Needs(s.fields), s.gives)
  }

  /** `installed` with the providers they add on top of `cs`. */
  function WithServices(cs: Components, installed: seq<Service>): Components {
    if installed == [] then cs
    else
      var s := installed[|installed| - 1];
      WithServices(cs, installed[..|installed| - 1])[s.gives := s.name]
  }

  datatype InjectOutcome = Installed | Failed(service: Service) | Panicked(service: Service)

  /** Each service type has one registrar. */
  ghost predicate DistinctTypes(services: seq<Service>) {
    forall s, t :: s in services && t in services && s.gives == t.gives ==> s == t
  }

  function Triangle(n: nat): nat {
    if n == 0 then 0 else n + Triangle(n - 1)
  }

  lemma {:induction false} TriangleIs(n: nat)
    ensures 2 * Triangle(n) == n * (n + 1)
  {
    if n != 0 {
      TriangleIs(n - 1);
    }
  }

  lemma {:induction false} TriangleGrows(m: nat, n: nat)
    requires m < n
    ensures Triangle(m) + n <= Triangle(n)
  {
    if m < n - 1 {
      TriangleGrows(m, n - 1);
    }
  }

  ghost predicate Enabled(s: Service, available: set<TypeId>, configs: set<ConfigId>) {
    Needs(s.fields) <= available && Configured(s.fields, configs)
  }

  /** Bookkeeping of the retry loop: `done` installed in this order, `todo` pending. */
  ghost predicate Injecting(services: seq<Service>, configs: set<ConfigId>, cs0: Components, cs: Components,
                            done: seq<Service>, todo: seq<Service>) {
    && Dealt(services, done, todo)
    && cs == WithServices(cs0, done)
    && Derivable(Rules(services, configs), cs0.Keys, cs.Keys)
    && Provided(cs0, cs, done)
  }

  /** The registry has grown by exactly the types of the services in `done`. */
  ghost predicate Provided(cs0: Components, cs: Components, done: seq<Service>) {
    && cs0.Keys <= cs.Keys
    && (forall s :: s in done ==> s.gives in cs && s.gives !in cs0)
    && forall ty :: ty in cs && ty !in cs0 ==> exists s :: s in done && s.gives == ty
  }

  ghost function Ready(available: set<TypeId>, configs: set<ConfigId>): Service -> bool {
    s => Enabled(s, available, configs)
  }

  /** What `auto_inject_service` has done when it returns: on `Ok` and on `Err` alike, the registry
      holds exactly the least fixed point. */
  ghost predicate InjectResult(services: seq<Service>, configs: set<ConfigId>, cs0: Components, cs: Components,
                               done: seq<Service>, r: InjectOutcome) {
    && NoRepeats(done) && (forall s :: s in done ==> s in services)
    && cs == WithServices(cs0, done)
    && Derivable(Rules(services, configs), cs0.Keys, cs.Keys)
    && match r
       case Panicked(s) => s in services && Enabled(s, cs.Keys, configs) && s.gives in cs0
       case Installed => Settled(services, configs, cs0, cs, done) && forall s :: s in services ==> s in done
       case Failed(s) => Settled(services, configs, cs0, cs, done) && s in services && s !in done
  }

  /** Nothing more can be installed, and what was installed is what the fixed point allows. */
  ghost predicate Settled(services: seq<Service>, configs: set<ConfigId>, cs0: Components, cs: Components,
                          done: seq<Service>) {
    && Least(Rules(services, configs), cs0.Keys, cs.Keys)
    && forall s :: s in services ==> (s in done <==> Enabled(s, cs.Keys, configs)) && (s in done ==> s.gives !in cs0)
  }

  lemma InjectingStep(services: seq<Service>, configs: set<ConfigId>, cs0: Components, cs: Components,
                      done: seq<Service>, s: Service, todo: seq<Service>)
    requires Injecting(services, configs, cs0, cs, done, [s] + todo)
    requires Enabled(s, cs.Keys, configs) && s.gives !in cs
    ensures Injecting(services, configs, cs0, cs[s.gives := s.name], done + [s], todo)
  {
    var done', cs' := done + [s], cs[s.gives := s.name];
    assert s in services && Dealt(services, done', todo) by {
      DealStep(services, done, s, todo);
      assert s in [s] + todo;
    }
    assert cs' == WithServices(cs0, done') by {
      assert done'[..|done|] == done;
    }
    assert cs'.Keys == cs.Keys + {s.gives};
    assert Derivable(Rules(services, configs), cs0.Keys, cs'.Keys) by {
      assert Rule(Needs(s.fields), s.gives) in Rules(services, configs);
      DerivableStep(Rules(services, configs), cs0.Keys, cs.Keys, Rule(Needs(s.fields), s.gives));
    }
    assert Provided(cs0, cs', done') by {
      assert forall t :: t in done' <==> t in done || t == s;
    }
  }

  lemma InjectingStops(services: seq<Service>, configs: set<ConfigId>, cs0: Components, cs: Components,
                       done: seq<Service>, todo: seq<Service>)
    requires Injecting(services, configs, cs0, cs, done, todo) && Blocked(todo, Ready(cs.Keys, configs))
    requires forall s :: s in done ==> Enabled(s, cs.Keys, configs)
    ensures Settled(services, configs, cs0, cs, done)
  {
    forall s | s in todo
      ensures !Enabled(s, cs.Keys, configs)
    {
      BlockedMember(todo, Ready(cs.Keys, configs), s);
    }
    forall r | r in Rules(services, configs) && r.needs <= cs.Keys
      ensures r.gives in cs.Keys
    {
      var s :| s in services && Configured(s.fields, configs) && r == Rule(Needs(s.fields), s.gives);
      assert Enabled(s, cs.Keys, configs);
    }
  }

  /** Both loops' invariant. */
  ghost predicate Loop(services: seq<Service>, configs: set<ConfigId>, cs0: Components, cs: Components,
                       done: seq<Service>, todo: seq<Service>) {
    && Injecting(services, configs, cs0, cs, done, todo)
    && forall s :: s in done ==> Enabled(s, cs.Keys, configs)
  }

  ghost predicate VisitResult(services: seq<Service>, configs: set<ConfigId>, cs0: Components, cs: Components,
                              done: seq<Service>, s: Service, rest: seq<Service>, r: InjectOutcome) {
    match r
    case Installed => Loop(services, configs, cs0, cs, done + [s], rest)
    case Failed(_) => Loop(services, configs, cs0, cs, done, rest + [s])
    case Panicked(_) => InjectResult(services, configs, cs0, cs, done, r)
  }

  /** What one attempt does to the invariant, in each of its three outcomes. */
  lemma Visited(services: seq<Service>, configs: set<ConfigId>, cs0: Components, cs: Components,
                done: seq<Service>, s: Service, rest: seq<Service>, r: InjectOutcome, cs': Components)
    requires DistinctTypes(services) && Loop(services, configs, cs0, cs, done, [s] + rest)
    requires r != Failed(s) <==> Enabled(s, cs.Keys, configs)
    requires match r
      case Installed => s.gives !in cs && cs' == cs[s.gives := s.name]
      case Failed(t) => t == s && cs' == cs
      case Panicked(t) => t == s && s.gives in cs && cs' == cs
    ensures VisitResult(services, configs, cs0, cs', done, s, rest, r)
  {
    match r
    case Installed =>
      InjectingStep(services, configs, cs0, cs, done, s, rest);
      assert cs.Keys <= cs'.Keys;
    case Failed(_) =>
      DealStep(services, done, s, rest);
    case Panicked(_) =>
      assert s in services && s !in done by { assert s in [s] + rest; }
  }

  /** The outcome is decided by the least fixed point `available` alone, so every registrar order
      installs the same services: a panic happens exactly when some installable service's type was
      already in the registry, and `Ok` comes back exactly when every service is installable. */
  lemma OutcomeByFixpoint(services: seq<Service>, configs: set<ConfigId>, cs0: Components, cs: Components,
                          done: seq<Service>, r: InjectOutcome, available: set<TypeId>)
    requires InjectResult(services, configs, cs0, cs, done, r)
    requires Least(Rules(services, configs), cs0.Keys, available)
    ensures r.Panicked? <==> exists s :: s in services && Enabled(s, available, configs) && s.gives in cs0
    ensures r == Installed <==> forall s :: s in services ==> Enabled(s, available, configs) && s.gives !in cs0
    ensures !r.Panicked? ==>
      cs.Keys == available && forall s :: s in done <==> s in services && Enabled(s, available, configs)
  {
    match r
    case Panicked(s) =>
      assert Enabled(s, available, configs);
    case Installed =>
      LeastIsUnique(Rules(services, configs), cs0.Keys, cs.Keys, available);
    case Failed(_) =>
      LeastIsUnique(Rules(services, configs), cs0.Keys, cs.Keys, available);
  }
}
