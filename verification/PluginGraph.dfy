/**
 Plugins as the scheduler sees them, and the theory of their dependencies: which plugins can
 ever be built, and why the others cannot.
 */
module PluginGraph {
  import opened Fixpoint
  import opened Lifecycle

  /** Identity of a component type (`TypeId`). */
  type TypeId = nat

  /**
   What one plugin declares and what its `build` does with the application: the component types
   it fetches with "must exist" accessors, the ones it adds, and the jobs it registers. `crashes` says that
   its own code panics in between: a configuration it expects is missing, or a value it unwraps is an error.
   */
  datatype Plugin = Plugin(
    name: string, immediately: bool, deps: seq<string>,
    fetches: seq<TypeId>, crashes: bool, adds: seq<TypeId>, tasks: seq<Job>, hooks: seq<Job>)

  type Registry = map<string, Plugin>

  /** Registries are keyed by `Plugin::name`. */
  ghost predicate Keyed(reg: Registry) {
    forall n :: n in reg ==> reg[n].name == n
  }

  function Names(ps: seq<Plugin>): set<string> {
    set p | p in ps :: p.name
  }

  function DepSet(p: Plugin): set<string> {
    set d | d in p.deps
  }

  ghost function RuleOf(p: Plugin): Rule<string> {
    Rule(DepSet(p), p.name)
  }

  ghost function Rules(reg: Registry): set<Rule<string>> {
    set n | n in reg :: RuleOf(reg[n])
  }

  /** The plugins that can be built at all: the least set closed under "all dependencies built". */
  ghost predicate Buildable(reg: Registry, s: set<string>) {
    Least(Rules(reg), {}, s)
  }

  // ---- Why a plugin may be unbuildable ----

  ghost predicate Edge(reg: Registry, n: string, d: string) {
    n in reg && d in reg[n].deps
  }

  ghost predicate HasAbsentDependency(reg: Registry) {
    exists n, d :: Edge(reg, n, d) && d !in reg
  }

  /** Each name depends on the next, and the last on the first. */
  ghost predicate IsCycle(reg: Registry, c: seq<string>) {
    c != [] && IsPath(reg, c) && Edge(reg, c[|c| - 1], c[0])
  }

  ghost predicate IsPath(reg: Registry, path: seq<string>) {
    forall i {:trigger path[i]} :: 0 <= i < |path| - 1 ==> Edge(reg, path[i], path[i + 1])
  }

  ghost predicate HasCycle(reg: Registry) {
    exists c :: IsCycle(reg, c)
  }

  ghost predicate DependsInto(reg: Registry, n: string, left: set<string>) {
    exists d :: Edge(reg, n, d) && d in left
  }

  /** Follows dependencies inside `left` until a name repeats; names run out, so one does. */
  lemma {:induction false} FollowToCycle(reg: Registry, left: set<string>, path: seq<string>) returns (c: seq<string>)
    requires forall n {:trigger DependsInto(reg, n, left)} :: n in left ==> DependsInto(reg, n, left)
    requires path != [] && IsPath(reg, path) && forall n :: n in path ==> n in left
    ensures IsCycle(reg, c)
    decreases left - (set n | n in path)
  {
    var last := path[|path| - 1];
    assert last in left && DependsInto(reg, last, left);
    var d :| Edge(reg, last, d) && d in left;
    if d in path {
      var i :| 0 <= i < |path| && path[i] == d;
      c := path[i..];
    } else {
      var longer := path + [d];
      assert d in left - (set n | n in path) && d !in left - (set n | n in longer);
      c := FollowToCycle(reg, left, longer);
    }
  }

  /** If some names can never be built, there is an absent dependency or a cycle to show for it. */
  lemma StuckHasReason(reg: Registry, s: set<string>)
    requires Keyed(reg) && Buildable(reg, s) && s != reg.Keys
    ensures HasAbsentDependency(reg) || HasCycle(reg)
  {
    KeysAreClosed(reg);
    var left := reg.Keys - s;
    assert s + left == reg.Keys;
    var n :| n in left;
    if !HasAbsentDependency(reg) {
      forall n | n in left
        ensures DependsInto(reg, n, left)
      {
        UnbuiltNeedsUnbuilt(reg, s, n);
      }
      var c := FollowToCycle(reg, left, [n]);
    }
  }

  lemma UnbuiltNeedsUnbuilt(reg: Registry, s: set<string>, n: string)
    requires Keyed(reg) && Closed(Rules(reg), {}, s)
    requires n in reg && n !in s
    ensures exists d :: Edge(reg, n, d) && d !in s
  {
    var r := RuleOf(reg[n]);
    assert r in Rules(reg);
    var d :| d in r.needs && d !in s;
    assert Edge(reg, n, d);
  }

  lemma KeysAreClosed(reg: Registry)
    requires Keyed(reg)
    ensures Closed(Rules(reg), {}, reg.Keys)
  {
  }

  /** If every name in `bad` needs a name in `bad` or an absent one, none of them is ever built. */
  lemma NeverBuilt(reg: Registry, s: set<string>, bad: set<string>)
    requires Keyed(reg) && Buildable(reg, s)
    requires forall n {:trigger n in bad} :: n in bad ==> exists d :: Edge(reg, n, d) && d !in reg.Keys - bad
    ensures s <= reg.Keys - bad
  {
    forall n | n in bad
      ensures n in reg && !(RuleOf(reg[n]).needs <= reg.Keys - bad)
    {
      var d :| Edge(reg, n, d) && d !in reg.Keys - bad;
      assert d in RuleOf(reg[n]).needs;
    }
    assert Closed(Rules(reg), {}, reg.Keys - bad);
  }

  /** A plugin with an absent dependency, or on a cycle, is never built. */
  lemma ReasonMeansStuck(reg: Registry, s: set<string>)
    requires Keyed(reg) && Buildable(reg, s)
    requires HasAbsentDependency(reg) || HasCycle(reg)
    ensures s < reg.Keys
  {
    if HasCycle(reg) {
      var c :| IsCycle(reg, c);
      var bad := set n | n in c;
      forall n | n in bad
        ensures exists d :: Edge(reg, n, d) && d !in reg.Keys - bad
      {
        var i :| 0 <= i < |c| && c[i] == n;
        var d := c[if i == |c| - 1 then 0 else i + 1];
        assert Edge(reg, n, d) && d in bad;
      }
      NeverBuilt(reg, s, bad);
      assert c[|c| - 1] in bad && c[|c| - 1] in reg;
    } else {
      var n, d :| Edge(reg, n, d) && d !in reg;
      NeverBuilt(reg, s, {n});
    }
  }

  // ---- Build orders ----

  /** Every plugin comes after all the plugins it declares as dependencies. */
  ghost predicate DepsFirst(built: seq<Plugin>) {
    forall i :: 0 <= i < |built| ==> DepSet(built[i]) <= Names(built[..i])
  }

  /** `via` leads from `b` to `a` along declared dependencies: `b` depends on `a`, perhaps indirectly. */
  ghost predicate DependsOn(reg: Registry, b: string, a: string, via: seq<string>) {
    |via| >= 2 && via[0] == b && via[|via| - 1] == a && IsPath(reg, via)
  }

  /** In a build order, whatever a plugin depends on was built before it. */
  lemma {:induction false} DependencyBuiltEarlier(reg: Registry, built: seq<Plugin>, j: nat, a: string,
                                                  via: seq<string>)
    returns (i: nat)
    requires DepsFirst(built) && (forall p :: p in built ==> p.name in reg && reg[p.name] == p)
    requires j < |built| && DependsOn(reg, built[j].name, a, via)
    ensures i < j && built[i].name == a
    decreases |via|
  {
    assert built[j] in built;
    assert Edge(reg, via[0], via[1]);
    assert via[1] in DepSet(built[j]);
    var p :| p in built[..j] && p.name == via[1];
    var m :| 0 <= m < j && built[m] == p;
    if |via| == 2 {
      i := m;
    } else {
      i := DependencyBuiltEarlier(reg, built, m, a, via[1..]);
    }
  }
}
