/**
 What the plugin scheduler and the shutdown sequence guarantee together, for every registry, every
 order in which the hash map yields it, and every interleaving of the running tasks.
 */
module Startup {
  import opened Dealing
  import opened Fixpoint
  import opened Lifecycle
  import opened PluginGraph
  import opened BuildHistory

  ghost predicate Ran(h: History, o: Outcome) {
    Keyed(h.reg) && Enumerates(h.order, h.reg) && BuildResult(h, o)
  }

  lemma BuiltAllIff(h: History, o: Outcome)
    requires Ran(h, o) && (o == Completed || o == Stuck)
    ensures o == Completed <==> Names(h.built) == h.reg.Keys
  {
    assert forall p :: p in h.built ==> p.name in Names(h.built);
    if o == Completed {
      assert forall n :: n in h.reg ==> h.reg[n] in h.order && h.reg[n].name in Names(h.built);
    } else {
      var p :| p in h.order && p !in h.built;
      assert p.name in h.reg;
      assert forall q :: q in h.built ==> h.reg[q.name] == q;
    }
  }

  /** The scheduler panics exactly when a dependency is absent from the registry or lies on a cycle. */
  lemma PanicsExactlyWhenImpossible(h: History, o: Outcome)
    requires Ran(h, o) && (o == Completed || o == Stuck)
    ensures o == Stuck <==> HasAbsentDependency(h.reg) || HasCycle(h.reg)
  {
    BuiltAllIff(h, o);
    if o == Stuck {
      StuckHasReason(h.reg, Names(h.built));
    } else if HasAbsentDependency(h.reg) || HasCycle(h.reg) {
      ReasonMeansStuck(h.reg, Names(h.built));
    }
  }

  /** Two iteration orders of the same registry end the same way, with the same plugins built. */
  lemma SamePluginsForEveryOrder(h1: History, o1: Outcome, h2: History, o2: Outcome)
    requires Ran(h1, o1) && (o1 == Completed || o1 == Stuck)
    requires Ran(h2, o2) && (o2 == Completed || o2 == Stuck)
    requires h1.reg == h2.reg
    ensures o1 == o2
    ensures forall p :: p in h1.built <==> p in h2.built
  {
    LeastIsUnique(Rules(h1.reg), {}, Names(h1.built), Names(h2.built));
    BuiltAllIff(h1, o1);
    BuiltAllIff(h2, o2);
    SameNamesSamePlugins(h1, h2.built);
    SameNamesSamePlugins(h2, h1.built);
  }

  lemma SameNamesSamePlugins(h: History, other: seq<Plugin>)
    requires (forall p :: p in h.built ==> p in h.order) && Enumerates(h.order, h.reg)
    requires Names(other) == Names(h.built) && forall p :: p in other ==> p.name in h.reg && h.reg[p.name] == p
    ensures forall p :: p in other ==> p in h.built
  {
    forall p | p in other
      ensures p in h.built
    {
      assert p.name in Names(other);
      var q :| q in h.built && q.name == p.name;
      assert q == h.reg[q.name];
    }
  }

  // ---- Teardown mirrors the dependency order ----

  /** Each plugin's hooks carry its name. */
  ghost predicate Owned(built: seq<Plugin>) {
    forall p, hk :: p in built && hk in p.hooks ==> hk.owner == p.name
  }

  /** Every hook in the list sits in the stretch added by the plugin whose name it carries. */
  lemma {:induction false} HookStretch(built: seq<Plugin>, x: nat) returns (i: nat)
    requires Owned(built) && x < |HooksOf(built)|
    ensures i < |built| && built[i].name == HooksOf(built)[x].owner
    ensures |HooksOf(built[..i])| <= x < |HooksOf(built[..i + 1])|
  {
    var n := |built| - 1;
    if x < |HooksOf(built[..n])| {
      i := HookStretch(built[..n], x);
      assert built[..n][..i] == built[..i] && built[..n][..i + 1] == built[..i + 1];
    } else {
      i := n;
      assert built[n] in built && built[..n + 1] == built;
      assert HooksOf(built)[x] == built[n].hooks[x - |HooksOf(built[..n])|];
    }
  }

  lemma {:induction false} HooksOfMonotone(built: seq<Plugin>, i: nat, j: nat)
    requires i <= j <= |built|
    ensures |HooksOf(built[..i])| <= |HooksOf(built[..j])|
  {
    if i < j {
      HooksOfMonotone(built, i, j - 1);
      assert built[..j][..j - 1] == built[..j - 1];
    }
  }

  ghost predicate OwnersInOrder(hooks: seq<Job>, a: string, b: string) {
    forall x, y :: 0 <= x < |hooks| && 0 <= y < |hooks| && hooks[x].owner == a && hooks[y].owner == b ==> x < y
  }

  /** In the hook list, hooks of a plugin come before those of any plugin that depends on it. */
  lemma HooksFollowDependencies(h: History, o: Outcome, b: string, a: string, via: seq<string>)
    requires Ran(h, o) && Owned(h.built) && DependsOn(h.reg, b, a, via)
    ensures OwnersInOrder(HooksOf(h.built), a, b)
  {
    forall x, y | 0 <= x < |HooksOf(h.built)| && 0 <= y < |HooksOf(h.built)|
                  && HooksOf(h.built)[x].owner == a && HooksOf(h.built)[y].owner == b
      ensures x < y
    {
      var i := HookStretch(h.built, x);
      var j := HookStretch(h.built, y);
      var i' := DependencyBuiltEarlier(h.reg, h.built, j, a, via);
      assert h.built[i] in h.built && h.built[i'] in h.built;
      assert i == i' by {
        assert i < i' ==> Differ(h.built, i, i');
        assert i' < i ==> Differ(h.built, i', i);
      }
      HooksOfMonotone(h.built, i + 1, j);
    }
  }

  /**
   Teardown order. `first` are the hooks registered before the plugins were built (they run last)
   and `last` those registered after (they run first); none of those belongs to `a`.
   When a hook of `a` runs, every hook of every plugin that depends on `a` has already run.
   */
  lemma DependentsShutDownFirst(h: History, b: string, a: string, via: seq<string>, first: seq<Job>, last: seq<Job>,
                                tasks: seq<Job>, acts: seq<Action>, s: State)
    requires Ran(h, Completed) && Owned(h.built) && DependsOn(h.reg, b, a, via)
    requires forall hk :: hk in first + last ==> hk.owner != a
    requires IsRun(tasks, first + HooksOf(h.built) + last, acts, s)
    ensures forall k, hk :: 0 <= k < |s.ran| && s.ran[k].owner == a && hk in HooksOf(h.built) && hk.owner == b ==>
              hk in s.ran[..k]
  {
    HooksFollowDependencies(h, Completed, b, a, via);
    RunsInOwnerOrder(first, HooksOf(h.built), last, a, b, tasks, acts, s);
  }

  lemma RunsInOwnerOrder(first: seq<Job>, own: seq<Job>, last: seq<Job>, a: string, b: string,
                         tasks: seq<Job>, acts: seq<Action>, s: State)
    requires IsRun(tasks, first + own + last, acts, s)
    requires OwnersInOrder(own, a, b) && forall hk :: hk in first + last ==> hk.owner != a
    ensures forall k, hk :: 0 <= k < |s.ran| && s.ran[k].owner == a && hk in own && hk.owner == b ==> hk in s.ran[..k]
  {
    forall k, hk | 0 <= k < |s.ran| && s.ran[k].owner == a && hk in own && hk.owner == b
      ensures hk in s.ran[..k]
    {
      var y :| 0 <= y < |own| && own[y] == hk;
      var x := RunPosition(first, own, last, tasks, acts, s, k, y);
      assert x < y;
      assert s.ran[..k][|last| + |own| - 1 - y] == hk;
    }
  }

  /** The `k`-th hook run is the `x`-th of `own`, and later ones of `own` have run before it. */
  lemma RunPosition(first: seq<Job>, own: seq<Job>, last: seq<Job>, tasks: seq<Job>, acts: seq<Action>, s: State,
                    k: nat, y: nat)
    returns (x: nat)
    requires IsRun(tasks, first + own + last, acts, s)
    requires k < |s.ran| && s.ran[k] !in first + last && y < |own|
    ensures x < |own| && own[x] == s.ran[k]
    ensures x < y ==> |last| + |own| - 1 - y < k && s.ran[|last| + |own| - 1 - y] == own[y]
  {
    var hooks := first + own + last;
    HooksRunNewestFirst(tasks, hooks, acts, s);
    var i := |hooks| - 1 - k;
    assert s.ran[k] == hooks[i];
    assert forall j :: 0 <= j < |first| ==> (first + last)[j] == hooks[j];
    assert forall j :: |first| <= j < |first| + |last| ==> (first + last)[j] == hooks[j + |own|];
    assert |first| <= i < |first| + |own|;
    x := i - |first|;
    if x < y {
      assert s.ran[|last| + |own| - 1 - y] == hooks[|first| + y];
    }
  }
}
