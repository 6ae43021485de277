/**
 The Nacos registration ledger, run together with the application's schedule: server tasks register
 instances from several threads, and a shutdown hook drains the ledger and deregisters them.
 */
module Nacos {
  import opened Machine
  import opened Lifecycle

  type Instance = nat

  /** A registration the server has accepted and the listener has not recorded yet. */
  datatype Pending = Pending(task: nat, instance: Instance)

  datatype Hook = Waiting | Draining(left: seq<Instance>) | Returned(ok: bool)

  /**
   `held`: what the server holds for this process; `recorded`: the shared `registered` vector;
   `pending`: listeners between the two; `drained`: what the hook took out of the vector;
   `removed`: what it has deregistered so far; `slot`: the position of the hook among all hooks.
   */
  datatype Ledger = Ledger(
    life: State, slot: nat, held: multiset<Instance>, recorded: seq<Instance>, pending: seq<Pending>,
    hook: Hook, drained: seq<Instance>, removed: seq<Instance>)

  datatype Step =
    | Live(a: Action)
    | Register(task: nat, instance: Instance)
    | Record(index: nat)
    | Drain
    | Deregister(ok: bool)

  function StartLedger(tasks: seq<Job>, hooks: seq<Job>, slot: nat): Ledger {
    Ledger(Lifecycle.Start(tasks, hooks), slot, multiset{}, [], [], Waiting, [], [])
  }

  /** It is this hook's turn: the hooks registered after it have run, it and the earlier ones have not. */
  predicate OurTurn(s: Ledger) {
    s.life.phase == Hooking && |s.life.ran| < |s.life.hooks| && NextHook(s.life) == s.slot
  }

  /** The schedule waits for what is awaited inside it: a task for its listener, the hook sequence for the hook. */
  predicate Blocked(s: Ledger, a: Action) {
    match a
    case Finish(t, _) => exists p :: p in s.pending && p.task == t
    case RunHook(ok) => OurTurn(s) && s.hook != Returned(ok)
    case _ => false
  }

  function NextStep(s: Ledger, a: Step): Option<Ledger> {
    match a
    case Live(b) =>
      if Blocked(s, b) then None
      else
        var life := Lifecycle.Next(s.life, b);
        if life.None? then None else Some(s.(life := life.value))
    case Register(t, inst) =>
      // ServerStartedEvent is published by a running task, which waits for the listener.
      if t >= |s.life.spawned| || t in s.life.finished || (exists p :: p in s.pending && p.task == t) then None
      else Some(s.(held := s.held + multiset{inst}, pending := s.pending + [Pending(t, inst)]))
    case Record(i) =>
      if i >= |s.pending| then None
      else Some(s.(recorded := s.recorded + [s.pending[i].instance], pending := s.pending[..i] + s.pending[i + 1..]))
    case Drain =>
      if !OurTurn(s) || s.hook != Waiting then None
      else Some(s.(recorded := [], drained := s.recorded,
                   hook := if s.recorded == [] then Returned(true) else Draining(s.recorded)))
    case Deregister(ok) =>
      if !s.hook.Draining? || s.hook.left == [] then None
      else if !ok then Some(s.(hook := Returned(false)))
      else
        var left := s.hook.left[1..];
        Some(s.(held := s.held - multiset{s.hook.left[0]}, removed := s.removed + [s.hook.left[0]],
                hook := if left == [] then Returned(true) else Draining(left)))
  }

  function Instances(ps: seq<Pending>): seq<Instance> {
    if ps == [] then [] else Instances(ps[..|ps| - 1]) + [ps[|ps| - 1].instance]
  }

  lemma {:induction false} InstancesConcat(ps: seq<Pending>, qs: seq<Pending>)
    ensures Instances(ps + qs) == Instances(ps) + Instances(qs)
  {
    if qs == [] {
      assert ps + qs == ps;
    } else {
      var n := |qs| - 1;
      assert (ps + qs)[..|ps + qs| - 1] == ps + qs[..n];
      InstancesConcat(ps, qs[..n]);
    }
  }

  lemma InstancesWithout(before: seq<Pending>, p: Pending, after: seq<Pending>)
    ensures multiset(Instances(before + [p] + after)) == multiset(Instances(before + after)) + multiset{p.instance}
  {
    InstancesConcat(before + [p], after);
    InstancesConcat(before, [p]);
    InstancesConcat(before, after);
    assert Instances([p]) == [p.instance];
  }

  /** The ledger's conservation law: the server holds what is recorded, what is between
      registration and record, and what the hook has taken but not removed. */
  ghost predicate Balanced(s: Ledger) {
    match s
    case Ledger(_, _, held, recorded, pending, hook, drained, removed) =>
      && removed <= drained
      && held == multiset(recorded) + multiset(Instances(pending)) + multiset(drained[|removed|..])
      && (hook == Waiting ==> drained == [])
      && (hook.Draining? ==> hook.left == drained[|removed|..] != [])
      && (hook == Returned(true) ==> removed == drained)
      && (hook == Returned(false) ==> |removed| < |drained|)
  }

  /** Once the hook has started, no task is left to register anything. */
  ghost predicate Quiet(s: Ledger) {
    && (forall p :: p in s.pending ==> p.task < |s.life.spawned| && p.task !in s.life.finished)
    && (s.life.before ==> s.pending == [])
    && (s.hook != Waiting ==> s.life.before && s.recorded == [])
  }

  ghost predicate Inv(s: Ledger) {
    Lifecycle.Inv(s.life) && Balanced(s) && Quiet(s)
  }

  lemma OneMore(a: multiset<Instance>, b: multiset<Instance>, c: multiset<Instance>, x: Instance)
    ensures a + b + c + multiset{x} == a + (b + multiset{x}) + c
    ensures a + (b + multiset{x}) + c == a + multiset{x} + b + c
  {
  }

  lemma PendingSnoc(ps: seq<Pending>, p: Pending)
    ensures multiset(Instances(ps + [p])) == multiset(Instances(ps)) + multiset{p.instance}
  {
    assert (ps + [p])[..|ps|] == ps;
  }

  lemma RegisterKeepsBalance(s: Ledger, t: nat, inst: Instance)
    requires Balanced(s)
    ensures Balanced(s.(held := s.held + multiset{inst}, pending := s.pending + [Pending(t, inst)]))
  {
    PendingSnoc(s.pending, Pending(t, inst));
    OneMore(multiset(s.recorded), multiset(Instances(s.pending)), multiset(s.drained[|s.removed|..]), inst);
  }

  lemma RecordKeepsBalance(s: Ledger, before: seq<Pending>, p: Pending, after: seq<Pending>)
    requires Balanced(s) && s.pending == before + [p] + after
    ensures Balanced(s.(recorded := s.recorded + [p.instance], pending := before + after))
  {
    InstancesWithout(before, p, after);
    assert multiset(s.recorded + [p.instance]) == multiset(s.recorded) + multiset{p.instance};
    OneMore(multiset(s.recorded), multiset(Instances(before + after)), multiset(s.drained[|s.removed|..]), p.instance);
  }

  lemma RecordIndexKeepsBalance(s: Ledger, i: nat)
    requires Balanced(s) && i < |s.pending|
    ensures Balanced(s.(recorded := s.recorded + [s.pending[i].instance],
                        pending := s.pending[..i] + s.pending[i + 1..]))
  {
    assert s.pending == s.pending[..i] + [s.pending[i]] + s.pending[i + 1..];
    RecordKeepsBalance(s, s.pending[..i], s.pending[i], s.pending[i + 1..]);
  }

  lemma DrainKeepsBalance(s: Ledger)
    requires Balanced(s) && NextStep(s, Drain).Some?
    ensures Balanced(NextStep(s, Drain).value)
  {
    assert s.recorded[0..] == s.recorded;
  }

  lemma DeregisterKeepsBalance(s: Ledger, ok: bool)
    requires Balanced(s) && NextStep(s, Deregister(ok)).Some?
    ensures Balanced(NextStep(s, Deregister(ok)).value)
  {
    var first, rest := s.hook.left[0], s.hook.left[1..];
    assert s.hook.left == [first] + rest;
    assert s.drained[|s.removed|] == first;
    assert s.drained[|s.removed| + 1..] == rest;
  }

  lemma RegisterStepKeepsBalance(s: Ledger, t: nat, inst: Instance)
    requires Balanced(s) && NextStep(s, Register(t, inst)).Some?
    ensures Balanced(NextStep(s, Register(t, inst)).value)
  {
    RegisterKeepsBalance(s, t, inst);
  }

  lemma RecordStepKeepsBalance(s: Ledger, i: nat)
    requires Balanced(s) && NextStep(s, Record(i)).Some?
    ensures Balanced(NextStep(s, Record(i)).value)
  {
    RecordIndexKeepsBalance(s, i);
  }

  lemma LiveKeepsBalance(s: Ledger, b: Action)
    requires Balanced(s) && NextStep(s, Live(b)).Some?
    ensures Balanced(NextStep(s, Live(b)).value)
  {
  }

  lemma StepKeepsBalance(s: Ledger, a: Step)
    requires Balanced(s) && NextStep(s, a).Some?
    ensures Balanced(NextStep(s, a).value)
  {
    match a
    case Live(b) => LiveKeepsBalance(s, b);
    case Register(t, inst) => RegisterStepKeepsBalance(s, t, inst);
    case Record(i) => RecordStepKeepsBalance(s, i);
    case Drain => DrainKeepsBalance(s);
    case Deregister(ok) => DeregisterKeepsBalance(s, ok);
  }

  lemma RegisterKeepsQuiet(s: Ledger, t: nat, inst: Instance)
    requires Inv(s) && NextStep(s, Register(t, inst)).Some?
    ensures Quiet(NextStep(s, Register(t, inst)).value)
  {
  }

  lemma RecordKeepsQuiet(s: Ledger, i: nat)
    requires Inv(s) && NextStep(s, Record(i)).Some?
    ensures Quiet(NextStep(s, Record(i)).value)
  {
    assert forall p :: p in s.pending[..i] + s.pending[i + 1..] ==> p in s.pending;
  }

  lemma HookKeepsQuiet(s: Ledger, a: Step)
    requires Inv(s) && (a.Drain? || a.Deregister?) && NextStep(s, a).Some?
    ensures Quiet(NextStep(s, a).value)
  {
  }

  lemma StepKeepsQuiet(s: Ledger, a: Step)
    requires Inv(s) && NextStep(s, a).Some?
    ensures Quiet(NextStep(s, a).value)
  {
    match a
    case Live(b) => LiveKeepsQuiet(s, b);
    case Register(t, inst) => RegisterKeepsQuiet(s, t, inst);
    case Record(i) => RecordKeepsQuiet(s, i);
    case _ => HookKeepsQuiet(s, a);
  }

  lemma LiveKeepsQuiet(s: Ledger, b: Action)
    requires Inv(s) && NextStep(s, Live(b)).Some?
    ensures Quiet(NextStep(s, Live(b)).value)
  {
    assert s.pending == [] || s.pending[0] in s.pending;
    StepKeepsTasks(s.life, b);
  }

  /** The hook sequence passes our hook only after it returned, and goes on only if it returned `Ok`. */
  ghost predicate InSequence(s: Ledger) {
    s.slot < |s.life.hooks| && |s.life.ran| >= |s.life.hooks| - s.slot && (s.life.phase == Hooking || s.life.after) ==>
      s.hook == Returned(true)
  }

  lemma StepKeepsSequence(s: Ledger, a: Step)
    requires Inv(s) && InSequence(s) && NextStep(s, a).Some?
    ensures InSequence(NextStep(s, a).value)
  {
    match a
    case Live(b) => LiveKeepsSequence(s, b);
    case Register(t, inst) =>
    case Record(i) =>
    case Drain =>
    case Deregister(ok) =>
  }

  lemma LiveKeepsSequence(s: Ledger, b: Action)
    requires InvHooks(s.life) && InSequence(s) && NextStep(s, Live(b)).Some?
    ensures InSequence(NextStep(s, Live(b)).value)
  {
    match b
    case Spawn =>
    case Finish(t, panics) =>
    case Join =>
    case PublishBefore(ok) =>
    case RunHook(ok) =>
    case PublishAfter(ok) =>
  }

  // ---- What every run guarantees ----

  ghost predicate IsLedgerRun(tasks: seq<Job>, hooks: seq<Job>, slot: nat, steps: seq<Step>, s: Ledger) {
    Exec(NextStep, StartLedger(tasks, hooks, slot), steps) == Some(s)
  }

  function Lives(steps: seq<Step>): seq<Action> {
    if steps == [] then []
    else
      var last := steps[|steps| - 1];
      Lives(steps[..|steps| - 1]) + if last.Live? then [last.a] else []
  }

  function Registered(steps: seq<Step>): multiset<Instance> {
    if steps == [] then multiset{}
    else
      var last := steps[|steps| - 1];
      Registered(steps[..|steps| - 1]) + if last.Register? then multiset{last.instance} else multiset{}
  }

  /** What one step is for the application: a step of its schedule, or nothing. */
  lemma StepProjects(tasks: seq<Job>, hooks: seq<Job>, acts: seq<Action>, m: Ledger, last: Step)
    requires IsRun(tasks, hooks, acts, m.life) && NextStep(m, last).Some?
    ensures IsRun(tasks, hooks, acts + (if last.Live? then [last.a] else []), NextStep(m, last).value.life)
    ensures NextStep(m, last).value.slot == m.slot
  {
    if last.Live? {
      RunStep(tasks, hooks, acts, m.life, last.a);
    } else {
      assert acts + [] == acts;
    }
  }

  /** Seen from the application, a run of the ledger is a run of the schedule. */
  lemma {:induction false} ProjectsToSchedule(tasks: seq<Job>, hooks: seq<Job>, slot: nat, steps: seq<Step>, s: Ledger)
    requires IsLedgerRun(tasks, hooks, slot, steps, s)
    ensures IsRun(tasks, hooks, Lives(steps), s.life) && s.slot == slot
  {
    if steps != [] {
      var pre, last := steps[..|steps| - 1], steps[|steps| - 1];
      var m := Exec(NextStep, StartLedger(tasks, hooks, slot), pre).value;
      ProjectsToSchedule(tasks, hooks, slot, pre, m);
      StepProjects(tasks, hooks, Lives(pre), m, last);
    }
  }

  lemma RunKeepsLedger(tasks: seq<Job>, hooks: seq<Job>, slot: nat, steps: seq<Step>, s: Ledger)
    requires IsLedgerRun(tasks, hooks, slot, steps, s)
    ensures Inv(s) && InSequence(s)
  {
    forall m, a | Inv(m) && InSequence(m) && NextStep(m, a).Some?
      ensures Inv(NextStep(m, a).value) && InSequence(NextStep(m, a).value)
    {
      StepKeepsLife(m, a);
      StepKeepsBalance(m, a);
      StepKeepsQuiet(m, a);
      StepKeepsSequence(m, a);
    }
    Always(NextStep, (m: Ledger) => Inv(m) && InSequence(m), StartLedger(tasks, hooks, slot), steps);
  }

  lemma StepKeepsLife(s: Ledger, a: Step)
    requires Inv(s) && NextStep(s, a).Some?
    ensures Lifecycle.Inv(NextStep(s, a).value.life)
  {
    if a.Live? {
      StepKeepsTasks(s.life, a.a);
      StepKeepsHooks(s.life, a.a);
    }
  }

  lemma MoveOne(held: multiset<Instance>, removed: seq<Instance>, x: Instance)
    requires x in held
    ensures held - multiset{x} + multiset(removed + [x]) == held + multiset(removed)
  {
  }

  lemma DeregisterConserves(s: Ledger)
    requires Balanced(s) && NextStep(s, Deregister(true)).Some?
    ensures var s' := NextStep(s, Deregister(true)).value;
      s'.held + multiset(s'.removed) == s.held + multiset(s.removed)
  {
    assert s.hook.left[0] in multiset(s.drained[|s.removed|..]);
    MoveOne(s.held, s.removed, s.hook.left[0]);
  }

  lemma StepConserves(s: Ledger, a: Step)
    requires Balanced(s) && NextStep(s, a).Some?
    ensures var s' := NextStep(s, a).value;
      s'.held + multiset(s'.removed) == s.held + multiset(s.removed) +
        if a.Register? then multiset{a.instance} else multiset{}
  {
    match a
    case Register(t, inst) =>
      assert s.held + multiset{inst} + multiset(s.removed) == s.held + multiset(s.removed) + multiset{inst};
    case Deregister(ok) =>
      if ok {
        DeregisterConserves(s);
      }
    case _ =>
  }

  /** Conservation over a whole run: what was ever registered is still held or has been removed, so
      nothing is deregistered twice. */
  lemma {:induction false} NothingLost(tasks: seq<Job>, hooks: seq<Job>, slot: nat, steps: seq<Step>, s: Ledger)
    requires IsLedgerRun(tasks, hooks, slot, steps, s)
    ensures Registered(steps) == s.held + multiset(s.removed)
  {
    if steps != [] {
      var pre := steps[..|steps| - 1];
      var m := Exec(NextStep, StartLedger(tasks, hooks, slot), pre).value;
      NothingLost(tasks, hooks, slot, pre, m);
      RunKeepsLedger(tasks, hooks, slot, pre, m);
      StepConserves(m, steps[|steps| - 1]);
    }
  }

  /** A hook that returns `Ok` leaves nothing registered, then and for the rest of the run. A failure
      at the k-th instance leaves exactly the first k - 1 removed and the others held. */
  lemma HookEmptiesTheServer(tasks: seq<Job>, hooks: seq<Job>, slot: nat, steps: seq<Step>, s: Ledger)
    requires IsLedgerRun(tasks, hooks, slot, steps, s)
    ensures s.hook == Returned(true) ==> s.held == multiset{} && multiset(s.removed) == Registered(steps)
    ensures s.hook == Returned(false) ==>
      && |s.removed| < |s.drained| && s.removed == s.drained[..|s.removed|]
      && s.held == multiset(s.drained[|s.removed|..])
      && multiset(s.drained) == Registered(steps)
  {
    RunKeepsLedger(tasks, hooks, slot, steps, s);
    NothingLost(tasks, hooks, slot, steps, s);
    HookOver(s);
    if s.hook.Returned? {
      TakenApart(s.drained, |s.removed|);
    }
  }

  lemma TakenApart(ds: seq<Instance>, k: nat)
    requires k <= |ds|
    ensures multiset(ds) == multiset(ds[..k]) + multiset(ds[k..])
  {
    assert ds == ds[..k] + ds[k..];
  }

  /** When the hook is over, only what it has not removed is held. */
  lemma HookOver(s: Ledger)
    requires Inv(s)
    ensures s.hook.Returned? ==> s.held == multiset(s.drained[|s.removed|..]) && s.removed == s.drained[..|s.removed|]
    ensures s.hook == Returned(true) ==> s.held == multiset{}
    ensures s.hook == Returned(false) ==> |s.removed| < |s.drained|
  {
  }

  /** If the application shuts down completely, the server holds nothing for it: every instance any
      task registered, however the tasks interleaved, has been deregistered exactly once. */
  lemma CleanShutdown(tasks: seq<Job>, hooks: seq<Job>, slot: nat, steps: seq<Step>, s: Ledger)
    requires IsLedgerRun(tasks, hooks, slot, steps, s)
    requires slot < |hooks| && s.life.phase == Ended
    ensures s.held == multiset{} && multiset(s.removed) == Registered(steps)
  {
    ProjectsToSchedule(tasks, hooks, slot, steps, s);
    HooksRunNewestFirst(tasks, hooks, Lives(steps), s.life);
    RunKeepsLedger(tasks, hooks, slot, steps, s);
    StateRemembers(tasks, hooks, Lives(steps), s.life);
    HookEmptiesTheServer(tasks, hooks, slot, steps, s);
  }

  /** The waiting adds no deadlock: until the application has ended, some thread can step, and not only by
      registering yet another instance. */
  lemma NeverStuck(tasks: seq<Job>, hooks: seq<Job>, slot: nat, steps: seq<Step>, s: Ledger)
    requires IsLedgerRun(tasks, hooks, slot, steps, s) && !Halted(s.life)
    ensures exists a: Step :: !a.Register? && NextStep(s, a).Some?
  {
    RunKeepsLedger(tasks, hooks, slot, steps, s);
    if s.pending != [] {
      assert NextStep(s, Record(0)).Some?;
    } else if OurTurn(s) {
      HookCanStep(s);
    } else {
      ProjectsToSchedule(tasks, hooks, slot, steps, s);
      Lifecycle.NeverStuck(tasks, hooks, Lives(steps), s.life);
      var a :| Lifecycle.Next(s.life, a).Some?;
      assert NextStep(s, Live(a)).Some?;
    }
  }

  lemma HookCanStep(s: Ledger)
    requires OurTurn(s) && (s.hook.Draining? ==> s.hook.left != [])
    ensures exists a: Step :: !a.Register? && NextStep(s, a).Some?
  {
    match s.hook
    case Waiting => assert NextStep(s, Drain).Some?;
    case Draining(_) => assert NextStep(s, Deregister(true)).Some?;
    case Returned(ok) => assert NextStep(s, Live(RunHook(ok))).Some?;
  }

  // ---- The listener and the hook ----

  /** The server accepts the first `n` calls. */
  ghost predicate AllAccepted(answers: nat -> bool, n: nat) {
    forall k: nat :: k < n ==> answers(k)
  }

  lemma AcceptedSnoc(answers: nat -> bool, k: nat, n: nat)
    requires k < n
    ensures AllAccepted(answers, k + 1) <==> AllAccepted(answers, k) && answers(k)
    ensures !answers(k) ==> !AllAccepted(answers, n)
  {
  }

  /** One turn of the hook's loop, from outside: `instances` were drained, `k` of them are removed. */
  lemma DeregisterNext(s: Ledger, instances: seq<Instance>, k: nat, ok: bool)
    requires k < |instances| && s.removed == instances[..k] && s.hook == Draining(instances[k..])
    ensures NextStep(s, Deregister(ok)).Some?
    ensures var s' := NextStep(s, Deregister(ok)).value;
      && s'.life == s.life && s'.recorded == s.recorded && s'.drained == s.drained
      && s'.removed == (if ok then instances[..k + 1] else instances[..k])
      && s'.hook ==
         if !ok then Returned(false) else if k + 1 == |instances| then Returned(true) else Draining(instances[k + 1..])
  {
    assert instances[k..][0] == instances[k] && instances[k..][1..] == instances[k + 1..];
    assert instances[..k] + [instances[k]] == instances[..k + 1];
  }

  /** The shared vector and what goes on around it; `steps` is how it came to be. */
  class Registration {
    const tasks: seq<Job>
    const hooks: seq<Job>
    const slot: nat
    var ledger: Ledger
    ghost var steps: seq<Step>

    ghost predicate Valid()
      reads this
    {
      IsLedgerRun(tasks, hooks, slot, steps, ledger)
    }

    constructor (tasks: seq<Job>, hooks: seq<Job>, slot: nat)
      ensures Valid() && this.tasks == tasks && this.hooks == hooks && this.slot == slot && steps == []
    {
      this.tasks, this.hooks, this.slot := tasks, hooks, slot;
      ledger, steps := StartLedger(tasks, hooks, slot), [];
    }

    method Do(a: Step)
      requires Valid() && NextStep(ledger, a).Some?
      modifies this
      ensures Valid() && ledger == NextStep(old(ledger), a).value && steps == old(steps) + [a]
    {
      Extend(NextStep, StartLedger(tasks, hooks, slot), steps, ledger, a);
      ledger, steps := NextStep(ledger, a).value, steps + [a];
    }

    /** Anything else may happen while the listener `p` waits for the server, then for the lock. */
    method LetOthersRun(p: Pending)
      requires Valid() && p in ledger.pending
      modifies this
      ensures Valid() && p in ledger.pending && old(steps) <= steps
    {
      var budget: nat := *;
      while budget > 0
        invariant Valid() && p in ledger.pending && old(steps) <= steps
      {
        var a: Step := *;
        var next := NextStep(ledger, a);
        if next.Some? && p in next.value.pending {
          Do(a);
        }
        budget := budget - 1;
      }
    }

    /** `on_event`, called by a running task: register at the server, then record. */
    method OnEvent(task: nat, instance: Instance, accepted: bool) returns (ok: bool)
      requires Valid() && NextStep(ledger, Register(task, instance)).Some?
      modifies this
      ensures Valid() && ok == accepted
      ensures !ok ==> ledger == old(ledger) && steps == old(steps)
      ensures ok ==> old(steps) + [Register(task, instance)] <= steps
      ensures ok ==> ledger.recorded != [] && ledger.recorded[|ledger.recorded| - 1] == instance
    {
      if !accepted {
        return false;
      }
      ok := true;
      ghost var n := |ledger.pending|;
      Do(Register(task, instance));
      assert ledger.pending[n] == Pending(task, instance);
      LetOthersRun(Pending(task, instance));
      var i :| 0 <= i < |ledger.pending| && ledger.pending[i] == Pending(task, instance);
      Do(Record(i));
    }

    /** The shutdown hook: drain the vector, then deregister one instance after the other, as long as the server
        answers that it has. */
    method ShutdownHook(answers: nat -> bool) returns (ok: bool)
      requires Valid() && OurTurn(ledger) && ledger.hook == Waiting
      modifies this
      ensures Valid() && ledger.hook == Returned(ok) && ledger.life == old(ledger.life) && ledger.recorded == []
      ensures ledger.removed <= old(ledger.recorded)
      ensures ledger.held == multiset(old(ledger.recorded)[|ledger.removed|..])
      ensures ok <==> ledger.removed == old(ledger.recorded)
      ensures ok <==> AllAccepted(answers, |old(ledger.recorded)|)
      ensures AllAccepted(answers, |ledger.removed|)
      ensures ok ==> ledger.held == multiset{}
    {
      var instances := ledger.recorded;
      RunKeepsLedger(tasks, hooks, slot, steps, ledger);
      Do(Drain);
      for k := 0 to |instances|
        invariant Valid() && ledger.life == old(ledger.life) && ledger.recorded == [] && ledger.drained == instances
        invariant ledger.removed == instances[..k] && AllAccepted(answers, k)
        invariant ledger.hook == if k == |instances| then Returned(true) else Draining(instances[k..])
      {
        DeregisterNext(ledger, instances, k, answers(k));
        AcceptedSnoc(answers, k, |instances|);
        Do(Deregister(answers(k)));
        if !answers(k) {
          HookEmptiesTheServer(tasks, hooks, slot, steps, ledger);
          return false;
        }
      }
      HookEmptiesTheServer(tasks, hooks, slot, steps, ledger);
      ok := true;
    }
  }
}
