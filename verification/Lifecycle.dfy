/**
 The running phase of the application as a protocol (`AppBuilder::schedule`): the main thread
 spawns every scheduler task, joins the handles from the last to the first, publishes the
 shutdown events and pops the shutdown hooks. Spawned tasks finish whenever they like.
 */
module Lifecycle {
  import opened Machine

  /** A registered one-shot closure: which plugin registered it, and a number of its own. */
  datatype Job = Job(owner: string, id: nat)

  datatype Phase = Spawning | Joining | Hooking | Ended | Failed

  /** Tasks are numbered in spawning order; `handles` of them are still to be joined. */
  datatype State = State(
    tasks: seq<Job>, hooks: seq<Job>, phase: Phase,
    spawned: seq<Job>, handles: nat, finished: set<nat>, panicked: set<nat>,
    before: bool, ran: seq<Job>, hookFailed: bool, after: bool)

  datatype Action =
    | Spawn
    | Finish(task: nat, panics: bool)
    | Join
    | PublishBefore(ok: bool)
    | RunHook(ok: bool)
    | PublishAfter(ok: bool)

  function Start(tasks: seq<Job>, hooks: seq<Job>): State {
    State(tasks, hooks, if tasks == [] then Joining else Spawning, [], 0, {}, {}, false, [], false, false)
  }

  function NextHook(s: State): nat
    requires |s.ran| < |s.hooks|
  {
    |s.hooks| - 1 - |s.ran|
  }

  function Next(s: State, a: Action): Option<State> {
    match a
    case Spawn =>
      if s.phase != Spawning || |s.spawned| >= |s.tasks| then None
      else
        var n := |s.spawned| + 1;
        Some(s.(spawned := s.spawned + [s.tasks[n - 1]], handles := n,
                phase := if n == |s.tasks| then Joining else Spawning))
    case Finish(t, panics) =>
      if t >= |s.spawned| || t in s.finished then None
      else Some(s.(finished := s.finished + {t}, panicked := if panics then s.panicked + {t} else s.panicked))
    case Join =>
      // `handles.pop()` takes the last handle; a panicked task makes `handle.await?` return early.
      if s.phase != Joining || s.handles == 0 || s.handles - 1 !in s.finished then None
      else Some(s.(handles := s.handles - 1, phase := if s.handles - 1 in s.panicked then Failed else Joining))
    case PublishBefore(ok) =>
      if s.phase != Joining || s.handles != 0 then None
      else Some(s.(before := true, phase := if ok then Hooking else Failed))
    case RunHook(ok) =>
      if s.phase != Hooking || |s.ran| >= |s.hooks| then None
      else Some(s.(ran := s.ran + [s.hooks[NextHook(s)]], hookFailed := !ok, phase := if ok then Hooking else Failed))
    case PublishAfter(ok) =>
      if s.phase != Hooking || |s.ran| != |s.hooks| then None
      else Some(s.(after := true, phase := if ok then Ended else Failed))
  }

  function Reverse(js: seq<Job>): (r: seq<Job>)
    ensures |r| == |js|
    ensures forall k {:trigger r[k]} :: 0 <= k < |js| ==> r[k] == js[|js| - 1 - k]
  {
    if js == [] then [] else [js[|js| - 1]] + Reverse(js[..|js| - 1])
  }

  ghost predicate AllFinished(s: State) {
    && s.spawned == s.tasks
    && forall t :: 0 <= t < |s.tasks| ==> t in s.finished
  }

  ghost predicate AllJoined(s: State) {
    AllFinished(s) && s.panicked == {}
  }

  /** What spawning and joining keep. */
  ghost predicate InvTasks(s: State) {
    && s.spawned <= s.tasks
    && s.handles <= |s.spawned|
    && (forall t :: t in s.finished ==> t < |s.spawned|)
    && s.panicked <= s.finished
    && (s.phase == Spawning ==> s.handles == |s.spawned| < |s.tasks|)
    && (s.phase != Spawning ==> s.spawned == s.tasks)
    && (forall t :: s.handles <= t < |s.spawned| ==> t in s.finished)
    && (s.phase == Spawning || s.phase == Joining ==>
          forall t :: s.handles <= t < |s.spawned| ==> t !in s.panicked)
    && (s.before ==> s.handles == 0 && AllJoined(s))
  }

  /** What the shutdown sequence keeps. */
  ghost predicate InvHooks(s: State) {
    && (s.phase == Spawning || s.phase == Joining ==> !s.before)
    && (!s.before ==> s.ran == [] && !s.hookFailed && !s.after)
    && (s.phase == Hooking ==> s.before && !s.after && !s.hookFailed)
    && (s.phase == Ended ==> s.after)
    && s.ran <= Reverse(s.hooks)
    && (s.after ==> s.ran == Reverse(s.hooks) && !s.hookFailed && (s.phase == Ended || s.phase == Failed))
    && (s.hookFailed ==> s.phase == Failed && s.ran != [] && !s.after)
  }

  ghost predicate Inv(s: State) {
    InvTasks(s) && InvHooks(s)
  }

  lemma StepKeepsTasks(s: State, a: Action)
    requires Inv(s) && Next(s, a).Some?
    ensures InvTasks(Next(s, a).value)
  {
    match a
    case Spawn =>
    case Finish(t, panics) =>
    case Join =>
    case PublishBefore(ok) =>
      ShutdownNeedsAllJoined(s, a);
    case RunHook(ok) =>
    case PublishAfter(ok) =>
  }

  lemma StepKeepsHooks(s: State, a: Action)
    requires Inv(s) && Next(s, a).Some?
    ensures InvHooks(Next(s, a).value)
  {
  }

  lemma RunKeepsInv(tasks: seq<Job>, hooks: seq<Job>, acts: seq<Action>)
    ensures Exec(Next, Start(tasks, hooks), acts).Some? ==> Inv(Exec(Next, Start(tasks, hooks), acts).value)
  {
    forall s, a | Inv(s) && Next(s, a).Some?
      ensures Inv(Next(s, a).value)
    {
      StepKeepsTasks(s, a);
      StepKeepsHooks(s, a);
    }
    Always(Next, (s: State) => Inv(s), Start(tasks, hooks), acts);
  }

  // ---- What every run guarantees ----

  ghost predicate IsRun(tasks: seq<Job>, hooks: seq<Job>, acts: seq<Action>, s: State) {
    Exec(Next, Start(tasks, hooks), acts) == Some(s)
  }

  lemma RunStep(tasks: seq<Job>, hooks: seq<Job>, acts: seq<Action>, s: State, a: Action)
    requires IsRun(tasks, hooks, acts, s) && Next(s, a).Some?
    ensures IsRun(tasks, hooks, acts + [a], Next(s, a).value)
  {
    Extend(Next, Start(tasks, hooks), acts, s, a);
  }

  predicate Shutdown(a: Action) {
    a.PublishBefore? || a.RunHook? || a.PublishAfter?
  }

  /** The state remembers the actions: completions, panics and the start of the shutdown. */
  lemma {:induction false} StateRemembers(tasks: seq<Job>, hooks: seq<Job>, acts: seq<Action>, s: State)
    requires IsRun(tasks, hooks, acts, s)
    ensures s.tasks == tasks && s.hooks == hooks
    ensures forall t :: t in s.finished ==> Finish(t, t in s.panicked) in acts
    ensures forall t: nat :: Finish(t, true) in acts ==> t in s.panicked
    ensures forall a :: a in acts && Shutdown(a) ==> s.before
  {
    if acts != [] {
      var pre, a := acts[..|acts| - 1], acts[|acts| - 1];
      StateRemembers(tasks, hooks, pre, Exec(Next, Start(tasks, hooks), pre).value);
      RunKeepsInv(tasks, hooks, pre);
      assert forall x :: x in acts <==> x in pre || x == a;
    }
  }

  lemma ShutdownNeedsAllJoined(s: State, a: Action)
    requires Inv(s) && Shutdown(a) && Next(s, a).Some?
    ensures AllJoined(s)
  {
    assert forall t :: t in s.panicked ==> 0 <= t < |s.spawned|;
  }

  lemma SpawnedAll(tasks: seq<Job>, hooks: seq<Job>, acts: seq<Action>, s: State)
    requires IsRun(tasks, hooks, acts, s) && s.phase != Spawning
    ensures s.spawned == tasks
  {
    StateRemembers(tasks, hooks, acts, s);
    RunKeepsInv(tasks, hooks, acts);
  }

  /** Before the shutdown sequence starts, no hook has run. */
  lemma JoinedState(tasks: seq<Job>, hooks: seq<Job>, acts: seq<Action>, s: State)
    requires IsRun(tasks, hooks, acts, s)
    ensures s.tasks == tasks && s.hooks == hooks
    ensures s.phase == Joining ==> !s.before
    ensures !s.before ==> s.ran == []
  {
    StateRemembers(tasks, hooks, acts, s);
    RunKeepsInv(tasks, hooks, acts);
  }

  /** Whatever the interleaving, a shutdown event or hook comes only after every task has finished normally. */
  lemma ShutdownWaitsForTasks(tasks: seq<Job>, hooks: seq<Job>, acts: seq<Action>, s: State, k: nat)
    requires IsRun(tasks, hooks, acts, s)
    requires k < |acts| && Shutdown(acts[k])
    ensures forall t: nat :: t < |tasks| ==> Finish(t, false) in acts[..k]
  {
    var pre := acts[..k];
    PossibleAt(Next, Start(tasks, hooks), acts, k);
    var m := Exec(Next, Start(tasks, hooks), pre).value;
    StateRemembers(tasks, hooks, pre, m);
    RunKeepsInv(tasks, hooks, pre);
    ShutdownNeedsAllJoined(m, acts[k]);
    forall t: nat | t < |tasks|
      ensures Finish(t, false) in pre
    {
      assert t in m.finished && t !in m.panicked;
    }
  }

  /** If any task panics, neither shutdown event is published and no hook runs, in any interleaving. */
  lemma PanicMeansNoShutdown(tasks: seq<Job>, hooks: seq<Job>, acts: seq<Action>, s: State, t: nat)
    requires IsRun(tasks, hooks, acts, s)
    requires Finish(t, true) in acts
    ensures forall a :: a in acts ==> !Shutdown(a)
    ensures s.ran == [] && s.phase != Ended
  {
    StateRemembers(tasks, hooks, acts, s);
    RunKeepsInv(tasks, hooks, acts);
  }

  /** The hooks run so far are the last-registered ones, newest first; a failing hook is the last
      to run and AfterHooks is then never published; the run ends well exactly when all have run. */
  lemma HooksRunNewestFirst(tasks: seq<Job>, hooks: seq<Job>, acts: seq<Action>, s: State)
    requires IsRun(tasks, hooks, acts, s)
    ensures s.ran <= Reverse(hooks)
    ensures s.hookFailed ==> PublishAfter(true) !in acts && PublishAfter(false) !in acts && s.phase == Failed
    ensures s.phase == Ended ==> s.ran == Reverse(hooks) && s.spawned == tasks
    ensures PublishAfter(true) in acts || PublishAfter(false) in acts ==> s.ran == Reverse(hooks)
  {
    StateRemembers(tasks, hooks, acts, s);
    RunKeepsInv(tasks, hooks, acts);
    AfterIsLogged(tasks, hooks, acts, s);
  }

  lemma {:induction false} AfterIsLogged(tasks: seq<Job>, hooks: seq<Job>, acts: seq<Action>, s: State)
    requires IsRun(tasks, hooks, acts, s)
    ensures s.after <==> PublishAfter(true) in acts || PublishAfter(false) in acts
  {
    if acts != [] {
      var pre := acts[..|acts| - 1];
      var m := Exec(Next, Start(tasks, hooks), pre).value;
      AfterIsLogged(tasks, hooks, pre, m);
      AfterSet(m, acts[|acts| - 1]);
      Logged(acts, PublishAfter(true));
      Logged(acts, PublishAfter(false));
    }
  }

  lemma AfterSet(s: State, a: Action)
    requires Next(s, a).Some?
    ensures Next(s, a).value.after <==> s.after || a == PublishAfter(true) || a == PublishAfter(false)
  {
  }

  lemma Logged(acts: seq<Action>, a: Action)
    requires acts != []
    ensures a in acts <==> a in acts[..|acts| - 1] || a == acts[|acts| - 1]
  {
  }

  predicate Halted(s: State) {
    s.phase == Ended || s.phase == Failed
  }

  /** How a run ends is decided by the answers in it: well exactly if AfterHooks was taken, and a refused event or
      a failing hook ends it, the refused BeforeHooks before any hook. */
  lemma {:induction false} AnswersDecide(tasks: seq<Job>, hooks: seq<Job>, acts: seq<Action>, s: State)
    requires IsRun(tasks, hooks, acts, s)
    ensures s.phase == Ended <==> PublishAfter(true) in acts
    ensures PublishBefore(false) in acts ==> s.ran == [] && s.phase == Failed
    ensures RunHook(false) in acts || PublishAfter(false) in acts ==> s.phase == Failed
  {
    if acts != [] {
      var pre, a := acts[..|acts| - 1], acts[|acts| - 1];
      AnswersDecide(tasks, hooks, pre, Exec(Next, Start(tasks, hooks), pre).value);
      RunKeepsInv(tasks, hooks, pre);
      assert forall x :: x in acts <==> x in pre || x == a;
    }
  }

  // ---- What the outside answers ----

  /** What is not the application's to decide: whether its events are taken, which task panics, and what the hook
      at each place of the list answers. */
  datatype Answers = Answers(built: bool, panics: nat -> bool, before: bool, hookOk: nat -> bool, after: bool)

  /** The states of the tasks are those that `answers` tells. */
  ghost predicate Told(s: State, answers: Answers) {
    forall t :: t in s.finished ==> (t in s.panicked <==> answers.panics(t))
  }

  ghost predicate AnyPanics(answers: Answers, tasks: nat) {
    exists t: nat :: t < tasks && answers.panics(t)
  }

  /** From the last of `n` hooks downwards `k` are run: up to the first that fails, or all. */
  ghost predicate StopsAfter(answers: Answers, n: nat, k: nat) {
    && k <= n && (forall i :: n - k < i < n ==> answers.hookOk(i))
    && (k < n ==> k > 0 && !answers.hookOk(n - k))
  }

  /** The last `k` of `n` hooks have answered, and only the lowest of them may have failed. */
  ghost predicate AnswersSoFar(answers: Answers, n: nat, k: nat, failed: bool) {
    && k <= n && (forall i :: n - k < i < n ==> answers.hookOk(i))
    && (if k > 0 then answers.hookOk(n - k) <==> !failed else !failed)
  }

  lemma AnswersGoOn(answers: Answers, n: nat, k: nat, ok: bool)
    requires k < n && AnswersSoFar(answers, n, k, false) && ok == answers.hookOk(n - k - 1)
    ensures AnswersSoFar(answers, n, k + 1, !ok)
  {
  }

  /** Everything goes well: the events, every task and every hook. */
  ghost predicate EndsWell(answers: Answers, tasks: nat, hooks: nat) {
    && answers.built && !AnyPanics(answers, tasks)
    && answers.before && (forall i: nat :: i < hooks ==> answers.hookOk(i)) && answers.after
  }

  /** The protocol never deadlocks: until it ends, some thread can step. */
  lemma NeverStuck(tasks: seq<Job>, hooks: seq<Job>, acts: seq<Action>, s: State)
    requires IsRun(tasks, hooks, acts, s) && !Halted(s)
    ensures exists a :: Next(s, a).Some?
  {
    RunKeepsInv(tasks, hooks, acts);
    var a := match s.phase
      case Spawning => Spawn
      case Joining =>
        if s.handles == 0 then PublishBefore(true)
        else if s.handles - 1 in s.finished then Join
        else Finish(s.handles - 1, false)
      case _ => if |s.ran| < |s.hooks| then RunHook(true) else PublishAfter(true);
    assert Next(s, a).Some?;
  }
}
