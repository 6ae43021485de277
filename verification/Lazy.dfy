/**
 `LazyComponent::get` as a protocol: any number of threads, through any number of clones of one lazy
 component (clones share its cell), doing double-checked locking over a read-write lock, while the
 global application may be replaced at any time.
 */
module Lazy {
  import opened Machine

  datatype Answer<+V> = Got(value: V) | Missing | Seen(content: Option<V>)

  /** Where a call is; `peek` marks `get_if_initialized`, which only takes the read lock. */
  datatype Pc<+V> =
    | WantRead(peek: bool)
    | HasRead(peek: bool)
    | WantWrite
    | HasWrite              // write lock held, cell not looked at again yet
    | CellEmpty             // write lock held, cell found empty
    | Resolved(found: V)    // write lock held, component found in the registry
    | Finished(answer: Answer<V>)

  /** `writes` counts stores into the cell and `lookups` successful registry lookups. */
  datatype State<V> = State(
    cell: Option<V>, writer: Option<nat>, readers: set<nat>, threads: map<nat, Pc<V>>,
    registered: Option<V>, writes: nat, lookups: nat)

  datatype Action<+V> =
    | Begin(id: nat, peek: bool)
    | Step(id: nat)
    | ReplaceApp(component: Option<V>)

  function Start<V>(): State<V> {
    State(None, None, {}, map[], None, 0, 0)
  }

  function To<V>(s: State<V>, id: nat, pc: Pc<V>): State<V> {
    s.(threads := s.threads[id := pc])
  }

  /** Drops the write lock on the way out. */
  function Finish<V>(s: State<V>, id: nat, answer: Answer<V>): State<V> {
    To(s, id, Finished(answer)).(writer := None)
  }

  function Next<V(==)>(s: State<V>, a: Action<V>): Option<State<V>> {
    match a
    case Begin(id, peek) => if id in s.threads then None else Some(To(s, id, WantRead(peek)))
    case ReplaceApp(component) => Some(s.(registered := component))
    case Step(id) =>
      if id !in s.threads then None
      else
        match s.threads[id]
        case WantRead(peek) =>
          if s.writer.Some? then None else Some(To(s, id, HasRead(peek)).(readers := s.readers + {id}))
        case HasRead(peek) =>
          var s' := s.(readers := s.readers - {id});
          if peek then Some(To(s', id, Finished(Seen(s.cell))))
          else if s.cell.Some? then Some(To(s', id, Finished(Got(s.cell.value))))
          else Some(To(s', id, WantWrite))
        case WantWrite =>
          if s.writer.Some? || s.readers != {} then None else Some(To(s, id, HasWrite).(writer := Some(id)))
        case HasWrite =>
          if s.cell.Some? then Some(Finish(s, id, Got(s.cell.value))) else Some(To(s, id, CellEmpty))
        case CellEmpty =>
          match s.registered {
            case None => Some(Finish(s, id, Missing))
            case Some(v) => Some(To(s, id, Resolved(v)).(lookups := s.lookups + 1))
          }
        case Resolved(v) =>
          Some(Finish(s, id, Got(v)).(cell := Some(v), writes := s.writes + 1))
        case Finished(_) => None
  }

  predicate Writing<V>(pc: Pc<V>) {
    pc.HasWrite? || pc.CellEmpty? || pc.Resolved?
  }

  ghost predicate ThreadOk<V>(s: State<V>, id: nat)
    requires id in s.threads
  {
    && (Writing(s.threads[id]) <==> s.writer == Some(id))
    && (s.threads[id].HasRead? <==> id in s.readers)
    && match s.threads[id]
       case CellEmpty => s.cell == None
       case Resolved(_) => s.cell == None
       case Finished(Got(v)) => s.cell == Some(v)
       case Finished(Seen(Some(v))) => s.cell == Some(v)
       case _ => true
  }

  ghost predicate Inv<V>(s: State<V>) {
    && (forall id :: id in s.threads ==> ThreadOk(s, id))
    && (s.writer.Some? ==> s.writer.value in s.threads && s.readers == {})
    && (forall id :: id in s.readers ==> id in s.threads)
    && s.writes == (if s.cell.Some? then 1 else 0)
    && s.lookups == s.writes + if s.writer.Some? && s.threads[s.writer.value].Resolved? then 1 else 0
  }

  /** An empty cell may be filled; a full one never changes. */
  predicate Grows<V(==)>(before: Option<V>, after: Option<V>) {
    before.Some? ==> after == before
  }

  lemma StepKeepsInv<V>(s: State<V>, a: Action<V>)
    requires Inv(s) && Next(s, a).Some?
    ensures Inv(Next(s, a).value)
    ensures Grows(s.cell, Next(s, a).value.cell)
  {
    var s' := Next(s, a).value;
    if a.Step? {
      assert ThreadOk(s, a.id);
      forall id | id in s'.threads
        ensures ThreadOk(s', id)
      {
        assert ThreadOk(s, id);
      }
    }
  }

  ghost predicate IsRun<V>(acts: seq<Action<V>>, s: State<V>) {
    Exec(Next, Start(), acts) == Some(s)
  }

  lemma RunKeepsInv<V(!new)>(acts: seq<Action<V>>, s: State<V>)
    requires IsRun(acts, s)
    ensures Inv(s)
  {
    forall m: State<V>, a: Action<V> | Inv(m) && Next(m, a).Some?
      ensures Inv(Next(m, a).value)
    {
      StepKeepsInv(m, a);
    }
    Always(Next, (m: State<V>) => Inv(m), Start(), acts);
  }

  ghost predicate Succeeded<V>(s: State<V>, id: nat) {
    id in s.threads && s.threads[id].Finished? && s.threads[id].answer.Got?
  }

  /** In every run: the cell is written at most once and at most one lookup succeeds, all successful
      gets agree with the cell and so with each other. */
  lemma OneValueForAll<V(!new)>(acts: seq<Action<V>>, s: State<V>)
    requires IsRun(acts, s)
    ensures s.writes <= 1 && s.lookups <= 1
    ensures forall i, j :: Succeeded(s, i) && Succeeded(s, j) ==> s.threads[i].answer == s.threads[j].answer
    ensures forall i :: Succeeded(s, i) ==> s.cell == Some(s.threads[i].answer.value)
  {
    RunKeepsInv(acts, s);
    forall i | Succeeded(s, i)
      ensures s.cell == Some(s.threads[i].answer.value)
    {
      assert ThreadOk(s, i);
    }
    if s.writer.Some? {
      assert ThreadOk(s, s.writer.value);
    }
  }

  /** A get that fails leaves the cell as empty as it found it, and fails only if the application
      registered at that moment has no such component. */
  lemma FailureLeavesCellEmpty<V(!new)>(acts: seq<Action<V>>, s: State<V>, id: nat)
    requires IsRun(acts, s) && Next(s, Step(id)).Some?
    requires Next(s, Step(id)).value.threads[id] == Finished(Missing)
    ensures s.cell == None && Next(s, Step(id)).value.cell == None && s.registered == None
  {
    RunKeepsInv(acts, s);
    assert ThreadOk(s, id);
  }

  /** No deadlock: while some call is unfinished, some call can step. */
  lemma NeverStuck<V(!new)>(acts: seq<Action<V>>, s: State<V>, id: nat)
    requires IsRun(acts, s) && id in s.threads && !s.threads[id].Finished?
    ensures exists other :: other in s.threads && !s.threads[other].Finished? && Next(s, Step(other)).Some?
  {
    RunKeepsInv(acts, s);
    assert ThreadOk(s, id);
    if s.writer.Some? {
      assert ThreadOk(s, s.writer.value);
      assert Next(s, Step(s.writer.value)).Some?;
    } else if s.readers != {} {
      var r :| r in s.readers;
      assert ThreadOk(s, r);
      assert Next(s, Step(r)).Some?;
    } else {
      assert Next(s, Step(id)).Some?;
    }
  }

  function Remaining<V>(pc: Pc<V>): nat {
    match pc
    case WantRead(_) => 6
    case HasRead(_) => 5
    case WantWrite => 4
    case HasWrite => 3
    case CellEmpty => 2
    case Resolved(_) => 1
    case Finished(_) => 0
  }

  function StepsOf<V(==)>(acts: seq<Action<V>>, id: nat): nat {
    if acts == [] then 0
    else StepsOf(acts[..|acts| - 1], id) + if acts[|acts| - 1] == Step(id) then 1 else 0
  }

  lemma StepsCount<V>(s: State<V>, a: Action<V>, id: nat)
    requires Next(s, a).Some?
    ensures var s' := Next(s, a).value;
      if a == Step(id) then id in s.threads && id in s'.threads && Remaining(s'.threads[id]) < Remaining(s.threads[id])
      else if id in s.threads then id in s'.threads && s'.threads[id] == s.threads[id]
      else id in s'.threads ==> s'.threads[id].WantRead?
  {
  }

  /** No livelock either: a call takes at most six steps of its own, whatever the others do. With
      `NeverStuck`, every run can only end with all calls finished. */
  lemma {:induction false} SixStepsAtMost<V>(acts: seq<Action<V>>, s: State<V>, id: nat)
    requires IsRun(acts, s)
    ensures id !in s.threads ==> StepsOf(acts, id) == 0
    ensures id in s.threads ==> StepsOf(acts, id) + Remaining(s.threads[id]) <= 6
  {
    if acts != [] {
      var m := Exec(Next, Start(), acts[..|acts| - 1]).value;
      SixStepsAtMost(acts[..|acts| - 1], m, id);
      StepsCount(m, acts[|acts| - 1], id);
    }
  }

  /** What a look at the cell answers is what the cell holds at that moment, full or empty. */
  lemma PeekSeesCell<V(!new)>(acts: seq<Action<V>>, s: State<V>, id: nat, content: Option<V>)
    requires IsRun(acts, s) && Next(s, Step(id)).Some?
    requires Next(s, Step(id)).value.threads[id] == Finished(Seen(content))
    ensures content == s.cell && Next(s, Step(id)).value.cell == s.cell
  {
    RunKeepsInv(acts, s);
    assert ThreadOk(s, id);
  }

  // ---- The method itself ----

  lemma WriterCanStep<V(!new)>(acts: seq<Action<V>>, s: State<V>)
    requires IsRun(acts, s) && s.writer.Some?
    ensures s.writer.value in s.threads && Next(s, Step(s.writer.value)).Some?
    ensures var s' := Next(s, Step(s.writer.value)).value;
      s'.writer.Some? ==>
        s'.writer == s.writer && Remaining(s'.threads[s.writer.value]) < Remaining(s.threads[s.writer.value])
  {
    RunKeepsInv(acts, s);
    assert ThreadOk(s, s.writer.value);
  }

  lemma StepsSnoc<V>(acts: seq<Action<V>>, a: Action<V>, id: nat)
    ensures StepsOf(acts + [a], id) == StepsOf(acts, id) + if a == Step(id) then 1 else 0
  {
    assert (acts + [a])[..|acts|] == acts;
  }

  lemma OthersLeaveThread<V>(s: State<V>, a: Action<V>, id: nat)
    requires id in s.threads && Next(s, a).Some? && a != Step(id)
    ensures id in Next(s, a).value.threads && Next(s, a).value.threads[id] == s.threads[id]
  {
  }

  /** All clones share one cell; `state` is the cell, its lock and the threads at work on it. */
  class LazyComponent<V(==,!new)> {
    var state: State<V>
    ghost var acts: seq<Action<V>>

    ghost predicate Valid()
      reads this
    {
      IsRun(acts, state)
    }

    /** The call `id` is at `pc` after `steps` steps of its own. */
    ghost predicate ThreadAt(id: nat, pc: Pc<V>, steps: nat)
      reads this
    {
      Valid() && id in state.threads && state.threads[id] == pc && StepsOf(acts, id) == steps
    }

    /** Nobody holds the lock. */
    predicate Free()
      reads this
    {
      state.writer == None && state.readers == {}
    }

    constructor ()
      ensures Valid() && state == Start() && acts == []
    {
      state, acts := Start(), [];
    }

    method Do(a: Action<V>)
      requires Valid() && Next(state, a).Some?
      modifies this
      ensures Valid() && state == Next(old(state), a).value && acts == old(acts) + [a]
      ensures Grows(old(state.cell), state.cell)
      ensures forall id :: StepsOf(acts, id) == StepsOf(old(acts), id) + if a == Step(id) then 1 else 0
    {
      Extend(Next, Start(), acts, state, a);
      RunKeepsInv(acts, state);
      StepKeepsInv(state, a);
      forall id {
        StepsSnoc(acts, a, id);
      }
      state, acts := Next(state, a).value, acts + [a];
    }

    /** Steps of other threads, new calls and replacements of the application, in any number and order. */
    method LetOthersRun(id: nat, others: seq<Action<V>>)
      requires Valid() && id in state.threads
      modifies this
      ensures ThreadAt(id, old(state.threads[id]), StepsOf(old(acts), id)) && old(acts) <= acts
      ensures Grows(old(state.cell), state.cell) && (others == [] ==> state == old(state))
    {
      for k := 0 to |others|
        invariant ThreadAt(id, old(state.threads[id]), StepsOf(old(acts), id)) && old(acts) <= acts
        invariant Grows(old(state.cell), state.cell) && (k == 0 ==> state == old(state))
      {
        if Next(state, others[k]).Some? && others[k] != Step(id) {
          OthersLeaveThread(state, others[k], id);
          Do(others[k]);
        }
      }
    }

    /** Whoever holds the lock lets go of it in a finite number of steps of its own. */
    method AwaitWriter(id: nat)
      requires Valid() && id in state.threads && state.writer != Some(id)
      modifies this
      ensures ThreadAt(id, old(state.threads[id]), StepsOf(old(acts), id)) && old(acts) <= acts
      ensures state.writer == None && Grows(old(state.cell), state.cell)
      ensures old(state.writer) == None ==> state == old(state)
    {
      while state.writer.Some?
        invariant ThreadAt(id, old(state.threads[id]), StepsOf(old(acts), id)) && old(acts) <= acts
        invariant state.writer != Some(id) && Grows(old(state.cell), state.cell)
        invariant old(state.writer) == None ==> state == old(state)
        decreases if state.writer.Some? && state.writer.value in state.threads
                  then Remaining(state.threads[state.writer.value]) + 1 else 0
      {
        WriterCanStep(acts, state);
        OthersLeaveThread(state, Step(state.writer.value), id);
        Do(Step(state.writer.value));
      }
    }

    method AwaitReaders(id: nat)
      requires Valid() && id in state.threads && state.writer == None && id !in state.readers
      modifies this
      ensures ThreadAt(id, old(state.threads[id]), StepsOf(old(acts), id)) && old(acts) <= acts
      ensures Free() && Grows(old(state.cell), state.cell)
      ensures old(state.readers) == {} ==> state == old(state)
    {
      while state.readers != {}
        invariant ThreadAt(id, old(state.threads[id]), StepsOf(old(acts), id)) && old(acts) <= acts
        invariant state.writer == None && id !in state.readers && Grows(old(state.cell), state.cell)
        invariant old(state.readers) == {} ==> state == old(state)
        decreases |state.readers|
      {
        RunKeepsInv(acts, state);
        var r :| r in state.readers;
        assert ThreadOk(state, r);
        OthersLeaveThread(state, Step(r), id);
        Do(Step(r));
      }
    }

    /** Takes the read lock, looks at the cell, and lets go of the lock. */
    method Read(id: nat, others: seq<Action<V>>) returns (content: Option<V>)
      requires Valid() && id in state.threads && state.threads[id].WantRead?
      modifies this
      ensures old(acts) <= acts && content == state.cell && Grows(old(state.cell), state.cell)
      ensures ThreadAt(id,
        if old(state.threads[id].peek) then Finished(Seen(content))
        else if content.Some? then Finished(Got(content.value)) else WantWrite, StepsOf(old(acts), id) + 2)
      ensures others == [] && old(Free()) ==>
        Free() && state.cell == old(state.cell) && state.registered == old(state.registered)
    {
      LetOthersRun(id, others);
      NoLockWithout(id);
      AwaitWriter(id);
      Do(Step(id));
      content := state.cell;
      Do(Step(id));
    }

    lemma NoLockWithout(id: nat)
      requires Valid() && id in state.threads && (state.threads[id].WantRead? || state.threads[id].WantWrite?)
      ensures state.writer != Some(id) && id !in state.readers
    {
      RunKeepsInv(acts, state);
      assert ThreadOk(state, id);
    }

    method TakeWriteLock(id: nat, others: seq<Action<V>>)
      requires Valid() && id in state.threads && state.threads[id].WantWrite?
      modifies this
      ensures old(acts) <= acts && Valid() && id in state.threads && state.threads[id].HasWrite?
      ensures others == [] && old(Free()) ==>
        state.cell == old(state.cell) && state.registered == old(state.registered)
    {
      LetOthersRun(id, others);
      NoLockWithout(id);
      AwaitWriter(id);
      NoLockWithout(id);
      AwaitReaders(id);
      Do(Step(id));
    }

    /** With the write lock held: looks again, else asks the registry and fills the cell. */
    method Resolve(id: nat, others: seq<Action<V>>) returns (r: Option<V>)
      requires Valid() && id in state.threads && state.threads[id].HasWrite?
      modifies this
      ensures Valid() && old(acts) <= acts && r == state.cell && (old(state.cell).Some? ==> r == old(state.cell))
      ensures id in state.threads && state.threads[id] == Finished(if r.Some? then Got(r.value) else Missing)
      ensures others == [] && old(state.cell) == None ==> r == old(state.registered)
    {
      RunKeepsInv(acts, state);
      assert ThreadOk(state, id);
      if state.cell.Some? {
        r := state.cell;
        Do(Step(id));
        return;
      }
      Do(Step(id));
      LetOthersRun(id, others);
      RunKeepsInv(acts, state);
      assert ThreadOk(state, id);
      r := state.registered;
      Do(Step(id));
      if r.Some? {
        Do(Step(id));
      }
    }

    /**
     `get`, as the call `id` of a run in which `before` and `between` are done by others while it waits for
     the two locks, and `during` while it holds the second: new calls and replacements of the application.
     It returns what the cell holds when it is done; a full cell costs two steps, the read lock only; and left
     alone with an empty cell it asks the application.
     */
    method Get(id: nat, before: seq<Action<V>>, between: seq<Action<V>>, during: seq<Action<V>>) returns (r: Option<V>)
      requires Valid() && id !in state.threads
      modifies this
      ensures Valid() && old(acts) + [Begin(id, false)] <= acts
      ensures id in state.threads && state.threads[id] == Finished(if r.Some? then Got(r.value) else Missing)
      ensures r == state.cell
      ensures old(state.cell).Some? ==> r == old(state.cell) && StepsOf(acts, id) == 2
      ensures before == between == during == [] && old(Free()) && old(state.cell) == None ==> r == old(state.registered)
    {
      SixStepsAtMost(acts, state, id);
      Do(Begin(id, false));
      var guard := Read(id, before);
      if guard.Some? {
        return guard;
      }
      TakeWriteLock(id, between);
      r := Resolve(id, during);
    }

    /** `get_if_initialized`: what the cell holds; once it is full, that value. */
    method GetIfInitialized(id: nat, before: seq<Action<V>>) returns (r: Option<V>)
      requires Valid() && id !in state.threads
      modifies this
      ensures Valid() && old(acts) + [Begin(id, true)] <= acts
      ensures id in state.threads && state.threads[id] == Finished(Seen(r))
      ensures r == state.cell && StepsOf(acts, id) == 2
      ensures old(state.cell).Some? ==> r == old(state.cell)
    {
      SixStepsAtMost(acts, state, id);
      Do(Begin(id, true));
      r := Read(id, before);
    }
  }
}
