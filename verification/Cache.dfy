/**
 The body that `#[cache]` puts around a function: look the key up, else compute, then store.
 Any number of callers run it at once against one store whose entries may expire, fail to be read
 or written, or be undecodable.
 */
module Cache {
  import opened Machine

  datatype Outcome<+V, +E> = Ok(value: V) | Err(error: E)

  /**
   The cached functions that share a store. An `A` says which of them is called and with what arguments, so
   each has its own key format, conditions and way to encode and decode. `foreign` are the texts that others
   may leave under a key. The wrapper for a function that does not return `Result` is the same protocol
   with an `f` that always gives `Ok`.
   */
  datatype Cached<!A, !K, !V, !E, !T> = Cached(
    f: A -> Outcome<V, E>, key: A -> K,
    condition: A -> bool, unless: (A, V) -> bool,
    encode: (A, V) -> Option<T>, decode: (A, T) -> Option<V>, foreign: (K, T) -> bool)

  datatype Pc<+V, +E, +T> =
    | Direct                       // condition false: caching bypassed
    | Lookup
    | Compute
    | Store(value: V, text: T)
    | Done(result: Outcome<V, E>)

  datatype Call<+A, +V, +E, +T> = Call(args: A, pc: Pc<V, E, T>)

  datatype State<A, K, V, E, T> = State(store: map<K, T>, calls: map<nat, Call<A, V, E, T>>)

  datatype Action<A, K, T> =
    | Enter(id: nat, args: A)
    | Bypass(id: nat)
    | Get(id: nat, answered: bool)        // false: the read failed
    | Run(id: nat)
    | Set(id: nat, reaches: bool)         // false: the write failed
    | Expire(key: K)
    | Spoil(key: K, text: T)              // someone else leaves a text

  function Reached<A, K, V, E, T>(c: Cached<A, K, V, E, T>, args: A): Pc<V, E, T> {
    match c.f(args)
    case Err(e) => Done(Err(e))
    case Ok(v) =>
      if c.unless(args, v) then Done(Ok(v))
      else
        match c.encode(args, v)
        case None => Done(Ok(v))
        case Some(t) => Store(v, t)
  }

  function Found<A, K(==), V, E, T>(c: Cached<A, K, V, E, T>, store: map<K, T>, args: A): Pc<V, E, T> {
    var key := c.key(args);
    if key !in store then Compute
    else
      match c.decode(args, store[key])
      case None => Compute
      case Some(v) => Done(Ok(v))
  }

  function Next<A, K(==), V(==), E(==), T(==)>(c: Cached<A, K, V, E, T>, s: State<A, K, V, E, T>, a: Action<A, K, T>)
    : Option<State<A, K, V, E, T>>
  {
    match a
    case Enter(id, args) =>
      if id in s.calls then None
      else Some(s.(calls := s.calls[id := Call(args, if c.condition(args) then Lookup else Direct)]))
    case Bypass(id) =>
      if id !in s.calls || s.calls[id].pc != Direct then None
      else Some(At(s, id, Done(c.f(s.calls[id].args))))
    case Get(id, answered) =>
      if id !in s.calls || s.calls[id].pc != Lookup then None
      else Some(At(s, id, if answered then Found(c, s.store, s.calls[id].args) else Compute))
    case Run(id) =>
      if id !in s.calls || s.calls[id].pc != Compute then None
      else Some(At(s, id, Reached(c, s.calls[id].args)))
    case Set(id, reaches) =>
      if id !in s.calls || !s.calls[id].pc.Store? then None
      else
        var Store(v, t) := s.calls[id].pc;
        var s' := At(s, id, Done(Ok(v)));
        Some(if reaches then s'.(store := s.store[c.key(s.calls[id].args) := t]) else s')
    case Expire(key) => Some(s.(store := s.store - {key}))
    case Spoil(key, t) => if c.foreign(key, t) then Some(s.(store := s.store[key := t])) else None
  }

  function At<A, K, V, E, T>(s: State<A, K, V, E, T>, id: nat, pc: Pc<V, E, T>): State<A, K, V, E, T>
    requires id in s.calls
  {
    s.(calls := s.calls[id := Call(s.calls[id].args, pc)])
  }

  function Protocol<A, K(==), V(==), E(==), T(==)>(c: Cached<A, K, V, E, T>)
    : (State<A, K, V, E, T>, Action<A, K, T>) -> Option<State<A, K, V, E, T>>
  {
    (s, a) => Next(c, s, a)
  }

  /** `b` would read the text `t` as something its function does not answer. */
  ghost predicate Misread<A, K, V, E, T>(c: Cached<A, K, V, E, T>, b: A, t: T) {
    c.condition(b) && c.decode(b, t).Some? && c.f(b) != Ok(c.decode(b, t).value)
  }

  /** Every entry that decodes holds the right, non-error value for every caller that may read it. */
  ghost predicate GoodStore<A(!new), K, V, E, T>(c: Cached<A, K, V, E, T>, store: map<K, T>) {
    forall b :: c.key(b) in store ==> !Misread(c, b, store[c.key(b)])
  }

  /** `a` stores a text where `b` reads. */
  ghost predicate Feeds<A, K, V, E, T>(c: Cached<A, K, V, E, T>, a: A, b: A) {
    c.condition(a) && Reached(c, a).Store? && c.key(a) == c.key(b)
  }

  /** Whatever a call stores, and whatever others leave, is right for every call that reads it. */
  ghost predicate Sound<A(!new), K, V, E, T(!new)>(c: Cached<A, K, V, E, T>) {
    && (forall a, b :: Feeds(c, a, b) ==> !Misread(c, b, Reached(c, a).text))
    && forall b, t :: c.foreign(c.key(b), t) ==> !Misread(c, b, t)
  }

  /** Two calls, of one function or of two, with the same key. */
  ghost predicate Share<A, K, V, E, T>(c: Cached<A, K, V, E, T>, a: A, b: A) {
    c.condition(a) && c.condition(b) && c.key(a) == c.key(b)
  }

  /** The usual reason: keys do not merge calls with different results or different encodings, decoding undoes
      encoding, and what others leave does not decode. */
  lemma FaithfulIsSound<A(!new), K, V(!new), E, T(!new)>(c: Cached<A, K, V, E, T>)
    requires forall a, b :: Share(c, a, b) ==> c.f(a) == c.f(b)
    requires forall a, b, v :: Share(c, a, b) && c.encode(a, v).Some? ==> c.decode(b, c.encode(a, v).value) == Some(v)
    requires forall b, t :: c.foreign(c.key(b), t) ==> c.decode(b, t) == None
    ensures Sound(c)
  {
    forall a, b | Feeds(c, a, b)
      ensures !Misread(c, b, Reached(c, a).text)
    {
      if c.condition(b) {
        assert Share(c, a, b);
      }
    }
  }

  /** What a call knows at each of its steps, in any cache. */
  ghost predicate Shape<A, K, V, E, T>(c: Cached<A, K, V, E, T>, call: Call<A, V, E, T>) {
    match call.pc
    case Direct => !c.condition(call.args)
    case Lookup => c.condition(call.args)
    case Compute => c.condition(call.args)
    case Store(v, t) => c.condition(call.args) && Reached(c, call.args) == Store(v, t)
    case Done(_) => true
  }

  ghost predicate Shaped<A, K, V, E, T>(c: Cached<A, K, V, E, T>, s: State<A, K, V, E, T>) {
    forall id :: id in s.calls ==> Shape(c, s.calls[id])
  }

  /** Every finished call returned what the plain function returns. */
  ghost predicate Honest<A, K, V, E, T>(c: Cached<A, K, V, E, T>, s: State<A, K, V, E, T>) {
    forall id :: id in s.calls && s.calls[id].pc.Done? ==> s.calls[id].pc.result == c.f(s.calls[id].args)
  }

  ghost predicate Inv<A(!new), K, V, E, T>(c: Cached<A, K, V, E, T>, s: State<A, K, V, E, T>) {
    GoodStore(c, s.store) && Shaped(c, s) && Honest(c, s)
  }

  lemma StoringStaysGood<A(!new), K, V, E, T(!new)>(c: Cached<A, K, V, E, T>, args: A, store: map<K, T>)
    requires Sound(c) && GoodStore(c, store) && c.condition(args) && Reached(c, args).Store?
    ensures GoodStore(c, store[c.key(args) := Reached(c, args).text])
  {
    var t := Reached(c, args).text;
    forall b | c.key(b) == c.key(args)
      ensures !Misread(c, b, t)
    {
      assert Feeds(c, args, b);
    }
  }

  lemma StepKeepsShape<A, K, V, E, T>(c: Cached<A, K, V, E, T>, s: State<A, K, V, E, T>, a: Action<A, K, T>)
    requires Shaped(c, s) && Next(c, s, a).Some?
    ensures Shaped(c, Next(c, s, a).value)
  {
  }

  lemma StepKeepsInv<A(!new), K, V, E, T(!new)>(c: Cached<A, K, V, E, T>, s: State<A, K, V, E, T>, a: Action<A, K, T>)
    requires Sound(c) && Inv(c, s) && Next(c, s, a).Some?
    ensures Inv(c, Next(c, s, a).value)
  {
    StepKeepsShape(c, s, a);
    match a
    case Enter(id, args) =>
    case Bypass(id) =>
    case Get(id, answered) =>
    case Run(id) =>
    case Set(id, reaches) =>
      StoringStaysGood(c, s.calls[id].args, s.store);
    case Expire(key) =>
    case Spoil(key, t) =>
  }

  // ---- What every run guarantees ----

  function Start<A, K, V, E, T>(store: map<K, T>): State<A, K, V, E, T> {
    State(store, map[])
  }

  ghost predicate IsRun<A, K, V, E, T>(
      c: Cached<A, K, V, E, T>, store: map<K, T>, acts: seq<Action<A, K, T>>, s: State<A, K, V, E, T>)
  {
    Exec(Protocol(c), Start(store), acts) == Some(s)
  }

  ghost predicate Transparent<A(!new), K(!new), V(!new), E(!new), T(!new)>(c: Cached<A, K, V, E, T>) {
    forall store: map<K, T>, acts, s: State<A, K, V, E, T> ::
      GoodStore(c, store) && IsRun(c, store, acts, s) ==> Honest(c, s)
  }

  lemma RunKeepsInv<A(!new), K(!new), V(!new), E(!new), T(!new)>(
      c: Cached<A, K, V, E, T>, store: map<K, T>, acts: seq<Action<A, K, T>>, s: State<A, K, V, E, T>)
    requires Sound(c) && GoodStore(c, store) && IsRun(c, store, acts, s)
    ensures Inv(c, s)
  {
    var next := Protocol(c);
    var inv := (m: State<A, K, V, E, T>) => Inv(c, m);
    forall m: State<A, K, V, E, T>, a: Action<A, K, T> | inv(m) && next(m, a).Some?
      ensures inv(next(m, a).value)
    {
      StepKeepsInv(c, m, a);
    }
    Always(next, inv, Start(store), acts);
  }

  /** For every interleaving of callers, expiries and failures, caching is invisible exactly when what is
      stored under a key is right for every argument with that key. */
  lemma TransparentIff<A(!new), K(!new), V(!new), E(!new), T(!new)>(c: Cached<A, K, V, E, T>)
    ensures Transparent(c) <==> Sound(c)
  {
    if Sound(c) {
      forall store: map<K, T>, acts, s: State<A, K, V, E, T> | GoodStore(c, store) && IsRun(c, store, acts, s)
        ensures Honest(c, s)
      {
        RunKeepsInv(c, store, acts, s);
      }
    }
    if Transparent(c) {
      forall a, b | Feeds(c, a, b)
        ensures !Misread(c, b, Reached(c, a).text)
      {
        if c.condition(b) {
          StoredIsRead(c, a, b);
        }
      }
      forall b, t | c.foreign(c.key(b), t)
        ensures !Misread(c, b, t)
      {
        if c.condition(b) {
          ForeignIsRead(c, b, t);
        }
      }
    }
  }

  /** A second caller reads what the first one stored. */
  lemma StoredIsRead<A(!new), K(!new), V(!new), E(!new), T(!new)>(c: Cached<A, K, V, E, T>, a: A, b: A)
    requires Transparent(c) && Feeds(c, a, b) && c.condition(b)
    ensures !Misread(c, b, Reached(c, a).text)
  {
    var acts, s := [], Start(map[]);
    acts, s := OneStep(c, acts, s, Enter(0, a));
    acts, s := OneStep(c, acts, s, Get(0, true));
    acts, s := OneStep(c, acts, s, Run(0));
    acts, s := OneStep(c, acts, s, Set(0, true));
    EntryIsRead(c, acts, s, b);
  }

  /** Or what others left. */
  lemma ForeignIsRead<A(!new), K(!new), V(!new), E(!new), T(!new)>(c: Cached<A, K, V, E, T>, b: A, t: T)
    requires Transparent(c) && c.foreign(c.key(b), t) && c.condition(b)
    ensures !Misread(c, b, t)
  {
    var acts, s := OneStep(c, [], Start(map[]), Spoil(c.key(b), t));
    EntryIsRead(c, acts, s, b);
  }

  lemma EntryIsRead<A(!new), K(!new), V(!new), E(!new), T(!new)>(
      c: Cached<A, K, V, E, T>, acts: seq<Action<A, K, T>>, s: State<A, K, V, E, T>, b: A)
    requires Transparent(c) && IsRun(c, map[], acts, s) && c.key(b) in s.store && c.condition(b) && 1 !in s.calls
    ensures !Misread(c, b, s.store[c.key(b)])
  {
    var acts', s' := OneStep(c, acts, s, Enter(1, b));
    acts', s' := OneStep(c, acts', s', Get(1, true));
    assert s'.calls[1] == Call(b, Found(c, s.store, b));
    assert GoodStore(c, map[]) && Honest(c, s');
  }

  lemma OneStep<A(!new), K(!new), V(!new), E(!new), T(!new)>(
      c: Cached<A, K, V, E, T>, acts: seq<Action<A, K, T>>, s: State<A, K, V, E, T>, a: Action<A, K, T>)
    returns (acts': seq<Action<A, K, T>>, s': State<A, K, V, E, T>)
    requires IsRun(c, map[], acts, s) && Next(c, s, a).Some?
    ensures IsRun(c, map[], acts', s') && s' == Next(c, s, a).value
  {
    acts', s' := acts + [a], Next(c, s, a).value;
    Extend(Protocol(c), Start(map[]), acts, s, a);
  }

  lemma RunKeepsShape<A(!new), K(!new), V(!new), E(!new), T(!new)>(
      c: Cached<A, K, V, E, T>, store: map<K, T>, acts: seq<Action<A, K, T>>, s: State<A, K, V, E, T>)
    requires IsRun(c, store, acts, s)
    ensures Shaped(c, s)
  {
    var next := Protocol(c);
    var inv := (m: State<A, K, V, E, T>) => Shaped(c, m);
    forall m: State<A, K, V, E, T>, a: Action<A, K, T> | inv(m) && next(m, a).Some?
      ensures inv(next(m, a).value)
    {
      StepKeepsShape(c, m, a);
    }
    Always(next, inv, Start(store), acts);
  }

  /** Who may change the store, and how, in any cache and from any store: others with one of their texts, and
      callers only by storing, under their own key, the encoded `Ok` value of a call whose condition held and
      whose `unless` did not. */
  lemma WritesAreDeliberate<A(!new), K(!new), V(!new), E(!new), T(!new)>(
      c: Cached<A, K, V, E, T>, store: map<K, T>, acts: seq<Action<A, K, T>>, s: State<A, K, V, E, T>,
      a: Action<A, K, T>, key: K)
    requires IsRun(c, store, acts, s) && Next(c, s, a).Some?
    requires key in Next(c, s, a).value.store && (key !in s.store || Next(c, s, a).value.store[key] != s.store[key])
    ensures var text := Next(c, s, a).value.store[key];
      || (a.Spoil? && a.key == key && c.foreign(key, text))
      || (a.Set? && a.id in s.calls && Deliberate(c, s.calls[a.id].args, key, text))
  {
    RunKeepsShape(c, store, acts, s);
    match a
    case Enter(_, _) =>
    case Bypass(_) =>
    case Get(_, _) =>
    case Run(_) =>
    case Set(id, _) =>
      assert Shape(c, s.calls[id]);
      assert c.key(s.calls[id].args) == key;
    case Expire(_) =>
    case Spoil(_, t) =>
      assert a.key == key && c.foreign(key, t);
  }

  ghost predicate Deliberate<A, K, V, E, T>(c: Cached<A, K, V, E, T>, args: A, key: K, text: T) {
    && c.key(args) == key && c.condition(args) && c.f(args).Ok? && !c.unless(args, c.f(args).value)
    && c.encode(args, c.f(args).value) == Some(text)
  }

  // ---- The generated bodies ----

  /** The step of the call `id`. */
  predicate Mine<A, K, T>(a: Action<A, K, T>, id: nat) {
    (a.Enter? || a.Bypass? || a.Get? || a.Run? || a.Set?) && a.id == id
  }

  function OwnActs<A, K, T>(acts: seq<Action<A, K, T>>, id: nat): seq<Action<A, K, T>> {
    if acts == [] then []
    else
      var rest, last := OwnActs(acts[..|acts| - 1], id), acts[|acts| - 1];
      if Mine(last, id) then rest + [last] else rest
  }

  lemma OwnSnoc<A, K, T>(acts: seq<Action<A, K, T>>, a: Action<A, K, T>, id: nat)
    ensures OwnActs(acts + [a], id) == if Mine(a, id) then OwnActs(acts, id) + [a] else OwnActs(acts, id)
  {
    assert (acts + [a])[..|acts|] == acts;
  }

  lemma OthersLeaveCall<A, K, V, E, T>(c: Cached<A, K, V, E, T>, s: State<A, K, V, E, T>, a: Action<A, K, T>, id: nat)
    requires id in s.calls && Next(c, s, a).Some? && !Mine(a, id)
    ensures id in Next(c, s, a).value.calls && Next(c, s, a).value.calls[id] == s.calls[id]
  {
  }

  /** What a command finds under a key, if it is answered. */
  function EntryIn<K, T>(store: map<K, T>, key: K, answered: bool): Option<T> {
    if answered && key in store then Some(store[key]) else None
  }

  /** `found` is what was under the call's key at the moment of its get, or nothing if the get failed. */
  ghost predicate FoundAtGet<A, K, V, E, T>(
      c: Cached<A, K, V, E, T>, initial: map<K, T>, acts: seq<Action<A, K, T>>, id: nat, args: A, answered: bool,
      found: Option<T>)
  {
    exists k :: 0 <= k < |acts| && acts[k] == Get(id, answered)
                && FoundAfter(c, initial, acts[..k], args, answered, found)
  }

  ghost predicate FoundAfter<A, K, V, E, T>(
      c: Cached<A, K, V, E, T>, initial: map<K, T>, acts: seq<Action<A, K, T>>, args: A, answered: bool,
      found: Option<T>)
  {
    var now := Exec(Protocol(c), Start(initial), acts);
    now.Some? && found == EntryIn(now.value.store, c.key(args), answered)
  }

  /** The text that the function's answer is stored as, if it is stored. */
  function Storable<A, K, V, E, T>(c: Cached<A, K, V, E, T>, args: A): Option<T> {
    if c.f(args).Ok? && !c.unless(args, c.f(args).value) then c.encode(args, c.f(args).value) else None
  }

  predicate Decodes<A, K, V, E, T>(c: Cached<A, K, V, E, T>, args: A, found: Option<T>) {
    found.Some? && c.decode(args, found.value).Some?
  }

  /** The steps of one call: none but the function if the condition is false; a get, and if that finds nothing
      the function, and if its answer is to be stored a set. */
  function Steps<A, K, V, E, T>(
      c: Cached<A, K, V, E, T>, id: nat, args: A, answered: bool, found: Option<T>, reaches: bool)
    : seq<Action<A, K, T>>
  {
    if !c.condition(args) then [Enter(id, args), Bypass(id)]
    else if Decodes(c, args, found) then [Enter(id, args), Get(id, answered)]
    else if Storable(c, args).None? then [Enter(id, args), Get(id, answered), Run(id)]
    else [Enter(id, args), Get(id, answered), Run(id), Set(id, reaches)]
  }

  /** The call stores its answer: the condition holds, nothing that decodes was found, and the function's answer is
      an `Ok` value that `unless` lets pass and that can be encoded. */
  predicate Stored<A, K, V, E, T>(c: Cached<A, K, V, E, T>, args: A, found: Option<T>) {
    && c.condition(args) && (found.None? || c.decode(args, found.value).None?)
    && c.f(args).Ok? && !c.unless(args, c.f(args).value) && c.encode(args, c.f(args).value).Some?
  }

  /** Which steps a call has taken in a run: the function ran exactly if the condition is false or nothing that
      decodes was found, the store was asked exactly if the condition holds, and told exactly if the answer was to
      be stored. */
  lemma StepsOfACall<A, K, V, E, T>(
      c: Cached<A, K, V, E, T>, acts: seq<Action<A, K, T>>, id: nat, args: A, answered: bool, found: Option<T>,
      reaches: bool)
    requires OwnActs(acts, id) == Steps(c, id, args, answered, found, reaches)
    ensures Bypass(id) in acts <==> !c.condition(args)
    ensures Get(id, answered) in acts <==> c.condition(args)
    ensures Run(id) in acts <==> c.condition(args) && (found.None? || c.decode(args, found.value).None?)
    ensures Set(id, reaches) in acts <==> Stored(c, args, found)
  {
    OwnIn(acts, id, Bypass(id));
    OwnIn(acts, id, Get(id, answered));
    OwnIn(acts, id, Run(id));
    OwnIn(acts, id, Set(id, reaches));
  }

  lemma {:induction false} OwnIn<A, K, T>(acts: seq<Action<A, K, T>>, id: nat, a: Action<A, K, T>)
    ensures a in OwnActs(acts, id) <==> a in acts && Mine(a, id)
  {
    if acts != [] {
      OwnIn(acts[..|acts| - 1], id, a);
      assert a in acts <==> a in acts[..|acts| - 1] || a == acts[|acts| - 1];
    }
  }

  lemma {:induction false} NoneBeforeEnter<A, K, V, E, T>(
      c: Cached<A, K, V, E, T>, store: map<K, T>, acts: seq<Action<A, K, T>>, s: State<A, K, V, E, T>, id: nat)
    requires IsRun(c, store, acts, s) && id !in s.calls
    ensures OwnActs(acts, id) == []
  {
    if acts != [] {
      var before := Exec(Protocol(c), Start(store), acts[..|acts| - 1]).value;
      CallsStay(c, before, acts[|acts| - 1], id);
      NoneBeforeEnter(c, store, acts[..|acts| - 1], before, id);
    }
  }

  lemma CallsStay<A, K, V, E, T>(c: Cached<A, K, V, E, T>, s: State<A, K, V, E, T>, a: Action<A, K, T>, id: nat)
    requires Next(c, s, a).Some? && id !in Next(c, s, a).value.calls
    ensures id !in s.calls && !Mine(a, id)
  {
  }

  lemma FoundStays<A, K, V, E, T>(
      c: Cached<A, K, V, E, T>, initial: map<K, T>, acts: seq<Action<A, K, T>>, acts': seq<Action<A, K, T>>, id: nat,
      args: A, answered: bool, found: Option<T>)
    requires FoundAtGet(c, initial, acts, id, args, answered, found) && acts <= acts'
    ensures FoundAtGet(c, initial, acts', id, args, answered, found)
  {
    var k :| 0 <= k < |acts| && acts[k] == Get(id, answered)
             && FoundAfter(c, initial, acts[..k], args, answered, found);
    assert acts'[..k] == acts[..k];
  }

  /** What a call that found `found` returns. */
  function Answer<A, K, V, E, T>(c: Cached<A, K, V, E, T>, args: A, found: Option<T>): Outcome<V, E> {
    if c.condition(args) && Decodes(c, args, found) then Ok(c.decode(args, found.value).value) else c.f(args)
  }

  /** The store behind the connection, with every caller at work on it; `acts` is what has happened to it. */
  class Redis<A(==,!new), K(==,!new), V(==,!new), E(==,!new), T(==,!new)> {
    const c: Cached<A, K, V, E, T>
    ghost const initial: map<K, T>
    var state: State<A, K, V, E, T>
    ghost var acts: seq<Action<A, K, T>>

    ghost predicate Valid()
      reads this
    {
      IsRun(c, initial, acts, state)
    }

    /** The call `id` is where `call` says, and `own` are its steps so far. */
    ghost predicate CallAt(id: nat, call: Call<A, V, E, T>, own: seq<Action<A, K, T>>)
      reads this
    {
      Valid() && id in state.calls && state.calls[id] == call && OwnActs(acts, id) == own
    }

    /** The call `id` is over: its steps, its answer, what it found and what it left; and in a sound cache the answer
        is what the function would answer. */
    ghost predicate Served(id: nat, args: A, answered: bool, found: Option<T>, reaches: bool, r: Outcome<V, E>)
      reads this
    {
      && CallAt(id, Call(args, Done(r)), Steps(c, id, args, answered, found, reaches))
      && r == Answer(c, args, found)
      && (c.condition(args) ==> FoundAtGet(c, initial, acts, id, args, answered, found))
      && (Stored(c, args, found) && reaches ==>
            && c.key(args) in state.store
            && Some(state.store[c.key(args)]) == c.encode(args, c.f(args).value))
      && (Sound(c) && GoodStore(c, initial) ==> r == c.f(args))
    }

    constructor (c: Cached<A, K, V, E, T>, store: map<K, T>)
      ensures Valid() && this.c == c && initial == store && state == Start(store) && acts == []
    {
      this.c, initial, state, acts := c, store, Start(store), [];
    }

    method Do(a: Action<A, K, T>)
      requires Valid() && Next(c, state, a).Some?
      modifies this
      ensures Valid() && state == Next(c, old(state), a).value && acts == old(acts) + [a]
      ensures forall id ::
        OwnActs(acts, id) == if Mine(a, id) then OwnActs(old(acts), id) + [a] else OwnActs(old(acts), id)
    {
      Extend(Protocol(c), Start(initial), acts, state, a);
      forall id {
        OwnSnoc(acts, a, id);
      }
      state, acts := Next(c, state, a).value, acts + [a];
    }

    /** Other callers, expiry and damage, in any number and order, while the call `id` is under way. */
    method LetOthersRun(id: nat, others: seq<Action<A, K, T>>)
      requires Valid() && id in state.calls
      modifies this
      ensures CallAt(id, old(state.calls[id]), OwnActs(old(acts), id)) && old(acts) <= acts
      ensures others == [] ==> state == old(state)
    {
      for k := 0 to |others|
        invariant CallAt(id, old(state.calls[id]), OwnActs(old(acts), id)) && old(acts) <= acts
        invariant k == 0 ==> state == old(state)
      {
        if Next(c, state, others[k]).Some? && !Mine(others[k], id) {
          OthersLeaveCall(c, state, others[k], id);
          Do(others[k]);
        }
      }
    }

    method EnterCall(id: nat, args: A)
      requires Valid() && id !in state.calls
      modifies this
      ensures CallAt(id, Call(args, if c.condition(args) then Lookup else Direct),
                     OwnActs(old(acts), id) + [Enter(id, args)])
      ensures acts == old(acts) + [Enter(id, args)] && state.store == old(state.store)
    {
      Do(Enter(id, args));
    }

    method RunDirectly(id: nat)
      requires Valid() && id in state.calls && state.calls[id].pc == Direct
      modifies this
      ensures old(acts) <= acts && CallAt(id, Call(old(state.calls[id].args), Done(c.f(old(state.calls[id].args)))),
                                          OwnActs(old(acts), id) + [Bypass(id)])
    {
      Do(Bypass(id));
    }

    /** `get`: what is under the call's key by the time the command arrives, or nothing if it fails. */
    method GetEntry(id: nat, key: K, others: seq<Action<A, K, T>>, answered: bool) returns (entry: Option<T>)
      requires Valid() && id in state.calls && state.calls[id].pc == Lookup && key == c.key(state.calls[id].args)
      modifies this
      ensures old(acts) <= acts && FoundAtGet(c, initial, acts, id, old(state.calls[id].args), answered, entry)
      ensures others == [] ==> entry == EntryIn(old(state.store), key, answered)
      ensures var args := old(state.calls[id].args);
        CallAt(id, Call(args, if Decodes(c, args, entry) then Done(Ok(c.decode(args, entry.value).value)) else Compute),
               OwnActs(old(acts), id) + [Get(id, answered)])
    {
      LetOthersRun(id, others);
      entry := EntryIn(state.store, key, answered);
      ghost var before := acts;
      Do(Get(id, answered));
      assert acts[..|before|] == before && acts[|before|] == Get(id, answered);
      assert FoundAfter(c, initial, acts[..|before|], state.calls[id].args, answered, entry);
    }

    /** The function itself runs. */
    method RunFunction(id: nat, others: seq<Action<A, K, T>>)
      requires Valid() && id in state.calls && state.calls[id].pc == Compute
      modifies this
      ensures old(acts) <= acts
      ensures CallAt(id, Call(old(state.calls[id].args), Reached(c, old(state.calls[id].args))),
                     OwnActs(old(acts), id) + [Run(id)])
    {
      LetOthersRun(id, others);
      Do(Run(id));
    }

    /** `set`, perhaps with an expiry; a write that fails is logged, no more. */
    method SetEntry(id: nat, key: K, text: T, others: seq<Action<A, K, T>>, reaches: bool)
      requires Valid() && id in state.calls && state.calls[id].pc.Store? && state.calls[id].pc.text == text
      requires key == c.key(state.calls[id].args)
      modifies this
      ensures old(acts) <= acts
      ensures CallAt(id, Call(old(state.calls[id].args), Done(Ok(old(state.calls[id].pc.value)))),
                     OwnActs(old(acts), id) + [Set(id, reaches)])
      ensures reaches ==> key in state.store && state.store[key] == text
    {
      LetOthersRun(id, others);
      Do(Set(id, reaches));
    }

    /** Serialises and stores; a value that cannot be serialised is logged, no more. */
    method StoreResult(id: nat, key: K, result: V, others: seq<Action<A, K, T>>, reaches: bool)
      requires Valid() && id in state.calls && key == c.key(state.calls[id].args)
      requires state.calls[id].pc == match c.encode(state.calls[id].args, result)
        case None => Done(Ok(result))
        case Some(t) => Store(result, t)
      modifies this
      ensures old(acts) <= acts
      ensures var args, text := old(state.calls[id].args), c.encode(old(state.calls[id].args), result);
        && CallAt(id, Call(args, Done(Ok(result))),
                  if text.Some? then OwnActs(old(acts), id) + [Set(id, reaches)] else OwnActs(old(acts), id))
        && (text.Some? && reaches ==> key in state.store && state.store[key] == text.value)
    {
      var text := c.encode(state.calls[id].args, result);
      if text.Some? {
        SetEntry(id, key, text.value, others, reaches);
      }
    }
  }

  /** In a sound cache, a call that is done has answered what the function would. */
  lemma Answered<A(!new), K(!new), V(!new), E(!new), T(!new)>(redis: Redis<A, K, V, E, T>, id: nat)
    requires redis.Valid() && id in redis.state.calls && redis.state.calls[id].pc.Done?
    ensures Sound(redis.c) && GoodStore(redis.c, redis.initial) ==>
      redis.state.calls[id].pc.result == redis.c.f(redis.state.calls[id].args)
  {
    if Sound(redis.c) && GoodStore(redis.c, redis.initial) {
      RunKeepsInv(redis.c, redis.initial, redis.acts, redis.state);
    }
  }

  lemma ServedDirectly<A(!new), K(!new), V(!new), E(!new), T(!new)>(
      redis: Redis<A, K, V, E, T>, id: nat, args: A, answered: bool, reaches: bool)
    requires !redis.c.condition(args)
    requires redis.CallAt(id, Call(args, Done(redis.c.f(args))), [Enter(id, args)] + [Bypass(id)])
    ensures redis.Served(id, args, answered, None, reaches, redis.c.f(args))
  {
  }

  lemma ServedFromStore<A(!new), K(!new), V(!new), E(!new), T(!new)>(
      redis: Redis<A, K, V, E, T>, id: nat, args: A, answered: bool, found: Option<T>, reaches: bool, v: V)
    requires redis.c.condition(args) && found.Some? && redis.c.decode(args, found.value) == Some(v)
    requires FoundAtGet(redis.c, redis.initial, redis.acts, id, args, answered, found)
    requires redis.CallAt(id, Call(args, Done(Ok(v))), [Enter(id, args)] + [Get(id, answered)])
    ensures redis.Served(id, args, answered, found, reaches, Ok(v))
  {
    Answered(redis, id);
  }

  lemma ServedByFunction<A(!new), K(!new), V(!new), E(!new), T(!new)>(
      redis: Redis<A, K, V, E, T>, id: nat, args: A, answered: bool, found: Option<T>, reaches: bool,
      atGet: seq<Action<A, K, T>>)
    requires redis.c.condition(args) && !Decodes(redis.c, args, found)
    requires FoundAtGet(redis.c, redis.initial, atGet, id, args, answered, found) && atGet <= redis.acts
    requires redis.CallAt(id, Call(args, Done(redis.c.f(args))),
      if Storable(redis.c, args).None? then [Enter(id, args)] + [Get(id, answered)] + [Run(id)]
      else [Enter(id, args)] + [Get(id, answered)] + [Run(id)] + [Set(id, reaches)])
    requires Storable(redis.c, args).Some? && reaches ==>
      EntryIn(redis.state.store, redis.c.key(args), true) == Storable(redis.c, args)
    ensures redis.Served(id, args, answered, found, reaches, redis.c.f(args))
  {
    FoundStays(redis.c, redis.initial, atGet, redis.acts, id, args, answered, found);
  }

  /** After a get that found nothing: the function runs, and its answer is stored if it should be. */
  method ComputeResult<A(==,!new), K(==,!new), V(==,!new), E(==,!new), T(==,!new)>(
      redis: Redis<A, K, V, E, T>, id: nat, args: A, answered: bool, ghost found: Option<T>,
      during: seq<Action<A, K, T>>, between: seq<Action<A, K, T>>, reaches: bool)
    returns (r: Outcome<V, E>)
    requires redis.c.condition(args) && !Decodes(redis.c, args, found)
    requires FoundAtGet(redis.c, redis.initial, redis.acts, id, args, answered, found)
    requires redis.CallAt(id, Call(args, Compute), [Enter(id, args)] + [Get(id, answered)])
    modifies redis
    ensures old(redis.acts) <= redis.acts && redis.Served(id, args, answered, found, reaches, r)
  {
    ghost var atGet := redis.acts;
    var result := redis.c.f(args);
    redis.RunFunction(id, during);
    if result.Err? {
      ServedByFunction(redis, id, args, answered, found, reaches, atGet);
      return result;
    }
    if redis.c.unless(args, result.value) {
      ServedByFunction(redis, id, args, answered, found, reaches, atGet);
      return result;
    }
    redis.StoreResult(id, redis.c.key(args), result.value, between, reaches);
    ServedByFunction(redis, id, args, answered, found, reaches, atGet);
    r := result;
  }

  method ComputePlain<A(==,!new), K(==,!new), V(==,!new), E(==,!new), T(==,!new)>(
      redis: Redis<A, K, V, E, T>, id: nat, args: A, answered: bool, ghost found: Option<T>,
      during: seq<Action<A, K, T>>, between: seq<Action<A, K, T>>, reaches: bool)
    returns (r: V)
    requires redis.c.condition(args) && !Decodes(redis.c, args, found) && redis.c.f(args).Ok?
    requires FoundAtGet(redis.c, redis.initial, redis.acts, id, args, answered, found)
    requires redis.CallAt(id, Call(args, Compute), [Enter(id, args)] + [Get(id, answered)])
    modifies redis
    ensures old(redis.acts) <= redis.acts && redis.Served(id, args, answered, found, reaches, Ok(r))
  {
    ghost var atGet := redis.acts;
    r := redis.c.f(args).value;
    redis.RunFunction(id, during);
    if redis.c.unless(args, r) {
      ServedByFunction(redis, id, args, answered, found, reaches, atGet);
      return;
    }
    redis.StoreResult(id, redis.c.key(args), r, between, reaches);
    ServedByFunction(redis, id, args, answered, found, reaches, atGet);
  }

  /**
   The body generated for a function returning `Result`, as the call `id` of a run in which `before`, `during`
   and `between` are done by others: before the get, while the function runs, and before the set.
   */
  method CachedResult<A(==,!new), K(==,!new), V(==,!new), E(==,!new), T(==,!new)>(
      redis: Redis<A, K, V, E, T>, id: nat, args: A, before: seq<Action<A, K, T>>, answered: bool,
      during: seq<Action<A, K, T>>, between: seq<Action<A, K, T>>, reaches: bool)
    returns (r: Outcome<V, E>, ghost found: Option<T>)
    requires redis.Valid() && id !in redis.state.calls
    modifies redis
    ensures old(redis.acts) + [Enter(id, args)] <= redis.acts
    ensures redis.Served(id, args, answered, found, reaches, r)
    ensures before == [] && redis.c.condition(args) ==>
      found == EntryIn(old(redis.state.store), redis.c.key(args), answered)
  {
    var c := redis.c;
    found := None;
    NoneBeforeEnter(c, redis.initial, redis.acts, redis.state, id);
    redis.EnterCall(id, args);
    if !c.condition(args) {
      redis.RunDirectly(id);
      ServedDirectly(redis, id, args, answered, reaches);
      return c.f(args), None;
    }
    var cacheKey := c.key(args);
    var cacheValue := redis.GetEntry(id, cacheKey, before, answered);
    found := cacheValue;
    if cacheValue.Some? {
      var decoded := c.decode(args, cacheValue.value);
      if decoded.Some? {
        r := Ok(decoded.value);
        ServedFromStore(redis, id, args, answered, found, reaches, decoded.value);
        return;
      }
    }
    r := ComputeResult(redis, id, args, answered, found, during, between, reaches);
  }

  /** The body generated for any other function: no error to pass on, and the value itself is returned. */
  method CachedPlain<A(==,!new), K(==,!new), V(==,!new), E(==,!new), T(==,!new)>(
      redis: Redis<A, K, V, E, T>, id: nat, args: A, before: seq<Action<A, K, T>>, answered: bool,
      during: seq<Action<A, K, T>>, between: seq<Action<A, K, T>>, reaches: bool)
    returns (r: V, ghost found: Option<T>)
    requires redis.Valid() && id !in redis.state.calls && forall a :: redis.c.f(a).Ok?
    modifies redis
    ensures old(redis.acts) + [Enter(id, args)] <= redis.acts
    ensures redis.Served(id, args, answered, found, reaches, Ok(r))
    ensures before == [] && redis.c.condition(args) ==>
      found == EntryIn(old(redis.state.store), redis.c.key(args), answered)
  {
    var c := redis.c;
    found := None;
    NoneBeforeEnter(c, redis.initial, redis.acts, redis.state, id);
    redis.EnterCall(id, args);
    if !c.condition(args) {
      redis.RunDirectly(id);
      ServedDirectly(redis, id, args, answered, reaches);
      return c.f(args).value, None;
    }
    var cacheKey := c.key(args);
    var cacheValue := redis.GetEntry(id, cacheKey, before, answered);
    found := cacheValue;
    if cacheValue.Some? {
      var decoded := c.decode(args, cacheValue.value);
      if decoded.Some? {
        r := decoded.value;
        ServedFromStore(redis, id, args, answered, found, reaches, decoded.value);
        return;
      }
    }
    r := ComputePlain(redis, id, args, answered, found, during, between, reaches);
  }
}
