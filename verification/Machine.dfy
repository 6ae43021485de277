/**
 Runs of a nondeterministic protocol. A protocol is a partial step function: `next(s, a)` is
 `None` when action `a` is not possible in state `s`. A run is a sequence of actions, so a
 statement about every sequence of actions is a statement about every interleaving.
 */
module Machine {

  datatype Option<+T> = None | Some(value: T)

  function Exec<S, A>(next: (S, A) -> Option<S>, start: S, acts: seq<A>): Option<S>
  {
    if acts == [] then Some(start)
    else
      match Exec(next, start, acts[..|acts| - 1])
      case None => None
      case Some(s) => next(s, acts[|acts| - 1])
  }

  ghost predicate Preserves<S(!new), A(!new)>(next: (S, A) -> Option<S>, inv: S -> bool) {
    forall s, a :: inv(s) && next(s, a).Some? ==> inv(next(s, a).value)
  }

  /** A property of the start that every step keeps holds at the end of every run. */
  lemma {:induction false} Always<S(!new), A(!new)>(next: (S, A) -> Option<S>, inv: S -> bool, start: S, acts: seq<A>)
    requires inv(start)
    requires Preserves(next, inv)
    ensures Exec(next, start, acts).Some? ==> inv(Exec(next, start, acts).value)
  {
    if acts != [] {
      Always(next, inv, start, acts[..|acts| - 1]);
    }
  }

  /** Every prefix of a run is a run, and its next action was possible where it ended. */
  lemma {:induction false} PossibleAt<S, A>(next: (S, A) -> Option<S>, start: S, acts: seq<A>, k: nat)
    requires k < |acts| && Exec(next, start, acts).Some?
    ensures Exec(next, start, acts[..k]).Some?
    ensures next(Exec(next, start, acts[..k]).value, acts[k]).Some?
  {
    var pre := acts[..|acts| - 1];
    if k < |pre| {
      PossibleAt(next, start, pre, k);
      assert pre[..k] == acts[..k];
    }
  }

  lemma Extend<S, A>(next: (S, A) -> Option<S>, start: S, acts: seq<A>, s: S, a: A)
    requires Exec(next, start, acts) == Some(s)
    ensures Exec(next, start, acts + [a]) == next(s, a)
  {
    assert (acts + [a])[..|acts|] == acts;
  }
}
