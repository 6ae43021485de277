/** A work list dealt out into what is done and what is still to do. */
module Dealing {

  ghost predicate Differ<T>(s: seq<T>, i: nat, j: nat) {
    i < |s| && j < |s| && s[i] != s[j]
  }

  ghost predicate NoRepeats<T>(s: seq<T>) {
    forall i: nat, j: nat {:trigger Differ(s, i, j)} :: i < j < |s| ==> Differ(s, i, j)
  }

  /** No item is lost, repeated, or both done and to do. */
  ghost predicate Dealt<T(!new)>(all: seq<T>, done: seq<T>, todo: seq<T>) {
    && (forall x :: x in all <==> x in done || x in todo)
    && NoRepeats(done) && NoRepeats(todo)
    && forall x :: x in done ==> x !in todo
  }

  /** The item at the front of the work list can be finished, or put back at the end. */
  lemma DealStep<T(!new)>(all: seq<T>, done: seq<T>, x: T, todo: seq<T>)
    requires Dealt(all, done, [x] + todo)
    ensures Dealt(all, done + [x], todo)
    ensures Dealt(all, done, todo + [x])
  {
    var before, after, done' := [x] + todo, todo + [x], done + [x];
    assert before[0] == x && before[1..] == todo;
    assert forall y :: y in before <==> y == x || y in todo;
    assert forall y :: y in after <==> y == x || y in todo;
    assert forall y :: y in done' <==> y == x || y in done;
    forall i: nat, j: nat | i < j < |todo|
      ensures Differ(todo, i, j)
    {
      assert Differ(before, i + 1, j + 1);
    }
    forall j: nat | j < |todo|
      ensures Differ(before, 0, j + 1) && todo[j] != x
    {
      assert Differ(before, 0, j + 1);
    }
    forall i: nat, j: nat | i < j < |after|
      ensures Differ(after, i, j)
    {
      assert j < |todo| ==> Differ(todo, i, j);
    }
    forall i: nat, j: nat | i < j < |done'|
      ensures Differ(done', i, j)
    {
      assert j < |done| ==> Differ(done, i, j);
      assert done'[i] in done;
    }
  }

  lemma ListOneMore<T(!new)>(s: seq<T>, x: T)
    requires NoRepeats(s) && x !in s
    ensures NoRepeats(s + [x])
  {
    forall i: nat, j: nat | i < j < |s| + 1
      ensures Differ(s + [x], i, j)
    {
      assert j < |s| ==> Differ(s, i, j);
    }
  }

  /** None of the items is ready. */
  ghost predicate Blocked<T>(ps: seq<T>, ready: T -> bool) {
    ps == [] || (!ready(ps[|ps| - 1]) && Blocked(ps[..|ps| - 1], ready))
  }

  lemma BlockedSnoc<T>(ps: seq<T>, ready: T -> bool, p: T)
    requires Blocked(ps, ready) && !ready(p)
    ensures Blocked(ps + [p], ready)
  {
    assert (ps + [p])[..|ps|] == ps;
  }

  lemma {:induction false} BlockedMember<T>(ps: seq<T>, ready: T -> bool, p: T)
    requires Blocked(ps, ready) && p in ps
    ensures !ready(p)
  {
    if p != ps[|ps| - 1] {
      BlockedMember(ps[..|ps| - 1], ready, p);
    }
  }

  lemma SliceSnoc<T>(s: seq<T>, a: nat, k: nat)
    requires a <= k < |s|
    ensures s[a..k + 1] == s[a..k] + [s[k]]
  {
  }

  lemma SplitAt<T>(s: seq<T>, a: nat, b: nat)
    requires a <= b <= |s|
    ensures s[a..] == s[a..b] + s[b..]
  {
  }

  lemma LastOfTake<T>(s: seq<T>, n: nat, left: seq<T>, x: T)
    requires 0 < n <= |s| && left + [x] == s[..n]
    ensures left == s[..n - 1] && x == s[n - 1]
  {
    assert (left + [x])[..n - 1] == left && (left + [x])[n - 1] == x;
  }

  lemma NothingAdded<T>(s: seq<T>)
    ensures s + [] == s && [] + s == s
  {
  }

  lemma Assoc<T>(a: seq<T>, b: seq<T>, c: seq<T>)
    ensures a + b + c == a + (b + c)
  {
  }

  lemma Visiting<T>(s: seq<T>, i: nat, kept: seq<T>)
    requires i < |s|
    ensures s[i..] + kept == [s[i]] + (s[i + 1..] + kept)
    ensures s[i + 1..] + (kept + [s[i]]) == s[i + 1..] + kept + [s[i]]
  {
  }
}
