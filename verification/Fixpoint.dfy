/**
 Rules of the form "once all of `needs` are available, `gives` becomes available", and the
 least set of available things. Plugin dependencies and service injection are both of this form.
 */
module Fixpoint {

  datatype Rule<T> = Rule(needs: set<T>, gives: T)

  ghost predicate Closed<T(!new)>(rules: set<Rule<T>>, base: set<T>, s: set<T>) {
    && base <= s
    && forall r :: r in rules && r.needs <= s ==> r.gives in s
  }

  /** `s` lies inside every closed set: nothing in it is there without a derivation. */
  ghost predicate Derivable<T(!new)>(rules: set<Rule<T>>, base: set<T>, s: set<T>) {
    forall t: set<T> :: Closed(rules, base, t) ==> s <= t
  }

  ghost predicate Least<T(!new)>(rules: set<Rule<T>>, base: set<T>, s: set<T>) {
    Closed(rules, base, s) && Derivable(rules, base, s)
  }

  lemma LeastIsUnique<T(!new)>(rules: set<Rule<T>>, base: set<T>, s: set<T>, t: set<T>)
    requires Least(rules, base, s) && Least(rules, base, t)
    ensures s == t
  {
  }

  lemma DerivableStep<T(!new)>(rules: set<Rule<T>>, base: set<T>, s: set<T>, r: Rule<T>)
    requires Derivable(rules, base, s) && r in rules && r.needs <= s
    ensures Derivable(rules, base, s + {r.gives})
  {
  }
}
