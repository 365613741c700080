/** Runs of a transition system: the states its steps lead to, and the induction over them. */
module Runs {

  // s is reached from start by the given actions.
  ghost predicate Reached<S(!new), A>(start: S, step: (S, A, S) -> bool, actions: seq<A>, s: S)
    decreases |actions|
  {
    if actions == [] then s == start
    else
      var front, a := actions[..|actions| - 1], actions[|actions| - 1];
      exists p :: Reached(start, step, front, p) && step(p, a, s)
  }

  lemma Extend<S(!new), A>(start: S, step: (S, A, S) -> bool, actions: seq<A>, p: S, a: A, s: S)
    requires Reached(start, step, actions, p) && step(p, a, s)
    ensures Reached(start, step, actions + [a], s)
  {
    var more := actions + [a];
    assert more[..|more| - 1] == actions;
  }

  // What holds at the start and is kept by every step holds in every reached state.
  lemma {:induction false} Invariant<S(!new), A(!new)>(start: S, step: (S, A, S) -> bool, inv: S -> bool,
                                       actions: seq<A>, s: S)
    requires Reached(start, step, actions, s) && inv(start)
    requires forall p, a, q :: inv(p) && step(p, a, q) ==> inv(q)
    ensures inv(s)
    decreases |actions|
  {
    if actions != [] {
      var a := actions[|actions| - 1];
      var p :| Reached(start, step, actions[..|actions| - 1], p) && step(p, a, s);
      Invariant(start, step, inv, actions[..|actions| - 1], p);
    }
  }
}
