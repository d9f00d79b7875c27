/** Runs of a transition system. `next` gives the state an action leads to, or nothing when the
    action is not enabled. */
module Traces {
  import opened Wrappers

  ghost predicate Runs<S(!new), A(!new)>(next: (S, A) -> Option<S>, s: S, acts: seq<A>, s': S)
    decreases |acts|
  {
    if acts == [] then s == s'
    else next(s, acts[0]).Some? && Runs(next, next(s, acts[0]).value, acts[1..], s')
  }

  /** What every step keeps, every run keeps. */
  lemma {:induction false} Invariant<S(!new), A(!new)>(
    next: (S, A) -> Option<S>, inv: S -> bool, s: S, acts: seq<A>, s': S)
    requires inv(s) && Runs(next, s, acts, s')
    requires forall t, a :: inv(t) && next(t, a).Some? ==> inv(next(t, a).value)
    ensures inv(s')
    decreases |acts|
  {
    if acts != [] {
      Invariant(next, inv, next(s, acts[0]).value, acts[1..], s');
    }
  }

  /** The same for what relates a state to the actions that led to it. */
  lemma {:induction false} InvariantOfPast<S(!new), A(!new)>(
    next: (S, A) -> Option<S>, inv: (seq<A>, S) -> bool, past: seq<A>, s: S, acts: seq<A>, s': S)
    requires inv(past, s) && Runs(next, s, acts, s')
    requires forall p, t, a :: inv(p, t) && next(t, a).Some? ==> inv(p + [a], next(t, a).value)
    ensures inv(past + acts, s')
    decreases |acts|
  {
    if acts == [] {
      assert past + acts == past;
    } else {
      InvariantOfPast(next, inv, past + [acts[0]], next(s, acts[0]).value, acts[1..], s');
      assert past + [acts[0]] + acts[1..] == past + acts;
    }
  }

  /** A run goes on with any enabled action. */
  lemma {:induction false} Snoc<S(!new), A(!new)>(next: (S, A) -> Option<S>, s: S, acts: seq<A>, t: S, a: A)
    requires Runs(next, s, acts, t) && next(t, a).Some?
    ensures Runs(next, s, acts + [a], next(t, a).value)
    decreases |acts|
  {
    if acts == [] {
      assert ([] + [a])[1..] == [];
    } else {
      Snoc(next, next(s, acts[0]).value, acts[1..], t, a);
      assert (acts + [a])[1..] == acts[1..] + [a];
    }
  }

  lemma {:induction false} Concatenate<S(!new), A(!new)>(
    next: (S, A) -> Option<S>, s: S, acts: seq<A>, t: S, more: seq<A>, u: S)
    requires Runs(next, s, acts, t) && Runs(next, t, more, u)
    ensures Runs(next, s, acts + more, u)
    decreases |acts|
  {
    if acts == [] {
      assert acts + more == more;
    } else {
      Concatenate(next, next(s, acts[0]).value, acts[1..], t, more, u);
      assert (acts + more)[1..] == acts[1..] + more;
    }
  }
}
