/** Runs of a labelled transition system. */
module Runs {
  import opened Wrappers

  /** The state after the steps, if each of them was enabled when its turn came. */
  function Run<S, A>(step: (S, A) -> Option<S>, s: S, steps: seq<A>): Option<S>
    decreases |steps|
  {
    if steps == [] then Some(s)
    else match step(s, steps[0])
         case None => None
         case Some(next) => Run(step, next, steps[1..])
  }

  /** What every step keeps holds after every run. */
  lemma {:induction false} RunKeeps<S(!new), A(!new)>(step: (S, A) -> Option<S>, inv: S -> bool, s: S, steps: seq<A>)
    requires inv(s)
    requires forall t, a :: inv(t) && step(t, a).Some? ==> inv(step(t, a).value)
    ensures Run(step, s, steps).Some? ==> inv(Run(step, s, steps).value)
    decreases |steps|
  {
    if steps != [] && step(s, steps[0]).Some? {
      RunKeeps(step, inv, step(s, steps[0]).value, steps[1..]);
    }
  }

  lemma NoStep<S(!new), A(!new)>(step: (S, A) -> Option<S>, s: S)
    ensures Run(step, s, []) == Some(s)
  {
  }

  /** One step more at the end. */
  lemma {:induction false} OneMore<S(!new), A(!new)>(step: (S, A) -> Option<S>, s: S, steps: seq<A>, t: S, a: A, u: S)
    requires Run(step, s, steps) == Some(t) && step(t, a) == Some(u)
    ensures Run(step, s, steps + [a]) == Some(u)
    decreases |steps|
  {
    var all := steps + [a];
    if steps == [] {
      assert all[1..] == [];
    } else {
      assert all[1..] == steps[1..] + [a];
      OneMore(step, step(s, steps[0]).value, steps[1..], t, a, u);
    }
  }

  /** Go on with a run, step by step. */
  lemma Go<S(!new), A(!new)>(step: (S, A) -> Option<S>, s: S, r: seq<A>, u: S, a: A) returns (r': seq<A>, u': S)
    requires Run(step, s, r) == Some(u) && step(u, a).Some?
    ensures r' == r + [a] && step(u, a) == Some(u') && Run(step, s, r') == Some(u')
  {
    r', u' := r + [a], step(u, a).value;
    OneMore(step, s, r, u, a, u');
  }

  /** A run of a system that only forbids more steps is a run of the other. */
  lemma {:induction false} RunRefines<S(!new), A(!new)>(
      fewer: (S, A) -> Option<S>, more: (S, A) -> Option<S>, s: S, steps: seq<A>)
    requires forall t, a :: fewer(t, a).Some? ==> more(t, a) == fewer(t, a)
    ensures Run(fewer, s, steps).Some? ==> Run(more, s, steps) == Run(fewer, s, steps)
    decreases |steps|
  {
    if steps != [] && fewer(s, steps[0]).Some? {
      RunRefines(fewer, more, fewer(s, steps[0]).value, steps[1..]);
    }
  }
}
