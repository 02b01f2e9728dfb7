/** Finite runs of a step system: a start state and a list of steps, each of which must be enabled. */
module Runs {
  import opened Headers

  /** The state after the steps, or None if one of them is not enabled where it stands. */
  function Exec<S, A>(next: (S, A) -> Option<S>, start: S, steps: seq<A>): (end: Option<S>)
  {
    if steps == [] then Some(start)
    else
      match Exec(next, start, steps[..|steps| - 1])
      case None => None
      case Some(s) => next(s, steps[|steps| - 1])
  }

  /** What holds at the start and is kept by every step holds after every run. */
  lemma {:induction false} InvariantHolds<S(!new), A(!new)>(next: (S, A) -> Option<S>, inv: S -> bool, start: S, steps: seq<A>)
    requires inv(start)
    requires forall s, a :: inv(s) && next(s, a).Some? ==> inv(next(s, a).value)
    ensures Exec(next, start, steps).Some? ==> inv(Exec(next, start, steps).value)
  {
    if steps != [] {
      InvariantHolds(next, inv, start, steps[..|steps| - 1]);
    }
  }

  lemma ExecSnoc<S, A>(next: (S, A) -> Option<S>, start: S, steps: seq<A>, step: A)
    requires Exec(next, start, steps).Some?
    ensures Exec(next, start, steps + [step]) == next(Exec(next, start, steps).value, step)
  {
    assert (steps + [step])[..|steps|] == steps;
  }
}
