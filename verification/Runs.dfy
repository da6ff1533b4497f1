/** Induction along the run of a state machine whose steps are given as a relation. */
module Runs {
  ghost predicate Follows<S, A>(step: (S, A, S) -> bool, ss: seq<S>, acts: seq<A>) {
    |ss| == |acts| + 1 && forall k :: 0 <= k < |acts| ==> step(ss[k], acts[k], ss[k + 1])
  }

  /** What every step into a state that is `ok` keeps holds from j on, as long as all are. */
  lemma {:induction false} Along<S(!new), A(!new)>(
      step: (S, A, S) -> bool, inv: S -> bool, ok: S -> bool, ss: seq<S>, acts: seq<A>, j: nat, k: nat)
    requires Follows(step, ss, acts) && j <= k < |ss| && inv(ss[j])
    requires forall m :: j < m <= k ==> ok(ss[m])
    requires forall s, a, t :: inv(s) && step(s, a, t) && ok(t) ==> inv(t)
    ensures inv(ss[k])
    decreases k
  {
    if k > j {
      Along(step, inv, ok, ss, acts, j, k - 1);
    }
  }

  /** What the steps before k show to an observer. */
  ghost function Collect<S, A, B>(see: (S, A) -> seq<B>, ss: seq<S>, acts: seq<A>, k: nat): seq<B>
    requires k <= |acts| && k <= |ss|
  {
    if k == 0 then [] else Collect(see, ss, acts, k - 1) + see(ss[k - 1], acts[k - 1])
  }

  lemma {:induction false} AlongCollected<S(!new), A(!new), B(!new)>(
      step: (S, A, S) -> bool, see: (S, A) -> seq<B>, holds: (S, seq<B>) -> bool, ss: seq<S>, acts: seq<A>, k: nat)
    requires Follows(step, ss, acts) && k < |ss| && holds(ss[0], [])
    requires forall s, a, t, seen :: holds(s, seen) && step(s, a, t) ==> holds(t, seen + see(s, a))
    ensures holds(ss[k], Collect(see, ss, acts, k))
  {
    if k > 0 {
      AlongCollected(step, see, holds, ss, acts, k - 1);
    }
  }
}
