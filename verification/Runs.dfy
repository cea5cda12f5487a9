/** Induction over the runs of a transition relation, shared by the models. */
module Runs {

  /** `ss` are the states and `es` the events of a run. */
  ghost predicate IsRun<S, E>(next: (S, E, S) -> bool, ss: seq<S>, es: seq<E>) {
    |ss| == |es| + 1 && forall i {:trigger es[i]} :: 0 <= i < |es| ==> next(ss[i], es[i], ss[i + 1])
  }

  ghost predicate Preserved<S(!new), E(!new)>(next: (S, E, S) -> bool, inv: S -> bool) {
    forall s, e, s' :: inv(s) && next(s, e, s') ==> inv(s')
  }

  /** An invariant of the first state that every step keeps holds in every state. */
  lemma {:induction false} Always<S(!new), E(!new)>(next: (S, E, S) -> bool, inv: S -> bool,
                                                    ss: seq<S>, es: seq<E>, i: nat)
    requires IsRun(next, ss, es) && i < |ss| && inv(ss[0]) && Preserved(next, inv)
    ensures inv(ss[i])
  {
    if i > 0 {
      Always(next, inv, ss, es, i - 1);
      assert next(ss[i - 1], es[i - 1], ss[i]);
    }
  }

  /** The same for a stretch of a run, whose steps may satisfy more than the run's relation. */
  lemma {:induction false} AlwaysFrom<S(!new), E(!new)>(next: (S, E, S) -> bool, inv: S -> bool,
                                                        ss: seq<S>, es: seq<E>, i: nat, j: nat)
    requires |ss| == |es| + 1 && i <= j < |ss| && inv(ss[i]) && Preserved(next, inv)
    requires forall k {:trigger es[k]} :: i <= k < j ==> next(ss[k], es[k], ss[k + 1])
    ensures inv(ss[j])
    decreases j
  {
    if i < j {
      AlwaysFrom(next, inv, ss, es, i, j - 1);
      assert next(ss[j - 1], es[j - 1], ss[j]);
    }
  }

  ghost predicate Extends<S(!new), E(!new)>(next: (S, E, S) -> bool, inv: S -> bool, rel: (S, S) -> bool) {
    forall s0, s, e, s' :: inv(s) && rel(s0, s) && next(s, e, s') ==> rel(s0, s')
  }

  /** A relation to an earlier state that every step from an invariant state extends holds to every later one. */
  lemma {:induction false} Across<S(!new), E(!new)>(next: (S, E, S) -> bool, inv: S -> bool, rel: (S, S) -> bool,
                                                    ss: seq<S>, es: seq<E>, i: nat, j: nat)
    requires IsRun(next, ss, es) && i <= j < |ss| && inv(ss[0]) && Preserved(next, inv)
    requires rel(ss[i], ss[i]) && Extends(next, inv, rel)
    ensures rel(ss[i], ss[j])
    decreases j
  {
    if i < j {
      Across(next, inv, rel, ss, es, i, j - 1);
      Always(next, inv, ss, es, j - 1);
      assert next(ss[j - 1], es[j - 1], ss[j]);
    }
  }

  /** A state property that did not hold at first began to hold in some step, and has held since. */
  lemma {:induction false} Origin<S>(p: S -> bool, ss: seq<S>, j: nat) returns (k: nat)
    requires j < |ss| && !p(ss[0]) && p(ss[j])
    ensures k < j && !p(ss[k]) && forall m :: k < m <= j ==> p(ss[m])
  {
    k := j - 1;
    if p(ss[j - 1]) {
      k := Origin(p, ss, j - 1);
    }
  }
}
