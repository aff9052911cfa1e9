/**
 Runs of a step machine, for any state and step types: what every step keeps
 holds in every state of every run.
 */
module Runs {

  /** Each state of ss follows from the one before by the step between them. */
  ghost predicate Linked<S(!new), A(!new)>(next: (S, A, S) -> bool, ss: seq<S>, steps: seq<A>) {
    && |ss| == |steps| + 1
    && forall i :: 0 <= i < |steps| ==> next(ss[i], steps[i], ss[i + 1])
  }

  lemma {:induction false} Invariant<S(!new), A(!new)>(next: (S, A, S) -> bool, inv: S -> bool,
                                                       ss: seq<S>, steps: seq<A>, i: nat)
    requires Linked(next, ss, steps) && i < |ss| && inv(ss[0])
    requires forall s, a, t :: inv(s) && next(s, a, t) ==> inv(t)
    ensures inv(ss[i])
  {
    if i > 0 {
      Invariant(next, inv, ss, steps, i - 1);
    }
  }

  /** The steps of next that meet a condition. */
  ghost function Where<S(!new), A(!new)>(next: (S, A, S) -> bool, cond: (S, A) -> bool): (S, A, S) -> bool {
    (s, a, t) => next(s, a, t) && cond(s, a)
  }

  /** From state i to state k of a run whose steps between them meet a condition, what those steps keep holds. */
  lemma Between<S(!new), A(!new)>(next: (S, A, S) -> bool, cond: (S, A) -> bool, inv: S -> bool,
                                  ss: seq<S>, steps: seq<A>, i: nat, k: nat)
    requires Linked(next, ss, steps) && i <= k < |ss| && inv(ss[i])
    requires forall j :: i <= j < k ==> cond(ss[j], steps[j])
    requires forall s, a, t :: inv(s) && next(s, a, t) && cond(s, a) ==> inv(t)
    ensures inv(ss[k])
  {
    forall j | 0 <= j < k - i
      ensures Where(next, cond)(ss[i..k + 1][j], steps[i..k][j], ss[i..k + 1][j + 1])
    {
      assert next(ss[i + j], steps[i + j], ss[i + j + 1]);
    }
    Invariant(Where(next, cond), inv, ss[i..k + 1], steps[i..k], k - i);
  }
}
