/** Applying a list of updates, one after the other. */
module Replay {
  ghost function ApplyAll<S, U>(apply: (S, U) -> S, st: S, us: seq<U>): S {
    if us == [] then st else apply(ApplyAll(apply, st, us[..|us| - 1]), us[|us| - 1])
  }

  /** One update more. */
  lemma ApplyAllNext<S, U>(apply: (S, U) -> S, st: S, us: seq<U>, i: nat)
    requires i < |us|
    ensures ApplyAll(apply, st, us[..i + 1]) == apply(ApplyAll(apply, st, us[..i]), us[i])
  {
    assert us[..i + 1][..i] == us[..i];
  }

  lemma {:induction false} ApplyAllConcat<S, U>(apply: (S, U) -> S, st: S, a: seq<U>, b: seq<U>)
    ensures ApplyAll(apply, st, a + b) == ApplyAll(apply, ApplyAll(apply, st, a), b)
  {
    if b == [] {
      assert a + b == a;
    } else {
      ApplyAllConcat(apply, st, a, b[..|b| - 1]);
      assert (a + b)[..|a + b| - 1] == a + b[..|b| - 1];
    }
  }
}
