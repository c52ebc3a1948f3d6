/** Runs of a deterministic machine. */
module Runs {
  import opened Words

  /** n steps lead from a to b. */
  ghost predicate Run<S(!new)>(step: S -> Option<S>, a: S, b: S, n: nat)
    decreases n
  {
    if n == 0 then a == b else step(a).Some? && Run(step, step(a).value, b, n - 1)
  }

  ghost predicate Reaches<S(!new)>(step: S -> Option<S>, a: S, b: S) {
    exists n: nat :: Run(step, a, b, n)
  }

  lemma {:induction false} RunChain<S(!new)>(step: S -> Option<S>, a: S, b: S, c: S, m: nat, n: nat)
    requires Run(step, a, b, m) && Run(step, b, c, n)
    ensures Run(step, a, c, m + n)
    decreases m
  {
    if m > 0 {
      RunChain(step, step(a).value, b, c, m - 1, n);
    }
  }

  lemma ReachTrans<S(!new)>(step: S -> Option<S>, a: S, b: S, c: S)
    requires Reaches(step, a, b) && Reaches(step, b, c)
    ensures Reaches(step, a, c)
  {
    var m: nat :| Run(step, a, b, m);
    var n: nat :| Run(step, b, c, n);
    RunChain(step, a, b, c, m, n);
  }

  lemma ReachSelf<S(!new)>(step: S -> Option<S>, a: S)
    ensures Reaches(step, a, a)
  {
    assert Run(step, a, a, 0);
  }

  lemma ReachStep<S(!new)>(step: S -> Option<S>, a: S, b: S)
    requires step(a) == Some(b)
    ensures Reaches(step, a, b)
  {
    assert Run(step, b, b, 0);
    assert Run(step, a, b, 1);
  }

  lemma ReachMore<S(!new)>(step: S -> Option<S>, a: S, b: S, c: S)
    requires Reaches(step, a, b) && step(b) == Some(c)
    ensures Reaches(step, a, c)
  {
    hide Reaches;
    ReachStep(step, b, c);
    ReachTrans(step, a, b, c);
  }

  /** A run to a state without a successor goes through every state reached on the way. */
  lemma {:induction false} RunRest<S(!new)>(step: S -> Option<S>, a: S, b: S, c: S, m: nat, n: nat)
    requires Run(step, a, b, m) && Run(step, a, c, n) && step(c).None?
    ensures m <= n && Run(step, b, c, n - m)
    decreases m
  {
    if m > 0 {
      RunRest(step, step(a).value, b, c, m - 1, n - 1);
    }
  }
}
