/** Two ways to say what a run has done so far: how often something happened, and what happened last. */
module Runs {

  /** The places in the run where the step is `x`. */
  function At<S(==)>(steps: seq<S>, x: S): nat -> bool {
    (m: nat) => m < |steps| && steps[m] == x
  }

  /** The places in the run where the step is of a kind. */
  function Where<S>(steps: seq<S>, kind: S -> bool): nat -> bool {
    (m: nat) => m < |steps| && kind(steps[m])
  }

  /** No place at all. */
  function Never(): nat -> bool {
    (m: nat) => false
  }

  /** How many of the first `n` places are marked. */
  function Count(mark: nat -> bool, n: nat): (c: nat)
    ensures c <= n
  {
    if n == 0 then 0 else Count(mark, n - 1) + if mark(n - 1) then 1 else 0
  }

  /** A value that starts at zero and goes up by one exactly at the marked places is their number. */
  lemma {:induction false} CountHolds(value: nat -> int, mark: nat -> bool, n: nat)
    requires value(0) == 0
    requires forall k: nat :: k < n ==> value(k + 1) == value(k) + if mark(k) then 1 else 0
    ensures value(n) == Count(mark, n)
  {
    if n == 0 {
    } else {
      CountHolds(value, mark, n - 1);
      assert value((n - 1) + 1) == value(n - 1) + if mark(n - 1) then 1 else 0;
    }
  }

  /** Something switched it on, and nothing has switched it off since. */
  ghost predicate Since(on: nat -> bool, off: nat -> bool, n: nat) {
    exists m: nat :: m < n && on(m) && forall k :: m < k < n ==> !off(k)
  }

  lemma SinceStep(on: nat -> bool, off: nat -> bool, n: nat)
    ensures Since(on, off, n + 1) <==> on(n) || (Since(on, off, n) && !off(n))
  {
    if Since(on, off, n) && !off(n) {
      var m: nat :| m < n && on(m) && forall k :: m < k < n ==> !off(k);
      assert m < n + 1 && on(m) && forall k :: m < k < n + 1 ==> !off(k);
    }
    if Since(on, off, n + 1) && !on(n) {
      var m: nat :| m < n + 1 && on(m) && forall k :: m < k < n + 1 ==> !off(k);
      assert m < n;
    }
  }

  /** A condition that starts false and changes only where it is switched on or off holds since its last switch. */
  lemma {:induction false} SinceHolds(p: nat -> bool, on: nat -> bool, off: nat -> bool, n: nat)
    requires !p(0)
    requires forall k: nat :: k < n ==> (p(k + 1) <==> on(k) || (p(k) && !off(k)))
    ensures p(n) <==> Since(on, off, n)
  {
    if n == 0 {
    } else {
      SinceHolds(p, on, off, n - 1);
      SinceStep(on, off, n - 1);
      assert p((n - 1) + 1) <==> on(n - 1) || (p(n - 1) && !off(n - 1));
    }
  }
}
