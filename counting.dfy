/**
 * Counting the members of `0 .. n-1` that have a property, by recursion and as a set.
 */
module Counting {

  /** How many of `0 .. n-1` satisfy `p`. */
  function CountBelow(p: nat -> bool, n: nat): nat
  {
    if n == 0 then 0 else CountBelow(p, n - 1) + (if p(n - 1) then 1 else 0)
  }

  /** The members of `0 .. n-1` that satisfy `p`. */
  function Below(p: nat -> bool, n: nat): set<nat>
  {
    set i: nat | i < n && p(i)
  }

  lemma BelowStep(p: nat -> bool, n: nat)
    requires n > 0
    ensures Below(p, n) == Below(p, n - 1) + (if p(n - 1) then {n - 1} else {})
  {
  }

  /** Counting by recursion agrees with the size of the set. */
  lemma {:induction false} CountBelowIsCardinality(p: nat -> bool, n: nat)
    ensures CountBelow(p, n) == |Below(p, n)|
  {
    if n > 0 {
      CountBelowIsCardinality(p, n - 1);
      BelowStep(p, n);
      assert n - 1 !in Below(p, n - 1);
    }
  }
}
