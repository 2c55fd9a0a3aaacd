/** Counting with sets of numbers. */
module Counting {

  /** The numbers below n. */
  function Below(n: nat): (s: set<nat>)
    ensures |s| == n && forall x :: x in s <==> 0 <= x < n
  {
    if n == 0 then {} else Below(n - 1) + {n - 1}
  }

  lemma {:induction false} Subset(a: set<nat>, b: set<nat>)
    requires a <= b
    ensures |a| <= |b|
  {
    if a != {} {
      var x :| x in a;
      Subset(a - {x}, b - {x});
    }
  }

  /** A set with fewer than n numbers misses one below n. */
  lemma {:induction false} Pigeonhole(ids: set<nat>, n: nat)
    requires |ids| < n
    ensures exists x: nat :: x < n && x !in ids
  {
    var all := Below(n);
    if forall x: nat :: x < n ==> x in ids {
      Subset(all, ids);
    }
  }
}
