/** Sums of ranks, for showing that runs end. */
module Sums {

  function Sum(ranks: seq<nat>): nat {
    if ranks == [] then 0 else ranks[0] + Sum(ranks[1..])
  }

  lemma {:induction false} SumUpdate(a: seq<nat>, i: nat, v: nat)
    requires i < |a|
    ensures Sum(a[i := v]) == Sum(a) - a[i] + v
  {
    if i > 0 {
      assert a[i := v][1..] == a[1..][i - 1 := v];
      SumUpdate(a[1..], i - 1, v);
    }
  }

  lemma {:induction false} SumOfSame(n: nat, v: nat)
    ensures Sum(seq(n, _ => v)) == n * v
  {
    if n > 0 {
      SumOfSame(n - 1, v);
      assert seq(n, _ => v)[1..] == seq(n - 1, _ => v);
    }
  }

  /** Sums grow with their parts. */
  lemma {:induction false} SumGrows(a: seq<nat>, b: seq<nat>)
    requires |a| == |b| && forall i :: 0 <= i < |a| ==> a[i] <= b[i]
    ensures Sum(a) <= Sum(b)
  {
    if a != [] {
      SumGrows(a[1..], b[1..]);
    }
  }
}
