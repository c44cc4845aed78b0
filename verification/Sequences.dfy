/** Sequences and sets of indices. */
module Sequences {

  /** `[0, 1, ..., n - 1]` */
  function UpTo(n: nat): seq<nat> {
    seq(n, i => i)
  }

  ghost predicate NoRepeats(x: seq<nat>) {
    forall i, j :: 0 <= i < j < |x| ==> x[i] != x[j]
  }

  lemma SubsetIsSmaller<T>(a: set<T>, b: set<T>)
    requires a <= b
    ensures |a| <= |b|
  {
    assert b == a + (b - a);
  }

  lemma {:induction false} DistinctAreCounted(x: seq<nat>, y: set<nat>)
    requires NoRepeats(x) && forall i :: 0 <= i < |x| ==> x[i] in y
    ensures |x| <= |y|
  {
    if x != [] {
      var n := |x| - 1;
      assert forall i :: 0 <= i < n ==> x[..n][i] in y - {x[n]};
      DistinctAreCounted(x[..n], y - {x[n]});
    }
  }
}
