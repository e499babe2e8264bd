/** Sums of sequences of integers. */
module Sums {

  ghost function Sum(ns: seq<int>): int {
    if |ns| == 0 then 0 else Sum(ns[..|ns| - 1]) + ns[|ns| - 1]
  }

  lemma SumOne(ns: seq<int>)
    requires |ns| == 1
    ensures Sum(ns) == ns[0]
  {
    assert ns[..0] == [];
  }

  lemma {:induction false} SumUpdate(ns: seq<int>, i: int, n: int)
    requires 0 <= i < |ns|
    ensures Sum(ns[i := n]) == Sum(ns) - ns[i] + n
    decreases |ns|
  {
    var k := |ns| - 1;
    if i < k {
      assert ns[i := n][..k] == ns[..k][i := n];
      SumUpdate(ns[..k], i, n);
    } else {
      assert ns[i := n][..k] == ns[..k];
    }
  }

  /** A sum of natural numbers is natural, and zero exactly when they are all zero. */
  lemma {:induction false} SumZero(ns: seq<int>)
    requires forall i :: 0 <= i < |ns| ==> ns[i] >= 0
    ensures Sum(ns) >= 0
    ensures Sum(ns) == 0 <==> forall i :: 0 <= i < |ns| ==> ns[i] == 0
    decreases |ns|
  {
    if |ns| > 0 {
      var k := |ns| - 1;
      SumZero(ns[..k]);
      assert forall i :: 0 <= i < k ==> ns[..k][i] == ns[i];
    }
  }

  /** One or two of the numbers alone are no more than the sum. */
  lemma SumAtLeast(ns: seq<int>, i: int, j: int)
    requires 0 <= i < |ns| && 0 <= j < |ns| && forall k :: 0 <= k < |ns| ==> ns[k] >= 0
    ensures ns[i] <= Sum(ns)
    ensures i != j ==> ns[i] + ns[j] <= Sum(ns)
  {
    SumUpdate(ns, i, 0);
    SumUpdate(ns[i := 0], j, 0);
    SumZero(ns[i := 0]);
    SumZero(ns[i := 0][j := 0]);
  }
}
