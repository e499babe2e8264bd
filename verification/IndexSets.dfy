/** Sets of indices 0 .. n-1 and the sizes of their subsets. */
module IndexSets {

  /** The indices 0 .. n-1. */
  ghost function Below(n: nat): (r: set<int>)
    ensures |r| == n && forall i :: i in r <==> 0 <= i < n
  {
    if n == 0 then {} else Below(n - 1) + {n - 1}
  }

  lemma SubsetSize(a: set<int>, b: set<int>)
    requires a <= b
    ensures |a| <= |b|
    ensures |a| == |b| ==> a == b
  {
    assert b == a + (b - a);
  }

  /** A set of n indices below n holds them all. */
  lemma FullSet(s: set<int>, n: nat)
    requires (forall v :: v in s ==> 0 <= v < n) && |s| >= n
    ensures s == Below(n)
  {
    SubsetSize(s, Below(n));
  }

  /** A smaller one leaves one out. */
  lemma NotFullSet(s: set<int>, n: nat)
    requires |s| < n
    ensures exists v :: 0 <= v < n && v !in s
  {
    if forall v :: 0 <= v < n ==> v in s {
      SubsetSize(Below(n), s);
    }
  }

  ghost function Elements(s: seq<int>): set<int> {
    set i | 0 <= i < |s| :: s[i]
  }

  lemma {:induction false} DistinctElements(s: seq<int>)
    requires forall i, j :: 0 <= i < j < |s| ==> s[i] != s[j]
    ensures |Elements(s)| == |s|
    decreases |s|
  {
    if |s| > 0 {
      var k := |s| - 1;
      DistinctElements(s[..k]);
      assert Elements(s) == Elements(s[..k]) + {s[k]};
    }
  }

  /** More than n indices below n repeat one. */
  lemma Pigeonhole(s: seq<int>, n: nat) returns (i: int, j: int)
    requires |s| > n && forall k :: 0 <= k < |s| ==> 0 <= s[k] < n
    ensures 0 <= i < j < |s| && s[i] == s[j]
  {
    if forall a, b :: 0 <= a < b < |s| ==> s[a] != s[b] {
      DistinctElements(s);
      SubsetSize(Elements(s), Below(n));
      assert false;
    }
    i, j :| 0 <= i < j < |s| && s[i] == s[j];
  }

  ghost function Marked(marks: seq<bool>): set<int> {
    set i | 0 <= i < |marks| && marks[i]
  }

  ghost function Unmarked(marks: seq<bool>): set<int> {
    set i | 0 <= i < |marks| && !marks[i]
  }
}
