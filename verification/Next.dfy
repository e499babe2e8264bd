/** Lexicographic order on sequences of equal length. */
module LexicographicOrder {

  ghost predicate FirstDifference(s: seq<int>, t: seq<int>, k: nat) {
    && k < |s| == |t| && s[k] < t[k]
    && forall p :: 0 <= p < k ==> s[p] == t[p]
  }

  ghost predicate LexLess(s: seq<int>, t: seq<int>) {
    exists k :: FirstDifference(s, t, k)
  }

  /** t is the next sequence after s among those in a class. */
  ghost predicate Successor(s: seq<int>, t: seq<int>, inClass: seq<int> -> bool) {
    && inClass(t) && LexLess(s, t)
    && forall u :: inClass(u) && LexLess(s, u) ==> !LexLess(u, t)
  }

  /** A sequence between s and t agrees with them up to their first difference. */
  lemma Between(s: seq<int>, u: seq<int>, t: seq<int>, j: nat)
    requires FirstDifference(s, t, j) && LexLess(s, u) && LexLess(u, t)
    ensures |u| == |s| && s[j] <= u[j] <= t[j]
    ensures forall p :: 0 <= p < j ==> u[p] == s[p]
    ensures u[j] == s[j] ==> exists k :: k > j && FirstDifference(s, u, k)
    ensures u[j] == t[j] ==> exists k :: k > j && FirstDifference(u, t, k)
  {
    var k1: nat :| FirstDifference(s, u, k1);
    var k2: nat :| FirstDifference(u, t, k2);
    NotBefore(s, u, t, j, k1, k2);
    if u[j] == s[j] {
      assert k1 > j;
    }
    if u[j] == t[j] {
      assert k2 > j;
    }
  }

  lemma NotBefore(s: seq<int>, u: seq<int>, t: seq<int>, j: nat, k1: nat, k2: nat)
    requires FirstDifference(s, t, j) && FirstDifference(s, u, k1) && FirstDifference(u, t, k2)
    ensures k1 >= j && k2 >= j
  {
  }
}

module NextPermutations {
  import opened LexicographicOrder
  import opened NearlySortedSequences

  ghost predicate Descending(s: seq<int>) {
    forall p, q :: 0 <= p < q < |s| ==> s[p] >= s[q]
  }

  /** Two arrangements that agree up to place k have the same elements from there on. */
  lemma SameRest(s: seq<int>, t: seq<int>, k: nat)
    requires Rearranged(s, t) && k <= |s| == |t| && forall p :: 0 <= p < k ==> s[p] == t[p]
    ensures Rearranged(s[k..], t[k..])
  {
    assert s[..k] == t[..k];
    assert s == s[..k] + s[k..] && t == t[..k] + t[k..];
    assert multiset(s[k..]) == multiset(s) - multiset(s[..k]);
  }

  /** Where an element of an arrangement is in the other, from the place of agreement on. */
  lemma FindElement(s: seq<int>, t: seq<int>, k: nat, m: nat) returns (q: nat)
    requires Rearranged(s, t) && k <= m < |t| == |s| && forall p :: 0 <= p < k ==> s[p] == t[p]
    ensures k <= q < |s| && s[q] == t[m]
  {
    SameRest(s, t, k);
    assert t[k..][m - k] in multiset(t[k..]);
    assert t[m] in multiset(s[k..]);
    var i :| 0 <= i < |s[k..]| && s[k..][i] == t[m];
    q := k + i;
  }

  /** A rest that descends is the greatest arrangement of its elements. */
  lemma GreatestRest(s: seq<int>, u: seq<int>, j: nat, k: nat)
    requires Rearranged(s, u) && j <= k && forall p, q :: j <= p < q < |s| ==> s[p] >= s[q]
    ensures !FirstDifference(s, u, k)
  {
    if FirstDifference(s, u, k) {
      var q := FindElement(s, u, k, k);
    }
  }

  /** A rest that ascends is the least arrangement of its elements. */
  lemma LeastRest(u: seq<int>, t: seq<int>, j: nat, k: nat)
    requires Rearranged(u, t) && j <= k && forall p, q :: j <= p < q < |t| ==> t[p] <= t[q]
    ensures !FirstDifference(u, t, k)
  {
    if FirstDifference(u, t, k) {
      var q := FindElement(t, u, k, k);
    }
  }

  /** The first half of the step: s[j] is exchanged with the last greater element, then the rest is ascending. */
  ghost predicate Stepped(s: seq<int>, t: seq<int>, j: nat, k: nat) {
    && j < k < |s| == |t| && s[k] > s[j] && t[j] == s[k]
    && (forall p, q :: j < p < q < |s| ==> s[p] >= s[q])
    && (forall p :: k < p < |s| ==> s[p] <= s[j])
    && (forall p :: 0 <= p < j ==> t[p] == s[p])
    && (forall p, q :: j < p < q < |t| ==> t[p] <= t[q])
    && Rearranged(s, t)
  }

  lemma SteppedIsSuccessor(s: seq<int>, t: seq<int>, j: nat, k: nat)
    requires Stepped(s, t, j, k)
    ensures Successor(s, t, u => Rearranged(s, u))
  {
    assert FirstDifference(s, t, j);
    forall u | Rearranged(s, u)
      ensures !(LexLess(s, u) && LexLess(u, t))
    {
      NothingBetween(s, u, t, j, k);
    }
  }

  lemma NothingBetween(s: seq<int>, u: seq<int>, t: seq<int>, j: nat, k: nat)
    requires Stepped(s, t, j, k) && Rearranged(s, u)
    ensures !(LexLess(s, u) && LexLess(u, t))
  {
    if LexLess(s, u) && LexLess(u, t) {
      assert FirstDifference(s, t, j);
      Between(s, u, t, j);
      if u[j] == s[j] {
        var d: nat :| d > j && FirstDifference(s, u, d);
        GreatestRest(s, u, j + 1, d);
      } else if u[j] == t[j] {
        var d: nat :| d > j && FirstDifference(u, t, d);
        LeastRest(u, t, j + 1, d);
      } else {
        var q := FindElement(s, u, j, j);
      }
    }
  }

  lemma NoneGreater(s: seq<int>)
    requires Descending(s)
    ensures forall u :: Rearranged(s, u) ==> !LexLess(s, u)
  {
    forall u | Rearranged(s, u)
      ensures !LexLess(s, u)
    {
      if LexLess(s, u) {
        var d: nat :| FirstDifference(s, u, d);
        GreatestRest(s, u, 0, d);
      }
    }
  }

  /** After the exchange and the reversal of what follows place j. */
  lemma StepDone(s: seq<int>, w: seq<int>, t: seq<int>, j: nat, k: nat)
    requires j < k < |s| == |t| && s[k] > s[j] && w == s[j := s[k]][k := s[j]]
    requires forall p, q :: j < p < q < |s| ==> s[p] >= s[q]
    requires forall p :: k < p < |s| ==> s[p] <= s[j]
    requires Rearranged(w, t) && (forall p :: 0 <= p <= j ==> t[p] == w[p])
    requires forall p :: j < p < |s| ==> t[p] == w[|s| + j - p]
    ensures Stepped(s, t, j, k)
  {
    SwapPermutes(s, j, k);
  }

  lemma DescendingFrom(s: seq<int>, j: int)
    requires -1 <= j && forall p :: j < p < |s| - 1 ==> s[p + 1] <= s[p]
    ensures forall p, q :: j < p < q < |s| ==> s[p] >= s[q]
    decreases |s| - j
  {
    if j + 1 < |s| {
      DescendingFrom(s, j + 1);
      if j + 2 < |s| {
        assert s[j + 1] >= s[j + 2];
      }
    }
  }

  lemma OnlyArrangement(s: seq<int>)
    requires |s| <= 1
    ensures Sorted(s) && Descending(s) && Rearranged(s, s)
  {
  }

  method NextPermutation(data: array<int>) returns (r: bool)
    modifies data
    ensures r ==> Successor(old(data[..]), data[..], u => Rearranged(old(data[..]), u))
    ensures !r ==> forall u :: Rearranged(old(data[..]), u) ==> !LexLess(old(data[..]), u)
    ensures !r ==> Sorted(data[..]) && Rearranged(old(data[..]), data[..])
  {
    hide Rearranged;
    var n := data.Length;
    ghost var s := data[..];
    if n <= 1 {
      OnlyArrangement(s);
      NoneGreater(s);
      return false;
    }
    var j := n - 2;
    while j >= 0 && data[j + 1] <= data[j]
      invariant -1 <= j <= n - 2
      invariant forall p :: j < p < n - 1 ==> s[p + 1] <= s[p]
    {
      j := j - 1;
    }
    DescendingFrom(s, j);
    if j < 0 {
      NoneGreater(s);
      ReverseAll(data);
      return false;
    }
    var k := n - 1;
    while data[k] <= data[j]
      invariant j < k < n
      invariant forall p :: k < p < n ==> s[p] <= s[j]
      decreases k
    {
      k := k - 1;
    }
    data[j], data[k] := data[k], data[j];
    ghost var w := data[..];
    ReverseAfter(data, j);
    StepDone(s, w, data[..], j, k);
    SteppedIsSuccessor(s, data[..], j, k);
    return true;
  }

  method Exchange(data: array<int>, i: nat, j: nat, ghost s: seq<int>)
    requires i < data.Length && j < data.Length && Rearranged(s, data[..])
    modifies data
    ensures data[..] == old(data[..])[i := old(data[j])][j := old(data[i])] && Rearranged(s, data[..])
  {
    SwapPermutes(data[..], i, j);
    data[i], data[j] := data[j], data[i];
  }

  method ReverseAll(data: array<int>)
    modifies data
    ensures Rearranged(old(data[..]), data[..])
    ensures forall p :: 0 <= p < data.Length ==> data[p] == old(data[data.Length - 1 - p])
  {
    ghost var s := data[..];
    assert Rearranged(s, data[..]);
    hide Rearranged;
    var n := data.Length;
    var mid := n / 2;
    for i := 0 to mid
      invariant Rearranged(s, data[..])
      invariant forall p :: 0 <= p < i ==> data[p] == s[n - 1 - p] && data[n - 1 - p] == s[p]
      invariant forall p :: i <= p < n - i ==> data[p] == s[p]
    {
      Exchange(data, i, n - 1 - i, s);
    }
  }

  method ReverseAfter(data: array<int>, j: nat)
    requires j < data.Length
    modifies data
    ensures Rearranged(old(data[..]), data[..])
    ensures forall p :: 0 <= p <= j ==> data[p] == old(data[p])
    ensures forall p :: j < p < data.Length ==> data[p] == old(data[data.Length + j - p])
  {
    ghost var s := data[..];
    assert Rearranged(s, data[..]);
    hide Rearranged;
    var n := data.Length;
    var k := j + 1;
    while k <= (j + n) / 2
      invariant j < k <= (j + n) / 2 + 1
      invariant Rearranged(s, data[..])
      invariant forall p :: 0 <= p <= j ==> data[p] == s[p]
      invariant forall p :: j < p < k ==> data[p] == s[n + j - p] && data[n + j - p] == s[p]
      invariant forall p :: k <= p <= n + j - k ==> data[p] == s[p]
    {
      Exchange(data, k, n + j - k, s);
      k := k + 1;
    }
  }
}

module NextCombinations {
  import opened LexicographicOrder

  /** The elements of an r-subset of 0 .. n-1 in ascending order. */
  ghost predicate IsCombination(s: seq<int>, n: nat, r: nat) {
    && |s| == r
    && (forall p :: 0 <= p < r ==> 0 <= s[p] < n)
    && forall p, q :: 0 <= p < q < r ==> s[p] < s[q]
  }

  lemma {:induction false} AtMost(s: seq<int>, n: nat, r: nat, p: nat)
    requires IsCombination(s, n, r) && p < r
    ensures s[p] <= n - r + p
    decreases r - p
  {
    if p + 1 < r {
      AtMost(s, n, r, p + 1);
    }
  }

  lemma {:induction false} AtLeast(s: seq<int>, n: nat, r: nat, p: nat, q: nat)
    requires IsCombination(s, n, r) && p <= q < r
    ensures s[q] >= s[p] + (q - p)
    decreases q
  {
    if p < q {
      AtLeast(s, n, r, p, q - 1);
    }
  }

  /** The element at i grows by one, the following ones are as small as they can be. */
  ghost predicate Stepped(s: seq<int>, t: seq<int>, n: nat, r: nat, i: nat) {
    && i < r == |t| && IsCombination(s, n, r) && s[i] < n - r + i
    && (forall p :: i < p < r ==> s[p] == n - r + p)
    && (forall p :: 0 <= p < i ==> t[p] == s[p])
    && (forall p :: i <= p < r ==> t[p] == s[i] + 1 + (p - i))
  }

  lemma SteppedIsSuccessor(s: seq<int>, t: seq<int>, n: nat, r: nat, i: nat)
    requires Stepped(s, t, n, r, i)
    ensures Successor(s, t, u => IsCombination(u, n, r))
  {
    assert FirstDifference(s, t, i);
    forall u | IsCombination(u, n, r)
      ensures !(LexLess(s, u) && LexLess(u, t))
    {
      NothingBetween(s, u, t, n, r, i);
    }
  }

  lemma NothingBetween(s: seq<int>, u: seq<int>, t: seq<int>, n: nat, r: nat, i: nat)
    requires Stepped(s, t, n, r, i) && IsCombination(u, n, r)
    ensures !(LexLess(s, u) && LexLess(u, t))
  {
    if LexLess(s, u) && LexLess(u, t) {
      assert FirstDifference(s, t, i);
      Between(s, u, t, i);
      if u[i] == s[i] {
        var d: nat :| d > i && FirstDifference(s, u, d);
        AtMost(u, n, r, d);
      } else {
        var d: nat :| d > i && FirstDifference(u, t, d);
        AtLeast(u, n, r, i, d);
      }
    }
  }

  lemma NoneGreater(s: seq<int>, n: nat, r: nat)
    requires IsCombination(s, n, r) && forall p :: 0 <= p < r ==> s[p] == n - r + p
    ensures forall u :: IsCombination(u, n, r) ==> !LexLess(s, u)
  {
    forall u | IsCombination(u, n, r)
      ensures !LexLess(s, u)
    {
      if LexLess(s, u) {
        var d: nat :| FirstDifference(s, u, d);
        AtMost(u, n, r, d);
      }
    }
  }

  method NextCombination(data: array<int>, n: nat) returns (more: bool)
    requires IsCombination(data[..], n, data.Length)
    modifies data
    ensures more ==> Successor(old(data[..]), data[..], u => IsCombination(u, n, data.Length))
    ensures !more ==> data[..] == old(data[..])
    ensures !more ==> forall u :: IsCombination(u, n, data.Length) ==> !LexLess(old(data[..]), u)
  {
    var r := data.Length;
    ghost var s := data[..];
    var i := r - 1;
    while i >= 0 && data[i] == n - r + i
      invariant -1 <= i < r
      invariant forall p :: i < p < r ==> s[p] == n - r + p
    {
      i := i - 1;
    }
    if i < 0 {
      NoneGreater(s, n, r);
      return false;
    }
    AtMost(s, n, r, i);
    data[i] := data[i] + 1;
    for j := i + 1 to r
      invariant forall p :: 0 <= p < i ==> data[p] == s[p]
      invariant forall p :: i <= p < j ==> data[p] == s[i] + 1 + (p - i)
    {
      data[j] := data[j - 1] + 1;
    }
    SteppedIsSuccessor(s, data[..], n, r, i);
    return true;
  }
}
