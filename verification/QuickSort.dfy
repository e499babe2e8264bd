/** Sequences that are sorted up to a distance, and what insertion does to them. */
module NearlySortedSequences {

  ghost predicate Sorted(s: seq<int>) {
    forall p, q :: 0 <= p < q < |s| ==> s[p] <= s[q]
  }

  /** Elements k or more places apart are in order. */
  ghost predicate NearlySorted(s: seq<int>, k: nat) {
    forall p, q :: 0 <= p < q < |s| && q - p >= k ==> s[p] <= s[q]
  }

  ghost predicate Rearranged(s: seq<int>, t: seq<int>) {
    multiset(s) == multiset(t)
  }

  ghost function CountGreater(s: seq<int>, x: int): (r: nat)
    ensures r <= |s|
  {
    if |s| == 0 then 0 else CountGreater(s[..|s| - 1], x) + if s[|s| - 1] > x then 1 else 0
  }

  lemma {:induction false} CountAppend(s: seq<int>, t: seq<int>, x: int)
    ensures CountGreater(s + t, x) == CountGreater(s, x) + CountGreater(t, x)
    decreases |t|
  {
    if |t| == 0 {
      assert s + t == s;
    } else {
      CountAppend(s, t[..|t| - 1], x);
      assert (s + t)[..|s + t| - 1] == s + t[..|t| - 1];
    }
  }

  lemma {:induction false} CountNone(s: seq<int>, x: int)
    requires forall p :: 0 <= p < |s| ==> s[p] <= x
    ensures CountGreater(s, x) == 0
    decreases |s|
  {
    if |s| > 0 {
      CountNone(s[..|s| - 1], x);
    }
  }

  lemma {:induction false} CountAll(s: seq<int>, x: int)
    requires forall p :: 0 <= p < |s| ==> s[p] > x
    ensures CountGreater(s, x) == |s|
    decreases |s|
  {
    if |s| > 0 {
      CountAll(s[..|s| - 1], x);
    }
  }

  lemma CountSplit(s: seq<int>, i: nat, x: int)
    requires i <= |s|
    ensures CountGreater(s, x) == CountGreater(s[..i], x) + CountGreater(s[i..], x)
  {
    assert s == s[..i] + s[i..];
    CountAppend(s[..i], s[i..], x);
  }

  /** One element decides that the count is not zero, or not everything. */
  lemma {:induction false} CountWitness(s: seq<int>, p: nat, x: int)
    requires p < |s|
    ensures s[p] > x ==> CountGreater(s, x) > 0
    ensures s[p] <= x ==> CountGreater(s, x) < |s|
    decreases |s|
  {
    if p < |s| - 1 {
      CountWitness(s[..|s| - 1], p, x);
    }
  }

  lemma CountOne(y: int, x: int)
    ensures CountGreater([y], x) == if y > x then 1 else 0
  {
    assert [y][..0] == [];
  }

  lemma CountRemove(s: seq<int>, i: nat, x: int)
    requires i < |s|
    ensures CountGreater(s, x) == CountGreater(s[..i] + s[i + 1..], x) + if s[i] > x then 1 else 0
  {
    hide CountGreater;
    CountSplit(s, i, x);
    CountSplit(s[i..], 1, x);
    CountOne(s[i], x);
    assert s[i..][..1] == [s[i]] && s[i..][1..] == s[i + 1..];
    CountAppend(s[..i], s[i + 1..], x);
  }

  /** The count does not depend on the order. */
  lemma {:induction false} CountRearranged(s: seq<int>, t: seq<int>, x: int)
    requires Rearranged(s, t)
    ensures CountGreater(s, x) == CountGreater(t, x)
    decreases |s|
  {
    assert |s| == |multiset(s)| == |multiset(t)| == |t|;
    if |s| > 0 {
      var k := |s| - 1;
      var i := PlaceOf(t, s[k]);
      RemoveAt(s, k);
      RemoveAt(t, i);
      CountRearranged(s[..k] + s[k + 1..], t[..i] + t[i + 1..], x);
      CountRemove(s, k, x);
      CountRemove(t, i, x);
    }
  }

  lemma PlaceOf(t: seq<int>, y: int) returns (i: nat)
    requires y in multiset(t)
    ensures i < |t| && t[i] == y
  {
    i :| i < |t| && t[i] == y;
  }

  lemma RemoveAt(s: seq<int>, i: nat)
    requires i < |s|
    ensures multiset(s[..i] + s[i + 1..]) == multiset(s) - multiset{s[i]}
  {
    assert s == s[..i] + ([s[i]] + s[i + 1..]);
  }

  /** In a nearly sorted sequence fewer than k earlier elements are greater. */
  lemma FewGreater(s: seq<int>, k: nat, j: nat)
    requires NearlySorted(s, k) && k >= 1 && j < |s|
    ensures CountGreater(s[..j], s[j]) < k
  {
    hide CountGreater;
    if j >= k {
      var front, i := s[..j], j - k + 1;
      CountSplit(front, i, s[j]);
      CountNone(front[..i], s[j]);
    }
  }

  /** Where the elements above x are known to be, in a sorted arrangement. */
  lemma SortedRank(s: seq<int>, t: seq<int>, x: int, m: nat)
    requires Rearranged(s, t) && Sorted(t) && m < |t|
    ensures t[m] > x ==> CountGreater(s, x) >= |t| - m
    ensures t[m] <= x ==> CountGreater(s, x) < |t| - m
  {
    hide CountGreater;
    CountRearranged(s, t, x);
    CountSplit(t, m, x);
    if t[m] > x {
      CountAll(t[m..], x);
    } else {
      CountNone(t[..m], x);
      CountWitness(t[m..], 0, x);
    }
  }

  /** The elements from place p + k on and the one at p are at least s[p]. */
  lemma FewSmaller(s: seq<int>, k: nat, p: nat)
    requires NearlySorted(s, k) && k >= 1 && p + k - 1 < |s|
    ensures CountGreater(s, s[p] - 1) > |s| - (p + k)
  {
    hide CountGreater;
    var x := s[p] - 1;
    CountSplit(s, p + k, x);
    CountWitness(s[..p + k], p, x);
    CountAll(s[p + k..], x);
  }

  /** Sorting a nearly sorted sequence moves no element k or more places. */
  lemma RanksClose(s: seq<int>, t: seq<int>, k: nat, p: nat)
    requires NearlySorted(s, k) && k >= 1 && Rearranged(s, t) && Sorted(t) && p < |s| == |t|
    ensures p >= k - 1 ==> t[p - (k - 1)] <= s[p]
    ensures p + (k - 1) < |t| ==> s[p] <= t[p + (k - 1)]
  {
    hide CountGreater;
    var x := s[p];
    if p >= k - 1 {
      FewGreater(s, k, p);
      CountSplit(s, p, x);
      CountWitness(s[p..], 0, x);
      SortedRank(s, t, x, p - (k - 1));
    }
    if p + (k - 1) < |t| {
      FewSmaller(s, k, p);
      SortedRank(s, t, x - 1, p + (k - 1));
    }
  }

  // ----- Permutations of a range -----

  /** Only the elements left .. right have been permuted. */
  ghost predicate RangePermuted(s: seq<int>, t: seq<int>, left: int, right: int)
    requires 0 <= left <= right + 1 <= |s|
  {
    && |t| == |s| && t[..left] == s[..left] && t[right + 1..] == s[right + 1..]
    && Rearranged(s[left..right + 1], t[left..right + 1])
  }

  /** What a permutation of a range leaves in it was there before. */
  lemma ElementKept(s: seq<int>, t: seq<int>, left: int, right: int, q: int) returns (p: int)
    requires 0 <= left <= right + 1 <= |s| && RangePermuted(s, t, left, right) && left <= q <= right
    ensures left <= p <= right && s[p] == t[q]
  {
    assert t[left..right + 1][q - left] in multiset(t[left..right + 1]);
    assert t[q] in multiset(s[left..right + 1]);
    var k :| 0 <= k < right + 1 - left && s[left..right + 1][k] == t[q];
    p := left + k;
  }

  lemma SwapPermutes(s: seq<int>, i: nat, j: nat)
    requires i < |s| && j < |s|
    ensures Rearranged(s, s[i := s[j]][j := s[i]])
  {
  }

  lemma SliceUpdate(s: seq<int>, i: int, x: int, l: int, r: int)
    requires 0 <= l <= i < r <= |s|
    ensures s[i := x][l..r] == s[l..r][i - l := x] && s[i := x][..l] == s[..l] && s[i := x][r..] == s[r..]
  {
  }

  lemma SliceSwap(s: seq<int>, l: int, r: int, i: int, j: int) returns (t: seq<int>)
    requires 0 <= l <= i < r <= |s| && l <= j < r
    ensures t == s[i := s[j]][j := s[i]] && t[..l] == s[..l] && t[r..] == s[r..]
    ensures t[l..r] == s[l..r][i - l := s[l..r][j - l]][j - l := s[l..r][i - l]]
  {
    var u := s[i := s[j]];
    t := u[j := s[i]];
    SliceUpdate(s, i, s[j], l, r);
    SliceUpdate(u, j, s[i], l, r);
    assert s[l..r][j - l] == s[j] && s[l..r][i - l] == s[i];
  }

  lemma SwapInRange(s: seq<int>, left: int, right: int, i: int, j: int)
    requires 0 <= left <= right < |s| && left <= i <= right && left <= j <= right
    ensures RangePermuted(s, s[i := s[j]][j := s[i]], left, right)
  {
    var t := SliceSwap(s, left, right + 1, i, j);
    SwapPermutes(s[left..right + 1], i - left, j - left);
  }

  lemma RangeUnchanged(s: seq<int>, left: int, right: int)
    requires 0 <= left <= right + 1 <= |s|
    ensures RangePermuted(s, s, left, right)
  {
  }

  lemma RangeTrans(s: seq<int>, t: seq<int>, u: seq<int>, left: int, right: int)
    requires 0 <= left <= right + 1 <= |s| && RangePermuted(s, t, left, right) && RangePermuted(t, u, left, right)
    ensures RangePermuted(s, u, left, right)
  {
  }

  /** A permutation of a part of a range permutes the range. */
  lemma RangeWidened(s: seq<int>, t: seq<int>, l: int, r: int, left: int, right: int)
    requires 0 <= left <= l <= r + 1 <= right + 1 <= |s| && RangePermuted(s, t, l, r)
    ensures RangePermuted(s, t, left, right)
  {
    var x, y, z := s[left..l], s[l..r + 1], s[r + 1..right + 1];
    assert s[left..right + 1] == x + y + z;
    assert t[left..l] == t[..l][left..] == x;
    assert t[r + 1..right + 1] == t[r + 1..][..right - r] == z;
    assert t[left..right + 1] == x + t[l..r + 1] + z;
    assert t[..left] == t[..l][..left] && s[..left] == s[..l][..left];
    assert t[right + 1..] == t[r + 1..][right - r..] && s[right + 1..] == s[r + 1..][right - r..];
  }

  lemma OutsideKept(s: seq<int>, t: seq<int>, left: int, right: int, p: int)
    requires 0 <= left <= right + 1 <= |s| && RangePermuted(s, t, left, right) && 0 <= p < |s|
        && (p < left || p > right)
    ensures t[p] == s[p]
  {
    if p < left {
      assert t[..left][p] == s[..left][p];
    } else {
      assert t[right + 1..][p - right - 1] == s[right + 1..][p - right - 1];
    }
  }

  /** With the key in the hole, filling the hole from another place and leaving one there is an exchange. */
  lemma HoleMoves(s: seq<int>, t: seq<int>, left: int, right: int, from: int, to: int, key: int)
    requires 0 <= left <= right < |s| == |t| && left <= from <= right && left <= to <= right && from != to
    requires RangePermuted(s, t[from := key], left, right)
    ensures RangePermuted(s, t[from := t[to]][to := key], left, right)
  {
    var u := t[from := key];
    SwapInRange(u, left, right, from, to);
    assert u[from := u[to]][to := u[from]] == t[from := t[to]][to := key];
    RangeTrans(s, u, t[from := t[to]][to := key], left, right);
  }
}

module InsertionSorts {
  import opened NearlySortedSequences

  lemma InsertSorted(s: seq<int>, key: int, i: nat)
    requires Sorted(s) && i <= |s|
    requires forall p :: 0 <= p < i ==> s[p] <= key
    requires forall p :: i <= p < |s| ==> s[p] > key
    ensures Sorted(s[..i] + [key] + s[i..])
  {
  }

  lemma InsertRearranged(s: seq<int>, key: int, i: nat)
    requires i <= |s|
    ensures Rearranged(s + [key], s[..i] + [key] + s[i..])
  {
    assert s == s[..i] + s[i..];
  }

  lemma InsertCount(s: seq<int>, key: int, i: nat)
    requires i <= |s|
    requires forall p :: 0 <= p < i ==> s[p] <= key
    requires forall p :: i <= p < |s| ==> s[p] > key
    ensures |s| - i == CountGreater(s, key)
  {
    hide CountGreater;
    CountSplit(s, i, key);
    CountNone(s[..i], key);
    CountAll(s[i..], key);
  }

  /** The first j elements of a have been sorted. */
  ghost predicate Stage(a: seq<int>, b: seq<int>, j: nat) {
    && |b| == |a| && j <= |a|
    && Sorted(b[..j]) && Rearranged(a[..j], b[..j]) && b[j..] == a[j..]
  }

  /** Every element has been moved past the greater ones before it. */
  ghost predicate MovesCounted(a: seq<int>, moves: seq<int>) {
    |moves| <= |a| && forall j :: 0 <= j < |moves| ==> moves[j] == CountGreater(a[..j], a[j])
  }

  lemma FirstStage(a: seq<int>, moves: seq<int>)
    requires |moves| <= |a| && (moves == [] || moves == [0])
    ensures Stage(a, a, |moves|) && MovesCounted(a, moves)
  {
  }

  /** The element at j has been put at place i, past the greater elements from i on. */
  ghost predicate Inserted(b: seq<int>, c: seq<int>, j: nat, i: nat) {
    && i <= j < |b| == |c|
    && (forall p :: 0 <= p < i ==> b[p] <= b[j])
    && (forall p :: i <= p < j ==> b[p] > b[j])
    && c[i] == b[j]
    && (forall p :: 0 <= p < |c| && (p < i || p > j) ==> c[p] == b[p])
    && (forall p :: i < p <= j ==> c[p] == b[p - 1])
  }

  /**
   The array before the first turn and after each turn: at its turn the element at j goes moves[j] places
   to the left, past the greater ones, and nothing else happens.
   */
  ghost predicate Trace(a: seq<int>, b: seq<int>, size: nat, stages: seq<seq<int>>, moves: seq<int>) {
    && |moves| == size && |stages| == (if size == 0 then 1 else size)
    && stages[0] == a && stages[|stages| - 1] == b
    && (size > 0 ==> moves[0] == 0)
    && forall j :: 1 <= j < size ==> 0 <= moves[j] <= j && Inserted(stages[j - 1], stages[j], j, j - moves[j])
  }

  lemma FirstTrace(a: seq<int>, moves: seq<int>)
    requires moves == [] || moves == [0]
    ensures Trace(a, a, |moves|, [a], moves)
  {
  }

  lemma TraceNext(a: seq<int>, b: seq<int>, c: seq<int>, j: nat, i: nat, stages: seq<seq<int>>, moves: seq<int>)
    requires j > 0 && Trace(a, b, j, stages, moves) && Inserted(b, c, j, i)
    ensures Trace(a, c, j + 1, stages + [c], moves + [j - i])
  {
    hide Inserted;
    assert 0 <= i <= j by {
      PlaceInRange(b, c, j, i);
    }
    var stages', moves' := stages + [c], moves + [j - i];
    forall k | 1 <= k < j + 1
      ensures 0 <= moves'[k] <= k && Inserted(stages'[k - 1], stages'[k], k, k - moves'[k])
    {
      if k < j {
        assert moves'[k] == moves[k] && stages'[k - 1] == stages[k - 1] && stages'[k] == stages[k];
      }
    }
  }

  lemma PlaceInRange(b: seq<int>, c: seq<int>, j: nat, i: nat)
    requires Inserted(b, c, j, i)
    ensures i <= j
  {
  }

  lemma InsertedSlices(b: seq<int>, c: seq<int>, j: nat, i: nat)
    requires Inserted(b, c, j, i)
    ensures c[..j + 1] == b[..i] + [b[j]] + b[i..j] && c[j + 1..] == b[j + 1..]
  {
  }

  lemma StageNext(a: seq<int>, b: seq<int>, c: seq<int>, j: nat, i: nat, moves: seq<int>)
    requires Stage(a, b, j) && Inserted(b, c, j, i) && MovesCounted(a, moves) && |moves| == j
    ensures Stage(a, c, j + 1) && MovesCounted(a, moves + [j - i])
  {
    var s, key := b[..j], a[j];
    assert key == a[j..][0] == b[j..][0] == b[j];
    assert s[..i] == b[..i] && s[i..] == b[i..j];
    InsertedSlices(b, c, j, i);
    InsertSorted(s, key, i);
    InsertRearranged(s, key, i);
    InsertCount(s, key, i);
    CountRearranged(a[..j], s, key);
    assert a[..j + 1] == a[..j] + [key];
    assert b[j + 1..] == b[j..][1..] && a[j + 1..] == a[j..][1..];
  }

  class InsertionSort {
    constructor () {
    }

    /** Every turn is in the trace, and the element of turn j is moved by the number of greater elements before it. */
    method Sort(data: array<int>, size: nat) returns (ghost stages: seq<seq<int>>, ghost moves: seq<int>)
      requires size <= data.Length
      modifies data
      ensures Stage(old(data[..]), data[..], size)
      ensures Trace(old(data[..]), data[..], size, stages, moves) && MovesCounted(old(data[..]), moves)
    {
      ghost var a := data[..];
      stages, moves := [a], if size > 0 then [0] else [];
      FirstStage(a, moves);
      FirstTrace(a, moves);
      hide Stage, MovesCounted, Inserted, Trace;
      var j := 1;
      while j < size
        invariant |moves| == if size == 0 then 0 else j
        invariant |moves| <= size && Stage(a, data[..], |moves|) && MovesCounted(a, moves)
        invariant Trace(a, data[..], |moves|, stages, moves)
      {
        ghost var b := data[..];
        ghost var i := Insert(data, j);
        StageNext(a, b, data[..], j, i, moves);
        TraceNext(a, b, data[..], j, i, stages, moves);
        stages, moves := stages + [data[..]], moves + [j - i];
        j := j + 1;
      }
    }

    /** One turn of the outer loop: the element at j goes to place i. */
    method Insert(data: array<int>, j: nat) returns (ghost place: nat)
      requires 1 <= j < data.Length && Sorted(data[..][..j])
      modifies data
      ensures Inserted(old(data[..]), data[..], j, place)
    {
      ghost var a := data[..];
      assert forall p, q :: 0 <= p < q < j ==> a[..j][p] <= a[..j][q];
      var i := j - 1;
      var key := data[j];
      while i >= 0 && key < data[i]
        invariant -1 <= i < j
        invariant forall p :: 0 <= p < data.Length && (p <= i || p > j) ==> data[p] == a[p]
        invariant forall p :: i + 1 < p <= j ==> data[p] == a[p - 1]
        invariant forall p :: i < p < j ==> a[p] > key
      {
        data[i + 1] := data[i];
        i := i - 1;
      }
      data[i + 1] := key;
      place := i + 1;
      assert i >= 0 ==> forall p :: 0 <= p < i ==> a[p] <= a[i];
    }
  }
}

module QuickSorts {
  import opened NearlySortedSequences
  import opened InsertionSorts

  const THRESHOLD: nat := 16

  /** Everything left of mid is at most, everything right of it at least the element there. */
  ghost predicate Split(s: seq<int>, left: int, mid: int, right: int)
    requires 0 <= left <= mid <= right < |s|
  {
    && (forall p :: left <= p < mid ==> s[p] <= s[mid])
    && (forall p :: mid < p <= right ==> s[mid] <= s[p])
  }

  /** Within the range, elements THRESHOLD or more places apart are in order. */
  ghost predicate RangeNearlySorted(s: seq<int>, left: int, right: int)
    requires 0 <= left <= right + 1 <= |s|
  {
    forall p, q :: left <= p < q <= right && q - p >= THRESHOLD ==> s[p] <= s[q]
  }

  lemma SplitKept(s: seq<int>, t: seq<int>, left: int, mid: int, right: int, l: int, r: int)
    requires 0 <= left <= mid <= right < |s| && Split(s, left, mid, right)
    requires left <= l <= r + 1 <= right + 1 && (r < mid || mid < l) && RangePermuted(s, t, l, r)
    ensures Split(t, left, mid, right)
  {
    OutsideKept(s, t, l, r, mid);
    forall p | left <= p <= right && p != mid
      ensures p < mid ==> t[p] <= t[mid]
      ensures p > mid ==> t[mid] <= t[p]
    {
      if l <= p <= r {
        var q := ElementKept(s, t, l, r, p);
      } else {
        OutsideKept(s, t, l, r, p);
      }
    }
  }

  lemma ShortNearlySorted(s: seq<int>, left: int, right: int)
    requires 0 <= left <= right + 1 <= |s| && right - left < THRESHOLD
    ensures RangeNearlySorted(s, left, right)
  {
  }

  lemma NearlyKept(s: seq<int>, t: seq<int>, left: int, right: int, l: int, r: int)
    requires 0 <= left <= right + 1 <= l <= r + 1 <= |s| == |t| && RangePermuted(s, t, l, r)
    requires RangeNearlySorted(s, left, right)
    ensures RangeNearlySorted(t, left, right)
  {
    forall p | left <= p <= right
      ensures t[p] == s[p]
    {
      OutsideKept(s, t, l, r, p);
    }
  }

  /** Both sides of a split nearly sorted makes the whole nearly sorted. */
  lemma SidesNearlySorted(s: seq<int>, left: int, mid: int, right: int)
    requires 0 <= left <= mid <= right < |s| && Split(s, left, mid, right)
    requires RangeNearlySorted(s, left, mid - 1) && RangeNearlySorted(s, mid + 1, right)
    ensures RangeNearlySorted(s, left, right)
  {
  }

  /** What the two recursive calls achieve together. */
  lemma SidesSorted(s: seq<int>, t: seq<int>, u: seq<int>, left: int, mid: int, right: int)
    requires 0 <= left <= mid <= right < |s| == |t| == |u| && Split(s, left, mid, right)
    requires RangePermuted(s, t, left, mid - 1) && RangeNearlySorted(t, left, mid - 1)
    requires RangePermuted(t, u, mid + 1, right) && RangeNearlySorted(u, mid + 1, right)
    ensures RangePermuted(s, u, left, right) && RangeNearlySorted(u, left, right)
  {
    hide RangePermuted, RangeNearlySorted, Split;
    SplitKept(s, t, left, mid, right, left, mid - 1);
    SplitKept(t, u, left, mid, right, mid + 1, right);
    NearlyKept(t, u, left, mid - 1, mid + 1, right);
    SidesNearlySorted(u, left, mid, right);
    RangeWidened(s, t, left, mid - 1, left, right);
    RangeWidened(t, u, mid + 1, right, left, right);
    RangeTrans(s, t, u, left, right);
  }

  /** The outer places are already on the right sides of the element at mid. */
  lemma SplitWidened(s: seq<int>, t: seq<int>, left: int, mid: int, right: int)
    requires 0 <= left < mid < right < |s| && s[left] <= s[left + 1] <= s[right]
    requires RangePermuted(s, t, left + 1, right - 1) && Split(t, left + 1, mid, right - 1) && t[mid] == s[left + 1]
    ensures RangePermuted(s, t, left, right) && Split(t, left, mid, right)
  {
    OutsideKept(s, t, left + 1, right - 1, left);
    OutsideKept(s, t, left + 1, right - 1, right);
    RangeWidened(s, t, left + 1, right - 1, left, right);
  }

  /** Between i and j nothing is decided yet; the key belongs into the hole. */
  ghost predicate Partitioning(s: seq<int>, t: seq<int>, left: int, right: int, i: int, j: int, hole: int, key: int) {
    && 0 <= left <= i <= j <= right < |s| == |t| && i <= hole <= j
    && RangePermuted(s, t[hole := key], left, right)
    && (forall p :: left <= p < i ==> t[p] <= key)
    && (forall p :: j < p <= right ==> key <= t[p])
  }

  lemma Scanned(s: seq<int>, t: seq<int>, left: int, right: int, i: int, j: int, k: int, l: int, hole: int, key: int)
    requires Partitioning(s, t, left, right, i, j, hole, key) && i <= k <= hole <= l <= j
    requires forall p :: i <= p < k ==> t[p] < key
    requires forall p :: l < p <= j ==> key < t[p]
    ensures Partitioning(s, t, left, right, k, l, hole, key)
  {
  }

  lemma FillFromRight(s: seq<int>, t: seq<int>, left: int, right: int, i: int, j: int, key: int)
    requires i < j && Partitioning(s, t, left, right, i, j, i, key) && t[j] <= key
    ensures Partitioning(s, t[i := t[j]], left, right, i + 1, j, j, key)
  {
    HoleMoves(s, t, left, right, i, j, key);
  }

  lemma FillFromLeft(s: seq<int>, t: seq<int>, left: int, right: int, i: int, j: int, key: int)
    requires i < j && Partitioning(s, t, left, right, i, j, j, key) && key <= t[i]
    ensures Partitioning(s, t[j := t[i]], left, right, i, j - 1, i, key)
  {
    HoleMoves(s, t, left, right, j, i, key);
  }

  lemma FewMoves(t: seq<int>, size: nat, moves: seq<int>)
    requires size <= |t| && RangeNearlySorted(t, 0, size - 1) && |moves| == size && MovesCounted(t, moves)
    ensures forall j :: 0 <= j < size ==> moves[j] < THRESHOLD
  {
    var s := t[..size];
    assert NearlySorted(s, THRESHOLD);
    forall j | 0 <= j < size
      ensures moves[j] < THRESHOLD
    {
      assert t[..j] == s[..j];
      FewGreater(s, THRESHOLD, j);
    }
  }

  lemma MovesOfTrace(a: seq<int>, b: seq<int>, size: nat, stages: seq<seq<int>>, moves: seq<int>)
    requires Trace(a, b, size, stages, moves)
    ensures |moves| == size
  {
  }

  /** Every element of t lies between the sorted elements THRESHOLD - 1 places to either side. */
  ghost predicate WithinReach(t: seq<int>, u: seq<int>, size: nat)
    requires size <= |t| == |u|
  {
    forall p :: 0 <= p < size ==>
      && (p >= THRESHOLD - 1 ==> u[p - (THRESHOLD - 1)] <= t[p])
      && (p + (THRESHOLD - 1) < size ==> t[p] <= u[p + (THRESHOLD - 1)])
  }

  lemma NoneFar(t: seq<int>, u: seq<int>, size: nat)
    requires size <= |t| == |u| && RangeNearlySorted(t, 0, size - 1) && Stage(t, u, size)
    ensures WithinReach(t, u, size)
  {
    var s, v := t[..size], u[..size];
    assert NearlySorted(s, THRESHOLD);
    forall p | 0 <= p < size
      ensures p >= THRESHOLD - 1 ==> u[p - (THRESHOLD - 1)] <= t[p]
      ensures p + (THRESHOLD - 1) < size ==> t[p] <= u[p + (THRESHOLD - 1)]
    {
      RanksClose(s, v, THRESHOLD, p);
    }
  }

  class QuickSort {
    const mInsertionSort: InsertionSort

    constructor () {
      mInsertionSort := new InsertionSort();
    }

    method Exchange(data: array<int>, i: nat, j: nat)
      requires i < data.Length && j < data.Length
      modifies data
      ensures data[..] == old(data[..])[i := old(data[j])][j := old(data[i])]
    {
      var temp := data[i];
      data[i] := data[j];
      data[j] := temp;
    }

    method CompareExchange(data: array<int>, i: nat, j: nat, ghost left: nat, ghost right: nat)
      requires left <= i < j <= right < data.Length
      modifies data
      ensures data[..] == if old(data[j] < data[i]) then old(data[..])[i := old(data[j])][j := old(data[i])]
          else old(data[..])
      ensures data[i] <= data[j] && RangePermuted(old(data[..]), data[..], left, right)
    {
      hide RangePermuted;
      if data[j] < data[i] {
        SwapInRange(data[..], left, right, i, j);
        Exchange(data, i, j);
      } else {
        RangeUnchanged(data[..], left, right);
      }
    }

    /**
     The first phase leaves t, nearly sorted. The finishing pass runs on t: no turn of it moves its element
     16 or more places, and in the end no element is that far from where it was in t.
     */
    method Sort(data: array<int>, size: nat)
        returns (ghost t: seq<int>, ghost stages: seq<seq<int>>, ghost moves: seq<int>)
      requires size <= data.Length
      modifies data
      ensures Sorted(data[..size]) && Rearranged(old(data[..size]), data[..size]) && data[size..] == old(data[size..])
      ensures RangePermuted(old(data[..]), t, 0, size - 1) && RangeNearlySorted(t, 0, size - 1)
      ensures Trace(t, data[..], size, stages, moves) && forall j :: 0 <= j < size ==> moves[j] < 16
      ensures WithinReach(t, data[..], size)
    {
      hide NearlySorted, Trace;
      ghost var s := data[..];
      DoQuickSort(data, 0, size - 1);
      t := data[..];
      stages, moves := mInsertionSort.Sort(data, size);
      MovesOfTrace(t, data[..], size, stages, moves);
      FewMoves(t, size, moves);
      NoneFar(t, data[..], size);
      assert s[0..size] == s[..size] && t[0..size] == t[..size];
    }

    method DoQuickSort(data: array<int>, left: int, right: int)
      requires 0 <= left <= right + 1 <= data.Length
      modifies data
      ensures RangePermuted(old(data[..]), data[..], left, right) && RangeNearlySorted(data[..], left, right)
      ensures right - left < 16 ==> data[..] == old(data[..])
      decreases right - left + 1
    {
      hide RangePermuted, Split, RangeNearlySorted;
      if right - left < THRESHOLD {
        RangeUnchanged(data[..], left, right);
        ShortNearlySorted(data[..], left, right);
        return;
      }
      ghost var s0 := data[..];
      MedianOfThree(data, left, right);
      ghost var s1 := data[..];
      var mid := Partition(data, left + 1, right - 1);
      ghost var s2 := data[..];
      SplitWidened(s1, s2, left, mid, right);
      RangeTrans(s0, s1, s2, left, right);
      DoQuickSort(data, left, mid - 1);
      ghost var s3 := data[..];
      DoQuickSort(data, mid + 1, right);
      ghost var s4 := data[..];
      SidesSorted(s2, s3, s4, left, mid, right);
      RangeTrans(s0, s2, s4, left, right);
    }

    method MedianOfThree(data: array<int>, left: nat, right: nat)
      requires left + 1 < right < data.Length
      modifies data
      ensures RangePermuted(old(data[..]), data[..], left, right)
      ensures data[left] <= data[left + 1] <= data[right]
    {
      hide RangePermuted;
      ghost var s0 := data[..];
      Exchange(data, (left + right) / 2, left + 1);
      ghost var s1 := data[..];
      SwapInRange(s0, left, right, (left + right) / 2, left + 1);
      CompareExchange(data, left, left + 1, left, right);
      ghost var s2 := data[..];
      RangeTrans(s0, s1, s2, left, right);
      CompareExchange(data, left, right, left, right);
      ghost var s3 := data[..];
      RangeTrans(s0, s2, s3, left, right);
      CompareExchange(data, left + 1, right, left, right);
      RangeTrans(s0, s3, data[..], left, right);
    }

    method Partition(data: array<int>, left: nat, right: nat) returns (mid: nat)
      requires left <= right < data.Length
      modifies data
      ensures left <= mid <= right && data[mid] == old(data[left])
      ensures RangePermuted(old(data[..]), data[..], left, right) && Split(data[..], left, mid, right)
    {
      ghost var s := data[..];
      var key := data[left];
      var i, j := left, right;
      assert s[left := key] == s;
      while i < j
        invariant left <= i <= j <= right && Partitioning(s, data[..], left, right, i, j, i, key)
        decreases j - i
      {
        i, j := PartitionTurn(data, i, j, key, s, left, right);
      }
      data[i] := key;
      return i;
    }

    /** One turn of the outer loop: the hole moves from i to j and back. */
    method PartitionTurn(data: array<int>, i0: nat, j0: nat, key: int, ghost s: seq<int>, ghost left: nat,
        ghost right: nat)
      returns (i: nat, j: nat)
      requires |s| == data.Length && left <= i0 < j0 <= right < |s|
          && Partitioning(s, data[..], left, right, i0, j0, i0, key)
      modifies data
      ensures left <= i <= j <= right && j - i < j0 - i0
      ensures Partitioning(s, data[..], left, right, i, j, i, key)
    {
      hide Partitioning;
      i := i0;
      ghost var t := data[..];
      j := ScanDown(data, i, j0, key);
      Scanned(s, t, left, right, i0, j0, i, j, i, key);
      if i < j {
        FillFromRight(s, t, left, right, i, j, key);
        data[i] := data[j];
        t := t[i := t[j]];
        i := i + 1;
      }
      assert data[..] == t;
      ghost var i1 := i;
      i := ScanUp(data, i, j, key);
      Scanned(s, t, left, right, i1, j, i, j, j, key);
      if i < j {
        FillFromLeft(s, t, left, right, i, j, key);
        data[j] := data[i];
        t := t[j := t[i]];
        j := j - 1;
      }
      assert data[..] == t;
    }

    /** The last place after i, up to j, that is not above the key, or i. */
    method ScanDown(data: array<int>, i: nat, j: nat, key: int) returns (k: nat)
      requires i <= j < data.Length
      ensures i <= k <= j && (i < k ==> data[k] <= key)
      ensures forall p :: k < p <= j ==> key < data[p]
    {
      k := j;
      while i < k && key < data[k]
        invariant i <= k <= j
        invariant forall p :: k < p <= j ==> key < data[p]
      {
        k := k - 1;
      }
    }

    method ScanUp(data: array<int>, i: nat, j: nat, key: int) returns (k: nat)
      requires i <= j < data.Length
      ensures i <= k <= j && (k < j ==> key <= data[k])
      ensures forall p :: i <= p < k ==> data[p] < key
    {
      k := i;
      while k < j && data[k] < key
        invariant i <= k <= j
        invariant forall p :: i <= p < k ==> data[p] < key
      {
        k := k + 1;
      }
    }
  }
}
