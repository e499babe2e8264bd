/** The pairs i < j with s[i] >= s[j], counted. */
module InversionCounts {
  import opened NearlySortedSequences

  ghost function Inverted(s: seq<int>): set<(int, int)> {
    set i, j | 0 <= i < j < |s| && s[i] >= s[j] :: (i, j)
  }

  ghost function CountAtLeast(s: seq<int>, x: int): (r: nat)
    ensures r <= |s|
  {
    CountGreater(s, x - 1)
  }

  ghost function Inversions(s: seq<int>): nat {
    if |s| == 0 then 0 else Inversions(s[..|s| - 1]) + CountAtLeast(s[..|s| - 1], s[|s| - 1])
  }

  /** For each element of t the elements of s not below it. */
  ghost function Crossing(s: seq<int>, t: seq<int>): nat {
    if |t| == 0 then 0 else Crossing(s, t[..|t| - 1]) + CountAtLeast(s, t[|t| - 1])
  }

  /** The elements not below x, paired with place k. */
  ghost function Paired(s: seq<int>, x: int, k: int): set<(int, int)> {
    set i | 0 <= i < |s| && s[i] >= x :: (i, k)
  }

  lemma {:induction false} PairedSize(s: seq<int>, x: int, k: int)
    ensures |Paired(s, x, k)| == CountAtLeast(s, x)
    decreases |s|
  {
    if |s| == 0 {
      assert Paired(s, x, k) == {};
    } else {
      var l := |s| - 1;
      PairedSize(s[..l], x, k);
      assert Paired(s, x, k) == Paired(s[..l], x, k) + if s[l] >= x then {(l, k)} else {};
    }
  }

  lemma InvertedLast(s: seq<int>)
    requires |s| > 0
    ensures var k := |s| - 1;
            Inverted(s) == Inverted(s[..k]) + Paired(s[..k], s[k], k)
  {
  }

  /** The recursive count is the number of pairs. */
  lemma {:induction false} InversionsArePairs(s: seq<int>)
    ensures |Inverted(s)| == Inversions(s)
    decreases |s|
  {
    if |s| == 0 {
      assert Inverted(s) == {};
    } else {
      var k := |s| - 1;
      InversionsArePairs(s[..k]);
      PairedSize(s[..k], s[k], k);
      InvertedLast(s);
      assert Inverted(s[..k]) !! Paired(s[..k], s[k], k);
    }
  }

  /** The same for the first n elements of t. */
  ghost function CrossingTo(s: seq<int>, t: seq<int>, n: int): nat
    requires 0 <= n <= |t|
  {
    if n == 0 then 0 else CrossingTo(s, t, n - 1) + CountAtLeast(s, t[n - 1])
  }

  lemma {:induction false} CrossingToIsCrossing(s: seq<int>, t: seq<int>, n: int)
    requires 0 <= n <= |t|
    ensures CrossingTo(s, t, n) == Crossing(s, t[..n])
    decreases n
  {
    if n > 0 {
      CrossingToIsCrossing(s, t, n - 1);
      assert t[..n][..n - 1] == t[..n - 1];
    }
  }

  /** When all elements of s are below those from n on, they add nothing. */
  lemma {:induction false} NothingCrosses(s: seq<int>, t: seq<int>, n: int, k: int)
    requires 0 <= n <= k <= |t| && forall p, q :: 0 <= p < |s| && n <= q < k ==> s[p] < t[q]
    ensures CrossingTo(s, t, k) == CrossingTo(s, t, n)
    decreases k
  {
    if n < k {
      NothingCrosses(s, t, n, k - 1);
      CountNone(s, t[k - 1] - 1);
    }
  }

  /** The pairs the class promises to count: those strictly out of order. */
  ghost function StrictlyInverted(s: seq<int>): set<(int, int)> {
    set i, j | 0 <= i < j < |s| && s[i] > s[j] :: (i, j)
  }

  /** Equal elements are counted too, so the promise is met exactly on sequences without repetition. */
  lemma StrictCount(s: seq<int>)
    ensures |Inverted(s)| == |StrictlyInverted(s)| <==> forall i, j :: 0 <= i < j < |s| ==> s[i] != s[j]
  {
    var a, b := StrictlyInverted(s), Inverted(s);
    assert b == a + (b - a);
    if i, j :| 0 <= i < j < |s| && s[i] == s[j] {
      assert (i, j) in b - a;
    }
  }

  /** The least sequence on which the promise is not met: one pair is counted and none is out of order. */
  lemma EqualPairCounted()
    ensures |Inverted([1, 1])| == 1 && |StrictlyInverted([1, 1])| == 0
  {
    var s := [1, 1];
    forall p: (int, int)
      ensures p in Inverted(s) <==> p == (0, 1)
      ensures p !in StrictlyInverted(s)
    {
    }
    assert Inverted(s) == {(0, 1)};
    assert StrictlyInverted(s) == {};
  }

  lemma {:induction false} InversionsAppend(s: seq<int>, t: seq<int>)
    ensures Inversions(s + t) == Inversions(s) + Inversions(t) + Crossing(s, t)
    decreases |t|
  {
    if |t| == 0 {
      assert s + t == s;
    } else {
      var k := |t| - 1;
      InversionsAppend(s, t[..k]);
      assert (s + t)[..|s + t| - 1] == s + t[..k];
      CountAppend(s, t[..k], t[k] - 1);
    }
  }

  lemma {:induction false} CrossingAppend(s: seq<int>, t: seq<int>, u: seq<int>)
    ensures Crossing(s, t + u) == Crossing(s, t) + Crossing(s, u)
    decreases |u|
  {
    if |u| == 0 {
      assert t + u == t;
    } else {
      var k := |u| - 1;
      CrossingAppend(s, t, u[..k]);
      assert (t + u)[..|t + u| - 1] == t + u[..k];
    }
  }

  lemma {:induction false} CrossingLeft(s: seq<int>, s': seq<int>, t: seq<int>)
    requires Rearranged(s, s')
    ensures Crossing(s, t) == Crossing(s', t)
    decreases |t|
  {
    if |t| > 0 {
      CrossingLeft(s, s', t[..|t| - 1]);
      CountRearranged(s, s', t[|t| - 1] - 1);
    }
  }

  lemma CrossingRemove(s: seq<int>, t: seq<int>, i: nat)
    requires i < |t|
    ensures Crossing(s, t) == Crossing(s, t[..i] + t[i + 1..]) + Crossing(s, [t[i]])
  {
    hide Crossing;
    assert t == t[..i] + ([t[i]] + t[i + 1..]);
    CrossingAppend(s, t[..i], [t[i]] + t[i + 1..]);
    CrossingAppend(s, [t[i]], t[i + 1..]);
    CrossingAppend(s, t[..i], t[i + 1..]);
  }

  lemma {:induction false} CrossingRight(s: seq<int>, t: seq<int>, t': seq<int>)
    requires Rearranged(t, t')
    ensures Crossing(s, t) == Crossing(s, t')
    decreases |t|
  {
    assert |t| == |multiset(t)| == |multiset(t')| == |t'|;
    if |t| == 0 {
      assert t == t';
    } else {
      hide Crossing;
      var k := |t| - 1;
      var i := PlaceOf(t', t[k]);
      RemoveAt(t, k);
      RemoveAt(t', i);
      CrossingRight(s, t[..k] + t[k + 1..], t'[..i] + t'[i + 1..]);
      CrossingRemove(s, t, k);
      CrossingRemove(s, t', i);
    }
  }

  /** Sorting each half does not change how the halves cross. */
  lemma InversionsOfHalves(s: seq<int>, t: seq<int>, s': seq<int>, t': seq<int>)
    requires Rearranged(s, s') && Rearranged(t, t')
    ensures Inversions(s + t) == Inversions(s) + Inversions(t) + Crossing(s', t')
  {
    InversionsAppend(s, t);
    CrossingLeft(s, s', t);
    CrossingRight(s', t, t');
  }

  // ----- Merging -----

  /** m is the sorted merge of the first i elements of s and the first j of t. */
  ghost predicate Merging(s: seq<int>, t: seq<int>, m: seq<int>, i: int, j: int) {
    && 0 <= i <= |s| && 0 <= j <= |t|
    && Sorted(s) && Sorted(t) && Sorted(m)
    && |m| == i + j
    && Rearranged(m, s[..i] + t[..j])
    && (forall p, q :: 0 <= p < |m| && i <= q < |s| ==> m[p] <= s[q])
    && (forall p, q :: 0 <= p < |m| && j <= q < |t| ==> m[p] <= t[q])
    && (forall p, q :: 0 <= p < i && j <= q < |t| ==> s[p] < t[q])
  }

  lemma OneMore(a: seq<int>, b: seq<int>, m: seq<int>, v: int)
    requires Rearranged(m, a + b)
    ensures Rearranged(m + [v], (a + [v]) + b) && Rearranged(m + [v], a + (b + [v]))
  {
    assert multiset((a + [v]) + b) == multiset(a) + multiset{v} + multiset(b);
    assert multiset(a + (b + [v])) == multiset(a) + multiset(b) + multiset{v};
  }

  lemma TakeLeft(s: seq<int>, t: seq<int>, m: seq<int>, i: int, j: int)
    requires Merging(s, t, m, i, j) && i < |s| && (j < |t| ==> s[i] < t[j])
    ensures Merging(s, t, m + [s[i]], i + 1, j)
  {
    hide Rearranged;
    assert s[..i + 1] == s[..i] + [s[i]];
    OneMore(s[..i], t[..j], m, s[i]);
  }

  lemma TakeRight(s: seq<int>, t: seq<int>, m: seq<int>, i: int, j: int)
    requires Merging(s, t, m, i, j) && j < |t| && (i < |s| ==> s[i] >= t[j])
    ensures Merging(s, t, m + [t[j]], i, j + 1)
  {
    hide Rearranged;
    assert t[..j + 1] == t[..j] + [t[j]];
    OneMore(s[..i], t[..j], m, t[j]);
  }

  /** The element taken from t crosses exactly the rest of s. */
  lemma CrossesRest(s: seq<int>, t: seq<int>, m: seq<int>, i: int, j: int)
    requires Merging(s, t, m, i, j) && j < |t| && (i < |s| ==> s[i] >= t[j])
    ensures CrossingTo(s, t, j + 1) == CrossingTo(s, t, j) + (|s| - i)
  {
    CountInSorted(s, t[j] - 1, i);
  }

  /** The elements above x of a sorted sequence are its last ones. */
  lemma CountInSorted(s: seq<int>, x: int, i: int)
    requires 0 <= i <= |s|
    requires forall p :: 0 <= p < i ==> s[p] <= x
    requires forall p :: i <= p < |s| ==> s[p] > x
    ensures CountGreater(s, x) == |s| - i
  {
    CountSplit(s, i, x);
    CountNone(s[..i], x);
    CountAll(s[i..], x);
  }

  lemma MergeComplete(s: seq<int>, t: seq<int>, m: seq<int>)
    requires Merging(s, t, m, |s|, |t|)
    ensures Sorted(m) && Rearranged(s + t, m)
  {
    assert s[..|s|] == s && t[..|t|] == t;
  }
}

module CountInversions {
  import opened NearlySortedSequences
  import opened InversionCounts

  class CountInversion {
    constructor () {
    }

    method Count(data: array<int>, size: nat) returns (invs: nat)
      requires size <= data.Length
      modifies data
      ensures invs == |Inverted(old(data[..size]))|
      ensures Sorted(data[..size]) && Rearranged(old(data[..size]), data[..size]) && data[size..] == old(data[size..])
    {
      var temp := new int[size];
      invs := MergeSort(data, temp, 0, size - 1);
      InversionsArePairs(old(data[..size]));
      assert data[0..size] == data[..size] && old(data[0..size]) == old(data[..size]);
    }

    method MergeSort(data: array<int>, temp: array<int>, left: int, right: int) returns (invs: nat)
      requires 0 <= left <= right + 1 <= data.Length && right < temp.Length && data != temp
      modifies data, temp
      ensures RangePermuted(old(data[..]), data[..], left, right)
      ensures Sorted(data[..][left..right + 1]) && invs == Inversions(old(data[..])[left..right + 1])
      decreases right - left + 1
    {
      if left >= right {
        ShortRange(data[..], left, right);
        return 0;
      }
      hide RangePermuted, OnlyRange, Inversions, Crossing, Sorted, Rearranged;
      ghost var s := data[..];
      var mid := (left + right) / 2;
      var invs1 := MergeSort(data, temp, left, mid);
      ghost var t := data[..];
      var invs2 := MergeSort(data, temp, mid + 1, right);
      ghost var u := data[..];
      HalvesSorted(s, t, u, left, mid, right);
      CopyRange(data, temp, left, right);
      ghost var x, y := u[left..mid + 1], u[mid + 1..right + 1];
      var crossing := Merge(data, temp, left, mid, right, x, y);
      MergedRange(s, u, data[..], left, mid, right);
      invs := invs1 + invs2 + crossing;
    }

    static method CopyRange(data: array<int>, temp: array<int>, left: nat, right: nat)
      requires left <= right < data.Length && right < temp.Length && data != temp
      modifies temp
      ensures temp[left..right + 1] == data[..][left..right + 1]
    {
      for i := left to right + 1
        invariant forall p :: left <= p < i ==> temp[p] == data[p]
      {
        temp[i] := data[i];
      }
    }

    static method Merge(data: array<int>, temp: array<int>, left: nat, mid: nat, right: nat, ghost x: seq<int>,
        ghost y: seq<int>)
        returns (invs: nat)
      requires left <= mid < right < data.Length && right < temp.Length && data != temp
      requires temp[left..right + 1] == x + y && |x| == mid + 1 - left && Sorted(x) && Sorted(y)
      modifies data
      ensures OnlyRange(old(data[..]), data[..], left, right)
      ensures Sorted(data[..][left..right + 1]) && Rearranged(x + y, data[..][left..right + 1])
      ensures invs == Crossing(x, y)
    {
      hide Merged, CrossingTo, Crossing, OnlyRange, Sorted, Rearranged;
      ghost var s := data[..];
      NothingMerged(s, left, mid, right, x, y);
      invs := 0;
      var i, j, k := left, mid + 1, left;
      ghost var read := 0;
      while i <= mid && j <= right
        invariant left <= i <= mid + 1 && mid < j <= right + 1 && k == i + j - mid - 1 && read == j - mid - 1
        invariant Merged(s, data[..], left, mid, right, x, y, i, j, k) && invs == CrossingTo(x, y, read)
      {
        Heads(temp[..], x, y, left, mid, right, i, j);
        if temp[i] < temp[j] {
          PutLeft(data, temp, s, left, mid, right, x, y, i, j, k);
          k, i := k + 1, i + 1;
        } else {
          CrossingNext(s, data[..], left, mid, right, x, y, i, j, k);
          invs := invs + (mid - i + 1);
          PutRight(data, temp, s, left, mid, right, x, y, i, j, k);
          k, j := k + 1, j + 1;
          read := read + 1;
        }
      }
      CrossingDone(s, data[..], left, mid, right, x, y, i, j, k);
      while i <= mid
        invariant left <= i <= mid + 1 && mid < j <= right + 1 && k == i + j - mid - 1 && (i <= mid ==> j > right)
        invariant Merged(s, data[..], left, mid, right, x, y, i, j, k)
      {
        PutLeft(data, temp, s, left, mid, right, x, y, i, j, k);
        k, i := k + 1, i + 1;
      }
      while j <= right
        invariant mid < j <= right + 1 && k == j
        invariant Merged(s, data[..], left, mid, right, x, y, mid + 1, j, k)
      {
        PutRight(data, temp, s, left, mid, right, x, y, mid + 1, j, k);
        k, j := k + 1, j + 1;
      }
      AllMerged(s, data[..], left, mid, right, x, y);
    }

    static method PutLeft(data: array<int>, temp: array<int>, ghost s: seq<int>, ghost left: int, ghost mid: int,
        ghost right: int,
                          ghost x: seq<int>, ghost y: seq<int>, i: int, ghost j: int, k: int)
      requires Merged(s, data[..], left, mid, right, x, y, i, j, k) && i <= mid && |s| == data.Length
      requires right < temp.Length && data != temp && temp[left..right + 1] == x + y
      requires j <= right ==> temp[i] < temp[j]
      modifies data
      ensures Merged(s, data[..], left, mid, right, x, y, i + 1, j, k + 1)
    {
      Heads(temp[..], x, y, left, mid, right, i, j);
      StoreLeft(s, data[..], left, mid, right, x, y, i, j, k);
      data[k] := temp[i];
    }

    static method PutRight(data: array<int>, temp: array<int>, ghost s: seq<int>, ghost left: int, ghost mid: int,
        ghost right: int,
                           ghost x: seq<int>, ghost y: seq<int>, ghost i: int, j: int, k: int)
      requires Merged(s, data[..], left, mid, right, x, y, i, j, k) && j <= right && |s| == data.Length
      requires right < temp.Length && data != temp && temp[left..right + 1] == x + y
      requires i <= mid ==> temp[i] >= temp[j]
      modifies data
      ensures Merged(s, data[..], left, mid, right, x, y, i, j + 1, k + 1)
    {
      Heads(temp[..], x, y, left, mid, right, i, j);
      StoreRight(s, data[..], left, mid, right, x, y, i, j, k);
      data[k] := temp[j];
    }
  }

  lemma ShortRange(s: seq<int>, left: int, right: int)
    requires 0 <= left <= right + 1 <= |s| && left >= right
    ensures Sorted(s[left..right + 1]) && Inversions(s[left..right + 1]) == 0
  {
    var r := s[left..right + 1];
    if |r| == 1 {
      assert r[..0] == [];
    }
  }

  /** After both recursive calls each half is sorted and permuted on its own. */
  lemma HalvesSorted(s: seq<int>, t: seq<int>, u: seq<int>, left: int, mid: int, right: int)
    requires 0 <= left <= mid < right < |s| && RangePermuted(s, t, left, mid) && RangePermuted(t, u, mid + 1, right)
    requires Sorted(t[left..mid + 1])
    ensures t[mid + 1..right + 1] == s[mid + 1..right + 1] && u[left..mid + 1] == t[left..mid + 1]
    ensures Rearranged(s[left..mid + 1], u[left..mid + 1]) && Rearranged(s[mid + 1..right + 1], u[mid + 1..right + 1])
    ensures RangePermuted(s, u, left, right)
    ensures u[left..right + 1] == u[left..mid + 1] + u[mid + 1..right + 1]
  {
    assert t[mid + 1..right + 1] == t[mid + 1..][..right - mid] == s[mid + 1..][..right - mid];
    assert u[left..mid + 1] == u[..mid + 1][left..] == t[..mid + 1][left..];
    RangeWidened(s, t, left, mid, left, right);
    RangeWidened(t, u, mid + 1, right, left, right);
    RangeTrans(s, t, u, left, right);
  }

  lemma MergedRange(s: seq<int>, u: seq<int>, v: seq<int>, left: int, mid: int, right: int)
    requires 0 <= left <= mid < right < |s| && RangePermuted(s, u, left, right) && OnlyRange(u, v, left, right)
    requires Rearranged(s[left..mid + 1], u[left..mid + 1]) && Rearranged(s[mid + 1..right + 1], u[mid + 1..right + 1])
    requires Rearranged(u[left..right + 1], v[left..right + 1])
    ensures RangePermuted(s, v, left, right)
    ensures Inversions(s[left..right + 1]) == Inversions(s[left..mid + 1]) + Inversions(s[mid + 1..right + 1]) +
                                              Crossing(u[left..mid + 1], u[mid + 1..right + 1])
  {
    assert RangePermuted(u, v, left, right);
    RangeTrans(s, u, v, left, right);
    assert s[left..right + 1] == s[left..mid + 1] + s[mid + 1..right + 1];
    InversionsOfHalves(s[left..mid + 1], s[mid + 1..right + 1], u[left..mid + 1], u[mid + 1..right + 1]);
  }

  /** Nothing outside the range differs. */
  ghost predicate OnlyRange(s: seq<int>, t: seq<int>, left: int, right: int)
    requires 0 <= left <= right + 1 <= |s|
  {
    |t| == |s| && t[..left] == s[..left] && t[right + 1..] == s[right + 1..]
  }

  /** data[left..k] is the merge of what has been read of x and y. */
  ghost predicate Merged(s: seq<int>, d: seq<int>, left: int, mid: int, right: int, x: seq<int>, y: seq<int>, i: int,
      j: int, k: int)
  {
    && 0 <= left <= mid < right < |s| && OnlyRange(s, d, left, right)
    && |x| == mid + 1 - left && |y| == right - mid
    && left <= i <= mid + 1 && mid + 1 <= j <= right + 1 && k == i + j - mid - 1
    && Merging(x, y, d[left..k], i - left, j - mid - 1)
  }

  lemma Heads(w: seq<int>, x: seq<int>, y: seq<int>, left: int, mid: int, right: int, i: int, j: int)
    requires 0 <= left <= mid < right < |w| && w[left..right + 1] == x + y && |x| == mid + 1 - left
    requires left <= i && mid + 1 <= j
    ensures i <= mid ==> w[i] == x[i - left]
    ensures j <= right ==> w[j] == y[j - mid - 1]
  {
    assert i <= mid ==> w[left..right + 1][i - left] == w[i];
    assert j <= right ==> w[left..right + 1][j - left] == w[j];
  }

  lemma StoreAt(s: seq<int>, d: seq<int>, left: int, right: int, k: int, v: int)
    requires 0 <= left <= k <= right < |s| && OnlyRange(s, d, left, right)
    ensures OnlyRange(s, d[k := v], left, right) && d[k := v][left..k + 1] == d[left..k] + [v]
  {
  }

  lemma StoreLeft(s: seq<int>, d: seq<int>, left: int, mid: int, right: int, x: seq<int>, y: seq<int>, i: int,
      j: int, k: int)
    requires Merged(s, d, left, mid, right, x, y, i, j, k) && i <= mid
    requires j <= right ==> x[i - left] < y[j - mid - 1]
    ensures k <= right && Merged(s, d[k := x[i - left]], left, mid, right, x, y, i + 1, j, k + 1)
  {
    hide Merging;
    var a, b := i - left, j - mid - 1;
    TakeLeft(x, y, d[left..k], a, b);
    StoreAt(s, d, left, right, k, x[a]);
    assert a + 1 == i + 1 - left;
  }

  lemma StoreRight(s: seq<int>, d: seq<int>, left: int, mid: int, right: int, x: seq<int>, y: seq<int>, i: int,
      j: int, k: int)
    requires Merged(s, d, left, mid, right, x, y, i, j, k) && j <= right
    requires i <= mid ==> x[i - left] >= y[j - mid - 1]
    ensures k <= right && Merged(s, d[k := y[j - mid - 1]], left, mid, right, x, y, i, j + 1, k + 1)
  {
    hide Merging;
    var a, b := i - left, j - mid - 1;
    TakeRight(x, y, d[left..k], a, b);
    StoreAt(s, d, left, right, k, y[b]);
    assert b + 1 == j + 1 - mid - 1;
  }

  lemma NothingMerged(s: seq<int>, left: int, mid: int, right: int, x: seq<int>, y: seq<int>)
    requires 0 <= left <= mid < right < |s| && |x| == mid + 1 - left && |y| == right - mid && Sorted(x) && Sorted(y)
    ensures Merged(s, s, left, mid, right, x, y, left, mid + 1, left) && CrossingTo(x, y, 0) == 0
  {
    assert s[left..left] == x[..0] + y[..0];
  }

  /** When one side is used up, the rest of the other adds nothing to the count. */
  lemma CrossingDone(s: seq<int>, d: seq<int>, left: int, mid: int, right: int, x: seq<int>, y: seq<int>, i: int,
      j: int, k: int)
    requires Merged(s, d, left, mid, right, x, y, i, j, k) && (i > mid || j > right)
    ensures CrossingTo(x, y, right - mid) == CrossingTo(x, y, j - mid - 1)
  {
    NothingCrosses(x, y, j - mid - 1, right - mid);
  }

  lemma CrossingNext(s: seq<int>, d: seq<int>, left: int, mid: int, right: int, x: seq<int>, y: seq<int>, i: int,
      j: int, k: int)
    requires Merged(s, d, left, mid, right, x, y, i, j, k) && i <= mid && j <= right && x[i - left] >= y[j - mid - 1]
    ensures var b := j - mid - 1; CrossingTo(x, y, b + 1) == CrossingTo(x, y, b) + (mid - i + 1)
  {
    hide CrossingTo, Merging;
    CrossesRest(x, y, d[left..k], i - left, j - mid - 1);
  }

  lemma AllMerged(s: seq<int>, d: seq<int>, left: int, mid: int, right: int, x: seq<int>, y: seq<int>)
    requires Merged(s, d, left, mid, right, x, y, mid + 1, right + 1, right + 1)
    ensures OnlyRange(s, d, left, right) && Sorted(d[left..right + 1]) && Rearranged(x + y, d[left..right + 1])
        && CrossingTo(x, y, right - mid) == Crossing(x, y)
  {
    MergeComplete(x, y, d[left..right + 1]);
    CrossingToIsCrossing(x, y, right - mid);
    assert y[..right - mid] == y;
  }
}
