/** Binary trees kept level by level in a sequence, ordered from the root down. */
module HeapOrder {

  /** Whether a belongs strictly above b: in a max-heap if greater, in a min-heap if less. */
  predicate Before(max: bool, a: int, b: int) {
    if max then a > b else a < b
  }

  function Parent(c: int): (p: int)
    requires c >= 1
    ensures 0 <= p < c
  {
    (c - 1) / 2
  }

  /** The order holds between every place and its parent, for parents from lo on. */
  ghost predicate HeapFrom(max: bool, t: seq<int>, lo: int) {
    forall c :: 1 <= c < |t| && Parent(c) >= lo ==> !Before(max, t[c], t[Parent(c)])
  }

  ghost predicate IsHeap(max: bool, t: seq<int>) {
    HeapFrom(max, t, 0)
  }

  /** The element at i belongs above its parent. */
  ghost predicate MovesUp(max: bool, t: seq<int>, i: int) {
    1 <= i < |t| && Before(max, t[i], t[Parent(i)])
  }

  /** Only place i may belong further up. */
  ghost predicate UpReady(max: bool, t: seq<int>, i: int) {
    && 0 <= i < |t|
    && (forall c :: 1 <= c < |t| && c != i ==> !Before(max, t[c], t[Parent(c)]))
    && (forall c :: 1 <= c < |t| && i >= 1 && Parent(c) == i ==> !Before(max, t[c], t[Parent(i)]))
  }

  /** Only place i may belong further down; parents before lo do not count. */
  ghost predicate DownReady(max: bool, t: seq<int>, i: int, lo: int) {
    && 0 <= lo <= i < |t|
    && (forall c :: 1 <= c < |t| && Parent(c) >= lo && Parent(c) != i ==> !Before(max, t[c], t[Parent(c)]))
    && (forall c :: 1 <= c < |t| && i >= 1 && Parent(i) >= lo && Parent(c) == i ==> !Before(max, t[c], t[Parent(i)]))
  }

  lemma {:induction false} RootFirst(max: bool, t: seq<int>, i: int)
    requires IsHeap(max, t) && 0 <= i < |t|
    ensures !Before(max, t[i], t[0])
    decreases i
  {
    if i > 0 {
      RootFirst(max, t, Parent(i));
    }
  }

  lemma UpStep(max: bool, t: seq<int>, i: int)
    requires UpReady(max, t, i) && i >= 1 && Before(max, t[i], t[Parent(i)])
    ensures UpReady(max, t[i := t[Parent(i)]][Parent(i) := t[i]], Parent(i))
  {
  }

  lemma UpDone(max: bool, t: seq<int>, i: int)
    requires UpReady(max, t, i) && (i >= 1 ==> !Before(max, t[i], t[Parent(i)]))
    ensures IsHeap(max, t)
  {
  }

  /** j is a child of i that no other child of i belongs above. */
  ghost predicate FirstChild(max: bool, t: seq<int>, i: int, j: int) {
    && 1 <= j < |t| && Parent(j) == i
    && forall c :: 1 <= c < |t| && Parent(c) == i ==> !Before(max, t[c], t[j])
  }

  lemma DownStep(max: bool, t: seq<int>, i: int, j: int, lo: int)
    requires DownReady(max, t, i, lo) && FirstChild(max, t, i, j) && Before(max, t[j], t[i])
    ensures DownReady(max, t[i := t[j]][j := t[i]], j, lo)
  {
  }

  lemma DownDone(max: bool, t: seq<int>, i: int, lo: int)
    requires DownReady(max, t, i, lo)
    requires forall c :: 1 <= c < |t| && Parent(c) == i ==> !Before(max, t[c], t[i])
    ensures HeapFrom(max, t, lo)
  {
  }

  /** Changing the element at one place of a heap leaves it ready to move up or down. */
  lemma Changed(max: bool, s: seq<int>, pos: int, val: int)
    requires IsHeap(max, s) && 0 <= pos < |s|
    ensures MovesUp(max, s[pos := val], pos) ==> UpReady(max, s[pos := val], pos)
    ensures !MovesUp(max, s[pos := val], pos) ==> DownReady(max, s[pos := val], pos, 0)
  {
  }

  lemma HeapIsReady(max: bool, s: seq<int>, pos: int)
    requires IsHeap(max, s) && 0 <= pos < |s|
    ensures DownReady(max, s, pos, 0)
  {
  }

  lemma Appended(max: bool, s: seq<int>, val: int)
    requires IsHeap(max, s)
    ensures UpReady(max, s + [val], |s|)
  {
  }

  lemma RootReplaced(max: bool, s: seq<int>)
    requires IsHeap(max, s) && |s| >= 2
    ensures DownReady(max, s[..|s| - 1][0 := s[|s| - 1]], 0, 0)
  {
  }
}

module BinaryHeaps {
  import opened HeapOrder
  import opened NearlySortedSequences

  datatype Extraction = HeapIsEmpty | Extracted(top: int)

  /** The state of a sift: with the key in the hole, t arranges s. */
  ghost predicate SiftingUp(max: bool, s: seq<int>, d: seq<int>, n: int, i: int, key: int) {
    && 0 <= i < n <= |d| && UpReady(max, d[..n][i := key], i) && Rearranged(s, d[..n][i := key])
  }

  ghost predicate SiftingDown(max: bool, s: seq<int>, d: seq<int>, n: int, i: int, key: int, lo: int) {
    && 0 <= i < n <= |d| && DownReady(max, d[..n][i := key], i, lo) && Rearranged(s, d[..n][i := key])
  }

  /** Filling the hole from place j and leaving a hole there is an exchange. */
  lemma HoleExchange(d: seq<int>, n: int, i: int, j: int, key: int)
    requires 0 <= i < n <= |d| && 0 <= j < n && i != j
    ensures var t := d[..n][i := key];
            d[i := d[j]][..n][j := key] == t[i := t[j]][j := t[i]] && Rearranged(t, t[i := t[j]][j := t[i]])
            && d[i := d[j]][n..] == d[n..]
  {
    SwapPermutes(d[..n][i := key], i, j);
  }

  lemma SiftedUp(max: bool, s: seq<int>, d: seq<int>, n: int, i: int, key: int)
    requires SiftingUp(max, s, d, n, i, key) && i >= 1 && Before(max, key, d[Parent(i)])
    ensures SiftingUp(max, s, d[i := d[Parent(i)]], n, Parent(i), key) && d[i := d[Parent(i)]][n..] == d[n..]
  {
    HoleExchange(d, n, i, Parent(i), key);
    UpStep(max, d[..n][i := key], i);
  }

  lemma SiftedDown(max: bool, s: seq<int>, d: seq<int>, n: int, i: int, j: int, key: int, lo: int)
    requires SiftingDown(max, s, d, n, i, key, lo) && FirstChild(max, d[..n], i, j) && Before(max, d[j], key)
    ensures SiftingDown(max, s, d[i := d[j]], n, j, key, lo) && d[i := d[j]][n..] == d[n..]
  {
    var t := d[..n][i := key];
    assert FirstChild(max, t, i, j);
    HoleExchange(d, n, i, j, key);
    DownStep(max, t, i, j, lo);
  }

  lemma SiftUpEnds(max: bool, s: seq<int>, d: seq<int>, n: int, i: int, key: int)
    requires SiftingUp(max, s, d, n, i, key) && (i >= 1 ==> !Before(max, key, d[Parent(i)]))
    ensures IsHeap(max, d[i := key][..n]) && Rearranged(s, d[i := key][..n]) && d[i := key][n..] == d[n..]
  {
    UpDone(max, d[..n][i := key], i);
    assert d[i := key][..n] == d[..n][i := key];
  }

  lemma SiftDownEnds(max: bool, s: seq<int>, d: seq<int>, n: int, i: int, key: int, lo: int)
    requires SiftingDown(max, s, d, n, i, key, lo)
    requires forall c :: 1 <= c < n && Parent(c) == i ==> !Before(max, d[c], key)
    ensures HeapFrom(max, d[i := key][..n], lo) && Rearranged(s, d[i := key][..n]) && d[i := key][n..] == d[n..]
  {
    DownDone(max, d[..n][i := key], i, lo);
    assert d[i := key][..n] == d[..n][i := key];
  }

  class BinaryHeap {
    const mMax: bool
    var mSize: nat
    var mData: array<int>

    ghost predicate Valid()
      reads this, mData
    {
      mSize <= mData.Length && mData.Length > 0 && IsHeap(mMax, mData[..mSize])
    }

    ghost function Contents(): multiset<int>
      requires mSize <= mData.Length
      reads this, mData
    {
      multiset(mData[..mSize])
    }

    constructor (max: bool, capacity: nat)
      requires capacity > 0
      ensures Valid() && fresh(mData) && mMax == max && mSize == 0 && mData.Length == capacity
    {
      mMax := max;
      mSize := 0;
      mData := new int[capacity];
    }

    method ShiftUp(pos: nat, ghost n: nat)
      requires pos < n <= mData.Length
      requires MovesUp(mMax, mData[..n], pos) ==> UpReady(mMax, mData[..n], pos)
      modifies mData
      ensures mData[n..] == old(mData[n..])
      ensures MovesUp(mMax, old(mData[..n]), pos) ==>
          IsHeap(mMax, mData[..n]) && Rearranged(old(mData[..n]), mData[..n])
      ensures !MovesUp(mMax, old(mData[..n]), pos) ==> mData[..n] == old(mData[..n])
    {
      hide UpReady, SiftingUp, IsHeap, Rearranged;
      ghost var s, d := mData[..n], mData[..];
      var i := pos;
      var key := mData[i];
      ghost var moves := MovesUp(mMax, s, pos);
      SiftUpStarts(mMax, d, n, pos);
      while i > 0 && Before(mMax, key, mData[(i - 1) / 2])
        invariant 0 <= i <= pos && mData[n..] == d[n..]
        invariant moves ==> SiftingUp(mMax, s, mData[..], n, i, key)
        invariant !moves ==> i == pos && mData[..] == d
      {
        SiftedUp(mMax, s, mData[..], n, i, key);
        mData[i] := mData[(i - 1) / 2];
        i := (i - 1) / 2;
      }
      if moves {
        SiftUpEnds(mMax, s, mData[..], n, i, key);
      }
      mData[i] := key;
    }

    method ShiftDown(pos: nat, ghost lo: nat)
      requires pos < mSize <= mData.Length && DownReady(mMax, mData[..mSize], pos, lo)
      modifies mData
      ensures mData[mSize..] == old(mData[mSize..])
      ensures HeapFrom(mMax, mData[..mSize], lo) && Rearranged(old(mData[..mSize]), mData[..mSize])
    {
      hide DownReady, SiftingDown, HeapFrom, Rearranged, FirstChild;
      ghost var s, d, n := mData[..mSize], mData[..], mSize;
      var i, j := pos, 2 * pos + 1;
      var key := mData[i];
      SiftDownStarts(mMax, d, n, pos, lo);
      while j < mSize
        invariant 0 <= i < n && j == 2 * i + 1 && mData[n..] == d[n..]
        invariant SiftingDown(mMax, s, mData[..], n, i, key, lo)
        decreases n - i
      {
        if j + 1 < mSize && Before(mMax, mData[j + 1], mData[j]) {
          j := j + 1;
        }
        ChosenChild(mMax, mData[..n], i, j);
        if Before(mMax, mData[j], key) {
          SiftedDown(mMax, s, mData[..], n, i, j, key, lo);
          mData[i] := mData[j];
          i := j;
          j := 2 * i + 1;
        } else {
          NoChildAbove(mMax, mData[..n], i, j, key);
          break;
        }
      }
      SiftDownEnds(mMax, s, mData[..], n, i, key, lo);
      mData[i] := key;
    }

    method Add(val: int)
      requires Valid()
      modifies this, mData
      ensures Valid() && (mData == old(mData) || fresh(mData))
      ensures mData.Length == if old(mSize) < old(mData.Length) then old(mData.Length) else 2 * old(mData.Length)
      ensures mSize == old(mSize) + 1 && Contents() == old(Contents()) + multiset{val}
    {
      hide IsHeap;
      if mSize >= mData.Length {
        assert mData[..] == mData[..mSize];
        Expand();
      }
      PutLast(val);
    }

    method PutLast(val: int)
      requires Valid() && mSize < mData.Length
      modifies this, mData
      ensures Valid() && mData == old(mData)
      ensures mSize == old(mSize) + 1 && Contents() == old(Contents()) + multiset{val}
    {
      hide IsHeap, UpReady, MovesUp, Rearranged;
      ghost var s := mData[..mSize];
      StoreLast(val);
      Appended(mMax, s, val);
      ShiftUp(mSize, mSize + 1);
      AddDone(mMax, s, val, mData[..mSize + 1]);
      mSize := mSize + 1;
    }

    method StoreLast(val: int)
      requires mSize < mData.Length
      modifies mData
      ensures mData[..mSize + 1] == old(mData[..mSize]) + [val]
    {
      mData[mSize] := val;
    }

    method Extract() returns (r: Extraction)
      requires Valid()
      modifies this, mData
      ensures Valid() && mData == old(mData)
      ensures r == HeapIsEmpty <==> old(mSize) == 0
      ensures r == HeapIsEmpty ==> mSize == 0
      ensures r.Extracted? ==> mSize == old(mSize) - 1 && old(Contents()) == Contents() + multiset{r.top}
      ensures r.Extracted? ==> r.top in old(Contents())
      ensures r.Extracted? ==> forall x :: x in old(Contents()) ==> if mMax then x <= r.top else x >= r.top
    {
      if mSize == 0 {
        return HeapIsEmpty;
      }
      ghost var s := mData[..mSize];
      var top := mData[0];
      TopFirst(mMax, s);
      mSize := mSize - 1;
      mData[0] := mData[mSize];
      ghost var t := mData[..mSize];
      LastToRoot(mMax, s, t);
      if mSize > 0 {
        ShiftDown(0, 0);
      }
      r := Extracted(top);
    }

    method Modify(pos: nat, val: int)
      requires Valid() && pos < mSize
      modifies mData
      ensures Valid() && mSize == old(mSize)
      ensures Contents() == old(Contents()) - multiset{old(mData[pos])} + multiset{val}
    {
      ghost var s := mData[..mSize];
      Changed(mMax, s, pos, val);
      mData[pos] := val;
      ghost var t := mData[..mSize];
      assert t == s[pos := val];
      ShiftUp(pos, mSize);
      ghost var u := mData[..mSize];
      if MovesUp(mMax, t, pos) {
        HeapIsReady(mMax, u, pos);
      }
      ShiftDown(pos, 0);
    }

    /** The capacity is doubled. */
    method Expand()
      requires mSize == mData.Length > 0
      modifies this
      ensures fresh(mData) && mData.Length == 2 * mSize && mSize == old(mSize) && mData[..mSize] == old(mData[..])
    {
      var newHeap := new int[2 * mData.Length];
      for i := 0 to mData.Length
        modifies newHeap
        invariant forall p :: 0 <= p < i ==> newHeap[p] == mData[p]
      {
        newHeap[i] := mData[i];
      }
      mData := newHeap;
    }

    /** Builds the heap from the items, from the last parent back to the root. */
    constructor FromItems(max: bool, items: seq<int>, capacity: nat)
      requires capacity > 0
      ensures Valid() && fresh(mData) && mMax == max && Contents() == multiset(items)
    {
      mMax := max;
      mSize := |items|;
      mData := new int[if |items| > capacity then |items| else capacity];
      new;
      for i := 0 to |items|
        invariant mSize == |items| <= mData.Length && mData.Length > 0 && fresh(mData) && forall p :: 0 <= p < i ==>
            mData[p] == items[p]
      {
        mData[i] := items[i];
      }
      assert mData[..mSize] == items;
      LeavesOrdered(mMax, items);
      for i := mSize / 2 downto 0
        invariant mSize == |items| <= mData.Length && mData.Length > 0 && fresh(mData)
        invariant HeapFrom(mMax, mData[..mSize], i) && Rearranged(items, mData[..mSize])
      {
        NextParent(mMax, mData[..mSize], i);
        ShiftDown(i, i);
      }
    }
  }

  lemma LeavesOrdered(max: bool, t: seq<int>)
    ensures HeapFrom(max, t, |t| / 2)
  {
  }

  lemma NextParent(max: bool, t: seq<int>, i: int)
    requires 0 <= i < |t| && HeapFrom(max, t, i + 1)
    ensures DownReady(max, t, i, i)
  {
  }

  lemma AddDone(max: bool, s: seq<int>, val: int, u: seq<int>)
    requires IsHeap(max, s)
    requires MovesUp(max, s + [val], |s|) ==> IsHeap(max, u) && Rearranged(s + [val], u)
    requires !MovesUp(max, s + [val], |s|) ==> u == s + [val]
    ensures IsHeap(max, u) && multiset(u) == multiset(s) + multiset{val}
  {
    Appended(max, s, val);
    if !MovesUp(max, s + [val], |s|) {
      UpDone(max, s + [val], |s|);
    }
  }

  lemma TopFirst(max: bool, s: seq<int>)
    requires IsHeap(max, s) && |s| > 0
    ensures forall x :: x in multiset(s) ==> !Before(max, x, s[0])
  {
    forall x | x in multiset(s)
      ensures !Before(max, x, s[0])
    {
      var i :| 0 <= i < |s| && s[i] == x;
      RootFirst(max, s, i);
    }
  }

  lemma LastToRoot(max: bool, s: seq<int>, t: seq<int>)
    requires IsHeap(max, s) && |s| > 0 && t == if |s| == 1 then [] else s[..|s| - 1][0 := s[|s| - 1]]
    ensures |t| > 0 ==> DownReady(max, t, 0, 0)
    ensures multiset(s) == multiset(t) + multiset{s[0]}
  {
    var k := |s| - 1;
    assert s == s[..k] + [s[k]];
    if |s| > 1 {
      RootReplaced(max, s);
      assert multiset(t) == multiset(s[..k]) - multiset{s[0]} + multiset{s[k]};
    }
  }

  lemma SiftDownStarts(max: bool, d: seq<int>, n: int, pos: int, lo: int)
    requires 0 <= pos < n <= |d| && DownReady(max, d[..n], pos, lo)
    ensures SiftingDown(max, d[..n], d, n, pos, d[pos], lo)
  {
    assert d[..n][pos := d[pos]] == d[..n];
  }

  /** j is the first child of i, or the second if that belongs above it. */
  lemma ChosenChild(max: bool, t: seq<int>, i: int, j: int)
    requires 0 <= i && 1 <= j < |t| && (j == 2 * i + 1 || j == 2 * i + 2)
    requires j == 2 * i + 1 ==> (j + 1 < |t| ==> !Before(max, t[j + 1], t[j]))
    requires j == 2 * i + 2 ==> Before(max, t[j], t[j - 1])
    ensures FirstChild(max, t, i, j)
  {
  }

  lemma NoChildAbove(max: bool, t: seq<int>, i: int, j: int, key: int)
    requires FirstChild(max, t, i, j) && !Before(max, t[j], key)
    ensures forall c :: 1 <= c < |t| && Parent(c) == i ==> !Before(max, t[c], key)
  {
  }

  lemma SiftUpStarts(max: bool, d: seq<int>, n: int, pos: int)
    requires 0 <= pos < n <= |d|
    ensures UpReady(max, d[..n], pos) ==> SiftingUp(max, d[..n], d, n, pos, d[pos])
  {
    assert d[..n][pos := d[pos]] == d[..n];
  }
}
