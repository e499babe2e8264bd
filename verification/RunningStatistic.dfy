/** The k best values of a stream, where the values that may be dropped are the ones above in a heap. */
module BestValues {
  import opened HeapOrder

  /**
   m holds the k values that come last in the order of the heap, all values if there are no more:
   the k least values in a max-heap, the k greatest in a min-heap.
   */
  ghost predicate Kept(max: bool, m: multiset<int>, seen: multiset<int>, k: nat) {
    && m <= seen
    && |m| == (if |seen| < k then |seen| else k)
    && forall x, y :: x in seen - m && y in m ==> !Before(max, y, x)
  }

  /** In plain words: what a max-heap has dropped is at least what it keeps, what a min-heap has dropped at most. */
  lemma KeptMeans(max: bool, m: multiset<int>, seen: multiset<int>, k: nat)
    requires Kept(max, m, seen, k)
    ensures m <= seen && |m| == if |seen| < k then |seen| else k
    ensures forall x, y :: x in seen - m && y in m ==> if max then y <= x else y >= x
  {
  }

  lemma NothingKept(max: bool, k: nat)
    ensures Kept(max, multiset{}, multiset{}, k)
  {
  }

  lemma KeptAdd(max: bool, m: multiset<int>, seen: multiset<int>, k: nat, val: int)
    requires Kept(max, m, seen, k) && |m| < k
    ensures Kept(max, m + multiset{val}, seen + multiset{val}, k)
  {
    assert |seen - m| == |seen| - |m| == 0;
    assert seen + multiset{val} - (m + multiset{val}) == seen - m;
  }

  /** Nothing changes when the value is no better than the worst one kept. */
  lemma KeptIgnore(max: bool, m: multiset<int>, seen: multiset<int>, k: nat, val: int, top: int)
    requires Kept(max, m, seen, k) && |m| == k && top in m
    requires (forall y :: y in m ==> !Before(max, y, top)) && !Before(max, top, val)
    ensures Kept(max, m, seen + multiset{val}, k)
  {
    assert |seen| >= k;
    forall x, y | x in seen + multiset{val} - m && y in m
      ensures !Before(max, y, x)
    {
      if x != val {
        assert x in seen - m;
      }
    }
  }

  lemma KeptReplace(max: bool, m: multiset<int>, seen: multiset<int>, k: nat, val: int, top: int)
    requires Kept(max, m, seen, k) && |m| == k && top in m
    requires (forall y :: y in m ==> !Before(max, y, top)) && Before(max, top, val)
    ensures Kept(max, m - multiset{top} + multiset{val}, seen + multiset{val}, k)
  {
    var m', seen' := m - multiset{top} + multiset{val}, seen + multiset{val};
    assert seen' - m' == seen - m + multiset{top};
    forall x, y | x in seen' - m' && y in m'
      ensures !Before(max, y, x)
    {
      if x != top {
        assert x in seen - m;
        assert !Before(max, top, x);
      }
    }
  }

  /** There is only one such selection. */
  lemma KeptUnique(max: bool, m: multiset<int>, m': multiset<int>, seen: multiset<int>, k: nat)
    requires Kept(max, m, seen, k) && Kept(max, m', seen, k)
    ensures m == m'
  {
    if m != m' {
      var y := Surplus(m, m');
      var z := Surplus(m', m);
      SurplusDropped(m, m', seen, y);
      SurplusDropped(m', m, seen, z);
    }
  }

  lemma SurplusDropped(m: multiset<int>, m': multiset<int>, seen: multiset<int>, y: int)
    requires m <= seen && m[y] > m'[y]
    ensures y in m && y in seen - m'
  {
  }

  lemma Included(m: multiset<int>, m': multiset<int>)
    requires m <= m' && |m| == |m'|
    ensures m == m'
  {
    assert m' == m + (m' - m);
  }

  lemma Surplus(m: multiset<int>, m': multiset<int>) returns (y: int)
    requires |m| == |m'| && m != m'
    ensures m[y] > m'[y]
  {
    if forall x :: x in m ==> m[x] <= m'[x] {
      Included(m, m');
    }
    y :| y in m && m[y] > m'[y];
  }
}

module RunningStatistics {
  import opened HeapOrder
  import opened BinaryHeaps
  import opened BestValues

  /** RunningMinK keeps its values in a max-heap, RunningMaxK in a min-heap. */
  class RunningK {
    const mK: nat
    const mHeap: BinaryHeap
    ghost var seen: multiset<int>

    ghost predicate Valid()
      reads this, mHeap, mHeap.mData
    {
      && mK > 0 && mHeap.Valid() && |mHeap.Contents()| == mHeap.mSize
      && Kept(mHeap.mMax, mHeap.Contents(), seen, mK)
    }

    constructor (min: bool, k: nat)
      requires k > 0
      ensures Valid() && fresh(mHeap) && fresh(mHeap.mData) && mK == k && mHeap.mMax == min && seen == multiset{}
    {
      mK := k;
      mHeap := new BinaryHeap(min, k);
      seen := multiset{};
      new;
      NothingKept(min, k);
    }

    method Add(val: int)
      requires Valid()
      modifies this, mHeap, mHeap.mData
      ensures Valid() && seen == old(seen) + multiset{val}
      ensures mHeap.mData == old(mHeap.mData) || fresh(mHeap.mData)
      ensures mHeap.Contents() <= seen && |mHeap.Contents()| == if |seen| < mK then |seen| else mK
      ensures forall x, y :: x in seen - mHeap.Contents() && y in mHeap.Contents() ==>
                if mHeap.mMax then y <= x else y >= x
    {
      hide Kept, IsHeap, Before;
      if mHeap.mSize < mK {
        AddWithRoom(val);
      } else {
        var top := mHeap.mData[0];
        TopOfContents(mHeap.mMax, mHeap.mData[..mHeap.mSize]);
        if Before(mHeap.mMax, top, val) {
          ReplaceTop(val);
        } else {
          KeptSize(mHeap.mMax, mHeap.Contents(), seen, mK);
          KeptIgnore(mHeap.mMax, mHeap.Contents(), seen, mK, val, top);
          seen := seen + multiset{val};
        }
      }
      KeptMeans(mHeap.mMax, mHeap.Contents(), seen, mK);
    }

    method AddWithRoom(val: int)
      requires Valid() && mHeap.mSize < mK
      modifies this, mHeap, mHeap.mData
      ensures Valid() && seen == old(seen) + multiset{val}
      ensures mHeap.mData == old(mHeap.mData) || fresh(mHeap.mData)
    {
      hide Kept, IsHeap, Before, BinaryHeap.Contents;
      KeptAdd(mHeap.mMax, mHeap.Contents(), seen, mK, val);
      mHeap.Add(val);
      seen := seen + multiset{val};
    }

    method ReplaceTop(val: int)
      requires Valid() && mHeap.mSize >= mK && Before(mHeap.mMax, mHeap.mData[0], val)
      modifies this, mHeap, mHeap.mData
      ensures Valid() && seen == old(seen) + multiset{val}
      ensures mHeap.mData == old(mHeap.mData)
    {
      hide Kept, IsHeap, Before;
      KeptSize(mHeap.mMax, mHeap.Contents(), seen, mK);
      TopOfContents(mHeap.mMax, mHeap.mData[..mHeap.mSize]);
      KeptReplace(mHeap.mMax, mHeap.Contents(), seen, mK, val, mHeap.mData[0]);
      mHeap.Modify(0, val);
      seen := seen + multiset{val};
    }
  }

  lemma KeptSize(max: bool, m: multiset<int>, seen: multiset<int>, k: nat)
    requires Kept(max, m, seen, k)
    ensures |m| <= k
  {
  }

  lemma TopOfContents(max: bool, s: seq<int>)
    requires IsHeap(max, s) && |s| > 0
    ensures s[0] in multiset(s) && forall y :: y in multiset(s) ==> !Before(max, y, s[0])
  {
    TopFirst(max, s);
  }
}
