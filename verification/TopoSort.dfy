/** Topological orders of a directed graph given by its successor lists. */
module TopologicalOrders {
  import opened IndexSets

  type Successors = seq<seq<int>>

  ghost predicate IsGraph(adj: Successors) {
    forall u :: 0 <= u < |adj| ==> forall k :: 0 <= k < |adj[u]| ==> 0 <= adj[u][k] < |adj|
  }

  ghost predicate IsWalk(adj: Successors, c: seq<int>) {
    && |c| > 0
    && (forall k :: 0 <= k < |c| ==> 0 <= c[k] < |adj|)
    && forall k :: 0 <= k < |c| - 1 ==> c[k + 1] in adj[c[k]]
  }

  /** A walk of at least one edge that ends where it began. */
  ghost predicate IsCycle(adj: Successors, c: seq<int>) {
    IsWalk(adj, c) && |c| >= 2 && c[0] == c[|c| - 1]
  }

  ghost predicate Acyclic(adj: Successors) {
    forall c :: !IsCycle(adj, c)
  }

  /** Distinct vertices, each with all its successors after it. */
  ghost predicate Ordered(adj: Successors, s: seq<int>) {
    && (forall i :: 0 <= i < |s| ==> 0 <= s[i] < |adj|)
    && (forall i, j :: 0 <= i < j < |s| ==> s[i] != s[j])
    && forall i, w :: 0 <= i < |s| && w in adj[s[i]] ==> w in s[i + 1..]
  }

  /** A permutation of the vertices with every edge going forward. */
  ghost predicate TopologicalOrder(adj: Successors, s: seq<int>) {
    && |s| == |adj|
    && (forall v :: 0 <= v < |adj| ==> v in s)
    && (forall i, j :: 0 <= i < j < |s| ==> s[i] != s[j])
    && forall i, j :: 0 <= i < |s| && 0 <= j < |s| && 0 <= s[i] < |adj| && s[j] in adj[s[i]] ==> i < j
  }

  lemma Prepend(adj: Successors, u: int, s: seq<int>)
    requires Ordered(adj, s) && 0 <= u < |adj| && u !in s
    requires forall w :: w in adj[u] ==> w in s
    ensures Ordered(adj, [u] + s)
  {
    var t := [u] + s;
    forall i, w | 0 <= i < |t| && w in adj[t[i]]
      ensures w in t[i + 1..]
    {
      assert t[1..] == s;
      if i > 0 {
        assert t[i + 1..] == s[i..];
      }
    }
  }

  /** A walk along an order only moves forward. */
  lemma {:induction false} WalkForward(adj: Successors, s: seq<int>, c: seq<int>, i: nat)
    requires Ordered(adj, s) && IsWalk(adj, c) && |c| >= 2 && i < |s| && s[i] == c[0]
    ensures c[|c| - 1] in s[i + 1..]
    decreases |c|
  {
    assert c[1] in s[i + 1..];
    var j :| i < j < |s| && s[j] == c[1];
    if |c| > 2 {
      var d := c[1..];
      forall k | 0 <= k < |d| - 1
        ensures d[k + 1] in adj[d[k]]
      {
        assert c[k + 1 + 1] in adj[c[k + 1]];
      }
      WalkForward(adj, s, d, j);
      assert d[|d| - 1] == c[|c| - 1];
    }
  }

  lemma OrderedAcyclic(adj: Successors, s: seq<int>)
    requires Ordered(adj, s) && forall v :: 0 <= v < |adj| ==> v in s
    ensures Acyclic(adj)
  {
    forall c
      ensures !IsCycle(adj, c)
    {
      if IsCycle(adj, c) {
        assert c[0] in s;
        var i :| 0 <= i < |s| && s[i] == c[0];
        WalkForward(adj, s, c, i);
      }
    }
  }

  lemma NotAll(adj: Successors, s: seq<int>)
    requires Ordered(adj, s) && exists u :: 0 <= u < |adj| && u !in s
    ensures |s| < |adj|
  {
    var u :| 0 <= u < |adj| && u !in s;
    DistinctElements(s);
    SubsetSize(Elements(s) + {u}, Below(|adj|));
  }

  lemma OrderedSize(adj: Successors, s: seq<int>)
    requires Ordered(adj, s)
    ensures |s| <= |adj|
    ensures (exists u :: 0 <= u < |adj| && u !in s) ==> |s| < |adj|
    ensures (forall v :: 0 <= v < |adj| ==> v in s) ==> |s| == |adj|
  {
    DistinctElements(s);
    SubsetSize(Elements(s), Below(|adj|));
    assert forall v :: v in s ==> v in Elements(s);
    if forall v :: 0 <= v < |adj| ==> v in s {
      SubsetSize(Below(|adj|), Elements(s));
    } else {
      NotAll(adj, s);
    }
  }

  lemma CompleteOrder(adj: Successors, s: seq<int>)
    requires Ordered(adj, s) && forall v :: 0 <= v < |adj| ==> v in s
    ensures TopologicalOrder(adj, s)
  {
    OrderedSize(adj, s);
  }

  // ----- The depth-first search -----

  datatype Color = White | Black | Gray

  /** The grey vertices are the current path, the black ones are in order. */
  ghost predicate Searched(adj: Successors, colors: seq<Color>, path: seq<int>, s: seq<int>) {
    && IsGraph(adj) && |colors| == |adj|
    && (path == [] || IsWalk(adj, path))
    && Ordered(adj, s)
    && (forall v :: 0 <= v < |adj| ==> (colors[v] == Gray <==> v in path))
    && (forall v :: 0 <= v < |adj| ==> (colors[v] == Black <==> v in s))
  }

  ghost function Whites(colors: seq<Color>): set<int> {
    set v | 0 <= v < |colors| && colors[v] == White
  }

  /** Only white vertices have changed colour. */
  ghost predicate Kept(before: seq<Color>, after: seq<Color>) {
    |before| == |after| && forall v :: 0 <= v < |before| && before[v] != White ==> after[v] == before[v]
  }

  lemma WhitesShrink(before: seq<Color>, after: seq<Color>)
    requires Kept(before, after)
    ensures Whites(after) <= Whites(before)
  {
  }

  lemma KeptByVisit(colors: seq<Color>, u: int, after: seq<Color>)
    requires 0 <= u < |colors| && colors[u] == White && Kept(colors[u := Gray], after)
    ensures Kept(colors, after[u := Black]) && Whites(after) < Whites(colors)
  {
    WhitesShrink(colors[u := Gray], after);
    assert u in Whites(colors) && u !in Whites(after);
  }

  lemma Enter(adj: Successors, colors: seq<Color>, path: seq<int>, s: seq<int>, u: int)
    requires Searched(adj, colors, path, s) && 0 <= u < |adj| && colors[u] == White
    requires path != [] ==> u in adj[path[|path| - 1]]
    ensures Searched(adj, colors[u := Gray], path + [u], s) && u !in path
  {
  }

  lemma Leave(adj: Successors, colors: seq<Color>, path: seq<int>, s: seq<int>, u: int)
    requires Searched(adj, colors, path + [u], s) && u !in path && 0 <= u < |adj|
    requires forall w :: w in adj[u] ==> w in s
    ensures Searched(adj, colors[u := Black], path, [u] + s)
    ensures |s| < |adj|
  {
    assert (path + [u])[|path|] == u;
    Prepend(adj, u, s);
    OrderedSize(adj, s);
    if path != [] {
      assert forall k :: 0 <= k < |path| ==> (path + [u])[k] == path[k];
    }
  }

  /** An edge to a grey vertex closes a cycle. */
  lemma CycleFound(adj: Successors, path: seq<int>, v: int)
    requires IsWalk(adj, path) && v in path && v in adj[path[|path| - 1]]
    ensures !Acyclic(adj)
  {
    var i :| 0 <= i < |path| && path[i] == v;
    var c := path[i..] + [v];
    assert IsCycle(adj, c);
  }
}

module TopoSorts {
  import opened AdjacencyLists
  import opened TopologicalOrders

  ghost function Lists(graph: DirectedGraphAsAdjList): (adj: Successors)
    requires graph.Valid()
    reads graph
    ensures |adj| == |graph.mHeads| && IsGraph(adj)
  {
    seq(|graph.mHeads|, u requires 0 <= u < |graph.mHeads| && graph.Valid() reads graph => graph.Successors(u))
  }

  class TopoSort {
    const mGraph: DirectedGraphAsAdjList
    var mColors: seq<Color>
    var mSequence: seq<int>
    var mIsDAG: bool
    var mCurrentSequenceIndex: int

    ghost predicate Valid()
      reads this, mGraph
    {
      && mGraph.Valid()
      && |mColors| == |mSequence| == |mGraph.mHeads|
    }

    /** The part of the sequence filled so far. */
    ghost function Filled(): seq<int>
      requires 0 <= mCurrentSequenceIndex <= |mSequence|
      reads this
    {
      mSequence[mCurrentSequenceIndex..]
    }

    ghost predicate Searching(path: seq<int>)
      reads this, mGraph
    {
      && Valid() && 0 <= mCurrentSequenceIndex <= |mSequence|
      && Searched(Lists(mGraph), mColors, path, Filled())
    }

    constructor (graph: DirectedGraphAsAdjList)
      requires graph.Valid()
      ensures Valid() && mGraph == graph
    {
      mGraph := graph;
      mColors := seq(|graph.mHeads|, i => White);
      mSequence := seq(|graph.mHeads|, i => 0);
      mIsDAG := false;
      mCurrentSequenceIndex := 0;
    }

    method Compute()
      requires Valid()
      modifies this
      ensures Valid()
      ensures mIsDAG <==> Acyclic(Lists(mGraph))
      ensures mIsDAG ==> TopologicalOrder(Lists(mGraph), mSequence)
    {
      var n := mGraph.NumVertex();
      mColors := seq(n, i => White);
      mIsDAG := true;
      mCurrentSequenceIndex := n;
      var u := 0;
      while mIsDAG && u < n
        invariant 0 <= u <= n && Valid()
        invariant mIsDAG ==> Searching([])
        invariant mIsDAG ==> forall v :: 0 <= v < u ==> mColors[v] == Black
        invariant !mIsDAG ==> !Acyclic(Lists(mGraph))
      {
        if mColors[u] == White {
          DFSVisit(u, []);
        }
        u := u + 1;
      }
      if mIsDAG {
        OrderedAcyclic(Lists(mGraph), Filled());
        CompleteOrder(Lists(mGraph), Filled());
      }
    }

    /** The first i edges that leave u lead to black vertices; the iterator holds the rest. */
    ghost predicate Explored(path: seq<int>, u: nat, iter: EdgeIterator, i: nat)
      reads this, mGraph, iter
    {
      && Searching(path + [u]) && u < |mColors| && iter.mGraph == mGraph && iter.Valid()
      && i <= |Lists(mGraph)[u]| && iter.Remaining() == Lists(mGraph)[u][i..]
      && forall k :: 0 <= k < i ==> mColors[Lists(mGraph)[u][k]] == Black
    }

    method DFSVisit(u: nat, ghost path: seq<int>)
      requires Searching(path) && mIsDAG && u < |mColors| && mColors[u] == White
      requires path != [] ==> u in Lists(mGraph)[path[|path| - 1]]
      modifies this
      ensures Valid()
      ensures mIsDAG ==> Searching(path) && mColors[u] == Black && Kept(old(mColors), mColors)
      ensures !mIsDAG ==> !Acyclic(Lists(mGraph))
      decreases Whites(mColors), 0
    {
      ghost var colors := mColors;
      Enter(Lists(mGraph), mColors, path, Filled(), u);
      mColors := mColors[u := Gray];
      ghost var entered := mColors;
      var iter := mGraph.GetEdgeIterator(u);
      var hasNext := iter.HasNext();
      ghost var i: nat := 0;
      while hasNext
        invariant fresh(iter) && Explored(path, u, iter, i) && mIsDAG && Kept(entered, mColors)
        invariant hasNext <==> iter.Remaining() != []
        decreases iter.mCurrentPtr
      {
        KeptByVisit(colors, u, mColors);
        ExploreNext(iter, path, u, i);
        if !mIsDAG {
          return;
        }
        hasNext := iter.HasNext();
        i := i + 1;
      }
      KeptByVisit(colors, u, mColors);
      Finish(u, path);
    }

    /** One turn of the loop over the edges that leave u. */
    method ExploreNext(iter: EdgeIterator, ghost path: seq<int>, ghost u: nat, ghost i: nat)
      requires Explored(path, u, iter, i) && mIsDAG && iter.Remaining() != []
      modifies this, iter
      ensures Valid() && iter.mCurrentPtr < old(iter.mCurrentPtr)
      ensures mIsDAG ==> Explored(path, u, iter, i + 1) && Kept(old(mColors), mColors)
      ensures !mIsDAG ==> !Acyclic(Lists(mGraph))
      decreases Whites(mColors), 2
    {
      ghost var edges := Lists(mGraph)[u];
      assert edges[i..] == [edges[i]] + edges[i + 1..];
      var v := iter.NextVertex();
      Explore(v, path, u);
    }

    /** The edge from u to v. */
    method Explore(v: nat, ghost path: seq<int>, ghost u: nat)
      requires Searching(path + [u]) && mIsDAG && u < |mColors| && v in Lists(mGraph)[u] && v < |mColors|
      modifies this
      ensures Valid()
      ensures mIsDAG ==> Searching(path + [u]) && mColors[v] == Black && Kept(old(mColors), mColors)
      ensures !mIsDAG ==> !Acyclic(Lists(mGraph))
      decreases Whites(mColors), 1
    {
      if mColors[v] == White {
        DFSVisit(v, path + [u]);
      } else if mColors[v] == Gray {
        CycleFound(Lists(mGraph), path + [u], v);
        mIsDAG := false;
      }
    }

    /** All edges that leave u are done. */
    method Finish(u: nat, ghost path: seq<int>)
      requires Searching(path + [u]) && u !in path && u < |mColors|
      requires forall k :: 0 <= k < |Lists(mGraph)[u]| ==> mColors[Lists(mGraph)[u][k]] == Black
      modifies this
      ensures Searching(path) && mIsDAG == old(mIsDAG) && mColors == old(mColors)[u := Black]
    {
      ghost var filled := Filled();
      Leave(Lists(mGraph), mColors, path, filled, u);
      mColors := mColors[u := Black];
      mCurrentSequenceIndex := mCurrentSequenceIndex - 1;
      mSequence := mSequence[mCurrentSequenceIndex := u];
      assert Filled() == [u] + filled;
    }

    method SequenceAt(i: nat) returns (v: int)
      requires Valid() && i < |mSequence|
      ensures v == mSequence[i]
    {
      v := mSequence[i];
    }

    method IsDAG() returns (r: bool)
      ensures r == mIsDAG
    {
      r := mIsDAG;
    }
  }
}
