/** The directed graph kept as one array of edges threaded into a list for each vertex. */
module AdjacencyLists {

  const NIL: int := -1

  /** The links of every edge lead to edges added before it, so every list ends. */
  ghost predicate Threaded(n: nat, edges: seq<int>, nexts: seq<int>) {
    && |edges| == |nexts|
    && (forall p :: 0 <= p < |edges| ==> 0 <= edges[p] < n)
    && (forall p :: 0 <= p < |nexts| ==> NIL <= nexts[p] < p)
  }

  /** The end points of the edges from edge p on. */
  ghost function ListFrom(n: nat, edges: seq<int>, nexts: seq<int>, p: int): (r: seq<int>)
    requires Threaded(n, edges, nexts) && NIL <= p < |edges|
    ensures forall k :: 0 <= k < |r| ==> 0 <= r[k] < n
    decreases p + 1
  {
    if p == NIL then [] else [edges[p]] + ListFrom(n, edges, nexts, nexts[p])
  }

  lemma {:induction false} ListKept(n: nat, edges: seq<int>, nexts: seq<int>, v: int, next: int, p: int)
    requires Threaded(n, edges, nexts) && NIL <= p < |edges| && 0 <= v < n && NIL <= next < |edges|
    ensures ListFrom(n, edges + [v], nexts + [next], p) == ListFrom(n, edges, nexts, p)
    decreases p + 1
  {
    if p != NIL {
      ListKept(n, edges, nexts, v, next, nexts[p]);
    }
  }

  class DirectedGraphAsAdjList {
    var mHeads: seq<int>
    var mEdges: seq<int>
    var mNexts: seq<int>

    ghost predicate Valid()
      reads this
    {
      && Threaded(|mHeads|, mEdges, mNexts)
      && forall u :: 0 <= u < |mHeads| ==> NIL <= mHeads[u] < |mEdges|
    }

    ghost function Successors(u: nat): (r: seq<int>)
      requires Valid() && u < |mHeads|
      reads this
      ensures forall k :: 0 <= k < |r| ==> 0 <= r[k] < |mHeads|
    {
      ListFrom(|mHeads|, mEdges, mNexts, mHeads[u])
    }

    constructor (numVertex: nat)
      ensures Valid() && |mHeads| == numVertex && mEdges == []
      ensures forall u: nat :: u < numVertex ==> Successors(u) == []
    {
      mHeads := seq(numVertex, i => NIL);
      mEdges := [];
      mNexts := [];
    }

    method NumVertex() returns (n: nat)
      ensures n == |mHeads|
    {
      n := |mHeads|;
    }

    method AddEdge(u: nat, v: nat)
      requires Valid() && u < |mHeads| && v < |mHeads|
      modifies this
      ensures Valid() && |mHeads| == old(|mHeads|) && |mEdges| == old(|mEdges|) + 1
      ensures Successors(u) == [v] + old(Successors(u))
      ensures forall w: nat :: w < |mHeads| && w != u ==> Successors(w) == old(Successors(w))
    {
      forall w: nat | w < |mHeads|
        ensures ListFrom(|mHeads|, mEdges + [v], mNexts + [mHeads[u]], mHeads[w]) == Successors(w)
      {
        ListKept(|mHeads|, mEdges, mNexts, v, mHeads[u], mHeads[w]);
      }
      mNexts := mNexts + [mHeads[u]];
      mEdges := mEdges + [v];
      mHeads := mHeads[u := |mEdges| - 1];
    }

    method GetEdgeIterator(vertex: nat) returns (iter: EdgeIterator)
      requires Valid() && vertex < |mHeads|
      ensures fresh(iter) && iter.Valid() && iter.mGraph == this && iter.Remaining() == Successors(vertex)
    {
      iter := new EdgeIterator(this, vertex);
    }
  }

  class EdgeIterator {
    const mGraph: DirectedGraphAsAdjList
    var mCurrentPtr: int

    ghost predicate Valid()
      reads this, mGraph
    {
      mGraph.Valid() && NIL <= mCurrentPtr < |mGraph.mEdges|
    }

    /** What is still to come. */
    ghost function Remaining(): (r: seq<int>)
      requires Valid()
      reads this, mGraph
      ensures forall k :: 0 <= k < |r| ==> 0 <= r[k] < |mGraph.mHeads|
    {
      ListFrom(|mGraph.mHeads|, mGraph.mEdges, mGraph.mNexts, mCurrentPtr)
    }

    constructor (graph: DirectedGraphAsAdjList, vertex: nat)
      requires graph.Valid() && vertex < |graph.mHeads|
      ensures Valid() && mGraph == graph && Remaining() == graph.Successors(vertex)
    {
      mGraph := graph;
      mCurrentPtr := graph.mHeads[vertex];
    }

    method HasNext() returns (r: bool)
      requires Valid()
      ensures r <==> Remaining() != []
    {
      r := mCurrentPtr != NIL;
    }

    method NextVertex() returns (next: nat)
      requires Valid() && Remaining() != []
      modifies this
      ensures Valid() && old(Remaining()) == [next] + Remaining()
      ensures mCurrentPtr < old(mCurrentPtr)
    {
      next := mGraph.mEdges[mCurrentPtr];
      mCurrentPtr := mGraph.mNexts[mCurrentPtr];
    }
  }
}
