/** Spanning trees of a complete graph with integer weights, and the exchange of one edge for another. */
module SpanningTrees {

  /** Symmetric weights. */
  ghost predicate IsWeights(g: seq<seq<int>>) {
    && (forall u :: 0 <= u < |g| ==> |g[u]| == |g|)
    && (forall u, v :: 0 <= u < |g| && 0 <= v < |g| ==> g[u][v] == g[v][u])
  }

  /** The undirected edge between two vertices. */
  ghost function Edge(u: int, v: int): (int, int) {
    if u < v then (u, v) else (v, u)
  }

  ghost predicate IsEdges(n: nat, t: set<(int, int)>) {
    forall e :: e in t ==> 0 <= e.0 < e.1 < n
  }

  ghost predicate IsWalk(t: set<(int, int)>, w: seq<int>) {
    |w| > 0 && forall i :: 0 <= i < |w| - 1 ==> Edge(w[i], w[i + 1]) in t
  }

  ghost predicate Joins(t: set<(int, int)>, w: seq<int>, a: int, b: int) {
    IsWalk(t, w) && w[0] == a && w[|w| - 1] == b
  }

  ghost predicate Connected(t: set<(int, int)>, a: int, b: int) {
    exists w :: Joins(t, w, a, b)
  }

  ghost predicate SpanningTree(n: nat, t: set<(int, int)>) {
    && IsEdges(n, t) && |t| == n - 1
    && forall a, b :: 0 <= a < n && 0 <= b < n ==> Connected(t, a, b)
  }

  lemma Reflexive(t: set<(int, int)>, a: int)
    ensures Connected(t, a, a)
  {
    assert Joins(t, [a], a, a);
  }

  lemma OneEdge(t: set<(int, int)>, a: int, b: int)
    requires Edge(a, b) in t
    ensures Connected(t, a, b)
  {
    assert Joins(t, [a, b], a, b);
  }

  lemma Transitive(t: set<(int, int)>, a: int, b: int, c: int)
    requires Connected(t, a, b) && Connected(t, b, c)
    ensures Connected(t, a, c)
  {
    var v, w :| Joins(t, v, a, b) && Joins(t, w, b, c);
    var x := v + w[1..];
    forall i | 0 <= i < |x| - 1
      ensures Edge(x[i], x[i + 1]) in t
    {
      if i < |v| - 1 {
        assert Edge(v[i], v[i + 1]) in t;
      } else {
        var k := i - (|v| - 1);
        assert x[i] == w[k] && x[i + 1] == w[k + 1];
      }
    }
    assert Joins(t, x, a, c);
  }

  lemma Symmetric(t: set<(int, int)>, a: int, b: int)
    requires Connected(t, a, b)
    ensures Connected(t, b, a)
  {
    var w :| Joins(t, w, a, b);
    var x := seq(|w|, i requires 0 <= i < |w| => w[|w| - 1 - i]);
    forall i | 0 <= i < |x| - 1
      ensures Edge(x[i], x[i + 1]) in t
    {
      var k := |w| - 2 - i;
      assert Edge(w[k], w[k + 1]) in t;
    }
    assert Joins(t, x, b, a);
  }

  /** When the ends of every edge of t are connected in t', everything connected in t is. */
  lemma {:induction false} Transfer(t: set<(int, int)>, t': set<(int, int)>, w: seq<int>, k: nat)
    requires IsWalk(t, w) && k < |w|
    requires forall u, v :: Edge(u, v) in t ==> Connected(t', u, v)
    ensures Connected(t', w[0], w[k])
    decreases k
  {
    if k == 0 {
      Reflexive(t', w[0]);
    } else {
      Transfer(t, t', w, k - 1);
      assert Edge(w[k - 1], w[k - 1 + 1]) in t;
      Transitive(t', w[0], w[k - 1], w[k]);
    }
  }

  ghost predicate Simple(w: seq<int>) {
    forall i, j :: 0 <= i < j < |w| ==> w[i] != w[j]
  }

  /** A walk can be cut down to one that visits no vertex twice. */
  lemma {:induction false} Shorten(t: set<(int, int)>, w: seq<int>, a: int, b: int) returns (x: seq<int>)
    requires Joins(t, w, a, b)
    ensures Joins(t, x, a, b) && Simple(x)
    decreases |w|
  {
    if Simple(w) {
      x := w;
    } else {
      var i, j :| 0 <= i < j < |w| && w[i] == w[j];
      var y := w[..i] + w[j..];
      forall k | 0 <= k < |y| - 1
        ensures Edge(y[k], y[k + 1]) in t
      {
        if k < i {
          assert Edge(w[k], w[k + 1]) in t;
        } else {
          var m := k - i + j;
          assert Edge(w[m], w[m + 1]) in t;
        }
      }
      x := Shorten(t, y, a, b);
    }
  }

  lemma {:induction false} Crossing(w: seq<int>, s: set<int>) returns (i: nat)
    requires |w| > 0 && w[0] in s && w[|w| - 1] !in s
    ensures i + 1 < |w| && w[i] in s && w[i + 1] !in s
    decreases |w|
  {
    if w[1] !in s {
      i := 0;
    } else {
      i := Crossing(w[1..], s);
      i := i + 1;
    }
  }

  /** On a simple walk the parts before and after one of its edges do not use that edge. */
  lemma PartsAvoid(t: set<(int, int)>, w: seq<int>, i: nat)
    requires IsWalk(t, w) && Simple(w) && i + 1 < |w|
    ensures var rest := t - {Edge(w[i], w[i + 1])};
      Connected(rest, w[0], w[i]) && Connected(rest, w[i + 1], w[|w| - 1])
  {
    var rest := t - {Edge(w[i], w[i + 1])};
    var x, y := w[..i + 1], w[i + 1..];
    forall k | 0 <= k < |x| - 1
      ensures Edge(x[k], x[k + 1]) in rest
    {
      assert Edge(w[k], w[k + 1]) in t && w[k] != w[i] && w[k] != w[i + 1];
    }
    forall k | 0 <= k < |y| - 1
      ensures Edge(y[k], y[k + 1]) in rest
    {
      var m := k + i + 1;
      assert Edge(w[m], w[m + 1]) in t && w[m + 1] != w[i] && w[m + 1] != w[i + 1];
    }
    assert Joins(rest, x, w[0], w[i]);
    assert Joins(rest, y, w[i + 1], w[|w| - 1]);
  }

  lemma Larger(t: set<(int, int)>, t': set<(int, int)>, a: int, b: int)
    requires Connected(t, a, b) && t <= t'
    ensures Connected(t', a, b)
  {
    var w :| Joins(t, w, a, b);
    assert Joins(t', w, a, b);
  }

  /**
   An edge that leaves s, put into a spanning tree, can replace one of the tree's own edges that leave s.
   */
  lemma Exchange(n: nat, t: set<(int, int)>, s: set<int>, a: int, b: int) returns (p: int, q: int)
    requires SpanningTree(n, t) && 0 <= a < n && 0 <= b < n && a in s && b !in s && Edge(a, b) !in t
    ensures p in s && q !in s && 0 <= p < n && 0 <= q < n && Edge(p, q) in t
    ensures SpanningTree(n, t - {Edge(p, q)} + {Edge(a, b)})
  {
    assert Connected(t, a, b);
    var w0 :| Joins(t, w0, a, b);
    var w := Shorten(t, w0, a, b);
    var i := Crossing(w, s);
    p, q := w[i], w[i + 1];
    assert Edge(p, q) in t;
    PartsAvoid(t, w, i);
    var t' := t - {Edge(p, q)} + {Edge(a, b)};
    Bridge(t, t', p, q, a, b);
    forall x, y | 0 <= x < n && 0 <= y < n
      ensures Connected(t', x, y)
    {
      assert Connected(t, x, y);
      var v :| Joins(t, v, x, y);
      Transfer(t, t', v, |v| - 1);
    }
  }

  lemma Bridge(t: set<(int, int)>, t': set<(int, int)>, p: int, q: int, a: int, b: int)
    requires t' == t - {Edge(p, q)} + {Edge(a, b)}
    requires Connected(t - {Edge(p, q)}, a, p) && Connected(t - {Edge(p, q)}, q, b)
    ensures forall u, v :: Edge(u, v) in t ==> Connected(t', u, v)
  {
    var rest := t - {Edge(p, q)};
    Larger(rest, t', a, p);
    Larger(rest, t', q, b);
    OneEdge(t', a, b);
    Symmetric(t', a, p);
    Symmetric(t', q, b);
    Transitive(t', p, a, b);
    Transitive(t', p, b, q);
    Symmetric(t', p, q);
    forall u, v | Edge(u, v) in t
      ensures Connected(t', u, v)
    {
      if Edge(u, v) in rest {
        OneEdge(t', u, v);
      }
    }
  }

  // ----- Weights -----

  ghost predicate InRange(g: seq<seq<int>>, t: set<(int, int)>) {
    IsWeights(g) && IsEdges(|g|, t)
  }

  ghost function Weight(g: seq<seq<int>>, t: set<(int, int)>): int
    requires InRange(g, t)
    decreases |t|
  {
    if t == {} then 0 else
      var e :| e in t;
      g[e.0][e.1] + Weight(g, t - {e})
  }

  lemma {:induction false} WeightWithout(g: seq<seq<int>>, t: set<(int, int)>, e: (int, int))
    requires InRange(g, t) && e in t
    ensures Weight(g, t) == g[e.0][e.1] + Weight(g, t - {e})
    decreases |t|
  {
    var f :| f in t && Weight(g, t) == g[f.0][f.1] + Weight(g, t - {f});
    if f != e {
      WeightWithout(g, t - {f}, e);
      WeightWithout(g, t - {e}, f);
      assert t - {f} - {e} == t - {e} - {f};
    }
  }

  lemma WeightWith(g: seq<seq<int>>, t: set<(int, int)>, u: int, v: int)
    requires InRange(g, t) && 0 <= u < |g| && 0 <= v < |g| && u != v && Edge(u, v) !in t
    ensures Weight(g, t + {Edge(u, v)}) == Weight(g, t) + g[u][v]
  {
    WeightWithout(g, t + {Edge(u, v)}, Edge(u, v));
    assert t + {Edge(u, v)} - {Edge(u, v)} == t;
  }

  /** Every spanning tree is at least as heavy as some spanning tree that contains a. */
  ghost predicate Promising(g: seq<seq<int>>, a: set<(int, int)>)
    requires IsWeights(g)
  {
    forall t :: SpanningTree(|g|, t) ==> Dominated(g, a, t)
  }

  ghost predicate Dominated(g: seq<seq<int>>, a: set<(int, int)>, t: set<(int, int)>)
    requires IsWeights(g) && SpanningTree(|g|, t)
  {
    exists t' :: SpanningTree(|g|, t') && a <= t' && Weight(g, t') <= Weight(g, t)
  }

  ghost predicate Inside(a: set<(int, int)>, s: set<int>) {
    forall e :: e in a ==> e.0 in s && e.1 in s
  }

  /** The lightest edge out of s. */
  ghost predicate Lightest(g: seq<seq<int>>, s: set<int>, u: int, v: int)
    requires IsWeights(g)
  {
    && 0 <= u < |g| && 0 <= v < |g| && u in s && v !in s
    && forall p, q :: 0 <= p < |g| && 0 <= q < |g| && p in s && q !in s ==> g[u][v] <= g[p][q]
  }

  lemma Improve(g: seq<seq<int>>, a: set<(int, int)>, s: set<int>, u: int, v: int, t: set<(int, int)>)
      returns (t': set<(int, int)>)
    requires IsWeights(g) && Inside(a, s) && Lightest(g, s, u, v)
    requires SpanningTree(|g|, t) && a <= t
    ensures SpanningTree(|g|, t') && a + {Edge(u, v)} <= t' && Weight(g, t') <= Weight(g, t)
  {
    if Edge(u, v) in t {
      t' := t;
    } else {
      var p, q := Exchange(|g|, t, s, u, v);
      var rest := t - {Edge(p, q)};
      t' := rest + {Edge(u, v)};
      assert Edge(p, q) !in a;
      WeightWithout(g, t, Edge(p, q));
      WeightWith(g, rest, u, v);
      assert g[p][q] == g[q][p] && g[u][v] <= g[p][q];
    }
  }

  lemma DominatedWith(g: seq<seq<int>>, a: set<(int, int)>, s: set<int>, u: int, v: int, t: set<(int, int)>)
    requires IsWeights(g) && Inside(a, s) && Lightest(g, s, u, v) && SpanningTree(|g|, t) && Dominated(g, a, t)
    ensures Dominated(g, a + {Edge(u, v)}, t)
  {
    hide Connected, Weight, Inside, Lightest;
    var t1 :| SpanningTree(|g|, t1) && a <= t1 && Weight(g, t1) <= Weight(g, t);
    var t2 := Improve(g, a, s, u, v, t1);
  }

  /** A lightest edge out of s may join the chosen edges inside s. */
  lemma GreedyChoice(g: seq<seq<int>>, a: set<(int, int)>, s: set<int>, u: int, v: int)
    requires IsWeights(g) && Inside(a, s) && Promising(g, a) && Lightest(g, s, u, v)
    ensures Promising(g, a + {Edge(u, v)})
  {
    hide Dominated, SpanningTree, Inside, Lightest;
    forall t | SpanningTree(|g|, t)
      ensures Dominated(g, a + {Edge(u, v)}, t)
    {
      DominatedWith(g, a, s, u, v, t);
    }
  }
}

module PrimAlgorithm {
  import opened IndexSets
  import opened SpanningTrees

  /** The edges a form a tree on the vertices s. */
  ghost predicate TreeOn(n: nat, s: set<int>, a: set<(int, int)>) {
    && IsEdges(n, a) && Inside(a, s) && |a| == |s| - 1
    && 0 in s && forall v :: v in s ==> 0 <= v < n && Connected(a, 0, v)
  }

  /** The chosen edges form a tree on s that can be completed to a minimum spanning tree. */
  ghost predicate Grown(g: seq<seq<int>>, s: set<int>, a: set<(int, int)>, total: int) {
    IsWeights(g) && TreeOn(|g|, s, a) && Promising(g, a) && total == Weight(g, a)
  }

  ghost predicate NearestTo(g: seq<seq<int>>, s: set<int>, j: int, d: int)
    requires IsWeights(g) && 0 <= j < |g|
  {
    && (exists k :: 0 <= k < |g| && k in s && d == g[k][j])
    && (forall k :: 0 <= k < |g| && k in s ==> d <= g[k][j])
  }

  /** Outside s every distance is the least weight of an edge from s. */
  ghost predicate Distances(g: seq<seq<int>>, s: set<int>, dist: seq<int>) {
    && IsWeights(g) && |dist| == |g|
    && forall j :: 0 <= j < |g| && j !in s ==> NearestTo(g, s, j, dist[j])
  }

  lemma StartGrown(g: seq<seq<int>>)
    requires IsWeights(g) && |g| > 0
    ensures Grown(g, {0}, {}, 0)
  {
    Reflexive({}, 0);
    forall t | SpanningTree(|g|, t)
      ensures Dominated(g, {}, t)
    {
      assert {} <= t;
    }
  }

  lemma GrowTree(n: nat, s: set<int>, a: set<(int, int)>, u: int, k: int)
    requires TreeOn(n, s, a) && u in s && k !in s && 0 <= k < n
    ensures TreeOn(n, s + {k}, a + {Edge(u, k)}) && Edge(u, k) !in a
  {
    GrowConnected(s, a, u, k);
  }

  lemma Grow(g: seq<seq<int>>, s: set<int>, a: set<(int, int)>, total: int, dist: seq<int>, k: int) returns (u: int)
    requires Grown(g, s, a, total) && Distances(g, s, dist)
    requires 0 <= k < |g| && k !in s
    requires forall j :: 0 <= j < |g| && j !in s ==> dist[k] <= dist[j]
    ensures Grown(g, s + {k}, a + {Edge(u, k)}, total + dist[k])
  {
    u := LightestEdge(g, s, dist, k);
    GrowTree(|g|, s, a, u, k);
    GreedyChoice(g, a, s, u, k);
    WeightWith(g, a, u, k);
  }

  lemma LightestEdge(g: seq<seq<int>>, s: set<int>, dist: seq<int>, k: int) returns (u: int)
    requires Distances(g, s, dist) && 0 <= k < |g| && k !in s
    requires forall j :: 0 <= j < |g| && j !in s ==> dist[k] <= dist[j]
    ensures Lightest(g, s, u, k) && dist[k] == g[u][k]
  {
    assert NearestTo(g, s, k, dist[k]);
    u :| 0 <= u < |g| && u in s && dist[k] == g[u][k];
    forall p, q | 0 <= p < |g| && 0 <= q < |g| && p in s && q !in s
      ensures g[u][k] <= g[p][q]
    {
      assert NearestTo(g, s, q, dist[q]);
    }
  }

  lemma GrowConnected(s: set<int>, a: set<(int, int)>, u: int, k: int)
    requires forall v :: v in s ==> Connected(a, 0, v)
    requires u in s
    ensures forall v :: v in s + {k} ==> Connected(a + {Edge(u, k)}, 0, v)
  {
    var a' := a + {Edge(u, k)};
    forall v | v in s
      ensures Connected(a', 0, v)
    {
      Larger(a, a', 0, v);
    }
    OneEdge(a', u, k);
    Transitive(a', 0, u, k);
  }

  ghost predicate MinimumSpanningTree(g: seq<seq<int>>, a: set<(int, int)>)
    requires IsWeights(g)
  {
    && SpanningTree(|g|, a)
    && forall t :: SpanningTree(|g|, t) ==> Weight(g, a) <= Weight(g, t)
  }

  lemma FullTreeSpans(n: nat, s: set<int>, a: set<(int, int)>)
    requires TreeOn(n, s, a) && |s| == n
    ensures SpanningTree(n, a)
  {
    FullSet(s, n);
    forall x, y | 0 <= x < n && 0 <= y < n
      ensures Connected(a, x, y)
    {
      Symmetric(a, 0, x);
      Transitive(a, x, 0, y);
    }
  }

  lemma FullyGrown(g: seq<seq<int>>, s: set<int>, a: set<(int, int)>, total: int)
    requires Grown(g, s, a, total) && |s| == |g|
    ensures MinimumSpanningTree(g, a)
  {
    FullTreeSpans(|g|, s, a);
    forall t | SpanningTree(|g|, t)
      ensures Weight(g, a) <= Weight(g, t)
    {
      var t' := Completion(g, a, t);
      SameSize(a, t');
    }
  }

  lemma Completion(g: seq<seq<int>>, a: set<(int, int)>, t: set<(int, int)>) returns (t': set<(int, int)>)
    requires IsWeights(g) && Promising(g, a) && SpanningTree(|g|, t)
    ensures SpanningTree(|g|, t') && a <= t' && Weight(g, t') <= Weight(g, t)
  {
    hide Connected, Weight;
    assert Dominated(g, a, t);
    t' :| SpanningTree(|g|, t') && a <= t' && Weight(g, t') <= Weight(g, t);
  }

  lemma SameSize(a: set<(int, int)>, b: set<(int, int)>)
    requires a <= b && |a| == |b|
    ensures a == b
  {
    assert b == a + (b - a);
  }

  class Prim {
    const mGraph: seq<seq<int>>
    var mDistances: seq<int>
    var mStates: seq<bool>
    var mTotalWeight: int

    constructor (graph: seq<seq<int>>)
      ensures mGraph == graph
    {
      mGraph := graph;
      mDistances, mStates, mTotalWeight := seq(|graph|, _ => 0), seq(|graph|, _ => false), 0;
      new;
    }

    ghost predicate Invariant(s: set<int>, a: set<(int, int)>)
      reads this
    {
      && |mStates| == |mGraph| && s == Marked(mStates)
      && Grown(mGraph, s, a, mTotalWeight) && Distances(mGraph, s, mDistances)
    }

    method Start()
      requires IsWeights(mGraph) && |mGraph| > 0
      modifies this
      ensures Invariant({0}, {})
    {
      var source := 0;
      mDistances, mStates := [], [];
      for u := 0 to |mGraph|
        invariant mDistances == mGraph[source][..u]
        invariant mStates == seq(u, _ => false)
      {
        mDistances := mDistances + [mGraph[source][u]];
        mStates := mStates + [false];
      }
      mDistances := mDistances[source := 0];
      mStates := mStates[source := true];
      mTotalWeight := 0;
      StartGrown(mGraph);
    }

    /** The unmarked vertex at the least distance; `min` starts above every weight. */
    method Closest(ghost s: set<int>) returns (k: int, min: int)
      requires |mStates| == |mDistances| == |mGraph| && s == Marked(mStates)
      requires exists j :: 0 <= j < |mGraph| && j !in s
      ensures 0 <= k < |mGraph| && k !in s && min == mDistances[k]
      ensures forall j :: 0 <= j < |mGraph| && j !in s ==> min <= mDistances[j]
    {
      k, min := -1, 0;
      for j := 0 to |mGraph|
        invariant k == -1 || (0 <= k < j && k !in s && min == mDistances[k])
        invariant forall i :: 0 <= i < j && i !in s ==> k != -1 && min <= mDistances[i]
      {
        if !mStates[j] && (k == -1 || min > mDistances[j]) {
          min := mDistances[j];
          k := j;
        }
      }
    }

    /** Lowers the distances of the unmarked vertices to their edge from k. */
    method Approach(k: int, ghost s: set<int>)
      requires IsWeights(mGraph) && |mStates| == |mDistances| == |mGraph|
      requires 0 <= k < |mGraph| && Marked(mStates) == s + {k}
      requires forall j :: 0 <= j < |mGraph| && j !in s + {k} ==> NearestTo(mGraph, s, j, mDistances[j])
      modifies this`mDistances
      ensures Distances(mGraph, s + {k}, mDistances)
    {
      ghost var dist := mDistances;
      for j := 0 to |mGraph|
        invariant |mDistances| == |mGraph|
        invariant forall i :: 0 <= i < j && i !in s + {k} ==> NearestTo(mGraph, s + {k}, i, mDistances[i])
        invariant forall i :: j <= i < |mGraph| ==> mDistances[i] == dist[i]
      {
        ghost var d := mDistances[j];
        if !mStates[j] && mGraph[k][j] < mDistances[j] {
          mDistances := mDistances[j := mGraph[k][j]];
        }
        if j !in s + {k} {
          assert NearestTo(mGraph, s, j, d);
        }
      }
    }

    /** Marks the closest vertex and updates total weight and distances. */
    method MarkClosest(ghost s: set<int>) returns (ghost k: int)
      requires IsWeights(mGraph) && |mStates| == |mGraph| && s == Marked(mStates) && |s| < |mGraph|
      requires Distances(mGraph, s, mDistances)
      modifies this
      ensures 0 <= k < |mGraph| && k !in s && forall j :: 0 <= j < |mGraph| && j !in s ==>
          old(mDistances)[k] <= old(mDistances)[j]
      ensures |mStates| == |mGraph| && Marked(mStates) == s + {k} && Distances(mGraph, s + {k}, mDistances)
      ensures mTotalWeight == old(mTotalWeight) + old(mDistances)[k]
    {
      NotFullSet(s, |mGraph|);
      var closest, min := Closest(s);
      k := closest;
      mStates := mStates[closest := true];
      mDistances := mDistances[closest := min];
      assert mDistances == old(mDistances) && Marked(mStates) == s + {k};
      mTotalWeight := mTotalWeight + min;
      Approach(closest, s);
    }

    /** One more vertex joins the tree. */
    method AddClosest(ghost s: set<int>, ghost a: set<(int, int)>) returns (ghost k: int, ghost u: int)
      requires Invariant(s, a) && |s| < |mGraph|
      modifies this
      ensures k !in s && Invariant(s + {k}, a + {Edge(u, k)})
    {
      ghost var dist, total := mDistances, mTotalWeight;
      k := MarkClosest(s);
      u := Grow(mGraph, s, a, total, dist, k);
    }

    /** The total weight is that of a minimum spanning tree. */
    method Compute() returns (ghost tree: set<(int, int)>)
      requires IsWeights(mGraph) && |mGraph| > 0
      modifies this
      ensures MinimumSpanningTree(mGraph, tree) && mTotalWeight == Weight(mGraph, tree)
    {
      Start();
      ghost var s := {0};
      tree := {};
      for i := 1 to |mGraph|
        invariant Invariant(s, tree) && |s| == i
      {
        ghost var k, u := AddClosest(s, tree);
        s, tree := s + {k}, tree + {Edge(u, k)};
      }
      FullyGrown(mGraph, s, tree, mTotalWeight);
    }
  }
}
