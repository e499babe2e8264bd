/** Walks in a directed graph given by its list of weighted edges. */
module WeightedWalks {
  import opened IndexSets

  datatype WeightedEdge = WeightedEdge(u: int, v: int, weight: int)

  datatype EdgeList = EdgeList(numVertex: nat, edges: seq<WeightedEdge>) {
    ghost predicate Valid() {
      forall e :: e in edges ==> 0 <= e.u < numVertex && 0 <= e.v < numVertex
    }
  }

  /** The edges of p lead from a to b. */
  ghost predicate IsWalk(g: EdgeList, p: seq<WeightedEdge>, a: int, b: int) {
    if |p| == 0 then 0 <= a < g.numVertex && a == b else
      var e := p[|p| - 1];
      e in g.edges && e.v == b && IsWalk(g, p[..|p| - 1], a, e.u)
  }

  ghost function Length(p: seq<WeightedEdge>): int {
    if |p| == 0 then 0 else Length(p[..|p| - 1]) + p[|p| - 1].weight
  }

  ghost predicate NegativeCycle(g: EdgeList) {
    exists p, a :: IsWalk(g, p, a, a) && Length(p) < 0
  }

  lemma {:induction false} Append(g: EdgeList, p: seq<WeightedEdge>, q: seq<WeightedEdge>, a: int, b: int, c: int)
    requires IsWalk(g, p, a, b) && IsWalk(g, q, b, c)
    ensures IsWalk(g, p + q, a, c) && Length(p + q) == Length(p) + Length(q)
    decreases |q|
  {
    if |q| == 0 {
      assert p + q == p;
    } else {
      var k := |q| - 1;
      Append(g, p, q[..k], a, b, q[k].u);
      assert (p + q)[..|p + q| - 1] == p + q[..k];
    }
  }

  /** The vertex that a walk from a has reached after i edges. */
  ghost function At(p: seq<WeightedEdge>, a: int, i: nat): int
    requires i <= |p|
  {
    if i == 0 then a else p[i - 1].v
  }

  lemma {:induction false} Split(g: EdgeList, p: seq<WeightedEdge>, a: int, b: int, i: nat)
    requires g.Valid() && IsWalk(g, p, a, b) && i <= |p|
    ensures IsWalk(g, p[..i], a, At(p, a, i)) && IsWalk(g, p[i..], At(p, a, i), b)
    ensures Length(p) == Length(p[..i]) + Length(p[i..])
    ensures 0 <= At(p, a, i) < g.numVertex && 0 <= a < g.numVertex
    decreases |p|
  {
    if i == |p| {
      assert p[..i] == p && p[i..] == [];
      WalkEnds(g, p, a, b);
    } else {
      var k := |p| - 1;
      Split(g, p[..k], a, p[k].u, i);
      assert p[..k][..i] == p[..i];
      assert p[i..][..|p[i..]| - 1] == p[..k][i..];
    }
  }

  lemma {:induction false} WalkEnds(g: EdgeList, p: seq<WeightedEdge>, a: int, b: int)
    requires g.Valid() && IsWalk(g, p, a, b)
    ensures 0 <= a < g.numVertex && 0 <= b < g.numVertex
    ensures b == At(p, a, |p|)
    decreases |p|
  {
    if |p| > 0 {
      WalkEnds(g, p[..|p| - 1], a, p[|p| - 1].u);
    }
  }

  /** Without a negative cycle a walk with as many edges as there are vertices has a cheaper or equal shorter one. */
  lemma CutCycle(g: EdgeList, p: seq<WeightedEdge>, a: int, b: int) returns (q: seq<WeightedEdge>)
    requires g.Valid() && !NegativeCycle(g) && IsWalk(g, p, a, b) && |p| >= g.numVertex
    ensures IsWalk(g, q, a, b) && Length(q) <= Length(p) && |q| < |p|
  {
    var visited := seq(|p| + 1, i requires 0 <= i <= |p| => At(p, a, i));
    forall i | 0 <= i < |visited|
      ensures 0 <= visited[i] < g.numVertex
    {
      Split(g, p, a, b, i);
    }
    var i, j := Pigeonhole(visited, g.numVertex);
    var x := visited[i];
    Split(g, p, a, b, j);
    Split(g, p[..j], a, x, i);
    assert p[..j][..i] == p[..i] && p[..j][i..] == p[i..j];
    assert IsWalk(g, p[i..j], x, x);
    q := p[..i] + p[j..];
    Append(g, p[..i], p[j..], a, x, b);
  }

  lemma {:induction false} ShortWalk(g: EdgeList, p: seq<WeightedEdge>, a: int, b: int) returns (q: seq<WeightedEdge>)
    requires g.Valid() && !NegativeCycle(g) && IsWalk(g, p, a, b)
    ensures IsWalk(g, q, a, b) && Length(q) <= Length(p) && |q| < g.numVertex
    decreases |p|
  {
    if |p| < g.numVertex {
      q := p;
    } else {
      q := CutCycle(g, p, a, b);
      q := ShortWalk(g, q, a, b);
    }
  }

  // ----- Distances -----

  /** The distance of v is the start value of some vertex plus the length of a walk from it to v. */
  ghost predicate Attained(g: EdgeList, init: seq<int>, v: int, d: int) {
    exists p, a :: 0 <= a < |init| && IsWalk(g, p, a, v) && d == init[a] + Length(p)
  }

  ghost predicate AllAttained(g: EdgeList, init: seq<int>, d: seq<int>) {
    && |init| == |d| == g.numVertex
    && forall v :: 0 <= v < |d| ==> Attained(g, init, v, d[v])
  }

  /** No walk of at most k edges gives a smaller distance. */
  ghost predicate ShortWalksBound(g: EdgeList, init: seq<int>, d: seq<int>, k: nat) {
    && |init| == |d| == g.numVertex
    && forall p, a, v :: IsWalk(g, p, a, v) && |p| <= k && 0 <= a < |init| && 0 <= v < |d| ==>
        d[v] <= init[a] + Length(p)
  }

  ghost predicate Relaxed(d: seq<int>, e: WeightedEdge)
    requires 0 <= e.u < |d| && 0 <= e.v < |d|
  {
    d[e.v] <= d[e.u] + e.weight
  }

  ghost predicate Stable(g: EdgeList, d: seq<int>) {
    && g.Valid() && |d| == g.numVertex
    && forall i :: 0 <= i < |g.edges| ==> Relaxed(d, g.edges[i])
  }

  /** Every distance is the least start value plus walk length over all walks. */
  ghost predicate Minimal(g: EdgeList, init: seq<int>, d: seq<int>) {
    && AllAttained(g, init, d)
    && forall p, a, v :: IsWalk(g, p, a, v) && 0 <= a < |init| && 0 <= v < |d| ==> d[v] <= init[a] + Length(p)
  }

  ghost predicate NoMoreThan(d: seq<int>, init: seq<int>) {
    |d| == |init| && forall v :: 0 <= v < |d| ==> d[v] <= init[v]
  }

  lemma {:induction false} StableAlong(g: EdgeList, d: seq<int>, p: seq<WeightedEdge>, a: int, v: int)
    requires Stable(g, d) && IsWalk(g, p, a, v)
    ensures 0 <= a < |d| && 0 <= v < |d| && d[v] <= d[a] + Length(p)
    decreases |p|
  {
    if |p| > 0 {
      var e := p[|p| - 1];
      StableAlong(g, d, p[..|p| - 1], a, e.u);
      var i :| 0 <= i < |g.edges| && g.edges[i] == e;
      assert Relaxed(d, g.edges[i]);
    }
  }

  /** When no edge can be relaxed there is no negative cycle, and the distances are minimal. */
  lemma StableIsMinimal(g: EdgeList, init: seq<int>, d: seq<int>)
    requires Stable(g, d) && AllAttained(g, init, d) && NoMoreThan(d, init)
    ensures !NegativeCycle(g) && Minimal(g, init, d)
  {
    if NegativeCycle(g) {
      var p, a :| IsWalk(g, p, a, a) && Length(p) < 0;
      StableAlong(g, d, p, a, a);
    }
    forall p, a, v | IsWalk(g, p, a, v) && 0 <= a < |init| && 0 <= v < |d|
      ensures d[v] <= init[a] + Length(p)
    {
      StableAlong(g, d, p, a, v);
    }
  }

  /** Without a negative cycle, distances below all walks of fewer edges than vertices cannot be relaxed. */
  lemma ShortWalksSuffice(g: EdgeList, init: seq<int>, d: seq<int>)
    requires g.Valid() && g.numVertex > 0 && !NegativeCycle(g)
    requires AllAttained(g, init, d) && ShortWalksBound(g, init, d, g.numVertex - 1)
    ensures Stable(g, d)
  {
    forall i | 0 <= i < |g.edges|
      ensures Relaxed(d, g.edges[i])
    {
      var e := g.edges[i];
      assert e in g.edges && Attained(g, init, e.u, d[e.u]);
      var p, a :| 0 <= a < |init| && IsWalk(g, p, a, e.u) && d[e.u] == init[a] + Length(p);
      assert (p + [e])[..|p|] == p;
      var q := ShortWalk(g, p + [e], a, e.v);
    }
  }

  /** After enough passes the distances are stable exactly when there is no negative cycle. */
  lemma StableUnlessCycle(g: EdgeList, init: seq<int>, d: seq<int>)
    requires g.Valid() && g.numVertex > 0
    requires AllAttained(g, init, d) && ShortWalksBound(g, init, d, g.numVertex - 1) && NoMoreThan(d, init)
    ensures Stable(g, d) <==> !NegativeCycle(g)
    ensures Stable(g, d) ==> Minimal(g, init, d)
  {
    if Stable(g, d) {
      StableIsMinimal(g, init, d);
    } else if !NegativeCycle(g) {
      ShortWalksSuffice(g, init, d);
    }
  }

  // ----- One pass over the edges -----

  ghost predicate CanRelax(d: seq<int>, e: WeightedEdge)
    requires 0 <= e.u < |d| && 0 <= e.v < |d|
  {
    d[e.u] < d[e.v] - e.weight
  }

  /** During a pass that began with d0, the first j edges have been seen. */
  ghost predicate Seen(g: EdgeList, d0: seq<int>, d: seq<int>, j: nat) {
    && g.Valid() && |d0| == |d| == g.numVertex && j <= |g.edges| && NoMoreThan(d, d0)
    && forall i :: 0 <= i < j ==> SeenEdge(d0, d, g.edges[i])
  }

  ghost predicate SeenEdge(d0: seq<int>, d: seq<int>, e: WeightedEdge) {
    0 <= e.u < |d0| && 0 <= e.v < |d| && d[e.v] <= d0[e.u] + e.weight
  }

  ghost predicate Passing(g: EdgeList, init: seq<int>, d0: seq<int>, d: seq<int>, j: nat) {
    Seen(g, d0, d, j) && AllAttained(g, init, d)
  }

  lemma AttainThrough(g: EdgeList, init: seq<int>, e: WeightedEdge, d: int)
    requires e in g.edges && Attained(g, init, e.u, d)
    ensures Attained(g, init, e.v, d + e.weight)
  {
    var p, a :| 0 <= a < |init| && IsWalk(g, p, a, e.u) && d == init[a] + Length(p);
    var q := p + [e];
    assert q[..|q| - 1] == p;
    assert IsWalk(g, q, a, e.v) && d + e.weight == init[a] + Length(q);
  }

  ghost function AfterRelax(d: seq<int>, e: WeightedEdge): seq<int>
    requires 0 <= e.u < |d| && 0 <= e.v < |d|
  {
    if CanRelax(d, e) then d[e.v := d[e.u] + e.weight] else d
  }

  lemma RelaxAttained(g: EdgeList, init: seq<int>, d: seq<int>, e: WeightedEdge)
    requires g.Valid() && AllAttained(g, init, d) && e in g.edges
    ensures AllAttained(g, init, AfterRelax(d, e))
  {
    var d' := AfterRelax(d, e);
    assert Attained(g, init, e.u, d[e.u]);
    AttainThrough(g, init, e, d[e.u]);
    forall v | 0 <= v < |d'|
      ensures Attained(g, init, v, d'[v])
    {
      assert d'[v] != d[v] ==> v == e.v;
      assert Attained(g, init, v, d[v]);
    }
  }

  lemma RelaxSeen(g: EdgeList, d0: seq<int>, d: seq<int>, j: nat)
    requires Seen(g, d0, d, j) && j < |g.edges|
    ensures g.edges[j] in g.edges && Seen(g, d0, AfterRelax(d, g.edges[j]), j + 1)
  {
    var e := g.edges[j];
    var d' := AfterRelax(d, e);
    assert NoMoreThan(d', d);
    forall i | 0 <= i < j + 1
      ensures SeenEdge(d0, d', g.edges[i])
    {
      assert i < j ==> SeenEdge(d0, d, g.edges[i]);
    }
  }

  lemma RelaxEdge(g: EdgeList, init: seq<int>, d0: seq<int>, d: seq<int>, j: nat)
    requires Passing(g, init, d0, d, j) && j < |g.edges|
    ensures g.edges[j] in g.edges && Passing(g, init, d0, AfterRelax(d, g.edges[j]), j + 1)
  {
    RelaxSeen(g, d0, d, j);
    RelaxAttained(g, init, d, g.edges[j]);
  }

  /** A whole pass accounts for walks of one more edge, although it works in place. */
  lemma PassDone(g: EdgeList, init: seq<int>, d0: seq<int>, d: seq<int>, k: nat)
    requires ShortWalksBound(g, init, d0, k) && Passing(g, init, d0, d, |g.edges|)
    ensures ShortWalksBound(g, init, d, k + 1)
  {
    forall p, a, v | IsWalk(g, p, a, v) && |p| <= k + 1 && 0 <= a < |init| && 0 <= v < |d|
      ensures d[v] <= init[a] + Length(p)
    {
      if |p| == k + 1 {
        var e := p[k];
        var i :| 0 <= i < |g.edges| && g.edges[i] == e;
        assert SeenEdge(d0, d, g.edges[i]);
        WalkEnds(g, p[..k], a, e.u);
      }
    }
  }

  lemma StartBound(g: EdgeList, init: seq<int>)
    requires g.Valid() && |init| == g.numVertex
    ensures AllAttained(g, init, init) && ShortWalksBound(g, init, init, 0)
  {
    forall v | 0 <= v < |init|
      ensures Attained(g, init, v, init[v])
    {
      assert IsWalk(g, [], v, v) && init[v] == init[v] + Length([]);
    }
  }

  /** A walk bound that holds for all lengths because nothing can be relaxed. */
  lemma StableBound(g: EdgeList, init: seq<int>, d: seq<int>, k: nat)
    requires Stable(g, d) && AllAttained(g, init, d) && NoMoreThan(d, init)
    ensures ShortWalksBound(g, init, d, k)
  {
    StableIsMinimal(g, init, d);
  }
}

module BellmanFordAlgorithm {
  import opened WeightedWalks

  /** A walk from a to v reaches the distance d when it begins with the given value. */
  ghost predicate HasWalk(g: EdgeList, a: int, v: int, start: int, d: int) {
    exists p :: IsWalk(g, p, a, v) && d == start + Length(p)
  }

  /**
   Every distance is attained by a walk, from the source or from another vertex, and no walk does better:
   a walk from the source begins with one value, a walk from anywhere else with another.
   */
  ghost predicate Shortest(g: EdgeList, source: int, atSource: int, elsewhere: int, d: seq<int>) {
    && |d| == g.numVertex
    && (forall p, v :: IsWalk(g, p, source, v) && 0 <= v < |d| ==> d[v] <= atSource + Length(p))
    && (forall p, a, v :: IsWalk(g, p, a, v) && a != source && 0 <= a < |d| && 0 <= v < |d| ==>
          d[v] <= elsewhere + Length(p))
    && forall v :: 0 <= v < |d| ==>
         HasWalk(g, source, v, atSource, d[v]) ||
         exists a :: a != source && 0 <= a < |d| && HasWalk(g, a, v, elsewhere, d[v])
  }

  lemma MinimalMeans(g: EdgeList, source: nat, atSource: int, elsewhere: int, init: seq<int>, d: seq<int>)
    requires Minimal(g, init, d) && source < g.numVertex
    requires forall v :: 0 <= v < |init| ==> init[v] == if v == source then atSource else elsewhere
    ensures Shortest(g, source, atSource, elsewhere, d)
  {
    hide IsWalk, Length;
    forall v | 0 <= v < |d|
      ensures HasWalk(g, source, v, atSource, d[v]) ||
              exists a :: a != source && 0 <= a < |d| && HasWalk(g, a, v, elsewhere, d[v])
    {
      assert Attained(g, init, v, d[v]);
      var p, a :| 0 <= a < |init| && IsWalk(g, p, a, v) && d[v] == init[a] + Length(p);
      assert HasWalk(g, a, v, init[a], d[v]);
    }
  }

  class BellmanFord {
    const mGraph: EdgeList
    const mSource: nat
    const initDistance: int
    const sourceDistance: int
    var mDistances: seq<int>
    var mExistNegativeCycle: bool

    constructor (graph: EdgeList, source: nat, initDistance: int, sourceDistance: int)
      ensures mGraph == graph && mSource == source && this.initDistance == initDistance
          && this.sourceDistance == sourceDistance
    {
      mGraph, mSource, this.initDistance, this.sourceDistance := graph, source, initDistance, sourceDistance;
      mDistances, mExistNegativeCycle := [], false;
    }

    ghost function Init(): (r: seq<int>)
      requires mSource < mGraph.numVertex
    {
      seq(mGraph.numVertex, _ => initDistance)[mSource := sourceDistance]
    }

    method Relax(edge: WeightedEdge) returns (relaxed: bool)
      requires 0 <= edge.u < |mDistances| && 0 <= edge.v < |mDistances|
      modifies this`mDistances
      ensures relaxed == CanRelax(old(mDistances), edge)
      ensures mDistances == AfterRelax(old(mDistances), edge)
    {
      if mDistances[edge.u] < mDistances[edge.v] - edge.weight {
        mDistances := mDistances[edge.v := mDistances[edge.u] + edge.weight];
        return true;
      }
      return false;
    }

    ghost predicate Progress(k: nat)
      requires mSource < mGraph.numVertex
      reads this
    {
      && mGraph.Valid() && AllAttained(mGraph, Init(), mDistances)
      && ShortWalksBound(mGraph, Init(), mDistances, k) && NoMoreThan(mDistances, Init())
    }

    /** One pass over all edges, relaxing in place. */
    method RelaxAll(ghost k: nat) returns (relaxed: bool)
      requires mSource < mGraph.numVertex && Progress(k)
      modifies this`mDistances
      ensures Progress(k + 1)
      ensures relaxed <==> !Stable(mGraph, old(mDistances))
      ensures !relaxed ==> mDistances == old(mDistances)
    {
      ghost var init, d0 := Init(), mDistances;
      relaxed := false;
      for j := 0 to |mGraph.edges|
        invariant Passing(mGraph, init, d0, mDistances, j)
        invariant relaxed ==> !Stable(mGraph, d0)
        invariant !relaxed ==> mDistances == d0 && forall i :: 0 <= i < j ==> Relaxed(d0, mGraph.edges[i])
      {
        RelaxEdge(mGraph, init, d0, mDistances, j);
        var r := Relax(mGraph.edges[j]);
        if r {
          relaxed := true;
        }
      }
      PassDone(mGraph, init, d0, mDistances, k);
    }

    /** At most numVertex - 1 passes; the loop ends early when a pass relaxes nothing. */
    method RelaxRounds()
      requires mSource < mGraph.numVertex && Progress(0)
      modifies this`mDistances
      ensures Progress(mGraph.numVertex - 1)
    {
      var i := 1;
      while i < mGraph.numVertex
        invariant 1 <= i <= mGraph.numVertex && Progress(i - 1)
      {
        var relaxed := RelaxAll(i - 1);
        if !relaxed {
          StableBound(mGraph, Init(), mDistances, mGraph.numVertex - 1);
          return;
        }
        i := i + 1;
      }
    }

    /** One more pass, which stops at the first edge that can still be relaxed. */
    method Detect()
      requires mSource < mGraph.numVertex && mGraph.Valid() && |mDistances| == mGraph.numVertex
      modifies this
      ensures mExistNegativeCycle <==> !Stable(mGraph, old(mDistances))
      ensures old(Progress(mGraph.numVertex - 1)) ==> (mExistNegativeCycle <==> NegativeCycle(mGraph))
      ensures !mExistNegativeCycle ==> mDistances == old(mDistances)
    {
      hide NegativeCycle, Minimal, AllAttained, ShortWalksBound, NoMoreThan;
      ghost var d := mDistances;
      if Progress(mGraph.numVertex - 1) {
        StableUnlessCycle(mGraph, Init(), d);
      }
      mExistNegativeCycle := false;
      for j := 0 to |mGraph.edges|
        invariant mDistances == d && !mExistNegativeCycle
        invariant forall k :: 0 <= k < j ==> Relaxed(d, mGraph.edges[k])
      {
        var r := Relax(mGraph.edges[j]);
        if r {
          assert !Relaxed(d, mGraph.edges[j]);
          mExistNegativeCycle := true;
          return;
        }
      }
    }

    /**
     The flag is set exactly when the graph has a negative cycle; otherwise every distance is the least
     start value plus walk length over all walks.
     */
    method Compute()
      requires mGraph.Valid() && mSource < mGraph.numVertex
      modifies this
      ensures mExistNegativeCycle <==> NegativeCycle(mGraph)
      ensures !mExistNegativeCycle ==> Minimal(mGraph, Init(), mDistances)
      ensures !mExistNegativeCycle ==> Shortest(mGraph, mSource, sourceDistance, initDistance, mDistances)
    {
      hide NegativeCycle, Stable;
      mDistances := seq(mGraph.numVertex, _ => initDistance);
      mDistances := mDistances[mSource := sourceDistance];
      StartBound(mGraph, Init());
      RelaxRounds();
      ghost var d := mDistances;
      StableUnlessCycle(mGraph, Init(), d);
      Detect();
      if !mExistNegativeCycle {
        MinimalMeans(mGraph, mSource, sourceDistance, initDistance, Init(), mDistances);
      }
    }
  }
}
