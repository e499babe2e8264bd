/**
 The unweighted bipartite matcher: every left vertex is tried once. A failed search leaves a
 blocked pair of vertex sets behind; no later search gets out of it, so it need not be tried again.
 */
module BipartiteModel {
  import opened IndexSets
  import opened Matchings

  datatype Bipartite = Bipartite(numLeft: nat, numRight: nat, edges: seq<seq<bool>>) {
    ghost predicate Valid() {
      |edges| == numLeft && forall x :: 0 <= x < numLeft ==> |edges[x]| == numRight
    }
    predicate ExistEdge(x: int, y: int)
      requires Valid() && 0 <= x < numLeft && 0 <= y < numRight
    {
      edges[x][y]
    }
  }

  ghost predicate Edge(g: Bipartite, x: int, y: int)
    requires g.Valid()
  {
    0 <= x < g.numLeft && 0 <= y < g.numRight && g.edges[x][y]
  }

  /** A matching of g. */
  ghost predicate MatchingOf(g: Bipartite, link: seq<int>) {
    && g.Valid() && |link| == g.numRight && IsMatching(link, g.numLeft)
    && forall y :: 0 <= y < |link| && link[y] != FREE ==> Edge(g, link[y], y)
  }

  /** Edges from dl end in dr, and every vertex of dr is matched into dl: there is no way out. */
  ghost predicate Blocked(g: Bipartite, link: seq<int>, dl: set<int>, dr: set<int>)
    requires g.Valid() && |link| == g.numRight
  {
    && dr <= Below(g.numRight) && dl <= Below(g.numLeft)
    && (forall x, y :: x in dl && Edge(g, x, y) ==> y in dr)
    && (forall y :: y in dr && 0 <= y < |link| ==> link[y] != FREE && link[y] in dl)
  }

  // ----- The search -----

  ghost predicate Searchable(g: Bipartite, link: seq<int>, used: seq<bool>, x: int, path: seq<int>, dl: set<int>,
      dr: set<int>)
  {
    && g.Valid() && |link| == |path| == |used| == g.numRight
    && IsMatching(path, g.numLeft) && IsMatching(link, g.numLeft)
    && 0 <= x < g.numLeft && x !in Lefts(path)
    && (forall y :: 0 <= y < |link| && !used[y] ==> path[y] == link[y])
    && Blocked(g, link, dl, dr)
  }

  /** Every edge of x to a right vertex below k leads to a used vertex. */
  ghost predicate Scanned(g: Bipartite, used: seq<bool>, x: int, k: int)
    requires g.Valid() && |used| == g.numRight && k <= g.numRight
  {
    forall y :: 0 <= y < k && Edge(g, x, y) ==> used[y]
  }

  ghost predicate Grown(a: seq<bool>, b: seq<bool>) {
    |a| == |b| && forall y :: 0 <= y < |a| && a[y] ==> b[y]
  }

  /**
   A search from x began with the marks a and reached b without meeting a free right vertex; the
   partners of the newly used vertices are done, and x is done below k.
   */
  ghost predicate Exploring(g: Bipartite, link: seq<int>, x: int, a: seq<bool>, b: seq<bool>, k: int) {
    && g.Valid() && |link| == |b| == g.numRight && Grown(a, b) && 0 <= k <= g.numRight
    && Scanned(g, b, x, k)
    && forall y :: 0 <= y < |b| && b[y] && !a[y] ==> link[y] != FREE && Scanned(g, b, link[y], g.numRight)
  }

  /** A successful search: an augmented matching along edges of g, with (dl, dr) left alone. */
  ghost predicate Found(g: Bipartite, path: seq<int>, used: seq<bool>, link0: seq<int>, link: seq<int>, x: int,
      dl: set<int>, dr: set<int>)
  {
    && g.Valid() && |link| == g.numRight
    && Augmented(g.numLeft, path, used, link0, link, x)
    && (forall y :: 0 <= y < |link| && link[y] != link0[y] ==> Edge(g, link[y], y))
    && x !in dl
    && (forall y :: y in dr && 0 <= y < |link| ==> link[y] == link0[y])
  }

  lemma EnterBranch(g: Bipartite, link: seq<int>, x: int, a: seq<bool>, b: seq<bool>, k: int, path: seq<int>,
      dl: set<int>, dr: set<int>)
    requires Searchable(g, link, a, x, path, dl, dr)
    requires Grown(a, b) && 0 <= k < g.numRight && !b[k] && link[k] != FREE
    ensures Searchable(g, link, b[k := true], link[k], path[k := x], dl, dr)
    ensures Unmarked(b[k := true]) < Unmarked(a)
  {
    Rematch(path, g.numLeft, k, x);
    assert path[k] in Lefts(path);
    assert k in Unmarked(a) && k !in Unmarked(b[k := true]);
  }

  lemma ReturnFromBranch(g: Bipartite, link: seq<int>, x: int, a: seq<bool>, b: seq<bool>, k: int, c: seq<bool>)
    requires Exploring(g, link, x, a, b, k) && k < g.numRight && !b[k] && link[k] != FREE
    requires Exploring(g, link, link[k], b[k := true], c, g.numRight)
    ensures Exploring(g, link, x, a, c, k + 1)
  {
    forall y | 0 <= y < |c| && c[y] && !a[y]
      ensures link[y] != FREE && Scanned(g, c, link[y], g.numRight)
    {
      if y != k && b[y] {
        assert Scanned(g, b, link[y], g.numRight);
      }
    }
  }

  lemma FoundAtFree(g: Bipartite, link: seq<int>, x: int, a: seq<bool>, k: int, path: seq<int>, dl: set<int>,
      dr: set<int>)
    requires Searchable(g, link, a, x, path, dl, dr)
    requires Edge(g, x, k) && !a[k] && link[k] == FREE
    ensures Found(g, path, a, link, link[k := x], x, dl, dr)
  {
    AugmentAtFree(g.numLeft, path, a, link, k, x);
  }

  lemma FoundThroughPartner(g: Bipartite, link: seq<int>, x: int, a: seq<bool>, b: seq<bool>, k: int, path: seq<int>,
      link1: seq<int>, dl: set<int>, dr: set<int>)
    requires Searchable(g, link, a, x, path, dl, dr) && Grown(a, b)
    requires Edge(g, x, k) && !b[k] && link[k] != FREE
    requires Found(g, path[k := x], b[k := true], link, link1, link[k], dl, dr)
    ensures Found(g, path, a, link, link1[k := x], x, dl, dr)
  {
    AugmentThroughPartner(g.numLeft, path, a, link, k, x, b[k := true], link1);
  }

  // ----- One try per left vertex -----

  /** The left vertices below i are matched or blocked. */
  ghost predicate Tried(g: Bipartite, link: seq<int>, i: nat, dl: set<int>, dr: set<int>) {
    && MatchingOf(g, link) && Blocked(g, link, dl, dr)
    && Lefts(link) <= Below(i) <= Lefts(link) + dl
  }

  lemma TrySearchable(g: Bipartite, link: seq<int>, i: nat, used: seq<bool>, dl: set<int>, dr: set<int>)
    requires Tried(g, link, i, dl, dr) && i < g.numLeft && |used| == g.numRight
    ensures Searchable(g, link, used, i, link, dl, dr)
  {
    assert i !in Below(i);
  }

  lemma TryFound(g: Bipartite, link0: seq<int>, i: nat, used: seq<bool>, link: seq<int>, dl: set<int>, dr: set<int>)
    requires Tried(g, link0, i, dl, dr) && i < g.numLeft
    requires |used| == g.numRight && forall y :: 0 <= y < |used| ==> !used[y]
    requires Found(g, link0, used, link0, link, i, dl, dr)
    ensures Tried(g, link, i + 1, dl, dr) && |Lefts(link)| == |Lefts(link0)| + 1
  {
    assert Merge(link0, used, link) == link;
    assert Below(i) + {i} == Below(i + 1);
    assert i !in Below(i);
  }

  ghost function Partners(link: seq<int>, used: seq<bool>): set<int>
    requires |link| == |used|
  {
    set y | 0 <= y < |link| && used[y] :: link[y]
  }

  /** A failed try adds its search tree to the blocked sets. */
  lemma TryFailed(g: Bipartite, link: seq<int>, i: nat, a: seq<bool>, b: seq<bool>, dl: set<int>, dr: set<int>)
    requires Tried(g, link, i, dl, dr) && i < g.numLeft
    requires |a| == g.numRight && forall y :: 0 <= y < |a| ==> !a[y]
    requires Exploring(g, link, i, a, b, g.numRight)
    ensures Tried(g, link, i + 1, dl + Partners(link, b) + {i}, dr + Marked(b))
  {
    hide Blocked, Exploring, Marked, Partners, IsMatching, Edge;
    FailedInRange(g, link, i, a, b);
    FailedBlocks(g, link, i, a, b, dl, dr);
    assert Below(i) + {i} == Below(i + 1);
  }

  lemma FailedBlocks(g: Bipartite, link: seq<int>, i: nat, a: seq<bool>, b: seq<bool>, dl: set<int>, dr: set<int>)
    requires MatchingOf(g, link) && Blocked(g, link, dl, dr) && i < g.numLeft
    requires |a| == g.numRight && forall z :: 0 <= z < |a| ==> !a[z]
    requires Exploring(g, link, i, a, b, g.numRight)
    ensures Blocked(g, link, dl + Partners(link, b) + {i}, dr + Marked(b))
  {
    hide Exploring, Marked, Partners, IsMatching, Edge;
    FailedInRange(g, link, i, a, b);
    var dl', dr' := dl + Partners(link, b) + {i}, dr + Marked(b);
    forall x, y | x in dl' && Edge(g, x, y)
      ensures y in dr'
    {
      if x !in dl {
        FailedReaches(g, link, i, a, b, x, y);
      }
    }
    forall y | y in dr' && 0 <= y < |link|
      ensures link[y] != FREE && link[y] in dl'
    {
      FailedMarks(g, link, i, a, b, y);
    }
  }

  lemma FailedMarks(g: Bipartite, link: seq<int>, i: nat, a: seq<bool>, b: seq<bool>, y: int)
    requires |a| == g.numRight && forall z :: 0 <= z < |a| ==> !a[z]
    requires Exploring(g, link, i, a, b, g.numRight) && 0 <= y < |link|
    ensures y in Marked(b) ==> link[y] != FREE && link[y] in Partners(link, b)
  {
  }

  lemma FailedInRange(g: Bipartite, link: seq<int>, i: nat, a: seq<bool>, b: seq<bool>)
    requires |a| == g.numRight && forall z :: 0 <= z < |a| ==> !a[z]
    requires MatchingOf(g, link) && Exploring(g, link, i, a, b, g.numRight)
    ensures |b| == |link| && Marked(b) <= Below(g.numRight) && Partners(link, b) <= Below(g.numLeft)
  {
  }

  /** From the root of a failed search and the partners it reached every edge leads to a marked vertex. */
  lemma FailedReaches(g: Bipartite, link: seq<int>, i: nat, a: seq<bool>, b: seq<bool>, x: int, y: int)
    requires |a| == g.numRight && forall z :: 0 <= z < |a| ==> !a[z]
    requires Exploring(g, link, i, a, b, g.numRight)
    requires (x in Partners(link, b) || x == i) && Edge(g, x, y)
    ensures y in Marked(b)
  {
    if x != i {
      var z :| 0 <= z < |link| && b[z] && link[z] == x;
    }
    assert Scanned(g, b, x, g.numRight);
  }

  // ----- Optimality -----

  ghost predicate IsCover(g: Bipartite, coverLeft: set<int>, coverRight: set<int>)
    requires g.Valid()
  {
    forall x, y :: Edge(g, x, y) ==> x in coverLeft || y in coverRight
  }

  /** The pairs of `link` whose right vertex lies outside `out`. */
  ghost function Outside(link: seq<int>, out: set<int>): seq<int> {
    seq(|link|, y requires 0 <= y < |link| => if y in out then FREE else link[y])
  }

  lemma OutsideSize(link: seq<int>, numLeft: nat, out: set<int>)
    requires IsMatching(link, numLeft)
    ensures |Lefts(Outside(link, out))| == |Rights(link) - out|
  {
    SidesAgree(Outside(link, out), numLeft);
    assert Rights(Outside(link, out)) == Rights(link) - out;
  }

  /** No matching is larger than a vertex cover. */
  lemma CoverBound(g: Bipartite, link: seq<int>, coverLeft: set<int>, coverRight: set<int>)
    requires MatchingOf(g, link) && IsCover(g, coverLeft, coverRight)
    ensures |Lefts(link)| <= |coverLeft| + |coverRight|
  {
    SidesAgree(link, g.numLeft);
    OutsideSize(link, g.numLeft, coverRight);
    var out := Outside(link, coverRight);
    forall x | x in Lefts(out)
      ensures x in coverLeft
    {
      var y := PartnerOf(out, x);
      assert Edge(g, x, y);
    }
    SubsetSize(Lefts(out), coverLeft);
    SubsetSize(Rights(link) * coverRight, coverRight);
    assert Rights(link) == (Rights(link) - coverRight) + (Rights(link) * coverRight);
  }

  /**
   When every left vertex is matched or blocked, the unblocked left and the blocked right vertices cover g, one
   for each pair.
   */
  lemma BlockedCovers(g: Bipartite, link: seq<int>, dl: set<int>, dr: set<int>)
    requires Tried(g, link, g.numLeft, dl, dr)
    ensures MatchingOf(g, link) && IsCover(g, Below(g.numLeft) - dl, dr)
    ensures |Below(g.numLeft) - dl| + |dr| == |Lefts(link)|
  {
    SidesAgree(link, g.numLeft);
    OutsideSize(link, g.numLeft, dr);
    var out := Outside(link, dr);
    forall x | x in Below(g.numLeft) - dl
      ensures x in Lefts(out)
    {
      var y := PartnerOf(link, x);
      assert out[y] == x;
    }
    SubsetSize(Below(g.numLeft) - dl, Lefts(out));
    assert dr <= Rights(link);
    assert Rights(link) == (Rights(link) - dr) + dr;
    CoverBound(g, link, Below(g.numLeft) - dl, dr);
  }
}

module BipartiteMatching {
  import opened IndexSets
  import opened Matchings
  import opened BipartiteModel

  class BipartiteMaxMatch {
    var mBipartite: Bipartite
    var mLink: seq<int>
    var mUsed: seq<bool>

    /**
     One alternating search. `path` is the matching with the search path so far already flipped;
     (dl, dr) is any blocked pair: a search that starts there fails, and none disturbs it.
     */
    method Find(x: int, ghost path: seq<int>, ghost dl: set<int>, ghost dr: set<int>) returns (found: bool)
      requires Searchable(mBipartite, mLink, mUsed, x, path, dl, dr)
      modifies this`mLink, this`mUsed
      ensures |mUsed| == |mLink| == mBipartite.numRight
      ensures !found ==> mLink == old(mLink) && Exploring(mBipartite, mLink, x, old(mUsed), mUsed, mBipartite.numRight)
      ensures found ==> Found(mBipartite, path, old(mUsed), old(mLink), mLink, x, dl, dr)
      decreases Unmarked(mUsed)
    {
      ghost var g, link, start := mBipartite, mLink, mUsed;
      var i := 0;
      while i < mBipartite.numRight
        invariant 0 <= i <= mBipartite.numRight
        invariant mLink == link
        invariant Exploring(g, link, x, start, mUsed, i)
      {
        if !mUsed[i] && mBipartite.ExistEdge(x, i) {
          ghost var before := mUsed;
          mUsed := mUsed[i := true];
          if mLink[i] == FREE {
            FoundAtFree(g, link, x, start, i, path, dl, dr);
            mLink := mLink[i := x];
            return true;
          }
          EnterBranch(g, link, x, start, before, i, path, dl, dr);
          found := Find(mLink[i], path[i := x], dl, dr);
          if found {
            FoundThroughPartner(g, link, x, start, before, i, path, mLink, dl, dr);
            mLink := mLink[i := x];
            return;
          }
          ReturnFromBranch(g, link, x, start, before, i, mUsed);
        }
        i := i + 1;
      }
      found := false;
    }

    /** One search from the top: it matches i, or leaves a blocked pair that holds i. */
    method Try(i: nat, ghost dl: set<int>, ghost dr: set<int>)
        returns (found: bool, ghost dl': set<int>, ghost dr': set<int>)
      requires Tried(mBipartite, mLink, i, dl, dr) && i < mBipartite.numLeft
      requires |mUsed| == mBipartite.numRight && forall y :: 0 <= y < |mUsed| ==> !mUsed[y]
      modifies this`mLink, this`mUsed
      ensures |mUsed| == mBipartite.numRight && Tried(mBipartite, mLink, i + 1, dl', dr')
      ensures |Lefts(mLink)| == old(|Lefts(mLink)|) + if found then 1 else 0
    {
      hide *;
      ghost var g, link, start := mBipartite, mLink, mUsed;
      TrySearchable(g, link, i, start, dl, dr);
      found := Find(i, mLink, dl, dr);
      if found {
        TryFound(g, link, i, start, mLink, dl, dr);
        dl', dr' := dl, dr;
      } else {
        TryFailed(g, link, i, start, mUsed, dl, dr);
        dl', dr' := dl + Partners(link, mUsed) + {i}, dr + Marked(mUsed);
      }
    }

    /** The result is the size of a largest matching, certified by a vertex cover of the same size. */
    method ComputeMaxMatch(bipartite: Bipartite)
        returns (result: int, ghost coverLeft: set<int>, ghost coverRight: set<int>)
      requires bipartite.Valid()
      modifies this
      ensures MatchingOf(bipartite, mLink) && result == |Lefts(mLink)|
      ensures IsCover(bipartite, coverLeft, coverRight) && |coverLeft| + |coverRight| == result
      ensures forall other :: MatchingOf(bipartite, other) ==> |Lefts(other)| <= result
    {
      mBipartite := bipartite;
      mLink := seq(bipartite.numRight, _ => FREE);
      mUsed := seq(bipartite.numRight, _ => false);
      result := 0;
      ghost var dl, dr := {}, {};
      assert Tried(bipartite, mLink, 0, dl, dr);
      hide *;
      for i := 0 to bipartite.numLeft
        invariant mBipartite == bipartite && |mUsed| == bipartite.numRight
        invariant Tried(bipartite, mLink, i, dl, dr) && result == |Lefts(mLink)|
      {
        mUsed := seq(|mUsed|, _ => false);
        var found;
        found, dl, dr := Try(i, dl, dr);
        if found {
          result := result + 1;
        }
      }
      BlockedCovers(bipartite, mLink, dl, dr);
      coverLeft, coverRight := Below(bipartite.numLeft) - dl, dr;
      forall other | MatchingOf(bipartite, other)
        ensures |Lefts(other)| <= result
      {
        CoverBound(bipartite, other, coverLeft, coverRight);
      }
    }
  }
}
