/**
 Matchings of a bipartite graph, kept the way both matchers keep them: `link[y]` is the left
 partner of the right vertex `y`, or `FREE`.
 */
module Matchings {
  import opened IndexSets

  const FREE := -1

  ghost predicate IsMatching(link: seq<int>, numLeft: nat) {
    && (forall y :: 0 <= y < |link| ==> FREE <= link[y] < numLeft)
    && (forall y, z :: 0 <= y < z < |link| && link[y] == link[z] ==> link[y] == FREE)
  }

  /** The left vertices that have a partner. */
  ghost function Lefts(link: seq<int>): set<int> {
    set y | 0 <= y < |link| && link[y] != FREE :: link[y]
  }

  /** The right vertices that have a partner. */
  ghost function Rights(link: seq<int>): set<int> {
    set y | 0 <= y < |link| && link[y] != FREE
  }

  lemma PartnerOf(link: seq<int>, l: int) returns (y: int)
    requires l in Lefts(link)
    ensures 0 <= y < |link| && link[y] == l != FREE
  {
    y :| 0 <= y < |link| && link[y] != FREE && link[y] == l;
  }

  /** Giving `y` to an unmatched `x` keeps a matching and frees only the former partner of `y`. */
  lemma Rematch(link: seq<int>, numLeft: nat, y: int, x: int)
    requires IsMatching(link, numLeft)
    requires 0 <= y < |link| && 0 <= x < numLeft && x !in Lefts(link)
    ensures IsMatching(link[y := x], numLeft)
    ensures Lefts(link[y := x]) == Lefts(link) - {link[y]} + {x}
  {
    var after := link[y := x];
    forall z | 0 <= z < |link| && z != y && link[z] != FREE
      ensures link[z] in Lefts(link) && link[z] in Lefts(after)
    {
      assert after[z] == link[z];
    }
    assert after[y] == x;
    assert Lefts(after) <= Lefts(link) - {link[y]} + {x};
    forall l | l in Lefts(link) - {link[y]}
      ensures l in Lefts(after)
    {
      var z :| 0 <= z < |link| && link[z] != FREE && link[z] == l;
    }
  }

  /** Freeing `y` frees exactly its partner. */
  lemma Unmatch(link: seq<int>, numLeft: nat, y: int)
    requires IsMatching(link, numLeft) && 0 <= y < |link|
    ensures IsMatching(link[y := FREE], numLeft)
    ensures Lefts(link[y := FREE]) == Lefts(link) - {link[y]}
  {
    var after := link[y := FREE];
    forall l | l in Lefts(link) - {link[y]}
      ensures l in Lefts(after)
    {
      var z :| 0 <= z < |link| && link[z] != FREE && link[z] == l;
      assert after[z] == l;
    }
  }

  lemma DropLast(link: seq<int>, numLeft: nat)
    requires IsMatching(link, numLeft) && |link| > 0
    ensures var k := |link| - 1; var init := link[..k];
      && IsMatching(init, numLeft)
      && Rights(link) == Rights(init) + (if link[k] == FREE then {} else {k})
      && Lefts(link) == Lefts(init) + (if link[k] == FREE then {} else {link[k]})
      && link[k] !in Lefts(init)
  {
    var k := |link| - 1;
    var init := link[..k];
    forall l | l in Lefts(init)
      ensures l in Lefts(link) && l != link[k]
    {
      var z :| 0 <= z < |init| && init[z] != FREE && init[z] == l;
      assert link[z] == l;
    }
    forall l | l in Lefts(link) && l != link[k]
      ensures l in Lefts(init)
    {
      var z :| 0 <= z < |link| && link[z] != FREE && link[z] == l;
      assert init[z] == l;
    }
  }

  /** Partners are distinct, so both sides of a matching have the same number of matched vertices. */
  lemma {:induction false} SidesAgree(link: seq<int>, numLeft: nat)
    requires IsMatching(link, numLeft)
    ensures |Lefts(link)| == |Rights(link)|
  {
    if |link| > 0 {
      DropLast(link, numLeft);
      SidesAgree(link[..|link| - 1], numLeft);
    }
  }

  // ----- Augmenting along a search path -----

  /** `path` on the marked right vertices, `link` on the others. */
  ghost function Merge(path: seq<int>, marked: seq<bool>, link: seq<int>): seq<int>
    requires |path| == |marked| == |link|
  {
    seq(|path|, y requires 0 <= y < |path| => if marked[y] then path[y] else link[y])
  }

  /**
   A search that began with `marked` has turned `link0` into `link`. It left the marked right
   vertices alone, freed no right vertex, and together with `path` (the matching with the search
   path above already flipped) what it left is a matching of the old left vertices and x.
   */
  ghost predicate Augmented(numLeft: nat, path: seq<int>, marked: seq<bool>, link0: seq<int>, link: seq<int>, x: int) {
    && |path| == |marked| == |link| == |link0|
    && (forall y :: 0 <= y < |link| && marked[y] ==> link[y] == link0[y])
    && (forall y :: 0 <= y < |link| && link0[y] != FREE ==> link[y] != FREE)
    && IsMatching(Merge(path, marked, link), numLeft)
    && Lefts(Merge(path, marked, link)) == Lefts(path) + {x}
  }

  lemma AugmentAtFree(numLeft: nat, path: seq<int>, marked: seq<bool>, link: seq<int>, y: int, x: int)
    requires |path| == |marked| == |link| && IsMatching(path, numLeft)
    requires 0 <= x < numLeft && x !in Lefts(path)
    requires forall z :: 0 <= z < |link| && !marked[z] ==> path[z] == link[z]
    requires 0 <= y < |link| && !marked[y] && link[y] == FREE
    ensures Augmented(numLeft, path, marked, link, link[y := x], x)
  {
    Rematch(path, numLeft, y, x);
    assert Merge(path, marked, link[y := x]) == path[y := x];
  }

  lemma AugmentThroughPartner(numLeft: nat, path: seq<int>, marked: seq<bool>, link: seq<int>, y: int, x: int,
                              marked1: seq<bool>, link1: seq<int>)
    requires |path| == |marked| == |link| == |marked1| && IsMatching(path, numLeft)
    requires 0 <= x < numLeft && x !in Lefts(path)
    requires forall z :: 0 <= z < |link| && !marked[z] ==> path[z] == link[z]
    requires 0 <= y < |link| && !marked[y] && link[y] != FREE
    requires marked1[y] && forall z :: 0 <= z < |marked| && marked[z] ==> marked1[z]
    requires Augmented(numLeft, path[y := x], marked1, link, link1, link[y])
    ensures Augmented(numLeft, path, marked, link, link1[y := x], x)
  {
    Rematch(path, numLeft, y, x);
    var flipped := path[y := x];
    assert Merge(path, marked, link1[y := x]) == Merge(flipped, marked1, link1);
    assert path[y] in Lefts(path);
  }
}
