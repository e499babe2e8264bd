/**
 The Kuhn-Munkres assignment solver: potentials, slack values and an alternating-tree search.
 The predicates speak of values; the class `WeightedBipartiteMaxMatch` at the end updates its
 fields in place.
 */
module AssignmentModel {
  import opened IndexSets
  import opened Matchings

  datatype WeightedBipartite = WeightedBipartite(numLeft: nat, numRight: nat, weight: seq<seq<int>>) {
    ghost predicate Valid() {
      |weight| == numLeft && forall x :: 0 <= x < numLeft ==> |weight[x]| == numRight
    }
    function GetWeight(x: int, y: int): int
      requires Valid() && 0 <= x < numLeft && 0 <= y < numRight
    {
      weight[x][y]
    }
  }

  /** A slack value; `Infinite` stands for the largest value of the weight type. */
  datatype Slack = Infinite | Finite(value: int)

  predicate Exceeds(a: Slack, b: Slack) {
    b.Finite? && (a.Infinite? || a.value > b.value)
  }

  /** The graph with one potential per vertex. */
  ghost predicate Labelled(g: WeightedBipartite, left: seq<int>, right: seq<int>) {
    g.Valid() && |left| == g.numLeft && |right| == g.numRight
  }

  ghost predicate Edge(g: WeightedBipartite, x: int, y: int) {
    0 <= x < g.numLeft && 0 <= y < g.numRight
  }

  ghost function Reduced(g: WeightedBipartite, left: seq<int>, right: seq<int>, x: int, y: int): int
    requires Labelled(g, left, right) && Edge(g, x, y)
  {
    left[x] + right[y] - g.weight[x][y]
  }

  /** No edge is heavier than the potentials of its ends. */
  ghost predicate Feasible(g: WeightedBipartite, left: seq<int>, right: seq<int>) {
    && Labelled(g, left, right)
    && forall x, y :: Edge(g, x, y) ==> Reduced(g, left, right, x, y) >= 0
  }

  ghost predicate Tight(g: WeightedBipartite, left: seq<int>, right: seq<int>, x: int, y: int)
    requires Labelled(g, left, right)
  {
    Edge(g, x, y) && Reduced(g, left, right, x, y) == 0
  }

  ghost predicate TightMatching(g: WeightedBipartite, left: seq<int>, right: seq<int>, link: seq<int>) {
    && Labelled(g, left, right)
    && |link| == g.numRight
    && IsMatching(link, g.numLeft)
    && forall y :: 0 <= y < |link| && link[y] != FREE ==> Tight(g, left, right, link[y], y)
  }

  /** Right potentials are never negative, and zero where nothing is matched. */
  ghost predicate FreeAtZero(link: seq<int>, right: seq<int>) {
    && |link| == |right|
    && forall y :: 0 <= y < |link| ==> right[y] >= 0 && (link[y] == FREE ==> right[y] == 0)
  }

  // ----- The search -----

  /** (cl, cr) cannot be left along a tight edge, nor back along a matched one. */
  ghost predicate Closed(g: WeightedBipartite, left: seq<int>, right: seq<int>, link: seq<int>, cl: set<int>,
      cr: set<int>)
    requires Labelled(g, left, right) && |link| == g.numRight
  {
    && (forall x, y :: x in cl && Tight(g, left, right, x, y) ==> y in cr)
    && (forall y :: 0 <= y < |link| && y in cr && link[y] != FREE ==> link[y] in cl)
  }

  /** What a search has marked: left vertices, right vertices, and the slack of the right ones. */
  datatype Marks = Marks(left: seq<bool>, right: seq<bool>, slack: seq<Slack>) {
    ghost predicate Fits(g: WeightedBipartite) {
      |left| == g.numLeft && |right| == g.numRight && |slack| == g.numRight
    }
  }

  ghost predicate Grown(a: Marks, b: Marks) {
    && |a.left| == |b.left| && |a.right| == |b.right| && |a.slack| == |b.slack|
    && (forall x :: 0 <= x < |a.left| && a.left[x] ==> b.left[x])
    && (forall y :: 0 <= y < |a.right| && a.right[y] ==> b.right[y])
    && (forall y :: 0 <= y < |a.slack| ==> !Exceeds(b.slack[y], a.slack[y]))
  }

  /** A right vertex that is still unmarked has an unmarked partner. */
  ghost predicate InStep(link: seq<int>, m: Marks)
    requires |link| == |m.right|
  {
    forall y :: 0 <= y < |link| && link[y] != FREE && !m.right[y] && 0 <= link[y] < |m.left| ==> !m.left[link[y]]
  }

  /** Left vertex x has been compared with the right vertices below k. */
  ghost predicate Scanned(g: WeightedBipartite, left: seq<int>, right: seq<int>, m: Marks, x: int, k: int)
    requires Labelled(g, left, right) && m.Fits(g) && 0 <= x < g.numLeft && k <= g.numRight
  {
    forall y :: 0 <= y < k && !m.right[y] ==>
      !Tight(g, left, right, x, y) && !Exceeds(m.slack[y], Finite(Reduced(g, left, right, x, y)))
  }

  /** Everything newly marked is forced: it lies in each closed set that holds the search's root. */
  ghost predicate Forced(g: WeightedBipartite, left: seq<int>, right: seq<int>, link: seq<int>, x: int, a: Marks,
      b: Marks)
    requires Labelled(g, left, right) && |link| == g.numRight && a.Fits(g) && b.Fits(g)
  {
    forall cl, cr :: Closed(g, left, right, link, cl, cr) && x in cl ==>
      && (forall l :: 0 <= l < g.numLeft && b.left[l] && !a.left[l] ==> l in cl)
      && (forall y :: 0 <= y < g.numRight && b.right[y] && !a.right[y] ==> y in cr)
  }

  ghost predicate SlackOrigin(g: WeightedBipartite, left: seq<int>, right: seq<int>, a: Marks, b: Marks, y: int)
    requires Labelled(g, left, right) && a.Fits(g) && b.Fits(g) && 0 <= y < g.numRight
  {
    || b.slack[y] == a.slack[y]
    || exists l :: 0 <= l < g.numLeft && b.left[l] && b.slack[y] == Finite(Reduced(g, left, right, l, y))
  }

  /**
   A search from x that began with marks a, has reached marks b without finding a free right
   vertex, and has compared x itself with the right vertices below k.
   */
  ghost predicate Exploring(g: WeightedBipartite, left: seq<int>, right: seq<int>, link: seq<int>, x: int, a: Marks,
      b: Marks, k: int)
  {
    && TightMatching(g, left, right, link)
    && a.Fits(g) && b.Fits(g) && 0 <= x < g.numLeft && 0 <= k <= g.numRight
    && Grown(a, b) && InStep(link, b)
    && b.left[x] && Scanned(g, left, right, b, x, k)
    && (forall l :: 0 <= l < g.numLeft && l != x && b.left[l] && !a.left[l] ==>
        Scanned(g, left, right, b, l, g.numRight))
    && (forall y :: 0 <= y < g.numRight && b.right[y] && !a.right[y] ==> link[y] != FREE && b.left[link[y]])
    && (forall y :: 0 <= y < g.numRight ==> SlackOrigin(g, left, right, a, b, y))
    && Forced(g, left, right, link, x, a, b)
  }

  ghost predicate Failed(g: WeightedBipartite, left: seq<int>, right: seq<int>, link: seq<int>, x: int, a: Marks,
      b: Marks)
  {
    Exploring(g, left, right, link, x, a, b, g.numRight)
  }

  lemma StartExploring(g: WeightedBipartite, left: seq<int>, right: seq<int>, link: seq<int>, x: int, a: Marks,
      path: seq<int>)
    requires TightMatching(g, left, right, link) && Searchable(g, link, a, x, path)
    ensures Exploring(g, left, right, link, x, a, a.(left := a.left[x := true]), 0)
  {
    assert forall y :: 0 <= y < |link| && !a.right[y] && link[y] == x ==> path[y] in Lefts(path);
  }

  lemma SkipMarked(g: WeightedBipartite, left: seq<int>, right: seq<int>, link: seq<int>, x: int, a: Marks, b: Marks,
      k: int)
    requires Exploring(g, left, right, link, x, a, b, k) && k < g.numRight && b.right[k]
    ensures Exploring(g, left, right, link, x, a, b, k + 1)
  {
  }

  /** An edge that is not tight lowers the slack of its right end at most. */
  lemma LowerSlack(g: WeightedBipartite, left: seq<int>, right: seq<int>, link: seq<int>, x: int, a: Marks, b: Marks,
      k: int, s: Slack)
    requires Exploring(g, left, right, link, x, a, b, k) && k < g.numRight && !Tight(g, left, right, x, k)
    requires var delta := Finite(Reduced(g, left, right, x, k));
      s == if Exceeds(b.slack[k], delta) then delta else b.slack[k]
    ensures Exploring(g, left, right, link, x, a, b.(slack := b.slack[k := s]), k + 1)
  {
    var c := b.(slack := b.slack[k := s]);
    forall y | 0 <= y < g.numRight
      ensures SlackOrigin(g, left, right, a, c, y)
    {
      assert SlackOrigin(g, left, right, a, b, y);
      if y == k && s != b.slack[k] {
        assert c.left[x] && c.slack[y] == Finite(Reduced(g, left, right, x, y));
      } else if c.slack[y] != a.slack[y] {
        var l :| 0 <= l < g.numLeft && b.left[l] && b.slack[y] == Finite(Reduced(g, left, right, l, y));
        assert c.left[l];
      }
    }
    forall l | 0 <= l < g.numLeft && l != x && c.left[l] && !a.left[l]
      ensures Scanned(g, left, right, c, l, g.numRight)
    {
      assert Scanned(g, left, right, b, l, g.numRight);
    }
  }

  /** What a search from x may rely on. */
  ghost predicate Searchable(g: WeightedBipartite, link: seq<int>, m: Marks, x: int, path: seq<int>) {
    && |link| == |path| == g.numRight && m.Fits(g) && InStep(link, m)
    && IsMatching(path, g.numLeft)
    && 0 <= x < g.numLeft && !m.left[x] && x !in Lefts(path)
    && forall y :: 0 <= y < |link| && !m.right[y] ==> path[y] == link[y]
  }

  lemma EnterBranch(g: WeightedBipartite, left: seq<int>, right: seq<int>, link: seq<int>, x: int, a: Marks,
      b: Marks, k: int, path: seq<int>)
    requires Searchable(g, link, a, x, path)
    requires Exploring(g, left, right, link, x, a, b, k) && k < g.numRight && !b.right[k] && link[k] != FREE
    ensures var e := b.(right := b.right[k := true]);
      Searchable(g, link, e, link[k], path[k := x]) && Unmarked(e.right) < Unmarked(a.right)
  {
    var e := b.(right := b.right[k := true]);
    Rematch(path, g.numLeft, k, x);
    assert path[k] in Lefts(path);
    assert k in Unmarked(a.right) && k !in Unmarked(e.right);
  }

  /** A successful search: the matching is augmented by x, and every changed link is a tight edge. */
  ghost predicate Found(g: WeightedBipartite, left: seq<int>, right: seq<int>, path: seq<int>, marked: seq<bool>,
      link0: seq<int>, link: seq<int>, x: int)
  {
    && Labelled(g, left, right) && |link| == g.numRight
    && Augmented(g.numLeft, path, marked, link0, link, x)
    && forall y :: 0 <= y < |link| && link[y] != link0[y] ==> Tight(g, left, right, link[y], y)
  }

  lemma FoundAtFree(g: WeightedBipartite, left: seq<int>, right: seq<int>, link: seq<int>, x: int, a: Marks, k: int,
      path: seq<int>)
    requires Searchable(g, link, a, x, path) && Labelled(g, left, right)
    requires Tight(g, left, right, x, k) && !a.right[k] && link[k] == FREE
    ensures Found(g, left, right, path, a.right, link, link[k := x], x)
  {
    AugmentAtFree(g.numLeft, path, a.right, link, k, x);
  }

  lemma FoundThroughPartner(g: WeightedBipartite, left: seq<int>, right: seq<int>, link: seq<int>, x: int, a: Marks,
      b: Marks, k: int, path: seq<int>, link1: seq<int>)
    requires Labelled(g, left, right) && Searchable(g, link, a, x, path) && b.Fits(g) && Grown(a, b)
    requires Tight(g, left, right, x, k) && !b.right[k] && link[k] != FREE
    requires Found(g, left, right, path[k := x], b.right[k := true], link, link1, link[k])
    ensures Found(g, left, right, path, a.right, link, link1[k := x], x)
  {
    AugmentThroughPartner(g.numLeft, path, a.right, link, k, x, b.right[k := true], link1);
  }

  /** A failed search from the partner of k is a failed branch of the search from x. */
  lemma ReturnFromBranch(g: WeightedBipartite, left: seq<int>, right: seq<int>, link: seq<int>, x: int, a: Marks,
      b: Marks, k: int, c: Marks)
    requires Exploring(g, left, right, link, x, a, b, k) && k < g.numRight && !b.right[k]
    requires Tight(g, left, right, x, k) && link[k] != FREE
    requires Failed(g, left, right, link, link[k], b.(right := b.right[k := true]), c)
    ensures Exploring(g, left, right, link, x, a, c, k + 1)
  {
    var e := b.(right := b.right[k := true]);
    BranchSlack(g, left, right, link, x, a, b, k, c);
    BranchForced(g, left, right, link, x, a, b, k, c);
    assert c.right[k] && c.left[link[k]];
    forall l | 0 <= l < g.numLeft && l != x && c.left[l] && !a.left[l]
      ensures Scanned(g, left, right, c, l, g.numRight)
    {
      if b.left[l] {
        ScannedGrows(g, left, right, b, c, l, g.numRight);
      }
    }
    ScannedGrows(g, left, right, b, c, x, k);
  }

  lemma ScannedGrows(g: WeightedBipartite, left: seq<int>, right: seq<int>, a: Marks, b: Marks, x: int, k: int)
    requires Labelled(g, left, right) && a.Fits(g) && b.Fits(g) && 0 <= x < g.numLeft && 0 <= k <= g.numRight
    requires Grown(a, b) && Scanned(g, left, right, a, x, k)
    ensures Scanned(g, left, right, b, x, k)
  {
  }

  lemma BranchSlack(g: WeightedBipartite, left: seq<int>, right: seq<int>, link: seq<int>, x: int, a: Marks,
      b: Marks, k: int, c: Marks)
    requires Exploring(g, left, right, link, x, a, b, k) && k < g.numRight && !b.right[k] && link[k] != FREE
    requires Failed(g, left, right, link, link[k], b.(right := b.right[k := true]), c)
    ensures forall y :: 0 <= y < g.numRight ==> SlackOrigin(g, left, right, a, c, y)
  {
    var e := b.(right := b.right[k := true]);
    forall y | 0 <= y < g.numRight
      ensures SlackOrigin(g, left, right, a, c, y)
    {
      assert SlackOrigin(g, left, right, a, b, y) && SlackOrigin(g, left, right, e, c, y);
      if c.slack[y] == b.slack[y] && b.slack[y] != a.slack[y] {
        var l :| 0 <= l < g.numLeft && b.left[l] && b.slack[y] == Finite(Reduced(g, left, right, l, y));
        assert e.left[l] && c.left[l];
      }
    }
  }

  lemma BranchForced(g: WeightedBipartite, left: seq<int>, right: seq<int>, link: seq<int>, x: int, a: Marks,
      b: Marks, k: int, c: Marks)
    requires Exploring(g, left, right, link, x, a, b, k) && k < g.numRight && !b.right[k]
    requires Tight(g, left, right, x, k) && link[k] != FREE
    requires Failed(g, left, right, link, link[k], b.(right := b.right[k := true]), c)
    ensures Forced(g, left, right, link, x, a, c)
  {
    var e := b.(right := b.right[k := true]);
    forall cl, cr | Closed(g, left, right, link, cl, cr) && x in cl
      ensures forall l :: 0 <= l < g.numLeft && c.left[l] && !a.left[l] ==> l in cl
      ensures forall y :: 0 <= y < g.numRight && c.right[y] && !a.right[y] ==> y in cr
    {
      assert k in cr && link[k] in cl;
      assert forall y :: 0 <= y < g.numRight && c.right[y] && !e.right[y] ==> y in cr;
    }
  }
}

/** What one round of searching and adjusting potentials keeps. */
module AssignmentPhases {
  import opened IndexSets
  import opened Matchings
  import opened AssignmentModel

  /** The left vertices below x are matched, along tight edges of feasible potentials. */
  ghost predicate Placed(g: WeightedBipartite, left: seq<int>, right: seq<int>, link: seq<int>, x: nat) {
    && Feasible(g, left, right) && TightMatching(g, left, right, link) && FreeAtZero(link, right)
    && Lefts(link) == Below(x)
  }

  ghost predicate Attained(g: WeightedBipartite, left: seq<int>, right: seq<int>, vl: set<int>, y: int, s: Slack)
    requires Labelled(g, left, right) && 0 <= y < g.numRight
  {
    exists l :: l in vl && 0 <= l < g.numLeft && s == Finite(Reduced(g, left, right, l, y))
  }

  /**
   Between two searches from x: every closed set that holds x holds (vl, vr), so the next search
   marks at least that much, and the slack of a right vertex outside vr is infinite or attained.
   */
  ghost predicate Staged(g: WeightedBipartite, left: seq<int>, right: seq<int>, link: seq<int>, x: int,
      slack: seq<Slack>, vl: set<int>, vr: set<int>)
  {
    && Labelled(g, left, right) && |link| == |slack| == g.numRight
    && vr <= Below(g.numRight)
    && (forall cl, cr :: Closed(g, left, right, link, cl, cr) && x in cl ==> vl <= cl && vr <= cr)
    && (forall y :: 0 <= y < g.numRight && y !in vr ==> slack[y].Infinite? || Attained(g, left, right, vl, y, slack[y]))
  }

  /**
   After a failed search from x: (vl, vr) is the least closed set that holds x, its right vertices are
   matched with its left ones, and each slack outside is the least reduced cost over vl.
   */
  ghost predicate Saturated(g: WeightedBipartite, left: seq<int>, right: seq<int>, link: seq<int>, x: int,
      slack: seq<Slack>, vl: set<int>, vr: set<int>)
  {
    && Labelled(g, left, right) && |link| == |slack| == g.numRight
    && vr <= Below(g.numRight) && vl <= Below(g.numLeft) && x in vl
    && Closed(g, left, right, link, vl, vr)
    && (forall y :: 0 <= y < |link| ==> (y in vr <==> link[y] != FREE && link[y] in vl && link[y] != x))
    && (forall cl, cr :: Closed(g, left, right, link, cl, cr) && x in cl ==> vl <= cl && vr <= cr)
    && (forall y :: 0 <= y < g.numRight && y !in vr ==> Attained(g, left, right, vl, y, slack[y]))
    && (forall l, y :: l in vl && Edge(g, l, y) && y !in vr ==>
        !Exceeds(slack[y], Finite(Reduced(g, left, right, l, y))))
  }

  lemma FailedSaturates(g: WeightedBipartite, left: seq<int>, right: seq<int>, link: seq<int>, x: nat, a: Marks,
      b: Marks, vl: set<int>, vr: set<int>)
    requires Placed(g, left, right, link, x) && Staged(g, left, right, link, x, a.slack, vl, vr)
    requires Failed(g, left, right, link, x, a, b)
    requires Marked(a.left) == {} && Marked(a.right) == {}
    ensures vl <= Marked(b.left) && vr <= Marked(b.right)
    ensures Saturated(g, left, right, link, x, b.slack, Marked(b.left), Marked(b.right))
  {
    NothingMarked(g, a, b);
    FailedCloses(g, left, right, link, x, a, b);
    FailedBounds(g, left, right, link, x, a, b, vl, vr);
    MarkedPartners(g, left, right, link, x, a, b);
  }

  lemma NothingMarked(g: WeightedBipartite, a: Marks, b: Marks)
    requires a.Fits(g) && b.Fits(g) && Marked(a.left) == {} && Marked(a.right) == {}
    ensures forall l :: 0 <= l < g.numLeft && b.left[l] ==> !a.left[l]
    ensures forall y :: 0 <= y < g.numRight && b.right[y] ==> !a.right[y]
  {
    assert forall l :: 0 <= l < g.numLeft && a.left[l] ==> l in Marked(a.left);
    assert forall y :: 0 <= y < g.numRight && a.right[y] ==> y in Marked(a.right);
  }

  lemma MarkedPartners(g: WeightedBipartite, left: seq<int>, right: seq<int>, link: seq<int>, x: nat, a: Marks,
      b: Marks)
    requires Placed(g, left, right, link, x) && Failed(g, left, right, link, x, a, b)
    requires forall l :: 0 <= l < g.numLeft && b.left[l] ==> !a.left[l]
    requires forall y :: 0 <= y < g.numRight && b.right[y] ==> !a.right[y]
    ensures var vl, vr := Marked(b.left), Marked(b.right);
      && vr <= Below(g.numRight) && vl <= Below(g.numLeft) && x in vl
      && forall y :: 0 <= y < |link| ==> (y in vr <==> link[y] != FREE && link[y] in vl && link[y] != x)
  {
    assert x !in Below(x);
    assert forall y :: 0 <= y < |link| && link[y] != FREE ==> link[y] in Lefts(link);
  }

  lemma FailedCloses(g: WeightedBipartite, left: seq<int>, right: seq<int>, link: seq<int>, x: int, a: Marks, b: Marks)
    requires Failed(g, left, right, link, x, a, b)
    requires forall l :: 0 <= l < g.numLeft && b.left[l] ==> !a.left[l]
    requires forall y :: 0 <= y < g.numRight && b.right[y] ==> !a.right[y]
    ensures Closed(g, left, right, link, Marked(b.left), Marked(b.right))
  {
    forall l, y | l in Marked(b.left) && Tight(g, left, right, l, y)
      ensures y in Marked(b.right)
    {
      assert Scanned(g, left, right, b, l, g.numRight);
    }
  }

  lemma FailedBounds(g: WeightedBipartite, left: seq<int>, right: seq<int>, link: seq<int>, x: int, a: Marks,
      b: Marks, vl: set<int>, vr: set<int>)
    requires Feasible(g, left, right) && Staged(g, left, right, link, x, a.slack, vl, vr)
    requires Failed(g, left, right, link, x, a, b)
    requires forall l :: 0 <= l < g.numLeft && b.left[l] ==> !a.left[l]
    requires Closed(g, left, right, link, Marked(b.left), Marked(b.right))
    ensures forall l, y :: l in Marked(b.left) && Edge(g, l, y) && y !in Marked(b.right) ==>
      !Exceeds(b.slack[y], Finite(Reduced(g, left, right, l, y))) && Reduced(g, left, right, l, y) > 0
    ensures forall y :: 0 <= y < g.numRight && y !in Marked(b.right) ==>
        Attained(g, left, right, Marked(b.left), y, b.slack[y])
  {
    forall l, y | l in Marked(b.left) && Edge(g, l, y) && y !in Marked(b.right)
      ensures !Exceeds(b.slack[y], Finite(Reduced(g, left, right, l, y))) && Reduced(g, left, right, l, y) > 0
    {
      assert Scanned(g, left, right, b, l, g.numRight);
      assert !Tight(g, left, right, l, y);
    }
    forall y | 0 <= y < g.numRight && y !in Marked(b.right)
      ensures Attained(g, left, right, Marked(b.left), y, b.slack[y])
    {
      assert x in Marked(b.left) && Edge(g, x, y);
      assert SlackOrigin(g, left, right, a, b, y);
      if b.slack[y] == a.slack[y] {
        var l :| l in vl && 0 <= l < g.numLeft && a.slack[y] == Finite(Reduced(g, left, right, l, y));
        assert l in Marked(b.left);
      } else {
        var l :| 0 <= l < g.numLeft && b.left[l] && b.slack[y] == Finite(Reduced(g, left, right, l, y));
        assert l in Marked(b.left);
      }
    }
  }

  /** With no more left than right vertices, a failed search leaves a right vertex unmarked. */
  lemma SomeRightUnmarked(g: WeightedBipartite, left: seq<int>, right: seq<int>, link: seq<int>, x: nat,
      slack: seq<Slack>, vl: set<int>, vr: set<int>)
    requires Placed(g, left, right, link, x) && Saturated(g, left, right, link, x, slack, vl, vr)
    requires x < g.numLeft <= g.numRight
    ensures exists y :: 0 <= y < g.numRight && y !in vr
  {
    if forall y :: 0 <= y < g.numRight ==> y in vr {
      assert Rights(link) == Below(g.numRight);
      SidesAgree(link, g.numLeft);
      assert false;
    }
  }

  lemma SearchableAtTop(g: WeightedBipartite, left: seq<int>, right: seq<int>, link: seq<int>, x: nat, m: Marks)
    requires Placed(g, left, right, link, x) && x < g.numLeft && m.Fits(g)
    requires forall l :: 0 <= l < |m.left| ==> !m.left[l]
    ensures Searchable(g, link, m, x, link)
  {
    assert x !in Below(x);
  }

  // ----- Adjusting the potentials -----

  function Lowered(left: seq<int>, marked: seq<bool>, d: int): (r: seq<int>)
    requires |left| == |marked|
  {
    seq(|left|, i requires 0 <= i < |left| => if marked[i] then left[i] - d else left[i])
  }

  function Raised(right: seq<int>, marked: seq<bool>, d: int): (r: seq<int>)
    requires |right| == |marked|
  {
    seq(|right|, i requires 0 <= i < |right| => if marked[i] then right[i] + d else right[i])
  }

  function Minus(s: Slack, d: int): Slack {
    match s
    case Infinite => Infinite
    case Finite(v) => Finite(v - d)
  }

  function Reduce(slack: seq<Slack>, marked: seq<bool>, d: int): (r: seq<Slack>)
    requires |slack| == |marked|
  {
    seq(|slack|, i requires 0 <= i < |slack| => if marked[i] then slack[i] else Minus(slack[i], d))
  }

  /** d is the least slack outside vr, found at y. */
  ghost predicate LeastSlack(slack: seq<Slack>, vr: set<int>, d: int, y: int) {
    && 0 <= y < |slack| && y !in vr && slack[y] == Finite(d)
    && forall z :: 0 <= z < |slack| && z !in vr ==> !Exceeds(Finite(d), slack[z])
  }

  /** After a failed search the least slack is finite. */
  lemma LeastIsFinite(g: WeightedBipartite, left: seq<int>, right: seq<int>, link: seq<int>, x: int, m: Marks,
      d: Slack, y: int)
    requires m.Fits(g) && Saturated(g, left, right, link, x, m.slack, Marked(m.left), Marked(m.right))
    requires exists z :: 0 <= z < g.numRight && z !in Marked(m.right)
    requires forall z :: 0 <= z < g.numRight && !m.right[z] ==> !Exceeds(d, m.slack[z])
    requires d.Finite? ==> 0 <= y < g.numRight && !m.right[y] && m.slack[y] == d
    ensures d.Finite? && LeastSlack(m.slack, Marked(m.right), d.value, y)
  {
    var z :| 0 <= z < g.numRight && z !in Marked(m.right);
    assert Attained(g, left, right, Marked(m.left), z, m.slack[z]);
  }

  /** The adjusted potentials are feasible, keep the matching tight, and make an edge out of vl tight. */
  lemma Adjust(g: WeightedBipartite, left: seq<int>, right: seq<int>, link: seq<int>, x: nat, m: Marks, d: int, y: int)
    requires Placed(g, left, right, link, x) && x < g.numLeft && m.Fits(g)
    requires Saturated(g, left, right, link, x, m.slack, Marked(m.left), Marked(m.right))
    requires LeastSlack(m.slack, Marked(m.right), d, y)
    ensures d > 0
    ensures var left', right' := Lowered(left, m.left, d), Raised(right, m.right, d);
      && Placed(g, left', right', link, x)
      && Staged(g, left', right', link, x, Reduce(m.slack, m.right, d), Marked(m.left), Marked(m.right) + {y})
  {
    var vl, vr := Marked(m.left), Marked(m.right);
    var left', right' := Lowered(left, m.left, d), Raised(right, m.right, d);
    AdjustedDistances(g, left, right, m, d);
    StepPositive(g, left, right, link, x, m.slack, vl, vr, d, y);
    AdjustFeasible(g, left, right, link, x, m, d);
    AdjustStaged(g, left, right, link, x, m, d, y);
  }

  /** By how much an adjustment by d changes the reduced cost of an edge. */
  ghost function Shift(leftMarked: bool, rightMarked: bool, d: int): int {
    (if rightMarked then d else 0) - (if leftMarked then d else 0)
  }

  lemma AdjustedDistances(g: WeightedBipartite, left: seq<int>, right: seq<int>, m: Marks, d: int)
    requires Labelled(g, left, right) && m.Fits(g)
    ensures var left', right' := Lowered(left, m.left, d), Raised(right, m.right, d);
      && Labelled(g, left', right')
      && forall l, y :: Edge(g, l, y) ==>
           Reduced(g, left', right', l, y) == Reduced(g, left, right, l, y) + Shift(l in Marked(m.left),
               y in Marked(m.right), d)
  {
  }

  lemma StepPositive(g: WeightedBipartite, left: seq<int>, right: seq<int>, link: seq<int>, x: int,
      slack: seq<Slack>, vl: set<int>, vr: set<int>, d: int, y: int)
    requires Feasible(g, left, right) && Saturated(g, left, right, link, x, slack, vl, vr)
    requires LeastSlack(slack, vr, d, y)
    ensures d > 0
    ensures forall l, z :: l in vl && Edge(g, l, z) && z !in vr ==> Reduced(g, left, right, l, z) >= d
  {
    var l :| l in vl && 0 <= l < g.numLeft && slack[y] == Finite(Reduced(g, left, right, l, y));
    assert Edge(g, l, y) && !Tight(g, left, right, l, y);
  }

  lemma AdjustFeasible(g: WeightedBipartite, left: seq<int>, right: seq<int>, link: seq<int>, x: nat, m: Marks, d: int)
    requires Placed(g, left, right, link, x) && x < g.numLeft && m.Fits(g) && d > 0
    requires Saturated(g, left, right, link, x, m.slack, Marked(m.left), Marked(m.right))
    requires forall l, z :: l in Marked(m.left) && Edge(g, l, z) && z !in Marked(m.right) ==>
        Reduced(g, left, right, l, z) >= d
    ensures Placed(g, Lowered(left, m.left, d), Raised(right, m.right, d), link, x)
  {
    AdjustedDistances(g, left, right, m, d);
    var left', right' := Lowered(left, m.left, d), Raised(right, m.right, d);
    assert Feasible(g, left', right');
    AdjustKeepsTight(g, left, right, link, x, m, d);
  }

  lemma AdjustKeepsTight(g: WeightedBipartite, left: seq<int>, right: seq<int>, link: seq<int>, x: nat, m: Marks,
      d: int)
    requires TightMatching(g, left, right, link) && FreeAtZero(link, right) && Lefts(link) == Below(x)
    requires m.Fits(g) && d > 0
    requires forall z :: 0 <= z < |link| ==>
        (z in Marked(m.right) <==> link[z] != FREE && link[z] in Marked(m.left) && link[z] != x)
    ensures var left', right' := Lowered(left, m.left, d), Raised(right, m.right, d);
      TightMatching(g, left', right', link) && FreeAtZero(link, right')
  {
    AdjustedDistances(g, left, right, m, d);
    var left', right' := Lowered(left, m.left, d), Raised(right, m.right, d);
    forall z | 0 <= z < |link| && link[z] != FREE
      ensures Tight(g, left', right', link[z], z)
    {
      assert link[z] in Lefts(link) && x !in Below(x);
      assert Tight(g, left, right, link[z], z);
    }
    assert forall z :: z in Marked(m.right) <==> 0 <= z < |m.right| && m.right[z];
  }

  lemma AdjustStaged(g: WeightedBipartite, left: seq<int>, right: seq<int>, link: seq<int>, x: nat, m: Marks, d: int,
      y: int)
    requires Placed(g, left, right, link, x) && x < g.numLeft && m.Fits(g)
    requires Saturated(g, left, right, link, x, m.slack, Marked(m.left), Marked(m.right))
    requires LeastSlack(m.slack, Marked(m.right), d, y)
    ensures Staged(g, Lowered(left, m.left, d), Raised(right, m.right, d), link, x, Reduce(m.slack, m.right, d),
        Marked(m.left), Marked(m.right) + {y})
  {
    AdjustedDistances(g, left, right, m, d);
    var left', right' := Lowered(left, m.left, d), Raised(right, m.right, d);
    var vl, vr := Marked(m.left), Marked(m.right);
    forall cl, cr | Closed(g, left', right', link, cl, cr) && x in cl
      ensures vl <= cl && vr + {y} <= cr
    {
      AdjustForces(g, left, right, link, x, m, d, y, cl, cr);
    }
    forall z | 0 <= z < g.numRight && z !in vr + {y}
      ensures Attained(g, left', right', vl, z, Reduce(m.slack, m.right, d)[z])
    {
      AdjustAttains(g, left, right, m, d, z);
    }
  }

  /** A set closed after the adjustment is closed before it, inside (vl, vr); and y is now within reach. */
  lemma AdjustForces(g: WeightedBipartite, left: seq<int>, right: seq<int>, link: seq<int>, x: int, m: Marks, d: int,
      y: int, cl: set<int>, cr: set<int>)
    requires Labelled(g, left, right) && |link| == g.numRight && m.Fits(g)
    requires Saturated(g, left, right, link, x, m.slack, Marked(m.left), Marked(m.right))
    requires LeastSlack(m.slack, Marked(m.right), d, y)
    requires Closed(g, Lowered(left, m.left, d), Raised(right, m.right, d), link, cl, cr) && x in cl
    ensures Marked(m.left) <= cl && Marked(m.right) + {y} <= cr
  {
    var left', right' := Lowered(left, m.left, d), Raised(right, m.right, d);
    var vl, vr := Marked(m.left), Marked(m.right);
    AdjustedDistances(g, left, right, m, d);
    forall l, z | l in cl * vl && Tight(g, left, right, l, z)
      ensures z in cr * vr
    {
      assert Tight(g, left', right', l, z);
    }
    assert Closed(g, left, right, link, cl * vl, cr * vr);
    var l :| l in vl && 0 <= l < g.numLeft && m.slack[y] == Finite(Reduced(g, left, right, l, y));
    assert Tight(g, left', right', l, y);
  }

  lemma AdjustAttains(g: WeightedBipartite, left: seq<int>, right: seq<int>, m: Marks, d: int, z: int)
    requires Labelled(g, left, right) && m.Fits(g) && 0 <= z < g.numRight && z !in Marked(m.right)
    requires Attained(g, left, right, Marked(m.left), z, m.slack[z])
    ensures Attained(g, Lowered(left, m.left, d), Raised(right, m.right, d), Marked(m.left), z,
        Reduce(m.slack, m.right, d)[z])
  {
    AdjustedDistances(g, left, right, m, d);
    var l :| l in Marked(m.left) && 0 <= l < g.numLeft && m.slack[z] == Finite(Reduced(g, left, right, l, z));
    assert Edge(g, l, z);
  }

  /** No more left vertices can be placed than there are right vertices. */
  lemma NoMorePlaces(g: WeightedBipartite, left: seq<int>, right: seq<int>, link: seq<int>, x: nat)
    requires Placed(g, left, right, link, x)
    ensures x <= g.numRight
  {
    SidesAgree(link, g.numLeft);
    assert Rights(link) <= Below(g.numRight);
    SubsetSize(Rights(link), Below(g.numRight));
  }

  lemma MergeNothing(path: seq<int>, marked: seq<bool>, link: seq<int>)
    requires |path| == |marked| == |link| && Marked(marked) == {}
    ensures Merge(path, marked, link) == link
  {
    assert forall y :: 0 <= y < |marked| && marked[y] ==> y in Marked(marked);
  }

  /** A successful search at the top level places x. */
  lemma FoundPlaces(g: WeightedBipartite, left: seq<int>, right: seq<int>, link0: seq<int>, x: nat,
      marked: seq<bool>, link: seq<int>)
    requires Placed(g, left, right, link0, x) && x < g.numLeft && Marked(marked) == {}
    requires Found(g, left, right, link0, marked, link0, link, x)
    ensures Placed(g, left, right, link, x + 1) && x < g.numRight
  {
    MergeNothing(link0, marked, link);
    hide Merge, Tight;
    assert Below(x) + {x} == Below(x + 1);
    NoMorePlaces(g, left, right, link, x + 1);
  }
}

/** Linear-programming duality for the assignment problem. */
module AssignmentDuality {
  import opened IndexSets
  import opened Matchings
  import opened AssignmentModel
  import opened AssignmentPhases

  /** A matching that uses every left vertex. */
  ghost predicate CoversLeft(g: WeightedBipartite, link: seq<int>) {
    |link| == g.numRight && IsMatching(link, g.numLeft) && Lefts(link) == Below(g.numLeft)
  }

  ghost function Weight(g: WeightedBipartite, link: seq<int>): int
    requires g.Valid() && |link| <= g.numRight && IsMatching(link, g.numLeft)
  {
    if |link| == 0 then 0 else
      var y := |link| - 1;
      Weight(g, link[..y]) + if link[y] == FREE then 0 else g.weight[link[y]][y]
  }

  ghost function PrefixSum(s: seq<int>, k: nat): int
    requires k <= |s|
  {
    if k == 0 then 0 else PrefixSum(s, k - 1) + s[k - 1]
  }

  /** The potentials of the matched left vertices. */
  ghost function LeftTotal(link: seq<int>, left: seq<int>): int
    requires IsMatching(link, |left|)
  {
    if |link| == 0 then 0 else
      var y := |link| - 1;
      LeftTotal(link[..y], left) + if link[y] == FREE then 0 else left[link[y]]
  }

  /** The potentials of the matched right vertices. */
  ghost function RightTotal(link: seq<int>, right: seq<int>): int
    requires |link| <= |right|
  {
    if |link| == 0 then 0 else
      var y := |link| - 1;
      RightTotal(link[..y], right) + if link[y] == FREE then 0 else right[y]
  }

  lemma {:induction false} WeightBound(g: WeightedBipartite, left: seq<int>, right: seq<int>, link: seq<int>)
    requires Feasible(g, left, right) && |link| <= g.numRight && IsMatching(link, g.numLeft)
    ensures Weight(g, link) <= LeftTotal(link, left) + RightTotal(link, right)
    ensures (forall y :: 0 <= y < |link| && link[y] != FREE ==> Tight(g, left, right, link[y], y)) ==>
      Weight(g, link) == LeftTotal(link, left) + RightTotal(link, right)
  {
    if |link| > 0 {
      var y := |link| - 1;
      WeightBound(g, left, right, link[..y]);
      assert forall z :: 0 <= z < y ==> link[..y][z] == link[z];
      if link[y] != FREE {
        assert Edge(g, link[y], y);
      }
    }
  }

  lemma {:induction false} RightTotalBound(link: seq<int>, right: seq<int>)
    requires |link| <= |right| && forall y :: 0 <= y < |link| ==> right[y] >= 0
    ensures RightTotal(link, right) <= PrefixSum(right, |link|)
    ensures (forall y :: 0 <= y < |link| && link[y] == FREE ==> right[y] == 0) ==>
        RightTotal(link, right) == PrefixSum(right, |link|)
  {
    if |link| > 0 {
      var y := |link| - 1;
      RightTotalBound(link[..y], right);
      assert forall z :: 0 <= z < y ==> link[..y][z] == link[z];
    }
  }

  lemma {:induction false} LeftTotalUnmatch(link: seq<int>, left: seq<int>, y: int)
    requires IsMatching(link, |left|) && 0 <= y < |link| && link[y] != FREE
    requires IsMatching(link[y := FREE], |left|)
    ensures LeftTotal(link, left) == LeftTotal(link[y := FREE], left) + left[link[y]]
  {
    var k := |link| - 1;
    if y < k {
      assert link[y := FREE][..k] == link[..k][y := FREE];
      LeftTotalUnmatch(link[..k], left, y);
    } else {
      assert link[y := FREE][..k] == link[..k];
    }
  }

  lemma {:induction false} LeftTotalOfNone(link: seq<int>, left: seq<int>)
    requires IsMatching(link, |left|) && Lefts(link) == {}
    ensures LeftTotal(link, left) == 0
  {
    if |link| > 0 {
      DropLast(link, |left|);
      LeftTotalOfNone(link[..|link| - 1], left);
    }
  }

  lemma FreeLast(link: seq<int>, left: seq<int>, k: nat) returns (rest: seq<int>)
    requires IsMatching(link, |left|) && 0 < k <= |left| && Lefts(link) == Below(k)
    ensures IsMatching(rest, |left|) && Lefts(rest) == Below(k - 1)
    ensures LeftTotal(link, left) == LeftTotal(rest, left) + left[k - 1]
  {
    var y := PartnerOf(link, k - 1);
    rest := link[y := FREE];
    Unmatch(link, |left|, y);
    assert Lefts(rest) == Below(k - 1);
    LeftTotalUnmatch(link, left, y);
  }

  /** Every matching that uses exactly the first k left vertices collects the same potentials there. */
  lemma {:induction false} LeftTotalOfCover(link: seq<int>, left: seq<int>, k: nat)
    requires IsMatching(link, |left|) && k <= |left| && Lefts(link) == Below(k)
    ensures LeftTotal(link, left) == PrefixSum(left, k)
    decreases k
  {
    if k == 0 {
      LeftTotalOfNone(link, left);
    } else {
      var rest := FreeLast(link, left, k);
      LeftTotalOfCover(rest, left, k - 1);
    }
  }

  /** No matching that uses every left vertex is heavier than a tight one with feasible potentials. */
  lemma Optimal(g: WeightedBipartite, left: seq<int>, right: seq<int>, link: seq<int>, other: seq<int>)
    requires Placed(g, left, right, link, g.numLeft) && CoversLeft(g, other)
    ensures Weight(g, other) <= Weight(g, link)
  {
    WeightBound(g, left, right, link);
    WeightBound(g, left, right, other);
    RightTotalBound(link, right);
    RightTotalBound(other, right);
    LeftTotalOfCover(link, left, g.numLeft);
    LeftTotalOfCover(other, left, g.numLeft);
  }

  /** With more left than right vertices there is no matching that uses every left vertex. */
  lemma NoCover(g: WeightedBipartite, link: seq<int>)
    requires g.numLeft > g.numRight
    ensures !CoversLeft(g, link)
  {
    if CoversLeft(g, link) {
      SidesAgree(link, g.numLeft);
      assert Rights(link) <= Below(g.numRight);
      SubsetSize(Rights(link), Below(g.numRight));
      assert false;
    }
  }
}

/** Assignments in plain words: one right vertex for each left vertex, no two the same. */
module Assignments {
  import opened IndexSets
  import opened Sums
  import opened Matchings
  import opened AssignmentModel
  import opened AssignmentDuality

  ghost predicate IsAssignment(g: WeightedBipartite, a: seq<int>) {
    && g.Valid() && |a| == g.numLeft
    && (forall x :: 0 <= x < |a| ==> 0 <= a[x] < g.numRight)
    && (forall x, z :: 0 <= x < z < |a| ==> a[x] != a[z])
  }

  ghost function AssignmentWeight(g: WeightedBipartite, a: seq<int>): int
    requires IsAssignment(g, a)
  {
    Sum(seq(|a|, x requires 0 <= x < |a| => g.weight[x][a[x]]))
  }

  /** The links from the right name the same pairs as the assignment from the left. */
  ghost predicate Inverse(g: WeightedBipartite, link: seq<int>, a: seq<int>) {
    && IsAssignment(g, a) && |link| == g.numRight
    && (forall y :: 0 <= y < |link| && link[y] != FREE ==> 0 <= link[y] < |a| && a[link[y]] == y)
    && (forall x :: 0 <= x < |a| ==> link[a[x]] == x)
  }

  lemma InverseCovers(g: WeightedBipartite, link: seq<int>, a: seq<int>)
    requires Inverse(g, link, a)
    ensures CoversLeft(g, link)
  {
    forall x | 0 <= x < g.numLeft
      ensures x in Lefts(link)
    {
      assert link[a[x]] == x;
    }
  }

  /** The weights of the pairs whose right vertex is below k, one for each left vertex. */
  ghost function WeightsBelow(g: WeightedBipartite, a: seq<int>, k: nat): seq<int>
    requires IsAssignment(g, a)
  {
    seq(|a|, x requires 0 <= x < |a| => if a[x] < k then g.weight[x][a[x]] else 0)
  }

  lemma {:induction false} WeightBelow(g: WeightedBipartite, link: seq<int>, a: seq<int>, k: nat)
    requires Inverse(g, link, a) && k <= |link| && IsMatching(link[..k], g.numLeft)
    ensures Weight(g, link[..k]) == Sum(WeightsBelow(g, a, k))
    decreases k
  {
    if k == 0 {
      SumZero(WeightsBelow(g, a, 0));
    } else {
      assert link[..k][..k - 1] == link[..k - 1];
      WeightBelow(g, link, a, k - 1);
      var x := link[k - 1];
      if x == FREE {
        assert forall z :: 0 <= z < |a| ==> a[z] != k - 1;
        assert WeightsBelow(g, a, k) == WeightsBelow(g, a, k - 1);
      } else {
        SumUpdate(WeightsBelow(g, a, k - 1), x, g.weight[x][k - 1]);
        assert WeightsBelow(g, a, k) == WeightsBelow(g, a, k - 1)[x := g.weight[x][k - 1]];
      }
    }
  }

  lemma InverseWeight(g: WeightedBipartite, link: seq<int>, a: seq<int>)
    requires Inverse(g, link, a)
    ensures CoversLeft(g, link) && Weight(g, link) == AssignmentWeight(g, a)
  {
    InverseCovers(g, link, a);
    assert link[..|link|] == link;
    WeightBelow(g, link, a, |link|);
    hide Weight, Sum;
    assert WeightsBelow(g, a, |link|) == seq(|a|, x requires 0 <= x < |a| => g.weight[x][a[x]]);
  }

  lemma LinkOf(g: WeightedBipartite, a: seq<int>) returns (link: seq<int>)
    requires IsAssignment(g, a)
    ensures Inverse(g, link, a)
  {
    link := seq(g.numRight, y => if exists x :: 0 <= x < |a| && a[x] == y then PlaceOf(a, y) else FREE);
    forall x | 0 <= x < |a|
      ensures link[a[x]] == x
    {
    }
  }

  ghost function PlaceOf(a: seq<int>, y: int): (x: int)
    requires exists x :: 0 <= x < |a| && a[x] == y
    ensures 0 <= x < |a| && a[x] == y
  {
    var x :| 0 <= x < |a| && a[x] == y;
    x
  }

  /** What bounds every covering matching bounds every assignment. */
  lemma AssignmentsBounded(g: WeightedBipartite, bound: int)
    requires g.Valid() && forall other :: CoversLeft(g, other) ==> Weight(g, other) <= bound
    ensures forall a :: IsAssignment(g, a) ==> AssignmentWeight(g, a) <= bound
  {
    forall a | IsAssignment(g, a)
      ensures AssignmentWeight(g, a) <= bound
    {
      var link := LinkOf(g, a);
      InverseWeight(g, link, a);
    }
  }
}

module WeightedBipartiteMatching {
  import opened IndexSets
  import opened Matchings
  import opened Assignments
  import opened AssignmentModel
  import opened AssignmentPhases
  import opened AssignmentDuality

  datatype BipartiteMatchPair = BipartiteMatchPair(vertexLeft: int, vertexRight: int)

  class WeightedBipartiteMaxMatch {
    var mBipartite: WeightedBipartite
    var mLinkY: seq<int>
    var mPotentialLeft: seq<int>
    var mPotentialRight: seq<int>
    var mSlack: seq<Slack>
    var mVisitedLeft: seq<bool>
    var mVisitedRight: seq<bool>

    ghost function CurrentMarks(): Marks
      reads this
    {
      Marks(mVisitedLeft, mVisitedRight, mSlack)
    }

    ghost predicate Matched(link: seq<int>)
      reads this
    {
      TightMatching(mBipartite, mPotentialLeft, mPotentialRight, link)
    }

    /**
     One alternating search. `path` is the matching with the search path so far already flipped, so
     that x is the vertex still to be placed; outside the marked vertices it is the current matching.
     */
    method Find(x: int, ghost path: seq<int>) returns (found: bool)
      requires Matched(mLinkY) && Searchable(mBipartite, mLinkY, CurrentMarks(), x, path)
      modifies this`mLinkY, this`mSlack, this`mVisitedLeft, this`mVisitedRight
      ensures CurrentMarks().Fits(mBipartite) && |mLinkY| == mBipartite.numRight
      ensures !found ==> mLinkY == old(mLinkY)
      ensures !found ==> Failed(mBipartite, mPotentialLeft, mPotentialRight, mLinkY, x, old(CurrentMarks()),
          CurrentMarks())
      ensures found ==> Found(mBipartite, mPotentialLeft, mPotentialRight, path, old(mVisitedRight), old(mLinkY),
          mLinkY, x)
      decreases Unmarked(mVisitedRight)
    {
      hide Forced, Found, IsMatching, Lefts;
      ghost var g, left, right := mBipartite, mPotentialLeft, mPotentialRight;
      ghost var start := CurrentMarks();
      ghost var link := mLinkY;
      StartExploring(g, left, right, link, x, start, path);
      mVisitedLeft := mVisitedLeft[x := true];
      var y := 0;
      while y < mBipartite.numRight
        invariant 0 <= y <= mBipartite.numRight
        invariant mLinkY == link
        invariant Exploring(g, left, right, link, x, start, CurrentMarks(), y)
      {
        ghost var before := CurrentMarks();
        if mVisitedRight[y] {
          SkipMarked(g, left, right, link, x, start, before, y);
        } else {
          var delta := mPotentialLeft[x] + mPotentialRight[y] - mBipartite.GetWeight(x, y);
          if delta == 0 {
            mVisitedRight := mVisitedRight[y := true];
            if mLinkY[y] == FREE {
              FoundAtFree(g, left, right, link, x, start, y, path);
              mLinkY := mLinkY[y := x];
              return true;
            }
            EnterBranch(g, left, right, link, x, start, before, y, path);
            found := Find(mLinkY[y], path[y := x]);
            if found {
              FoundThroughPartner(g, left, right, link, x, start, before, y, path, mLinkY);
              mLinkY := mLinkY[y := x];
              return;
            }
            ReturnFromBranch(g, left, right, link, x, start, before, y, CurrentMarks());
          } else {
            if Exceeds(mSlack[y], Finite(delta)) {
              mSlack := mSlack[y := Finite(delta)];
            }
            LowerSlack(g, left, right, link, x, start, before, y, mSlack[y]);
          }
        }
        y := y + 1;
      }
      found := false;
    }

    method Init()
      requires mBipartite.Valid() && mBipartite.numLeft <= mBipartite.numRight
      modifies this
      ensures mBipartite == old(mBipartite)
      ensures Placed(mBipartite, mPotentialLeft, mPotentialRight, mLinkY, 0)
      ensures CurrentMarks().Fits(mBipartite)
    {
      var n, m := mBipartite.numLeft, mBipartite.numRight;
      mLinkY := seq(m, _ => FREE);
      mPotentialRight := seq(m, _ => 0);
      mPotentialLeft := seq(n, _ => 0);
      for i := 0 to n
        invariant mBipartite == old(mBipartite)
        invariant mLinkY == seq(m, _ => FREE) && mPotentialRight == seq(m, _ => 0)
        invariant |mPotentialLeft| == n
        invariant forall x, y :: 0 <= x < i && 0 <= y < m ==> mBipartite.weight[x][y] <= mPotentialLeft[x]
      {
        var best := mBipartite.GetWeight(i, 0);
        for j := 1 to m
          invariant forall y :: 0 <= y < j ==> mBipartite.weight[i][y] <= best
        {
          best := if best < mBipartite.GetWeight(i, j) then mBipartite.GetWeight(i, j) else best;
        }
        mPotentialLeft := mPotentialLeft[i := best];
      }
      mSlack := seq(m, _ => Infinite);
      mVisitedLeft := seq(n, _ => false);
      mVisitedRight := seq(m, _ => false);
    }

    /** The least slack of an unmarked right vertex, and where it is. */
    method LeastUnmarkedSlack() returns (d: Slack, ghost y: int)
      requires CurrentMarks().Fits(mBipartite)
      ensures forall z :: 0 <= z < |mSlack| && !mVisitedRight[z] ==> !Exceeds(d, mSlack[z])
      ensures d.Finite? ==> 0 <= y < |mSlack| && !mVisitedRight[y] && mSlack[y] == d
    {
      d, y := Infinite, -1;
      for i := 0 to mBipartite.numRight
        invariant forall z :: 0 <= z < i && !mVisitedRight[z] ==> !Exceeds(d, mSlack[z])
        invariant d.Finite? ==> 0 <= y < i && !mVisitedRight[y] && mSlack[y] == d
      {
        if !mVisitedRight[i] && Exceeds(d, mSlack[i]) {
          d, y := mSlack[i], i;
        }
      }
    }

    method AdjustPotentials(d: int)
      requires CurrentMarks().Fits(mBipartite) && Labelled(mBipartite, mPotentialLeft, mPotentialRight)
      modifies this`mPotentialLeft, this`mPotentialRight, this`mSlack
      ensures mPotentialLeft == Lowered(old(mPotentialLeft), mVisitedLeft, d)
      ensures mPotentialRight == Raised(old(mPotentialRight), mVisitedRight, d)
      ensures mSlack == Reduce(old(mSlack), mVisitedRight, d)
    {
      for i := 0 to mBipartite.numLeft
        invariant mPotentialRight == old(mPotentialRight) && mSlack == old(mSlack)
        invariant |mPotentialLeft| == mBipartite.numLeft
        invariant mPotentialLeft[..i] == Lowered(old(mPotentialLeft), mVisitedLeft, d)[..i]
        invariant mPotentialLeft[i..] == old(mPotentialLeft)[i..]
      {
        if mVisitedLeft[i] {
          mPotentialLeft := mPotentialLeft[i := mPotentialLeft[i] - d];
        }
      }
      for i := 0 to mBipartite.numRight
        invariant mPotentialLeft == Lowered(old(mPotentialLeft), mVisitedLeft, d)
        invariant |mPotentialRight| == |mSlack| == mBipartite.numRight
        invariant mPotentialRight[..i] == Raised(old(mPotentialRight), mVisitedRight, d)[..i]
        invariant mPotentialRight[i..] == old(mPotentialRight)[i..]
        invariant mSlack[..i] == Reduce(old(mSlack), mVisitedRight, d)[..i]
        invariant mSlack[i..] == old(mSlack)[i..]
      {
        if mVisitedRight[i] {
          mPotentialRight := mPotentialRight[i := mPotentialRight[i] + d];
        } else {
          mSlack := mSlack[i := Minus(mSlack[i], d)];
        }
      }
    }

    ghost predicate PlacedBelow(x: nat)
      reads this
    {
      && CurrentMarks().Fits(mBipartite)
      && Placed(mBipartite, mPotentialLeft, mPotentialRight, mLinkY, x)
    }

    /** A search from x with cleared marks either places x or leaves everything but the marks alone. */
    method SearchFrom(x: nat) returns (found: bool, ghost start: Marks)
      requires PlacedBelow(x) && x < mBipartite.numLeft
      modifies this`mLinkY, this`mSlack, this`mVisitedLeft, this`mVisitedRight
      ensures found ==> PlacedBelow(x + 1) && x < mBipartite.numRight
      ensures !found ==> PlacedBelow(x) && mLinkY == old(mLinkY) && start.slack == old(mSlack)
      ensures !found ==> Marked(start.left) == {} && Marked(start.right) == {}
      ensures !found ==> Failed(mBipartite, mPotentialLeft, mPotentialRight, mLinkY, x, start, CurrentMarks())
    {
      mVisitedLeft := seq(|mVisitedLeft|, _ => false);
      mVisitedRight := seq(|mVisitedRight|, _ => false);
      start := CurrentMarks();
      ghost var g, left, right, link := mBipartite, mPotentialLeft, mPotentialRight, mLinkY;
      SearchableAtTop(g, left, right, link, x, start);
      found := Find(x, mLinkY);
      if found {
        FoundPlaces(g, left, right, link, x, start.right, mLinkY);
      }
    }

    /** What follows a failed search: the potentials move by the least slack of an unmarked right vertex. */
    method Relabel(x: nat, ghost start: Marks, ghost vl: set<int>, ghost vr: set<int>)
        returns (ghost vl': set<int>, ghost vr': set<int>)
      requires PlacedBelow(x) && x < mBipartite.numLeft <= mBipartite.numRight
      requires Staged(mBipartite, mPotentialLeft, mPotentialRight, mLinkY, x, start.slack, vl, vr)
      requires Failed(mBipartite, mPotentialLeft, mPotentialRight, mLinkY, x, start, CurrentMarks())
      requires Marked(start.left) == {} && Marked(start.right) == {}
      modifies this`mPotentialLeft, this`mPotentialRight, this`mSlack
      ensures PlacedBelow(x)
      ensures Staged(mBipartite, mPotentialLeft, mPotentialRight, mLinkY, x, mSlack, vl', vr')
      ensures vr < vr' <= Below(mBipartite.numRight)
    {
      ghost var g, left, right, link, marks := mBipartite, mPotentialLeft, mPotentialRight, mLinkY, CurrentMarks();
      FailedSaturates(g, left, right, link, x, start, marks, vl, vr);
      SomeRightUnmarked(g, left, right, link, x, marks.slack, Marked(marks.left), Marked(marks.right));
      ghost var y;
      var d;
      d, y := LeastUnmarkedSlack();
      LeastIsFinite(g, left, right, link, x, marks, d, y);
      Adjust(g, left, right, link, x, marks, d.value, y);
      AdjustPotentials(d.value);
      vl', vr' := Marked(marks.left), Marked(marks.right) + {y};
    }

    method ResetSlack(x: nat)
      requires PlacedBelow(x)
      modifies this`mSlack
      ensures PlacedBelow(x) && Staged(mBipartite, mPotentialLeft, mPotentialRight, mLinkY, x, mSlack, {}, {})
    {
      mSlack := seq(|mSlack|, _ => Infinite);
    }

    /**
     Searches from x, adjusting the potentials after every failed search, until x is matched. Each
     failed search marks more right vertices than the one before.
     */
    method PlaceVertex(x: nat)
      requires PlacedBelow(x) && x < mBipartite.numLeft <= mBipartite.numRight
      modifies this
      ensures mBipartite == old(mBipartite) && PlacedBelow(x + 1)
    {
      hide *;
      ResetSlack(x);
      ghost var vl, vr := {}, {};
      while true
        invariant mBipartite == old(mBipartite) && PlacedBelow(x)
        invariant Staged(mBipartite, mPotentialLeft, mPotentialRight, mLinkY, x, mSlack, vl, vr)
        decreases Below(mBipartite.numRight) - vr
      {
        var found;
        ghost var start;
        found, start := SearchFrom(x);
        if found {
          break;
        }
        vl, vr := Relabel(x, start, vl, vr);
      }
    }

    /**
     The Kuhn-Munkres algorithm. The result is the weight of a matching that uses every left vertex,
     no such matching is heavier, and maxMatch lists the matching by increasing left vertex.
     */
    method ComputeMaxMatch(bipartite: WeightedBipartite) returns (result: int, maxMatch: seq<BipartiteMatchPair>)
      requires bipartite.Valid() && bipartite.numLeft <= bipartite.numRight
      modifies this
      ensures mBipartite == bipartite && CoversLeft(bipartite, mLinkY)
      ensures result == Weight(bipartite, mLinkY)
      ensures forall other :: CoversLeft(bipartite, other) ==> Weight(bipartite, other) <= result
      ensures ListsMatching(mLinkY, maxMatch)
      ensures forall x :: 0 <= x < |maxMatch| ==> maxMatch[x].vertexLeft == x
      ensures IsAssignment(bipartite, Partners(maxMatch)) && result == AssignmentWeight(bipartite, Partners(maxMatch))
      ensures forall a :: IsAssignment(bipartite, a) ==> AssignmentWeight(bipartite, a) <= result
    {
      hide Weight, CoversLeft, IsAssignment, AssignmentWeight, ListsMatching;
      mBipartite := bipartite;
      Init();
      for x := 0 to bipartite.numLeft
        invariant mBipartite == bipartite && PlacedBelow(x)
      {
        PlaceVertex(x);
      }
      ghost var link := mLinkY;
      PlacedMatches(bipartite, mPotentialLeft, mPotentialRight, link);
      result, maxMatch := CollectMatch();
      ListIsAssignment(bipartite, link, maxMatch);
      AssignmentsBounded(bipartite, result);
    }

    method CollectMatch() returns (result: int, maxMatch: seq<BipartiteMatchPair>)
      requires mBipartite.Valid() && |mLinkY| == mBipartite.numRight && IsMatching(mLinkY, mBipartite.numLeft)
      ensures result == Weight(mBipartite, mLinkY)
      ensures ListsMatching(mLinkY, maxMatch)
    {
      hide Weight, Listed, ListsMatching;
      result, maxMatch := 0, [];
      NothingCollected(mBipartite, mLinkY);
      for i := 0 to mBipartite.numRight
        invariant IsMatching(mLinkY[..i], mBipartite.numLeft)
        invariant result == Weight(mBipartite, mLinkY[..i]) && Listed(mLinkY, maxMatch, i)
      {
        WeightNext(mBipartite, mLinkY, i);
        ListedNext(mLinkY, maxMatch, i);
        if mLinkY[i] != FREE {
          maxMatch := maxMatch + [BipartiteMatchPair(mLinkY[i], i)];
          result := result + mBipartite.GetWeight(mLinkY[i], i);
        }
      }
      assert mLinkY[..mBipartite.numRight] == mLinkY;
      ListedDistinct(mLinkY, maxMatch, mBipartite.numLeft);
      ghost var listed := maxMatch;
      maxMatch := SortByLeft(maxMatch);
      ListedSorted(mLinkY, listed, maxMatch);
    }
  }

  ghost predicate Pairs(link: seq<int>, p: BipartiteMatchPair) {
    0 <= p.vertexRight < |link| && link[p.vertexRight] == p.vertexLeft != FREE
  }

  ghost predicate SortedByLeft(s: seq<BipartiteMatchPair>) {
    forall j, k :: 0 <= j < k < |s| ==> s[j].vertexLeft < s[k].vertexLeft
  }

  /** The list holds the matched pairs, each once, by increasing left vertex. */
  ghost predicate ListsMatching(link: seq<int>, s: seq<BipartiteMatchPair>) {
    && SortedByLeft(s)
    && (forall p :: p in s ==> Pairs(link, p))
    && (forall y :: 0 <= y < |link| && link[y] != FREE ==> BipartiteMatchPair(link[y], y) in s)
  }

  /** The right vertices of the list, in its order. */
  ghost function Partners(s: seq<BipartiteMatchPair>): seq<int> {
    seq(|s|, x requires 0 <= x < |s| => s[x].vertexRight)
  }

  lemma PlacedMatches(g: WeightedBipartite, left: seq<int>, right: seq<int>, link: seq<int>)
    requires Placed(g, left, right, link, g.numLeft)
    ensures |link| == g.numRight && IsMatching(link, g.numLeft) && CoversLeft(g, link)
    ensures forall other :: CoversLeft(g, other) ==> Weight(g, other) <= Weight(g, link)
  {
    forall other | CoversLeft(g, other)
      ensures Weight(g, other) <= Weight(g, link)
    {
      Optimal(g, left, right, link, other);
    }
  }

  ghost predicate HasLeft(s: seq<BipartiteMatchPair>, x: int) {
    exists k :: 0 <= k < |s| && s[k].vertexLeft == x
  }

  /** A strictly increasing list of all numbers below n has number x at place x. */
  lemma {:induction false} InPlace(s: seq<BipartiteMatchPair>, n: nat, j: nat)
    requires SortedByLeft(s) && j < |s|
    requires forall k :: 0 <= k < |s| ==> 0 <= s[k].vertexLeft < n
    requires forall x :: 0 <= x < n ==> HasLeft(s, x)
    ensures s[j].vertexLeft == j
    decreases j
  {
    if j > 0 {
      InPlace(s, n, j - 1);
    }
    assert s[j].vertexLeft >= j;
    assert HasLeft(s, j);
    var k :| 0 <= k < |s| && s[k].vertexLeft == j;
  }

  lemma LeftsListed(g: WeightedBipartite, link: seq<int>, s: seq<BipartiteMatchPair>)
    requires g.Valid() && CoversLeft(g, link) && ListsMatching(link, s)
    ensures SortedByLeft(s)
    ensures forall k :: 0 <= k < |s| ==> 0 <= s[k].vertexLeft < g.numLeft
    ensures forall x :: 0 <= x < g.numLeft ==> HasLeft(s, x)
  {
    forall k | 0 <= k < |s|
      ensures 0 <= s[k].vertexLeft < g.numLeft
    {
      assert Pairs(link, s[k]);
    }
    forall x | 0 <= x < g.numLeft
      ensures HasLeft(s, x)
    {
      assert x in Lefts(link);
      var y :| 0 <= y < |link| && link[y] == x;
      assert BipartiteMatchPair(link[y], y) in s;
      var k :| 0 <= k < |s| && s[k] == BipartiteMatchPair(link[y], y);
      assert s[k].vertexLeft == x;
    }
  }

  /** The list of a covering matching is an assignment of its weight. */
  lemma ListIsAssignment(g: WeightedBipartite, link: seq<int>, s: seq<BipartiteMatchPair>)
    requires g.Valid() && CoversLeft(g, link) && ListsMatching(link, s)
    ensures forall x :: 0 <= x < |s| ==> s[x].vertexLeft == x
    ensures IsAssignment(g, Partners(s)) && Weight(g, link) == AssignmentWeight(g, Partners(s))
  {
    hide CoversLeft, ListsMatching, SortedByLeft, HasLeft, IsAssignment, AssignmentWeight, Weight;
    LeftsListed(g, link, s);
    AllListed(s, g.numLeft);
    ListInverse(g, link, s);
    InverseWeight(g, link, Partners(s));
  }

  lemma AllListed(s: seq<BipartiteMatchPair>, n: nat)
    requires SortedByLeft(s)
    requires forall k :: 0 <= k < |s| ==> 0 <= s[k].vertexLeft < n
    requires forall x :: 0 <= x < n ==> HasLeft(s, x)
    ensures |s| == n && forall k :: 0 <= k < |s| ==> s[k].vertexLeft == k
  {
    forall j | 0 <= j < |s|
      ensures s[j].vertexLeft == j
    {
      InPlace(s, n, j);
    }
    assert !HasLeft(s, |s|);
    assert |s| > 0 ==> s[|s| - 1].vertexLeft == |s| - 1;
  }

  lemma ListInverse(g: WeightedBipartite, link: seq<int>, s: seq<BipartiteMatchPair>)
    requires g.Valid() && CoversLeft(g, link) && ListsMatching(link, s) && |s| == g.numLeft
    requires forall k :: 0 <= k < |s| ==> s[k].vertexLeft == k
    ensures Inverse(g, link, Partners(s))
  {
    var a := Partners(s);
    forall x | 0 <= x < |s|
      ensures 0 <= a[x] < g.numRight && link[a[x]] == x
    {
      assert Pairs(link, s[x]);
    }
    forall y | 0 <= y < |link| && link[y] != FREE
      ensures 0 <= link[y] < |a| && a[link[y]] == y
    {
      var p := BipartiteMatchPair(link[y], y);
      var k :| 0 <= k < |s| && s[k] == p;
    }
  }

  /** The pairs of the right vertices below i, in order. */
  ghost predicate Listed(link: seq<int>, s: seq<BipartiteMatchPair>, i: nat) {
    && (forall p :: p in s ==> Pairs(link, p))
    && (forall y :: 0 <= y < i && y < |link| && link[y] != FREE ==> BipartiteMatchPair(link[y], y) in s)
    && (forall j, k :: 0 <= j < k < |s| ==> s[j].vertexRight < s[k].vertexRight)
    && (forall j :: 0 <= j < |s| ==> s[j].vertexRight < i)
  }

  lemma NothingCollected(g: WeightedBipartite, link: seq<int>)
    requires g.Valid()
    ensures Listed(link, [], 0) && IsMatching(link[..0], g.numLeft) && Weight(g, link[..0]) == 0
  {
  }

  lemma WeightNext(g: WeightedBipartite, link: seq<int>, i: nat)
    requires g.Valid() && i < |link| <= g.numRight && IsMatching(link, g.numLeft)
    ensures IsMatching(link[..i], g.numLeft) && IsMatching(link[..i + 1], g.numLeft)
    ensures Weight(g, link[..i + 1]) == Weight(g, link[..i]) + if link[i] == FREE then 0 else g.weight[link[i]][i]
  {
    assert link[..i + 1][..i] == link[..i];
  }

  lemma ListedNext(link: seq<int>, s: seq<BipartiteMatchPair>, i: nat)
    requires i < |link| && Listed(link, s, i)
    ensures Listed(link, if link[i] == FREE then s else s + [BipartiteMatchPair(link[i], i)], i + 1)
  {
  }

  lemma ListedDistinct(link: seq<int>, s: seq<BipartiteMatchPair>, numLeft: nat)
    requires IsMatching(link, numLeft) && Listed(link, s, |link|)
    ensures forall j, k :: 0 <= j < k < |s| ==> s[j].vertexLeft != s[k].vertexLeft
  {
    assert forall j, k :: 0 <= j < k < |s| ==> Pairs(link, s[j]) && Pairs(link, s[k]);
  }

  lemma ListedSorted(link: seq<int>, s: seq<BipartiteMatchPair>, sorted: seq<BipartiteMatchPair>)
    requires Listed(link, s, |link|) && SortedByLeft(sorted) && forall p :: p in sorted <==> p in s
    ensures ListsMatching(link, sorted)
  {
  }

  /** Stands for the library sort of pairs with different left vertices. */
  method SortByLeft(pairs: seq<BipartiteMatchPair>) returns (sorted: seq<BipartiteMatchPair>)
    requires forall j, k :: 0 <= j < k < |pairs| ==> pairs[j].vertexLeft != pairs[k].vertexLeft
    ensures SortedByLeft(sorted)
    ensures forall p :: p in sorted <==> p in pairs
  {
    sorted := [];
    for i := 0 to |pairs|
      invariant SortedByLeft(sorted)
      invariant forall p :: p in sorted <==> p in pairs[..i]
    {
      var k := PlaceByLeft(sorted, pairs[i]);
      NextDiffers(pairs, sorted, i);
      InsertPair(sorted, pairs[i], k);
      assert pairs[..i + 1] == pairs[..i] + [pairs[i]];
      sorted := sorted[..k] + [pairs[i]] + sorted[k..];
    }
    assert pairs[..|pairs|] == pairs;
  }

  method PlaceByLeft(sorted: seq<BipartiteMatchPair>, pair: BipartiteMatchPair) returns (k: nat)
    requires SortedByLeft(sorted)
    ensures k <= |sorted|
    ensures forall j :: 0 <= j < k ==> sorted[j].vertexLeft <= pair.vertexLeft
    ensures forall j :: k <= j < |sorted| ==> pair.vertexLeft < sorted[j].vertexLeft
  {
    k := |sorted|;
    while k > 0 && pair.vertexLeft < sorted[k - 1].vertexLeft
      invariant 0 <= k <= |sorted|
      invariant forall j :: k <= j < |sorted| ==> pair.vertexLeft < sorted[j].vertexLeft
    {
      k := k - 1;
    }
  }

  lemma NextDiffers(pairs: seq<BipartiteMatchPair>, sorted: seq<BipartiteMatchPair>, i: nat)
    requires i < |pairs| && forall j, k :: 0 <= j < k < |pairs| ==> pairs[j].vertexLeft != pairs[k].vertexLeft
    requires forall p :: p in sorted <==> p in pairs[..i]
    ensures forall j :: 0 <= j < |sorted| ==> sorted[j].vertexLeft != pairs[i].vertexLeft
  {
    forall j | 0 <= j < |sorted|
      ensures sorted[j].vertexLeft != pairs[i].vertexLeft
    {
      assert sorted[j] in pairs[..i];
    }
  }

  lemma InsertPair(s: seq<BipartiteMatchPair>, pair: BipartiteMatchPair, k: nat)
    requires SortedByLeft(s) && k <= |s|
    requires forall j :: 0 <= j < k ==> s[j].vertexLeft < pair.vertexLeft
    requires forall j :: k <= j < |s| ==> pair.vertexLeft < s[j].vertexLeft
    ensures SortedByLeft(s[..k] + [pair] + s[k..])
    ensures forall p :: p in s[..k] + [pair] + s[k..] <==> p in s || p == pair
  {
    assert s == s[..k] + s[k..];
  }
}
