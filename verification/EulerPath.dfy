/** Hierholzer's algorithm by depth-first search on a directed multigraph. */
module Trails {
  import opened Sums
  import opened Digraph

  ghost function Out(g: Counts, u: int): int
    requires 0 <= u < |g|
  {
    Sum(g[u])
  }

  ghost function In(g: Counts, v: int): int
    requires Square(g) && 0 <= v < |g|
  {
    ColumnSum(g, v)
  }

  ghost function Excess(g: Counts, a: int): int
    requires Square(g) && 0 <= a < |g|
  {
    Out(g, a) - In(g, a)
  }

  ghost function One(b: bool): int {
    if b then 1 else 0
  }

  /** The degrees of a graph whose edges could form one trail from s to t. */
  ghost predicate FromTo(g: Counts, s: int, t: int) {
    IsCounts(g) && forall a :: 0 <= a < |g| ==> Excess(g, a) == One(a == s) - One(a == t)
  }

  ghost function Total(rows: Counts): int {
    if |rows| == 0 then 0 else Total(rows[..|rows| - 1]) + Sum(rows[|rows| - 1])
  }

  lemma {:induction false} TotalUpdate(rows: Counts, u: int, row: seq<int>)
    requires 0 <= u < |rows|
    ensures Total(rows[u := row]) == Total(rows) - Sum(rows[u]) + Sum(row)
    decreases |rows|
  {
    var k := |rows| - 1;
    if u < k {
      assert rows[u := row][..k] == rows[..k][u := row];
      TotalUpdate(rows[..k], u, row);
    } else {
      assert rows[u := row][..k] == rows[..k];
    }
  }

  lemma {:induction false} TotalNatural(rows: Counts)
    requires forall u, v :: 0 <= u < |rows| && 0 <= v < |rows[u]| ==> rows[u][v] >= 0
    ensures Total(rows) >= 0
    decreases |rows|
  {
    if |rows| > 0 {
      var k := |rows| - 1;
      assert forall u, v :: 0 <= u < k && 0 <= v < |rows[..k][u]| ==> rows[..k][u][v] == rows[u][v];
      TotalNatural(rows[..k]);
      SumZero(rows[k]);
    }
  }

  /** Taking the edge (u, v) out changes two degrees and the total by one. */
  lemma DegreesAfterRemove(g: Counts, u: int, v: int)
    requires Square(g) && 0 <= u < |g| && 0 <= v < |g|
    ensures forall a :: 0 <= a < |g| ==> Excess(Add(g, u, v, -1), a) == Excess(g, a) - One(a == u) + One(a == v)
    ensures Total(Add(g, u, v, -1)) == Total(g) - 1
  {
    var row := g[u][v := g[u][v] - 1];
    assert Add(g, u, v, -1) == g[u := row];
    SumUpdate(g[u], v, g[u][v] - 1);
    TotalUpdate(g, u, row);
    forall a | 0 <= a < |g|
      ensures Excess(Add(g, u, v, -1), a) == Excess(g, a) - One(a == u) + One(a == v)
    {
      ColumnSumUpdate(g, u, row, a);
    }
  }

  lemma TakenIsCounts(g: Counts, u: int, v: int)
    requires IsCounts(g) && 0 <= u < |g| && 0 <= v < |g| && g[u][v] > 0
    ensures IsCounts(Add(g, u, v, -1)) && Total(Add(g, u, v, -1)) >= 0
  {
    TotalNatural(Add(g, u, v, -1));
  }

  /** Taking the edge (u, v) moves the start of the outstanding trail from u to v. */
  lemma TakeEdge(g: Counts, u: int, v: int, t: int)
    requires FromTo(g, u, t) && 0 <= u < |g| && 0 <= v < |g| && g[u][v] > 0
    ensures FromTo(Add(g, u, v, -1), v, t)
    ensures 0 <= Total(Add(g, u, v, -1)) < Total(g)
  {
    hide Excess;
    DegreesAfterRemove(g, u, v);
    TakenIsCounts(g, u, v);
  }

  // ----- Trails -----

  /** How often the trail goes from a straight to b. */
  ghost function Steps(trail: seq<int>, a: int, b: int): nat {
    if |trail| < 2 then 0 else One(trail[0] == a && trail[1] == b) + Steps(trail[1..], a, b)
  }

  lemma {:induction false} StepsOfJoin(x: seq<int>, y: seq<int>, a: int, b: int)
    requires |x| > 0 && |y| > 0 && x[|x| - 1] == y[0]
    ensures Steps(x + y[1..], a, b) == Steps(x, a, b) + Steps(y, a, b)
    decreases |x|
  {
    if |x| == 1 {
      assert x + y[1..] == y;
    } else {
      StepsOfJoin(x[1..], y, a, b);
      assert (x + y[1..])[1..] == x[1..] + y[1..];
    }
  }

  /** `trail` accounts exactly for what was taken out of g to leave h. */
  ghost predicate Accounts(g: Counts, h: Counts, trail: seq<int>) {
    && |g| == |h| && Square(g) && Square(h)
    && forall a, b :: 0 <= a < |g| && 0 <= b < |g| ==> g[a][b] == h[a][b] + Steps(trail, a, b)
  }

  ghost predicate Exhausted(h: Counts, a: int) {
    0 <= a < |h| && Square(h) && forall b :: 0 <= b < |h| ==> h[a][b] == 0
  }

  ghost predicate AllExhausted(h: Counts, trail: seq<int>) {
    forall i :: 0 <= i < |trail| ==> Exhausted(h, trail[i])
  }

  /** A trail from s to t has been taken out of g, and no edge leaves any of its vertices any more. */
  ghost predicate Walked(g: Counts, h: Counts, trail: seq<int>, s: int, t: int) {
    && IsCounts(h) && Accounts(g, h, trail)
    && |trail| > 0 && trail[0] == s && trail[|trail| - 1] == t
    && AllExhausted(h, trail) && FromTo(h, s, s)
  }

  /**
   The frame of u has looked at its neighbours below v. `trail` is what its finished children make up,
   spliced at u; before the first child it is just [u].
   */
  ghost predicate Frame(g: Counts, h: Counts, trail: seq<int>, u: int, t: int, v: int) {
    && IsCounts(h) && Accounts(g, h, trail) && 0 <= u < |h| && 0 <= v <= |h|
    && |trail| > 0 && trail[0] == u
    && (forall b :: 0 <= b < v ==> h[u][b] == 0)
    && AllExhausted(h, trail[1..])
    && (if |trail| == 1 then FromTo(h, u, t) else FromTo(h, u, u) && trail[|trail| - 1] == t)
  }

  lemma StartFrame(g: Counts, u: int, t: int)
    requires FromTo(g, u, t) && 0 <= u < |g|
    ensures Frame(g, g, [u], u, t, 0)
  {
  }

  lemma SkipNeighbour(g: Counts, h: Counts, trail: seq<int>, u: int, t: int, v: int)
    requires Frame(g, h, trail, u, t, v) && v < |h| && h[u][v] <= 0
    ensures Frame(g, h, trail, u, t, v + 1)
  {
  }

  /** No edge leaves v and all degrees agree, so none enters it either. */
  lemma NothingLeft(h: Counts, v: int, s: int)
    requires FromTo(h, s, s) && Exhausted(h, v)
    ensures forall a :: 0 <= a < |h| ==> h[a][v] == 0
  {
    SumZero(h[v]);
    assert Excess(h, v) == 0;
    ColumnSumZero(h, v);
  }

  lemma ExhaustedStays(g: Counts, h: Counts, trail: seq<int>, a: int)
    requires IsCounts(h) && Accounts(g, h, trail) && Exhausted(g, a)
    ensures Exhausted(h, a)
  {
  }

  /** What the frame of u still has to go back to when it follows its next edge. */
  ghost function Target(trail: seq<int>, u: int, t: int): int {
    if |trail| == 1 then t else u
  }

  /** The trail of a finished child v is spliced in at u; no edge from u to v is left, whatever its multiplicity was. */
  lemma SpliceChild(g: Counts, h: Counts, trail: seq<int>, u: int, t: int, v: int, child: seq<int>, h': Counts)
    requires Frame(g, h, trail, u, t, v) && v < |h| && h[u][v] > 0
    requires Walked(Add(h, u, v, -1), h', child, v, Target(trail, u, t))
    ensures Frame(g, h', [u] + child + trail[1..], u, t, v + 1)
  {
    var h1 := Add(h, u, v, -1);
    var after := [u] + child + trail[1..];
    SpliceAccounts(g, h, trail, u, v, child, h');
    NothingLeft(h', v, v);
    forall i | 0 <= i < |after[1..]|
      ensures Exhausted(h', after[1..][i])
    {
      if i < |child| {
        assert Exhausted(h', child[i]);
      } else {
        var a := trail[1..][i - |child|];
        assert Exhausted(h, a) && Exhausted(h1, a);
        ExhaustedStays(h1, h', child, a);
      }
    }
    forall b | 0 <= b < v + 1
      ensures h'[u][b] == 0
    {
      if b < v {
        assert h1[u][b] == 0;
      }
    }
  }

  lemma SpliceAccounts(g: Counts, h: Counts, trail: seq<int>, u: int, v: int, child: seq<int>, h': Counts)
    requires Accounts(g, h, trail) && |trail| > 0 && trail[0] == u && 0 <= u < |h| && 0 <= v < |h|
    requires Accounts(Add(h, u, v, -1), h', child) && |child| > 0 && child[0] == v
    requires |trail| > 1 ==> child[|child| - 1] == u
    ensures Accounts(g, h', [u] + child + trail[1..])
  {
    var after := [u] + child + trail[1..];
    forall a, b | 0 <= a < |g| && 0 <= b < |g|
      ensures g[a][b] == h'[a][b] + Steps(after, a, b)
    {
      assert ([u] + child)[1..] == child;
      assert Steps([u] + child, a, b) == One(u == a && v == b) + Steps(child, a, b);
      if |trail| > 1 {
        StepsOfJoin([u] + child, trail, a, b);
      } else {
        assert after == [u] + child;
      }
      assert Add(h, u, v, -1)[a][b] == h[a][b] - One(u == a && v == b);
    }
  }

  /** When all neighbours have been looked at, the frame has walked its whole trail. */
  lemma EndFrame(g: Counts, h: Counts, trail: seq<int>, u: int, t: int)
    requires Frame(g, h, trail, u, t, |h|)
    ensures Walked(g, h, trail, u, t)
  {
    assert Exhausted(h, u);
    if |trail| == 1 {
      SumZero(h[u]);
      ColumnSumZero(h, u);
      assert Excess(h, u) == One(true) - One(u == t);
    }
    forall i | 0 <= i < |trail|
      ensures Exhausted(h, trail[i])
    {
      if i > 0 {
        assert trail[i] == trail[1..][i - 1];
      }
    }
  }

  // ----- What a walked trail covers -----

  ghost predicate IsWalk(g: Counts, w: seq<int>) {
    && |w| > 0 && Square(g)
    && (forall i :: 0 <= i < |w| ==> 0 <= w[i] < |g|)
    && (forall i :: 0 <= i < |w| - 1 ==> g[w[i]][w[i + 1]] > 0)
  }

  ghost predicate Reachable(g: Counts, s: int, a: int) {
    exists w :: IsWalk(g, w) && w[0] == s && w[|w| - 1] == a
  }

  /** A trail from s to t that uses every edge reachable from s as often as it occurs, and no other. */
  ghost predicate IsEulerTrail(g: Counts, trail: seq<int>, s: int, t: int) {
    && Square(g) && |trail| > 0 && trail[0] == s && trail[|trail| - 1] == t
    && (forall i :: 0 <= i < |trail| ==> 0 <= trail[i] < |g|)
    && forall a, b :: 0 <= a < |g| && 0 <= b < |g| ==> Steps(trail, a, b) == if Reachable(g, s, a) then g[a][b] else 0
  }

  lemma {:induction false} StepEnds(trail: seq<int>, a: int, b: int)
    requires Steps(trail, a, b) > 0
    ensures a in trail && b in trail
    decreases |trail|
  {
    if !(trail[0] == a && trail[1] == b) {
      StepEnds(trail[1..], a, b);
    }
  }

  lemma {:induction false} StepTaken(trail: seq<int>, i: nat)
    requires i + 1 < |trail|
    ensures Steps(trail, trail[i], trail[i + 1]) > 0
    decreases i
  {
    if i > 0 {
      StepTaken(trail[1..], i - 1);
    }
  }

  /** Everything reachable from the start of a walked trail lies on it. */
  lemma {:induction false} WalkStaysOnTrail(g: Counts, h: Counts, trail: seq<int>, w: seq<int>, i: nat)
    requires Accounts(g, h, trail) && AllExhausted(h, trail)
    requires IsWalk(g, w) && w[0] in trail && i < |w|
    ensures w[i] in trail
    decreases i
  {
    if i > 0 {
      WalkStaysOnTrail(g, h, trail, w, i - 1);
      var k :| 0 <= k < |trail| && trail[k] == w[i - 1];
      assert Exhausted(h, trail[k]);
      assert g[w[i - 1]][w[i - 1 + 1]] > 0;
      StepEnds(trail, w[i - 1], w[i]);
    }
  }

  lemma TrailReachable(g: Counts, h: Counts, trail: seq<int>, i: nat)
    requires IsCounts(h) && Accounts(g, h, trail) && AllExhausted(h, trail) && i < |trail|
    ensures Reachable(g, trail[0], trail[i])
  {
    var w := trail[..i + 1];
    forall k | 0 <= k < |w|
      ensures 0 <= w[k] < |g|
    {
      assert Exhausted(h, trail[k]);
    }
    forall k | 0 <= k < |w| - 1
      ensures g[w[k]][w[k + 1]] > 0
    {
      StepTaken(trail, k);
      assert Exhausted(h, trail[k]) && Exhausted(h, trail[k + 1]);
    }
    assert IsWalk(g, w) && w[0] == trail[0] && w[|w| - 1] == trail[i];
  }

  /** A walked trail is an Euler trail of what is reachable from its start. */
  lemma WalkedIsEulerTrail(g: Counts, h: Counts, trail: seq<int>, s: int, t: int)
    requires Walked(g, h, trail, s, t)
    ensures IsEulerTrail(g, trail, s, t)
  {
    forall i | 0 <= i < |trail|
      ensures 0 <= trail[i] < |g|
    {
      assert Exhausted(h, trail[i]);
    }
    forall a, b | 0 <= a < |g| && 0 <= b < |g|
      ensures Steps(trail, a, b) == if Reachable(g, s, a) then g[a][b] else 0
    {
      if Reachable(g, s, a) {
        var w :| IsWalk(g, w) && w[0] == s && w[|w| - 1] == a;
        WalkStaysOnTrail(g, h, trail, w, |w| - 1);
        var k :| 0 <= k < |trail| && trail[k] == a;
        assert Exhausted(h, trail[k]);
      } else if Steps(trail, a, b) > 0 {
        StepEnds(trail, a, b);
        var k :| 0 <= k < |trail| && trail[k] == a;
        TrailReachable(g, h, trail, k);
        assert false;
      }
    }
  }

  // ----- The degree check -----

  ghost predicate DegreePasses(g: Counts, i: int, s: int, f: int)
    requires Square(g) && 0 <= i < |g|
  {
    Excess(g, i) == 0 || (i == s && Excess(g, i) == 1) || (i == f && Excess(g, i) == -1)
  }

  ghost predicate DegreesPass(g: Counts, s: int, f: int)
    requires Square(g)
  {
    forall i :: 0 <= i < |g| ==> DegreePasses(g, i, s, f)
  }

  /** Where the trail from s ends: at s itself when s is balanced. */
  ghost function EndOfTrail(g: Counts, s: int, f: int): int
    requires Square(g) && 0 <= s < |g|
  {
    if Excess(g, s) == 0 then s else f
  }

  ghost function ExcessSum(g: Counts, k: nat): int
    requires Square(g) && k <= |g|
  {
    if k == 0 then 0 else ExcessSum(g, k - 1) + Excess(g, k - 1)
  }

  ghost function OutSum(rows: Counts, k: nat): int
    requires k <= |rows|
  {
    if k == 0 then 0 else OutSum(rows, k - 1) + Sum(rows[k - 1])
  }

  ghost function InSum(rows: Counts, k: nat): int
    requires forall u :: 0 <= u < |rows| ==> k <= |rows[u]|
  {
    if k == 0 then 0 else InSum(rows, k - 1) + ColumnSum(rows, k - 1)
  }

  lemma {:induction false} InSumOfRows(rows: Counts, k: nat)
    requires |rows| > 0 && forall u :: 0 <= u < |rows| ==> k <= |rows[u]|
    ensures InSum(rows, k) == InSum(rows[..|rows| - 1], k) + Sum(rows[|rows| - 1][..k])
    decreases k
  {
    if k > 0 {
      InSumOfRows(rows, k - 1);
      assert rows[|rows| - 1][..k][..k - 1] == rows[|rows| - 1][..k - 1];
    } else {
      assert rows[|rows| - 1][..0] == [];
    }
  }

  lemma {:induction false} InSumOfNone(k: nat)
    ensures InSum([], k) == 0
    decreases k
  {
    if k > 0 {
      InSumOfNone(k - 1);
    }
  }

  /** Counting edges by their tails or by their heads gives the same number. */
  lemma {:induction false} HandShake(rows: Counts, n: nat)
    requires forall u :: 0 <= u < |rows| ==> |rows[u]| == n
    ensures InSum(rows, n) == Total(rows)
    decreases |rows|
  {
    if |rows| == 0 {
      InSumOfNone(n);
    } else {
      InSumOfRows(rows, n);
      assert rows[|rows| - 1][..n] == rows[|rows| - 1];
      HandShake(rows[..|rows| - 1], n);
    }
  }

  lemma {:induction false} OutSumIsTotal(rows: Counts, k: nat)
    requires k <= |rows|
    ensures OutSum(rows, k) == Total(rows[..k])
    decreases k
  {
    if k > 0 {
      OutSumIsTotal(rows, k - 1);
      assert rows[..k][..k - 1] == rows[..k - 1];
    }
  }

  lemma {:induction false} ExcessSumSplits(g: Counts, k: nat)
    requires Square(g) && k <= |g|
    ensures ExcessSum(g, k) == OutSum(g, k) - InSum(g, k)
    decreases k
  {
    if k > 0 {
      ExcessSumSplits(g, k - 1);
    }
  }

  lemma {:induction false} ExcessSumOfTwo(g: Counts, k: nat, s: int, f: int)
    requires Square(g) && k <= |g| && s != f
    requires forall i :: 0 <= i < k && i != s && i != f ==> Excess(g, i) == 0
    ensures ExcessSum(g, k) == (if 0 <= s < k then Excess(g, s) else 0) + (if 0 <= f < k then Excess(g, f) else 0)
    decreases k
  {
    if k > 0 {
      ExcessSumOfTwo(g, k - 1, s, f);
    }
  }

  /** The degree check passes only for the degrees of a trail. */
  lemma PassingDegrees(g: Counts, s: int, f: int)
    requires IsCounts(g) && 0 <= s < |g| && DegreesPass(g, s, f)
    ensures FromTo(g, s, EndOfTrail(g, s, f))
  {
    HandShake(g, |g|);
    OutSumIsTotal(g, |g|);
    assert g[..|g|] == g;
    ExcessSumSplits(g, |g|);
    forall i | 0 <= i < |g| && i != s && i != f
      ensures Excess(g, i) == 0
    {
      assert DegreePasses(g, i, s, f);
    }
    ExcessSumOfTwo(g, |g|, s, if f == s then -1 else f);
    assert DegreePasses(g, s, s, f);
    assert 0 <= f < |g| ==> DegreePasses(g, f, s, f);
  }

  // ----- The degree check turns away no graph that has a trail -----

  /** The trail goes from s to t and uses every edge of g as often as it occurs. */
  ghost predicate UsesAll(g: Counts, trail: seq<int>, s: int, t: int) {
    && Square(g) && |trail| > 0 && trail[0] == s && trail[|trail| - 1] == t
    && (forall i :: 0 <= i < |trail| ==> 0 <= trail[i] < |g|)
    && forall a, b :: 0 <= a < |g| && 0 <= b < |g| ==> g[a][b] == Steps(trail, a, b)
  }

  lemma NoEdgesNoExcess(g: Counts, a: int)
    requires Square(g) && 0 <= a < |g| && forall u, v :: 0 <= u < |g| && 0 <= v < |g| ==> g[u][v] == 0
    ensures Excess(g, a) == 0
  {
    SumZero(g[a]);
    ColumnZero(g, a);
  }

  lemma {:induction false} ColumnZero(rows: Counts, v: nat)
    requires forall u :: 0 <= u < |rows| ==> v < |rows[u]| && rows[u][v] == 0
    ensures ColumnSum(rows, v) == 0
    decreases |rows|
  {
    if |rows| > 0 {
      ColumnZero(rows[..|rows| - 1], v);
    }
  }

  lemma RestUsesAll(g: Counts, trail: seq<int>, s: int, t: int)
    requires UsesAll(g, trail, s, t) && |trail| > 1
    ensures UsesAll(Add(g, s, trail[1], -1), trail[1..], trail[1], t)
  {
    var g', rest := Add(g, s, trail[1], -1), trail[1..];
    forall a, b | 0 <= a < |g| && 0 <= b < |g|
      ensures g'[a][b] == Steps(rest, a, b)
    {
      assert Steps(trail, a, b) == One(trail[0] == a && trail[1] == b) + Steps(rest, a, b);
    }
  }

  /** A trail leaves each of its vertices as often as it enters it, but for its two ends. */
  lemma {:induction false} TrailDegrees(g: Counts, trail: seq<int>, s: int, t: int, a: int)
    requires UsesAll(g, trail, s, t) && 0 <= a < |g|
    ensures Excess(g, a) == One(a == s) - One(a == t)
    decreases |trail|
  {
    if |trail| == 1 {
      assert forall u, v :: 0 <= u < |g| && 0 <= v < |g| ==> Steps(trail, u, v) == 0;
      NoEdgesNoExcess(g, a);
    } else {
      RestUsesAll(g, trail, s, t);
      TrailDegrees(Add(g, s, trail[1], -1), trail[1..], trail[1], t, a);
      DegreesAfterRemove(g, s, trail[1]);
    }
  }

  /** A graph with a trail from s to f, or from s back to s, that uses all its edges passes the check. */
  lemma TrailPasses(g: Counts, trail: seq<int>, s: int, f: int, t: int)
    requires UsesAll(g, trail, s, t) && (t == f || t == s)
    ensures DegreesPass(g, s, f)
  {
    forall i | 0 <= i < |g|
      ensures DegreePasses(g, i, s, f)
    {
      TrailDegrees(g, trail, s, t, i);
    }
  }

  /** Every edge leads from a vertex reachable from s. */
  ghost predicate AllReachable(g: Counts, s: int) {
    Square(g) && forall a, b :: 0 <= a < |g| && 0 <= b < |g| && g[a][b] != 0 ==> Reachable(g, s, a)
  }

  lemma UsedReachable(g: Counts, trail: seq<int>, s: int, t: int, a: int, b: int)
    requires UsesAll(g, trail, s, t) && 0 <= a < |g| && 0 <= b < |g| && Steps(trail, a, b) > 0
    ensures Reachable(g, s, a)
  {
    StepEnds(trail, a, b);
    hide UsesAll, Steps, IsWalk;
    var k :| 0 <= k < |trail| && trail[k] == a;
    PrefixWalks(g, trail, s, t, k);
    var w := trail[..k + 1];
    assert IsWalk(g, w) && w[0] == s && w[|w| - 1] == a;
  }

  lemma PrefixWalks(g: Counts, trail: seq<int>, s: int, t: int, k: nat)
    requires UsesAll(g, trail, s, t) && k < |trail|
    ensures IsWalk(g, trail[..k + 1]) && trail[..k + 1][0] == s
  {
    hide Steps;
    var w := trail[..k + 1];
    forall i | 0 <= i < |w| - 1
      ensures g[w[i]][w[i + 1]] > 0
    {
      StepTaken(trail, i);
    }
  }

  /** A trail uses all edges exactly when it uses all that are reachable from its start and those are all. */
  lemma UsesAllWhenReachable(g: Counts, trail: seq<int>, s: int, t: int)
    ensures UsesAll(g, trail, s, t) <==> IsEulerTrail(g, trail, s, t) && AllReachable(g, s)
  {
    if UsesAll(g, trail, s, t) {
      forall a, b | 0 <= a < |g| && 0 <= b < |g| && g[a][b] != 0
        ensures Reachable(g, s, a)
      {
        UsedReachable(g, trail, s, t, a, b);
      }
    }
    hide Reachable, Steps;
  }

  /** Some trail from s to f, or from s back to s, uses every edge as often as it occurs. */
  ghost predicate HasTrail(g: Counts, s: int, f: int) {
    exists trail, t :: (t == f || t == s) && UsesAll(g, trail, s, t)
  }

  lemma HasTrailPasses(g: Counts, s: int, f: int)
    requires HasTrail(g, s, f)
    ensures Square(g) && DegreesPass(g, s, f) && AllReachable(g, s)
  {
    hide UsesAll, DegreesPass, AllReachable;
    var trail, t :| (t == f || t == s) && UsesAll(g, trail, s, t);
    TrailPasses(g, trail, s, f, t);
    UsesAllWhenReachable(g, trail, s, t);
  }
}

module EulerPaths {
  import opened Digraph
  import opened AdjacencyMatrix
  import opened Trails

  /** Stands for the library's reversal. */
  function Reverse(s: seq<int>): (r: seq<int>) {
    if |s| == 0 then [] else Reverse(s[1..]) + [s[0]]
  }

  lemma {:induction false} ReverseConcat(x: seq<int>, y: seq<int>)
    ensures Reverse(x + y) == Reverse(y) + Reverse(x)
    decreases |x|
  {
    if |x| == 0 {
      assert x + y == y;
    } else {
      assert (x + y)[1..] == x[1..] + y;
      ReverseConcat(x[1..], y);
    }
  }

  lemma {:induction false} ReverseTwice(s: seq<int>)
    ensures Reverse(Reverse(s)) == s
    decreases |s|
  {
    if |s| > 0 {
      ReverseConcat(Reverse(s[1..]), [s[0]]);
      ReverseTwice(s[1..]);
      assert Reverse([s[0]]) == [s[0]];
    }
  }

  lemma AppendChild(before: seq<int>, rest: seq<int>, child: seq<int>, u: int)
    ensures before + Reverse(rest) + Reverse(child) == before + Reverse(([u] + child + rest)[1..])
  {
    ReverseConcat(child, rest);
    assert ([u] + child + rest)[1..] == child + rest;
    assert before + Reverse(rest) + Reverse(child) == before + (Reverse(rest) + Reverse(child));
  }

  lemma AppendSelf(before: seq<int>, trail: seq<int>)
    requires |trail| > 0
    ensures before + Reverse(trail[1..]) + [trail[0]] == before + Reverse(trail)
  {
    hide Reverse;
    Associative(before, Reverse(trail[1..]), [trail[0]]);
    ReverseLast(trail);
  }

  lemma Associative(a: seq<int>, b: seq<int>, c: seq<int>)
    ensures a + b + c == a + (b + c)
  {
  }

  lemma ReverseLast(s: seq<int>)
    requires |s| > 0
    ensures Reverse(s) == Reverse(s[1..]) + [s[0]]
  {
  }

  lemma NoTrail(g: Counts, s: int, f: int)
    requires Square(g) && !DegreesPass(g, s, f)
    ensures !HasTrail(g, s, f)
  {
    hide HasTrail, DegreesPass;
    if HasTrail(g, s, f) {
      HasTrailPasses(g, s, f);
    }
  }

  lemma TrailFound(g: Counts, trail: seq<int>, s: int, f: int)
    requires Square(g) && 0 <= s < |g| && IsEulerTrail(g, trail, s, EndOfTrail(g, s, f))
    ensures HasTrail(g, s, f) <==> AllReachable(g, s)
  {
    hide IsEulerTrail, UsesAll, AllReachable, DegreesPass;
    UsesAllWhenReachable(g, trail, s, EndOfTrail(g, s, f));
    if HasTrail(g, s, f) {
      HasTrailPasses(g, s, f);
    }
  }

  class EulerPath {

    /**
     Succeeds exactly when the degree check passes. Then the path is a trail from startVertex that
     uses every edge reachable from it as often as the edge occurs; it ends at finishVertex, or at
     startVertex when that is balanced; and exactly its edges have been removed from the graph.
     */
    method FindEulerPath(graph: DirectedGraphAsAdjMatrix, startVertex: nat, finishVertex: int)
        returns (found: bool, path: seq<int>)
      requires graph.Valid() && startVertex < graph.mNumVertex && IsCounts(graph.Adjacency())
      modifies graph.mData
      ensures found <==> DegreesPass(old(graph.Adjacency()), startVertex, finishVertex)
      ensures !found ==> graph.Adjacency() == old(graph.Adjacency())
      ensures found ==> IsEulerTrail(old(graph.Adjacency()), path, startVertex,
          EndOfTrail(old(graph.Adjacency()), startVertex, finishVertex))
      ensures found ==> Accounts(old(graph.Adjacency()), graph.Adjacency(), path)
      ensures HasTrail(old(graph.Adjacency()), startVertex, finishVertex) <==>
              found && AllReachable(old(graph.Adjacency()), startVertex)
    {
      hide HasTrail, AllReachable;
      ghost var g := graph.Adjacency();
      path := [];
      for i := 0 to graph.mNumVertex
        invariant graph.Adjacency() == g
        invariant forall k :: 0 <= k < i ==> DegreePasses(g, k, startVertex, finishVertex)
      {
        var in_ := graph.DegreeInOfVertex(i);
        var out := graph.DegreeOutOfVertex(i);
        assert Excess(g, i) == out - in_;
        if in_ != out {
          if i == startVertex && out == in_ + 1 { continue; }
          if i == finishVertex && in_ == out + 1 { continue; }
          assert !DegreePasses(g, i, startVertex, finishVertex);
          NoTrail(g, startVertex, finishVertex);
          return false, [];
        }
      }
      PassingDegrees(g, startVertex, finishVertex);
      ghost var t, trail := EndOfTrail(g, startVertex, finishVertex), [];
      path, trail := Find(startVertex, graph, [], t);
      WalkedIsEulerTrail(g, graph.Adjacency(), trail, startVertex, t);
      ReverseTwice(trail);
      assert path == Reverse(trail);
      path := Reverse(path);
      TrailFound(g, path, startVertex, finishVertex);
      found := true;
    }

    /** Takes a trail from u to t out of the graph and appends it, reversed, to the path. */
    method Find(u: nat, graph: DirectedGraphAsAdjMatrix, path0: seq<int>, ghost t: int)
        returns (path: seq<int>, ghost trail: seq<int>)
      requires graph.Valid() && u < graph.mNumVertex
      requires FromTo(graph.Adjacency(), u, t)
      modifies graph.mData
      ensures Walked(old(graph.Adjacency()), graph.Adjacency(), trail, u, t)
      ensures path == path0 + Reverse(trail)
      ensures Total(graph.Adjacency()) <= old(Total(graph.Adjacency()))
      decreases Total(graph.Adjacency()), 1
    {
      ghost var g := graph.Adjacency();
      path, trail := path0, [u];
      StartFrame(g, u, t);
      TotalNatural(g);
      for v := 0 to graph.mNumVertex
        invariant Frame(g, graph.Adjacency(), trail, u, t, v)
        invariant Total(graph.Adjacency()) <= Total(g)
        invariant path == path0 + Reverse(trail[1..])
      {
        if graph.ExistEdge(u, v) {
          path, trail := FollowEdge(u, v, graph, path, g, trail, t, path0);
        } else {
          SkipNeighbour(g, graph.Adjacency(), trail, u, t, v);
        }
      }
      EndFrame(g, graph.Adjacency(), trail, u, t);
      AppendSelf(path0, trail);
      path := path + [u];
    }

    /** Removes one edge from u to v and walks on from v. */
    method FollowEdge(u: nat, v: nat, graph: DirectedGraphAsAdjMatrix, path0: seq<int>, ghost g: Counts,
        ghost trail0: seq<int>, ghost t: int, ghost before: seq<int>)
        returns (path: seq<int>, ghost trail: seq<int>)
      requires graph.Valid() && v < graph.mNumVertex
      requires Frame(g, graph.Adjacency(), trail0, u, t, v) && graph.Adjacency()[u][v] > 0
      requires path0 == before + Reverse(trail0[1..])
      modifies graph.mData
      ensures Frame(g, graph.Adjacency(), trail, u, t, v + 1)
      ensures path == before + Reverse(trail[1..])
      ensures Total(graph.Adjacency()) <= old(Total(graph.Adjacency()))
      decreases Total(graph.Adjacency()), 0
    {
      ghost var h := graph.Adjacency();
      TakeEdge(h, u, v, Target(trail0, u, t));
      graph.RemoveEdge(u, v);
      ghost var child;
      path, child := Find(v, graph, path0, Target(trail0, u, t));
      SpliceChild(g, h, trail0, u, t, v, child, graph.Adjacency());
      AppendChild(before, trail0[1..], child, u);
      trail := [u] + child + trail0[1..];
    }
  }
}
