/**
 Ranking evaluation: the single-threaded loop over all users, and the client of the pipelined
 scheduler that bundles users, evaluates bundles in workers and sums them in one consumer.
 */
module EvaluateRanking {
  import opened Sums

  const TASK_BUNDLE_SIZE := 128

  /** What a user's prediction and test data come to: the ranked list and the rated items. */
  datatype User = User(ranked: seq<int>, rated: seq<int>)

  datatype Tally = Tally(hitCount: int, nPrecision: int, nRecall: int) {
    function Plus(other: Tally): Tally {
      Tally(hitCount + other.hitCount, nPrecision + other.nPrecision, nRecall + other.nRecall)
    }
  }

  const ZERO := Tally(0, 0, 0)

  datatype Task = Task(userId: int, tally: Tally)

  /** Where halving the range from left to right leads: to a place of the key, or to nothing. */
  ghost function Probe(items: seq<int>, key: int, left: nat, right: int): int
    requires left <= right + 1 <= |items|
    decreases right - left + 1
  {
    if left > right then -1 else
      var mid := left + (right - left) / 2;
      if key == items[mid] then mid
      else if key > items[mid] then Probe(items, key, mid + 1, right)
      else Probe(items, key, left, mid - 1)
  }

  ghost predicate Found(items: seq<int>, key: int) {
    Probe(items, key, 0, |items| - 1) >= 0
  }

  ghost predicate Ascending(items: seq<int>) {
    forall i, j :: 0 <= i < j < |items| ==> items[i] <= items[j]
  }

  lemma NoneBelow(items: seq<int>, key: int, mid: nat)
    requires mid < |items| && items[mid] < key
    ensures Ascending(items) ==> forall k :: 0 <= k <= mid ==> items[k] != key
  {
  }

  lemma NoneAbove(items: seq<int>, key: int, mid: nat)
    requires mid < |items| && key < items[mid]
    ensures Ascending(items) ==> forall k :: mid <= k < |items| ==> items[k] != key
  {
  }

  lemma {:induction false} ProbeFinds(items: seq<int>, key: int, left: nat, right: int)
    requires left <= right + 1 <= |items|
    ensures var pos := Probe(items, key, left, right);
      && (pos >= 0 ==> left <= pos <= right && items[pos] == key)
      && (Ascending(items) && pos < 0 ==> forall k :: left <= k <= right ==> items[k] != key)
    decreases right - left + 1
  {
    hide Ascending;
    if left <= right {
      var mid := left + (right - left) / 2;
      if key > items[mid] {
        ProbeFinds(items, key, mid + 1, right);
        NoneBelow(items, key, mid);
      } else if key < items[mid] {
        ProbeFinds(items, key, left, mid - 1);
        NoneAbove(items, key, mid);
      }
    }
  }

  /** Among ascending items the search finds exactly what is there; among any items it finds nothing else. */
  lemma FoundIsThere(items: seq<int>, key: int)
    ensures Found(items, key) ==> key in items
    ensures Ascending(items) ==> (Found(items, key) <==> key in items)
  {
    ProbeFinds(items, key, 0, |items| - 1);
  }

  method BSearch(key: int, items: seq<int>) returns (pos: int)
    ensures pos == Probe(items, key, 0, |items| - 1) && (pos >= 0 <==> Found(items, key))
    ensures pos >= 0 ==> pos < |items| && items[pos] == key
    ensures Ascending(items) && pos < 0 ==> key !in items
  {
    ProbeFinds(items, key, 0, |items| - 1);
    hide Ascending, Found;
    var left, right := 0, |items| - 1;
    while left <= right
      invariant 0 <= left <= right + 1 <= |items|
      invariant Probe(items, key, left, right) == Probe(items, key, 0, |items| - 1)
      decreases right - left + 1
    {
      var mid := left + (right - left) / 2;
      if key == items[mid] {
        return mid;
      } else if key > items[mid] {
        left := mid + 1;
      } else {
        right := mid - 1;
      }
    }
    return -1;
  }

  /** The places among the first n of the ranked list whose item the search finds. */
  ghost function HitPlaces(ranked: seq<int>, rated: seq<int>, n: nat): set<int>
    requires n <= |ranked|
  {
    set i | 0 <= i < n && Found(rated, ranked[i])
  }

  lemma HitPlacesNext(ranked: seq<int>, rated: seq<int>, n: nat)
    requires n < |ranked|
    ensures |HitPlaces(ranked, rated, n + 1)| ==
            |HitPlaces(ranked, rated, n)| + if Found(rated, ranked[n]) then 1 else 0
  {
    hide Found;
    var places := HitPlaces(ranked, rated, n);
    assert HitPlaces(ranked, rated, n + 1) == places + if Found(rated, ranked[n]) then {n as int} else {};
  }

  lemma NoPlacesYet(ranked: seq<int>, rated: seq<int>)
    ensures HitPlaces(ranked, rated, 0) == {}
  {
  }

  ghost function Hits(ranked: seq<int>, rated: seq<int>): nat {
    |HitPlaces(ranked, rated, |ranked|)|
  }

  /** The places of the ranked list whose item the user has rated. */
  ghost function RankedAndRated(user: User): set<int> {
    set i | 0 <= i < |user.ranked| && user.ranked[i] in user.rated
  }

  /** When the rated items are ascending, the hits are the ranked items among them. */
  lemma HitsAreRated(user: User)
    requires Ascending(user.rated)
    ensures Hits(user.ranked, user.rated) == |RankedAndRated(user)|
  {
    var ranked, rated := user.ranked, user.rated;
    forall i | 0 <= i < |ranked|
      ensures Found(rated, ranked[i]) <==> ranked[i] in rated
    {
      FoundIsThere(rated, ranked[i]);
    }
    assert HitPlaces(ranked, rated, |ranked|) == RankedAndRated(user);
  }

  ghost function ScoreOf(user: User): Tally {
    Tally(Hits(user.ranked, user.rated), |user.ranked|, |user.rated|)
  }

  method EvaluateOneUser(user: User, tally: Tally) returns (r: Tally)
    ensures r == tally.Plus(ScoreOf(user))
    ensures r.nPrecision == tally.nPrecision + |user.ranked| && r.nRecall == tally.nRecall + |user.rated|
    ensures Ascending(user.rated) ==> r.hitCount == tally.hitCount + |RankedAndRated(user)|
  {
    hide Found, Probe, HitPlaces;
    var hit := 0;
    NoPlacesYet(user.ranked, user.rated);
    for i := 0 to |user.ranked|
      invariant hit == |HitPlaces(user.ranked, user.rated, i)|
    {
      HitPlacesNext(user.ranked, user.rated, i);
      var pos := BSearch(user.ranked[i], user.rated);
      if pos >= 0 {
        hit := hit + 1;
      }
    }
    r := Tally(tally.hitCount + hit, tally.nPrecision + |user.ranked|, tally.nRecall + |user.rated|);
    if Ascending(user.rated) {
      HitsAreRated(user);
    }
  }

  ghost function Total(users: seq<User>): Tally {
    if |users| == 0 then ZERO else Total(users[..|users| - 1]).Plus(ScoreOf(users[|users| - 1]))
  }

  ghost predicate AllAscending(users: seq<User>) {
    forall i :: 0 <= i < |users| ==> Ascending(users[i].rated)
  }

  /** The counters in plain words: ranked items, rated items, and ranked items that are rated, over all users. */
  ghost predicate CountsUp(users: seq<User>, r: Tally) {
    && r.nPrecision == Sum(seq(|users|, i requires 0 <= i < |users| => |users[i].ranked|))
    && r.nRecall == Sum(seq(|users|, i requires 0 <= i < |users| => |users[i].rated|))
    && (AllAscending(users) ==>
        r.hitCount == Sum(seq(|users|, i requires 0 <= i < |users| => |RankedAndRated(users[i])|)))
  }

  lemma {:induction false} TotalCounts(users: seq<User>)
    ensures CountsUp(users, Total(users))
    decreases |users|
  {
    if |users| > 0 {
      var k := |users| - 1;
      TotalCounts(users[..k]);
      var n := seq(|users|, i requires 0 <= i < |users| => |users[i].ranked|);
      assert n[..k] == seq(k, i requires 0 <= i < k => |users[..k][i].ranked|);
      var m := seq(|users|, i requires 0 <= i < |users| => |users[i].rated|);
      assert m[..k] == seq(k, i requires 0 <= i < k => |users[..k][i].rated|);
      var h := seq(|users|, i requires 0 <= i < |users| => |RankedAndRated(users[i])|);
      assert h[..k] == seq(k, i requires 0 <= i < k => |RankedAndRated(users[..k][i])|);
      if AllAscending(users) {
        HitsAreRated(users[k]);
      }
    }
  }

  /** The single-threaded loop. */
  method EvaluateST(users: seq<User>) returns (r: Tally)
    ensures r == Total(users) && CountsUp(users, r)
  {
    r := ZERO;
    for uid := 0 to |users|
      invariant r == Total(users[..uid])
    {
      assert users[..uid + 1][..uid] == users[..uid];
      r := EvaluateOneUser(users[uid], r);
    }
    assert users[..|users|] == users;
    TotalCounts(users);
  }

  // ----- The pipeline client -----

  ghost function Flatten(bundles: seq<seq<Task>>): seq<Task> {
    if |bundles| == 0 then [] else Flatten(bundles[..|bundles| - 1]) + bundles[|bundles| - 1]
  }

  ghost predicate Fresh(tasks: seq<Task>, n: nat) {
    |tasks| == n && forall i :: 0 <= i < n ==> tasks[i] == Task(i, ZERO)
  }

  /** The bundles the producer puts, in order: together the users 0 .. numUser-1, full except for the last. */
  method ProducerRun(numUser: nat) returns (bundles: seq<seq<Task>>)
    ensures |bundles| > 0 && Fresh(Flatten(bundles), numUser)
    ensures forall b :: 0 <= b < |bundles| ==> |bundles[b]| <= 128
    ensures forall b :: 0 <= b < |bundles| - 1 ==> |bundles[b]| == 128
  {
    bundles := [];
    var currentBundle: seq<Task> := [];
    for uid := 0 to numUser
      invariant Fresh(Flatten(bundles) + currentBundle, uid)
      invariant forall b :: 0 <= b < |bundles| ==> |bundles[b]| == TASK_BUNDLE_SIZE
      invariant |currentBundle| <= TASK_BUNDLE_SIZE
    {
      if |currentBundle| == TASK_BUNDLE_SIZE {
        assert (bundles + [currentBundle])[..|bundles|] == bundles;
        bundles := bundles + [currentBundle];
        currentBundle := [];
      }
      currentBundle := currentBundle + [Task(uid, ZERO)];
    }
    assert (bundles + [currentBundle])[..|bundles|] == bundles;
    bundles := bundles + [currentBundle];
  }

  ghost predicate Known(users: seq<User>, bundle: seq<Task>) {
    forall i :: 0 <= i < |bundle| ==> 0 <= bundle[i].userId < |users|
  }

  ghost function Scored(users: seq<User>, bundle: seq<Task>): seq<Task>
    requires Known(users, bundle)
  {
    seq(|bundle|, i requires 0 <= i < |bundle| =>
      bundle[i].(tally := bundle[i].tally.Plus(ScoreOf(users[bundle[i].userId]))))
  }

  /** What a worker does to one bundle. */
  method WorkerTask(users: seq<User>, bundle: seq<Task>) returns (r: seq<Task>)
    requires Known(users, bundle)
    ensures r == Scored(users, bundle)
  {
    r := bundle;
    for i := 0 to |bundle|
      invariant |r| == |bundle|
      invariant r[..i] == Scored(users, bundle)[..i] && r[i..] == bundle[i..]
    {
      var tally := EvaluateOneUser(users[r[i].userId], r[i].tally);
      r := r[i := r[i].(tally := tally)];
    }
  }

  ghost function BundleTally(bundle: seq<Task>): Tally {
    if |bundle| == 0 then ZERO else BundleTally(bundle[..|bundle| - 1]).Plus(bundle[|bundle| - 1].tally)
  }

  /** What the consumer adds for one bundle. */
  method ConsumerTask(bundle: seq<Task>, running: Tally) returns (r: Tally)
    ensures r == running.Plus(BundleTally(bundle))
  {
    r := running;
    for i := 0 to |bundle|
      invariant r == running.Plus(BundleTally(bundle[..i]))
    {
      assert bundle[..i + 1][..i] == bundle[..i];
      r := r.Plus(bundle[i].tally);
    }
    assert bundle[..|bundle|] == bundle;
  }

  ghost function PartOf(bundles: seq<seq<Task>>, h: int): Tally {
    if 0 <= h < |bundles| then BundleTally(bundles[h]) else ZERO
  }

  /** The running counters after the bundles with these handles have been consumed, in this order. */
  ghost function Running(bundles: seq<seq<Task>>, handles: seq<int>): Tally {
    if |handles| == 0 then ZERO else
      Running(bundles, handles[..|handles| - 1]).Plus(PartOf(bundles, handles[|handles| - 1]))
  }

  ghost function Remove(s: seq<int>, i: int): (r: seq<int>)
    requires 0 <= i < |s|
    ensures |r| == |s| - 1
  {
    s[..i] + s[i + 1..]
  }

  lemma RemoveLater(s: seq<int>, i: int)
    requires 0 <= i < |s| - 1
    ensures var k := |s| - 1;
      Remove(s, i)[..k - 1] == Remove(s[..k], i) && Remove(s, i)[k - 1] == s[k]
  {
  }

  lemma {:induction false} RunningRemove(bundles: seq<seq<Task>>, handles: seq<int>, i: int)
    requires 0 <= i < |handles|
    ensures Running(bundles, handles) == Running(bundles, Remove(handles, i)).Plus(PartOf(bundles, handles[i]))
    decreases |handles|
  {
    hide PartOf;
    var k := |handles| - 1;
    var rest := Remove(handles, i);
    if i < k {
      RunningRemove(bundles, handles[..k], i);
      RemoveLater(handles, i);
    } else {
      assert rest == handles[..k];
    }
  }

  lemma RemoveCounts(s: seq<int>, i: int)
    requires 0 <= i < |s|
    ensures multiset(Remove(s, i)) == multiset(s) - multiset{s[i]}
  {
    assert s == s[..i] + [s[i]] + s[i + 1..];
  }

  /** The counters do not depend on the order in which bundles arrive. */
  lemma {:induction false} RunningPermutes(bundles: seq<seq<Task>>, a: seq<int>, b: seq<int>)
    requires multiset(a) == multiset(b)
    ensures Running(bundles, a) == Running(bundles, b)
    decreases |a|
  {
    if |a| == 0 {
      assert |multiset(b)| == 0;
    } else {
      hide Running;
      var k := |a| - 1;
      assert a[k] in multiset(b);
      var i :| 0 <= i < |b| && b[i] == a[k];
      RunningRemove(bundles, b, i);
      RemoveCounts(a, k);
      RemoveCounts(b, i);
      RunningRemove(bundles, a, k);
      RunningPermutes(bundles, Remove(a, k), Remove(b, i));
    }
  }

  ghost function Handles(n: nat): (r: seq<int>)
    ensures |r| == n && forall i :: 0 <= i < n ==> r[i] == i
  {
    seq(n, i => i)
  }

  lemma {:induction false} BundleTallyConcat(a: seq<Task>, b: seq<Task>)
    ensures BundleTally(a + b) == BundleTally(a).Plus(BundleTally(b))
    decreases |b|
  {
    if |b| == 0 {
      assert a + b == a;
    } else {
      assert (a + b)[..|a + b| - 1] == a + b[..|b| - 1];
      BundleTallyConcat(a, b[..|b| - 1]);
    }
  }

  lemma FlattenNext(bundles: seq<seq<Task>>, n: nat)
    requires 0 < n <= |bundles|
    ensures Flatten(bundles[..n]) == Flatten(bundles[..n - 1]) + bundles[n - 1]
  {
    assert bundles[..n][..n - 1] == bundles[..n - 1];
  }

  lemma RunningNext(bundles: seq<seq<Task>>, n: nat)
    requires 0 < n <= |bundles|
    ensures Running(bundles, Handles(n)) == Running(bundles, Handles(n - 1)).Plus(BundleTally(bundles[n - 1]))
  {
    hide BundleTally;
    assert Handles(n)[..n - 1] == Handles(n - 1);
  }

  lemma InOrderNext(bundles: seq<seq<Task>>, n: nat)
    requires 0 < n <= |bundles| && Running(bundles, Handles(n - 1)) == BundleTally(Flatten(bundles[..n - 1]))
    ensures Running(bundles, Handles(n)) == BundleTally(Flatten(bundles[..n]))
  {
    hide Running, Flatten, BundleTally, Handles;
    RunningNext(bundles, n);
    FlattenNext(bundles, n);
    BundleTallyConcat(Flatten(bundles[..n - 1]), bundles[n - 1]);
  }

  lemma {:induction false} RunningInOrder(bundles: seq<seq<Task>>, n: nat)
    requires n <= |bundles|
    ensures Running(bundles, Handles(n)) == BundleTally(Flatten(bundles[..n]))
    decreases n
  {
    if n == 0 {
      assert Flatten(bundles[..0]) == [];
    } else {
      hide Running, Flatten, BundleTally, Handles;
      RunningInOrder(bundles, n - 1);
      InOrderNext(bundles, n);
    }
  }

  ghost function AllScored(users: seq<User>, bundles: seq<seq<Task>>): seq<seq<Task>>
    requires forall b :: 0 <= b < |bundles| ==> Known(users, bundles[b])
  {
    seq(|bundles|, b requires 0 <= b < |bundles| => Scored(users, bundles[b]))
  }

  lemma {:induction false} BundlesKnown(users: seq<User>, bundles: seq<seq<Task>>)
    requires Known(users, Flatten(bundles))
    ensures forall b :: 0 <= b < |bundles| ==> Known(users, bundles[b])
    decreases |bundles|
  {
    if |bundles| > 0 {
      var n := |bundles| - 1;
      var head := Flatten(bundles[..n]);
      assert forall i :: 0 <= i < |head| ==> head[i] == Flatten(bundles)[i];
      assert forall i :: 0 <= i < |bundles[n]| ==> bundles[n][i] == Flatten(bundles)[|head| + i];
      BundlesKnown(users, bundles[..n]);
      assert forall b :: 0 <= b < n ==> bundles[..n][b] == bundles[b];
    }
  }

  lemma ScoredAppend(users: seq<User>, a: seq<Task>, b: seq<Task>)
    requires Known(users, a) && Known(users, b)
    ensures Known(users, a + b) && Scored(users, a + b) == Scored(users, a) + Scored(users, b)
  {
  }

  lemma {:induction false} ScoredFlatten(users: seq<User>, bundles: seq<seq<Task>>)
    requires forall b :: 0 <= b < |bundles| ==> Known(users, bundles[b])
    ensures Known(users, Flatten(bundles))
    ensures Flatten(AllScored(users, bundles)) == Scored(users, Flatten(bundles))
    decreases |bundles|
  {
    if |bundles| == 0 {
      assert Flatten(AllScored(users, bundles)) == [];
    } else {
      var n := |bundles| - 1;
      ScoredFlatten(users, bundles[..n]);
      assert AllScored(users, bundles)[..n] == AllScored(users, bundles[..n]);
      ScoredAppend(users, Flatten(bundles[..n]), bundles[n]);
    }
  }

  lemma {:induction false} ScoredTotal(users: seq<User>, tasks: seq<Task>, n: nat)
    requires n <= |users| == |tasks| && Fresh(tasks, |users|)
    ensures BundleTally(Scored(users, tasks)[..n]) == Total(users[..n])
    decreases n
  {
    if n > 0 {
      ScoredTotal(users, tasks, n - 1);
      assert Scored(users, tasks)[..n][..n - 1] == Scored(users, tasks)[..n - 1];
      assert users[..n][..n - 1] == users[..n - 1];
    }
  }

  lemma AllScoredTotal(users: seq<User>, tasks: seq<Task>)
    requires Fresh(tasks, |users|) && Known(users, tasks)
    ensures BundleTally(Scored(users, tasks)) == Total(users)
  {
    hide BundleTally, Total;
    ScoredTotal(users, tasks, |users|);
    assert Scored(users, tasks)[..|users|] == Scored(users, tasks);
    assert users[..|users|] == users;
  }

  lemma AllBundlesTotal(users: seq<User>, bundles: seq<seq<Task>>)
    requires Fresh(Flatten(bundles), |users|) && Known(users, Flatten(bundles))
    requires forall b :: 0 <= b < |bundles| ==> Known(users, bundles[b])
    ensures Running(AllScored(users, bundles), Handles(|bundles|)) == Total(users)
  {
    hide Running, Flatten, BundleTally, Total;
    var scored := AllScored(users, bundles);
    RunningInOrder(scored, |bundles|);
    assert scored[..|bundles|] == scored;
    ScoredFlatten(users, bundles);
    AllScoredTotal(users, Flatten(bundles));
  }
}
