/**
 Similarity of two items: a merge over their lists of user ratings. The arithmetic is a parameter, so
 what is proved holds whatever its rounding, as long as a product does not depend on the order of its
 factors.
 */
module Similarities {

  datatype Numbers<!F> = Numbers(zero: F, add: (F, F) -> F, mul: (F, F) -> F, div: (F, F) -> F, sqrt: F -> F,
    eps: F, fromInt: int -> F, toFloat: F -> F)

  ghost predicate ProductsCommute<F(!new)>(n: Numbers<F>) {
    forall x, y :: n.mul(x, y) == n.mul(y, x)
  }

  datatype UserRating<F> = UserRating(userId: int, rating: F)

  type ItemVec<F> = seq<UserRating<F>>

  datatype RatingType = Numerical | Binary

  datatype SimType = Cosine | AdjustedCosine | Correlation | BinaryCosine | BinaryJaccard

  datatype Parameter = Parameter(ratingType: RatingType, simType: SimType)

  /** The ratings that meet in the merge, in order. */
  ghost function Meet<F>(a: ItemVec<F>, b: ItemVec<F>): seq<(UserRating<F>, UserRating<F>)>
    decreases |a| + |b|
  {
    if |a| == 0 || |b| == 0 then []
    else if a[0].userId == b[0].userId then [(a[0], b[0])] + Meet(a[1..], b[1..])
    else if a[0].userId < b[0].userId then Meet(a[1..], b)
    else Meet(a, b[1..])
  }

  ghost function Swapped<T>(ps: seq<(T, T)>): seq<(T, T)> {
    seq(|ps|, i requires 0 <= i < |ps| => (ps[i].1, ps[i].0))
  }

  lemma {:induction false} MeetSwapped<F>(a: ItemVec<F>, b: ItemVec<F>)
    ensures Meet(b, a) == Swapped(Meet(a, b))
    decreases |a| + |b|
  {
    if |a| == 0 || |b| == 0 {
    } else if a[0].userId == b[0].userId {
      MeetSwapped(a[1..], b[1..]);
      assert Swapped(Meet(a, b)) == [(b[0], a[0])] + Swapped(Meet(a[1..], b[1..]));
    } else if a[0].userId < b[0].userId {
      MeetSwapped(a[1..], b);
    } else {
      MeetSwapped(a, b[1..]);
    }
  }

  // ----- What the merge finds in sorted lists -----

  ghost predicate Sorted<F>(a: ItemVec<F>) {
    forall i, j :: 0 <= i < j < |a| ==> a[i].userId < a[j].userId
  }

  ghost function Users<F>(a: ItemVec<F>): set<int> {
    set i | 0 <= i < |a| :: a[i].userId
  }

  lemma UsersOfRest<F>(a: ItemVec<F>)
    requires |a| > 0 && Sorted(a)
    ensures Sorted(a[1..]) && Users(a) == {a[0].userId} + Users(a[1..])
    ensures forall u :: u in Users(a[1..]) ==> a[0].userId < u
  {
    assert forall i :: 0 < i < |a| ==> a[i] == a[1..][i - 1];
  }

  lemma CommonOfRest<F>(a: ItemVec<F>, b: ItemVec<F>)
    requires |a| > 0 && |b| > 0 && Sorted(a) && Sorted(b)
    ensures a[0].userId == b[0].userId ==> |Users(a) * Users(b)| == 1 + |Users(a[1..]) * Users(b[1..])|
    ensures a[0].userId < b[0].userId ==> Users(a) * Users(b) == Users(a[1..]) * Users(b)
    ensures a[0].userId > b[0].userId ==> Users(a) * Users(b) == Users(a) * Users(b[1..])
  {
    hide Users, Sorted;
    UsersOfRest(a);
    UsersOfRest(b);
    if a[0].userId == b[0].userId {
      var rest := Users(a[1..]) * Users(b[1..]);
      assert Users(a) * Users(b) == {a[0].userId} + rest;
      assert a[0].userId !in rest;
    }
  }

  /** In sorted lists without repetition as many ratings meet as there are common users. */
  lemma {:induction false} MeetCountsCommon<F>(a: ItemVec<F>, b: ItemVec<F>)
    requires Sorted(a) && Sorted(b)
    ensures |Meet(a, b)| == |Users(a) * Users(b)|
    decreases |a| + |b|
  {
    if |a| == 0 || |b| == 0 {
      assert Users(a) * Users(b) == {};
    } else {
      hide Users;
      CommonOfRest(a, b);
      if a[0].userId == b[0].userId {
        MeetCountsCommon(a[1..], b[1..]);
      } else if a[0].userId < b[0].userId {
        MeetCountsCommon(a[1..], b);
      } else {
        MeetCountsCommon(a, b[1..]);
      }
    }
  }

  lemma InRest<T>(a: seq<T>, x: T)
    requires |a| > 0
    ensures x in a <==> x == a[0] || x in a[1..]
  {
    assert a == [a[0]] + a[1..];
  }

  /** Two ratings meet exactly when they are by the same user. */
  lemma {:induction false} MeetIsCommon<F>(a: ItemVec<F>, b: ItemVec<F>, x: UserRating<F>, y: UserRating<F>)
    requires Sorted(a) && Sorted(b)
    ensures (x, y) in Meet(a, b) <==> x in a && y in b && x.userId == y.userId
    decreases |a| + |b|
  {
    if |a| > 0 && |b| > 0 {
      InRest(a, x);
      InRest(b, y);
      if a[0].userId == b[0].userId {
        MeetIsCommon(a[1..], b[1..], x, y);
      } else if a[0].userId < b[0].userId {
        MeetIsCommon(a[1..], b, x, y);
      } else {
        MeetIsCommon(a, b[1..], x, y);
      }
    }
  }

  // ----- The similarities -----

  datatype Moments<F> = Moments(sum: F, norm1: F, norm2: F)

  /** Products added up in the order of the merge. */
  ghost function MomentsOf<F>(n: Numbers<F>, ps: seq<(UserRating<F>, UserRating<F>)>): Moments<F> {
    if |ps| == 0 then Moments(n.zero, n.zero, n.zero) else
      var m, x, y := MomentsOf(n, ps[..|ps| - 1]), ps[|ps| - 1].0.rating, ps[|ps| - 1].1.rating;
      Moments(n.add(m.sum, n.mul(x, y)), n.add(m.norm1, n.mul(x, x)), n.add(m.norm2, n.mul(y, y)))
  }

  lemma {:induction false} MomentsSwapped<F(!new)>(n: Numbers<F>, ps: seq<(UserRating<F>, UserRating<F>)>)
    requires ProductsCommute(n)
    ensures var m := MomentsOf(n, ps); MomentsOf(n, Swapped(ps)) == Moments(m.sum, m.norm2, m.norm1)
    decreases |ps|
  {
    if |ps| > 0 {
      var k := |ps| - 1;
      MomentsSwapped(n, ps[..k]);
      assert Swapped(ps)[..k] == Swapped(ps[..k]);
    }
  }

  ghost function CosineOf<F>(n: Numbers<F>, a: ItemVec<F>, b: ItemVec<F>): F {
    if |a| == 0 || |b| == 0 then n.zero else
      var m := MomentsOf(n, Meet(a, b));
      n.toFloat(n.div(m.sum, n.add(n.sqrt(n.mul(m.norm1, m.norm2)), n.eps)))
  }

  ghost function BinaryCosineOf<F>(n: Numbers<F>, a: ItemVec<F>, b: ItemVec<F>): F {
    if |a| == 0 || |b| == 0 then n.zero else
      n.toFloat(n.div(n.fromInt(|Meet(a, b)|), n.sqrt(n.mul(n.fromInt(|a|), n.fromInt(|b|)))))
  }

  ghost function BinaryJaccardOf<F>(n: Numbers<F>, a: ItemVec<F>, b: ItemVec<F>): F {
    if |a| == 0 || |b| == 0 then n.zero else
      n.toFloat(n.div(n.fromInt(|Meet(a, b)|), n.fromInt(|a| + |b| - |Meet(a, b)|)))
  }

  ghost function SimilarityOf<F>(n: Numbers<F>, param: Parameter, a: ItemVec<F>, b: ItemVec<F>): F {
    if param.ratingType == Numerical then CosineOf(n, a, b)
    else if param.simType == BinaryCosine then BinaryCosineOf(n, a, b)
    else if param.simType == BinaryJaccard then BinaryJaccardOf(n, a, b)
    else n.zero
  }

  // ----- What the formulas mean for sorted lists -----

  lemma {:induction false} AsManyUsers<F>(a: ItemVec<F>)
    requires Sorted(a)
    ensures |Users(a)| == |a|
    decreases |a|
  {
    if |a| == 0 {
      assert Users(a) == {};
    } else {
      UsersOfRest(a);
      AsManyUsers(a[1..]);
      assert a[0].userId !in Users(a[1..]);
    }
  }

  lemma UnionSize(x: set<int>, y: set<int>)
    ensures |x + y| == |x| + |y| - |x * y|
  {
    assert x + y == x + (y - x);
    assert y == (y - x) + x * y;
  }

  /** The users of both items over the geometric mean, and over all users of either. */
  lemma BinaryFormulas<F>(n: Numbers<F>, a: ItemVec<F>, b: ItemVec<F>)
    requires Sorted(a) && Sorted(b) && |a| > 0 && |b| > 0
    ensures BinaryCosineOf(n, a, b) ==
            n.toFloat(n.div(n.fromInt(|Users(a) * Users(b)|),
                n.sqrt(n.mul(n.fromInt(|Users(a)|), n.fromInt(|Users(b)|)))))
    ensures BinaryJaccardOf(n, a, b) == n.toFloat(n.div(n.fromInt(|Users(a) * Users(b)|),
        n.fromInt(|Users(a) + Users(b)|)))
  {
    hide Users, Meet;
    MeetCountsCommon(a, b);
    AsManyUsers(a);
    AsManyUsers(b);
    UnionSize(Users(a), Users(b));
  }

  ghost function Product(x: real, y: real): real {
    x * y
  }

  /** Arithmetic on the reals without rounding. */
  ghost predicate Exact(n: Numbers<real>) {
    && n.zero == 0.0
    && (forall x, y :: n.add(x, y) == x + y)
    && (forall x, y :: n.mul(x, y) == Product(x, y))
    && (forall x, y :: y != 0.0 ==> Product(n.div(x, y), y) == x)
    && (forall x :: n.toFloat(x) == x)
  }

  ghost predicate Rates(b: ItemVec<real>, user: int) {
    exists k :: 0 <= k < |b| && b[k].userId == user
  }

  ghost function RatingBy(b: ItemVec<real>, user: int): real
    requires Rates(b, user)
  {
    var k :| 0 <= k < |b| && b[k].userId == user;
    b[k].rating
  }

  /** Products and squares of the ratings of both items by the users of a that rate b as well, added up. */
  ghost function OverCommon(a: ItemVec<real>, b: ItemVec<real>): Moments<real> {
    if |a| == 0 then Moments(0.0, 0.0, 0.0) else
      var rest := OverCommon(a[1..], b);
      if !Rates(b, a[0].userId) then rest else
        With(rest, a[0].rating, RatingBy(b, a[0].userId))
  }

  ghost function With(m: Moments<real>, x: real, y: real): Moments<real> {
    Moments(Product(x, y) + m.sum, Product(x, x) + m.norm1, Product(y, y) + m.norm2)
  }

  lemma MomentsLast(n: Numbers<real>, ps: seq<(UserRating<real>, UserRating<real>)>)
    requires Exact(n) && |ps| > 0
    ensures var p := ps[|ps| - 1];
      MomentsOf(n, ps) == With(MomentsOf(n, ps[..|ps| - 1]), p.0.rating, p.1.rating)
  {
    hide Product;
  }

  lemma WithCommutes(m: Moments<real>, x: real, y: real, u: real, v: real)
    ensures With(With(m, x, y), u, v) == With(With(m, u, v), x, y)
  {
    hide Product;
  }

  lemma {:induction false} MomentsFirst(n: Numbers<real>, p: (UserRating<real>, UserRating<real>),
      ps: seq<(UserRating<real>, UserRating<real>)>)
    requires Exact(n)
    ensures MomentsOf(n, [p] + ps) == With(MomentsOf(n, ps), p.0.rating, p.1.rating)
    decreases |ps|
  {
    hide MomentsOf, With, Exact;
    MomentsLast(n, [p] + ps);
    if |ps| == 0 {
      assert ([p] + ps)[..|[p] + ps| - 1] == ps;
    } else {
      var q := ps[|ps| - 1];
      MomentsFirst(n, p, ps[..|ps| - 1]);
      MomentsLast(n, ps);
      assert ([p] + ps)[..|[p] + ps| - 1] == [p] + ps[..|ps| - 1];
      WithCommutes(MomentsOf(n, ps[..|ps| - 1]), p.0.rating, p.1.rating, q.0.rating, q.1.rating);
    }
  }

  /** Users beyond the first of b do not meet it. */
  lemma {:induction false} SkipFirst(a: ItemVec<real>, b: ItemVec<real>)
    requires Sorted(b) && |b| > 0 && forall i :: 0 <= i < |a| ==> a[i].userId > b[0].userId
    ensures OverCommon(a, b) == OverCommon(a, b[1..])
    decreases |a|
  {
    if |a| > 0 {
      hide Rates, RatingBy, With;
      assert forall i :: 0 <= i < |a| - 1 ==> a[1..][i] == a[i + 1];
      SkipFirst(a[1..], b);
      RatesRest(b, a[0].userId);
    }
  }

  lemma RatesRest(b: ItemVec<real>, user: int)
    requires Sorted(b) && |b| > 0 && user > b[0].userId
    ensures Rates(b, user) <==> Rates(b[1..], user)
    ensures Rates(b, user) ==> RatingBy(b, user) == RatingBy(b[1..], user)
  {
    if Rates(b, user) {
      var k :| 0 <= k < |b| && b[k].userId == user;
      assert b[1..][k - 1].userId == user;
    }
    if Rates(b[1..], user) {
      var k :| 0 <= k < |b[1..]| && b[1..][k].userId == user;
      assert b[k + 1].userId == user;
    }
  }

  lemma RatesFirst(b: ItemVec<real>, user: int)
    requires Sorted(b) && |b| > 0 && user <= b[0].userId
    ensures Rates(b, user) <==> user == b[0].userId
    ensures Rates(b, user) ==> RatingBy(b, user) == b[0].rating
  {
  }

  lemma {:induction false} MomentsOverCommon(n: Numbers<real>, a: ItemVec<real>, b: ItemVec<real>)
    requires Exact(n) && Sorted(a) && Sorted(b)
    ensures MomentsOf(n, Meet(a, b)) == OverCommon(a, b)
    decreases |a| + |b|
  {
    hide Rates, RatingBy, With, Exact;
    if |a| == 0 {
      NoMomentsExact(n);
    } else if |b| == 0 {
      NoMomentsExact(n);
      NothingCommon(a, b);
    } else if a[0].userId == b[0].userId {
      MomentsOverCommon(n, a[1..], b[1..]);
      MomentsFirst(n, (a[0], b[0]), Meet(a[1..], b[1..]));
      SkipFirst(a[1..], b);
      RatesFirst(b, a[0].userId);
    } else if a[0].userId < b[0].userId {
      MomentsOverCommon(n, a[1..], b);
      RatesFirst(b, a[0].userId);
    } else {
      MomentsOverCommon(n, a, b[1..]);
      SkipFirst(a, b);
    }
  }

  lemma NoMomentsExact(n: Numbers<real>)
    requires Exact(n)
    ensures MomentsOf(n, []) == Moments(0.0, 0.0, 0.0)
  {
  }

  lemma {:induction false} NothingCommon(a: ItemVec<real>, b: ItemVec<real>)
    requires |b| == 0
    ensures OverCommon(a, b) == Moments(0.0, 0.0, 0.0)
    decreases |a|
  {
    if |a| > 0 {
      NothingCommon(a[1..], b);
    }
  }

  /** Without rounding the cosine times its denominator is the sum of the products over the common users. */
  lemma CosineFormula(n: Numbers<real>, a: ItemVec<real>, b: ItemVec<real>)
    requires Exact(n) && Sorted(a) && Sorted(b) && |a| > 0 && |b| > 0
    ensures var m := OverCommon(a, b);
      var denominator := n.sqrt(Product(m.norm1, m.norm2)) + n.eps;
      denominator != 0.0 ==> Product(CosineOf(n, a, b), denominator) == m.sum
  {
    hide Meet, MomentsOf, OverCommon, Product;
    MomentsOverCommon(n, a, b);
  }

  /** The similarity of two items does not depend on their order, to the last bit. */
  lemma Symmetric<F(!new)>(n: Numbers<F>, param: Parameter, a: ItemVec<F>, b: ItemVec<F>)
    requires ProductsCommute(n)
    ensures SimilarityOf(n, param, a, b) == SimilarityOf(n, param, b, a)
  {
    hide Meet, MomentsOf, Swapped;
    MeetSwapped(a, b);
    MomentsSwapped(n, Meet(a, b));
    assert |Swapped(Meet(a, b))| == |Meet(a, b)| by {
      SwappedLength(Meet(a, b));
    }
  }

  lemma SwappedLength<T>(ps: seq<(T, T)>)
    ensures |Swapped(ps)| == |ps|
  {
  }

  /** The rest of the merge after places i and j. */
  ghost predicate Merging<F>(a: ItemVec<F>, b: ItemVec<F>, i: nat, j: nat, met: seq<(UserRating<F>, UserRating<F>)>)
    requires i <= |a| && j <= |b|
  {
    met + Meet(a[i..], b[j..]) == Meet(a, b)
  }

  lemma MergeStarts<F>(a: ItemVec<F>, b: ItemVec<F>)
    ensures Merging(a, b, 0, 0, [])
  {
    assert a[0..] == a && b[0..] == b;
  }

  lemma MergeNext<F>(a: ItemVec<F>, b: ItemVec<F>, i: nat, j: nat, met: seq<(UserRating<F>, UserRating<F>)>)
    requires i < |a| && j < |b| && Merging(a, b, i, j, met)
    ensures a[i].userId == b[j].userId ==> Merging(a, b, i + 1, j + 1, met + [(a[i], b[j])])
    ensures a[i].userId < b[j].userId ==> Merging(a, b, i + 1, j, met)
    ensures a[i].userId > b[j].userId ==> Merging(a, b, i, j + 1, met)
  {
    assert a[i..][1..] == a[i + 1..] && b[j..][1..] == b[j + 1..];
    assert a[i..][0] == a[i] && b[j..][0] == b[j];
    if a[i].userId == b[j].userId {
      Reassociate(met, (a[i], b[j]), Meet(a[i + 1..], b[j + 1..]));
    }
  }

  lemma Reassociate<T>(x: seq<T>, y: T, z: seq<T>)
    ensures x + ([y] + z) == x + [y] + z
  {
  }

  lemma MergeEnds<F>(a: ItemVec<F>, b: ItemVec<F>, i: nat, j: nat, met: seq<(UserRating<F>, UserRating<F>)>)
    requires i <= |a| && j <= |b| && Merging(a, b, i, j, met) && (i == |a| || j == |b|)
    ensures met == Meet(a, b)
  {
    assert met + [] == met;
  }

  lemma MomentsNext<F>(n: Numbers<F>, met: seq<(UserRating<F>, UserRating<F>)>, x: UserRating<F>, y: UserRating<F>)
    ensures var m := MomentsOf(n, met);
      MomentsOf(n, met + [(x, y)]) ==
      Moments(n.add(m.sum, n.mul(x.rating, y.rating)), n.add(m.norm1, n.mul(x.rating, x.rating)),
          n.add(m.norm2, n.mul(y.rating, y.rating)))
  {
    assert (met + [(x, y)])[..|met|] == met;
  }

  method ComputeCosineSimilarity<F>(n: Numbers<F>, iv1: ItemVec<F>, iv2: ItemVec<F>) returns (r: F)
    ensures r == CosineOf(n, iv1, iv2)
  {
    hide Merging, Meet, MomentsOf;
    if |iv1| == 0 { return n.zero; }
    if |iv2| == 0 { return n.zero; }
    var sum, norm1, norm2 := n.zero, n.zero, n.zero;
    var i, j := 0, 0;
    var uid1, uid2 := iv1[i].userId, iv2[j].userId;
    var rating1, rating2 := iv1[i].rating, iv2[j].rating;
    ghost var met: seq<(UserRating<F>, UserRating<F>)> := [];
    MergeStarts(iv1, iv2);
    NoMoments(n);
    while true
      invariant i < |iv1| && j < |iv2| && Merging(iv1, iv2, i, j, met)
      invariant iv1[i] == UserRating(uid1, rating1) && iv2[j] == UserRating(uid2, rating2)
      invariant MomentsOf(n, met) == Moments(sum, norm1, norm2)
      decreases |iv1| - i + |iv2| - j
    {
      MergeNext(iv1, iv2, i, j, met);
      if uid1 == uid2 {
        MomentsNext(n, met, iv1[i], iv2[j]);
        met := met + [(iv1[i], iv2[j])];
        sum := n.add(sum, n.mul(rating1, rating2));
        norm1 := n.add(norm1, n.mul(rating1, rating1));
        norm2 := n.add(norm2, n.mul(rating2, rating2));
        i, j := i + 1, j + 1;
        if i == |iv1| || j == |iv2| { break; }
        uid1, rating1 := iv1[i].userId, iv1[i].rating;
        uid2, rating2 := iv2[j].userId, iv2[j].rating;
      } else if uid1 < uid2 {
        i := i + 1;
        if i == |iv1| { break; }
        uid1, rating1 := iv1[i].userId, iv1[i].rating;
      } else {
        j := j + 1;
        if j == |iv2| { break; }
        uid2, rating2 := iv2[j].userId, iv2[j].rating;
      }
    }
    MergeEnds(iv1, iv2, i, j, met);
    var denominator := n.sqrt(n.mul(norm1, norm2));
    r := n.toFloat(n.div(sum, n.add(denominator, n.eps)));
  }

  lemma NoMoments<F>(n: Numbers<F>)
    ensures MomentsOf(n, []) == Moments(n.zero, n.zero, n.zero)
  {
  }

  /** The loop that both binary similarities write out. */
  method CountCommon<F>(iv1: ItemVec<F>, iv2: ItemVec<F>) returns (count: nat)
    requires |iv1| > 0 && |iv2| > 0
    ensures count == |Meet(iv1, iv2)|
  {
    hide Merging, Meet;
    count := 0;
    var i, j := 0, 0;
    var uid1, uid2 := iv1[i].userId, iv2[j].userId;
    ghost var met: seq<(UserRating<F>, UserRating<F>)> := [];
    MergeStarts(iv1, iv2);
    while true
      invariant i < |iv1| && j < |iv2| && Merging(iv1, iv2, i, j, met)
      invariant uid1 == iv1[i].userId && uid2 == iv2[j].userId && count == |met|
      decreases |iv1| - i + |iv2| - j
    {
      MergeNext(iv1, iv2, i, j, met);
      if uid1 == uid2 {
        met := met + [(iv1[i], iv2[j])];
        count := count + 1;
        i, j := i + 1, j + 1;
        if i == |iv1| || j == |iv2| { break; }
        uid1, uid2 := iv1[i].userId, iv2[j].userId;
      } else if uid1 < uid2 {
        i := i + 1;
        if i == |iv1| { break; }
        uid1 := iv1[i].userId;
      } else {
        j := j + 1;
        if j == |iv2| { break; }
        uid2 := iv2[j].userId;
      }
    }
    MergeEnds(iv1, iv2, i, j, met);
  }

  method ComputeBinaryCosineSimilarity<F>(n: Numbers<F>, iv1: ItemVec<F>, iv2: ItemVec<F>) returns (r: F)
    ensures r == BinaryCosineOf(n, iv1, iv2)
  {
    if |iv1| == 0 { return n.zero; }
    if |iv2| == 0 { return n.zero; }
    var count := CountCommon(iv1, iv2);
    r := n.toFloat(n.div(n.fromInt(count), n.sqrt(n.mul(n.fromInt(|iv1|), n.fromInt(|iv2|)))));
  }

  method ComputeBinaryJaccardSimilarity<F>(n: Numbers<F>, iv1: ItemVec<F>, iv2: ItemVec<F>) returns (r: F)
    ensures r == BinaryJaccardOf(n, iv1, iv2)
  {
    if |iv1| == 0 { return n.zero; }
    if |iv2| == 0 { return n.zero; }
    var count := CountCommon(iv1, iv2);
    r := n.toFloat(n.div(n.fromInt(count), n.fromInt(|iv1| + |iv2| - count)));
  }

  method ComputeSimilarity<F>(n: Numbers<F>, param: Parameter, iv1: ItemVec<F>, iv2: ItemVec<F>) returns (r: F)
    ensures r == SimilarityOf(n, param, iv1, iv2)
    ensures param.ratingType == Numerical ==> r == CosineOf(n, iv1, iv2)
    ensures param == Parameter(Binary, BinaryCosine) ==> r == BinaryCosineOf(n, iv1, iv2)
    ensures param == Parameter(Binary, BinaryJaccard) ==> r == BinaryJaccardOf(n, iv1, iv2)
    ensures param.ratingType == Binary && !param.simType.BinaryCosine? && !param.simType.BinaryJaccard? ==> r == n.zero
  {
    if param.ratingType == Numerical {
      r := ComputeCosineSimilarity(n, iv1, iv2);
    } else if param.simType == BinaryCosine {
      r := ComputeBinaryCosineSimilarity(n, iv1, iv2);
    } else if param.simType == BinaryJaccard {
      r := ComputeBinaryJaccardSimilarity(n, iv1, iv2);
    } else {
      r := n.zero;
    }
  }
}
