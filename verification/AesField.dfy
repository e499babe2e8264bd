/**
 Multiplication in GF(2^8) by a factor of four bits, and the column mixing it serves (FIPS 197,
 sections 4.2, 5.1.3 and 5.3.3). Beyond the first few lemmas nothing is done on bits: the laws of
 addition and the linearity of `XTime` are enough.
 */
module AesField {

  function Add(x: bv8, y: bv8): bv8 {
    x ^ y
  }

  function Sum(a: bv8, b: bv8, c: bv8, d: bv8): bv8 {
    Add(Add(Add(a, b), c), d)
  }

  function When(c: bool, v: bv8): bv8 {
    if c then v else 0
  }

  function Shifted(b: bv8): bv8 {
    b << 1
  }

  function Carry(b: bv8): bv8 {
    When(b & 0x80 != 0, 0x1b)
  }

  /** Multiplication by x modulo x^8 + x^4 + x^3 + x + 1. */
  function XTime(b: bv8): bv8 {
    Add(Shifted(b), Carry(b))
  }

  function Pick(a: bv8, bit: bv8, v: bv8): bv8 {
    When(a & bit != 0, v)
  }

  /** The product with the polynomial in the low four bits of a. */
  function Mul(a: bv8, b: bv8): bv8 {
    Sum(Pick(a, 1, b), Pick(a, 2, XTime(b)), Pick(a, 4, XTime(XTime(b))), Pick(a, 8, XTime(XTime(XTime(b)))))
  }

  // ----- Laws of addition -----

  lemma AddComm(x: bv8, y: bv8)
    ensures Add(x, y) == Add(y, x)
  {
  }

  lemma AddAssoc(x: bv8, y: bv8, z: bv8)
    ensures Add(Add(x, y), z) == Add(x, Add(y, z))
  {
  }

  lemma AddSelf(x: bv8)
    ensures Add(x, x) == 0 && Add(x, 0) == x && Add(0, x) == x
  {
  }

  lemma Interchange(a: bv8, b: bv8, c: bv8, d: bv8)
    ensures Add(Add(a, b), Add(c, d)) == Add(Add(a, c), Add(b, d))
  {
    AddAssoc(a, b, Add(c, d));
    AddAssoc(b, c, d);
    AddComm(b, c);
    AddAssoc(c, b, d);
    AddAssoc(a, c, Add(b, d));
  }

  lemma SumLinear(a: bv8, b: bv8, c: bv8, d: bv8, e: bv8, f: bv8, g: bv8, h: bv8)
    ensures Sum(Add(a, e), Add(b, f), Add(c, g), Add(d, h)) == Add(Sum(a, b, c, d), Sum(e, f, g, h))
  {
    Interchange(a, e, b, f);
    Interchange(Add(a, b), Add(e, f), c, g);
    Interchange(Add(Add(a, b), c), Add(Add(e, f), g), d, h);
  }

  lemma Rotate(a: bv8, b: bv8, c: bv8, d: bv8)
    ensures Sum(a, b, c, d) == Sum(d, a, b, c)
  {
    AddComm(Add(Add(a, b), c), d);
    AddAssoc(d, Add(a, b), c);
    AddAssoc(d, a, b);
  }

  lemma Transpose(a0: bv8, a1: bv8, a2: bv8, a3: bv8, b0: bv8, b1: bv8, b2: bv8, b3: bv8,
                  c0: bv8, c1: bv8, c2: bv8, c3: bv8, d0: bv8, d1: bv8, d2: bv8, d3: bv8)
    ensures Sum(Sum(a0, a1, a2, a3), Sum(b0, b1, b2, b3), Sum(c0, c1, c2, c3), Sum(d0, d1, d2, d3)) ==
            Sum(Sum(a0, b0, c0, d0), Sum(a1, b1, c1, d1), Sum(a2, b2, c2, d2), Sum(a3, b3, c3, d3))
  {
    SumLinear(a0, a1, a2, a3, b0, b1, b2, b3);
    SumLinear(Add(a0, b0), Add(a1, b1), Add(a2, b2), Add(a3, b3), c0, c1, c2, c3);
    SumLinear(Add(Add(a0, b0), c0), Add(Add(a1, b1), c1), Add(Add(a2, b2), c2), Add(Add(a3, b3), c3), d0, d1, d2, d3);
  }

  // ----- Multiplication distributes over addition -----

  lemma PickLinear(a: bv8, bit: bv8, x: bv8, y: bv8)
    ensures Pick(a, bit, Add(x, y)) == Add(Pick(a, bit, x), Pick(a, bit, y))
  {
    AddSelf(0);
  }

  lemma ShiftedLinear(x: bv8, y: bv8)
    ensures Shifted(Add(x, y)) == Add(Shifted(x), Shifted(y))
  {
  }

  lemma CarryLinear(x: bv8, y: bv8)
    ensures Carry(Add(x, y)) == Add(Carry(x), Carry(y))
  {
    AddSelf(0x1b);
    AddSelf(0);
  }

  lemma XTimeLinear(x: bv8, y: bv8)
    ensures XTime(Add(x, y)) == Add(XTime(x), XTime(y))
  {
    ShiftedLinear(x, y);
    CarryLinear(x, y);
    Interchange(Shifted(x), Shifted(y), Carry(x), Carry(y));
  }

  lemma XTimeZero()
    ensures XTime(0) == 0
  {
    AddSelf(0);
  }

  lemma Distributes(a: bv8, x: bv8, y: bv8)
    ensures Mul(a, Add(x, y)) == Add(Mul(a, x), Mul(a, y))
  {
    var x2, y2 := XTime(x), XTime(y);
    var x4, y4 := XTime(x2), XTime(y2);
    var x8, y8 := XTime(x4), XTime(y4);
    XTimeLinear(x, y);
    XTimeLinear(x2, y2);
    XTimeLinear(x4, y4);
    PickLinear(a, 1, x, y);
    PickLinear(a, 2, x2, y2);
    PickLinear(a, 4, x4, y4);
    PickLinear(a, 8, x8, y8);
    SumLinear(Pick(a, 1, x), Pick(a, 2, x2), Pick(a, 4, x4), Pick(a, 8, x8), Pick(a, 1, y), Pick(a, 2, y2),
        Pick(a, 4, y4), Pick(a, 8, y8));
  }

  lemma DistributesOverSum(a: bv8, x: bv8, y: bv8, z: bv8, u: bv8)
    ensures Mul(a, Sum(x, y, z, u)) == Sum(Mul(a, x), Mul(a, y), Mul(a, z), Mul(a, u))
  {
    Distributes(a, Add(Add(x, y), z), u);
    Distributes(a, Add(x, y), z);
    Distributes(a, x, y);
  }

  // ----- Products as combinations of b, b*x, b*x^2, b*x^3 and b*x^4 -----

  datatype Powers = Powers(p1: bv8, p2: bv8, p4: bv8, p8: bv8, p16: bv8)

  function PowersOf(b: bv8): Powers {
    var p2 := XTime(b);
    var p4 := XTime(p2);
    var p8 := XTime(p4);
    Powers(b, p2, p4, p8, XTime(p8))
  }

  function Combine(p: Powers, c1: bool, c2: bool, c4: bool, c8: bool, c16: bool): bv8 {
    Add(Sum(When(c1, p.p1), When(c2, p.p2), When(c4, p.p4), When(c8, p.p8)), When(c16, p.p16))
  }

  lemma WhenAdds(c: bool, d: bool, v: bv8)
    ensures Add(When(c, v), When(d, v)) == When(c != d, v)
  {
    AddSelf(v);
    AddSelf(0);
  }

  lemma CombineAdds(p: Powers, c1: bool, c2: bool, c4: bool, c8: bool, c16: bool, d1: bool, d2: bool, d4: bool,
      d8: bool, d16: bool)
    ensures Add(Combine(p, c1, c2, c4, c8, c16), Combine(p, d1, d2, d4, d8, d16)) ==
            Combine(p, c1 != d1, c2 != d2, c4 != d4, c8 != d8, c16 != d16)
  {
    var s := Sum(When(c1, p.p1), When(c2, p.p2), When(c4, p.p4), When(c8, p.p8));
    var t := Sum(When(d1, p.p1), When(d2, p.p2), When(d4, p.p4), When(d8, p.p8));
    Interchange(s, When(c16, p.p16), t, When(d16, p.p16));
    SumLinear(When(c1, p.p1), When(c2, p.p2), When(c4, p.p4), When(c8, p.p8), When(d1, p.p1), When(d2, p.p2),
        When(d4, p.p4), When(d8, p.p8));
    WhenAdds(c1, d1, p.p1);
    WhenAdds(c2, d2, p.p2);
    WhenAdds(c4, d4, p.p4);
    WhenAdds(c8, d8, p.p8);
    WhenAdds(c16, d16, p.p16);
  }

  /** b times c1 + c2 x. */
  function Linear(p: Powers, c1: bool, c2: bool): bv8 {
    Combine(p, c1, c2, false, false, false)
  }

  lemma XTimeWhen(c: bool, v: bv8)
    ensures XTime(When(c, v)) == When(c, XTime(v))
  {
    XTimeZero();
  }

  /** Multiplication by x moves every coefficient of a combination one place up. */
  lemma XTimeCombine(b: bv8, c1: bool, c2: bool, c4: bool, c8: bool)
    ensures XTime(Combine(PowersOf(b), c1, c2, c4, c8, false)) == Combine(PowersOf(b), false, c1, c2, c4, c8)
  {
    var p := PowersOf(b);
    var w1, w2, w4, w8 := When(c1, p.p1), When(c2, p.p2), When(c4, p.p4), When(c8, p.p8);
    AddSelf(Sum(w1, w2, w4, w8));
    XTimeLinear(Add(Add(w1, w2), w4), w8);
    XTimeLinear(Add(w1, w2), w4);
    XTimeLinear(w1, w2);
    XTimeWhen(c1, p.p1);
    XTimeWhen(c2, p.p2);
    XTimeWhen(c4, p.p4);
    XTimeWhen(c8, p.p8);
    AddSelf(When(c1, p.p2));
  }

  lemma Shifts(b: bv8, c1: bool, c2: bool)
    ensures var p, y := PowersOf(b), Linear(PowersOf(b), c1, c2);
      && XTime(y) == Combine(p, false, c1, c2, false, false)
      && XTime(XTime(y)) == Combine(p, false, false, c1, c2, false)
      && XTime(XTime(XTime(y))) == Combine(p, false, false, false, c1, c2)
  {
    XTimeCombine(b, c1, c2, false, false);
    XTimeCombine(b, false, c1, c2, false);
    XTimeCombine(b, false, false, c1, c2);
  }

  /** The factors that occur, as sums of powers of x. */
  lemma Factors(y: bv8)
    ensures var y2 := XTime(y); var y4 := XTime(y2); var y8 := XTime(y4);
      && Mul(0x09, y) == Add(y, y8)
      && Mul(0x0b, y) == Add(Add(y, y2), y8)
      && Mul(0x0d, y) == Add(Add(y, y4), y8)
      && Mul(0x0e, y) == Add(Add(y2, y4), y8)
  {
    var y2 := XTime(y);
    var y4 := XTime(y2);
    AddSelf(y);
    AddSelf(y2);
    AddSelf(Add(y, y2));
    AddSelf(0);
  }

  lemma SmallFactors(b: bv8)
    ensures Mul(1, b) == Linear(PowersOf(b), true, false)
    ensures Mul(2, b) == Linear(PowersOf(b), false, true)
    ensures Mul(3, b) == Linear(PowersOf(b), true, true)
  {
    var x := XTime(b);
    AddSelf(b);
    AddSelf(x);
    AddSelf(0);
    AddSelf(Add(b, x));
  }

  // ----- The two mixing matrices are inverse -----

  /** One entry of a mixed column; the other entries rotate the arguments. */
  function Mix(t0: bv8, t1: bv8, t2: bv8, t3: bv8): bv8 {
    Sum(Mul(0x02, t0), Mul(0x03, t1), Mul(0x01, t2), Mul(0x01, t3))
  }

  function InvMix(t0: bv8, t1: bv8, t2: bv8, t3: bv8): bv8 {
    Sum(Mul(0x0e, t0), Mul(0x0b, t1), Mul(0x0d, t2), Mul(0x09, t3))
  }

  lemma TimesFourteen(b: bv8)
    ensures var p := PowersOf(b);
      && Mul(0x0e, Mul(0x01, b)) == Combine(p, false, true, true, true, false)
      && Mul(0x0e, Mul(0x02, b)) == Combine(p, false, false, true, true, true)
      && Mul(0x0e, Mul(0x03, b)) == Combine(p, false, true, false, false, true)
  {
    var p := PowersOf(b);
    SmallFactors(b);
    Shifts(b, true, false);
    Factors(Linear(p, true, false));
    CombineAdds(p, false, true, false, false, false, false, false, true, false, false);
    CombineAdds(p, false, true, true, false, false, false, false, false, true, false);
    Shifts(b, false, true);
    Factors(Linear(p, false, true));
    CombineAdds(p, false, false, true, false, false, false, false, false, true, false);
    CombineAdds(p, false, false, true, true, false, false, false, false, false, true);
    Shifts(b, true, true);
    Factors(Linear(p, true, true));
    CombineAdds(p, false, true, true, false, false, false, false, true, true, false);
    CombineAdds(p, false, true, false, true, false, false, false, false, true, true);
  }

  lemma TimesEleven(b: bv8)
    ensures var p := PowersOf(b);
      && Mul(0x0b, Mul(0x01, b)) == Combine(p, true, true, false, true, false)
      && Mul(0x0b, Mul(0x02, b)) == Combine(p, false, true, true, false, true)
      && Mul(0x0b, Mul(0x03, b)) == Combine(p, true, false, true, true, true)
  {
    var p := PowersOf(b);
    SmallFactors(b);
    Shifts(b, true, false);
    Factors(Linear(p, true, false));
    CombineAdds(p, true, false, false, false, false, false, true, false, false, false);
    CombineAdds(p, true, true, false, false, false, false, false, false, true, false);
    Shifts(b, false, true);
    Factors(Linear(p, false, true));
    CombineAdds(p, false, true, false, false, false, false, false, true, false, false);
    CombineAdds(p, false, true, true, false, false, false, false, false, false, true);
    Shifts(b, true, true);
    Factors(Linear(p, true, true));
    CombineAdds(p, true, true, false, false, false, false, true, true, false, false);
    CombineAdds(p, true, false, true, false, false, false, false, false, true, true);
  }

  lemma TimesThirteen(b: bv8)
    ensures var p := PowersOf(b);
      && Mul(0x0d, Mul(0x01, b)) == Combine(p, true, false, true, true, false)
      && Mul(0x0d, Mul(0x02, b)) == Combine(p, false, true, false, true, true)
      && Mul(0x0d, Mul(0x03, b)) == Combine(p, true, true, true, false, true)
  {
    var p := PowersOf(b);
    SmallFactors(b);
    Shifts(b, true, false);
    Factors(Linear(p, true, false));
    CombineAdds(p, true, false, false, false, false, false, false, true, false, false);
    CombineAdds(p, true, false, true, false, false, false, false, false, true, false);
    Shifts(b, false, true);
    Factors(Linear(p, false, true));
    CombineAdds(p, false, true, false, false, false, false, false, false, true, false);
    CombineAdds(p, false, true, false, true, false, false, false, false, false, true);
    Shifts(b, true, true);
    Factors(Linear(p, true, true));
    CombineAdds(p, true, true, false, false, false, false, false, true, true, false);
    CombineAdds(p, true, true, true, true, false, false, false, false, true, true);
  }

  lemma TimesNine(b: bv8)
    ensures var p := PowersOf(b);
      && Mul(0x09, Mul(0x01, b)) == Combine(p, true, false, false, true, false)
      && Mul(0x09, Mul(0x02, b)) == Combine(p, false, true, false, false, true)
      && Mul(0x09, Mul(0x03, b)) == Combine(p, true, true, false, true, true)
  {
    var p := PowersOf(b);
    SmallFactors(b);
    Shifts(b, true, false);
    Factors(Linear(p, true, false));
    CombineAdds(p, true, false, false, false, false, false, false, false, true, false);
    Shifts(b, false, true);
    Factors(Linear(p, false, true));
    CombineAdds(p, false, true, false, false, false, false, false, false, false, true);
    Shifts(b, true, true);
    Factors(Linear(p, true, true));
    CombineAdds(p, true, true, false, false, false, false, false, false, true, true);
  }

  /** The entries of the product of the two matrices: one on the diagonal ... */
  lemma Diagonal(b: bv8)
    ensures Sum(Mul(0x0e, Mul(0x02, b)), Mul(0x0b, Mul(0x01, b)), Mul(0x0d, Mul(0x01, b)), Mul(0x09, Mul(0x03, b))) == b
  {
    var p := PowersOf(b);
    TimesFourteen(b);
    TimesEleven(b);
    TimesThirteen(b);
    TimesNine(b);
    CombineAdds(p, false, false, true, true, true, true, true, false, true, false);
    CombineAdds(p, true, true, true, false, true, true, false, true, true, false);
    CombineAdds(p, false, true, false, true, true, true, true, false, true, true);
    AddSelf(b);
    AddSelf(0);
  }

  /** ... and zero elsewhere. */
  lemma FirstOff(b: bv8)
    ensures Sum(Mul(0x0e, Mul(0x03, b)), Mul(0x0b, Mul(0x02, b)), Mul(0x0d, Mul(0x01, b)), Mul(0x09, Mul(0x01, b))) == 0
  {
    var p := PowersOf(b);
    TimesFourteen(b);
    TimesEleven(b);
    TimesThirteen(b);
    TimesNine(b);
    CombineAdds(p, false, true, false, false, true, false, true, true, false, true);
    CombineAdds(p, false, false, true, false, false, true, false, true, true, false);
    CombineAdds(p, true, false, false, true, false, true, false, false, true, false);
    AddSelf(0);
    AddSelf(0);
  }

  lemma SecondOff(b: bv8)
    ensures Sum(Mul(0x0e, Mul(0x01, b)), Mul(0x0b, Mul(0x03, b)), Mul(0x0d, Mul(0x02, b)), Mul(0x09, Mul(0x01, b))) == 0
  {
    var p := PowersOf(b);
    TimesFourteen(b);
    TimesEleven(b);
    TimesThirteen(b);
    TimesNine(b);
    CombineAdds(p, false, true, true, true, false, true, false, true, true, true);
    CombineAdds(p, true, true, false, false, true, false, true, false, true, true);
    CombineAdds(p, true, false, false, true, false, true, false, false, true, false);
    AddSelf(0);
    AddSelf(0);
  }

  lemma ThirdOff(b: bv8)
    ensures Sum(Mul(0x0e, Mul(0x01, b)), Mul(0x0b, Mul(0x01, b)), Mul(0x0d, Mul(0x03, b)), Mul(0x09, Mul(0x02, b))) == 0
  {
    var p := PowersOf(b);
    TimesFourteen(b);
    TimesEleven(b);
    TimesThirteen(b);
    TimesNine(b);
    CombineAdds(p, false, true, true, true, false, true, true, false, true, false);
    CombineAdds(p, true, false, true, false, false, true, true, true, false, true);
    CombineAdds(p, false, true, false, false, true, false, true, false, false, true);
    AddSelf(0);
    AddSelf(0);
  }

  lemma SumWithZeros(x: bv8)
    ensures Sum(x, 0, 0, 0) == x
  {
    AddSelf(x);
  }

  lemma MixOnce(t0: bv8, t1: bv8, t2: bv8, t3: bv8)
    ensures Mix(t1, t2, t3, t0) == Sum(Mul(0x01, t0), Mul(0x02, t1), Mul(0x03, t2), Mul(0x01, t3))
  {
    Rotate(Mul(0x02, t1), Mul(0x03, t2), Mul(0x01, t3), Mul(0x01, t0));
  }

  lemma MixTwice(t0: bv8, t1: bv8, t2: bv8, t3: bv8)
    ensures Mix(t2, t3, t0, t1) == Sum(Mul(0x01, t0), Mul(0x01, t1), Mul(0x02, t2), Mul(0x03, t3))
  {
    Rotate(Mul(0x02, t2), Mul(0x03, t3), Mul(0x01, t0), Mul(0x01, t1));
    Rotate(Mul(0x01, t1), Mul(0x02, t2), Mul(0x03, t3), Mul(0x01, t0));
  }

  lemma MixThrice(t0: bv8, t1: bv8, t2: bv8, t3: bv8)
    ensures Mix(t3, t0, t1, t2) == Sum(Mul(0x03, t0), Mul(0x01, t1), Mul(0x01, t2), Mul(0x02, t3))
  {
    Rotate(Mul(0x03, t0), Mul(0x01, t1), Mul(0x01, t2), Mul(0x02, t3));
  }

  /** Mixing a column and mixing it back gives its first entry, hence by rotation every entry. */
  lemma InvMixAfterMix(t0: bv8, t1: bv8, t2: bv8, t3: bv8)
    ensures InvMix(Mix(t0, t1, t2, t3), Mix(t1, t2, t3, t0), Mix(t2, t3, t0, t1), Mix(t3, t0, t1, t2)) == t0
  {
    MixOnce(t0, t1, t2, t3);
    MixTwice(t0, t1, t2, t3);
    MixThrice(t0, t1, t2, t3);
    DistributesOverSum(0x0e, Mul(0x02, t0), Mul(0x03, t1), Mul(0x01, t2), Mul(0x01, t3));
    DistributesOverSum(0x0b, Mul(0x01, t0), Mul(0x02, t1), Mul(0x03, t2), Mul(0x01, t3));
    DistributesOverSum(0x0d, Mul(0x01, t0), Mul(0x01, t1), Mul(0x02, t2), Mul(0x03, t3));
    DistributesOverSum(0x09, Mul(0x03, t0), Mul(0x01, t1), Mul(0x01, t2), Mul(0x02, t3));
    Transpose(
      Mul(0x0e, Mul(0x02, t0)), Mul(0x0e, Mul(0x03, t1)), Mul(0x0e, Mul(0x01, t2)), Mul(0x0e, Mul(0x01, t3)),
      Mul(0x0b, Mul(0x01, t0)), Mul(0x0b, Mul(0x02, t1)), Mul(0x0b, Mul(0x03, t2)), Mul(0x0b, Mul(0x01, t3)),
      Mul(0x0d, Mul(0x01, t0)), Mul(0x0d, Mul(0x01, t1)), Mul(0x0d, Mul(0x02, t2)), Mul(0x0d, Mul(0x03, t3)),
      Mul(0x09, Mul(0x03, t0)), Mul(0x09, Mul(0x01, t1)), Mul(0x09, Mul(0x01, t2)), Mul(0x09, Mul(0x02, t3)));
    Diagonal(t0);
    FirstOff(t1);
    SecondOff(t2);
    ThirdOff(t3);
    SumWithZeros(t0);
  }
}
