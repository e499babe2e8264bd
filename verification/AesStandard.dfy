/**
 What FIPS 197 demands of the tables, constants, layers and round keys, in the terms of its own sections: products
 modulo x^8 + x^4 + x^3 + x + 1, the affine form of the substitution, the recurrence of the key expansion and
 the equations of the rounds. Apart from the substitution table, which has its own law, these statements refer to
 nothing the code computes with.
 */
module AesStandard {
  import opened AesField
  import opened AesTables
  import opened RoundCiphers
  import opened StateLayers
  import opened AesCipher
  import opened AesKeySchedule
  import opened AesText

  // ----- Products, section 4.2 -----

  /** The product of two polynomials over the bits modulo x^8 + x^4 + x^3 + x + 1, which leaves 0x1b of x^8. */
  function Product(a: bv8, b: bv8): bv8 {
    var b1 := (b << 1) ^ (if b & 0x80 != 0 then 0x1b else 0);
    var b2 := (b1 << 1) ^ (if b1 & 0x80 != 0 then 0x1b else 0);
    var b3 := (b2 << 1) ^ (if b2 & 0x80 != 0 then 0x1b else 0);
    var b4 := (b3 << 1) ^ (if b3 & 0x80 != 0 then 0x1b else 0);
    var b5 := (b4 << 1) ^ (if b4 & 0x80 != 0 then 0x1b else 0);
    var b6 := (b5 << 1) ^ (if b5 & 0x80 != 0 then 0x1b else 0);
    var b7 := (b6 << 1) ^ (if b6 & 0x80 != 0 then 0x1b else 0);
    (if a & 0x01 != 0 then b else 0) ^ (if a & 0x02 != 0 then b1 else 0) ^
    (if a & 0x04 != 0 then b2 else 0) ^ (if a & 0x08 != 0 then b3 else 0) ^
    (if a & 0x10 != 0 then b4 else 0) ^ (if a & 0x20 != 0 then b5 else 0) ^
    (if a & 0x40 != 0 then b6 else 0) ^ (if a & 0x80 != 0 then b7 else 0)
  }

  lemma XTimeBits(b: bv8)
    ensures XTime(b) == (b << 1) ^ (if b & 0x80 != 0 then 0x1b else 0)
  {
  }

  function Term(a: bv8, bit: bv8, v: bv8): bv8 {
    if a & bit != 0 then v else 0
  }

  function LowBits(a: bv8, b: bv8, b1: bv8, b2: bv8, b3: bv8): bv8 {
    Term(a, 0x01, b) ^ Term(a, 0x02, b1) ^ Term(a, 0x04, b2) ^ Term(a, 0x08, b3)
  }

  lemma SumBits(p: bv8, q: bv8, r: bv8, s: bv8)
    ensures Sum(p, q, r, s) == p ^ q ^ r ^ s
  {
  }

  lemma PickBit(a: bv8, bit: bv8, v: bv8)
    ensures Pick(a, bit, v) == Term(a, bit, v)
  {
  }

  lemma PickBits(a: bv8, b: bv8, b1: bv8, b2: bv8, b3: bv8)
    ensures Sum(Pick(a, 1, b), Pick(a, 2, b1), Pick(a, 4, b2), Pick(a, 8, b3)) == LowBits(a, b, b1, b2, b3)
  {
    hide Sum, Pick, Term;
    SumBits(Pick(a, 1, b), Pick(a, 2, b1), Pick(a, 4, b2), Pick(a, 8, b3));
    PickBit(a, 1, b);
    PickBit(a, 2, b1);
    PickBit(a, 4, b2);
    PickBit(a, 8, b3);
  }

  lemma LowProduct(a: bv8, b: bv8, b1: bv8, b2: bv8, b3: bv8)
    requires a & 0x10 == 0 && a & 0x20 == 0 && a & 0x40 == 0 && a & 0x80 == 0
    requires b1 == (b << 1) ^ (if b & 0x80 != 0 then 0x1b else 0)
    requires b2 == (b1 << 1) ^ (if b1 & 0x80 != 0 then 0x1b else 0)
    requires b3 == (b2 << 1) ^ (if b2 & 0x80 != 0 then 0x1b else 0)
    ensures Product(a, b) == LowBits(a, b, b1, b2, b3)
  {
  }

  lemma HighBitsClear(a: bv8)
    requires a < 16
    ensures a & 0x10 == 0 && a & 0x20 == 0 && a & 0x40 == 0 && a & 0x80 == 0
  {
  }

  /** The multiplication by four bits that the code carries out is this product. */
  lemma MulIsProduct(a: bv8, b: bv8)
    requires a < 16
    ensures Mul(a, b) == Product(a, b)
  {
    hide XTime, Sum, Pick, Product, LowBits;
    var b1 := XTime(b);
    var b2 := XTime(b1);
    var b3 := XTime(b2);
    PickBits(a, b, b1, b2, b3);
    HighBitsClear(a);
    XTimeBits(b);
    XTimeBits(b1);
    XTimeBits(b2);
    LowProduct(a, b, b1, b2, b3);
  }

  // ----- The substitution, section 5.1.1 -----

  function Affine(y: bv8): bv8 {
    y ^ ((y << 1) | (y >> 7)) ^ ((y << 2) | (y >> 6)) ^ ((y << 3) | (y >> 5)) ^ ((y << 4) | (y >> 4)) ^ 0x63
  }

  function Unaffine(z: bv8): bv8 {
    ((z << 1) | (z >> 7)) ^ ((z << 3) | (z >> 5)) ^ ((z << 6) | (z >> 2)) ^ 0x05
  }

  lemma AffineUnaffine(z: bv8)
    ensures Affine(Unaffine(z)) == z
  {
  }

  /** The byte whose affine image the table holds for x. */
  function InverseOf(x: bv8): bv8 {
    Unaffine(Sub(x))
  }

  // One lemma for each row of the table: every byte with that high nibble is inverted.

  lemma InverseRow0(x: bv8)
    requires x >> 4 == 0 && x != 0
    ensures Product(x, InverseOf(x)) == 1
  {
    if x == 0x01 {} else if x == 0x02 {} else if x == 0x03 {} else if x == 0x04 {}
    else if x == 0x05 {} else if x == 0x06 {} else if x == 0x07 {} else if x == 0x08 {}
    else if x == 0x09 {} else if x == 0x0a {} else if x == 0x0b {} else if x == 0x0c {}
    else if x == 0x0d {} else if x == 0x0e {} else {}
  }

  lemma InverseRow1(x: bv8)
    requires x >> 4 == 1
    ensures Product(x, InverseOf(x)) == 1
  {
    if x == 0x10 {} else if x == 0x11 {} else if x == 0x12 {} else if x == 0x13 {}
    else if x == 0x14 {} else if x == 0x15 {} else if x == 0x16 {} else if x == 0x17 {}
    else if x == 0x18 {} else if x == 0x19 {} else if x == 0x1a {} else if x == 0x1b {}
    else if x == 0x1c {} else if x == 0x1d {} else if x == 0x1e {} else {}
  }

  lemma InverseRow2(x: bv8)
    requires x >> 4 == 2
    ensures Product(x, InverseOf(x)) == 1
  {
    if x == 0x20 {} else if x == 0x21 {} else if x == 0x22 {} else if x == 0x23 {}
    else if x == 0x24 {} else if x == 0x25 {} else if x == 0x26 {} else if x == 0x27 {}
    else if x == 0x28 {} else if x == 0x29 {} else if x == 0x2a {} else if x == 0x2b {}
    else if x == 0x2c {} else if x == 0x2d {} else if x == 0x2e {} else {}
  }

  lemma InverseRow3(x: bv8)
    requires x >> 4 == 3
    ensures Product(x, InverseOf(x)) == 1
  {
    if x == 0x30 {} else if x == 0x31 {} else if x == 0x32 {} else if x == 0x33 {}
    else if x == 0x34 {} else if x == 0x35 {} else if x == 0x36 {} else if x == 0x37 {}
    else if x == 0x38 {} else if x == 0x39 {} else if x == 0x3a {} else if x == 0x3b {}
    else if x == 0x3c {} else if x == 0x3d {} else if x == 0x3e {} else {}
  }

  lemma InverseRow4(x: bv8)
    requires x >> 4 == 4
    ensures Product(x, InverseOf(x)) == 1
  {
    if x == 0x40 {} else if x == 0x41 {} else if x == 0x42 {} else if x == 0x43 {}
    else if x == 0x44 {} else if x == 0x45 {} else if x == 0x46 {} else if x == 0x47 {}
    else if x == 0x48 {} else if x == 0x49 {} else if x == 0x4a {} else if x == 0x4b {}
    else if x == 0x4c {} else if x == 0x4d {} else if x == 0x4e {} else {}
  }

  lemma InverseRow5(x: bv8)
    requires x >> 4 == 5
    ensures Product(x, InverseOf(x)) == 1
  {
    if x == 0x50 {} else if x == 0x51 {} else if x == 0x52 {} else if x == 0x53 {}
    else if x == 0x54 {} else if x == 0x55 {} else if x == 0x56 {} else if x == 0x57 {}
    else if x == 0x58 {} else if x == 0x59 {} else if x == 0x5a {} else if x == 0x5b {}
    else if x == 0x5c {} else if x == 0x5d {} else if x == 0x5e {} else {}
  }

  lemma InverseRow6(x: bv8)
    requires x >> 4 == 6
    ensures Product(x, InverseOf(x)) == 1
  {
    if x == 0x60 {} else if x == 0x61 {} else if x == 0x62 {} else if x == 0x63 {}
    else if x == 0x64 {} else if x == 0x65 {} else if x == 0x66 {} else if x == 0x67 {}
    else if x == 0x68 {} else if x == 0x69 {} else if x == 0x6a {} else if x == 0x6b {}
    else if x == 0x6c {} else if x == 0x6d {} else if x == 0x6e {} else {}
  }

  lemma InverseRow7(x: bv8)
    requires x >> 4 == 7
    ensures Product(x, InverseOf(x)) == 1
  {
    if x == 0x70 {} else if x == 0x71 {} else if x == 0x72 {} else if x == 0x73 {}
    else if x == 0x74 {} else if x == 0x75 {} else if x == 0x76 {} else if x == 0x77 {}
    else if x == 0x78 {} else if x == 0x79 {} else if x == 0x7a {} else if x == 0x7b {}
    else if x == 0x7c {} else if x == 0x7d {} else if x == 0x7e {} else {}
  }

  lemma InverseRow8(x: bv8)
    requires x >> 4 == 8
    ensures Product(x, InverseOf(x)) == 1
  {
    if x == 0x80 {} else if x == 0x81 {} else if x == 0x82 {} else if x == 0x83 {}
    else if x == 0x84 {} else if x == 0x85 {} else if x == 0x86 {} else if x == 0x87 {}
    else if x == 0x88 {} else if x == 0x89 {} else if x == 0x8a {} else if x == 0x8b {}
    else if x == 0x8c {} else if x == 0x8d {} else if x == 0x8e {} else {}
  }

  lemma InverseRow9(x: bv8)
    requires x >> 4 == 9
    ensures Product(x, InverseOf(x)) == 1
  {
    if x == 0x90 {} else if x == 0x91 {} else if x == 0x92 {} else if x == 0x93 {}
    else if x == 0x94 {} else if x == 0x95 {} else if x == 0x96 {} else if x == 0x97 {}
    else if x == 0x98 {} else if x == 0x99 {} else if x == 0x9a {} else if x == 0x9b {}
    else if x == 0x9c {} else if x == 0x9d {} else if x == 0x9e {} else {}
  }

  lemma InverseRowA(x: bv8)
    requires x >> 4 == 10
    ensures Product(x, InverseOf(x)) == 1
  {
    if x == 0xa0 {} else if x == 0xa1 {} else if x == 0xa2 {} else if x == 0xa3 {}
    else if x == 0xa4 {} else if x == 0xa5 {} else if x == 0xa6 {} else if x == 0xa7 {}
    else if x == 0xa8 {} else if x == 0xa9 {} else if x == 0xaa {} else if x == 0xab {}
    else if x == 0xac {} else if x == 0xad {} else if x == 0xae {} else {}
  }

  lemma InverseRowB(x: bv8)
    requires x >> 4 == 11
    ensures Product(x, InverseOf(x)) == 1
  {
    if x == 0xb0 {} else if x == 0xb1 {} else if x == 0xb2 {} else if x == 0xb3 {}
    else if x == 0xb4 {} else if x == 0xb5 {} else if x == 0xb6 {} else if x == 0xb7 {}
    else if x == 0xb8 {} else if x == 0xb9 {} else if x == 0xba {} else if x == 0xbb {}
    else if x == 0xbc {} else if x == 0xbd {} else if x == 0xbe {} else {}
  }

  lemma InverseRowC(x: bv8)
    requires x >> 4 == 12
    ensures Product(x, InverseOf(x)) == 1
  {
    if x == 0xc0 {} else if x == 0xc1 {} else if x == 0xc2 {} else if x == 0xc3 {}
    else if x == 0xc4 {} else if x == 0xc5 {} else if x == 0xc6 {} else if x == 0xc7 {}
    else if x == 0xc8 {} else if x == 0xc9 {} else if x == 0xca {} else if x == 0xcb {}
    else if x == 0xcc {} else if x == 0xcd {} else if x == 0xce {} else {}
  }

  lemma InverseRowD(x: bv8)
    requires x >> 4 == 13
    ensures Product(x, InverseOf(x)) == 1
  {
    if x == 0xd0 {} else if x == 0xd1 {} else if x == 0xd2 {} else if x == 0xd3 {}
    else if x == 0xd4 {} else if x == 0xd5 {} else if x == 0xd6 {} else if x == 0xd7 {}
    else if x == 0xd8 {} else if x == 0xd9 {} else if x == 0xda {} else if x == 0xdb {}
    else if x == 0xdc {} else if x == 0xdd {} else if x == 0xde {} else {}
  }

  lemma InverseRowE(x: bv8)
    requires x >> 4 == 14
    ensures Product(x, InverseOf(x)) == 1
  {
    if x == 0xe0 {} else if x == 0xe1 {} else if x == 0xe2 {} else if x == 0xe3 {}
    else if x == 0xe4 {} else if x == 0xe5 {} else if x == 0xe6 {} else if x == 0xe7 {}
    else if x == 0xe8 {} else if x == 0xe9 {} else if x == 0xea {} else if x == 0xeb {}
    else if x == 0xec {} else if x == 0xed {} else if x == 0xee {} else {}
  }

  lemma InverseRowF(x: bv8)
    requires x >> 4 == 15
    ensures Product(x, InverseOf(x)) == 1
  {
    if x == 0xf0 {} else if x == 0xf1 {} else if x == 0xf2 {} else if x == 0xf3 {}
    else if x == 0xf4 {} else if x == 0xf5 {} else if x == 0xf6 {} else if x == 0xf7 {}
    else if x == 0xf8 {} else if x == 0xf9 {} else if x == 0xfa {} else if x == 0xfb {}
    else if x == 0xfc {} else if x == 0xfd {} else if x == 0xfe {} else {}
  }

  /** The table holds the affine images of the inverses, with zero taken for the inverse of zero. */
  lemma SubIsAffineInverse(x: bv8)
    ensures Sub(x) == Affine(InverseOf(x))
    ensures if x == 0 then InverseOf(x) == 0 else Product(x, InverseOf(x)) == 1
  {
    AffineUnaffine(Sub(x));
    if x != 0 {
      IsInverted(x);
    }
  }

  lemma IsInverted(x: bv8)
    requires x != 0
    ensures Product(x, InverseOf(x)) == 1
  {
    hide Product, InverseOf;
    var h := x >> 4;
    if h == 0 { InverseRow0(x); }
    else if h == 1 { InverseRow1(x); }
    else if h == 2 { InverseRow2(x); }
    else if h == 3 { InverseRow3(x); }
    else if h == 4 { InverseRow4(x); }
    else if h == 5 { InverseRow5(x); }
    else if h == 6 { InverseRow6(x); }
    else if h == 7 { InverseRow7(x); }
    else if h == 8 { InverseRow8(x); }
    else if h == 9 { InverseRow9(x); }
    else if h == 10 { InverseRowA(x); }
    else if h == 11 { InverseRowB(x); }
    else if h == 12 { InverseRowC(x); }
    else if h == 13 { InverseRowD(x); }
    else if h == 14 { InverseRowE(x); }
    else { InverseRowF(x); }
  }

  // ----- The key expansion, section 5.2 -----

  /** The power x^(n-1) that goes into the n-th round key. */
  function Constant(n: nat): bv8 {
    if n <= 1 then 0x01 else Product(0x02, Constant(n - 1))
  }

  /** The constants of the code are these powers. */
  lemma {:induction false} ConstantsArePowers(n: nat)
    requires 1 <= n <= ROUNDS
    ensures n <= |RCON| && RCON[n - 1] == Constant(n)
    decreases n
  {
    if n > 1 {
      ConstantsArePowers(n - 1);
      NextConstant(n);
    }
  }

  lemma NextConstant(n: nat)
    requires 2 <= n <= ROUNDS
    ensures n <= |RCON| && RCON[n - 1] == Product(0x02, RCON[n - 2])
  {
    if n == 2 {} else if n == 3 {} else if n == 4 {} else if n == 5 {} else if n == 6 {}
    else if n == 7 {} else if n == 8 {} else if n == 9 {} else {}
  }

  /** Byte r of word i of the expanded key. */
  function WordByte(w: Keys, i: nat, r: nat): bv8
    requires i < 44 && r < 4
  {
    w[i / 4][4 * (i % 4) + r]
  }

  predicate ExpandedByte(key: Block, w: Keys, i: nat, r: nat)
    requires i < 44 && r < 4
  {
    WordByte(w, i, r) ==
    if i < 4 then key[4 * i + r]
    else if i % 4 != 0 then WordByte(w, i - 4, r) ^ WordByte(w, i - 1, r)
    else WordByte(w, i - 4, r) ^ Sub(WordByte(w, i - 1, (r + 1) % 4)) ^ (if r == 0 then Constant(i / 4) else 0)
  }

  ghost predicate IsExpansion(key: Block, w: Keys) {
    forall i: nat, r: nat :: i < 44 && r < 4 ==> ExpandedByte(key, w, i, r)
  }

  lemma ScheduleByte(key: Block, k: nat, j: nat, r: nat)
    requires k <= ROUNDS && j < 4 && r < 4
    ensures WordByte(Schedule(key), 4 * k + j, r) == KeyColumn(key, k, j)[r]
  {
    hide KeyColumn;
    assert (4 * k + j) / 4 == k && (4 * k + j) % 4 == j;
    assert Schedule(key)[k] == ScheduleRound(key, k);
  }

  lemma ScrambledByte(t: Word, k: nat, r: nat)
    requires 1 <= k <= ROUNDS && r < 4
    ensures Scrambled(t, k)[r] == Sub(t[(r + 1) % 4]) ^ (if r == 0 then Constant(k) else 0)
  {
    hide Sub, Constant;
    ConstantsArePowers(k);
    assert RotWord(t)[r] == t[(r + 1) % 4];
    assert Map(Sub, RotWord(t))[r] == Sub(t[(r + 1) % 4]);
    assert RoundConstant(k)[r] == if r == 0 then Constant(k) else 0;
    assert Scrambled(t, k)[r] == Add(Sub(t[(r + 1) % 4]), if r == 0 then Constant(k) else 0);
  }

  lemma ColumnByte(key: Block, k: nat, j: nat, r: nat)
    requires 1 <= k <= ROUNDS && j < 4 && r < 4
    ensures KeyColumn(key, k, j)[r] == KeyColumn(key, k - 1, j)[r] ^
            (if j != 0 then KeyColumn(key, k, j - 1)[r]
             else Sub(KeyColumn(key, k - 1, 3)[(r + 1) % 4]) ^ (if r == 0 then Constant(k) else 0))
  {
    hide Sub, Constant, Scrambled;
    assert KeyColumn(key, k, j)[r] == Add(KeyColumn(key, k - 1, j)[r], Feedback(key, k, j)[r]);
    if j == 0 {
      ScrambledByte(KeyColumn(key, k - 1, 3), k, r);
    }
  }

  lemma ScheduledByte(key: Block, k: nat, j: nat, r: nat)
    requires k <= ROUNDS && j < 4 && r < 4
    ensures ExpandedByte(key, Schedule(key), 4 * k + j, r)
  {
    hide WordByte, Schedule, Constant, KeyColumn, Sub;
    var i := 4 * k + j;
    assert i / 4 == k && i % 4 == j;
    ScheduleByte(key, k, j, r);
    if k == 0 {
      FirstColumn(key, j, r);
    } else {
      ColumnByte(key, k, j, r);
      assert i - 4 == 4 * (k - 1) + j;
      ScheduleByte(key, k - 1, j, r);
      if j != 0 {
        ScheduleByte(key, k, j - 1, r);
      } else {
        assert i - 1 == 4 * (k - 1) + 3;
        ScheduleByte(key, k - 1, 3, (r + 1) % 4);
        AddAssoc(KeyColumn(key, k - 1, 0)[r], Sub(KeyColumn(key, k - 1, 3)[(r + 1) % 4]),
                 if r == 0 then Constant(k) else 0);
      }
    }
  }

  lemma FirstColumn(key: Block, j: nat, r: nat)
    requires j < 4 && r < 4
    ensures KeyColumn(key, 0, j)[r] == key[4 * j + r]
  {
  }

  /** The schedule of the code is the expansion of the key. */
  lemma ScheduleExpands(key: Block)
    ensures IsExpansion(key, Schedule(key))
  {
    hide ExpandedByte, Schedule;
    forall i: nat, r: nat | i < 44 && r < 4
      ensures ExpandedByte(key, Schedule(key), i, r)
    {
      ScheduledByte(key, i / 4, i % 4, r);
    }
  }

  // ----- The cipher, sections 5.1.2 to 5.1.4 -----

  /** Row r and column c after the substitution and the shift of the rows. */
  function Moved(s: Block, r: nat, c: nat): bv8
    requires r < 4 && c < 4
  {
    Sub(s[r + 4 * ((c + r) % 4)])
  }

  /** The equation of round i for row r and column c, the state after round i being states[i]. */
  predicate RoundByte(w: Keys, b: Block, states: seq<Block>, i: nat, r: nat, c: nat)
    requires |states| == 11 && i <= 10 && r < 4 && c < 4
  {
    states[i][r + 4 * c] ==
    (if i == 0 then b[r + 4 * c]
     else if i == 10 then Moved(states[9], r, c)
     else Product(0x02, Moved(states[i - 1], r, c)) ^ Product(0x03, Moved(states[i - 1], (r + 1) % 4, c)) ^
          Moved(states[i - 1], (r + 2) % 4, c) ^ Moved(states[i - 1], (r + 3) % 4, c)) ^ w[i][r + 4 * c]
  }

  ghost predicate AreRounds(w: Keys, b: Block, states: seq<Block>) {
    |states| == 11 &&
    forall i: nat, r: nat, c: nat :: i <= 10 && r < 4 && c < 4 ==> RoundByte(w, b, states, i, r, c)
  }

  /** The block e ends rounds that start from b. */
  ghost predicate IsCipherOf(w: Keys, b: Block, e: Block) {
    exists states :: AreRounds(w, b, states) && states[10] == e
  }

  function RoundStates(w: Keys, b: Block): seq<Block> {
    seq(11, i requires 0 <= i < 11 => Encrypted(AES, w, b, i))
  }

  lemma MovedByte(s: Block, r: nat, c: nat)
    requires r < 4 && c < 4
    ensures SubstituteShift(s)[r + 4 * c] == Moved(s, r, c)
  {
    hide Sub;
    ShiftedEntry(Map(Sub, s), r, c);
  }

  lemma MixIsProducts(t0: bv8, t1: bv8, t2: bv8, t3: bv8)
    ensures Mix(t0, t1, t2, t3) == Product(0x02, t0) ^ Product(0x03, t1) ^ t2 ^ t3
  {
    hide Product, Mul, Sum;
    MulIsProduct(0x02, t0);
    MulIsProduct(0x03, t1);
    MulByOne(t2);
    MulByOne(t3);
    SumBits(Mul(0x02, t0), Mul(0x03, t1), Mul(0x01, t2), Mul(0x01, t3));
  }

  lemma MulByOne(b: bv8)
    ensures Mul(0x01, b) == b
  {
    MulIsProduct(0x01, b);
  }

  lemma MixedFrom<T>(f: (T, T, T, T) -> T, s: seq<T>, r: nat, c: nat)
    requires |s| == 16 && r < 4 && c < 4
    ensures Columns(f, s)[r + 4 * c] ==
            f(s[r + 4 * c], s[(r + 1) % 4 + 4 * c], s[(r + 2) % 4 + 4 * c], s[(r + 3) % 4 + 4 * c])
  {
    hide Columns;
    MixedEntry(f, s, r, c);
    assert Wrap(r + 1) == (r + 1) % 4 && Wrap(r + 2) == (r + 2) % 4 && Wrap(r + 3) == (r + 3) % 4 by {
      if r == 0 {} else if r == 1 {} else if r == 2 {} else {}
    }
    hide Wrap;
  }

  lemma MixedByte(s: Block, r: nat, c: nat)
    requires r < 4 && c < 4
    ensures MixAll(s)[r + 4 * c] == Product(0x02, s[r + 4 * c]) ^ Product(0x03, s[(r + 1) % 4 + 4 * c]) ^
                                    s[(r + 2) % 4 + 4 * c] ^ s[(r + 3) % 4 + 4 * c]
  {
    hide Product, Mix, Columns;
    MixedFrom(Mix, s, r, c);
    MixIsProducts(s[r + 4 * c], s[(r + 1) % 4 + 4 * c], s[(r + 2) % 4 + 4 * c], s[(r + 3) % 4 + 4 * c]);
  }

  lemma RoundOf(w: Keys, b: Block, i: nat)
    requires 1 <= i <= 10
    ensures var s := SubstituteShift(Encrypted(AES, w, b, i - 1));
            Encrypted(AES, w, b, i) == AddKey(if i != 10 then MixAll(s) else s, w[i])
  {
  }

  lemma KeyByte(s: Block, k: Block, x: nat)
    requires x < 16
    ensures AddKey(s, k)[x] == s[x] ^ k[x]
  {
    assert AddKey(s, k)[x] == Add(s[x], k[x]);
  }

  lemma MiddleByte(before: Block, k: Block, r: nat, c: nat)
    requires r < 4 && c < 4
    ensures AddKey(MixAll(SubstituteShift(before)), k)[r + 4 * c] ==
            (Product(0x02, Moved(before, r, c)) ^ Product(0x03, Moved(before, (r + 1) % 4, c)) ^
             Moved(before, (r + 2) % 4, c) ^ Moved(before, (r + 3) % 4, c)) ^ k[r + 4 * c]
  {
    hide Product, Moved, SubstituteShift, MixAll, AddKey;
    MovedByte(before, r, c);
    MovedByte(before, (r + 1) % 4, c);
    MovedByte(before, (r + 2) % 4, c);
    MovedByte(before, (r + 3) % 4, c);
    MixedByte(SubstituteShift(before), r, c);
    KeyByte(MixAll(SubstituteShift(before)), k, r + 4 * c);
  }

  lemma LastByte(before: Block, k: Block, r: nat, c: nat)
    requires r < 4 && c < 4
    ensures AddKey(SubstituteShift(before), k)[r + 4 * c] == Moved(before, r, c) ^ k[r + 4 * c]
  {
    hide Moved, SubstituteShift, AddKey;
    MovedByte(before, r, c);
    KeyByte(SubstituteShift(before), k, r + 4 * c);
  }

  lemma FirstRound(w: Keys, b: Block)
    ensures Encrypted(AES, w, b, 0) == AddKey(b, w[0])
  {
  }

  lemma RoundByteHolds(w: Keys, b: Block, i: nat, r: nat, c: nat)
    requires i <= 10 && r < 4 && c < 4
    ensures RoundByte(w, b, RoundStates(w, b), i, r, c)
  {
    hide Product, Moved, SubstituteShift, MixAll, AddKey, Encrypted;
    if i == 0 {
      FirstRound(w, b);
      KeyByte(b, w[0], r + 4 * c);
    } else {
      RoundOf(w, b, i);
      MiddleByte(Encrypted(AES, w, b, i - 1), w[i], r, c);
      LastByte(Encrypted(AES, w, b, i - 1), w[i], r, c);
    }
  }

  /** The block encryption of the code goes through the rounds of the standard. */
  lemma EncryptsByRounds(w: Keys, b: Block)
    ensures IsCipherOf(w, b, EncryptBlock(w, b))
  {
    hide RoundByte;
    forall i: nat, r: nat, c: nat | i <= 10 && r < 4 && c < 4
      ensures RoundByte(w, b, RoundStates(w, b), i, r, c)
    {
      RoundByteHolds(w, b, i, r, c);
    }
    assert AreRounds(w, b, RoundStates(w, b)) && RoundStates(w, b)[10] == EncryptBlock(w, b);
  }

  // ----- The text -----

  /** The hexadecimal digit of v. */
  predicate Shows(ch: char, v: int)
    requires 0 <= v < 16
  {
    ch == "0123456789ABCDEF"[v]
  }

  /** The k-th block of the content, filled up with zeros. */
  function ContentBlock(s: seq<bv8>, k: nat): Block {
    seq(16, j requires 0 <= j < 16 => if 16 * k + j < |s| then s[16 * k + j] else 0)
  }

  lemma DigitShows(v: int)
    requires 0 <= v < 16
    ensures Shows(Digit(v), v)
  {
  }

  lemma NibblesDivide(b: bv8)
    ensures High(b) == (b / 16) as int && Low(b) == (b % 16) as int
  {
    assert (b >> 4) & 0x0f == b / 16;
    assert b & 0x0f == b % 16;
  }

  lemma HexDigits(e: seq<bv8>, j: nat)
    requires j < |e|
    ensures Hex(e)[2 * j] == Digit(High(e[j])) && Hex(e)[2 * j + 1] == Digit(Low(e[j]))
  {
    assert (2 * j) / 2 == j && (2 * j) % 2 == 0 && (2 * j + 1) / 2 == j && (2 * j + 1) % 2 == 1;
  }

  lemma PaddedIsContent(s: seq<bv8>, k: nat)
    ensures PaddedBlock(s, k) == ContentBlock(s, k)
  {
    forall j | 0 <= j < 16
      ensures PaddedBlock(s, k)[j] == ContentBlock(s, k)[j]
    {
      assert PaddedBlock(s, k)[j] == ByteAt(s, 0, 16 * k + j);
    }
  }

  lemma BlockDigits(w: Keys, s: seq<bv8>, k: nat)
    ensures BlockText(w, s)(k) == Hex(EncryptBlock(w, ContentBlock(s, k))) && |BlockText(w, s)(k)| == 32
  {
    hide EncryptBlock, Hex, PaddedBlock, ContentBlock;
    PaddedIsContent(s, k);
  }

  lemma Append<T>(a: seq<T>, x: T)
    ensures |a + [x]| == |a| + 1 && (a + [x])[|a|] == x
  {
  }

  /** The digits of the blocks, and one more digit for the number of zeros added. */
  lemma TextParts(w: Keys, s: seq<bv8>)
    ensures var t := EncryptText(w, s);
      && |t| == 32 * ((|s| + 15) / 16) + 1
      && Shows(t[|t| - 1], (16 - |s| % 16) % 16)
      && forall k: nat :: 16 * k < |s| ==> t[32 * k..32 * (k + 1)] == Hex(EncryptBlock(w, ContentBlock(s, k)))
  {
    hide EncryptBlock, Hex, ContentBlock, BlockText, Joined, Digit, Shows;
    var n, part, digit := BlockCount(|s|), BlockText(w, s), Digit(Padding(|s|));
    forall k: nat
      ensures part(k) == Hex(EncryptBlock(w, ContentBlock(s, k))) && |part(k)| == 32
    {
      BlockDigits(w, s, k);
    }
    PartsOf(part, n, [digit]);
    Append(Joined(part, n), digit);
    DigitShows(Padding(|s|));
  }

  lemma Located(t: string, k: nat, j: nat, part: string)
    requires 32 * (k + 1) <= |t| && j < 16 && t[32 * k..32 * (k + 1)] == part
    ensures t[32 * k + 2 * j] == part[2 * j] && t[32 * k + 2 * j + 1] == part[2 * j + 1]
  {
  }

  lemma ByteShown(e: Block, j: nat)
    requires j < 16
    ensures Shows(Hex(e)[2 * j], (e[j] / 16) as int) && Shows(Hex(e)[2 * j + 1], (e[j] % 16) as int)
  {
    hide Hex, Digit, High, Low, Shows;
    HexDigits(e, j);
    NibblesDivide(e[j]);
    DigitShows(High(e[j]));
    DigitShows(Low(e[j]));
  }

  /** Where the two digits of every byte of every block are found. */
  lemma TextLayout(w: Keys, s: seq<bv8>, k: nat, j: nat)
    requires 16 * k < |s| && j < 16
    ensures var t, e := EncryptText(w, s), EncryptBlock(w, ContentBlock(s, k));
      && |t| > 32 * k + 2 * j + 1
      && Shows(t[32 * k + 2 * j], (e[j] / 16) as int) && Shows(t[32 * k + 2 * j + 1], (e[j] % 16) as int)
  {
    hide EncryptBlock, EncryptText, Hex, ContentBlock, Shows;
    TextParts(w, s);
    var t, e := EncryptText(w, s), EncryptBlock(w, ContentBlock(s, k));
    ByteShown(e, j);
    Located(t, k, j, Hex(e));
  }
}
