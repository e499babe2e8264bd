/** The key schedule (FIPS 197, section 5.2), word by word. */
module AesKeySchedule {
  import opened AesField
  import opened AesTables
  import opened StateLayers
  import opened AesCipher

  const RCON: seq<bv8> := [0x01, 0x02, 0x04, 0x08, 0x10, 0x20, 0x40, 0x80, 0x1b, 0x36]

  type Word = s: seq<bv8> | |s| == 4 witness [0, 0, 0, 0]

  function RotWord(t: Word): Word {
    [t[1], t[2], t[3], t[0]]
  }

  function RoundConstant(n: nat): Word
    requires 1 <= n <= |RCON|
  {
    [RCON[n - 1], 0, 0, 0]
  }

  /** Column j of round key i: word 4 i + j of the expanded key. */
  function KeyColumn(key: Block, i: nat, j: nat): Word
    requires i <= ROUNDS && j < 4
    decreases i, j, 1
  {
    if i == 0 then key[4 * j..4 * j + 4] else Zip(Add, KeyColumn(key, i - 1, j), Feedback(key, i, j))
  }

  /** What the word before contributes: itself, except at the start of a round key. */
  function Feedback(key: Block, i: nat, j: nat): Word
    requires 1 <= i <= ROUNDS && j < 4
    decreases i, j, 0
  {
    if j != 0 then KeyColumn(key, i, j - 1) else Scrambled(KeyColumn(key, i - 1, 3), i)
  }

  function Scrambled(t: Word, i: nat): Word
    requires 1 <= i <= ROUNDS
  {
    Zip(Add, Map(Sub, RotWord(t)), RoundConstant(i))
  }

  function ScheduleRound(key: Block, i: nat): Block
    requires i <= ROUNDS
  {
    KeyColumn(key, i, 0) + KeyColumn(key, i, 1) + KeyColumn(key, i, 2) + KeyColumn(key, i, 3)
  }

  function Schedule(key: Block): Keys {
    seq(ROUNDS + 1, i requires 0 <= i <= ROUNDS => ScheduleRound(key, i))
  }
}

module AesCryptions {
  import opened AesField
  import opened AesTables
  import opened RoundCiphers
  import opened StateLayers
  import opened AesCipher
  import opened AesKeySchedule
  import opened AesStandard
  import opened AesText

  predicate FourByFour<T>(a: array2<T>) {
    a.Length0 == 4 && a.Length1 == 4
  }

  ghost function State<T>(a: array2<T>): (s: seq<T>)
    requires FourByFour(a)
    reads a
    ensures |s| == 16
    ensures forall r, c :: 0 <= r < 4 && 0 <= c < 4 ==> s[Cell(r, c)] == a[r, c]
  {
    seq(16, i requires 0 <= i < 16 reads a => a[Row(i), Col(i)])
  }

  /** A mention of block k. It lets the two functions below agree without their values being unfolded for every k. */
  ghost predicate Turn(k: nat) {
    true
  }

  ghost predicate Agree<T>(f: nat -> T, g: nat -> T) {
    forall k: nat {:trigger Turn(k)} :: Turn(k) ==> f(k) == g(k)
  }

  class AESCryption {
    const mW: array3<bv8>

    ghost predicate Valid() {
      mW.Length0 == ROUNDS + 1 && mW.Length1 == 4 && mW.Length2 == 4
    }

    ghost function RoundKey(i: nat): (k: Block)
      requires Valid() && i <= ROUNDS
      reads mW
      ensures forall r, c :: 0 <= r < 4 && 0 <= c < 4 ==> k[Cell(r, c)] == mW[i, r, c]
    {
      seq(16, j requires 0 <= j < 16 reads mW => mW[i, Row(j), Col(j)])
    }

    ghost function RoundKeys(): Keys
      requires Valid()
      reads mW
    {
      seq(ROUNDS + 1, i requires 0 <= i <= ROUNDS reads mW => RoundKey(i))
    }

    /** Column j of round key i as stored. */
    ghost function Stored(i: nat, j: nat): (t: Word)
      requires Valid() && i <= ROUNDS && j < 4
      reads mW
    {
      [mW[i, 0, j], mW[i, 1, j], mW[i, 2, j], mW[i, 3, j]]
    }

    /** The columns before column j of round key i are done. */
    ghost predicate ColumnsDone(key: Block, i: nat, j: nat)
      requires Valid() && i <= ROUNDS + 1
      reads mW
    {
      forall a: nat, b: nat :: a <= ROUNDS && b < 4 && (a < i || (a == i && b < j)) ==>
          Stored(a, b) == KeyColumn(key, a, b)
    }

    constructor (key: seq<bv8>)
      requires |key| == 16
      ensures Valid() && fresh(mW)
      ensures RoundKeys() == Schedule(key) && IsExpansion(key, RoundKeys())
    {
      mW := new bv8[ROUNDS + 1, 4, 4];
      new;
      ExpanKey(key);
    }

    static method CopyKey<T>(key: seq<T>, w: array3<T>)
      requires |key| == 16 && w.Length0 > 0 && w.Length1 == 4 && w.Length2 == 4
      modifies w
      ensures forall c :: 0 <= c < 4 ==> [w[0, 0, c], w[0, 1, c], w[0, 2, c], w[0, 3, c]] == key[4 * c..4 * c + 4]
    {
      for r := 0 to 4
        invariant forall r', c :: 0 <= r' < r && 0 <= c < 4 ==> w[0, r', c] == key[r' + c * 4]
      {
        for c := 0 to 4
          invariant forall r', c' :: 0 <= r' < 4 && 0 <= c' < 4 && (r' < r || (r' == r && c' < c)) ==>
              w[0, r', c'] == key[r' + c' * 4]
        {
          w[0, r, c] := key[r + c * 4];
        }
      }
    }

    method ExpanKey(key: seq<bv8>)
      requires Valid() && |key| == 16
      modifies mW
      ensures RoundKeys() == Schedule(key) && IsExpansion(key, RoundKeys())
    {
      hide IsExpansion;
      CopyKey(key, mW);
      assert ColumnsDone(key, 1, 0);
      for i := 1 to 11
        invariant ColumnsDone(key, i, 0)
      {
        for j := 0 to 4
          invariant ColumnsDone(key, i, j)
        {
          var t := FeedbackWord(i, j, key);
          AddColumn(i, j, t);
          NextColumn(key, i, j);
        }
      }
      AllColumnsDone(key);
      ScheduleExpands(key);
    }

    static lemma StoredColumns<T>(w: array3<T>, i: nat, s: seq<T>)
      requires i < w.Length0 && w.Length1 == 4 && w.Length2 == 4 && |s| == 16
      requires forall r, c :: 0 <= r < 4 && 0 <= c < 4 ==> s[Cell(r, c)] == w[i, r, c]
      ensures s == [w[i, 0, 0], w[i, 1, 0], w[i, 2, 0], w[i, 3, 0]] + [w[i, 0, 1], w[i, 1, 1], w[i, 2, 1], w[i, 3, 1]] +
                   [w[i, 0, 2], w[i, 1, 2], w[i, 2, 2], w[i, 3, 2]] + [w[i, 0, 3], w[i, 1, 3], w[i, 2, 3], w[i, 3, 3]]
    {
      FourColumns([w[i, 0, 0], w[i, 1, 0], w[i, 2, 0], w[i, 3, 0]], [w[i, 0, 1], w[i, 1, 1], w[i, 2, 1], w[i, 3, 1]],
                  [w[i, 0, 2], w[i, 1, 2], w[i, 2, 2], w[i, 3, 2]], [w[i, 0, 3], w[i, 1, 3], w[i, 2, 3], w[i, 3, 3]],
                      s);
    }

    lemma AllColumnsDone(key: Block)
      requires Valid() && ColumnsDone(key, ROUNDS + 1, 0)
      ensures RoundKeys() == Schedule(key)
    {
      forall i | 0 <= i <= ROUNDS
        ensures RoundKey(i) == ScheduleRound(key, i)
      {
        StoredColumns(mW, i, RoundKey(i));
        assert Stored(i, 0) == KeyColumn(key, i, 0) && Stored(i, 1) == KeyColumn(key, i, 1);
        assert Stored(i, 2) == KeyColumn(key, i, 2) && Stored(i, 3) == KeyColumn(key, i, 3);
      }
    }

    method FeedbackWord(i: nat, j: nat, ghost key: Block) returns (t: array<bv8>)
      requires Valid() && 1 <= i <= ROUNDS && j < 4 && ColumnsDone(key, i, j)
      ensures fresh(t) && t.Length == 4 && t[..] == Feedback(key, i, j)
    {
      t := new bv8[4];
      CopyWord(mW, i, j, t);
      assert t[..] == if j != 0 then Stored(i, j - 1) else Stored(i - 1, 3);
      if j == 0 {
        Scramble(t, i);
      }
    }

    static method CopyWord<T>(w: array3<T>, i: nat, j: nat, t: array<T>)
      requires 1 <= i < w.Length0 && w.Length1 == 4 && w.Length2 == 4 && j < 4 && t.Length == 4 && t as object != w
      modifies t
      ensures j != 0 ==> t[..] == [w[i, 0, j - 1], w[i, 1, j - 1], w[i, 2, j - 1], w[i, 3, j - 1]]
      ensures j == 0 ==> t[..] == [w[i - 1, 0, 3], w[i - 1, 1, 3], w[i - 1, 2, 3], w[i - 1, 3, 3]]
    {
      for r := 0 to 4
        invariant forall r' :: 0 <= r' < r ==> t[r'] == if j != 0 then w[i, r', j - 1] else w[i - 1, r', 3]
      {
        t[r] := if j != 0 then w[i, r, j - 1] else w[i - 1, r, 3];
      }
    }

    /** The word rotated, substituted and with the constant of the round added. */
    static method Scramble(t: array<bv8>, i: nat)
      requires t.Length == 4 && 1 <= i <= ROUNDS
      modifies t
      ensures t[..] == Scrambled(old(t[..]), i)
    {
      ghost var was: Word := t[..];
      RotateSubstitute(t, Sub);
      assert t[..] == Map(Sub, RotWord(was));
      AddConstant(t[..], i);
      t[0] := Add(t[0], RCON[i - 1]);
    }

    static method RotateSubstitute<T>(t: array<T>, sbox: T -> T)
      requires t.Length == 4
      modifies t
      ensures t[..] == old([sbox(t[1]), sbox(t[2]), sbox(t[3]), sbox(t[0])])
    {
      ghost var was := t[..];
      var temp := t[0];
      for r := 0 to 3
        invariant forall r' :: 0 <= r' < r ==> t[r'] == sbox(was[r' + 1])
        invariant forall r' :: r <= r' < 4 ==> t[r'] == was[r']
      {
        assert (r + 1) % 4 == r + 1;
        t[r] := sbox(t[(r + 1) % 4]);
      }
      t[3] := sbox(temp);
    }

    method AddColumn(i: nat, j: nat, t: array<bv8>)
      requires Valid() && 1 <= i <= ROUNDS && j < 4 && t.Length == 4 && t as object != mW
      modifies mW
      ensures Stored(i, j) == Zip(Add, old(Stored(i - 1, j)), t[..])
      ensures forall a: nat, b: nat :: a <= ROUNDS && b < 4 && (a != i || b != j) ==> Stored(a, b) == old(Stored(a, b))
    {
      for r := 0 to 4
        modifies mW
        invariant forall a, r', b :: 0 <= a <= ROUNDS && 0 <= r' < 4 && 0 <= b < 4 && (a != i || b != j) ==>
            mW[a, r', b] == old(mW[a, r', b])
        invariant forall r' :: 0 <= r' < r ==> mW[i, r', j] == Add(old(mW[i - 1, r', j]), t[r'])
      {
        mW[i, r, j] := Add(mW[i - 1, r, j], t[r]);
      }
      AddedWord(old(Stored(i - 1, j)), t[..], Stored(i, j));
    }

    static method FFmul(a: bv8, b: bv8) returns (res: bv8)
      ensures res == Mul(a, b)
    {
      var bw := Doublings(b);
      res := 0;
      for i := 0 to 4
        modifies {}
        invariant res == PartialProduct(a, b, i)
      {
        PartialNext(a, b, i);
        if BitSet(a, i) {
          res := Add(res, bw[i]);
        }
      }
      FullProduct(a, b);
    }

    static method Doublings(b: bv8) returns (bw: array<bv8>)
      ensures fresh(bw) && bw.Length == 4 && forall j :: 0 <= j < 4 ==> bw[j] == Doubled(b, j)
    {
      bw := new bv8[4];
      bw[0] := b;
      for i := 1 to 4
        invariant forall j :: 0 <= j < i ==> bw[j] == Doubled(b, j)
      {
        var last := bw[i - 1];
        DoubledIsXTime(last);
        bw[i] := if last & 0x80 != 0 then Add(last << 1, 0x1b) else last << 1;
      }
    }

    method AddRoundKey(state: array2<bv8>, k: nat)
      requires Valid() && FourByFour(state) && k <= ROUNDS && state as object != mW
      modifies state
      ensures State(state) == AddKey(old(State(state)), RoundKey(k))
    {
      for c := 0 to 4
        invariant forall r, c' :: 0 <= r < 4 && 0 <= c' < 4 ==>
                    state[r, c'] == if c' < c then Add(old(state[r, c']), mW[k, r, c']) else old(state[r, c'])
      {
        for r := 0 to 4
          invariant forall r', c' :: 0 <= r' < 4 && 0 <= c' < 4 ==>
                      state[r', c'] == if c' < c || (c' == c && r' < r) then Add(old(state[r', c']), mW[k, r', c'])
                          else old(state[r', c'])
        {
          state[r, c] := Add(state[r, c], mW[k, r, c]);
        }
      }
    }

    method SubBytes(state: array2<bv8>)
      requires FourByFour(state)
      modifies state
      ensures State(state) == Map(Sub, old(State(state)))
    {
      for r := 0 to 4
        invariant forall r', c :: 0 <= r' < 4 && 0 <= c < 4 ==>
                    state[r', c] == if r' < r then Sub(old(state[r', c])) else old(state[r', c])
      {
        for c := 0 to 4
          invariant forall r', c' :: 0 <= r' < 4 && 0 <= c' < 4 ==>
                      state[r', c'] == if r' < r || (r' == r && c' < c) then Sub(old(state[r', c']))
                          else old(state[r', c'])
        {
          state[r, c] := Sub(state[r, c]);
        }
      }
    }

    method InvSubBytes(state: array2<bv8>)
      requires FourByFour(state)
      modifies state
      ensures State(state) == Map(InvSub, old(State(state)))
    {
      for r := 0 to 4
        invariant forall r', c :: 0 <= r' < 4 && 0 <= c < 4 ==>
                    state[r', c] == if r' < r then InvSub(old(state[r', c])) else old(state[r', c])
      {
        for c := 0 to 4
          invariant forall r', c' :: 0 <= r' < 4 && 0 <= c' < 4 ==>
                      state[r', c'] == if r' < r || (r' == r && c' < c) then InvSub(old(state[r', c']))
                          else old(state[r', c'])
        {
          state[r, c] := InvSub(state[r, c]);
        }
      }
    }

    method ShiftRows(state: array2<bv8>)
      requires FourByFour(state)
      modifies state
      ensures State(state) == StateLayers.ShiftRows(old(State(state)))
    {
      var t := new bv8[4];
      for r := 1 to 4
        invariant forall r', c :: 0 <= r' < 4 && 0 <= c < 4 ==>
                    state[r', c] == if r' < r then old(state[r', Wrap(c + r')]) else old(state[r', c])
      {
        for c := 0 to 4
          modifies t
          invariant forall c' :: 0 <= c' < c ==> t[c'] == old(state[r, Wrap(c' + r)])
        {
          t[c] := state[r, (c + r) % 4];
        }
        for c := 0 to 4
          modifies state
          invariant forall r', c' :: 0 <= r' < 4 && 0 <= c' < 4 ==>
                      state[r', c'] == if r' < r || (r' == r && c' < c) then old(state[r', Wrap(c' + r')])
                          else old(state[r', c'])
        {
          state[r, c] := t[c];
        }
      }
    }

    method InvShiftRows(state: array2<bv8>)
      requires FourByFour(state)
      modifies state
      ensures State(state) == StateLayers.InvShiftRows(old(State(state)))
    {
      var t := new bv8[4];
      for r := 1 to 4
        invariant forall r', c :: 0 <= r' < 4 && 0 <= c < 4 ==>
                    state[r', c] == if r' < r then old(state[r', Wrap(c + 4 - r')]) else old(state[r', c])
      {
        for c := 0 to 4
          modifies t
          invariant forall c' :: 0 <= c' < c ==> t[c'] == old(state[r, Wrap(c' + 4 - r)])
        {
          t[c] := state[r, (c - r + 4) % 4];
        }
        for c := 0 to 4
          modifies state
          invariant forall r', c' :: 0 <= r' < 4 && 0 <= c' < 4 ==>
                      state[r', c'] == if r' < r || (r' == r && c' < c) then old(state[r', Wrap(c' + 4 - r')])
                          else old(state[r', c'])
        {
          state[r, c] := t[c];
        }
      }
    }

    static method Store<T>(state: array2<T>, r: nat, c: nat, x: T)
      requires FourByFour(state) && r < 4 && c < 4
      modifies state
      ensures State(state) == old(State(state))[Cell(r, c) := x]
    {
      state[r, c] := x;
    }

    static method LoadColumn<T>(state: array2<T>, c: nat, t: array<T>)
      requires FourByFour(state) && c < 4 && t.Length == 4 && state as object != t
      modifies t
      ensures t[..] == State(state)[4 * c..4 * c + 4]
    {
      for r := 0 to 4
        modifies t
        invariant forall r' :: 0 <= r' < r ==> t[r'] == state[r', c]
      {
        t[r] := state[r, c];
      }
      ColumnOf(State(state), c, t[..]);
    }

    static method MixedByte(t: array<bv8>, r: nat) returns (x: bv8)
      requires t.Length == 4 && r < 4
      ensures x == Mix(t[r], t[Wrap(r + 1)], t[Wrap(r + 2)], t[Wrap(r + 3)])
    {
      WrapIsMod(r + 1);
      WrapIsMod(r + 2);
      WrapIsMod(r + 3);
      var p0 := FFmul(0x02, t[r]);
      var p1 := FFmul(0x03, t[(r + 1) % 4]);
      var p2 := FFmul(0x01, t[(r + 2) % 4]);
      var p3 := FFmul(0x01, t[(r + 3) % 4]);
      x := Sum(p0, p1, p2, p3);
    }

    static method MixCell(state: array2<bv8>, t: array<bv8>, r: nat, c: nat, ghost was: Block)
      requires FourByFour(state) && t.Length == 4 && r < 4 && c < 4 && state as object != t
      requires t[..] == was[4 * c..4 * c + 4] && State(state) == MixedCells(Mix, was, 4 * c + r)
      modifies state
      ensures State(state) == MixedCells(Mix, was, 4 * c + r + 1)
    {
      var x := MixedByte(t, r);
      Store(state, r, c, x);
      NextCellMixed(Mix, was, t[..], r, c);
    }

    method MixColumns(state: array2<bv8>)
      requires FourByFour(state)
      modifies state
      ensures State(state) == MixAll(old(State(state)))
    {
      ghost var was := State(state);
      NoCellsMixed(Mix, was);
      var t := new bv8[4];
      for c := 0 to 4
        invariant State(state) == MixedCells(Mix, was, 4 * c)
      {
        LoadColumn(state, c, t);
        ColumnUntouched(Mix, was, c);
        for r := 0 to 4
          modifies state
          invariant t[..] == was[4 * c..4 * c + 4]
          invariant State(state) == MixedCells(Mix, was, 4 * c + r)
        {
          MixCell(state, t, r, c, was);
        }
      }
    }

    static method InvMixedByte(t: array<bv8>, r: nat) returns (x: bv8)
      requires t.Length == 4 && r < 4
      ensures x == InvMix(t[r], t[Wrap(r + 1)], t[Wrap(r + 2)], t[Wrap(r + 3)])
    {
      WrapIsMod(r + 1);
      WrapIsMod(r + 2);
      WrapIsMod(r + 3);
      var p0 := FFmul(0x0e, t[r]);
      var p1 := FFmul(0x0b, t[(r + 1) % 4]);
      var p2 := FFmul(0x0d, t[(r + 2) % 4]);
      var p3 := FFmul(0x09, t[(r + 3) % 4]);
      x := Sum(p0, p1, p2, p3);
    }

    static method InvMixCell(state: array2<bv8>, t: array<bv8>, r: nat, c: nat, ghost was: Block)
      requires FourByFour(state) && t.Length == 4 && r < 4 && c < 4 && state as object != t
      requires t[..] == was[4 * c..4 * c + 4] && State(state) == MixedCells(InvMix, was, 4 * c + r)
      modifies state
      ensures State(state) == MixedCells(InvMix, was, 4 * c + r + 1)
    {
      var x := InvMixedByte(t, r);
      Store(state, r, c, x);
      NextCellMixed(InvMix, was, t[..], r, c);
    }

    method InvMixColumns(state: array2<bv8>)
      requires FourByFour(state)
      modifies state
      ensures State(state) == InvMixAll(old(State(state)))
    {
      ghost var was := State(state);
      NoCellsMixed(InvMix, was);
      var t := new bv8[4];
      for c := 0 to 4
        invariant State(state) == MixedCells(InvMix, was, 4 * c)
      {
        LoadColumn(state, c, t);
        ColumnUntouched(InvMix, was, c);
        for r := 0 to 4
          modifies state
          invariant t[..] == was[4 * c..4 * c + 4]
          invariant State(state) == MixedCells(InvMix, was, 4 * c + r)
        {
          InvMixCell(state, t, r, c, was);
        }
      }
    }

    method Encrypt16Byte(bytes: array<bv8>)
      requires Valid() && bytes.Length == 16 && bytes as object != mW
      modifies bytes
      ensures bytes[..] == EncryptBlock(RoundKeys(), old(bytes[..]))
      ensures IsCipherOf(RoundKeys(), old(bytes[..]), bytes[..])
    {
      hide IsCipherOf;
      ghost var w: Keys, b: Block := RoundKeys(), bytes[..];
      var state := new bv8[4, 4];
      LoadState(bytes, state);
      AddRoundKey(state, 0);
      for i := 1 to 11
        invariant State(state) == Encrypted(AES, w, b, i - 1)
      {
        SubBytes(state);
        ShiftRows(state);
        if i != 10 {
          MixColumns(state);
        }
        AddRoundKey(state, i);
      }
      StoreState(state, bytes);
      EncryptsByRounds(w, b);
    }

    method DecryptRound(state: array2<bv8>, i: nat)
      requires Valid() && FourByFour(state) && i < ROUNDS && state as object != mW
      modifies state
      ensures var s := AddKey(InvShiftSubstitute(old(State(state))), RoundKey(i));
              State(state) == if i != 0 then InvMixAll(s) else s
    {
      InvShiftRows(state);
      InvSubBytes(state);
      AddRoundKey(state, i);
      if i != 0 {
        InvMixColumns(state);
      }
    }

    method Decrypt16Byte(bytes: array<bv8>)
      requires Valid() && bytes.Length == 16 && bytes as object != mW
      modifies bytes
      ensures bytes[..] == DecryptBlock(RoundKeys(), old(bytes[..]))
      ensures forall p: Block :: EncryptBlock(RoundKeys(), p) == old(bytes[..]) ==> bytes[..] == p
    {
      ghost var w: Keys, b: Block := RoundKeys(), bytes[..];
      var state := new bv8[4, 4];
      LoadState(bytes, state);
      AddRoundKey(state, 10);
      for i := 10 downto 0
        invariant State(state) == Decrypted(AES, w, b, i)
      {
        DecryptRound(state, i);
        DecryptedNext(w, b, i);
      }
      StoreState(state, bytes);
      OnlyPlain(w, b);
    }

    method Encrypt(content: seq<bv8>) returns (result: string)
      requires Valid()
      ensures result == EncryptText(RoundKeys(), content)
    {
      result := EncryptedBlocks(content, BlockText(RoundKeys(), content));
      var padding := if |content| % 16 == 0 then 0 else 16 - |content| % 16;
      var digit := if padding < 10 then (padding + '0' as int) as char else (padding - 10 + 'A' as int) as char;
      assert digit == Digit(Padding(|content|));
      result := result + [digit];
    }

    method EncryptedBlocks(content: seq<bv8>, ghost part: nat -> string) returns (result: string)
      requires Valid() && Agree(part, BlockText(RoundKeys(), content))
      ensures result == Joined(part, BlockCount(|content|))
    {
      hide BlockText, Agree;
      result := "";
      var begin, n := 0, 0;
      while begin < |content|
        invariant begin == 16 * n && n <= BlockCount(|content|)
        invariant result == Joined(part, n)
      {
        var digits := EncryptedDigits(content, n, part);
        result := result + digits;
        begin, n := begin + 16, n + 1;
      }
    }

    /** One turn of the loop over the blocks. */
    method EncryptedDigits(content: seq<bv8>, n: nat, ghost part: nat -> string) returns (digits: string)
      requires Valid() && Agree(part, BlockText(RoundKeys(), content))
      ensures digits == part(n)
    {
      assert Turn(n);
      var bytes := new bv8[16];
      CopyPadded(content, 16 * n, 0, bytes);
      ghost var b: Block := bytes[..];
      assert b == PaddedBlock(content, n);
      Encrypt16Byte(bytes);
      digits := ToHex(bytes);
      assert digits == Hex(EncryptBlock(RoundKeys(), b));
    }

    static method CopyPadded<T>(content: seq<T>, begin: nat, zero: T, bytes: array<T>)
      requires bytes.Length == 16
      modifies bytes
      ensures bytes[..] == Padded(content, zero, begin, begin + 16)
    {
      for i := 0 to 16
        invariant forall j :: 0 <= j < i ==> bytes[j] == ByteAt(content, zero, begin + j)
      {
        bytes[i] := if begin + i < |content| then content[begin + i] else zero;
      }
    }

    static method ToHex(bytes: array<bv8>) returns (result: string)
      requires bytes.Length == 16
      ensures result == Hex(bytes[..])
    {
      result := "";
      for i := 0 to 16
        invariant result == Hex(bytes[..i])
      {
        var high := High(bytes[i]);
        result := result + [if high < 10 then (high + '0' as int) as char else (high - 10 + 'A' as int) as char];
        var low := Low(bytes[i]);
        result := result + [if low < 10 then (low + '0' as int) as char else (low - 10 + 'A' as int) as char];
        HexNext(bytes[..], i);
        assert bytes[..][..i + 1] == bytes[..i + 1] && bytes[..][..i] == bytes[..i];
      }
      assert bytes[..16] == bytes[..];
    }

    method Decrypt(content: string) returns (result: seq<bv8>)
      requires Valid() && Framed(content)
      ensures result == DecryptText(RoundKeys(), content)
      ensures forall s :: EncryptText(RoundKeys(), s) == content ==> result == s
    {
      var blocks := DecryptedBlocks(content, |content| / 32, BlockContent(RoundKeys(), content));
      result := WithoutPadding(blocks, content[|content| - 1]);
      OnlyContent(RoundKeys(), content);
    }

    method DecryptedBlocks(content: string, ghost count: nat, ghost part: nat -> seq<bv8>) returns (result: seq<bv8>)
      requires Valid() && |content| == 32 * count + 1 && Agree(part, BlockContent(RoundKeys(), content))
      ensures result == Joined(part, count)
    {
      hide BlockContent, Agree;
      result := [];
      var begin, n := 0, 0;
      while begin < |content| - 1
        invariant begin == 32 * n && n <= count
        invariant result == Joined(part, n)
      {
        var bytes := DecryptedBytes(content, n, part);
        result := result + bytes;
        begin, n := begin + 32, n + 1;
      }
    }

    static method WithoutPadding<T>(s: seq<T>, ch: char) returns (result: seq<T>)
      ensures result == DropLast(s, Value(ch))
    {
      var padding := if ch >= 'A' then ch as int - 'A' as int + 10 else ch as int - '0' as int;
      result := if 0 <= padding <= |s| then s[..|s| - padding] else s;
    }

    /** One turn of the loop over the blocks. */
    method DecryptedBytes(content: string, n: nat, ghost part: nat -> seq<bv8>) returns (s: seq<bv8>)
      requires Valid() && 32 * (n + 1) <= |content| && Agree(part, BlockContent(RoundKeys(), content))
      ensures s == part(n)
    {
      assert Turn(n);
      var bytes := FromHex(content, 32 * n);
      Decrypt16Byte(bytes);
      s := bytes[..];
    }

    static method FromHex(content: string, begin: nat) returns (bytes: array<bv8>)
      requires begin + 32 <= |content|
      ensures fresh(bytes) && bytes.Length == 16 && bytes[..] == Unhex(content[begin..begin + 32])
    {
      bytes := new bv8[16];
      ghost var digits := content[begin..begin + 32];
      for i := 0 to 16
        invariant forall j :: 0 <= j < i ==> bytes[j] == Join(Value(digits[2 * j]), Value(digits[2 * j + 1]))
      {
        var ch1, ch2 := content[begin + i * 2], content[begin + i * 2 + 1];
        var high := if ch1 >= 'A' then ch1 as int - 'A' as int + 10 else ch1 as int - '0' as int;
        var low := if ch2 >= 'A' then ch2 as int - 'A' as int + 10 else ch2 as int - '0' as int;
        bytes[i] := Join(high, low);
      }
    }

    static method LoadState<T>(bytes: array<T>, state: array2<T>)
      requires FourByFour(state) && bytes.Length == 16 && bytes as object != state
      modifies state
      ensures State(state) == bytes[..]
    {
      for r := 0 to 4
        invariant forall r', c :: 0 <= r' < r && 0 <= c < 4 ==> state[r', c] == bytes[Cell(r', c)]
      {
        for c := 0 to 4
          invariant forall r', c' :: 0 <= r' < 4 && 0 <= c' < 4 && (r' < r || (r' == r && c' < c)) ==>
              state[r', c'] == bytes[Cell(r', c')]
        {
          state[r, c] := bytes[r + c * 4];
        }
      }
    }

    static method StoreState<T>(state: array2<T>, bytes: array<T>)
      requires FourByFour(state) && bytes.Length == 16 && bytes as object != state
      modifies bytes
      ensures bytes[..] == State(state)
    {
      for r := 0 to 4
        invariant forall r', c :: 0 <= r' < r && 0 <= c < 4 ==> bytes[Cell(r', c)] == state[r', c]
      {
        for c := 0 to 4
          invariant forall r', c' :: 0 <= r' < 4 && 0 <= c' < 4 && (r' < r || (r' == r && c' < c)) ==>
              bytes[Cell(r', c')] == state[r', c']
        {
          bytes[c * 4 + r] := state[r, c];
        }
      }
    }
  }

  lemma OnlyPlain(w: Keys, b: Block)
    ensures forall p: Block :: EncryptBlock(w, p) == b ==> DecryptBlock(w, b) == p
  {
    hide EncryptBlock, DecryptBlock;
    forall p: Block | EncryptBlock(w, p) == b
      ensures DecryptBlock(w, b) == p
    {
      BlockRoundTrip(w, p);
    }
  }

  lemma OnlyContent(w: Keys, t: string)
    requires Framed(t)
    ensures forall s :: EncryptText(w, s) == t ==> DecryptText(w, t) == s
  {
    hide EncryptText, DecryptText;
    forall s | EncryptText(w, s) == t
      ensures DecryptText(w, t) == s
    {
      RoundTrip(w, s);
    }
  }

  lemma NextColumn(key: Block, i: nat, j: nat)
    requires 1 <= i <= ROUNDS && j < 4
    ensures KeyColumn(key, i, j) == Zip(Add, KeyColumn(key, i - 1, j), Feedback(key, i, j))
  {
  }

  lemma AddConstant(t: Word, i: nat)
    requires 1 <= i <= |RCON|
    ensures t[0 := Add(t[0], RCON[i - 1])] == Zip(Add, t, RoundConstant(i))
  {
    AddSelf(t[1]);
    AddSelf(t[2]);
    AddSelf(t[3]);
  }

  lemma AddedWord(x: Word, y: Word, z: Word)
    requires forall r :: 0 <= r < 4 ==> z[r] == Add(x[r], y[r])
    ensures z == Zip(Add, x, y)
  {
  }

  lemma DecryptedNext(w: Keys, b: Block, i: nat)
    requires i < ROUNDS
    ensures var s := AddKey(InvShiftSubstitute(Decrypted(AES, w, b, i + 1)), w[i]);
            Decrypted(AES, w, b, i) == if i != 0 then InvMixAll(s) else s
  {
  }

  /** b times the i-th power of x. */
  function Doubled(b: bv8, i: nat): bv8 {
    if i == 0 then b else XTime(Doubled(b, i - 1))
  }

  lemma DoubledIsXTime(x: bv8)
    ensures XTime(x) == if x & 0x80 != 0 then Add(x << 1, 0x1b) else x << 1
  {
    AddSelf(x << 1);
  }

  function BitMask(i: nat): bv8
    requires i < 4
  {
    if i == 0 then 1 else if i == 1 then 2 else if i == 2 then 4 else 8
  }

  /** The product with the lowest i bits of a. */
  function PartialProduct(a: bv8, b: bv8, i: nat): bv8
    requires i <= 4
  {
    if i == 0 then 0 else Add(PartialProduct(a, b, i - 1), Pick(a, BitMask(i - 1), Doubled(b, i - 1)))
  }

  lemma PickIsWhen(p: bv8, v: bv8, a: bv8, bit: bv8)
    ensures Add(p, Pick(a, bit, v)) == if a & bit != 0 then Add(p, v) else p
  {
    AddSelf(p);
  }
  lemma BitTest(a: bv8, i: nat)
    requires i < 4
    ensures (a >> i) & 0x01 != 0 <==> a & BitMask(i) != 0
  {
    if i == 0 {} else if i == 1 {} else if i == 2 {} else {}
  }

  function BitSet(a: bv8, i: nat): bool
    requires i < 4
  {
    (a >> i) & 0x01 != 0
  }

  lemma PartialNext(a: bv8, b: bv8, i: nat)
    requires i < 4
    ensures PartialProduct(a, b, i + 1) ==
            if BitSet(a, i) then Add(PartialProduct(a, b, i), Doubled(b, i)) else PartialProduct(a, b, i)
  {
    BitTest(a, i);
    PickIsWhen(PartialProduct(a, b, i), Doubled(b, i), a, BitMask(i));
  }

  lemma FullProduct(a: bv8, b: bv8)
    ensures PartialProduct(a, b, 4) == Mul(a, b)
  {
    var d1 := XTime(b);
    var d2 := XTime(d1);
    assert Doubled(b, 1) == d1;
    assert Doubled(b, 2) == d2;
    assert Doubled(b, 3) == XTime(d2);
    var p0 := Pick(a, 1, b);
    AddSelf(p0);
    assert PartialProduct(a, b, 0) == 0;
    assert PartialProduct(a, b, 1) == p0;
    assert PartialProduct(a, b, 2) == Add(p0, Pick(a, 2, d1));
    assert PartialProduct(a, b, 3) == Add(Add(p0, Pick(a, 2, d1)), Pick(a, 4, d2));
  }

  lemma WrapIsMod(k: nat)
    requires k < 8
    ensures k % 4 == Wrap(k)
  {}
}
