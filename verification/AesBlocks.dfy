/** Ciphers that alternate key additions with invertible layers; the last round has no mixing layer. */
module RoundCiphers {

  datatype Cipher<!S, !K> = Cipher(addKey: (S, K) -> S, substitute: S -> S, mix: S -> S, invSubstitute: S -> S,
      invMix: S -> S)

  ghost predicate Lawful<S(!new), K(!new)>(c: Cipher<S, K>) {
    && (forall s, k :: c.addKey(c.addKey(s, k), k) == s)
    && (forall s :: c.invSubstitute(c.substitute(s)) == s)
    && (forall s :: c.invMix(c.mix(s)) == s)
  }

  /** The state after i rounds of encryption. */
  function Encrypted<S, K>(c: Cipher<S, K>, w: seq<K>, b: S, i: nat): S
    requires |w| > 0 && i < |w|
  {
    if i == 0 then c.addKey(b, w[0]) else
      var s := c.substitute(Encrypted(c, w, b, i - 1));
      c.addKey(if i != |w| - 1 then c.mix(s) else s, w[i])
  }

  /** The state after the rounds down to i of decryption; at first only the last key is taken off. */
  function Decrypted<S, K>(c: Cipher<S, K>, w: seq<K>, b: S, i: nat): S
    requires |w| > 0 && i < |w|
    decreases |w| - i
  {
    if i == |w| - 1 then c.addKey(b, w[i]) else
      var s := c.addKey(c.invSubstitute(Decrypted(c, w, b, i + 1)), w[i]);
      if i != 0 then c.invMix(s) else s
  }

  /** After undoing the rounds down to i the state is that of round i - 1 after its substitution. */
  lemma {:induction false} RoundsUndone<S(!new), K(!new)>(c: Cipher<S, K>, w: seq<K>, b: S, i: nat)
    requires Lawful(c) && 1 <= i < |w|
    ensures Decrypted(c, w, Encrypted(c, w, b, |w| - 1), i) == c.substitute(Encrypted(c, w, b, i - 1))
    decreases |w| - i
  {
    var cipher := Encrypted(c, w, b, |w| - 1);
    var s := c.substitute(Encrypted(c, w, b, i - 1));
    if i == |w| - 1 {
      assert cipher == c.addKey(s, w[i]);
    } else {
      RoundsUndone(c, w, b, i + 1);
      assert c.invSubstitute(Decrypted(c, w, cipher, i + 1)) == Encrypted(c, w, b, i);
      assert Encrypted(c, w, b, i) == c.addKey(c.mix(s), w[i]);
      assert c.addKey(c.addKey(c.mix(s), w[i]), w[i]) == c.mix(s);
    }
  }

  /** Decryption undoes encryption, whatever the round keys are. */
  lemma DecryptAfterEncrypt<S(!new), K(!new)>(c: Cipher<S, K>, w: seq<K>, b: S)
    requires Lawful(c) && |w| > 1
    ensures Decrypted(c, w, Encrypted(c, w, b, |w| - 1), 0) == b
  {
    RoundsUndone(c, w, b, 1);
    assert c.invSubstitute(c.substitute(Encrypted(c, w, b, 0))) == c.addKey(b, w[0]);
  }
}

/** The layers that only move or combine entries of a four by four state, kept column by column. */
module StateLayers {

  /** Where row r and column c are kept. */
  function Cell(r: int, c: int): (i: int)
    requires 0 <= r < 4 && 0 <= c < 4
    ensures 0 <= i < 16
  {
    r + 4 * c
  }

  function Row(i: int): int
    requires 0 <= i < 16
  {
    i % 4
  }

  function Col(i: int): int
    requires 0 <= i < 16
  {
    i / 4
  }

  function Wrap(k: int): int
    requires 0 <= k < 8
  {
    if k < 4 then k else k - 4
  }

  /** Row r moves r places to the left. */
  function ShiftRows<T>(s: seq<T>): (r: seq<T>)
    requires |s| == 16
    ensures |r| == 16
  {
    seq(16, i requires 0 <= i < 16 => s[Cell(Row(i), Wrap(Col(i) + Row(i)))])
  }

  function InvShiftRows<T>(s: seq<T>): (r: seq<T>)
    requires |s| == 16
    ensures |r| == 16
  {
    seq(16, i requires 0 <= i < 16 => s[Cell(Row(i), Wrap(Col(i) + 4 - Row(i)))])
  }

  /** Entry by entry: what stands in row r and column c comes from r columns to the right of it, wrapping around. */
  lemma ShiftedEntry<T>(s: seq<T>, r: int, c: int)
    requires |s| == 16 && 0 <= r < 4 && 0 <= c < 4
    ensures ShiftRows(s)[r + 4 * c] == s[r + 4 * ((c + r) % 4)]
    ensures InvShiftRows(s)[r + 4 * ((c + r) % 4)] == s[r + 4 * c]
  {
    var i, j := r + 4 * c, r + 4 * ((c + r) % 4);
    assert i % 4 == r && i / 4 == c && j % 4 == r && j / 4 == (c + r) % 4;
  }

  lemma InvShiftRowsAfterShiftRows<T>(s: seq<T>)
    requires |s| == 16
    ensures InvShiftRows(ShiftRows(s)) == s
  {
  }

  function Map<T>(f: T -> T, s: seq<T>): (r: seq<T>)
    ensures |r| == |s|
  {
    seq(|s|, i requires 0 <= i < |s| => f(s[i]))
  }

  lemma MapInverse<T(!new)>(f: T -> T, g: T -> T, s: seq<T>)
    requires forall x :: g(f(x)) == x
    ensures Map(g, Map(f, s)) == s
  {
  }

  function Zip<T>(f: (T, T) -> T, s: seq<T>, k: seq<T>): (r: seq<T>)
    requires |s| == |k|
    ensures |r| == |s|
  {
    seq(|s|, i requires 0 <= i < |s| => f(s[i], k[i]))
  }

  lemma ZipTwice<T(!new)>(f: (T, T) -> T, s: seq<T>, k: seq<T>)
    requires |s| == |k| && forall x, y :: f(f(x, y), y) == x
    ensures Zip(f, Zip(f, s, k), k) == s
  {
  }

  /** Each entry of a column is mixed from the column read downwards from it, wrapping around. */
  function MixEntry<T>(f: (T, T, T, T) -> T, s: seq<T>, r: int, c: int): T
    requires |s| == 16 && 0 <= r < 4 && 0 <= c < 4
  {
    f(s[Cell(r, c)], s[Cell(Wrap(r + 1), c)], s[Cell(Wrap(r + 2), c)], s[Cell(Wrap(r + 3), c)])
  }

  function Columns<T>(f: (T, T, T, T) -> T, s: seq<T>): (r: seq<T>)
    requires |s| == 16
    ensures |r| == 16
  {
    seq(16, i requires 0 <= i < 16 => MixEntry(f, s, Row(i), Col(i)))
  }

  /** The state with only its first n cells mixed. */
  function MixedCells<T>(f: (T, T, T, T) -> T, s: seq<T>, n: nat): (r: seq<T>)
    requires |s| == 16 && n <= 16
    ensures |r| == 16
  {
    seq(16, i requires 0 <= i < 16 => if i < n then MixEntry(f, s, Row(i), Col(i)) else s[i])
  }

  lemma NoCellsMixed<T>(f: (T, T, T, T) -> T, s: seq<T>)
    requires |s| == 16
    ensures MixedCells(f, s, 0) == s
    ensures MixedCells(f, s, 16) == Columns(f, s)
  {
  }

  lemma ColumnOf<T>(s: seq<T>, c: nat, t: seq<T>)
    requires |s| == 16 && |t| == 4 && c < 4 && forall r :: 0 <= r < 4 ==> t[r] == s[Cell(r, c)]
    ensures t == s[4 * c..4 * c + 4]
  {
  }

  lemma FourColumns<T>(a: seq<T>, b: seq<T>, c: seq<T>, d: seq<T>, s: seq<T>)
    requires |a| == 4 && |b| == 4 && |c| == 4 && |d| == 4 && |s| == 16
    requires forall r :: 0 <= r < 4 ==>
        s[Cell(r, 0)] == a[r] && s[Cell(r, 1)] == b[r] && s[Cell(r, 2)] == c[r] && s[Cell(r, 3)] == d[r]
    ensures s == a + b + c + d
  {
  }

  lemma ColumnUntouched<T>(f: (T, T, T, T) -> T, s: seq<T>, c: nat)
    requires |s| == 16 && c < 4
    ensures MixedCells(f, s, 4 * c)[4 * c..4 * c + 4] == s[4 * c..4 * c + 4]
  {
  }

  lemma NextCellMixed<T>(f: (T, T, T, T) -> T, s: seq<T>, t: seq<T>, r: nat, c: nat)
    requires |s| == 16 && r < 4 && c < 4 && t == s[4 * c..4 * c + 4]
    ensures MixedCells(f, s, 4 * c + r + 1) ==
            MixedCells(f, s, 4 * c + r)[Cell(r, c) := f(t[r], t[Wrap(r + 1)], t[Wrap(r + 2)], t[Wrap(r + 3)])]
  {
    assert MixEntry(f, s, r, c) == f(t[r], t[Wrap(r + 1)], t[Wrap(r + 2)], t[Wrap(r + 3)]);
  }

  lemma ColumnsInverse<T(!new)>(f: (T, T, T, T) -> T, g: (T, T, T, T) -> T, s: seq<T>)
    requires |s| == 16
    requires forall a, b, c, d :: g(f(a, b, c, d), f(b, c, d, a), f(c, d, a, b), f(d, a, b, c)) == a
    ensures Columns(g, Columns(f, s)) == s
  {
    forall i | 0 <= i < 16
      ensures Columns(g, Columns(f, s))[i] == s[i]
    {
      var r, c := Row(i), Col(i);
      MixedEntry(f, s, r, c);
      MixedEntry(f, s, Wrap(r + 1), c);
      MixedEntry(f, s, Wrap(r + 2), c);
      MixedEntry(f, s, Wrap(r + 3), c);
      WrapTwice(r);
    }
  }

  lemma MixedEntry<T>(f: (T, T, T, T) -> T, s: seq<T>, r: int, c: int)
    requires |s| == 16 && 0 <= r < 4 && 0 <= c < 4
    ensures Columns(f, s)[Cell(r, c)] == MixEntry(f, s, r, c)
  {
    assert Row(Cell(r, c)) == r && Col(Cell(r, c)) == c;
  }

  lemma WrapTwice(r: int)
    requires 0 <= r < 4
    ensures Wrap(Wrap(r + 1) + 1) == Wrap(r + 2) && Wrap(Wrap(r + 1) + 2) == Wrap(r + 3) && Wrap(Wrap(r + 1) + 3) == r
    ensures Wrap(Wrap(r + 2) + 1) == Wrap(r + 3) && Wrap(Wrap(r + 2) + 2) == r && Wrap(Wrap(r + 2) + 3) == Wrap(r + 1)
    ensures Wrap(Wrap(r + 3) + 1) == r && Wrap(Wrap(r + 3) + 2) == Wrap(r + 1) && Wrap(Wrap(r + 3) + 3) == Wrap(r + 2)
  {
  }
}
