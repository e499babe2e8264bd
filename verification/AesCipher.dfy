/** The cipher itself (FIPS 197, sections 5.1 to 5.3) and its hexadecimal text form. */
module AesCipher {
  import opened AesField
  import opened AesTables
  import opened RoundCiphers
  import opened StateLayers

  const ROUNDS: nat := 10

  const ZEROS: seq<bv8> := seq(16, i => 0)

  /** A state or a round key: the entry at row r and column c is kept at Cell(r, c). */
  type Block = s: seq<bv8> | |s| == 16 witness ZEROS

  type Keys = w: seq<Block> | |w| == ROUNDS + 1 witness seq(ROUNDS + 1, i => ZEROS)

  function AddKey(s: Block, k: Block): Block {
    Zip(Add, s, k)
  }

  function SubstituteShift(s: Block): Block {
    ShiftRows(Map(Sub, s))
  }

  function InvShiftSubstitute(s: Block): Block {
    Map(InvSub, InvShiftRows(s))
  }

  function MixAll(s: Block): Block {
    Columns(Mix, s)
  }

  function InvMixAll(s: Block): Block {
    Columns(InvMix, s)
  }

  const AES: Cipher<Block, Block> := Cipher(AddKey, SubstituteShift, MixAll, InvShiftSubstitute, InvMixAll)

  // ----- Every layer is undone -----

  lemma KeyTwice(s: Block, k: Block)
    ensures AddKey(AddKey(s, k), k) == s
  {
    forall x, y
      ensures Add(Add(x, y), y) == x
    {
      AddAssoc(x, y, y);
      AddSelf(y);
      AddSelf(x);
    }
    ZipTwice(Add, s, k);
  }

  lemma SubstitutionUndone(s: Block)
    ensures InvShiftSubstitute(SubstituteShift(s)) == s
  {
    InvShiftRowsAfterShiftRows(Map(Sub, s));
    forall x
      ensures InvSub(Sub(x)) == x
    {
      InvSubAfterSub(x);
    }
    MapInverse(Sub, InvSub, s);
  }

  lemma MixesInverse(f: (bv8, bv8, bv8, bv8) -> bv8, g: (bv8, bv8, bv8, bv8) -> bv8)
    requires f == Mix && g == InvMix
    ensures forall a, b, c, d :: g(f(a, b, c, d), f(b, c, d, a), f(c, d, a, b), f(d, a, b, c)) == a
  {
    forall a, b, c, d
      ensures g(f(a, b, c, d), f(b, c, d, a), f(c, d, a, b), f(d, a, b, c)) == a
    {
      InvMixAfterMix(a, b, c, d);
    }
  }

  lemma MixingUndone(s: Block)
    ensures InvMixAll(MixAll(s)) == s
  {
    MixesInverse(Mix, InvMix);
    ColumnsInverse(Mix, InvMix, s);
  }

  lemma AesIsLawful()
    ensures Lawful(AES)
  {
    forall s: Block, k: Block
      ensures AES.addKey(AES.addKey(s, k), k) == s
    {
      KeyTwice(s, k);
    }
    forall s: Block
      ensures AES.invSubstitute(AES.substitute(s)) == s
    {
      SubstitutionUndone(s);
    }
    forall s: Block
      ensures AES.invMix(AES.mix(s)) == s
    {
      MixingUndone(s);
    }
  }

  function EncryptBlock(w: Keys, b: Block): Block {
    Encrypted(AES, w, b, ROUNDS)
  }

  function DecryptBlock(w: Keys, b: Block): Block {
    Decrypted(AES, w, b, 0)
  }

  /** One block, any round keys. */
  lemma BlockRoundTrip(w: Keys, b: Block)
    ensures DecryptBlock(w, EncryptBlock(w, b)) == b
  {
    AesIsLawful();
    DecryptAfterEncrypt(AES, w, b);
  }
}
