/** The text form of encrypted data: 32 hexadecimal digits a block, then one digit that counts the padding. */
module AesText {
  import opened AesCipher

  // ----- Digits -----

  function Digit(v: int): char
    requires 0 <= v < 16
  {
    if v < 10 then (v + '0' as int) as char else (v - 10 + 'A' as int) as char
  }

  /** What a character is worth; characters that are no digits get a value outside 0 .. 15. */
  function Value(ch: char): int {
    if ch >= 'A' then ch as int - 'A' as int + 10 else ch as int - '0' as int
  }

  lemma ValueOfDigit(v: int)
    requires 0 <= v < 16
    ensures Value(Digit(v)) == v
  {
  }

  function High(b: bv8): (v: int)
    ensures 0 <= v < 16
  {
    ((b >> 4) & 0x0f) as int
  }

  function Low(b: bv8): (v: int)
    ensures 0 <= v < 16
  {
    (b & 0x0f) as int
  }

  /** The low eight bits of high * 16 + low as the source forms it, for any two's complement integers. */
  function Join(high: int, low: int): bv8 {
    (((high % 16) as bv8) << 4) | ((low % 256) as bv8)
  }

  lemma NibbleBits(h: bv8)
    requires h < 16
    ensures (h as int % 16) as bv8 == h && (h as int % 256) as bv8 == h
  {
    var n := h as int;
    assert n as bv8 == h;
    assert n % 16 == n && n % 256 == n;
  }

  lemma Nibbles(b: bv8)
    ensures (((b >> 4) & 0x0f) << 4) | (b & 0x0f) == b
    ensures (b >> 4) & 0x0f < 16 && b & 0x0f < 16
  {
  }

  lemma JoinNibbles(b: bv8)
    ensures Join(High(b), Low(b)) == b
  {
    Nibbles(b);
    NibbleBits((b >> 4) & 0x0f);
    NibbleBits(b & 0x0f);
  }

  // ----- One block -----

  /** The digits of the bytes in order, high before low. */
  function Hex(s: seq<bv8>): (t: string)
    ensures |t| == 2 * |s|
  {
    seq(2 * |s|, j requires 0 <= j < 2 * |s| => Digit(if j % 2 == 0 then High(s[j / 2]) else Low(s[j / 2])))
  }

  function Unhex(t: string): (s: seq<bv8>)
    ensures |s| == |t| / 2
  {
    seq(|t| / 2, i requires 0 <= i < |t| / 2 => Join(Value(t[2 * i]), Value(t[2 * i + 1])))
  }

  lemma UnhexHexAt(s: seq<bv8>, i: nat)
    requires i < |s|
    ensures Unhex(Hex(s))[i] == s[i]
  {
    assert Hex(s)[2 * i] == Digit(High(s[i]));
    assert Hex(s)[2 * i + 1] == Digit(Low(s[i]));
    ValueOfDigit(High(s[i]));
    ValueOfDigit(Low(s[i]));
    JoinNibbles(s[i]);
  }

  lemma UnhexHex(s: seq<bv8>)
    ensures Unhex(Hex(s)) == s
  {
    forall i | 0 <= i < |s|
      ensures Unhex(Hex(s))[i] == s[i]
    {
      UnhexHexAt(s, i);
    }
  }

  lemma HexNext(s: seq<bv8>, i: nat)
    requires i < |s|
    ensures Hex(s[..i + 1]) == Hex(s[..i]) + [Digit(High(s[i])), Digit(Low(s[i]))]
  {
  }

  // ----- The whole content -----

  function BlockCount(n: nat): nat {
    (n + 15) / 16
  }

  function Padding(n: nat): (p: int)
    ensures 0 <= p < 16
  {
    if n % 16 == 0 then 0 else 16 - n % 16
  }

  function ByteAt<T>(s: seq<T>, zero: T, i: nat): T {
    if i < |s| then s[i] else zero
  }

  /** The bytes from i up to j, zeros after the end of the content. */
  function Padded<T>(s: seq<T>, zero: T, i: nat, j: nat): (r: seq<T>)
    requires i <= j
    ensures |r| == j - i
  {
    seq(j - i, k requires 0 <= k < j - i => ByteAt(s, zero, i + k))
  }

  lemma PaddedNext<T>(s: seq<T>, zero: T, i: nat, j: nat)
    requires i <= j
    ensures Padded(s, zero, 0, j) == Padded(s, zero, 0, i) + Padded(s, zero, i, j)
  {
  }

  lemma PaddedWhole<T>(s: seq<T>, zero: T, n: nat)
    requires |s| <= n
    ensures Padded(s, zero, 0, n)[..|s|] == s
  {
    var front := Padded(s, zero, 0, n)[..|s|];
    forall i | 0 <= i < |s|
      ensures front[i] == s[i]
    {
      assert Padded(s, zero, 0, n)[i] == ByteAt(s, zero, i);
    }
  }

  function PaddedBlock(s: seq<bv8>, k: nat): Block {
    Padded(s, 0, 16 * k, 16 * (k + 1))
  }

  /** The first n parts one after the other. */
  function Joined<T>(part: nat -> seq<T>, n: nat): seq<T> {
    if n == 0 then [] else Joined(part, n - 1) + part(n - 1)
  }

  lemma AppendedParts<T>(a: seq<T>, b: seq<T>, c: seq<T>)
    ensures (a + b) + c == a + (b + c) && |a + (b + c)| == |a| + |b| + |c|
    ensures (a + (b + c))[|a|..|a| + |b|] == b
  {
  }

  /** Parts of 32 characters are found at the multiples of 32, whatever follows. */
  lemma {:induction false} PartsOf<T>(part: nat -> seq<T>, n: nat, rest: seq<T>)
    requires forall k: nat :: k < n ==> |part(k)| == 32
    ensures |Joined(part, n)| == 32 * n
    ensures forall k: nat :: k < n ==> (Joined(part, n) + rest)[32 * k..32 * (k + 1)] == part(k)
    decreases n
  {
    if n > 0 {
      var front, last := Joined(part, n - 1), part(n - 1);
      PartsOf(part, n - 1, last + rest);
      AppendedParts(front, last, rest);
    }
  }

  lemma {:induction false} JoinedPadding<T>(part: nat -> seq<T>, s: seq<T>, zero: T, n: nat)
    requires forall k: nat :: k < n ==> part(k) == Padded(s, zero, 16 * k, 16 * (k + 1))
    ensures Joined(part, n) == Padded(s, zero, 0, 16 * n)
    decreases n
  {
    if n > 0 {
      JoinedPadding(part, s, zero, n - 1);
      PaddedNext(s, zero, 16 * (n - 1), 16 * n);
    }
  }

  function BlockText(w: Keys, s: seq<bv8>): nat -> string {
    (k: nat) => Hex(EncryptBlock(w, PaddedBlock(s, k)))
  }

  function EncryptText(w: Keys, s: seq<bv8>): string {
    Joined(BlockText(w, s), BlockCount(|s|)) + [Digit(Padding(|s|))]
  }

  function BlockContent(w: Keys, t: string): nat -> seq<bv8> {
    (k: nat) => if |t| < 32 * (k + 1) then [] else DecryptBlock(w, Unhex(t[32 * k..32 * (k + 1)]))
  }

  /** The last p bytes are cut off; if there are not so many, or p is negative, nothing is. */
  function DropLast<T>(s: seq<T>, p: int): seq<T> {
    if 0 <= p <= |s| then s[..|s| - p] else s
  }

  /** A whole number of blocks and the padding digit. */
  predicate Framed(t: string) {
    |t| % 32 == 1
  }

  function DecryptText(w: Keys, t: string): seq<bv8>
    requires Framed(t)
  {
    DropLast(Joined(BlockContent(w, t), |t| / 32), Value(t[|t| - 1]))
  }

  // ----- The round trip -----

  lemma BlockRestored(w: Keys, s: seq<bv8>, t: string, k: nat)
    requires |t| >= 32 * (k + 1) && t[32 * k..32 * (k + 1)] == BlockText(w, s)(k)
    ensures BlockContent(w, t)(k) == PaddedBlock(s, k)
  {
    UnhexHex(EncryptBlock(w, PaddedBlock(s, k)));
    BlockRoundTrip(w, PaddedBlock(s, k));
  }

  lemma FrameSizes(size: nat)
    ensures size <= 16 * BlockCount(size) && 16 * BlockCount(size) - Padding(size) == size
  {
  }

  lemma WholeBlocks(n: nat)
    ensures (32 * n + 1) / 32 == n && (32 * n + 1) % 32 == 1
  {
  }

  /** If every block is restored, so is the content. */
  lemma ContentRestored<T>(content: nat -> seq<T>, s: seq<T>, zero: T, front: string)
    requires |front| == 32 * BlockCount(|s|)
    requires forall k: nat :: k < BlockCount(|s|) ==> content(k) == Padded(s, zero, 16 * k, 16 * (k + 1))
    ensures var t := front + [Digit(Padding(|s|))];
            Framed(t) && DropLast(Joined(content, |t| / 32), Value(t[|t| - 1])) == s
  {
    var n, t := BlockCount(|s|), front + [Digit(Padding(|s|))];
    JoinedPadding(content, s, zero, n);
    WholeBlocks(n);
    FrameSizes(|s|);
    ValueOfDigit(Padding(|s|));
    PaddedWhole(s, zero, 16 * n);
    assert t[|t| - 1] == Digit(Padding(|s|)) && Joined(content, |t| / 32) == Padded(s, zero, 0, 16 * n);
  }

  lemma BlockTextLength(w: Keys, s: seq<bv8>, k: nat)
    ensures |BlockText(w, s)(k)| == 32
  {
  }

  lemma AllBlocksRestored(w: Keys, s: seq<bv8>, n: nat, rest: string)
    ensures |Joined(BlockText(w, s), n)| == 32 * n
    ensures forall k: nat :: k < n ==> BlockContent(w, Joined(BlockText(w, s), n) + rest)(k) == PaddedBlock(s, k)
  {
    var part := BlockText(w, s);
    forall k: nat | k < n
      ensures |part(k)| == 32
    {
      BlockTextLength(w, s, k);
    }
    PartsOf(part, n, rest);
    forall k: nat | k < n
      ensures BlockContent(w, Joined(part, n) + rest)(k) == PaddedBlock(s, k)
    {
      BlockRestored(w, s, Joined(part, n) + rest, k);
    }
  }

  /** Decryption restores content of every length, for all round keys. */
  lemma RoundTrip(w: Keys, s: seq<bv8>)
    ensures Framed(EncryptText(w, s))
    ensures DecryptText(w, EncryptText(w, s)) == s
  {
    var n, t := BlockCount(|s|), EncryptText(w, s);
    AllBlocksRestored(w, s, n, [Digit(Padding(|s|))]);
    ContentRestored(BlockContent(w, t), s, 0, Joined(BlockText(w, s), n));
  }
}
