/** SHA-256 as FIPS 180-4 defines it, recursively. */
module Fips180 {
  import opened Octets
  import opened Text

  type Word = bv32

  /** Addition modulo 2^32. */
  function Add(x: Word, y: Word): Word {
    x + y
  }

  // ---------------------------------------------------------------- section 4.1.2: functions

  function Ch(x: Word, y: Word, z: Word): Word {
    (x & y) ^ (!x & z)
  }

  function Maj(x: Word, y: Word, z: Word): Word {
    (x & y) ^ (x & z) ^ (y & z)
  }

  function BigSigma0(x: Word): Word {
    x.RotateRight(2) ^ x.RotateRight(13) ^ x.RotateRight(22)
  }

  function BigSigma1(x: Word): Word {
    x.RotateRight(6) ^ x.RotateRight(11) ^ x.RotateRight(25)
  }

  function SmallSigma0(x: Word): Word {
    x.RotateRight(7) ^ x.RotateRight(18) ^ (x >> 3)
  }

  function SmallSigma1(x: Word): Word {
    x.RotateRight(17) ^ x.RotateRight(19) ^ (x >> 10)
  }

  // ---------------------------------------------------------------- section 4.2.2: constants

  const ROW0: seq<Word> := [0x428a2f98, 0x71374491, 0xb5c0fbcf, 0xe9b5dba5, 0x3956c25b, 0x59f111f1, 0x923f82a4, 0xab1c5ed5]
  const ROW1: seq<Word> := [0xd807aa98, 0x12835b01, 0x243185be, 0x550c7dc3, 0x72be5d74, 0x80deb1fe, 0x9bdc06a7, 0xc19bf174]
  const ROW2: seq<Word> := [0xe49b69c1, 0xefbe4786, 0x0fc19dc6, 0x240ca1cc, 0x2de92c6f, 0x4a7484aa, 0x5cb0a9dc, 0x76f988da]
  const ROW3: seq<Word> := [0x983e5152, 0xa831c66d, 0xb00327c8, 0xbf597fc7, 0xc6e00bf3, 0xd5a79147, 0x06ca6351, 0x14292967]
  const ROW4: seq<Word> := [0x27b70a85, 0x2e1b2138, 0x4d2c6dfc, 0x53380d13, 0x650a7354, 0x766a0abb, 0x81c2c92e, 0x92722c85]
  const ROW5: seq<Word> := [0xa2bfe8a1, 0xa81a664b, 0xc24b8b70, 0xc76c51a3, 0xd192e819, 0xd6990624, 0xf40e3585, 0x106aa070]
  const ROW6: seq<Word> := [0x19a4c116, 0x1e376c08, 0x2748774c, 0x34b0bcb5, 0x391c0cb3, 0x4ed8aa4a, 0x5b9cca4f, 0x682e6ff3]
  const ROW7: seq<Word> := [0x748f82ee, 0x78a5636f, 0x84c87814, 0x8cc70208, 0x90befffa, 0xa4506ceb, 0xbef9a3f7, 0xc67178f2]

  const ROUNDS: seq<Word> := ROW0 + ROW1 + ROW2 + ROW3 + ROW4 + ROW5 + ROW6 + ROW7

  function K(t: nat): Word
    requires t < 64
  {
    ROUNDS[t]
  }

  /** The eight words of a hash value, and of the working variables. */
  datatype Eight = Eight(a: Word, b: Word, c: Word, d: Word, e: Word, f: Word, g: Word, h: Word)

  /** Section 5.3.3: the initial hash value. */
  const INITIAL := Eight(0x6a09e667, 0xbb67ae85, 0x3c6ef372, 0xa54ff53a, 0x510e527f, 0x9b05688c, 0x1f83d9ab, 0x5be0cd19)

  // ---------------------------------------------------------------- section 5.1.1: padding

  /** A one bit and that many zero bytes leave just the length field's eight bytes in the last block. */
  predicate LeavesLengthField(length: nat, zeros: nat) {
    (length + 1 + zeros) % 64 == 56
  }

  /** The smallest number of zero bytes that does so. */
  function ZeroBytes(length: nat): (k: nat)
    ensures LeavesLengthField(length, k) && k < 64
    ensures forall j: nat :: j < k ==> !LeavesLengthField(length, j)
  {
    (119 - length % 64) % 64
  }

  function Zeros(n: nat): Bytes {
    seq(n, _ => 0)
  }

  function Padding(length: nat): Bytes {
    [0x80] + Zeros(ZeroBytes(length)) + BigEndian((8 * length) % U64, 8)
  }

  function Padded(message: Bytes): (padded: Bytes)
    ensures |padded| % 64 == 0
  {
    PaddingLength(|message|);
    message + Padding(|message|)
  }

  lemma PaddingLength(length: nat)
    ensures |Padding(length)| == 9 + ZeroBytes(length) && ZeroBytes(length) < 64
    ensures (length + |Padding(length)|) % 64 == 0
  {
    hide ZeroBytes, BigEndian;
    LengthFieldEnds(length + 1 + ZeroBytes(length));
  }

  lemma LengthFieldEnds(n: nat)
    requires n % 64 == 56
    ensures (n + 8) % 64 == 0
  {
    assert n + 8 == 64 * (n / 64 + 1);
  }

  // ---------------------------------------------------------------- section 6.2.2: computation

  /** Section 5.2.1: a block as sixteen words. */
  function Words(block: Bytes): (m: seq<Word>)
    requires |block| == 64
    ensures |m| == 16
  {
    seq(16, t requires 0 <= t < 16 => WordOf(block[4 * t], block[4 * t + 1], block[4 * t + 2], block[4 * t + 3]))
  }

  function WordOf(a: byte, b: byte, c: byte, d: byte): Word {
    (0x100_0000 * a + 0x1_0000 * b + 0x100 * c + d) as bv32
  }

  /** The message schedule. */
  function W(m: seq<Word>, t: nat): Word
    requires |m| == 16 && t < 64
    decreases |m|, t
  {
    if t < 16 then m[t]
    else Add(Add(Add(SmallSigma1(W(m, t - 2)), W(m, t - 7)), SmallSigma0(W(m, t - 15))), W(m, t - 16))
  }

  function Round(v: Eight, k: Word, w: Word): Eight {
    var t1 := Add(Add(Add(Add(v.h, BigSigma1(v.e)), Ch(v.e, v.f, v.g)), k), w);
    var t2 := Add(BigSigma0(v.a), Maj(v.a, v.b, v.c));
    Eight(Add(t1, t2), v.a, v.b, v.c, Add(v.d, t1), v.e, v.f, v.g)
  }

  /** The working variables after the first t rounds. */
  function Rounds(v: Eight, m: seq<Word>, t: nat): Eight
    requires |m| == 16 && t <= 64
    decreases |m|, t
  {
    if t == 0 then v else Round(Rounds(v, m, t - 1), K(t - 1), W(m, t - 1))
  }

  function Sum(x: Eight, y: Eight): Eight {
    Eight(Add(x.a, y.a), Add(x.b, y.b), Add(x.c, y.c), Add(x.d, y.d), Add(x.e, y.e), Add(x.f, y.f), Add(x.g, y.g), Add(x.h, y.h))
  }

  function Compress(h: Eight, block: Bytes): Eight
    requires |block| == 64
  {
    Sum(h, Rounds(h, Words(block), 64))
  }

  function Blocks(h: Eight, data: Bytes): Eight
    requires |data| % 64 == 0
    decreases data
  {
    if data == [] then h else Blocks(Compress(h, data[..64]), data[64..])
  }

  function Hash(message: Bytes): Eight {
    Blocks(INITIAL, Padded(message))
  }

  // ---------------------------------------------------------------- hexadecimal text

  function HexDigit(n: Word): char {
    if n == 0 then '0' else if n == 1 then '1' else if n == 2 then '2' else if n == 3 then '3'
    else if n == 4 then '4' else if n == 5 then '5' else if n == 6 then '6' else if n == 7 then '7'
    else if n == 8 then '8' else if n == 9 then '9' else if n == 10 then 'a' else if n == 11 then 'b'
    else if n == 12 then 'c' else if n == 13 then 'd' else if n == 14 then 'e' else 'f'
  }

  function WordHex(w: Word): string {
    [HexDigit(w >> 28), HexDigit((w >> 24) & 15), HexDigit((w >> 20) & 15), HexDigit((w >> 16) & 15),
     HexDigit((w >> 12) & 15), HexDigit((w >> 8) & 15), HexDigit((w >> 4) & 15), HexDigit(w & 15)]
  }

  function Hex(h: Eight): string {
    WordHex(h.a) + WordHex(h.b) + WordHex(h.c) + WordHex(h.d) + WordHex(h.e) + WordHex(h.f) + WordHex(h.g) + WordHex(h.h)
  }

  /** The digest of a message as the program writes it. */
  function Sha256Hex(message: Bytes): string {
    Hex(Hash(message))
  }

  // ---------------------------------------------------------------- properties

  /** Blocks fold from the left: hashing a prefix first makes no difference. */
  lemma {:induction false} BlocksAppend(h: Eight, front: Bytes, back: Bytes)
    requires |front| % 64 == 0 && |back| % 64 == 0
    decreases front
    ensures Blocks(h, front + back) == Blocks(Blocks(h, front), back)
  {
    if front == [] {
      assert front + back == back;
    } else {
      assert (front + back)[..64] == front[..64] && (front + back)[64..] == front[64..] + back;
      BlocksAppend(Compress(h, front[..64]), front[64..], back);
    }
  }

  /** Padding separates messages: no two messages of any length pad to the same blocks. */
  lemma PaddingInjective(m: Bytes, n: Bytes)
    requires Padded(m) == Padded(n)
    ensures m == n
  {
    var p, q := Padded(m), Padded(n);
    PaddingLength(|m|);
    PaddingLength(|n|);
    assert p[|p| - 8..] == BigEndian((8 * |m|) % U64, 8);
    assert q[|q| - 8..] == BigEndian((8 * |n|) % U64, 8);
    assert Pow256(8) == U64;
    BigEndianInjective((8 * |m|) % U64, (8 * |n|) % U64, 8);
    SameLength(|m|, |n|);
    assert p[..|m|] == m && q[..|n|] == n;
  }

  lemma SameLength(a: nat, b: nat)
    requires (8 * a) % U64 == (8 * b) % U64 && -72 <= a - b <= 72
    ensures a == b
  {
  }

  lemma WordHexIsHex(w: Word)
    ensures |WordHex(w)| == 8 && AllLowerHex(WordHex(w))
  {
    forall n: Word ensures IsLowerHex(HexDigit(n)) {}
    hide HexDigit, IsLowerHex;
  }

  lemma HexOfEight(h: Eight)
    ensures IsDigest(Hex(h))
  {
    WordHexIsHex(h.a);
    WordHexIsHex(h.b);
    WordHexIsHex(h.c);
    WordHexIsHex(h.d);
    WordHexIsHex(h.e);
    WordHexIsHex(h.f);
    WordHexIsHex(h.g);
    WordHexIsHex(h.h);
    AllHexAppend(WordHex(h.a), WordHex(h.b));
    AllHexAppend(WordHex(h.a) + WordHex(h.b), WordHex(h.c));
  }

  lemma AllHexAppend(s: string, t: string)
    requires AllLowerHex(s) && AllLowerHex(t)
    ensures AllLowerHex(s + t)
  {
  }

  /** Whatever document is hashed, the identity formed from its digest has the form validators demand. */
  lemma IdentityAdmitted(document: Bytes)
    ensures IsRunIdentity(RUN_IDENTITY_PREFIX + Sha256Hex(document))
  {
    HexOfEight(Hash(document));
    DigestMakesRunIdentity(Sha256Hex(document));
  }
}
