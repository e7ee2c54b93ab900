/** The program's two SHA-256 implementations, one-shot and streaming, refining FIPS 180-4. */
module Sha256 {
  import opened Fips180
  import opened Octets
  import opened Text

  function WordsOf(h: seq<Word>): Eight
    requires |h| == 8
  {
    Eight(h[0], h[1], h[2], h[3], h[4], h[5], h[6], h[7])
  }

  /** The words computed so far are the first of the message schedule. */
  ghost predicate Scheduled(w: seq<Word>, m: seq<Word>)
    requires |m| == 16 && |w| <= 64
  {
    forall t :: 0 <= t < |w| ==> w[t] == W(m, t)
  }

  lemma AddCommutes(x: Word, y: Word)
    ensures Add(x, y) == Add(y, x)
  {
  }

  lemma AddAssociates(x: Word, y: Word, z: Word)
    ensures Add(Add(x, y), z) == Add(x, Add(y, z))
  {
    PlusAssociates(x, y, z);
    assert Add(x, y) == x + y && Add(y, z) == y + z;
  }

  lemma PlusAssociates(x: Word, y: Word, z: Word)
    ensures (x + y) + z == x + (y + z)
  {
  }

  lemma SumsAgree(a: Word, b: Word, c: Word, d: Word)
    ensures Add(Add(Add(a, b), c), d) == Add(Add(Add(d, c), b), a)
  {
    hide Add;
    AddCommutes(a, b);
    AddCommutes(Add(b, a), c);
    AddAssociates(c, b, a);
    AddCommutes(Add(c, Add(b, a)), d);
    AddAssociates(d, c, Add(b, a));
    AddAssociates(Add(d, c), b, a);
  }

  lemma ScheduleContinues(w: seq<Word>, m: seq<Word>)
    requires |m| == 16 && 16 <= |w| < 64 && Scheduled(w, m)
    ensures var i := |w|;
            Scheduled(w + [Add(Add(Add(w[i - 16], SmallSigma0(w[i - 15])), w[i - 7]), SmallSigma1(w[i - 2]))], m)
  {
    hide Add, SmallSigma0, SmallSigma1;
    var i := |w|;
    SumsAgree(w[i - 16], SmallSigma0(w[i - 15]), w[i - 7], SmallSigma1(w[i - 2]));
  }

  /** The message schedule, filled in place. */
  method Schedule(chunk: Bytes) returns (w: array<Word>)
    requires |chunk| == 64
    ensures fresh(w) && w.Length == 64 && Scheduled(w[..], Words(chunk))
  {
    hide Add, SmallSigma0, SmallSigma1, WordOf;
    ghost var m := Words(chunk);
    w := new Word[64](_ => 0);
    for i := 0 to 16
      invariant w[..i] == m[..i]
    {
      w[i] := WordOf(chunk[4 * i], chunk[4 * i + 1], chunk[4 * i + 2], chunk[4 * i + 3]);
    }
    for i := 16 to 64
      invariant Scheduled(w[..i], m)
    {
      ScheduleContinues(w[..i], m);
      ghost var before := w[..i];
      var s0, s1 := SmallSigma0(w[i - 15]), SmallSigma1(w[i - 2]);
      w[i] := Add(Add(Add(w[i - 16], s0), w[i - 7]), s1);
      assert w[..i + 1] == before + [w[i]];
    }
    assert w[..64] == w[..];
  }

  method AddInto(state: array<Word>, values: seq<Word>)
    requires state.Length == 8 && |values| == 8
    modifies state
    ensures WordsOf(state[..]) == Sum(WordsOf(old(state[..])), WordsOf(values))
  {
    hide Add;
    for i := 0 to 8
      invariant forall j :: 0 <= j < i ==> state[j] == Add(old(state[j]), values[j])
      invariant forall j :: i <= j < 8 ==> state[j] == old(state[j])
    {
      state[i] := Add(state[i], values[i]);
    }
  }

  /** One block absorbed into the state, in place. */
  method CompressInto(state: array<Word>, chunk: Bytes)
    requires state.Length == 8 && |chunk| == 64
    modifies state
    ensures WordsOf(state[..]) == Compress(WordsOf(old(state[..])), chunk)
  {
    hide Add, BigSigma0, BigSigma1, Ch, Maj, WordOf, K;
    var w := Schedule(chunk);
    assert forall t :: 0 <= t < 64 ==> w[t] == w[..][t];
    ghost var before, m := WordsOf(state[..]), Words(chunk);
    var a, b, c, d, e, f, g, hh := state[0], state[1], state[2], state[3], state[4], state[5], state[6], state[7];
    for i := 0 to 64
      invariant Eight(a, b, c, d, e, f, g, hh) == Rounds(before, m, i)
    {
      assert w[i] == W(m, i);
      var t1 := Add(Add(Add(Add(hh, BigSigma1(e)), Ch(e, f, g)), K(i)), w[i]);
      var t2 := Add(BigSigma0(a), Maj(a, b, c));
      hh := g;
      g := f;
      f := e;
      e := Add(d, t1);
      d := c;
      c := b;
      b := a;
      a := Add(t1, t2);
    }
    AddInto(state, [a, b, c, d, e, f, g, hh]);
  }

  method InitialState() returns (h: array<Word>)
    ensures fresh(h) && h.Length == 8 && WordsOf(h[..]) == INITIAL
  {
    h := new Word[] [0x6a09e667, 0xbb67ae85, 0x3c6ef372, 0xa54ff53a, 0x510e527f, 0x9b05688c, 0x1f83d9ab, 0x5be0cd19];
  }

  method HexOf(h: array<Word>) returns (s: string)
    requires h.Length == 8
    ensures s == Hex(WordsOf(h[..]))
  {
    s := "";
    hide WordHex;
    for i := 0 to 8
      invariant s == HexThrough(h[..], i)
    {
      s := s + WordHex(h[i]);
    }
    HexByWords(h[..]);
  }

  ghost function HexThrough(h: seq<Word>, i: nat): string
    requires i <= |h|
  {
    if i == 0 then "" else HexThrough(h, i - 1) + WordHex(h[i - 1])
  }

  lemma HexByWords(h: seq<Word>)
    requires |h| == 8
    ensures HexThrough(h, 8) == Hex(WordsOf(h))
  {
    hide WordHex;
    assert HexThrough(h, 1) == "" + WordHex(h[0]) == WordHex(h[0]);
    assert HexThrough(h, 3) == HexThrough(h, 1) + WordHex(h[1]) + WordHex(h[2]);
    assert HexThrough(h, 5) == HexThrough(h, 3) + WordHex(h[3]) + WordHex(h[4]);
    assert HexThrough(h, 7) == HexThrough(h, 5) + WordHex(h[5]) + WordHex(h[6]);
    assert HexThrough(h, 8) == HexThrough(h, 7) + WordHex(h[7]);
  }

  /** Whole blocks absorbed one after another. */
  method AbsorbBlocks(state: array<Word>, data: Bytes)
    requires state.Length == 8 && |data| % 64 == 0
    modifies state
    ensures WordsOf(state[..]) == Blocks(WordsOf(old(state[..])), data)
  {
    hide Compress;
    var i := 0;
    while i < |data|
      invariant i % 64 == 0 && i <= |data| && Blocks(WordsOf(state[..]), data[i..]) == Blocks(WordsOf(old(state[..])), data)
    {
      assert data[i..][..64] == data[i..i + 64] && data[i..][64..] == data[i + 64..];
      CompressInto(state, data[i..i + 64]);
      i := i + 64;
    }
  }

  // ---------------------------------------------------------------- one shot

  method Pad(bytes: Bytes) returns (data: Bytes)
    ensures data == Padded(bytes)
  {
    data := bytes;
    var bits := (|data| * 8) % U64;
    data := data + [0x80];
    ghost var zeros := 0;
    while |data| % 64 != 56
      invariant zeros <= ZeroBytes(|bytes|) && data == bytes + [0x80] + Zeros(zeros)
      decreases ZeroBytes(|bytes|) - zeros
    {
      assert !LeavesLengthField(|bytes|, zeros);
      data := data + [0];
      zeros := zeros + 1;
    }
    assert LeavesLengthField(|bytes|, zeros);
    data := data + BigEndian(bits, 8);
  }

  /** The digest of a message, by padding it whole and absorbing its blocks. */
  method Sha256Hex(bytes: Bytes) returns (digest: string)
    ensures digest == Fips180.Sha256Hex(bytes) && IsDigest(digest)
  {
    var data := Pad(bytes);
    var h := InitialState();
    AbsorbBlocks(h, data);
    digest := HexOf(h);
    HexOfEight(WordsOf(h[..]));
  }

  // ---------------------------------------------------------------- streaming

  /** A state and a partial block stand for a message: the state covers all of it before the partial block. */
  ghost predicate Holding(h: Eight, partial: Bytes, message: Bytes) {
    && |partial| <= |message| && (|message| - |partial|) % 64 == 0
    && message[|message| - |partial|..] == partial
    && h == Blocks(INITIAL, message[..|message| - |partial|])
  }

  lemma HoldingAppends(h: Eight, partial: Bytes, message: Bytes, more: Bytes)
    requires Holding(h, partial, message)
    ensures Holding(h, partial + more, message + more)
  {
    var n := |message| - |partial|;
    assert (message + more)[..n] == message[..n] && (message + more)[n..] == message[n..] + more;
  }

  lemma HoldingAbsorbs(h: Eight, data: Bytes, message: Bytes)
    requires Holding(h, data, message) && |data| % 64 == 0
    ensures Holding(Blocks(h, data), [], message)
  {
    hide Blocks;
    var n := |message| - |data|;
    assert message == message[..n] + data && message[..|message|] == message;
    BlocksAppend(INITIAL, message[..n], data);
  }

  lemma OneBlock(h: Eight, block: Bytes)
    requires |block| == 64
    ensures Blocks(h, block) == Compress(h, block)
  {
    hide Compress;
    assert block[..64] == block && block[64..] == [];
  }

  lemma HoldingHashes(h: Eight, partial: Bytes, message: Bytes)
    requires Holding(h, partial, message)
    ensures |partial + Padding(|message|)| % 64 == 0 && Hash(message) == Blocks(h, partial + Padding(|message|))
  {
    hide Blocks, Padding;
    var n := |message| - |partial|;
    assert Padded(message) == message[..n] + (partial + Padding(|message|));
    assert |Padded(message)| == n + |partial + Padding(|message|)|;
    BlocksAppend(INITIAL, message[..n], partial + Padding(|message|));
  }

  lemma LengthAdds(a: nat, b: nat)
    ensures (a % U64 + b) % U64 == (a + b) % U64
  {
  }

  lemma BitsWrap(length: nat)
    ensures ((length % U64) * 8) % U64 == (8 * length) % U64
  {
    assert 8 * length == 8 * (length % U64) + U64 * (8 * (length / U64));
  }

  /** How the padding falls after a partial block: within it, or with the length field in a block of its own. */
  lemma PaddingAfter(partial: Bytes, length: nat)
    requires |partial| == length % 64
    ensures var bits := BigEndian((8 * length) % U64, 8);
            partial + Padding(length)
            == if |partial| < 56 then partial + [0x80] + Zeros(55 - |partial|) + bits
               else (partial + [0x80] + Zeros(63 - |partial|)) + (Zeros(56) + bits)
  {
    hide BigEndian, ZeroBytes;
    ZeroBytesAfter(length);
    if |partial| >= 56 {
      assert Zeros(119 - |partial|) == Zeros(63 - |partial|) + Zeros(56);
    }
  }

  lemma ZeroBytesAfter(length: nat)
    ensures ZeroBytes(length) == (if length % 64 < 56 then 55 else 119) - length % 64
  {
  }

  lemma PartialLength(total: nat, partial: nat)
    requires partial < 64 && partial <= total && (total - partial) % 64 == 0
    ensures partial == total % 64
  {
  }

  lemma TwoBlocks(h: Eight, first: Bytes, second: Bytes)
    requires |first| == 64 && |second| == 64
    ensures Blocks(h, first + second) == Compress(Compress(h, first), second)
  {
    hide Compress;
    BlocksAppend(h, first, second);
    OneBlock(h, first);
    OneBlock(Compress(h, first), second);
  }

  lemma HashFinishes(h: Eight, partial: Bytes, message: Bytes)
    requires Holding(h, partial, message) && |partial| < 64
    ensures var bits := BigEndian((8 * |message|) % U64, 8);
            Hash(message)
            == if |partial| < 56 then Compress(h, partial + [0x80] + Zeros(55 - |partial|) + bits)
               else Compress(Compress(h, partial + [0x80] + Zeros(63 - |partial|)), Zeros(56) + bits)
  {
    hide Compress, Blocks, Padding, BigEndian;
    HoldingHashes(h, partial, message);
    PartialLength(|message|, |partial|);
    PaddingAfter(partial, |message|);
    var bits := BigEndian((8 * |message|) % U64, 8);
    if |partial| < 56 {
      OneBlock(h, partial + [0x80] + Zeros(55 - |partial|) + bits);
    } else {
      TwoBlocks(h, partial + [0x80] + Zeros(63 - |partial|), Zeros(56) + bits);
    }
  }

  method CopyInto(block: array<byte>, at: nat, bytes: Bytes)
    requires at + |bytes| <= block.Length
    modifies block
    ensures block[..] == old(block[..at]) + bytes + old(block[at + |bytes|..])
  {
    for i := 0 to |bytes|
      invariant block[..] == old(block[..at]) + bytes[..i] + old(block[at + i..])
    {
      block[at + i] := bytes[i];
    }
  }

  method Fill(block: array<byte>, from: nat, to: nat)
    requires from <= to <= block.Length
    modifies block
    ensures block[..] == old(block[..from]) + Zeros(to - from) + old(block[to..])
  {
    for i := from to to
      invariant block[..] == old(block[..from]) + Zeros(i - from) + old(block[i..])
    {
      block[i] := 0;
    }
  }

  class Hasher {
    const state: array<Word>
    const block: array<byte>
    var filled: nat
    var length: u64
    ghost var absorbed: Bytes

    /** The state and the filled part of the buffer stand for everything absorbed. */
    ghost predicate Valid()
      reads this, state, block
    {
      && state.Length == 8 && block.Length == 64 && filled < 64 && length == |absorbed| % U64
      && Holding(WordsOf(state[..]), block[..filled], absorbed)
    }

    constructor ()
      ensures Valid() && fresh(state) && fresh(block) && absorbed == []
    {
      state := new Word[] [0x6a09e667, 0xbb67ae85, 0x3c6ef372, 0xa54ff53a, 0x510e527f, 0x9b05688c, 0x1f83d9ab, 0x5be0cd19];
      block := new byte[64](_ => 0);
      filled, length, absorbed := 0, 0, [];
    }

    /** Adds to the buffer as much of a piece as it has room for. */
    method TopUp(bytes: Bytes)
      requires state.Length == 8 && block.Length == 64 && filled + |bytes| <= 64
      requires Holding(WordsOf(state[..]), block[..filled], absorbed)
      modifies this`filled, this`absorbed, block
      ensures filled == old(filled) + |bytes| && absorbed == old(absorbed) + bytes
      ensures Holding(WordsOf(state[..]), block[..filled], absorbed)
    {
      HoldingAppends(WordsOf(state[..]), block[..filled], absorbed, bytes);
      CopyInto(block, filled, bytes);
      assert block[..filled + |bytes|] == old(block[..filled]) + bytes;
      filled, absorbed := filled + |bytes|, absorbed + bytes;
    }

    method CompleteBlock()
      requires state.Length == 8 && block.Length == 64 && filled == 64
      requires Holding(WordsOf(state[..]), block[..filled], absorbed)
      modifies this`filled, state
      ensures filled == 0 && Holding(WordsOf(state[..]), block[..0], absorbed)
    {
      hide Compress;
      assert block[..64] == block[..] && block[..0] == [];
      HoldingAbsorbs(WordsOf(state[..]), block[..], absorbed);
      OneBlock(WordsOf(state[..]), block[..]);
      CompressInto(state, block[..]);
      filled := 0;
    }

    /** With the buffer empty, absorbs whole blocks straight from a piece and buffers what is left of it. */
    method AbsorbFrom(bytes: Bytes)
      requires state.Length == 8 && block.Length == 64 && filled == 0
      requires Holding(WordsOf(state[..]), block[..filled], absorbed)
      modifies this`filled, this`absorbed, state, block
      ensures filled < 64 && absorbed == old(absorbed) + bytes && Holding(WordsOf(state[..]), block[..filled], absorbed)
    {
      hide Blocks;
      var whole := |bytes| - |bytes| % 64;
      assert block[..0] == [] && [] + bytes[..whole] == bytes[..whole];
      HoldingAppends(WordsOf(state[..]), block[..0], absorbed, bytes[..whole]);
      HoldingAbsorbs(WordsOf(state[..]), bytes[..whole], absorbed + bytes[..whole]);
      AbsorbBlocks(state, bytes[..whole]);
      absorbed := absorbed + bytes[..whole];
      assert absorbed + bytes[whole..] == old(absorbed) + bytes;
      TopUp(bytes[whole..]);
    }

    /** Absorbs a piece; how the message is cut into pieces does not matter. */
    method Update(bytes: Bytes)
      requires Valid()
      modifies this, state, block
      ensures Valid() && absorbed == old(absorbed) + bytes
    {
      hide Blocks, Holding;
      LengthAdds(|absorbed|, |bytes|);
      length := (length + |bytes|) % U64;
      var rest := bytes;
      if filled > 0 {
        var take := if 64 - filled < |rest| then 64 - filled else |rest|;
        TopUp(rest[..take]);
        rest := rest[take..];
        assert absorbed + rest == old(absorbed) + bytes;
        if filled < 64 {
          return;
        }
        CompleteBlock();
      }
      AbsorbFrom(rest);
    }

    /** Absorbs one record behind its length. */
    method UpdateFramed(bytes: Bytes)
      requires Valid()
      modifies this, state, block
      ensures Valid() && absorbed == old(absorbed) + Frame(bytes)
    {
      hide Blocks, Holding, BigEndian;
      Update(BigEndian(|bytes| % U64, 8));
      Update(bytes);
    }

    /** The digest of everything absorbed: the one-shot digest of the pieces joined. */
    method Finish() returns (digest: string)
      requires Valid()
      modifies state, block
      ensures digest == Fips180.Sha256Hex(absorbed) && IsDigest(digest)
    {
      hide Compress, Hash, Holding, Hex, BigEndian;
      ghost var h, partial := WordsOf(state[..]), block[..filled];
      HashFinishes(h, partial, absorbed);
      BitsWrap(|absorbed|);
      var bits := (length * 8) % U64;
      block[filled] := 0x80;
      Fill(block, filled + 1, 64);
      assert block[..] == partial + [0x80] + Zeros(63 - filled);
      ghost var front := if filled < 56 then partial + [0x80] + Zeros(55 - filled) else [];
      if filled >= 56 {
        CompressInto(state, block[..]);
        Fill(block, 0, 64);
        front := Zeros(56);
      }
      assert block[..56] == front;
      CopyInto(block, 56, BigEndian(bits, 8));
      assert block[..] == front + BigEndian(bits, 8);
      CompressInto(state, block[..]);
      assert WordsOf(state[..]) == Hash(absorbed);
      digest := HexOf(state);
      HexOfEight(WordsOf(state[..]));
    }
  }

  /** A record behind its length as eight bytes. */
  function Frame(record: Bytes): Bytes {
    BigEndian(|record| % U64, 8) + record
  }

  /** A frame is eight bytes that say how long the record is, and the record. */
  lemma FrameSays(record: Bytes)
    requires |record| < U64
    ensures |Frame(record)| == 8 + |record| && Frame(record)[8..] == record && ValueOf(Frame(record)[..8]) == |record|
  {
    hide BigEndian, Pow256, ValueOf;
    EightBytes();
    BigEndianValue(|record|, 8);
    assert Frame(record)[..8] == BigEndian(|record|, 8);
  }

  lemma EightBytes()
    ensures Pow256(8) == U64
  {
    assert Pow256(4) == 0x1_0000_0000;
  }

  function Framed(records: seq<Bytes>): Bytes {
    if records == [] then [] else Frame(records[0]) + Framed(records[1..])
  }

  /** Framing separates records: no two sequences of records are absorbed as the same bytes. */
  lemma {:induction false} FramedInjective(a: seq<Bytes>, b: seq<Bytes>)
    requires (forall i :: 0 <= i < |a| ==> |a[i]| < U64) && (forall i :: 0 <= i < |b| ==> |b[i]| < U64)
    requires Framed(a) == Framed(b)
    ensures a == b
  {
    if a != [] && b != [] {
      SameFirstRecord(a[0], Framed(a[1..]), b[0], Framed(b[1..]));
      FramedInjective(a[1..], b[1..]);
      assert a == [a[0]] + a[1..] && b == [b[0]] + b[1..];
    }
  }

  lemma SameFirstRecord(a: Bytes, more: Bytes, b: Bytes, rest: Bytes)
    requires |a| < U64 && |b| < U64 && Frame(a) + more == Frame(b) + rest
    ensures a == b && more == rest
  {
    hide BigEndian;
    var x, y := Frame(a) + more, Frame(b) + rest;
    assert x[..8] == BigEndian(|a|, 8) && y[..8] == BigEndian(|b|, 8);
    assert Pow256(8) == U64;
    BigEndianInjective(|a|, |b|, 8);
    assert x[8..8 + |a|] == a && y[8..8 + |b|] == b;
    assert x[8 + |a|..] == more && y[8 + |b|..] == rest;
  }

  /** The streaming implementation used in one shot. */
  method StreamedHex(bytes: Bytes) returns (digest: string)
    ensures digest == Fips180.Sha256Hex(bytes) && IsDigest(digest)
  {
    var hasher := new Hasher();
    hasher.Update(bytes);
    assert hasher.absorbed == bytes;
    digest := hasher.Finish();
  }

  /** A message hashed in pieces: only the joined bytes matter, never where they were cut. */
  method PiecesHex(pieces: seq<Bytes>) returns (digest: string)
    ensures digest == Fips180.Sha256Hex(Joined(pieces)) && IsDigest(digest)
  {
    var hasher := new Hasher();
    for i := 0 to |pieces|
      invariant hasher.Valid() && fresh(hasher) && fresh(hasher.state) && fresh(hasher.block)
      invariant hasher.absorbed == Joined(pieces[..i])
    {
      assert pieces[..i + 1][..i] == pieces[..i];
      hasher.Update(pieces[i]);
    }
    assert pieces[..|pieces|] == pieces;
    digest := hasher.Finish();
  }
}
