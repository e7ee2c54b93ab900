/** The digest of one message, worked through: the rotations, shifts and orders of SHA-256 give what they must. */
module KnownAnswer {
  import opened Fips180
  import opened Octets

  // ---------------------------------------------------------------- eight rounds at a time

  /** Eight words of the schedule from round t on. */
  predicate Scheduled(m: seq<Word>, t: nat, w: Eight) {
    && |m| == 16 && t + 8 <= 64
    && W(m, t) == w.a && W(m, t + 1) == w.b && W(m, t + 2) == w.c && W(m, t + 3) == w.d
    && W(m, t + 4) == w.e && W(m, t + 5) == w.f && W(m, t + 6) == w.g && W(m, t + 7) == w.h
  }

  function NextWord(before16: Word, before15: Word, before7: Word, before2: Word): Word {
    Add(Add(Add(SmallSigma1(before2), before7), SmallSigma0(before15)), before16)
  }

  /** The eight words after sixteen. */
  function NextWords(x: Eight, y: Eight): Eight {
    var a := NextWord(x.a, x.b, y.b, y.g);
    var b := NextWord(x.b, x.c, y.c, y.h);
    var c := NextWord(x.c, x.d, y.d, a);
    var d := NextWord(x.d, x.e, y.e, b);
    var e := NextWord(x.e, x.f, y.f, c);
    var f := NextWord(x.f, x.g, y.g, d);
    var g := NextWord(x.g, x.h, y.h, e);
    Eight(a, b, c, d, e, f, g, NextWord(x.h, y.a, a, f))
  }

  lemma OneWord(m: seq<Word>, t: nat)
    requires |m| == 16 && 16 <= t < 64
    ensures W(m, t) == NextWord(W(m, t - 16), W(m, t - 15), W(m, t - 7), W(m, t - 2))
  {
    hide Add, SmallSigma0, SmallSigma1;
  }

  lemma EightWords(m: seq<Word>, t: nat, x: Eight, y: Eight)
    requires t + 24 <= 64 && Scheduled(m, t, x) && Scheduled(m, t + 8, y)
    ensures Scheduled(m, t + 16, NextWords(x, y))
  {
    hide W, NextWord;
    OneWord(m, t + 16);
    OneWord(m, t + 17);
    OneWord(m, t + 18);
    OneWord(m, t + 19);
    OneWord(m, t + 20);
    OneWord(m, t + 21);
    OneWord(m, t + 22);
    OneWord(m, t + 23);
  }

  /** Eight round constants from round t on. */
  predicate Constants(t: nat, k: Eight) {
    && t + 8 <= 64
    && K(t) == k.a && K(t + 1) == k.b && K(t + 2) == k.c && K(t + 3) == k.d
    && K(t + 4) == k.e && K(t + 5) == k.f && K(t + 6) == k.g && K(t + 7) == k.h
  }

  /** Four rounds in a row take each state to the next. */
  predicate Steps(a: Eight, b: Eight, c: Eight, d: Eight, e: Eight, k: (Word, Word, Word, Word), w: (Word, Word, Word, Word)) {
    Round(a, k.0, w.0) == b && Round(b, k.1, w.1) == c && Round(c, k.2, w.2) == d && Round(d, k.3, w.3) == e
  }

  function Front(x: Eight): (Word, Word, Word, Word) {
    (x.a, x.b, x.c, x.d)
  }

  function Back(x: Eight): (Word, Word, Word, Word) {
    (x.e, x.f, x.g, x.h)
  }

  lemma OneRound(v: Eight, m: seq<Word>, t: nat)
    requires |m| == 16 && t < 64
    ensures Rounds(v, m, t + 1) == Round(Rounds(v, m, t), K(t), W(m, t))
  {
    hide Round, K, W;
  }

  lemma FourRounds(v: Eight, m: seq<Word>, t: nat, a: Eight, b: Eight, c: Eight, d: Eight, e: Eight,
                   k: (Word, Word, Word, Word), w: (Word, Word, Word, Word))
    requires |m| == 16 && t + 4 <= 64 && Steps(a, b, c, d, e, k, w) && Rounds(v, m, t) == a
    requires K(t) == k.0 && K(t + 1) == k.1 && K(t + 2) == k.2 && K(t + 3) == k.3
    requires W(m, t) == w.0 && W(m, t + 1) == w.1 && W(m, t + 2) == w.2 && W(m, t + 3) == w.3
    ensures Rounds(v, m, t + 4) == e
  {
    hide Round, Rounds, K, W;
    OneRound(v, m, t);
    OneRound(v, m, t + 1);
    OneRound(v, m, t + 2);
    OneRound(v, m, t + 3);
  }

  lemma EightRounds(v: Eight, m: seq<Word>, t: nat, k: Eight, w: Eight,
                    a: Eight, b: Eight, c: Eight, d: Eight, e: Eight, f: Eight, g: Eight, h: Eight, i: Eight)
    requires Scheduled(m, t, w) && Constants(t, k) && Rounds(v, m, t) == a
    requires Steps(a, b, c, d, e, Front(k), Front(w)) && Steps(e, f, g, h, i, Back(k), Back(w))
    ensures Rounds(v, m, t + 8) == i
  {
    hide Steps, Rounds, K, W;
    FourRounds(v, m, t, a, b, c, d, e, Front(k), Front(w));
    FourRounds(v, m, t + 4, e, f, g, h, i, Back(k), Back(w));
  }

  // ---------------------------------------------------------------- the message "abc"

  const ABC: Bytes := [97, 98, 99]

  const WORDS0 := Eight(0x61626380, 0x00000000, 0x00000000, 0x00000000, 0x00000000, 0x00000000, 0x00000000, 0x00000000)
  const WORDS1 := Eight(0x00000000, 0x00000000, 0x00000000, 0x00000000, 0x00000000, 0x00000000, 0x00000000, 0x00000018)
  const WORDS2 := Eight(0x61626380, 0x000f0000, 0x7da86405, 0x600003c6, 0x3e9d7b78, 0x0183fc00, 0x12dcbfdb, 0xe2e2c38e)
  const WORDS3 := Eight(0xc8215c1a, 0xb73679a2, 0xe5bc3909, 0x32663c5b, 0x9d209d67, 0xec8726cb, 0x702138a4, 0xd3b7973b)
  const WORDS4 := Eight(0x93f5997f, 0x3b68ba73, 0xaff4ffc1, 0xf10a5c62, 0x0a8b3996, 0x72af830a, 0x9409e33e, 0x24641522)
  const WORDS5 := Eight(0x9f47bf94, 0xf0a64f5a, 0x3e246a79, 0x27333ba3, 0x0c4763f2, 0x840abf27, 0x7a290d5d, 0x065c43da)
  const WORDS6 := Eight(0xfb3e89cb, 0xcc7617db, 0xb9e66c34, 0xa9993667, 0x84badedd, 0xc21462bc, 0x1487472c, 0xb20f7a99)
  const WORDS7 := Eight(0xef57b9cd, 0xebe6b238, 0x9fe3095e, 0x78bc8d4b, 0xa43fcf15, 0x668b2ff8, 0xeeaba2cc, 0x12b1edeb)

  const CONSTANTS0 := Eight(0x428a2f98, 0x71374491, 0xb5c0fbcf, 0xe9b5dba5, 0x3956c25b, 0x59f111f1, 0x923f82a4, 0xab1c5ed5)
  const CONSTANTS1 := Eight(0xd807aa98, 0x12835b01, 0x243185be, 0x550c7dc3, 0x72be5d74, 0x80deb1fe, 0x9bdc06a7, 0xc19bf174)
  const CONSTANTS2 := Eight(0xe49b69c1, 0xefbe4786, 0x0fc19dc6, 0x240ca1cc, 0x2de92c6f, 0x4a7484aa, 0x5cb0a9dc, 0x76f988da)
  const CONSTANTS3 := Eight(0x983e5152, 0xa831c66d, 0xb00327c8, 0xbf597fc7, 0xc6e00bf3, 0xd5a79147, 0x06ca6351, 0x14292967)
  const CONSTANTS4 := Eight(0x27b70a85, 0x2e1b2138, 0x4d2c6dfc, 0x53380d13, 0x650a7354, 0x766a0abb, 0x81c2c92e, 0x92722c85)
  const CONSTANTS5 := Eight(0xa2bfe8a1, 0xa81a664b, 0xc24b8b70, 0xc76c51a3, 0xd192e819, 0xd6990624, 0xf40e3585, 0x106aa070)
  const CONSTANTS6 := Eight(0x19a4c116, 0x1e376c08, 0x2748774c, 0x34b0bcb5, 0x391c0cb3, 0x4ed8aa4a, 0x5b9cca4f, 0x682e6ff3)
  const CONSTANTS7 := Eight(0x748f82ee, 0x78a5636f, 0x84c87814, 0x8cc70208, 0x90befffa, 0xa4506ceb, 0xbef9a3f7, 0xc67178f2)

  const STATE0 := Eight(0x6a09e667, 0xbb67ae85, 0x3c6ef372, 0xa54ff53a, 0x510e527f, 0x9b05688c, 0x1f83d9ab, 0x5be0cd19)
  const STATE1 := Eight(0x5d6aebcd, 0x6a09e667, 0xbb67ae85, 0x3c6ef372, 0xfa2a4622, 0x510e527f, 0x9b05688c, 0x1f83d9ab)
  const STATE2 := Eight(0x5a6ad9ad, 0x5d6aebcd, 0x6a09e667, 0xbb67ae85, 0x78ce7989, 0xfa2a4622, 0x510e527f, 0x9b05688c)
  const STATE3 := Eight(0xc8c347a7, 0x5a6ad9ad, 0x5d6aebcd, 0x6a09e667, 0xf92939eb, 0x78ce7989, 0xfa2a4622, 0x510e527f)
  const STATE4 := Eight(0xd550f666, 0xc8c347a7, 0x5a6ad9ad, 0x5d6aebcd, 0x24e00850, 0xf92939eb, 0x78ce7989, 0xfa2a4622)
  const STATE5 := Eight(0x04409a6a, 0xd550f666, 0xc8c347a7, 0x5a6ad9ad, 0x43ada245, 0x24e00850, 0xf92939eb, 0x78ce7989)
  const STATE6 := Eight(0x2b4209f5, 0x04409a6a, 0xd550f666, 0xc8c347a7, 0x714260ad, 0x43ada245, 0x24e00850, 0xf92939eb)
  const STATE7 := Eight(0xe5030380, 0x2b4209f5, 0x04409a6a, 0xd550f666, 0x9b27a401, 0x714260ad, 0x43ada245, 0x24e00850)
  const STATE8 := Eight(0x85a07b5f, 0xe5030380, 0x2b4209f5, 0x04409a6a, 0x0c657a79, 0x9b27a401, 0x714260ad, 0x43ada245)
  const STATE9 := Eight(0x8e04ecb9, 0x85a07b5f, 0xe5030380, 0x2b4209f5, 0x32ca2d8c, 0x0c657a79, 0x9b27a401, 0x714260ad)
  const STATE10 := Eight(0x8c87346b, 0x8e04ecb9, 0x85a07b5f, 0xe5030380, 0x1cc92596, 0x32ca2d8c, 0x0c657a79, 0x9b27a401)
  const STATE11 := Eight(0x4798a3f4, 0x8c87346b, 0x8e04ecb9, 0x85a07b5f, 0x436b23e8, 0x1cc92596, 0x32ca2d8c, 0x0c657a79)
  const STATE12 := Eight(0xf71fc5a9, 0x4798a3f4, 0x8c87346b, 0x8e04ecb9, 0x816fd6e9, 0x436b23e8, 0x1cc92596, 0x32ca2d8c)
  const STATE13 := Eight(0x87912990, 0xf71fc5a9, 0x4798a3f4, 0x8c87346b, 0x1e578218, 0x816fd6e9, 0x436b23e8, 0x1cc92596)
  const STATE14 := Eight(0xd932eb16, 0x87912990, 0xf71fc5a9, 0x4798a3f4, 0x745a48de, 0x1e578218, 0x816fd6e9, 0x436b23e8)
  const STATE15 := Eight(0xc0645fde, 0xd932eb16, 0x87912990, 0xf71fc5a9, 0x0b92f20c, 0x745a48de, 0x1e578218, 0x816fd6e9)
  const STATE16 := Eight(0xb0fa238e, 0xc0645fde, 0xd932eb16, 0x87912990, 0x07590dcd, 0x0b92f20c, 0x745a48de, 0x1e578218)
  const STATE17 := Eight(0x21da9a9b, 0xb0fa238e, 0xc0645fde, 0xd932eb16, 0x8034229c, 0x07590dcd, 0x0b92f20c, 0x745a48de)
  const STATE18 := Eight(0xc2fbd9d1, 0x21da9a9b, 0xb0fa238e, 0xc0645fde, 0x846ee454, 0x8034229c, 0x07590dcd, 0x0b92f20c)
  const STATE19 := Eight(0xfe777bbf, 0xc2fbd9d1, 0x21da9a9b, 0xb0fa238e, 0xcc899961, 0x846ee454, 0x8034229c, 0x07590dcd)
  const STATE20 := Eight(0xe1f20c33, 0xfe777bbf, 0xc2fbd9d1, 0x21da9a9b, 0xb0638179, 0xcc899961, 0x846ee454, 0x8034229c)
  const STATE21 := Eight(0x9dc68b63, 0xe1f20c33, 0xfe777bbf, 0xc2fbd9d1, 0x8ada8930, 0xb0638179, 0xcc899961, 0x846ee454)
  const STATE22 := Eight(0xc2606d6d, 0x9dc68b63, 0xe1f20c33, 0xfe777bbf, 0xe1257970, 0x8ada8930, 0xb0638179, 0xcc899961)
  const STATE23 := Eight(0xa7a3623f, 0xc2606d6d, 0x9dc68b63, 0xe1f20c33, 0x49f5114a, 0xe1257970, 0x8ada8930, 0xb0638179)
  const STATE24 := Eight(0xc5d53d8d, 0xa7a3623f, 0xc2606d6d, 0x9dc68b63, 0xaa47c347, 0x49f5114a, 0xe1257970, 0x8ada8930)
  const STATE25 := Eight(0x1c2c2838, 0xc5d53d8d, 0xa7a3623f, 0xc2606d6d, 0x2823ef91, 0xaa47c347, 0x49f5114a, 0xe1257970)
  const STATE26 := Eight(0xcde8037d, 0x1c2c2838, 0xc5d53d8d, 0xa7a3623f, 0x14383d8e, 0x2823ef91, 0xaa47c347, 0x49f5114a)
  const STATE27 := Eight(0xb62ec4bc, 0xcde8037d, 0x1c2c2838, 0xc5d53d8d, 0xc74c6516, 0x14383d8e, 0x2823ef91, 0xaa47c347)
  const STATE28 := Eight(0x77d37528, 0xb62ec4bc, 0xcde8037d, 0x1c2c2838, 0xedffbff8, 0xc74c6516, 0x14383d8e, 0x2823ef91)
  const STATE29 := Eight(0x363482c9, 0x77d37528, 0xb62ec4bc, 0xcde8037d, 0x6112a3b7, 0xedffbff8, 0xc74c6516, 0x14383d8e)
  const STATE30 := Eight(0xa0060b30, 0x363482c9, 0x77d37528, 0xb62ec4bc, 0xade79437, 0x6112a3b7, 0xedffbff8, 0xc74c6516)
  const STATE31 := Eight(0xea992a22, 0xa0060b30, 0x363482c9, 0x77d37528, 0x0109ab3a, 0xade79437, 0x6112a3b7, 0xedffbff8)
  const STATE32 := Eight(0x73b33bf5, 0xea992a22, 0xa0060b30, 0x363482c9, 0xba591112, 0x0109ab3a, 0xade79437, 0x6112a3b7)
  const STATE33 := Eight(0x98e12507, 0x73b33bf5, 0xea992a22, 0xa0060b30, 0x9cd9f5f6, 0xba591112, 0x0109ab3a, 0xade79437)
  const STATE34 := Eight(0xfe604df5, 0x98e12507, 0x73b33bf5, 0xea992a22, 0x59249dd3, 0x9cd9f5f6, 0xba591112, 0x0109ab3a)
  const STATE35 := Eight(0xa9a7738c, 0xfe604df5, 0x98e12507, 0x73b33bf5, 0x085f3833, 0x59249dd3, 0x9cd9f5f6, 0xba591112)
  const STATE36 := Eight(0x65a0cfe4, 0xa9a7738c, 0xfe604df5, 0x98e12507, 0xf4b002d6, 0x085f3833, 0x59249dd3, 0x9cd9f5f6)
  const STATE37 := Eight(0x41a65cb1, 0x65a0cfe4, 0xa9a7738c, 0xfe604df5, 0x0772a26b, 0xf4b002d6, 0x085f3833, 0x59249dd3)
  const STATE38 := Eight(0x34df1604, 0x41a65cb1, 0x65a0cfe4, 0xa9a7738c, 0xa507a53d, 0x0772a26b, 0xf4b002d6, 0x085f3833)
  const STATE39 := Eight(0x6dc57a8a, 0x34df1604, 0x41a65cb1, 0x65a0cfe4, 0xf0781bc8, 0xa507a53d, 0x0772a26b, 0xf4b002d6)
  const STATE40 := Eight(0x79ea687a, 0x6dc57a8a, 0x34df1604, 0x41a65cb1, 0x1efbc0a0, 0xf0781bc8, 0xa507a53d, 0x0772a26b)
  const STATE41 := Eight(0xd6670766, 0x79ea687a, 0x6dc57a8a, 0x34df1604, 0x26352d63, 0x1efbc0a0, 0xf0781bc8, 0xa507a53d)
  const STATE42 := Eight(0xdf46652f, 0xd6670766, 0x79ea687a, 0x6dc57a8a, 0x838b2711, 0x26352d63, 0x1efbc0a0, 0xf0781bc8)
  const STATE43 := Eight(0x17aa0dfe, 0xdf46652f, 0xd6670766, 0x79ea687a, 0xdecd4715, 0x838b2711, 0x26352d63, 0x1efbc0a0)
  const STATE44 := Eight(0x9d4baf93, 0x17aa0dfe, 0xdf46652f, 0xd6670766, 0xfda24c2e, 0xdecd4715, 0x838b2711, 0x26352d63)
  const STATE45 := Eight(0x26628815, 0x9d4baf93, 0x17aa0dfe, 0xdf46652f, 0xa80f11f0, 0xfda24c2e, 0xdecd4715, 0x838b2711)
  const STATE46 := Eight(0x72ab4b91, 0x26628815, 0x9d4baf93, 0x17aa0dfe, 0xb7755da1, 0xa80f11f0, 0xfda24c2e, 0xdecd4715)
  const STATE47 := Eight(0xa14c14b0, 0x72ab4b91, 0x26628815, 0x9d4baf93, 0xd57b94a9, 0xb7755da1, 0xa80f11f0, 0xfda24c2e)
  const STATE48 := Eight(0x4172328d, 0xa14c14b0, 0x72ab4b91, 0x26628815, 0xfecf0bc6, 0xd57b94a9, 0xb7755da1, 0xa80f11f0)
  const STATE49 := Eight(0x05757ceb, 0x4172328d, 0xa14c14b0, 0x72ab4b91, 0xbd714038, 0xfecf0bc6, 0xd57b94a9, 0xb7755da1)
  const STATE50 := Eight(0xf11bfaa8, 0x05757ceb, 0x4172328d, 0xa14c14b0, 0x6e5c390c, 0xbd714038, 0xfecf0bc6, 0xd57b94a9)
  const STATE51 := Eight(0x7a0508a1, 0xf11bfaa8, 0x05757ceb, 0x4172328d, 0x52f1ccf7, 0x6e5c390c, 0xbd714038, 0xfecf0bc6)
  const STATE52 := Eight(0x886e7a22, 0x7a0508a1, 0xf11bfaa8, 0x05757ceb, 0x49231c1e, 0x52f1ccf7, 0x6e5c390c, 0xbd714038)
  const STATE53 := Eight(0x101fd28f, 0x886e7a22, 0x7a0508a1, 0xf11bfaa8, 0x529e7d00, 0x49231c1e, 0x52f1ccf7, 0x6e5c390c)
  const STATE54 := Eight(0xf5702fdb, 0x101fd28f, 0x886e7a22, 0x7a0508a1, 0x9f4787c3, 0x529e7d00, 0x49231c1e, 0x52f1ccf7)
  const STATE55 := Eight(0x3ec45cdb, 0xf5702fdb, 0x101fd28f, 0x886e7a22, 0xe50e1b4f, 0x9f4787c3, 0x529e7d00, 0x49231c1e)
  const STATE56 := Eight(0x38cc9913, 0x3ec45cdb, 0xf5702fdb, 0x101fd28f, 0x54cb266b, 0xe50e1b4f, 0x9f4787c3, 0x529e7d00)
  const STATE57 := Eight(0xfcd1887b, 0x38cc9913, 0x3ec45cdb, 0xf5702fdb, 0x9b5e906c, 0x54cb266b, 0xe50e1b4f, 0x9f4787c3)
  const STATE58 := Eight(0xc062d46f, 0xfcd1887b, 0x38cc9913, 0x3ec45cdb, 0x7e44008e, 0x9b5e906c, 0x54cb266b, 0xe50e1b4f)
  const STATE59 := Eight(0xffb70472, 0xc062d46f, 0xfcd1887b, 0x38cc9913, 0x6d83bfc6, 0x7e44008e, 0x9b5e906c, 0x54cb266b)
  const STATE60 := Eight(0xb6ae8fff, 0xffb70472, 0xc062d46f, 0xfcd1887b, 0xb21bad3d, 0x6d83bfc6, 0x7e44008e, 0x9b5e906c)
  const STATE61 := Eight(0xb85e2ce9, 0xb6ae8fff, 0xffb70472, 0xc062d46f, 0x961f4894, 0xb21bad3d, 0x6d83bfc6, 0x7e44008e)
  const STATE62 := Eight(0x04d24d6c, 0xb85e2ce9, 0xb6ae8fff, 0xffb70472, 0x948d25b6, 0x961f4894, 0xb21bad3d, 0x6d83bfc6)
  const STATE63 := Eight(0xd39a2165, 0x04d24d6c, 0xb85e2ce9, 0xb6ae8fff, 0xfb121210, 0x948d25b6, 0x961f4894, 0xb21bad3d)
  const STATE64 := Eight(0x506e3058, 0xd39a2165, 0x04d24d6c, 0xb85e2ce9, 0x5ef50f24, 0xfb121210, 0x948d25b6, 0x961f4894)

  lemma NextWords16()
    ensures NextWords(WORDS0, WORDS1) == WORDS2
  {
  }

  lemma NextWords24()
    ensures NextWords(WORDS1, WORDS2) == WORDS3
  {
  }

  lemma NextWords32()
    ensures NextWords(WORDS2, WORDS3) == WORDS4
  {
  }

  lemma NextWords40()
    ensures NextWords(WORDS3, WORDS4) == WORDS5
  {
  }

  lemma NextWords48()
    ensures NextWords(WORDS4, WORDS5) == WORDS6
  {
  }

  lemma NextWords56()
    ensures NextWords(WORDS5, WORDS6) == WORDS7
  {
  }

  lemma Constants0()
    ensures Constants(0, CONSTANTS0)
  {
  }

  lemma Constants8()
    ensures Constants(8, CONSTANTS1)
  {
  }

  lemma Constants16()
    ensures Constants(16, CONSTANTS2)
  {
  }

  lemma Constants24()
    ensures Constants(24, CONSTANTS3)
  {
  }

  lemma Constants32()
    ensures Constants(32, CONSTANTS4)
  {
  }

  lemma Constants40()
    ensures Constants(40, CONSTANTS5)
  {
  }

  lemma Constants48()
    ensures Constants(48, CONSTANTS6)
  {
  }

  lemma Constants56()
    ensures Constants(56, CONSTANTS7)
  {
  }

  lemma Round0()
    ensures Round(STATE0, 0x428a2f98, 0x61626380) == STATE1
  {
  }

  lemma Round1()
    ensures Round(STATE1, 0x71374491, 0x00000000) == STATE2
  {
  }

  lemma Round2()
    ensures Round(STATE2, 0xb5c0fbcf, 0x00000000) == STATE3
  {
  }

  lemma Round3()
    ensures Round(STATE3, 0xe9b5dba5, 0x00000000) == STATE4
  {
  }

  lemma Steps0()
    ensures Steps(STATE0, STATE1, STATE2, STATE3, STATE4, Front(CONSTANTS0), Front(WORDS0))
  {
    Round0();
    Round1();
    Round2();
    Round3();
    hide Round;
  }

  lemma Round4()
    ensures Round(STATE4, 0x3956c25b, 0x00000000) == STATE5
  {
  }

  lemma Round5()
    ensures Round(STATE5, 0x59f111f1, 0x00000000) == STATE6
  {
  }

  lemma Round6()
    ensures Round(STATE6, 0x923f82a4, 0x00000000) == STATE7
  {
  }

  lemma Round7()
    ensures Round(STATE7, 0xab1c5ed5, 0x00000000) == STATE8
  {
  }

  lemma Steps4()
    ensures Steps(STATE4, STATE5, STATE6, STATE7, STATE8, Back(CONSTANTS0), Back(WORDS0))
  {
    Round4();
    Round5();
    Round6();
    Round7();
    hide Round;
  }

  lemma Round8()
    ensures Round(STATE8, 0xd807aa98, 0x00000000) == STATE9
  {
  }

  lemma Round9()
    ensures Round(STATE9, 0x12835b01, 0x00000000) == STATE10
  {
  }

  lemma Round10()
    ensures Round(STATE10, 0x243185be, 0x00000000) == STATE11
  {
  }

  lemma Round11()
    ensures Round(STATE11, 0x550c7dc3, 0x00000000) == STATE12
  {
  }

  lemma Steps8()
    ensures Steps(STATE8, STATE9, STATE10, STATE11, STATE12, Front(CONSTANTS1), Front(WORDS1))
  {
    Round8();
    Round9();
    Round10();
    Round11();
    hide Round;
  }

  lemma Round12()
    ensures Round(STATE12, 0x72be5d74, 0x00000000) == STATE13
  {
  }

  lemma Round13()
    ensures Round(STATE13, 0x80deb1fe, 0x00000000) == STATE14
  {
  }

  lemma Round14()
    ensures Round(STATE14, 0x9bdc06a7, 0x00000000) == STATE15
  {
  }

  lemma Round15()
    ensures Round(STATE15, 0xc19bf174, 0x00000018) == STATE16
  {
  }

  lemma Steps12()
    ensures Steps(STATE12, STATE13, STATE14, STATE15, STATE16, Back(CONSTANTS1), Back(WORDS1))
  {
    Round12();
    Round13();
    Round14();
    Round15();
    hide Round;
  }

  lemma Steps16()
    ensures Steps(STATE16, STATE17, STATE18, STATE19, STATE20, Front(CONSTANTS2), Front(WORDS2))
  {
  }

  lemma Steps20()
    ensures Steps(STATE20, STATE21, STATE22, STATE23, STATE24, Back(CONSTANTS2), Back(WORDS2))
  {
  }

  lemma Steps24()
    ensures Steps(STATE24, STATE25, STATE26, STATE27, STATE28, Front(CONSTANTS3), Front(WORDS3))
  {
  }

  lemma Steps28()
    ensures Steps(STATE28, STATE29, STATE30, STATE31, STATE32, Back(CONSTANTS3), Back(WORDS3))
  {
  }

  lemma Steps32()
    ensures Steps(STATE32, STATE33, STATE34, STATE35, STATE36, Front(CONSTANTS4), Front(WORDS4))
  {
  }

  lemma Steps36()
    ensures Steps(STATE36, STATE37, STATE38, STATE39, STATE40, Back(CONSTANTS4), Back(WORDS4))
  {
  }

  lemma Steps40()
    ensures Steps(STATE40, STATE41, STATE42, STATE43, STATE44, Front(CONSTANTS5), Front(WORDS5))
  {
  }

  lemma Steps44()
    ensures Steps(STATE44, STATE45, STATE46, STATE47, STATE48, Back(CONSTANTS5), Back(WORDS5))
  {
  }

  lemma Steps48()
    ensures Steps(STATE48, STATE49, STATE50, STATE51, STATE52, Front(CONSTANTS6), Front(WORDS6))
  {
  }

  lemma Steps52()
    ensures Steps(STATE52, STATE53, STATE54, STATE55, STATE56, Back(CONSTANTS6), Back(WORDS6))
  {
  }

  lemma Steps56()
    ensures Steps(STATE56, STATE57, STATE58, STATE59, STATE60, Front(CONSTANTS7), Front(WORDS7))
  {
  }

  lemma Steps60()
    ensures Steps(STATE60, STATE61, STATE62, STATE63, STATE64, Back(CONSTANTS7), Back(WORDS7))
  {
  }

  /** The message as a block: a one bit, zeros, and its length of 24 bits. */
  lemma AbcPadded()
    ensures Padded(ABC) == [97, 98, 99, 128] + Zeros(52) + [0, 0, 0, 0, 0, 0, 0, 24]
  {
    assert ZeroBytes(3) == 52;
    LengthField();
    hide BigEndian, Zeros;
  }

  lemma LengthField()
    ensures BigEndian(24, 8) == [0, 0, 0, 0, 0, 0, 0, 24]
  {
    assert BigEndian(0, 4) == [0, 0, 0, 0];
    assert BigEndian(0, 7) == [0, 0, 0, 0, 0, 0, 0];
  }

  lemma AbcWords()
    ensures |Padded(ABC)| == 64 && Scheduled(Words(Padded(ABC)), 0, WORDS0) && Scheduled(Words(Padded(ABC)), 8, WORDS1)
  {
    AbcPadded();
    AbcBlock(Padded(ABC));
    hide *;
  }

  lemma AbcBlock(block: Bytes)
    requires block == [97, 98, 99, 128] + Zeros(52) + [0, 0, 0, 0, 0, 0, 0, 24]
    ensures |block| == 64 && Scheduled(Words(block), 0, WORDS0) && Scheduled(Words(block), 8, WORDS1)
  {
    AbcBytes(block);
    FirstWordValue();
    LastWordValue();
    ZeroWordValue();
    hide *;
    forall t | 0 <= t < 16
      ensures W(Words(block), t) == if t == 0 then WordOf(97, 98, 99, 128) else if t == 15 then WordOf(0, 0, 0, 24) else WordOf(0, 0, 0, 0)
    {
      BlockWord(block, t);
    }
    FirstWords(Words(block));
  }

  lemma AbcBytes(block: Bytes)
    requires block == [97, 98, 99, 128] + Zeros(52) + [0, 0, 0, 0, 0, 0, 0, 24]
    ensures |block| == 64 && block[0] == 97 && block[1] == 98 && block[2] == 99 && block[3] == 128 && block[63] == 24
    ensures forall i :: 4 <= i < 63 ==> block[i] == 0
  {
  }

  lemma BlockWord(block: Bytes, t: nat)
    requires |block| == 64 && t < 16
    ensures W(Words(block), t) == WordOf(block[4 * t], block[4 * t + 1], block[4 * t + 2], block[4 * t + 3])
  {
    hide WordOf;
  }

  lemma FirstWordValue()
    ensures WordOf(97, 98, 99, 128) == 0x61626380
  {
    assert 0x100_0000 * 97 + 0x1_0000 * 98 + 0x100 * 99 + 128 == 1633837952;
    FirstWordBits();
  }

  lemma FirstWordBits()
    ensures (1633837952 as bv32) == 0x61626380
  {
  }

  lemma LastWordValue()
    ensures WordOf(0, 0, 0, 24) == 24
  {
    assert 0x100_0000 * 0 + 0x1_0000 * 0 + 0x100 * 0 + 24 == 24;
  }

  lemma ZeroWordValue()
    ensures WordOf(0, 0, 0, 0) == 0
  {
  }

  lemma FirstWords(m: seq<Word>)
    requires |m| == 16 && W(m, 0) == 0x61626380 && W(m, 15) == 24 && forall t :: 1 <= t < 15 ==> W(m, t) == 0
    ensures Scheduled(m, 0, WORDS0) && Scheduled(m, 8, WORDS1)
  {
    hide W;
  }

  lemma AbcSchedule(m: seq<Word>)
    requires Scheduled(m, 0, WORDS0) && Scheduled(m, 8, WORDS1)
    ensures Scheduled(m, 16, WORDS2) && Scheduled(m, 24, WORDS3) && Scheduled(m, 32, WORDS4)
    ensures Scheduled(m, 40, WORDS5) && Scheduled(m, 48, WORDS6) && Scheduled(m, 56, WORDS7)
  {
    hide *;
    NextWords16();
    EightWords(m, 0, WORDS0, WORDS1);
    NextWords24();
    EightWords(m, 8, WORDS1, WORDS2);
    NextWords32();
    EightWords(m, 16, WORDS2, WORDS3);
    NextWords40();
    EightWords(m, 24, WORDS3, WORDS4);
    NextWords48();
    EightWords(m, 32, WORDS4, WORDS5);
    NextWords56();
    EightWords(m, 40, WORDS5, WORDS6);
  }

  lemma AbcRounds32(m: seq<Word>)
    requires Scheduled(m, 0, WORDS0) && Scheduled(m, 8, WORDS1) && Scheduled(m, 16, WORDS2) && Scheduled(m, 24, WORDS3)
    requires Rounds(INITIAL, m, 0) == STATE0
    ensures Rounds(INITIAL, m, 32) == STATE32
  {
    hide *;
    Constants0();
    Steps0();
    Steps4();
    EightRounds(INITIAL, m, 0, CONSTANTS0, WORDS0,
                STATE0, STATE1, STATE2, STATE3, STATE4, STATE5, STATE6, STATE7, STATE8);
    Constants8();
    Steps8();
    Steps12();
    EightRounds(INITIAL, m, 8, CONSTANTS1, WORDS1,
                STATE8, STATE9, STATE10, STATE11, STATE12, STATE13, STATE14, STATE15, STATE16);
    Constants16();
    Steps16();
    Steps20();
    EightRounds(INITIAL, m, 16, CONSTANTS2, WORDS2,
                STATE16, STATE17, STATE18, STATE19, STATE20, STATE21, STATE22, STATE23, STATE24);
    Constants24();
    Steps24();
    Steps28();
    EightRounds(INITIAL, m, 24, CONSTANTS3, WORDS3,
                STATE24, STATE25, STATE26, STATE27, STATE28, STATE29, STATE30, STATE31, STATE32);
  }

  lemma AbcRounds64(m: seq<Word>)
    requires Scheduled(m, 32, WORDS4) && Scheduled(m, 40, WORDS5) && Scheduled(m, 48, WORDS6) && Scheduled(m, 56, WORDS7)
    requires Rounds(INITIAL, m, 32) == STATE32
    ensures Rounds(INITIAL, m, 64) == STATE64
  {
    hide *;
    Constants32();
    Steps32();
    Steps36();
    EightRounds(INITIAL, m, 32, CONSTANTS4, WORDS4,
                STATE32, STATE33, STATE34, STATE35, STATE36, STATE37, STATE38, STATE39, STATE40);
    Constants40();
    Steps40();
    Steps44();
    EightRounds(INITIAL, m, 40, CONSTANTS5, WORDS5,
                STATE40, STATE41, STATE42, STATE43, STATE44, STATE45, STATE46, STATE47, STATE48);
    Constants48();
    Steps48();
    Steps52();
    EightRounds(INITIAL, m, 48, CONSTANTS6, WORDS6,
                STATE48, STATE49, STATE50, STATE51, STATE52, STATE53, STATE54, STATE55, STATE56);
    Constants56();
    Steps56();
    Steps60();
    EightRounds(INITIAL, m, 56, CONSTANTS7, WORDS7,
                STATE56, STATE57, STATE58, STATE59, STATE60, STATE61, STATE62, STATE63, STATE64);
  }

  lemma AbcRounds(m: seq<Word>)
    requires Scheduled(m, 0, WORDS0) && Scheduled(m, 8, WORDS1)
    ensures Rounds(INITIAL, m, 64) == STATE64
  {
    AbcSchedule(m);
    RoundsStart(m);
    hide *;
    AbcRounds32(m);
    AbcRounds64(m);
  }

  lemma RoundsStart(m: seq<Word>)
    requires |m| == 16
    ensures Rounds(INITIAL, m, 0) == STATE0
  {
  }

  const ABC_HASH := Eight(0xba7816bf, 0x8f01cfea, 0x414140de, 0x5dae2223, 0xb00361a3, 0x96177a9c, 0xb410ff61, 0xf20015ad)

  lemma AbcSum()
    ensures Sum(INITIAL, STATE64) == ABC_HASH
  {
  }

  /** The digest of "abc" is the published one. */
  lemma AbcDigest()
    ensures Hash(ABC) == ABC_HASH
    ensures Sha256Hex(ABC) == ABC_DIGEST
  {
    AbcWords();
    AbcRounds(Words(Padded(ABC)));
    AbcSum();
    OneBlockHash(ABC);
    AbcHex();
    hide *;
  }

  lemma OneBlockHash(message: Bytes)
    requires |Padded(message)| == 64
    ensures Hash(message) == Sum(INITIAL, Rounds(INITIAL, Words(Padded(message)), 64))
    ensures Sha256Hex(message) == Hex(Hash(message))
  {
    var data := Padded(message);
    hide Padded, Rounds, Words, Sum, Hex;
    assert data[..64] == data && data[64..] == [];
    assert Blocks(INITIAL, data) == Blocks(Compress(INITIAL, data[..64]), data[64..]);
  }

  const ABC_DIGEST := "ba7816bf" + "8f01cfea" + "414140de" + "5dae2223" + "b00361a3" + "96177a9c" + "b410ff61" + "f20015ad"

  lemma AbcHex()
    ensures Hex(ABC_HASH) == ABC_DIGEST
  {
    assert WordHex(0xba7816bf) == "ba7816bf";
    assert WordHex(0x8f01cfea) == "8f01cfea";
    assert WordHex(0x414140de) == "414140de";
    assert WordHex(0x5dae2223) == "5dae2223";
    assert WordHex(0xb00361a3) == "b00361a3";
    assert WordHex(0x96177a9c) == "96177a9c";
    assert WordHex(0xb410ff61) == "b410ff61";
    assert WordHex(0xf20015ad) == "f20015ad";
    hide WordHex;
  }
}
