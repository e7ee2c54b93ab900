/** The constants of SHA-256 are what FIPS 180-4 says they are: the fractional bits of roots of the first primes. */
module RootsOfPrimes {
  import opened Fips180

  // ---------------------------------------------------------------- the first primes

  ghost predicate Prime(n: nat) {
    n >= 2 && forall d :: 2 <= d < n ==> n % d != 0
  }

  predicate SmallPrime(q: nat) {
    q == 2 || q == 3 || q == 5 || q == 7 || q == 11 || q == 13 || q == 17
  }

  predicate HasSmallDivisor(n: nat) {
    n % 2 == 0 || n % 3 == 0 || n % 5 == 0 || n % 7 == 0 || n % 11 == 0 || n % 13 == 0 || n % 17 == 0
  }

  lemma SmallDivisor(n: nat) returns (q: nat)
    requires HasSmallDivisor(n)
    ensures SmallPrime(q) && n % q == 0
  {
    q := if n % 2 == 0 then 2 else if n % 3 == 0 then 3 else if n % 5 == 0 then 5 else if n % 7 == 0 then 7
         else if n % 11 == 0 then 11 else if n % 13 == 0 then 13 else 17;
  }

  predicate Times(n: nat, q: nat, x: nat) {
    (q == 2 && n == 2 * x) || (q == 3 && n == 3 * x) || (q == 5 && n == 5 * x) || (q == 7 && n == 7 * x) || (q == 11 && n == 11 * x) || (q == 13 && n == 13 * x) || (q == 17 && n == 17 * x)
  }

  lemma TimesDivides(n: nat, q: nat, x: nat)
    requires Times(n, q, x) && x >= 2
    ensures !SmallPrime(n) && HasSmallDivisor(n)
  {
    Divides2(x);
    Divides5(x);
    Divides11(x);
  }

  lemma Divides2(x: nat)
    ensures (2 * x) % 2 == 0 && (3 * x) % 3 == 0
  {
  }

  lemma Divides5(x: nat)
    ensures (5 * x) % 5 == 0 && (7 * x) % 7 == 0
  {
  }

  lemma Divides11(x: nat)
    ensures (11 * x) % 11 == 0 && (13 * x) % 13 == 0 && (17 * x) % 17 == 0
  {
  }

  lemma Factored(d: nat, e: nat) returns (q: nat, x: nat)
    requires d >= 2 && 2 <= e <= 18
    ensures Times(d * e, q, x) && x >= 2
  {
    if e == 2 {
      q, x := 2, d;
    } else if e == 3 {
      q, x := 3, d;
    } else if e == 4 {
      q, x := 2, 2 * d;
    } else if e == 5 {
      q, x := 5, d;
    } else if e == 6 {
      q, x := 2, 3 * d;
    } else if e == 7 {
      q, x := 7, d;
    } else if e == 8 {
      q, x := 2, 4 * d;
    } else if e == 9 {
      q, x := 3, 3 * d;
    } else if e == 10 {
      q, x := 2, 5 * d;
    } else if e == 11 {
      q, x := 11, d;
    } else if e == 12 {
      q, x := 2, 6 * d;
    } else if e == 13 {
      q, x := 13, d;
    } else if e == 14 {
      q, x := 2, 7 * d;
    } else if e == 15 {
      q, x := 3, 5 * d;
    } else if e == 16 {
      q, x := 2, 8 * d;
    } else if e == 17 {
      q, x := 17, d;
    } else {
      q, x := 2, 9 * d;
    }
  }

  /** A product with a factor up to 18 is no small prime, and one of the small primes divides it. */
  lemma Composite(d: nat, e: nat)
    requires d >= 2 && 2 <= e <= 18
    ensures !SmallPrime(d * e) && HasSmallDivisor(d * e)
  {
    var q, x := Factored(d, e);
    hide *;
    TimesDivides(d * e, q, x);
  }

  lemma LargeProduct(d: nat, e: nat)
    requires d > 18 && e > 18
    ensures d * e >= 361
  {
    assert d * e >= 19 * e;
  }

  lemma DivisorComposes(n: nat, d: nat)
    requires 2 <= d < n < 361
    ensures n % d == 0 ==> !SmallPrime(n) && HasSmallDivisor(n)
  {
    if n % d == 0 {
      var e := n / d;
      assert n == d * e && e >= 2;
      if e <= 18 {
        Composite(d, e);
      } else if d <= 18 {
        Composite(e, d);
      } else {
        LargeProduct(d, e);
      }
    }
  }

  /** Below the square of 19, dividing by the primes up to 17 decides. */
  lemma PrimeBySmall(n: nat)
    requires 2 <= n < 361
    ensures Prime(n) <==> SmallPrime(n) || !HasSmallDivisor(n)
  {
    forall d | 2 <= d < n ensures n % d == 0 ==> !SmallPrime(n) && HasSmallDivisor(n) {
      DivisorComposes(n, d);
    }
    if HasSmallDivisor(n) {
      var q := SmallDivisor(n);
      assert q <= n;
    }
    hide HasSmallDivisor;
  }

  const PRIMES0: seq<nat> := [2, 3, 5, 7, 11, 13, 17, 19]
  const PRIMES1: seq<nat> := [23, 29, 31, 37, 41, 43, 47, 53]
  const PRIMES2: seq<nat> := [59, 61, 67, 71, 73, 79, 83, 89]
  const PRIMES3: seq<nat> := [97, 101, 103, 107, 109, 113, 127, 131]
  const PRIMES4: seq<nat> := [137, 139, 149, 151, 157, 163, 167, 173]
  const PRIMES5: seq<nat> := [179, 181, 191, 193, 197, 199, 211, 223]
  const PRIMES6: seq<nat> := [227, 229, 233, 239, 241, 251, 257, 263]
  const PRIMES7: seq<nat> := [269, 271, 277, 281, 283, 293, 307, 311]

  const PRIMES: seq<nat> := PRIMES0 + PRIMES1 + PRIMES2 + PRIMES3 + PRIMES4 + PRIMES5 + PRIMES6 + PRIMES7

  lemma Residue(k: nat, r: nat)
    requires r < 6 && r != 1 && r != 5
    ensures (6 * k + r) % 2 == 0 || (6 * k + r) % 3 == 0
  {
    var m := if r == 3 then 2 * k + 1 else 3 * k + r / 2;
    assert r == 3 ==> 6 * k + r == 3 * m;
    assert r != 3 ==> 6 * k + r == 2 * m;
    Divides2(m);
  }

  /** Beside multiples of 2 and 3 only these remain. */
  lemma Sixths(n: nat) returns (k: nat)
    ensures n == 6 * k + 1 || n == 6 * k + 5 || n % 2 == 0 || n % 3 == 0
    ensures 6 * k <= n < 6 * k + 6
  {
    k := n / 6;
    if n != 6 * k + 1 && n != 6 * k + 5 {
      Residue(k, n - 6 * k);
    }
  }

  lemma Listed0(n: nat)
    requires 1 < n <= 19
    ensures n in PRIMES0 <==> SmallPrime(n) || !HasSmallDivisor(n)
  {
    var k := Sixths(n);
    assert k == 0 || k == 1 || k == 2 || k == 3;
  }

  lemma Listed1(n: nat)
    requires 19 < n <= 53
    ensures n in PRIMES1 <==> SmallPrime(n) || !HasSmallDivisor(n)
  {
    var k := Sixths(n);
    assert k == 3 || k == 4 || k == 5 || k == 6 || k == 7 || k == 8;
  }

  lemma Listed2(n: nat)
    requires 53 < n <= 89
    ensures n in PRIMES2 <==> SmallPrime(n) || !HasSmallDivisor(n)
  {
    var k := Sixths(n);
    assert k == 9 || k == 10 || k == 11 || k == 12 || k == 13 || k == 14;
  }

  lemma Listed3(n: nat)
    requires 89 < n <= 131
    ensures n in PRIMES3 <==> SmallPrime(n) || !HasSmallDivisor(n)
  {
    var k := Sixths(n);
    assert k == 15 || k == 16 || k == 17 || k == 18 || k == 19 || k == 20 || k == 21;
  }

  lemma Listed4(n: nat)
    requires 131 < n <= 173
    ensures n in PRIMES4 <==> SmallPrime(n) || !HasSmallDivisor(n)
  {
    var k := Sixths(n);
    assert k == 22 || k == 23 || k == 24 || k == 25 || k == 26 || k == 27 || k == 28;
  }

  lemma Listed5(n: nat)
    requires 173 < n <= 223
    ensures n in PRIMES5 <==> SmallPrime(n) || !HasSmallDivisor(n)
  {
    var k := Sixths(n);
    assert k == 29 || k == 30 || k == 31 || k == 32 || k == 33 || k == 34 || k == 35 || k == 36 || k == 37;
  }

  lemma Listed6(n: nat)
    requires 223 < n <= 263
    ensures n in PRIMES6 <==> SmallPrime(n) || !HasSmallDivisor(n)
  {
    var k := Sixths(n);
    assert k == 37 || k == 38 || k == 39 || k == 40 || k == 41 || k == 42 || k == 43;
  }

  lemma Listed7(n: nat)
    requires 263 < n <= 311
    ensures n in PRIMES7 <==> SmallPrime(n) || !HasSmallDivisor(n)
  {
    var k := Sixths(n);
    assert k == 44 || k == 45 || k == 46 || k == 47 || k == 48 || k == 49 || k == 50 || k == 51;
  }

  lemma InSome(a: seq<nat>, b: seq<nat>, c: seq<nat>, d: seq<nat>, e: seq<nat>, f: seq<nat>, g: seq<nat>, h: seq<nat>, n: nat)
    ensures n in a + b + c + d + e + f + g + h
       <==> n in a || n in b || n in c || n in d || n in e || n in f || n in g || n in h
  {
  }

  ghost predicate Rising(s: seq<nat>) {
    forall i, j :: 0 <= i < j < |s| ==> s[i] < s[j]
  }

  lemma RisingOn(a: seq<nat>, b: seq<nat>)
    requires Rising(a) && Rising(b) && a != [] && b != [] && a[|a| - 1] < b[0]
    ensures Rising(a + b) && (a + b)[|a + b| - 1] == b[|b| - 1]
  {
    assert forall i :: 0 <= i < |a| ==> a[i] <= a[|a| - 1];
    assert forall j :: 0 <= j < |b| ==> b[0] <= b[j];
  }

  lemma Within0(n: nat)
    ensures n in PRIMES0 ==> 1 < n <= 19
  {
  }

  lemma Within1(n: nat)
    ensures n in PRIMES1 ==> 19 < n <= 53
  {
  }

  lemma Within2(n: nat)
    ensures n in PRIMES2 ==> 53 < n <= 89
  {
  }

  lemma Within3(n: nat)
    ensures n in PRIMES3 ==> 89 < n <= 131
  {
  }

  lemma Within4(n: nat)
    ensures n in PRIMES4 ==> 131 < n <= 173
  {
  }

  lemma Within5(n: nat)
    ensures n in PRIMES5 ==> 173 < n <= 223
  {
  }

  lemma Within6(n: nat)
    ensures n in PRIMES6 ==> 223 < n <= 263
  {
  }

  lemma Within7(n: nat)
    ensures n in PRIMES7 ==> 263 < n <= 311
  {
  }

  lemma Row0()
    ensures Rising(PRIMES0) && |PRIMES0| == 8 && PRIMES0[0] == 2 && PRIMES0[7] == 19
  {
  }

  lemma Row1()
    ensures Rising(PRIMES1) && |PRIMES1| == 8 && PRIMES1[0] == 23 && PRIMES1[7] == 53
  {
  }

  lemma Row2()
    ensures Rising(PRIMES2) && |PRIMES2| == 8 && PRIMES2[0] == 59 && PRIMES2[7] == 89
  {
  }

  lemma Row3()
    ensures Rising(PRIMES3) && |PRIMES3| == 8 && PRIMES3[0] == 97 && PRIMES3[7] == 131
  {
  }

  lemma Row4()
    ensures Rising(PRIMES4) && |PRIMES4| == 8 && PRIMES4[0] == 137 && PRIMES4[7] == 173
  {
  }

  lemma Row5()
    ensures Rising(PRIMES5) && |PRIMES5| == 8 && PRIMES5[0] == 179 && PRIMES5[7] == 223
  {
  }

  lemma Row6()
    ensures Rising(PRIMES6) && |PRIMES6| == 8 && PRIMES6[0] == 227 && PRIMES6[7] == 263
  {
  }

  lemma Row7()
    ensures Rising(PRIMES7) && |PRIMES7| == 8 && PRIMES7[0] == 269 && PRIMES7[7] == 311
  {
  }

  /** The table rises and has 64 entries, so the entry at t is the prime after t smaller ones. */
  lemma PrimesRise()
    ensures Rising(PRIMES) && |PRIMES| == 64
  {
    hide PRIMES0, PRIMES1, PRIMES2, PRIMES3, PRIMES4, PRIMES5, PRIMES6, PRIMES7, Rising;
    Row0();
    Row1();
    Row2();
    Row3();
    Row4();
    Row5();
    Row6();
    Row7();
    RisingOn(PRIMES0, PRIMES1);
    RisingOn(PRIMES0 + PRIMES1, PRIMES2);
    RisingOn(PRIMES0 + PRIMES1 + PRIMES2, PRIMES3);
    RisingOn(PRIMES0 + PRIMES1 + PRIMES2 + PRIMES3, PRIMES4);
    RisingOn(PRIMES0 + PRIMES1 + PRIMES2 + PRIMES3 + PRIMES4, PRIMES5);
    RisingOn(PRIMES0 + PRIMES1 + PRIMES2 + PRIMES3 + PRIMES4 + PRIMES5, PRIMES6);
    RisingOn(PRIMES0 + PRIMES1 + PRIMES2 + PRIMES3 + PRIMES4 + PRIMES5 + PRIMES6, PRIMES7);
  }

  /** The table lists the primes up to 311 and no other number. */
  lemma PrimesListed(n: nat)
    ensures n in PRIMES <==> Prime(n) && n <= 311
  {
    InSome(PRIMES0, PRIMES1, PRIMES2, PRIMES3, PRIMES4, PRIMES5, PRIMES6, PRIMES7, n);
    Within0(n);
    Within1(n);
    Within2(n);
    Within3(n);
    Within4(n);
    Within5(n);
    Within6(n);
    Within7(n);
    if 2 <= n <= 311 {
      PrimeBySmall(n);
      if 1 < n <= 19 {
        Listed0(n);
      }
      if 19 < n <= 53 {
        Listed1(n);
      }
      if 53 < n <= 89 {
        Listed2(n);
      }
      if 89 < n <= 131 {
        Listed3(n);
      }
      if 131 < n <= 173 {
        Listed4(n);
      }
      if 173 < n <= 223 {
        Listed5(n);
      }
      if 223 < n <= 263 {
        Listed6(n);
      }
      if 263 < n <= 311 {
        Listed7(n);
      }
    }
    hide PRIMES0, PRIMES1, PRIMES2, PRIMES3, PRIMES4, PRIMES5, PRIMES6, PRIMES7, SmallPrime, HasSmallDivisor;
  }

  // ---------------------------------------------------------------- section 4.2.2 and section 5.3.3: the roots

  /** `bits` are the first 32 bits of the fractional part of the cube root of `p`. */
  ghost predicate CubeRootBits(p: nat, bits: Word) {
    exists whole: nat :: CubeRootAt(p, whole, bits)
  }

  predicate CubeRootAt(p: nat, whole: nat, bits: Word) {
    var r := whole * 0x1_0000_0000 + bits as nat;
    r * r * r <= p * 0x1_0000_0000_0000_0000_0000_0000 < (r + 1) * (r + 1) * (r + 1)
  }

  /** `bits` are the first 32 bits of the fractional part of the square root of `p`. */
  ghost predicate SquareRootBits(p: nat, bits: Word) {
    exists whole: nat :: SquareRootAt(p, whole, bits)
  }

  predicate SquareRootAt(p: nat, whole: nat, bits: Word) {
    var r := whole * 0x1_0000_0000 + bits as nat;
    r * r <= p * 0x1_0000_0000_0000_0000 < (r + 1) * (r + 1)
  }

  lemma Roots0()
    ensures |ROW0| == 8 && forall j :: 0 <= j < 8 ==> CubeRootBits(PRIMES0[j], ROW0[j])
  {
    assert CubeRootAt(2, 1, 0x428a2f98);
    assert CubeRootAt(3, 1, 0x71374491);
    assert CubeRootAt(5, 1, 0xb5c0fbcf);
    assert CubeRootAt(7, 1, 0xe9b5dba5);
    assert CubeRootAt(11, 2, 0x3956c25b);
    assert CubeRootAt(13, 2, 0x59f111f1);
    assert CubeRootAt(17, 2, 0x923f82a4);
    assert CubeRootAt(19, 2, 0xab1c5ed5);
    hide CubeRootAt;
  }

  lemma Roots1()
    ensures |ROW1| == 8 && forall j :: 0 <= j < 8 ==> CubeRootBits(PRIMES1[j], ROW1[j])
  {
    assert CubeRootAt(23, 2, 0xd807aa98);
    assert CubeRootAt(29, 3, 0x12835b01);
    assert CubeRootAt(31, 3, 0x243185be);
    assert CubeRootAt(37, 3, 0x550c7dc3);
    assert CubeRootAt(41, 3, 0x72be5d74);
    assert CubeRootAt(43, 3, 0x80deb1fe);
    assert CubeRootAt(47, 3, 0x9bdc06a7);
    assert CubeRootAt(53, 3, 0xc19bf174);
    hide CubeRootAt;
  }

  lemma Roots2()
    ensures |ROW2| == 8 && forall j :: 0 <= j < 8 ==> CubeRootBits(PRIMES2[j], ROW2[j])
  {
    assert CubeRootAt(59, 3, 0xe49b69c1);
    assert CubeRootAt(61, 3, 0xefbe4786);
    assert CubeRootAt(67, 4, 0x0fc19dc6);
    assert CubeRootAt(71, 4, 0x240ca1cc);
    assert CubeRootAt(73, 4, 0x2de92c6f);
    assert CubeRootAt(79, 4, 0x4a7484aa);
    assert CubeRootAt(83, 4, 0x5cb0a9dc);
    assert CubeRootAt(89, 4, 0x76f988da);
    hide CubeRootAt;
  }

  lemma Roots3()
    ensures |ROW3| == 8 && forall j :: 0 <= j < 8 ==> CubeRootBits(PRIMES3[j], ROW3[j])
  {
    assert CubeRootAt(97, 4, 0x983e5152);
    assert CubeRootAt(101, 4, 0xa831c66d);
    assert CubeRootAt(103, 4, 0xb00327c8);
    assert CubeRootAt(107, 4, 0xbf597fc7);
    assert CubeRootAt(109, 4, 0xc6e00bf3);
    assert CubeRootAt(113, 4, 0xd5a79147);
    assert CubeRootAt(127, 5, 0x06ca6351);
    assert CubeRootAt(131, 5, 0x14292967);
    hide CubeRootAt;
  }

  lemma Roots4()
    ensures |ROW4| == 8 && forall j :: 0 <= j < 8 ==> CubeRootBits(PRIMES4[j], ROW4[j])
  {
    assert CubeRootAt(137, 5, 0x27b70a85);
    assert CubeRootAt(139, 5, 0x2e1b2138);
    assert CubeRootAt(149, 5, 0x4d2c6dfc);
    assert CubeRootAt(151, 5, 0x53380d13);
    assert CubeRootAt(157, 5, 0x650a7354);
    assert CubeRootAt(163, 5, 0x766a0abb);
    assert CubeRootAt(167, 5, 0x81c2c92e);
    assert CubeRootAt(173, 5, 0x92722c85);
    hide CubeRootAt;
  }

  lemma Roots5()
    ensures |ROW5| == 8 && forall j :: 0 <= j < 8 ==> CubeRootBits(PRIMES5[j], ROW5[j])
  {
    assert CubeRootAt(179, 5, 0xa2bfe8a1);
    assert CubeRootAt(181, 5, 0xa81a664b);
    assert CubeRootAt(191, 5, 0xc24b8b70);
    assert CubeRootAt(193, 5, 0xc76c51a3);
    assert CubeRootAt(197, 5, 0xd192e819);
    assert CubeRootAt(199, 5, 0xd6990624);
    assert CubeRootAt(211, 5, 0xf40e3585);
    assert CubeRootAt(223, 6, 0x106aa070);
    hide CubeRootAt;
  }

  lemma Roots6()
    ensures |ROW6| == 8 && forall j :: 0 <= j < 8 ==> CubeRootBits(PRIMES6[j], ROW6[j])
  {
    assert CubeRootAt(227, 6, 0x19a4c116);
    assert CubeRootAt(229, 6, 0x1e376c08);
    assert CubeRootAt(233, 6, 0x2748774c);
    assert CubeRootAt(239, 6, 0x34b0bcb5);
    assert CubeRootAt(241, 6, 0x391c0cb3);
    assert CubeRootAt(251, 6, 0x4ed8aa4a);
    assert CubeRootAt(257, 6, 0x5b9cca4f);
    assert CubeRootAt(263, 6, 0x682e6ff3);
    hide CubeRootAt;
  }

  lemma Roots7()
    ensures |ROW7| == 8 && forall j :: 0 <= j < 8 ==> CubeRootBits(PRIMES7[j], ROW7[j])
  {
    assert CubeRootAt(269, 6, 0x748f82ee);
    assert CubeRootAt(271, 6, 0x78a5636f);
    assert CubeRootAt(277, 6, 0x84c87814);
    assert CubeRootAt(281, 6, 0x8cc70208);
    assert CubeRootAt(283, 6, 0x90befffa);
    assert CubeRootAt(293, 6, 0xa4506ceb);
    assert CubeRootAt(307, 6, 0xbef9a3f7);
    assert CubeRootAt(311, 6, 0xc67178f2);
    hide CubeRootAt;
  }

  lemma InitialRoots()
    ensures SquareRootBits(2, INITIAL.a) && SquareRootBits(3, INITIAL.b) && SquareRootBits(5, INITIAL.c) && SquareRootBits(7, INITIAL.d)
    ensures SquareRootBits(11, INITIAL.e) && SquareRootBits(13, INITIAL.f) && SquareRootBits(17, INITIAL.g) && SquareRootBits(19, INITIAL.h)
  {
    assert SquareRootAt(2, 1, 0x6a09e667);
    assert SquareRootAt(3, 1, 0xbb67ae85);
    assert SquareRootAt(5, 2, 0x3c6ef372);
    assert SquareRootAt(7, 2, 0xa54ff53a);
    assert SquareRootAt(11, 3, 0x510e527f);
    assert SquareRootAt(13, 3, 0x9b05688c);
    assert SquareRootAt(17, 4, 0x1f83d9ab);
    assert SquareRootAt(19, 4, 0x5be0cd19);
    hide SquareRootAt;
  }

  /** The constant of round t is made of the first 32 fractional bits of the cube root of the t-th prime. */
  lemma ConstantsAreRoots(t: nat)
    requires t < 64
    ensures |ROUNDS| == 64 && |PRIMES| == 64 && CubeRootBits(PRIMES[t], K(t))
  {
    PrimesRise();
    Roots0();
    Row0();
    Roots1();
    Row1();
    Roots2();
    Row2();
    Roots3();
    Row3();
    Roots4();
    Row4();
    Roots5();
    Row5();
    Roots6();
    Row6();
    Roots7();
    Row7();
    hide CubeRootBits, ROW0, ROW1, ROW2, ROW3, ROW4, ROW5, ROW6, ROW7, Rising,
      PRIMES0, PRIMES1, PRIMES2, PRIMES3, PRIMES4, PRIMES5, PRIMES6, PRIMES7;
    var row, j := t / 8, t % 8;
    assert t == 8 * row + j;
  }
}
