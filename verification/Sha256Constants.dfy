/** Where the constants of SHA-256 come from: the first 32 bits of the fractional parts of the cube roots
    of the first 64 primes, and of the square roots of the first 8 (FIPS 180-4, sections 4.2.2 and 5.3.3). */
module Sha256Constants {
  import opened Bytes
  import opened Sha256

  /** The first 64 primes, eight to a row. */
  const PRIMES: seq<seq<nat>> := [
    [2, 3, 5, 7, 11, 13, 17, 19],
    [23, 29, 31, 37, 41, 43, 47, 53],
    [59, 61, 67, 71, 73, 79, 83, 89],
    [97, 101, 103, 107, 109, 113, 127, 131],
    [137, 139, 149, 151, 157, 163, 167, 173],
    [179, 181, 191, 193, 197, 199, 211, 223],
    [227, 229, 233, 239, 241, 251, 257, 263],
    [269, 271, 277, 281, 283, 293, 307, 311]
  ]

  function Prime(i: nat): nat
    requires i < 64
  {
    assert |PRIMES| == 8 && forall i :: 0 <= i < 8 ==> |PRIMES[i]| == 8;
    PRIMES[i / 8][i % 8]
  }

  predicate IsPrime(n: nat) {
    n >= 2 && forall d :: 2 <= d < n ==> n % d != 0
  }

  // ----- The list holds the first primes -----

  /** Trial division, enough below 19 * 19. */
  predicate Passes(n: nat) {
    && n >= 2 && (n == 2 || n % 2 != 0) && (n == 3 || n % 3 != 0) && (n == 5 || n % 5 != 0) && (n == 7 || n % 7 != 0)
    && (n == 11 || n % 11 != 0) && (n == 13 || n % 13 != 0) && (n == 17 || n % 17 != 0)
  }

  /** What divides a factor divides the number. */
  lemma Multiple(d: nat, e: nat, k: nat)
    requires d > 0 && e % d == 0
    ensures (e * k) % d == 0
  {
    var m := e / d;
    assert e == d * m;
    assert e * k == d * (m * k);
    Division(e * k, d, m * k, 0);
  }

  /** Quotient and remainder from a decomposition. */
  lemma Division(n: int, d: int, q: int, r: int)
    requires d > 0 && n == d * q + r && 0 <= r < d
    ensures n / d == q && n % d == r
  {
    var k := n / d - q;
    assert d * (n / d) + n % d == n;
    assert d * k == r - n % d by {
      assert d * k == d * (n / d) - d * q;
    }
    assert k >= 1 ==> d * k >= d;
    assert k <= -1 ==> d * k <= -d;
  }

  /** One of the seven primes divides every number from 2 to 18. */
  lemma SmallFactor(e: nat) returns (d: nat)
    requires 2 <= e < 19
    ensures d in {2, 3, 5, 7, 11, 13, 17} && e % d == 0 && d <= e
  {
    d := if e % 2 == 0 then 2 else if e % 3 == 0 then 3 else if e == 5 then 5 else if e == 7 then 7
      else if e == 11 then 11 else if e == 13 then 13 else 17;
  }

  lemma PassesIsPrime(n: nat)
    requires n < 361
    ensures Passes(n) <==> IsPrime(n)
  {
    forall d | 2 <= d < n && n % d == 0 ensures !Passes(n) {
      Quotient(n, d);
      Factored(n, d, n / d);
    }
    if n >= 2 && !Passes(n) {
      var d := FailedTest(n);
    }
  }

  lemma Quotient(n: nat, d: nat)
    requires d > 0 && n % d == 0
    ensures n == d * (n / d)
  {
  }

  lemma FailedTest(n: nat) returns (d: nat)
    requires n >= 2 && !Passes(n)
    ensures 2 <= d < n && n % d == 0
  {
    d := if n % 2 == 0 && n != 2 then 2 else if n % 3 == 0 && n != 3 then 3 else if n % 5 == 0 && n != 5 then 5
      else if n % 7 == 0 && n != 7 then 7 else if n % 11 == 0 && n != 11 then 11 else if n % 13 == 0 && n != 13 then 13 else 17;
  }

  lemma Factored(n: nat, d: nat, k: nat)
    requires n < 361 && 2 <= d < n && n == d * k
    ensures !Passes(n)
  {
    assert k != 0 && k != 1;
    Grows(d, k);
    var e, m := if d < 19 then d else k, if d < 19 then k else d;
    assert n == e * m;
    var f := SmallFactor(e);
    Multiple(f, e, m);
    Grows2(e, m);
  }

  lemma Grows(d: nat, k: nat)
    ensures d >= 19 && k >= 19 ==> d * k >= 361
  {
    assert d * k == (d - 19) * (k - 19) + 19 * d + 19 * k - 361;
    assert d >= 19 && k >= 19 ==> (d - 19) * (k - 19) >= 0;
  }

  lemma Grows2(e: nat, m: nat)
    requires m >= 2
    ensures e * m >= e * 2
  {
    assert e * m == e * 2 + e * (m - 2);
  }

  /** `b` is the next prime after `a`. */
  predicate Next(a: nat, b: nat) {
    a < b && IsPrime(b) && forall n :: a < n < b ==> !IsPrime(n)
  }

  lemma IsNext(a: nat, b: nat)
    requires 2 <= a < b < 361 && Passes(b) && forall n :: a < n < b && n % 2 != 0 ==> !Passes(n)
    ensures Next(a, b)
  {
    PassesIsPrime(b);
    forall n | a < n < b ensures !IsPrime(n) {
      PassesIsPrime(n);
    }
  }

  lemma Primes0()
    ensures forall i :: 0 <= i < 4 ==> Next(Prime(i), Prime(i + 1))
  {
    hide Next;
    assert Prime(0) == 2;
    assert Prime(1) == 3;
    assert Prime(2) == 5;
    assert Prime(3) == 7;
    assert Prime(4) == 11;
    assert Passes(3);
    assert Passes(5);
    assert Passes(7);
    assert Passes(11) && !Passes(9);
    hide Passes;
    IsNext(2, 3);
    IsNext(3, 5);
    IsNext(5, 7);
    IsNext(7, 11);
  }

  lemma Primes1()
    ensures forall i :: 4 <= i < 8 ==> Next(Prime(i), Prime(i + 1))
  {
    hide Next;
    assert Prime(4) == 11;
    assert Prime(5) == 13;
    assert Prime(6) == 17;
    assert Prime(7) == 19;
    assert Prime(8) == 23;
    assert Passes(13);
    assert Passes(17) && !Passes(15);
    assert Passes(19);
    assert Passes(23) && !Passes(21);
    hide Passes;
    IsNext(11, 13);
    IsNext(13, 17);
    IsNext(17, 19);
    IsNext(19, 23);
  }

  lemma Primes2()
    ensures forall i :: 8 <= i < 12 ==> Next(Prime(i), Prime(i + 1))
  {
    hide Next;
    assert Prime(8) == 23;
    assert Prime(9) == 29;
    assert Prime(10) == 31;
    assert Prime(11) == 37;
    assert Prime(12) == 41;
    assert Passes(29) && !Passes(25) && !Passes(27);
    assert Passes(31);
    assert Passes(37) && !Passes(33) && !Passes(35);
    assert Passes(41) && !Passes(39);
    hide Passes;
    IsNext(23, 29);
    IsNext(29, 31);
    IsNext(31, 37);
    IsNext(37, 41);
  }

  lemma Primes3()
    ensures forall i :: 12 <= i < 16 ==> Next(Prime(i), Prime(i + 1))
  {
    hide Next;
    assert Prime(12) == 41;
    assert Prime(13) == 43;
    assert Prime(14) == 47;
    assert Prime(15) == 53;
    assert Prime(16) == 59;
    assert Passes(43);
    assert Passes(47) && !Passes(45);
    assert Passes(53) && !Passes(49) && !Passes(51);
    assert Passes(59) && !Passes(55) && !Passes(57);
    hide Passes;
    IsNext(41, 43);
    IsNext(43, 47);
    IsNext(47, 53);
    IsNext(53, 59);
  }

  lemma Primes4()
    ensures forall i :: 16 <= i < 20 ==> Next(Prime(i), Prime(i + 1))
  {
    hide Next;
    assert Prime(16) == 59;
    assert Prime(17) == 61;
    assert Prime(18) == 67;
    assert Prime(19) == 71;
    assert Prime(20) == 73;
    assert Passes(61);
    assert Passes(67) && !Passes(63) && !Passes(65);
    assert Passes(71) && !Passes(69);
    assert Passes(73);
    hide Passes;
    IsNext(59, 61);
    IsNext(61, 67);
    IsNext(67, 71);
    IsNext(71, 73);
  }

  lemma Primes5()
    ensures forall i :: 20 <= i < 24 ==> Next(Prime(i), Prime(i + 1))
  {
    hide Next;
    assert Prime(20) == 73;
    assert Prime(21) == 79;
    assert Prime(22) == 83;
    assert Prime(23) == 89;
    assert Prime(24) == 97;
    assert Passes(79) && !Passes(75) && !Passes(77);
    assert Passes(83) && !Passes(81);
    assert Passes(89) && !Passes(85) && !Passes(87);
    assert Passes(97) && !Passes(91) && !Passes(93) && !Passes(95);
    hide Passes;
    IsNext(73, 79);
    IsNext(79, 83);
    IsNext(83, 89);
    IsNext(89, 97);
  }

  lemma Primes6()
    ensures forall i :: 24 <= i < 28 ==> Next(Prime(i), Prime(i + 1))
  {
    hide Next;
    assert Prime(24) == 97;
    assert Prime(25) == 101;
    assert Prime(26) == 103;
    assert Prime(27) == 107;
    assert Prime(28) == 109;
    assert Passes(101) && !Passes(99);
    assert Passes(103);
    assert Passes(107) && !Passes(105);
    assert Passes(109);
    hide Passes;
    IsNext(97, 101);
    IsNext(101, 103);
    IsNext(103, 107);
    IsNext(107, 109);
  }

  lemma Primes7()
    ensures forall i :: 28 <= i < 32 ==> Next(Prime(i), Prime(i + 1))
  {
    hide Next;
    assert Prime(28) == 109;
    assert Prime(29) == 113;
    assert Prime(30) == 127;
    assert Prime(31) == 131;
    assert Prime(32) == 137;
    assert Passes(113) && !Passes(111);
    assert Passes(127) && !Passes(115) && !Passes(117) && !Passes(119) && !Passes(121) && !Passes(123) && !Passes(125);
    assert Passes(131) && !Passes(129);
    assert Passes(137) && !Passes(133) && !Passes(135);
    hide Passes;
    IsNext(109, 113);
    IsNext(113, 127);
    IsNext(127, 131);
    IsNext(131, 137);
  }

  lemma Primes8()
    ensures forall i :: 32 <= i < 36 ==> Next(Prime(i), Prime(i + 1))
  {
    hide Next;
    assert Prime(32) == 137;
    assert Prime(33) == 139;
    assert Prime(34) == 149;
    assert Prime(35) == 151;
    assert Prime(36) == 157;
    assert Passes(139);
    assert Passes(149) && !Passes(141) && !Passes(143) && !Passes(145) && !Passes(147);
    assert Passes(151);
    assert Passes(157) && !Passes(153) && !Passes(155);
    hide Passes;
    IsNext(137, 139);
    IsNext(139, 149);
    IsNext(149, 151);
    IsNext(151, 157);
  }

  lemma Primes9()
    ensures forall i :: 36 <= i < 40 ==> Next(Prime(i), Prime(i + 1))
  {
    hide Next;
    assert Prime(36) == 157;
    assert Prime(37) == 163;
    assert Prime(38) == 167;
    assert Prime(39) == 173;
    assert Prime(40) == 179;
    assert Passes(163) && !Passes(159) && !Passes(161);
    assert Passes(167) && !Passes(165);
    assert Passes(173) && !Passes(169) && !Passes(171);
    assert Passes(179) && !Passes(175) && !Passes(177);
    hide Passes;
    IsNext(157, 163);
    IsNext(163, 167);
    IsNext(167, 173);
    IsNext(173, 179);
  }

  lemma Primes10()
    ensures forall i :: 40 <= i < 44 ==> Next(Prime(i), Prime(i + 1))
  {
    hide Next;
    assert Prime(40) == 179;
    assert Prime(41) == 181;
    assert Prime(42) == 191;
    assert Prime(43) == 193;
    assert Prime(44) == 197;
    assert Passes(181);
    assert Passes(191) && !Passes(183) && !Passes(185) && !Passes(187) && !Passes(189);
    assert Passes(193);
    assert Passes(197) && !Passes(195);
    hide Passes;
    IsNext(179, 181);
    IsNext(181, 191);
    IsNext(191, 193);
    IsNext(193, 197);
  }

  lemma Primes11()
    ensures forall i :: 44 <= i < 48 ==> Next(Prime(i), Prime(i + 1))
  {
    hide Next;
    assert Prime(44) == 197;
    assert Prime(45) == 199;
    assert Prime(46) == 211;
    assert Prime(47) == 223;
    assert Prime(48) == 227;
    assert Passes(199);
    assert Passes(211) && !Passes(201) && !Passes(203) && !Passes(205) && !Passes(207) && !Passes(209);
    assert Passes(223) && !Passes(213) && !Passes(215) && !Passes(217) && !Passes(219) && !Passes(221);
    assert Passes(227) && !Passes(225);
    hide Passes;
    IsNext(197, 199);
    IsNext(199, 211);
    IsNext(211, 223);
    IsNext(223, 227);
  }

  lemma Primes12()
    ensures forall i :: 48 <= i < 52 ==> Next(Prime(i), Prime(i + 1))
  {
    hide Next;
    assert Prime(48) == 227;
    assert Prime(49) == 229;
    assert Prime(50) == 233;
    assert Prime(51) == 239;
    assert Prime(52) == 241;
    assert Passes(229);
    assert Passes(233) && !Passes(231);
    assert Passes(239) && !Passes(235) && !Passes(237);
    assert Passes(241);
    hide Passes;
    IsNext(227, 229);
    IsNext(229, 233);
    IsNext(233, 239);
    IsNext(239, 241);
  }

  lemma Primes13()
    ensures forall i :: 52 <= i < 56 ==> Next(Prime(i), Prime(i + 1))
  {
    hide Next;
    assert Prime(52) == 241;
    assert Prime(53) == 251;
    assert Prime(54) == 257;
    assert Prime(55) == 263;
    assert Prime(56) == 269;
    assert Passes(251) && !Passes(243) && !Passes(245) && !Passes(247) && !Passes(249);
    assert Passes(257) && !Passes(253) && !Passes(255);
    assert Passes(263) && !Passes(259) && !Passes(261);
    assert Passes(269) && !Passes(265) && !Passes(267);
    hide Passes;
    IsNext(241, 251);
    IsNext(251, 257);
    IsNext(257, 263);
    IsNext(263, 269);
  }

  lemma Primes14()
    ensures forall i :: 56 <= i < 60 ==> Next(Prime(i), Prime(i + 1))
  {
    hide Next;
    assert Prime(56) == 269;
    assert Prime(57) == 271;
    assert Prime(58) == 277;
    assert Prime(59) == 281;
    assert Prime(60) == 283;
    assert Passes(271);
    assert Passes(277) && !Passes(273) && !Passes(275);
    assert Passes(281) && !Passes(279);
    assert Passes(283);
    hide Passes;
    IsNext(269, 271);
    IsNext(271, 277);
    IsNext(277, 281);
    IsNext(281, 283);
  }

  lemma Primes15()
    ensures forall i :: 60 <= i < 63 ==> Next(Prime(i), Prime(i + 1))
  {
    hide Next;
    assert Prime(60) == 283;
    assert Prime(61) == 293;
    assert Prime(62) == 307;
    assert Prime(63) == 311;
    assert Passes(293) && !Passes(285) && !Passes(287) && !Passes(289) && !Passes(291);
    assert Passes(307) && !Passes(295) && !Passes(297) && !Passes(299) && !Passes(301) && !Passes(303) && !Passes(305);
    assert Passes(311) && !Passes(309);
    hide Passes;
    IsNext(283, 293);
    IsNext(293, 307);
    IsNext(307, 311);
  }

  /** The list starts with 2, the first prime, and goes on with each next one. */
  lemma FirstPrimes()
    ensures Prime(0) == 2 && IsPrime(2)
    ensures forall i :: 0 <= i < 63 ==> Next(Prime(i), Prime(i + 1))
  {
    hide Next;
    Primes0();
    Primes1();
    Primes2();
    Primes3();
    Primes4();
    Primes5();
    Primes6();
    Primes7();
    Primes8();
    Primes9();
    Primes10();
    Primes11();
    Primes12();
    Primes13();
    Primes14();
    Primes15();
  }

  // ----- The constants -----

  function Cube(n: nat): nat {
    n * n * n
  }

  /** `k` is the first 32 bits of the fractional part of the cube root of `p`. */
  ghost predicate CubeRoot(p: nat, k: nat) {
    exists whole: nat :: CubeBounds(p, k, whole)
  }

  predicate CubeBounds(p: nat, k: nat, whole: nat) {
    k < UINT32 && Cube(whole * UINT32 + k) <= p * Cube(UINT32) < Cube(whole * UINT32 + k + 1)
  }

  /** `h` is the first 32 bits of the fractional part of the square root of `p`. */
  ghost predicate SquareRoot(p: nat, h: nat) {
    exists whole: nat :: SquareBounds(p, h, whole)
  }

  predicate SquareBounds(p: nat, h: nat, whole: nat) {
    var n := whole * UINT32 + h;
    h < UINT32 && n * n <= p * (UINT32 * UINT32) < (n + 1) * (n + 1)
  }

  lemma CubeRoots0()
    ensures forall t :: 0 <= t < 8 ==> CubeRoot(Prime(t), K(t) as nat)
  {
    hide CubeRoot;
    assert Prime(0) == 2 && K(0) == 0x428a2f98;
    HasCubeRoot(2, 0x428a2f98, 1);
    assert Prime(1) == 3 && K(1) == 0x71374491;
    HasCubeRoot(3, 0x71374491, 1);
    assert Prime(2) == 5 && K(2) == 0xb5c0fbcf;
    HasCubeRoot(5, 0xb5c0fbcf, 1);
    assert Prime(3) == 7 && K(3) == 0xe9b5dba5;
    HasCubeRoot(7, 0xe9b5dba5, 1);
    assert Prime(4) == 11 && K(4) == 0x3956c25b;
    HasCubeRoot(11, 0x3956c25b, 2);
    assert Prime(5) == 13 && K(5) == 0x59f111f1;
    HasCubeRoot(13, 0x59f111f1, 2);
    assert Prime(6) == 17 && K(6) == 0x923f82a4;
    HasCubeRoot(17, 0x923f82a4, 2);
    assert Prime(7) == 19 && K(7) == 0xab1c5ed5;
    HasCubeRoot(19, 0xab1c5ed5, 2);
  }

  lemma CubeRoots1()
    ensures forall t :: 8 <= t < 16 ==> CubeRoot(Prime(t), K(t) as nat)
  {
    hide CubeRoot;
    assert Prime(8) == 23 && K(8) == 0xd807aa98;
    HasCubeRoot(23, 0xd807aa98, 2);
    assert Prime(9) == 29 && K(9) == 0x12835b01;
    HasCubeRoot(29, 0x12835b01, 3);
    assert Prime(10) == 31 && K(10) == 0x243185be;
    HasCubeRoot(31, 0x243185be, 3);
    assert Prime(11) == 37 && K(11) == 0x550c7dc3;
    HasCubeRoot(37, 0x550c7dc3, 3);
    assert Prime(12) == 41 && K(12) == 0x72be5d74;
    HasCubeRoot(41, 0x72be5d74, 3);
    assert Prime(13) == 43 && K(13) == 0x80deb1fe;
    HasCubeRoot(43, 0x80deb1fe, 3);
    assert Prime(14) == 47 && K(14) == 0x9bdc06a7;
    HasCubeRoot(47, 0x9bdc06a7, 3);
    assert Prime(15) == 53 && K(15) == 0xc19bf174;
    HasCubeRoot(53, 0xc19bf174, 3);
  }

  lemma CubeRoots2()
    ensures forall t :: 16 <= t < 24 ==> CubeRoot(Prime(t), K(t) as nat)
  {
    hide CubeRoot;
    assert Prime(16) == 59 && K(16) == 0xe49b69c1;
    HasCubeRoot(59, 0xe49b69c1, 3);
    assert Prime(17) == 61 && K(17) == 0xefbe4786;
    HasCubeRoot(61, 0xefbe4786, 3);
    assert Prime(18) == 67 && K(18) == 0x0fc19dc6;
    HasCubeRoot(67, 0x0fc19dc6, 4);
    assert Prime(19) == 71 && K(19) == 0x240ca1cc;
    HasCubeRoot(71, 0x240ca1cc, 4);
    assert Prime(20) == 73 && K(20) == 0x2de92c6f;
    HasCubeRoot(73, 0x2de92c6f, 4);
    assert Prime(21) == 79 && K(21) == 0x4a7484aa;
    HasCubeRoot(79, 0x4a7484aa, 4);
    assert Prime(22) == 83 && K(22) == 0x5cb0a9dc;
    HasCubeRoot(83, 0x5cb0a9dc, 4);
    assert Prime(23) == 89 && K(23) == 0x76f988da;
    HasCubeRoot(89, 0x76f988da, 4);
  }

  lemma CubeRoots3()
    ensures forall t :: 24 <= t < 32 ==> CubeRoot(Prime(t), K(t) as nat)
  {
    hide CubeRoot;
    assert Prime(24) == 97 && K(24) == 0x983e5152;
    HasCubeRoot(97, 0x983e5152, 4);
    assert Prime(25) == 101 && K(25) == 0xa831c66d;
    HasCubeRoot(101, 0xa831c66d, 4);
    assert Prime(26) == 103 && K(26) == 0xb00327c8;
    HasCubeRoot(103, 0xb00327c8, 4);
    assert Prime(27) == 107 && K(27) == 0xbf597fc7;
    HasCubeRoot(107, 0xbf597fc7, 4);
    assert Prime(28) == 109 && K(28) == 0xc6e00bf3;
    HasCubeRoot(109, 0xc6e00bf3, 4);
    assert Prime(29) == 113 && K(29) == 0xd5a79147;
    HasCubeRoot(113, 0xd5a79147, 4);
    assert Prime(30) == 127 && K(30) == 0x06ca6351;
    HasCubeRoot(127, 0x06ca6351, 5);
    assert Prime(31) == 131 && K(31) == 0x14292967;
    HasCubeRoot(131, 0x14292967, 5);
  }

  lemma CubeRoots4()
    ensures forall t :: 32 <= t < 40 ==> CubeRoot(Prime(t), K(t) as nat)
  {
    hide CubeRoot;
    assert Prime(32) == 137 && K(32) == 0x27b70a85;
    HasCubeRoot(137, 0x27b70a85, 5);
    assert Prime(33) == 139 && K(33) == 0x2e1b2138;
    HasCubeRoot(139, 0x2e1b2138, 5);
    assert Prime(34) == 149 && K(34) == 0x4d2c6dfc;
    HasCubeRoot(149, 0x4d2c6dfc, 5);
    assert Prime(35) == 151 && K(35) == 0x53380d13;
    HasCubeRoot(151, 0x53380d13, 5);
    assert Prime(36) == 157 && K(36) == 0x650a7354;
    HasCubeRoot(157, 0x650a7354, 5);
    assert Prime(37) == 163 && K(37) == 0x766a0abb;
    HasCubeRoot(163, 0x766a0abb, 5);
    assert Prime(38) == 167 && K(38) == 0x81c2c92e;
    HasCubeRoot(167, 0x81c2c92e, 5);
    assert Prime(39) == 173 && K(39) == 0x92722c85;
    HasCubeRoot(173, 0x92722c85, 5);
  }

  lemma CubeRoots5()
    ensures forall t :: 40 <= t < 48 ==> CubeRoot(Prime(t), K(t) as nat)
  {
    hide CubeRoot;
    assert Prime(40) == 179 && K(40) == 0xa2bfe8a1;
    HasCubeRoot(179, 0xa2bfe8a1, 5);
    assert Prime(41) == 181 && K(41) == 0xa81a664b;
    HasCubeRoot(181, 0xa81a664b, 5);
    assert Prime(42) == 191 && K(42) == 0xc24b8b70;
    HasCubeRoot(191, 0xc24b8b70, 5);
    assert Prime(43) == 193 && K(43) == 0xc76c51a3;
    HasCubeRoot(193, 0xc76c51a3, 5);
    assert Prime(44) == 197 && K(44) == 0xd192e819;
    HasCubeRoot(197, 0xd192e819, 5);
    assert Prime(45) == 199 && K(45) == 0xd6990624;
    HasCubeRoot(199, 0xd6990624, 5);
    assert Prime(46) == 211 && K(46) == 0xf40e3585;
    HasCubeRoot(211, 0xf40e3585, 5);
    assert Prime(47) == 223 && K(47) == 0x106aa070;
    HasCubeRoot(223, 0x106aa070, 6);
  }

  lemma CubeRoots6()
    ensures forall t :: 48 <= t < 56 ==> CubeRoot(Prime(t), K(t) as nat)
  {
    hide CubeRoot;
    assert Prime(48) == 227 && K(48) == 0x19a4c116;
    HasCubeRoot(227, 0x19a4c116, 6);
    assert Prime(49) == 229 && K(49) == 0x1e376c08;
    HasCubeRoot(229, 0x1e376c08, 6);
    assert Prime(50) == 233 && K(50) == 0x2748774c;
    HasCubeRoot(233, 0x2748774c, 6);
    assert Prime(51) == 239 && K(51) == 0x34b0bcb5;
    HasCubeRoot(239, 0x34b0bcb5, 6);
    assert Prime(52) == 241 && K(52) == 0x391c0cb3;
    HasCubeRoot(241, 0x391c0cb3, 6);
    assert Prime(53) == 251 && K(53) == 0x4ed8aa4a;
    HasCubeRoot(251, 0x4ed8aa4a, 6);
    assert Prime(54) == 257 && K(54) == 0x5b9cca4f;
    HasCubeRoot(257, 0x5b9cca4f, 6);
    assert Prime(55) == 263 && K(55) == 0x682e6ff3;
    HasCubeRoot(263, 0x682e6ff3, 6);
  }

  lemma CubeRoots7()
    ensures forall t :: 56 <= t < 64 ==> CubeRoot(Prime(t), K(t) as nat)
  {
    hide CubeRoot;
    assert Prime(56) == 269 && K(56) == 0x748f82ee;
    HasCubeRoot(269, 0x748f82ee, 6);
    assert Prime(57) == 271 && K(57) == 0x78a5636f;
    HasCubeRoot(271, 0x78a5636f, 6);
    assert Prime(58) == 277 && K(58) == 0x84c87814;
    HasCubeRoot(277, 0x84c87814, 6);
    assert Prime(59) == 281 && K(59) == 0x8cc70208;
    HasCubeRoot(281, 0x8cc70208, 6);
    assert Prime(60) == 283 && K(60) == 0x90befffa;
    HasCubeRoot(283, 0x90befffa, 6);
    assert Prime(61) == 293 && K(61) == 0xa4506ceb;
    HasCubeRoot(293, 0xa4506ceb, 6);
    assert Prime(62) == 307 && K(62) == 0xbef9a3f7;
    HasCubeRoot(307, 0xbef9a3f7, 6);
    assert Prime(63) == 311 && K(63) == 0xc67178f2;
    HasCubeRoot(311, 0xc67178f2, 6);
  }

  lemma HasCubeRoot(p: nat, k: nat, whole: nat)
    requires CubeBounds(p, k, whole)
    ensures CubeRoot(p, k)
  {
  }

  /** Every round constant is the fraction of the cube root of its prime. */
  lemma RoundConstants(t: nat)
    requires t < 64
    ensures CubeRoot(Prime(t), K(t) as nat)
  {
    hide CubeRoot;
    CubeRoots0();
    CubeRoots1();
    CubeRoots2();
    CubeRoots3();
    CubeRoots4();
    CubeRoots5();
    CubeRoots6();
    CubeRoots7();
  }

  /** Every word of the initial value is the fraction of the square root of its prime. */
  lemma InitialWords()
    ensures var h := INITIAL;
      SquareRoot(2, h.a as nat) && SquareRoot(3, h.b as nat) && SquareRoot(5, h.c as nat) && SquareRoot(7, h.d as nat)
      && SquareRoot(11, h.e as nat) && SquareRoot(13, h.f as nat) && SquareRoot(17, h.g as nat) && SquareRoot(19, h.h as nat)
  {
    assert SquareBounds(2, 0x6a09e667, 1);
    assert SquareBounds(3, 0xbb67ae85, 1);
    assert SquareBounds(5, 0x3c6ef372, 2);
    assert SquareBounds(7, 0xa54ff53a, 2);
    assert SquareBounds(11, 0x510e527f, 3);
    assert SquareBounds(13, 0x9b05688c, 3);
    assert SquareBounds(17, 0x1f83d9ab, 4);
    assert SquareBounds(19, 0x5be0cd19, 4);
  }
}
