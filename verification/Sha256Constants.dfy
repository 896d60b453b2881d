/**
  Where the constants of SHA-256 come from: sections 4.2.2 and 5.3.3 of FIPS 180-4. They are the first
  32 bits of the fractional parts of the cube roots of the first 64 primes, and of the square roots of
  the first 8.
 */
module Sha256Constants {
  import opened Fips180

  function Prime8(i: nat, p0: nat, p1: nat, p2: nat, p3: nat, p4: nat, p5: nat, p6: nat, p7: nat): nat {
    if i == 0 then p0 else if i == 1 then p1 else if i == 2 then p2 else if i == 3 then p3
    else if i == 4 then p4 else if i == 5 then p5 else if i == 6 then p6 else p7
  }

  /** The first 64 primes. */
  function Prime(t: nat): nat
    requires t < 64
  {
    if t < 8 then Prime8(t, 2, 3, 5, 7, 11, 13, 17, 19)
    else if t < 16 then Prime8(t - 8, 23, 29, 31, 37, 41, 43, 47, 53)
    else if t < 24 then Prime8(t - 16, 59, 61, 67, 71, 73, 79, 83, 89)
    else if t < 32 then Prime8(t - 24, 97, 101, 103, 107, 109, 113, 127, 131)
    else if t < 40 then Prime8(t - 32, 137, 139, 149, 151, 157, 163, 167, 173)
    else if t < 48 then Prime8(t - 40, 179, 181, 191, 193, 197, 199, 211, 223)
    else if t < 56 then Prime8(t - 48, 227, 229, 233, 239, 241, 251, 257, 263)
    else Prime8(t - 56, 269, 271, 277, 281, 283, 293, 307, 311)
  }

  // ---------- The primes ----------

  predicate IsPrime(p: nat) {
    p >= 2 && forall d | 2 <= d < p :: p % d != 0
  }

  /** Below 18 * 18, trial division by the primes up to 17 is enough. */
  predicate Sieve(n: nat) {
    && n >= 2 && Passes(n, 2) && Passes(n, 3) && Passes(n, 5) && Passes(n, 7)
    && Passes(n, 11) && Passes(n, 13) && Passes(n, 17)
  }

  predicate Passes(n: nat, q: nat)
    requires q > 0
  {
    n % q != 0 || n == q
  }

  lemma Multiple2(n: nat, f: nat)
    requires n == 2 * f && n > 2
    ensures !Sieve(n)
  {
    assert !Passes(n, 2);
  }

  lemma Multiple3(n: nat, f: nat)
    requires n == 3 * f && n > 3
    ensures !Sieve(n)
  {
    assert !Passes(n, 3);
  }

  lemma Multiple5(n: nat, f: nat)
    requires n == 5 * f && n > 5
    ensures !Sieve(n)
  {
    assert !Passes(n, 5);
  }

  lemma Multiple7(n: nat, f: nat)
    requires n == 7 * f && n > 7
    ensures !Sieve(n)
  {
    assert !Passes(n, 7);
  }

  lemma Multiple11(n: nat, f: nat)
    requires n == 11 * f && n > 11
    ensures !Sieve(n)
  {
    assert !Passes(n, 11);
  }

  lemma Multiple13(n: nat, f: nat)
    requires n == 13 * f && n > 13
    ensures !Sieve(n)
  {
    assert !Passes(n, 13);
  }

  lemma Multiple17(n: nat, f: nat)
    requires n == 17 * f && n > 17
    ensures !Sieve(n)
  {
    assert !Passes(n, 17);
  }

  /** A small divisor has a prime factor up to 17, which then divides too. */
  lemma SmallDivisor(n: nat, d: nat, e: nat)
    requires 2 <= d <= 17 && n == d * e && d < n
    ensures !Sieve(n)
  {
    hide Sieve;
    match d
    case 2 => Multiple2(n, e);
    case 3 => Multiple3(n, e);
    case 4 => Multiple2(n, 2 * e);
    case 5 => Multiple5(n, e);
    case 6 => Multiple2(n, 3 * e);
    case 7 => Multiple7(n, e);
    case 8 => Multiple2(n, 4 * e);
    case 9 => Multiple3(n, 3 * e);
    case 10 => Multiple2(n, 5 * e);
    case 11 => Multiple11(n, e);
    case 12 => Multiple2(n, 6 * e);
    case 13 => Multiple13(n, e);
    case 14 => Multiple2(n, 7 * e);
    case 15 => Multiple3(n, 5 * e);
    case 16 => Multiple2(n, 8 * e);
    case 17 => Multiple17(n, e);
  }

  lemma SmallProducts(d: nat, e: nat)
    ensures e == 0 ==> d * e == 0
    ensures e == 1 ==> d * e == d
    ensures d >= 18 && e >= 18 ==> d * e >= 324
    ensures d >= 2 && e >= 2 ==> d * e > e
  {}

  lemma Factors(n: nat, d: nat, e: nat)
    requires n < 324 && 2 <= d < n && n == d * e
    ensures !Sieve(n)
  {
    hide Sieve;
    SmallProducts(d, e);
    if d <= 17 {
      SmallDivisor(n, d, e);
    } else {
      SmallDivisor(n, e, d);
    }
  }

  lemma Sieved(n: nat, d: nat)
    requires Sieve(n) && n < 324 && 2 <= d < n
    ensures n % d != 0
  {
    hide Sieve;
    assert n == d * (n / d) + n % d;
    if n % d == 0 {
      Factors(n, d, n / d);
    }
  }

  lemma SieveIff(n: nat)
    requires n < 324
    ensures Sieve(n) <==> IsPrime(n)
  {
    if Sieve(n) {
      forall d | 2 <= d < n
        ensures n % d != 0
      {
        Sieved(n, d);
      }
    }
  }

  lemma Sieved0()
    ensures !Sieve(0) && !Sieve(1) && Sieve(2) && Sieve(3) && !Sieve(4) && Sieve(5) && !Sieve(6) && Sieve(7)
    ensures !Sieve(8) && !Sieve(9) && !Sieve(10) && Sieve(11) && !Sieve(12) && Sieve(13) && !Sieve(14) && !Sieve(15)
    ensures !Sieve(16) && Sieve(17) && !Sieve(18) && Sieve(19) && !Sieve(20) && !Sieve(21) && !Sieve(22) && Sieve(23)
    ensures !Sieve(24) && !Sieve(25) && !Sieve(26) && !Sieve(27) && !Sieve(28) && Sieve(29) && !Sieve(30) && Sieve(31)
    ensures !Sieve(32) && !Sieve(33) && !Sieve(34) && !Sieve(35) && !Sieve(36) && Sieve(37) && !Sieve(38) && !Sieve(39)
    ensures !Sieve(40) && Sieve(41) && !Sieve(42) && Sieve(43) && !Sieve(44) && !Sieve(45) && !Sieve(46) && Sieve(47)
  {}

  lemma Sieved48()
    ensures !Sieve(48) && !Sieve(49) && !Sieve(50) && !Sieve(51) && !Sieve(52) && Sieve(53) && !Sieve(54) && !Sieve(55)
    ensures !Sieve(56) && !Sieve(57) && !Sieve(58) && Sieve(59) && !Sieve(60) && Sieve(61) && !Sieve(62) && !Sieve(63)
    ensures !Sieve(64) && !Sieve(65) && !Sieve(66) && Sieve(67) && !Sieve(68) && !Sieve(69) && !Sieve(70) && Sieve(71)
    ensures !Sieve(72) && Sieve(73) && !Sieve(74) && !Sieve(75) && !Sieve(76) && !Sieve(77) && !Sieve(78) && Sieve(79)
    ensures !Sieve(80) && !Sieve(81) && !Sieve(82) && Sieve(83) && !Sieve(84) && !Sieve(85) && !Sieve(86) && !Sieve(87)
    ensures !Sieve(88) && Sieve(89) && !Sieve(90) && !Sieve(91) && !Sieve(92) && !Sieve(93) && !Sieve(94) && !Sieve(95)
  {}

  lemma Sieved96()
    ensures !Sieve(96) && Sieve(97) && !Sieve(98) && !Sieve(99) && !Sieve(100) && Sieve(101) && !Sieve(102) && Sieve(103)
    ensures !Sieve(104) && !Sieve(105) && !Sieve(106) && Sieve(107) && !Sieve(108) && Sieve(109) && !Sieve(110) && !Sieve(111)
    ensures !Sieve(112) && Sieve(113) && !Sieve(114) && !Sieve(115) && !Sieve(116) && !Sieve(117) && !Sieve(118) && !Sieve(119)
    ensures !Sieve(120) && !Sieve(121) && !Sieve(122) && !Sieve(123) && !Sieve(124) && !Sieve(125) && !Sieve(126) && Sieve(127)
    ensures !Sieve(128) && !Sieve(129) && !Sieve(130) && Sieve(131) && !Sieve(132) && !Sieve(133) && !Sieve(134) && !Sieve(135)
    ensures !Sieve(136) && Sieve(137) && !Sieve(138) && Sieve(139) && !Sieve(140) && !Sieve(141) && !Sieve(142) && !Sieve(143)
  {}

  lemma Sieved144()
    ensures !Sieve(144) && !Sieve(145) && !Sieve(146) && !Sieve(147) && !Sieve(148) && Sieve(149) && !Sieve(150) && Sieve(151)
    ensures !Sieve(152) && !Sieve(153) && !Sieve(154) && !Sieve(155) && !Sieve(156) && Sieve(157) && !Sieve(158) && !Sieve(159)
    ensures !Sieve(160) && !Sieve(161) && !Sieve(162) && Sieve(163) && !Sieve(164) && !Sieve(165) && !Sieve(166) && Sieve(167)
    ensures !Sieve(168) && !Sieve(169) && !Sieve(170) && !Sieve(171) && !Sieve(172) && Sieve(173) && !Sieve(174) && !Sieve(175)
    ensures !Sieve(176) && !Sieve(177) && !Sieve(178) && Sieve(179) && !Sieve(180) && Sieve(181) && !Sieve(182) && !Sieve(183)
    ensures !Sieve(184) && !Sieve(185) && !Sieve(186) && !Sieve(187) && !Sieve(188) && !Sieve(189) && !Sieve(190) && Sieve(191)
  {}

  lemma Sieved192()
    ensures !Sieve(192) && Sieve(193) && !Sieve(194) && !Sieve(195) && !Sieve(196) && Sieve(197) && !Sieve(198) && Sieve(199)
    ensures !Sieve(200) && !Sieve(201) && !Sieve(202) && !Sieve(203) && !Sieve(204) && !Sieve(205) && !Sieve(206) && !Sieve(207)
    ensures !Sieve(208) && !Sieve(209) && !Sieve(210) && Sieve(211) && !Sieve(212) && !Sieve(213) && !Sieve(214) && !Sieve(215)
    ensures !Sieve(216) && !Sieve(217) && !Sieve(218) && !Sieve(219) && !Sieve(220) && !Sieve(221) && !Sieve(222) && Sieve(223)
    ensures !Sieve(224) && !Sieve(225) && !Sieve(226) && Sieve(227) && !Sieve(228) && Sieve(229) && !Sieve(230) && !Sieve(231)
    ensures !Sieve(232) && Sieve(233) && !Sieve(234) && !Sieve(235) && !Sieve(236) && !Sieve(237) && !Sieve(238) && Sieve(239)
  {}

  lemma Sieved240()
    ensures !Sieve(240) && Sieve(241) && !Sieve(242) && !Sieve(243) && !Sieve(244) && !Sieve(245) && !Sieve(246) && !Sieve(247)
    ensures !Sieve(248) && !Sieve(249) && !Sieve(250) && Sieve(251) && !Sieve(252) && !Sieve(253) && !Sieve(254) && !Sieve(255)
    ensures !Sieve(256) && Sieve(257) && !Sieve(258) && !Sieve(259) && !Sieve(260) && !Sieve(261) && !Sieve(262) && Sieve(263)
    ensures !Sieve(264) && !Sieve(265) && !Sieve(266) && !Sieve(267) && !Sieve(268) && Sieve(269) && !Sieve(270) && Sieve(271)
    ensures !Sieve(272) && !Sieve(273) && !Sieve(274) && !Sieve(275) && !Sieve(276) && Sieve(277) && !Sieve(278) && !Sieve(279)
    ensures !Sieve(280) && Sieve(281) && !Sieve(282) && Sieve(283) && !Sieve(284) && !Sieve(285) && !Sieve(286) && !Sieve(287)
  {}

  lemma Sieved288()
    ensures !Sieve(288) && !Sieve(289) && !Sieve(290) && !Sieve(291) && !Sieve(292) && Sieve(293) && !Sieve(294) && !Sieve(295)
    ensures !Sieve(296) && !Sieve(297) && !Sieve(298) && !Sieve(299) && !Sieve(300) && !Sieve(301) && !Sieve(302) && !Sieve(303)
    ensures !Sieve(304) && !Sieve(305) && !Sieve(306) && Sieve(307) && !Sieve(308) && !Sieve(309) && !Sieve(310) && Sieve(311)
  {}

  /** `q` is the next number after `p` that passes the sieve. */
  predicate NextInSieve(p: nat, q: nat) {
    p < q < 324 && Sieve(q) && forall m | p < m < q :: !Sieve(m)
  }

  lemma Primes0()
    ensures NextInSieve(1, 2) && NextInSieve(2, 3) && NextInSieve(3, 5) && NextInSieve(5, 7)
    ensures NextInSieve(7, 11) && NextInSieve(11, 13) && NextInSieve(13, 17) && NextInSieve(17, 19)
    ensures NextInSieve(19, 23) && NextInSieve(23, 29) && NextInSieve(29, 31) && NextInSieve(31, 37)
    ensures NextInSieve(37, 41) && NextInSieve(41, 43) && NextInSieve(43, 47) && NextInSieve(47, 53)
  {
    hide Sieve;
    Sieved0();
    Sieved48();
  }

  lemma Primes16()
    ensures NextInSieve(53, 59) && NextInSieve(59, 61) && NextInSieve(61, 67) && NextInSieve(67, 71)
    ensures NextInSieve(71, 73) && NextInSieve(73, 79) && NextInSieve(79, 83) && NextInSieve(83, 89)
    ensures NextInSieve(89, 97) && NextInSieve(97, 101) && NextInSieve(101, 103) && NextInSieve(103, 107)
    ensures NextInSieve(107, 109) && NextInSieve(109, 113) && NextInSieve(113, 127) && NextInSieve(127, 131)
  {
    hide Sieve;
    Sieved48();
    Sieved96();
  }

  lemma Primes32()
    ensures NextInSieve(131, 137) && NextInSieve(137, 139) && NextInSieve(139, 149) && NextInSieve(149, 151)
    ensures NextInSieve(151, 157) && NextInSieve(157, 163) && NextInSieve(163, 167) && NextInSieve(167, 173)
    ensures NextInSieve(173, 179) && NextInSieve(179, 181) && NextInSieve(181, 191) && NextInSieve(191, 193)
    ensures NextInSieve(193, 197) && NextInSieve(197, 199) && NextInSieve(199, 211) && NextInSieve(211, 223)
  {
    hide Sieve;
    Sieved96();
    Sieved144();
    Sieved192();
  }

  lemma Primes48()
    ensures NextInSieve(223, 227) && NextInSieve(227, 229) && NextInSieve(229, 233) && NextInSieve(233, 239)
    ensures NextInSieve(239, 241) && NextInSieve(241, 251) && NextInSieve(251, 257) && NextInSieve(257, 263)
    ensures NextInSieve(263, 269) && NextInSieve(269, 271) && NextInSieve(271, 277) && NextInSieve(277, 281)
    ensures NextInSieve(281, 283) && NextInSieve(283, 293) && NextInSieve(293, 307) && NextInSieve(307, 311)
  {
    hide Sieve;
    Sieved192();
    Sieved240();
    Sieved288();
  }

  lemma InTable(t: nat)
    requires t < 64
    ensures NextInSieve(if t == 0 then 1 else Prime(t - 1), Prime(t))
  {
    hide NextInSieve;
    Primes0();
    Primes16();
    Primes32();
    Primes48();
  }

  /** The table lists the primes from 2 on, without a gap. */
  lemma FirstPrimes(t: nat)
    requires t < 64
    ensures IsPrime(Prime(t)) && Prime(0) == 2
    ensures t > 0 ==> Prime(t - 1) < Prime(t) && forall m | Prime(t - 1) < m < Prime(t) :: !IsPrime(m)
  {
    hide IsPrime, Sieve;
    InTable(t);
    SieveIff(Prime(t));
    if t > 0 {
      forall m | Prime(t - 1) < m < Prime(t)
        ensures !IsPrime(m)
      {
        SieveIff(m);
      }
    }
  }

  // ---------- The roots ----------

  const TWO32: nat := 0x1_0000_0000

  /** `bits` are the first 32 bits after the point of the cube root of `p`; `whole` is what is before it. */
  predicate CubeRoot(p: nat, whole: nat, bits: nat) {
    var x := whole * TWO32 + bits;
    bits < TWO32 && x * x * x <= p * TWO32 * TWO32 * TWO32 < (x + 1) * (x + 1) * (x + 1)
  }

  predicate SquareRoot(p: nat, whole: nat, bits: nat) {
    var x := whole * TWO32 + bits;
    bits < TWO32 && x * x <= p * TWO32 * TWO32 < (x + 1) * (x + 1)
  }

  /** Constant `t`, with the root it is taken from. */
  predicate Derived(t: nat, whole: nat, bits: nat) {
    t < 64 && CubeRoot(Prime(t), whole, bits) && K(t) == bits as bv32
  }

  lemma Entries0()
    ensures Derived(0, 1, 0x428a2f98) && Derived(1, 1, 0x71374491) && Derived(2, 1, 0xb5c0fbcf) && Derived(3, 1, 0xe9b5dba5)
    ensures Derived(4, 2, 0x3956c25b) && Derived(5, 2, 0x59f111f1) && Derived(6, 2, 0x923f82a4) && Derived(7, 2, 0xab1c5ed5)
  {}

  lemma Entries8()
    ensures Derived(8, 2, 0xd807aa98) && Derived(9, 3, 0x12835b01) && Derived(10, 3, 0x243185be) && Derived(11, 3, 0x550c7dc3)
    ensures Derived(12, 3, 0x72be5d74) && Derived(13, 3, 0x80deb1fe) && Derived(14, 3, 0x9bdc06a7) && Derived(15, 3, 0xc19bf174)
  {}

  lemma Entries16()
    ensures Derived(16, 3, 0xe49b69c1) && Derived(17, 3, 0xefbe4786) && Derived(18, 4, 0x0fc19dc6) && Derived(19, 4, 0x240ca1cc)
    ensures Derived(20, 4, 0x2de92c6f) && Derived(21, 4, 0x4a7484aa) && Derived(22, 4, 0x5cb0a9dc) && Derived(23, 4, 0x76f988da)
  {}

  lemma Entries24()
    ensures Derived(24, 4, 0x983e5152) && Derived(25, 4, 0xa831c66d) && Derived(26, 4, 0xb00327c8) && Derived(27, 4, 0xbf597fc7)
    ensures Derived(28, 4, 0xc6e00bf3) && Derived(29, 4, 0xd5a79147) && Derived(30, 5, 0x06ca6351) && Derived(31, 5, 0x14292967)
  {}

  lemma Entries32()
    ensures Derived(32, 5, 0x27b70a85) && Derived(33, 5, 0x2e1b2138) && Derived(34, 5, 0x4d2c6dfc) && Derived(35, 5, 0x53380d13)
    ensures Derived(36, 5, 0x650a7354) && Derived(37, 5, 0x766a0abb) && Derived(38, 5, 0x81c2c92e) && Derived(39, 5, 0x92722c85)
  {}

  lemma Entries40()
    ensures Derived(40, 5, 0xa2bfe8a1) && Derived(41, 5, 0xa81a664b) && Derived(42, 5, 0xc24b8b70) && Derived(43, 5, 0xc76c51a3)
    ensures Derived(44, 5, 0xd192e819) && Derived(45, 5, 0xd6990624) && Derived(46, 5, 0xf40e3585) && Derived(47, 6, 0x106aa070)
  {}

  lemma Entries48()
    ensures Derived(48, 6, 0x19a4c116) && Derived(49, 6, 0x1e376c08) && Derived(50, 6, 0x2748774c) && Derived(51, 6, 0x34b0bcb5)
    ensures Derived(52, 6, 0x391c0cb3) && Derived(53, 6, 0x4ed8aa4a) && Derived(54, 6, 0x5b9cca4f) && Derived(55, 6, 0x682e6ff3)
  {}

  lemma Entries56()
    ensures Derived(56, 6, 0x748f82ee) && Derived(57, 6, 0x78a5636f) && Derived(58, 6, 0x84c87814) && Derived(59, 6, 0x8cc70208)
    ensures Derived(60, 6, 0x90befffa) && Derived(61, 6, 0xa4506ceb) && Derived(62, 6, 0xbef9a3f7) && Derived(63, 6, 0xc67178f2)
  {}

  /** Every round constant is what section 4.2.2 says. */
  lemma RoundConstants(t: nat)
    requires t < 64
    ensures exists whole: nat, bits: nat :: Derived(t, whole, bits)
  {
    hide Derived;
    Entries0();
    Entries8();
    Entries16();
    Entries24();
    Entries32();
    Entries40();
    Entries48();
    Entries56();
    if t < 8 {
      assert t == 0 || t == 1 || t == 2 || t == 3 || t == 4 || t == 5 || t == 6 || t == 7;
    } else if t < 16 {
      assert t == 8 || t == 9 || t == 10 || t == 11 || t == 12 || t == 13 || t == 14 || t == 15;
    } else if t < 24 {
      assert t == 16 || t == 17 || t == 18 || t == 19 || t == 20 || t == 21 || t == 22 || t == 23;
    } else if t < 32 {
      assert t == 24 || t == 25 || t == 26 || t == 27 || t == 28 || t == 29 || t == 30 || t == 31;
    } else if t < 40 {
      assert t == 32 || t == 33 || t == 34 || t == 35 || t == 36 || t == 37 || t == 38 || t == 39;
    } else if t < 48 {
      assert t == 40 || t == 41 || t == 42 || t == 43 || t == 44 || t == 45 || t == 46 || t == 47;
    } else if t < 56 {
      assert t == 48 || t == 49 || t == 50 || t == 51 || t == 52 || t == 53 || t == 54 || t == 55;
    } else {
      assert t == 56 || t == 57 || t == 58 || t == 59 || t == 60 || t == 61 || t == 62 || t == 63;
    }
  }

  /** The initial hash value is what section 5.3.3 says. */
  lemma InitialHash()
    ensures SquareRoot(Prime(0), 1, 0x6a09e667) && H0.a == 0x6a09e667
    ensures SquareRoot(Prime(1), 1, 0xbb67ae85) && H0.b == 0xbb67ae85
    ensures SquareRoot(Prime(2), 2, 0x3c6ef372) && H0.c == 0x3c6ef372
    ensures SquareRoot(Prime(3), 2, 0xa54ff53a) && H0.d == 0xa54ff53a
    ensures SquareRoot(Prime(4), 3, 0x510e527f) && H0.e == 0x510e527f
    ensures SquareRoot(Prime(5), 3, 0x9b05688c) && H0.f == 0x9b05688c
    ensures SquareRoot(Prime(6), 4, 0x1f83d9ab) && H0.g == 0x1f83d9ab
    ensures SquareRoot(Prime(7), 4, 0x5be0cd19) && H0.h == 0x5be0cd19
  {}
}
