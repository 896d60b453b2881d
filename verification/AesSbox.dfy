/**
  The S-box table means what section 5.1.1 of FIPS 197 says: the multiplicative inverse in GF(2^8),
  with {00} mapped to itself, and then the affine transformation over GF(2).
 */
module AesSbox {
  import AesInverse
  import opened Bits
  import opened Fips197
  import opened Tables

  /** Bit i of the result is the sum of bits i, i+4, i+5, i+6 and i+7 (mod 8) and bit i of {63}. */
  function Affine(b: bv8): bv8 {
    b ^ b.RotateLeft(1) ^ b.RotateLeft(2) ^ b.RotateLeft(3) ^ b.RotateLeft(4) ^ 0x63
  }

  // ---------- Multiplication without recursion ----------

  /** Coefficient `j` of `k`. */
  predicate On(k: bv8, j: nat) {
    k & (if j == 0 then 1 else if j == 1 then 2 else if j == 2 then 4 else if j == 3 then 8 else
         if j == 4 then 16 else if j == 5 then 32 else if j == 6 then 64 else 128) != 0
  }

  function Down(k: bv8, j: nat): bv8 {
    if j == 0 then k else if j == 1 then k >> 1 else if j == 2 then k >> 2 else if j == 3 then k >> 3 else
    if j == 4 then k >> 4 else if j == 5 then k >> 5 else if j == 6 then k >> 6 else if j == 7 then k >> 7 else 0
  }

  function Part(on: bool, x: bv8): bv8 {
    if on then x else 0
  }

  function Product(k: bv8, x: bv8): bv8 {
    var x1 := XTime(x);
    var x2 := XTime(x1);
    var x3 := XTime(x2);
    var x4 := XTime(x3);
    var x5 := XTime(x4);
    var x6 := XTime(x5);
    var x7 := XTime(x6);
    Xor(Part(On(k, 0), x), Xor(Part(On(k, 1), x1), Xor(Part(On(k, 2), x2), Xor(Part(On(k, 3), x3),
    Xor(Part(On(k, 4), x4), Xor(Part(On(k, 5), x5), Xor(Part(On(k, 6), x6), Part(On(k, 7), x7))))))))
  }

  lemma NextBit(k: bv8, j: nat)
    requires j < 8
    ensures Down(k, j) >> 1 == Down(k, j + 1) && (Down(k, j) & 1 == 1 <==> On(k, j))
  {}

  lemma TimesFrom(k: bv8, j: nat, x: bv8)
    requires j < 8
    ensures Times(Down(k, j), x) == Xor(Part(On(k, j), x), Times(Down(k, j + 1), XTime(x)))
  {
    hide Times, Xor, XTime, Down, On;
    AesInverse.TimesStep(Down(k, j), x);
    NextBit(k, j);
  }

  lemma Ends(k: bv8, x: bv8)
    ensures Down(k, 0) == k && Times(Down(k, 8), x) == 0
  {
    hide Times;
    AesInverse.TimesZero(x);
  }

  lemma ProductIsTimes(k: bv8, x: bv8)
    ensures Product(k, x) == Times(k, x)
  {
    hide Times, Xor, XTime, Part, Down, On;
    var x1 := XTime(x);
    var x2 := XTime(x1);
    var x3 := XTime(x2);
    var x4 := XTime(x3);
    var x5 := XTime(x4);
    var x6 := XTime(x5);
    var x7 := XTime(x6);
    TimesFrom(k, 0, x);
    TimesFrom(k, 1, x1);
    TimesFrom(k, 2, x2);
    TimesFrom(k, 3, x3);
    TimesFrom(k, 4, x4);
    TimesFrom(k, 5, x5);
    TimesFrom(k, 6, x6);
    TimesFrom(k, 7, x7);
    Ends(k, XTime(x7));
    XorZero();
  }

  // ---------- The table ----------

  /** `y` is the inverse of `x`, and its affine image is `s`. */
  predicate IsEntry(x: bv8, y: bv8, s: bv8) {
    (if x == 0 then y == 0 else Product(x, y) == 1) && Affine(y) == s
  }

  predicate Known(i: Octet, y: Octet, s: Octet) {
    IsEntry(i as bv8, y as bv8, s as bv8)
  }

  lemma Entries00()
    ensures Known(0x00, 0x00, 0x63) && Known(0x01, 0x01, 0x7c) && Known(0x02, 0x8d, 0x77) && Known(0x03, 0xf6, 0x7b)
    ensures Known(0x04, 0xcb, 0xf2) && Known(0x05, 0x52, 0x6b) && Known(0x06, 0x7b, 0x6f) && Known(0x07, 0xd1, 0xc5)
  {}

  lemma Entries08()
    ensures Known(0x08, 0xe8, 0x30) && Known(0x09, 0x4f, 0x01) && Known(0x0a, 0x29, 0x67) && Known(0x0b, 0xc0, 0x2b)
    ensures Known(0x0c, 0xb0, 0xfe) && Known(0x0d, 0xe1, 0xd7) && Known(0x0e, 0xe5, 0xab) && Known(0x0f, 0xc7, 0x76)
  {}

  lemma Entries10()
    ensures Known(0x10, 0x74, 0xca) && Known(0x11, 0xb4, 0x82) && Known(0x12, 0xaa, 0xc9) && Known(0x13, 0x4b, 0x7d)
    ensures Known(0x14, 0x99, 0xfa) && Known(0x15, 0x2b, 0x59) && Known(0x16, 0x60, 0x47) && Known(0x17, 0x5f, 0xf0)
  {}

  lemma Entries18()
    ensures Known(0x18, 0x58, 0xad) && Known(0x19, 0x3f, 0xd4) && Known(0x1a, 0xfd, 0xa2) && Known(0x1b, 0xcc, 0xaf)
    ensures Known(0x1c, 0xff, 0x9c) && Known(0x1d, 0x40, 0xa4) && Known(0x1e, 0xee, 0x72) && Known(0x1f, 0xb2, 0xc0)
  {}

  lemma Entries20()
    ensures Known(0x20, 0x3a, 0xb7) && Known(0x21, 0x6e, 0xfd) && Known(0x22, 0x5a, 0x93) && Known(0x23, 0xf1, 0x26)
    ensures Known(0x24, 0x55, 0x36) && Known(0x25, 0x4d, 0x3f) && Known(0x26, 0xa8, 0xf7) && Known(0x27, 0xc9, 0xcc)
  {}

  lemma Entries28()
    ensures Known(0x28, 0xc1, 0x34) && Known(0x29, 0x0a, 0xa5) && Known(0x2a, 0x98, 0xe5) && Known(0x2b, 0x15, 0xf1)
    ensures Known(0x2c, 0x30, 0x71) && Known(0x2d, 0x44, 0xd8) && Known(0x2e, 0xa2, 0x31) && Known(0x2f, 0xc2, 0x15)
  {}

  lemma Entries30()
    ensures Known(0x30, 0x2c, 0x04) && Known(0x31, 0x45, 0xc7) && Known(0x32, 0x92, 0x23) && Known(0x33, 0x6c, 0xc3)
    ensures Known(0x34, 0xf3, 0x18) && Known(0x35, 0x39, 0x96) && Known(0x36, 0x66, 0x05) && Known(0x37, 0x42, 0x9a)
  {}

  lemma Entries38()
    ensures Known(0x38, 0xf2, 0x07) && Known(0x39, 0x35, 0x12) && Known(0x3a, 0x20, 0x80) && Known(0x3b, 0x6f, 0xe2)
    ensures Known(0x3c, 0x77, 0xeb) && Known(0x3d, 0xbb, 0x27) && Known(0x3e, 0x59, 0xb2) && Known(0x3f, 0x19, 0x75)
  {}

  lemma Entries40()
    ensures Known(0x40, 0x1d, 0x09) && Known(0x41, 0xfe, 0x83) && Known(0x42, 0x37, 0x2c) && Known(0x43, 0x67, 0x1a)
    ensures Known(0x44, 0x2d, 0x1b) && Known(0x45, 0x31, 0x6e) && Known(0x46, 0xf5, 0x5a) && Known(0x47, 0x69, 0xa0)
  {}

  lemma Entries48()
    ensures Known(0x48, 0xa7, 0x52) && Known(0x49, 0x64, 0x3b) && Known(0x4a, 0xab, 0xd6) && Known(0x4b, 0x13, 0xb3)
    ensures Known(0x4c, 0x54, 0x29) && Known(0x4d, 0x25, 0xe3) && Known(0x4e, 0xe9, 0x2f) && Known(0x4f, 0x09, 0x84)
  {}

  lemma Entries50()
    ensures Known(0x50, 0xed, 0x53) && Known(0x51, 0x5c, 0xd1) && Known(0x52, 0x05, 0x00) && Known(0x53, 0xca, 0xed)
    ensures Known(0x54, 0x4c, 0x20) && Known(0x55, 0x24, 0xfc) && Known(0x56, 0x87, 0xb1) && Known(0x57, 0xbf, 0x5b)
  {}

  lemma Entries58()
    ensures Known(0x58, 0x18, 0x6a) && Known(0x59, 0x3e, 0xcb) && Known(0x5a, 0x22, 0xbe) && Known(0x5b, 0xf0, 0x39)
    ensures Known(0x5c, 0x51, 0x4a) && Known(0x5d, 0xec, 0x4c) && Known(0x5e, 0x61, 0x58) && Known(0x5f, 0x17, 0xcf)
  {}

  lemma Entries60()
    ensures Known(0x60, 0x16, 0xd0) && Known(0x61, 0x5e, 0xef) && Known(0x62, 0xaf, 0xaa) && Known(0x63, 0xd3, 0xfb)
    ensures Known(0x64, 0x49, 0x43) && Known(0x65, 0xa6, 0x4d) && Known(0x66, 0x36, 0x33) && Known(0x67, 0x43, 0x85)
  {}

  lemma Entries68()
    ensures Known(0x68, 0xf4, 0x45) && Known(0x69, 0x47, 0xf9) && Known(0x6a, 0x91, 0x02) && Known(0x6b, 0xdf, 0x7f)
    ensures Known(0x6c, 0x33, 0x50) && Known(0x6d, 0x93, 0x3c) && Known(0x6e, 0x21, 0x9f) && Known(0x6f, 0x3b, 0xa8)
  {}

  lemma Entries70()
    ensures Known(0x70, 0x79, 0x51) && Known(0x71, 0xb7, 0xa3) && Known(0x72, 0x97, 0x40) && Known(0x73, 0x85, 0x8f)
    ensures Known(0x74, 0x10, 0x92) && Known(0x75, 0xb5, 0x9d) && Known(0x76, 0xba, 0x38) && Known(0x77, 0x3c, 0xf5)
  {}

  lemma Entries78()
    ensures Known(0x78, 0xb6, 0xbc) && Known(0x79, 0x70, 0xb6) && Known(0x7a, 0xd0, 0xda) && Known(0x7b, 0x06, 0x21)
    ensures Known(0x7c, 0xa1, 0x10) && Known(0x7d, 0xfa, 0xff) && Known(0x7e, 0x81, 0xf3) && Known(0x7f, 0x82, 0xd2)
  {}

  lemma Entries80()
    ensures Known(0x80, 0x83, 0xcd) && Known(0x81, 0x7e, 0x0c) && Known(0x82, 0x7f, 0x13) && Known(0x83, 0x80, 0xec)
    ensures Known(0x84, 0x96, 0x5f) && Known(0x85, 0x73, 0x97) && Known(0x86, 0xbe, 0x44) && Known(0x87, 0x56, 0x17)
  {}

  lemma Entries88()
    ensures Known(0x88, 0x9b, 0xc4) && Known(0x89, 0x9e, 0xa7) && Known(0x8a, 0x95, 0x7e) && Known(0x8b, 0xd9, 0x3d)
    ensures Known(0x8c, 0xf7, 0x64) && Known(0x8d, 0x02, 0x5d) && Known(0x8e, 0xb9, 0x19) && Known(0x8f, 0xa4, 0x73)
  {}

  lemma Entries90()
    ensures Known(0x90, 0xde, 0x60) && Known(0x91, 0x6a, 0x81) && Known(0x92, 0x32, 0x4f) && Known(0x93, 0x6d, 0xdc)
    ensures Known(0x94, 0xd8, 0x22) && Known(0x95, 0x8a, 0x2a) && Known(0x96, 0x84, 0x90) && Known(0x97, 0x72, 0x88)
  {}

  lemma Entries98()
    ensures Known(0x98, 0x2a, 0x46) && Known(0x99, 0x14, 0xee) && Known(0x9a, 0x9f, 0xb8) && Known(0x9b, 0x88, 0x14)
    ensures Known(0x9c, 0xf9, 0xde) && Known(0x9d, 0xdc, 0x5e) && Known(0x9e, 0x89, 0x0b) && Known(0x9f, 0x9a, 0xdb)
  {}

  lemma Entriesa0()
    ensures Known(0xa0, 0xfb, 0xe0) && Known(0xa1, 0x7c, 0x32) && Known(0xa2, 0x2e, 0x3a) && Known(0xa3, 0xc3, 0x0a)
    ensures Known(0xa4, 0x8f, 0x49) && Known(0xa5, 0xb8, 0x06) && Known(0xa6, 0x65, 0x24) && Known(0xa7, 0x48, 0x5c)
  {}

  lemma Entriesa8()
    ensures Known(0xa8, 0x26, 0xc2) && Known(0xa9, 0xc8, 0xd3) && Known(0xaa, 0x12, 0xac) && Known(0xab, 0x4a, 0x62)
    ensures Known(0xac, 0xce, 0x91) && Known(0xad, 0xe7, 0x95) && Known(0xae, 0xd2, 0xe4) && Known(0xaf, 0x62, 0x79)
  {}

  lemma Entriesb0()
    ensures Known(0xb0, 0x0c, 0xe7) && Known(0xb1, 0xe0, 0xc8) && Known(0xb2, 0x1f, 0x37) && Known(0xb3, 0xef, 0x6d)
    ensures Known(0xb4, 0x11, 0x8d) && Known(0xb5, 0x75, 0xd5) && Known(0xb6, 0x78, 0x4e) && Known(0xb7, 0x71, 0xa9)
  {}

  lemma Entriesb8()
    ensures Known(0xb8, 0xa5, 0x6c) && Known(0xb9, 0x8e, 0x56) && Known(0xba, 0x76, 0xf4) && Known(0xbb, 0x3d, 0xea)
    ensures Known(0xbc, 0xbd, 0x65) && Known(0xbd, 0xbc, 0x7a) && Known(0xbe, 0x86, 0xae) && Known(0xbf, 0x57, 0x08)
  {}

  lemma Entriesc0()
    ensures Known(0xc0, 0x0b, 0xba) && Known(0xc1, 0x28, 0x78) && Known(0xc2, 0x2f, 0x25) && Known(0xc3, 0xa3, 0x2e)
    ensures Known(0xc4, 0xda, 0x1c) && Known(0xc5, 0xd4, 0xa6) && Known(0xc6, 0xe4, 0xb4) && Known(0xc7, 0x0f, 0xc6)
  {}

  lemma Entriesc8()
    ensures Known(0xc8, 0xa9, 0xe8) && Known(0xc9, 0x27, 0xdd) && Known(0xca, 0x53, 0x74) && Known(0xcb, 0x04, 0x1f)
    ensures Known(0xcc, 0x1b, 0x4b) && Known(0xcd, 0xfc, 0xbd) && Known(0xce, 0xac, 0x8b) && Known(0xcf, 0xe6, 0x8a)
  {}

  lemma Entriesd0()
    ensures Known(0xd0, 0x7a, 0x70) && Known(0xd1, 0x07, 0x3e) && Known(0xd2, 0xae, 0xb5) && Known(0xd3, 0x63, 0x66)
    ensures Known(0xd4, 0xc5, 0x48) && Known(0xd5, 0xdb, 0x03) && Known(0xd6, 0xe2, 0xf6) && Known(0xd7, 0xea, 0x0e)
  {}

  lemma Entriesd8()
    ensures Known(0xd8, 0x94, 0x61) && Known(0xd9, 0x8b, 0x35) && Known(0xda, 0xc4, 0x57) && Known(0xdb, 0xd5, 0xb9)
    ensures Known(0xdc, 0x9d, 0x86) && Known(0xdd, 0xf8, 0xc1) && Known(0xde, 0x90, 0x1d) && Known(0xdf, 0x6b, 0x9e)
  {}

  lemma Entriese0()
    ensures Known(0xe0, 0xb1, 0xe1) && Known(0xe1, 0x0d, 0xf8) && Known(0xe2, 0xd6, 0x98) && Known(0xe3, 0xeb, 0x11)
    ensures Known(0xe4, 0xc6, 0x69) && Known(0xe5, 0x0e, 0xd9) && Known(0xe6, 0xcf, 0x8e) && Known(0xe7, 0xad, 0x94)
  {}

  lemma Entriese8()
    ensures Known(0xe8, 0x08, 0x9b) && Known(0xe9, 0x4e, 0x1e) && Known(0xea, 0xd7, 0x87) && Known(0xeb, 0xe3, 0xe9)
    ensures Known(0xec, 0x5d, 0xce) && Known(0xed, 0x50, 0x55) && Known(0xee, 0x1e, 0x28) && Known(0xef, 0xb3, 0xdf)
  {}

  lemma Entriesf0()
    ensures Known(0xf0, 0x5b, 0x8c) && Known(0xf1, 0x23, 0xa1) && Known(0xf2, 0x38, 0x89) && Known(0xf3, 0x34, 0x0d)
    ensures Known(0xf4, 0x68, 0xbf) && Known(0xf5, 0x46, 0xe6) && Known(0xf6, 0x03, 0x42) && Known(0xf7, 0x8c, 0x68)
  {}

  lemma Entriesf8()
    ensures Known(0xf8, 0xdd, 0x41) && Known(0xf9, 0x9c, 0x99) && Known(0xfa, 0x7d, 0x2d) && Known(0xfb, 0xa0, 0x0f)
    ensures Known(0xfc, 0xcd, 0xb0) && Known(0xfd, 0x1a, 0x54) && Known(0xfe, 0x41, 0xbb) && Known(0xff, 0x1c, 0x16)
  {}

  lemma Entry(i: Octet)
    ensures exists y: Octet :: Known(i, y, SboxAt(i))
  {
    hide Known;
    if i < 0x10 {
      Entries00();
      Entries08();
      var y := Pick(i - 0x00, 0x00, 0x01, 0x8d, 0xf6, 0xcb, 0x52, 0x7b, 0xd1, 0xe8, 0x4f, 0x29, 0xc0, 0xb0, 0xe1, 0xe5, 0xc7);
      assert Known(i, y, SboxAt(i));
    } else if i < 0x20 {
      Entries10();
      Entries18();
      var y := Pick(i - 0x10, 0x74, 0xb4, 0xaa, 0x4b, 0x99, 0x2b, 0x60, 0x5f, 0x58, 0x3f, 0xfd, 0xcc, 0xff, 0x40, 0xee, 0xb2);
      assert Known(i, y, SboxAt(i));
    } else if i < 0x30 {
      Entries20();
      Entries28();
      var y := Pick(i - 0x20, 0x3a, 0x6e, 0x5a, 0xf1, 0x55, 0x4d, 0xa8, 0xc9, 0xc1, 0x0a, 0x98, 0x15, 0x30, 0x44, 0xa2, 0xc2);
      assert Known(i, y, SboxAt(i));
    } else if i < 0x40 {
      Entries30();
      Entries38();
      var y := Pick(i - 0x30, 0x2c, 0x45, 0x92, 0x6c, 0xf3, 0x39, 0x66, 0x42, 0xf2, 0x35, 0x20, 0x6f, 0x77, 0xbb, 0x59, 0x19);
      assert Known(i, y, SboxAt(i));
    } else if i < 0x50 {
      Entries40();
      Entries48();
      var y := Pick(i - 0x40, 0x1d, 0xfe, 0x37, 0x67, 0x2d, 0x31, 0xf5, 0x69, 0xa7, 0x64, 0xab, 0x13, 0x54, 0x25, 0xe9, 0x09);
      assert Known(i, y, SboxAt(i));
    } else if i < 0x60 {
      Entries50();
      Entries58();
      var y := Pick(i - 0x50, 0xed, 0x5c, 0x05, 0xca, 0x4c, 0x24, 0x87, 0xbf, 0x18, 0x3e, 0x22, 0xf0, 0x51, 0xec, 0x61, 0x17);
      assert Known(i, y, SboxAt(i));
    } else if i < 0x70 {
      Entries60();
      Entries68();
      var y := Pick(i - 0x60, 0x16, 0x5e, 0xaf, 0xd3, 0x49, 0xa6, 0x36, 0x43, 0xf4, 0x47, 0x91, 0xdf, 0x33, 0x93, 0x21, 0x3b);
      assert Known(i, y, SboxAt(i));
    } else if i < 0x80 {
      Entries70();
      Entries78();
      var y := Pick(i - 0x70, 0x79, 0xb7, 0x97, 0x85, 0x10, 0xb5, 0xba, 0x3c, 0xb6, 0x70, 0xd0, 0x06, 0xa1, 0xfa, 0x81, 0x82);
      assert Known(i, y, SboxAt(i));
    } else if i < 0x90 {
      Entries80();
      Entries88();
      var y := Pick(i - 0x80, 0x83, 0x7e, 0x7f, 0x80, 0x96, 0x73, 0xbe, 0x56, 0x9b, 0x9e, 0x95, 0xd9, 0xf7, 0x02, 0xb9, 0xa4);
      assert Known(i, y, SboxAt(i));
    } else if i < 0xa0 {
      Entries90();
      Entries98();
      var y := Pick(i - 0x90, 0xde, 0x6a, 0x32, 0x6d, 0xd8, 0x8a, 0x84, 0x72, 0x2a, 0x14, 0x9f, 0x88, 0xf9, 0xdc, 0x89, 0x9a);
      assert Known(i, y, SboxAt(i));
    } else if i < 0xb0 {
      Entriesa0();
      Entriesa8();
      var y := Pick(i - 0xa0, 0xfb, 0x7c, 0x2e, 0xc3, 0x8f, 0xb8, 0x65, 0x48, 0x26, 0xc8, 0x12, 0x4a, 0xce, 0xe7, 0xd2, 0x62);
      assert Known(i, y, SboxAt(i));
    } else if i < 0xc0 {
      Entriesb0();
      Entriesb8();
      var y := Pick(i - 0xb0, 0x0c, 0xe0, 0x1f, 0xef, 0x11, 0x75, 0x78, 0x71, 0xa5, 0x8e, 0x76, 0x3d, 0xbd, 0xbc, 0x86, 0x57);
      assert Known(i, y, SboxAt(i));
    } else if i < 0xd0 {
      Entriesc0();
      Entriesc8();
      var y := Pick(i - 0xc0, 0x0b, 0x28, 0x2f, 0xa3, 0xda, 0xd4, 0xe4, 0x0f, 0xa9, 0x27, 0x53, 0x04, 0x1b, 0xfc, 0xac, 0xe6);
      assert Known(i, y, SboxAt(i));
    } else if i < 0xe0 {
      Entriesd0();
      Entriesd8();
      var y := Pick(i - 0xd0, 0x7a, 0x07, 0xae, 0x63, 0xc5, 0xdb, 0xe2, 0xea, 0x94, 0x8b, 0xc4, 0xd5, 0x9d, 0xf8, 0x90, 0x6b);
      assert Known(i, y, SboxAt(i));
    } else if i < 0xf0 {
      Entriese0();
      Entriese8();
      var y := Pick(i - 0xe0, 0xb1, 0x0d, 0xd6, 0xeb, 0xc6, 0x0e, 0xcf, 0xad, 0x08, 0x4e, 0xd7, 0xe3, 0x5d, 0x50, 0x1e, 0xb3);
      assert Known(i, y, SboxAt(i));
    } else {
      Entriesf0();
      Entriesf8();
      var y := Pick(i - 0xf0, 0x5b, 0x23, 0x38, 0x34, 0x68, 0x46, 0x03, 0x8c, 0xdd, 0x9c, 0x7d, 0xa0, 0xcd, 0x1a, 0x41, 0x1c);
      assert Known(i, y, SboxAt(i));
    }
  }

  lemma SboxEntry(x: bv8)
    ensures exists y: bv8 :: IsEntry(x, y, Sbox(x))
  {
    hide SboxAt, IsEntry;
    var i: Octet := x as int;
    Entry(i);
    var y: Octet :| Known(i, y, SboxAt(i));
    SameByte(i as bv8, x);
    assert IsEntry(x, y as bv8, Sbox(x));
  }

  /** Each entry of the table is the affine image of the inverse of its index. */
  lemma SboxMeaning(x: bv8)
    ensures exists y: bv8 :: (if x == 0 then y == 0 else Times(x, y) == 1) && Sbox(x) == Affine(y)
  {
    hide Sbox, Times, Product, Affine;
    SboxEntry(x);
    var y :| IsEntry(x, y, Sbox(x));
    ProductIsTimes(x, y);
  }
}
