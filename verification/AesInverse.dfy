/** The inverse cipher of FIPS 197 undoes the cipher, for every state and every round-key array. */
module AesInverse {
  import opened Bits
  import opened Fips197
  import opened Tables

  // ---------- The S-box ----------

  lemma SboxInverse0(i: Octet)
    requires 0 <= i < 32
    ensures InvSboxAt(SboxAt(i)) == i
  {}

  lemma SboxInverse32(i: Octet)
    requires 32 <= i < 64
    ensures InvSboxAt(SboxAt(i)) == i
  {}

  lemma SboxInverse64(i: Octet)
    requires 64 <= i < 96
    ensures InvSboxAt(SboxAt(i)) == i
  {}

  lemma SboxInverse96(i: Octet)
    requires 96 <= i < 128
    ensures InvSboxAt(SboxAt(i)) == i
  {}

  lemma SboxInverse128(i: Octet)
    requires 128 <= i < 160
    ensures InvSboxAt(SboxAt(i)) == i
  {}

  lemma SboxInverse160(i: Octet)
    requires 160 <= i < 192
    ensures InvSboxAt(SboxAt(i)) == i
  {}

  lemma SboxInverse192(i: Octet)
    requires 192 <= i < 224
    ensures InvSboxAt(SboxAt(i)) == i
  {}

  lemma SboxInverse224(i: Octet)
    requires 224 <= i < 256
    ensures InvSboxAt(SboxAt(i)) == i
  {}

  lemma SboxAtInverse(i: Octet)
    ensures InvSboxAt(SboxAt(i)) == i
  {
    hide SboxAt, InvSboxAt;
    if i < 64 {
      if i < 32 { SboxInverse0(i); } else { SboxInverse32(i); }
    } else if i < 128 {
      if i < 96 { SboxInverse64(i); } else { SboxInverse96(i); }
    } else if i < 192 {
      if i < 160 { SboxInverse128(i); } else { SboxInverse160(i); }
    } else {
      if i < 224 { SboxInverse192(i); } else { SboxInverse224(i); }
    }
  }

  lemma SboxInverse(x: bv8)
    ensures InvSbox(Sbox(x)) == x
  {
    hide SboxAt, InvSboxAt;
    SboxAtInverse(x as int);
    OctetBits(SboxAt(x as int));
  }

  lemma SubBytesInverse(s: Block)
    ensures InvSubBytes(SubBytes(s)) == s
  {
    hide Sbox, InvSbox;
    forall i | 0 <= i < 16
      ensures InvSubBytes(SubBytes(s))[i] == s[i]
    {
      SboxInverse(s[i]);
    }
  }

  lemma ShiftFromInverse(i: nat)
    requires i < 16
    ensures ShiftFrom(InvShiftFrom(i)) == i
  {
    var r, c := i % 4, i / 4;
    var c' := (c + 4 - r) % 4;
    assert (4 * c' + r) / 4 == c' && (4 * c' + r) % 4 == r;
    assert (c' + r) % 4 == c;
  }

  lemma ShiftRowsInverse(s: Block)
    ensures InvShiftRows(ShiftRows(s)) == s
  {
    hide ShiftFrom, InvShiftFrom;
    forall i | 0 <= i < 16
      ensures InvShiftRows(ShiftRows(s))[i] == s[i]
    {
      ShiftFromInverse(i);
    }
  }

  lemma AddRoundKeyInverse(s: Block, w: RoundKeys, round: nat)
    requires round <= ROUNDS
    ensures AddRoundKey(AddRoundKey(s, w, round), w, round) == s
  {
    hide Xor;
    forall i | 0 <= i < 16
      ensures AddRoundKey(AddRoundKey(s, w, round), w, round)[i] == s[i]
    {
      XorTwice(s[i], w[16 * round + i]);
    }
  }

  // ---------- The field ----------

  lemma Swap(a: bv8, b: bv8, c: bv8, d: bv8)
    ensures Xor(Xor(a, b), Xor(c, d)) == Xor(Xor(a, c), Xor(b, d))
  {
    hide Xor;
    XorAssoc(a, b, Xor(c, d));
    XorAssoc(b, c, d);
    XorComm(b, c);
    XorAssoc(c, b, d);
    XorAssoc(a, c, Xor(b, d));
  }

  lemma ShiftLinear(x: bv8, y: bv8)
    ensures Xor(x, y) << 1 == Xor(x << 1, y << 1)
  {}

  lemma HighBitLinear(x: bv8, y: bv8)
    ensures HighBit(Xor(x, y)) <==> HighBit(x) != HighBit(y)
  {}

  lemma XTimeLinear(x: bv8, y: bv8)
    ensures XTime(Xor(x, y)) == Xor(XTime(x), XTime(y))
  {
    hide Xor, HighBit;
    ShiftLinear(x, y);
    HighBitLinear(x, y);
    XorZero();
    XorSelf(0x1b);
    Swap(x << 1, if HighBit(x) then 0x1b else 0, y << 1, if HighBit(y) then 0x1b else 0);
  }

  lemma TimesStep(k: bv8, x: bv8)
    ensures Times(k, x) == Xor(if k & 1 == 1 then x else 0, Times(k >> 1, XTime(x)))
  {
    hide XTime, Xor;
    XorZero();
  }

  lemma Halves(k: bv8)
    ensures k != 0 ==> k >> 1 < k
  {}

  /** Multiplication by a fixed element is linear. */
  lemma {:induction false} TimesLinear(k: bv8, x: bv8, y: bv8)
    ensures Times(k, Xor(x, y)) == Xor(Times(k, x), Times(k, y))
    decreases k
  {
    hide XTime, Xor;
    XorZero();
    if k != 0 {
      Halves(k);
      var u, v := Times(k >> 1, XTime(x)), Times(k >> 1, XTime(y));
      assert Times(k >> 1, XTime(Xor(x, y))) == Xor(u, v) by {
        XTimeLinear(x, y);
        TimesLinear(k >> 1, XTime(x), XTime(y));
      }
      if k & 1 == 1 {
        Swap(x, y, u, v);
      } else {
        Swap(0, 0, u, v);
      }
    }
  }

  lemma TimesSum(k: bv8, a: bv8, b: bv8, c: bv8, d: bv8)
    ensures Times(k, Xor4(a, b, c, d)) == Xor4(Times(k, a), Times(k, b), Times(k, c), Times(k, d))
  {
    hide Times, Xor;
    TimesLinear(k, Xor(Xor(a, b), c), d);
    TimesLinear(k, Xor(a, b), c);
    TimesLinear(k, a, b);
  }

  lemma XorCases(x: bv8, u: bv8, v: bv8)
    ensures Xor(Xor(x, u), Xor(x, v)) == Xor(u, v)
    ensures Xor(Xor(x, u), v) == Xor(x, Xor(u, v)) == Xor(u, Xor(x, v))
  {
    hide Xor;
    XorZero();
    XorSelf(x);
    Swap(x, u, x, v);
    XorAssoc(x, u, v);
    XorComm(x, u);
    XorAssoc(u, x, v);
  }

  lemma LowBits(m: bv8, n: bv8)
    ensures (m ^ n) >> 1 == (m >> 1) ^ (n >> 1)
    ensures (m ^ n) & 1 == 1 <==> (m & 1 == 1) != (n & 1 == 1)
  {}

  /** Products of the same element add up like their coefficients. */
  lemma {:induction false} TimesAdd(m: bv8, n: bv8, x: bv8)
    ensures Xor(Times(m, x), Times(n, x)) == Times(m ^ n, x)
    decreases m
  {
    hide XTime, Xor, Times;
    TimesZero(x);
    XorZero();
    if m == 0 {
      assert m ^ n == n;
    } else {
      Halves(m);
      var y := XTime(x);
      TimesAdd(m >> 1, n >> 1, y);
      LowBits(m, n);
      TimesStep(m, x);
      TimesStep(n, x);
      TimesStep(m ^ n, x);
      XorCases(x, Times(m >> 1, y), Times(n >> 1, y));
    }
  }

  lemma TimesZero(x: bv8)
    ensures Times(0, x) == 0
  {}

  lemma Doubled(k: bv8)
    requires k < 0x80
    ensures (k << 1) & 1 != 1 && (k << 1) >> 1 == k
  {}

  lemma TimesSmall(k: bv8, x: bv8)
    requires k < 0x80
    ensures Times(1, x) == x
    ensures Times(k, Times(2, x)) == Times(k << 1, x)
    ensures Times(k, Times(3, x)) == Times(k ^ (k << 1), x)
  {
    hide XTime, Xor, Times;
    var y := XTime(x);
    XorZero();
    TimesZero(y);
    TimesZero(XTime(y));
    TimesStep(1, x);
    TimesStep(1, y);
    TimesStep(2, x);
    TimesStep(3, x);
    Doubled(k);
    TimesStep(k << 1, x);
    TimesLinear(k, x, y);
    TimesAdd(k, k << 1, x);
  }

  // ---------- MixColumns ----------

  lemma Swap4(a0: bv8, a1: bv8, a2: bv8, a3: bv8, b0: bv8, b1: bv8, b2: bv8, b3: bv8)
    ensures Xor(Xor4(a0, a1, a2, a3), Xor4(b0, b1, b2, b3))
         == Xor4(Xor(a0, b0), Xor(a1, b1), Xor(a2, b2), Xor(a3, b3))
  {
    hide Xor;
    Swap(Xor(Xor(a0, a1), a2), a3, Xor(Xor(b0, b1), b2), b3);
    Swap(Xor(a0, a1), a2, Xor(b0, b1), b2);
    Swap(a0, a1, b0, b1);
  }

  lemma Collect(a0: bv8, a1: bv8, a2: bv8, a3: bv8, b0: bv8, b1: bv8, b2: bv8, b3: bv8,
                c0: bv8, c1: bv8, c2: bv8, c3: bv8, d0: bv8, d1: bv8, d2: bv8, d3: bv8)
    ensures Xor4(Xor4(a0, a1, a2, a3), Xor4(b0, b1, b2, b3), Xor4(c0, c1, c2, c3), Xor4(d0, d1, d2, d3))
         == Xor4(Xor4(a0, b0, c0, d0), Xor4(a1, b1, c1, d1), Xor4(a2, b2, c2, d2), Xor4(a3, b3, c3, d3))
  {
    hide Xor;
    Swap4(a0, a1, a2, a3, b0, b1, b2, b3);
    Swap4(Xor(a0, b0), Xor(a1, b1), Xor(a2, b2), Xor(a3, b3), c0, c1, c2, c3);
    Swap4(Xor(Xor(a0, b0), c0), Xor(Xor(a1, b1), c1), Xor(Xor(a2, b2), c2), Xor(Xor(a3, b3), c3), d0, d1, d2, d3);
  }

  lemma TimesAdd4(k0: bv8, k1: bv8, k2: bv8, k3: bv8, x: bv8)
    ensures Xor4(Times(k0, x), Times(k1, x), Times(k2, x), Times(k3, x)) == Times(k0 ^ k1 ^ k2 ^ k3, x)
  {
    hide Times, Xor;
    TimesAdd(k0, k1, x);
    var k01 := k0 ^ k1;
    TimesAdd(k01, k2, x);
    var k012 := k01 ^ k2;
    TimesAdd(k012, k3, x);
  }

  /** The rows of the inverse matrix against the columns of the matrix: one, then three zeros. */
  lemma MatrixInverse(x: bv8)
    ensures Xor4(Times(0x0e, Times(2, x)), Times(0x0b, x), Times(0x0d, x), Times(0x09, Times(3, x))) == x
    ensures Xor4(Times(0x0e, Times(3, x)), Times(0x0b, Times(2, x)), Times(0x0d, x), Times(0x09, x)) == 0
    ensures Xor4(Times(0x0e, x), Times(0x0b, Times(3, x)), Times(0x0d, Times(2, x)), Times(0x09, x)) == 0
    ensures Xor4(Times(0x0e, x), Times(0x0b, x), Times(0x0d, Times(3, x)), Times(0x09, Times(2, x))) == 0
  {
    hide Times, Xor, Xor4;
    TimesZero(x);
    TimesSmall(0x0e, x);
    TimesSmall(0x0b, x);
    TimesSmall(0x0d, x);
    TimesSmall(0x09, x);
    TimesAdd4(0x1c, 0x0b, 0x0d, 0x1b, x);
    TimesAdd4(0x12, 0x16, 0x0d, 0x09, x);
    TimesAdd4(0x0e, 0x1d, 0x1a, 0x09, x);
    TimesAdd4(0x0e, 0x0b, 0x17, 0x12, x);
  }

  lemma Rotate(a: bv8, b: bv8, c: bv8, d: bv8)
    ensures Xor4(b, c, d, a) == Xor4(a, b, c, d)
  {
    hide Xor;
    XorComm(Xor(Xor(b, c), d), a);
    XorAssoc(a, Xor(b, c), d);
    XorAssoc(a, b, c);
  }

  lemma CombineColumns(a0: bv8, a1: bv8, a2: bv8, a3: bv8, b0: bv8, b1: bv8, b2: bv8, b3: bv8,
                       c0: bv8, c1: bv8, c2: bv8, c3: bv8, d0: bv8, d1: bv8, d2: bv8, d3: bv8)
    requires Xor4(b0, b1, b2, b3) == 0 && Xor4(c0, c1, c2, c3) == 0 && Xor4(d0, d1, d2, d3) == 0
    ensures Xor4(Xor4(a0, b0, c0, d0), Xor4(b1, c1, d1, a1), Xor4(c2, d2, a2, b2), Xor4(d3, a3, b3, c3))
         == Xor4(a0, a1, a2, a3)
  {
    hide Xor, Xor4;
    Rotate(a1, b1, c1, d1);
    Rotate(a2, b2, c2, d2);
    Rotate(b2, c2, d2, a2);
    Rotate(d3, a3, b3, c3);
    Collect(a0, b0, c0, d0, a1, b1, c1, d1, a2, b2, c2, d2, a3, b3, c3, d3);
    Only(Xor4(a0, a1, a2, a3));
  }

  lemma Only(a: bv8)
    ensures Xor4(a, 0, 0, 0) == a
  {}

  /** One row of the inverse matrix applied to a mixed column gives the original byte back. */
  lemma MixRowInverse(a: bv8, b: bv8, c: bv8, d: bv8)
    ensures InvMixRow(MixRow(a, b, c, d), MixRow(b, c, d, a), MixRow(c, d, a, b), MixRow(d, a, b, c)) == a
  {
    hide Times, Xor, Xor4;
    TimesSum(0x0e, Times(2, a), Times(3, b), c, d);
    TimesSum(0x0b, Times(2, b), Times(3, c), d, a);
    TimesSum(0x0d, Times(2, c), Times(3, d), a, b);
    TimesSum(0x09, Times(2, d), Times(3, a), b, c);
    MatrixInverse(a);
    MatrixInverse(b);
    MatrixInverse(c);
    MatrixInverse(d);
    CombineColumns(Times(0x0e, Times(2, a)), Times(0x0b, a), Times(0x0d, a), Times(0x09, Times(3, a)),
                   Times(0x0e, Times(3, b)), Times(0x0b, Times(2, b)), Times(0x0d, b), Times(0x09, b),
                   Times(0x0e, c), Times(0x0b, Times(3, c)), Times(0x0d, Times(2, c)), Times(0x09, c),
                   Times(0x0e, d), Times(0x0b, d), Times(0x0d, Times(3, d)), Times(0x09, Times(2, d)));
  }

  lemma BelowBelow(i: nat, k: nat, m: nat)
    requires i < 16 && k < 4 && m < 4
    ensures Below(Below(i, k), m) == Below(i, if k + m < 4 then k + m else k + m - 4)
  {
    assert Below(i, k) % 4 == if i % 4 + k < 4 then i % 4 + k else i % 4 + k - 4;
  }

  lemma BelowColumn(i: nat, k: nat)
    requires i < 16 && k < 4
    ensures Below(i, 0) == i
    ensures Below(Below(i, k), 1) == Below(i, if k < 3 then k + 1 else 0)
    ensures Below(Below(i, k), 2) == Below(i, if k < 2 then k + 2 else k - 2)
    ensures Below(Below(i, k), 3) == Below(i, if k < 1 then 3 else k - 1)
  {
    BelowBelow(i, k, 1);
    BelowBelow(i, k, 2);
    BelowBelow(i, k, 3);
  }

  lemma MixColumnsInverse(s: Block)
    ensures InvMixColumns(MixColumns(s)) == s
  {
    hide MixRow, InvMixRow, Below;
    forall i | 0 <= i < 16
      ensures InvMixColumns(MixColumns(s))[i] == s[i]
    {
      BelowColumn(i, 1);
      BelowColumn(i, 2);
      BelowColumn(i, 3);
      MixRowInverse(s[i], s[Below(i, 1)], s[Below(i, 2)], s[Below(i, 3)]);
    }
  }

  // ---------- The rounds ----------

  lemma {:induction false} RoundsInverse(s: Block, w: RoundKeys, r: nat)
    requires r < ROUNDS
    ensures InvRounds(ShiftRows(SubBytes(FullRounds(s, w, r))), w, r) == s
  {
    hide AddRoundKey, SubBytes, InvSubBytes, ShiftRows, InvShiftRows, MixColumns, InvMixColumns;
    var now := FullRounds(s, w, r);
    ShiftRowsInverse(SubBytes(now));
    SubBytesInverse(now);
    if r == 0 {
      AddRoundKeyInverse(s, w, 0);
    } else {
      var before := ShiftRows(SubBytes(FullRounds(s, w, r - 1)));
      AddRoundKeyInverse(MixColumns(before), w, r);
      MixColumnsInverse(before);
      RoundsInverse(s, w, r - 1);
    }
  }

  /** Decryption undoes encryption of a block, whatever the round keys are. */
  lemma CipherInverse(s: Block, w: RoundKeys)
    ensures InvCipher(Cipher(s, w), w) == s
  {
    hide AddRoundKey, SubBytes, ShiftRows, FullRounds, InvRounds;
    AddRoundKeyInverse(ShiftRows(SubBytes(FullRounds(s, w, ROUNDS - 1))), w, ROUNDS);
    RoundsInverse(s, w, ROUNDS - 1);
  }
}
