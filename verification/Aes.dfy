/**
  src/nostril/aes.c: the cipher steps, which overwrite a 16-byte window of the caller's buffer.
  Cell (i, j) of the source's 4x4 state is byte 4i + j of the window that starts at `off`.
 */
module Aes {
  import opened AesInverse
  import opened Bits
  import opened Fips197
  import opened Memory

  // ---------- Field arithmetic as the source writes it ----------

  lemma XTimeForms(x: bv8)
    ensures (x << 1) ^ (((x >> 7) & 1) * 0x1b) == (x << 1) ^ (if x & 0x80 != 0 then 0x1b else 0)
  {}

  function XTimeFast(x: bv8): (r: bv8)
    ensures r == XTime(x)
  {
    XTimeForms(x);
    (x << 1) ^ (((x >> 7) & 1) * 0x1b)
  }

  lemma BitTimes(y: bv8, x: bv8)
    ensures (y & 1) * x == if y & 1 == 1 then x else 0
  {}

  lemma FiveBits(y: bv8)
    requires y < 0x20
    ensures (y >> 1) >> 1 == y >> 2 && (y >> 2) >> 1 == y >> 3 && (y >> 3) >> 1 == y >> 4 && (y >> 4) >> 1 == 0
  {}

  function Scaled(y: bv8, x: bv8): (r: bv8)
    ensures r == if y & 1 == 1 then x else 0
  {
    BitTimes(y, x);
    (y & 1) * x
  }

  /** Multiplication by a factor of at most five bits. */
  function Multiply(x: bv8, y: bv8): bv8 {
    Xor(Xor(Xor(Xor(Scaled(y, x),
                    Scaled(y >> 1, XTimeFast(x))),
                Scaled(y >> 2, XTimeFast(XTimeFast(x)))),
            Scaled(y >> 3, XTimeFast(XTimeFast(XTimeFast(x))))),
        Scaled(y >> 4, XTimeFast(XTimeFast(XTimeFast(XTimeFast(x))))))
  }

  lemma MultiplyIsTimes(x: bv8, y: bv8)
    requires y < 0x20
    ensures Multiply(x, y) == Times(y, x)
  {
    hide Xor, XTime, XTimeFast, Times, Scaled;
    var x1 := XTime(x);
    var x2 := XTime(x1);
    var x3 := XTime(x2);
    var x4 := XTime(x3);
    FiveBits(y);
    TimesStep(y, x);
    TimesStep(y >> 1, x1);
    TimesStep(y >> 2, x2);
    TimesStep(y >> 3, x3);
    TimesStep(y >> 4, x4);
    TimesZero(XTime(x4));
    XorZero();
    var a, b, c, d, e := Scaled(y, x), Scaled(y >> 1, x1), Scaled(y >> 2, x2), Scaled(y >> 3, x3), Scaled(y >> 4, x4);
    XorAssoc(Xor(Xor(a, b), c), d, e);
    XorAssoc(Xor(a, b), c, Xor(d, e));
    XorAssoc(a, b, Xor(c, Xor(d, e)));
  }

  lemma MixXor(a: bv8, b: bv8, c: bv8, d: bv8, p: bv8, q: bv8)
    ensures Xor(a, Xor(Xor(p, q), Xor4(a, b, c, d))) == Xor4(p, Xor(b, q), c, d)
  {
    hide Xor;
    var cd := Xor(c, d);
    assert Xor4(a, b, c, d) == Xor(a, Xor(b, cd)) by {
      XorAssoc(Xor(a, b), c, d);
      XorAssoc(a, b, cd);
    }
    assert Xor(a, Xor(Xor(p, q), Xor(a, Xor(b, cd)))) == Xor(Xor(p, q), Xor(b, cd)) by {
      CancelOuter(a, Xor(p, q), Xor(b, cd));
    }
    XorComm(b, q);
    XorAssoc(p, q, Xor(b, cd));
    XorAssoc(q, b, cd);
    XorAssoc(p, Xor(q, b), cd);
    XorAssoc(Xor(p, Xor(q, b)), c, d);
  }

  lemma CancelOuter(a: bv8, x: bv8, y: bv8)
    ensures Xor(a, Xor(x, Xor(a, y))) == Xor(x, y)
  {
    hide Xor;
    XorAssoc(x, a, y);
    XorComm(x, a);
    XorAssoc(a, x, y);
    XorComm(a, Xor(a, Xor(x, y)));
    XorComm(a, Xor(x, y));
    XorTwice(Xor(x, y), a);
  }

  /** The source's three-xor form of a row of the mixed column. */
  lemma MixForm(a: bv8, b: bv8, c: bv8, d: bv8)
    ensures Xor(a, Xor(XTime(Xor(a, b)), Xor4(a, b, c, d))) == MixRow(a, b, c, d)
  {
    hide Xor, XTime, Times, Xor4;
    XTimeLinear(a, b);
    MixXor(a, b, c, d, XTime(a), XTime(b));
    TimesTwoThree(a);
    TimesTwoThree(b);
  }

  lemma TimesTwoThree(x: bv8)
    ensures Times(2, x) == XTime(x) && Times(3, x) == Xor(x, XTime(x))
  {
    hide XTime, Xor, Times;
    XorZero();
    TimesStep(2, x);
    TimesStep(3, x);
    TimesSmall(1, XTime(x));
  }

  // ---------- The steps, in place ----------

  method AddRoundKeyInPlace(round: nat, buf: array<bv8>, off: nat, roundKey: array<bv8>)
    requires round <= ROUNDS && off + 16 <= buf.Length && roundKey.Length == 240 && roundKey != buf
    modifies buf
    ensures buf[..] == Splice(old(buf[..]), off, AddRoundKey(old(buf[off..off + 16]), roundKey[..], round))
  {
    hide Xor;
    ghost var before := buf[..];
    for i := 0 to 4
      invariant forall k | 0 <= k < buf.Length ::
        buf[k] == if off <= k < off + 4 * i then Xor(before[k], roundKey[16 * round + k - off]) else before[k]
    {
      for j := 0 to 4
        invariant forall k | 0 <= k < buf.Length ::
          buf[k] == if off <= k < off + 4 * i + j then Xor(before[k], roundKey[16 * round + k - off]) else before[k]
      {
        buf[off + 4 * i + j] := Xor(buf[off + 4 * i + j], roundKey[round * 4 * 4 + i * 4 + j]);
      }
    }
    SpliceAt(before, off, AddRoundKey(before[off..off + 16], roundKey[..], round), buf[..]);
  }

  method SubBytesInPlace(buf: array<bv8>, off: nat)
    requires off + 16 <= buf.Length
    modifies buf
    ensures buf[..] == Splice(old(buf[..]), off, SubBytes(old(buf[off..off + 16])))
  {
    hide Sbox;
    ghost var before := buf[..];
    for i := 0 to 4
      invariant forall k | 0 <= k < buf.Length ::
        buf[k] == if off <= k < off + 16 && (k - off) % 4 < i then Sbox(before[k]) else before[k]
    {
      for j := 0 to 4
        invariant forall k | 0 <= k < buf.Length ::
          buf[k] == if off <= k < off + 16 && ((k - off) % 4 < i || ((k - off) % 4 == i && k - off < 4 * j))
                    then Sbox(before[k]) else before[k]
      {
        buf[off + 4 * j + i] := Sbox(buf[off + 4 * j + i]);
      }
    }
    SpliceAt(before, off, SubBytes(before[off..off + 16]), buf[..]);
  }

  method InvSubBytesInPlace(buf: array<bv8>, off: nat)
    requires off + 16 <= buf.Length
    modifies buf
    ensures buf[..] == Splice(old(buf[..]), off, InvSubBytes(old(buf[off..off + 16])))
  {
    hide InvSbox;
    ghost var before := buf[..];
    for i := 0 to 4
      invariant forall k | 0 <= k < buf.Length ::
        buf[k] == if off <= k < off + 16 && (k - off) % 4 < i then InvSbox(before[k]) else before[k]
    {
      for j := 0 to 4
        invariant forall k | 0 <= k < buf.Length ::
          buf[k] == if off <= k < off + 16 && ((k - off) % 4 < i || ((k - off) % 4 == i && k - off < 4 * j))
                    then InvSbox(before[k]) else before[k]
      {
        buf[off + 4 * j + i] := InvSbox(buf[off + 4 * j + i]);
      }
    }
    SpliceAt(before, off, InvSubBytes(before[off..off + 16]), buf[..]);
  }

  /** Four cells rotate, each taking the value of the next one, and nothing else changes. */
  function Rotated<T>(s: seq<T>, k0: nat, k1: nat, k2: nat, k3: nat): (r: seq<T>)
    requires k0 < |s| && k1 < |s| && k2 < |s| && k3 < |s|
    requires k0 != k1 && k0 != k2 && k0 != k3 && k1 != k2 && k1 != k3 && k2 != k3
    ensures |r| == |s|
  {
    s[k0 := s[k1]][k1 := s[k2]][k2 := s[k3]][k3 := s[k0]]
  }

  function Swapped<T>(s: seq<T>, k0: nat, k1: nat): (r: seq<T>)
    requires k0 < |s| && k1 < |s| && k0 != k1
    ensures |r| == |s|
  {
    s[k0 := s[k1]][k1 := s[k0]]
  }

  method RotateCells(buf: array<bv8>, k0: nat, k1: nat, k2: nat, k3: nat)
    requires k0 < buf.Length && k1 < buf.Length && k2 < buf.Length && k3 < buf.Length
    requires k0 != k1 && k0 != k2 && k0 != k3 && k1 != k2 && k1 != k3 && k2 != k3
    modifies buf
    ensures buf[..] == Rotated(old(buf[..]), k0, k1, k2, k3)
  {
    var temp := buf[k0];
    buf[k0] := buf[k1];
    buf[k1] := buf[k2];
    buf[k2] := buf[k3];
    buf[k3] := temp;
  }

  method SwapCells(buf: array<bv8>, k0: nat, k1: nat)
    requires k0 < buf.Length && k1 < buf.Length && k0 != k1
    modifies buf
    ensures buf[..] == Swapped(old(buf[..]), k0, k1)
  {
    var temp := buf[k0];
    buf[k0] := buf[k1];
    buf[k1] := temp;
  }

  lemma ShiftRowsCells<T>(b: seq<T>, o: nat)
    requires o + 16 <= |b|
    ensures Rotated(Swapped(Swapped(Rotated(b, o + 1, o + 5, o + 9, o + 13), o + 2, o + 10), o + 6, o + 14), o + 3, o + 15, o + 11, o + 7)
         == b[..o] + [b[o + 0], b[o + 5], b[o + 10], b[o + 15], b[o + 4], b[o + 9], b[o + 14], b[o + 3],
                       b[o + 8], b[o + 13], b[o + 2], b[o + 7], b[o + 12], b[o + 1], b[o + 6], b[o + 11]]
            + b[o + 16..]
  {}

  lemma ShiftRowsOrder(s: Block)
    ensures ShiftRows(s) == [s[0], s[5], s[10], s[15], s[4], s[9], s[14], s[3],
                       s[8], s[13], s[2], s[7], s[12], s[1], s[6], s[11]]
  {
    hide ShiftFrom;
    ShiftFromTable();
  }

  lemma ShiftFromTable()
    ensures ShiftFrom(0) == 0 && ShiftFrom(1) == 5 && ShiftFrom(2) == 10 && ShiftFrom(3) == 15
    ensures ShiftFrom(4) == 4 && ShiftFrom(5) == 9 && ShiftFrom(6) == 14 && ShiftFrom(7) == 3
    ensures ShiftFrom(8) == 8 && ShiftFrom(9) == 13 && ShiftFrom(10) == 2 && ShiftFrom(11) == 7
    ensures ShiftFrom(12) == 12 && ShiftFrom(13) == 1 && ShiftFrom(14) == 6 && ShiftFrom(15) == 11
  {}

  method ShiftRowsInPlace(buf: array<bv8>, off: nat)
    requires off + 16 <= buf.Length
    modifies buf
    ensures buf[..] == Splice(old(buf[..]), off, ShiftRows(old(buf[off..off + 16])))
  {
    hide ShiftFrom, ShiftRows, Rotated, Swapped;
    ghost var before := buf[..];
    // Row 1, one column to the left.
    RotateCells(buf, off + 1, off + 5, off + 9, off + 13);
    // Row 2, two columns.
    SwapCells(buf, off + 2, off + 10);
    SwapCells(buf, off + 6, off + 14);
    // Row 3, three columns.
    RotateCells(buf, off + 3, off + 15, off + 11, off + 7);
    ShiftRowsCells(before, off);
    ShiftRowsOrder(before[off..off + 16]);
  }

  lemma InvShiftRowsCells<T>(b: seq<T>, o: nat)
    requires o + 16 <= |b|
    ensures Rotated(Swapped(Swapped(Rotated(b, o + 13, o + 9, o + 5, o + 1), o + 2, o + 10), o + 6, o + 14), o + 3, o + 7, o + 11, o + 15)
         == b[..o] + [b[o + 0], b[o + 13], b[o + 10], b[o + 7], b[o + 4], b[o + 1], b[o + 14], b[o + 11],
                       b[o + 8], b[o + 5], b[o + 2], b[o + 15], b[o + 12], b[o + 9], b[o + 6], b[o + 3]]
            + b[o + 16..]
  {}

  lemma InvShiftRowsOrder(s: Block)
    ensures InvShiftRows(s) == [s[0], s[13], s[10], s[7], s[4], s[1], s[14], s[11],
                       s[8], s[5], s[2], s[15], s[12], s[9], s[6], s[3]]
  {
    hide InvShiftFrom;
    InvShiftFromTable();
  }

  lemma InvShiftFromTable()
    ensures InvShiftFrom(0) == 0 && InvShiftFrom(1) == 13 && InvShiftFrom(2) == 10 && InvShiftFrom(3) == 7
    ensures InvShiftFrom(4) == 4 && InvShiftFrom(5) == 1 && InvShiftFrom(6) == 14 && InvShiftFrom(7) == 11
    ensures InvShiftFrom(8) == 8 && InvShiftFrom(9) == 5 && InvShiftFrom(10) == 2 && InvShiftFrom(11) == 15
    ensures InvShiftFrom(12) == 12 && InvShiftFrom(13) == 9 && InvShiftFrom(14) == 6 && InvShiftFrom(15) == 3
  {}

  method InvShiftRowsInPlace(buf: array<bv8>, off: nat)
    requires off + 16 <= buf.Length
    modifies buf
    ensures buf[..] == Splice(old(buf[..]), off, InvShiftRows(old(buf[off..off + 16])))
  {
    hide InvShiftFrom, InvShiftRows, Rotated, Swapped;
    ghost var before := buf[..];
    // Row 1, one column to the right.
    RotateCells(buf, off + 13, off + 9, off + 5, off + 1);
    // Row 2, two columns.
    SwapCells(buf, off + 2, off + 10);
    SwapCells(buf, off + 6, off + 14);
    // Row 3, three columns.
    RotateCells(buf, off + 3, off + 7, off + 11, off + 15);
    InvShiftRowsCells(before, off);
    InvShiftRowsOrder(before[off..off + 16]);
  }

  method MixColumnsInPlace(buf: array<bv8>, off: nat)
    requires off + 16 <= buf.Length
    modifies buf
    ensures buf[..] == Splice(old(buf[..]), off, MixColumns(old(buf[off..off + 16])))
  {
    hide MixColumns, MixRow;
    ghost var before := buf[..];
    ghost var s := before[off..off + 16];
    for i := 0 to 4
      invariant forall k | 0 <= k < buf.Length ::
        buf[k] == if off <= k < off + 4 * i then MixColumns(s)[k - off] else before[k]
    {
      MixColumn(buf, off + 4 * i);
      MixedColumn(s, i);
    }
    SpliceAt(before, off, MixColumns(s), buf[..]);
  }

  /** The loop body: one column, in place. */
  method MixColumn(buf: array<bv8>, o: nat)
    requires o + 4 <= buf.Length
    modifies buf
    ensures buf[o] == old(MixRow(buf[o], buf[o + 1], buf[o + 2], buf[o + 3]))
    ensures buf[o + 1] == old(MixRow(buf[o + 1], buf[o + 2], buf[o + 3], buf[o]))
    ensures buf[o + 2] == old(MixRow(buf[o + 2], buf[o + 3], buf[o], buf[o + 1]))
    ensures buf[o + 3] == old(MixRow(buf[o + 3], buf[o], buf[o + 1], buf[o + 2]))
    ensures forall k | 0 <= k < buf.Length && !(o <= k < o + 4) :: buf[k] == old(buf[k])
  {
    hide MixRow, Xor, Xor4, XTime, XTimeFast;
    var t := buf[o];
    var tmp := Xor4(buf[o], buf[o + 1], buf[o + 2], buf[o + 3]);
    ghost var a, b, c, d := buf[o], buf[o + 1], buf[o + 2], buf[o + 3];
    Rotate(a, b, c, d);
    Rotate(b, c, d, a);
    Rotate(c, d, a, b);
    var tm := XTimeFast(Xor(buf[o], buf[o + 1]));
    buf[o] := Xor(buf[o], Xor(tm, tmp));
    MixForm(a, b, c, d);
    tm := XTimeFast(Xor(buf[o + 1], buf[o + 2]));
    buf[o + 1] := Xor(buf[o + 1], Xor(tm, tmp));
    MixForm(b, c, d, a);
    tm := XTimeFast(Xor(buf[o + 2], buf[o + 3]));
    buf[o + 2] := Xor(buf[o + 2], Xor(tm, tmp));
    MixForm(c, d, a, b);
    tm := XTimeFast(Xor(buf[o + 3], t));
    buf[o + 3] := Xor(buf[o + 3], Xor(tm, tmp));
    MixForm(d, a, b, c);
  }

  lemma MixedColumn(s: Block, i: nat)
    requires i < 4
    ensures var t, o := MixColumns(s), 4 * i;
            && t[o] == MixRow(s[o], s[o + 1], s[o + 2], s[o + 3])
            && t[o + 1] == MixRow(s[o + 1], s[o + 2], s[o + 3], s[o])
            && t[o + 2] == MixRow(s[o + 2], s[o + 3], s[o], s[o + 1])
            && t[o + 3] == MixRow(s[o + 3], s[o], s[o + 1], s[o + 2])
  {
    hide MixRow, Below;
    BelowInColumn(4 * i);
  }

  lemma BelowInColumn(o: nat)
    requires o < 16 && o % 4 == 0
    ensures Below(o, 1) == o + 1 && Below(o, 2) == o + 2 && Below(o, 3) == o + 3
    ensures Below(o + 1, 1) == o + 2 && Below(o + 1, 2) == o + 3 && Below(o + 1, 3) == o
    ensures Below(o + 2, 1) == o + 3 && Below(o + 2, 2) == o && Below(o + 2, 3) == o + 1
    ensures Below(o + 3, 1) == o && Below(o + 3, 2) == o + 1 && Below(o + 3, 3) == o + 2
  {
    assert (o + 1) % 4 == 1 && (o + 2) % 4 == 2 && (o + 3) % 4 == 3;
  }

  /** The source's four products in the order of the column are a row of the inverse matrix. */
  lemma InvMixForms(a: bv8, b: bv8, c: bv8, d: bv8)
    ensures Xor4(Multiply(a, 0x0e), Multiply(b, 0x0b), Multiply(c, 0x0d), Multiply(d, 0x09)) == InvMixRow(a, b, c, d)
    ensures Xor4(Multiply(a, 0x09), Multiply(b, 0x0e), Multiply(c, 0x0b), Multiply(d, 0x0d)) == InvMixRow(b, c, d, a)
    ensures Xor4(Multiply(a, 0x0d), Multiply(b, 0x09), Multiply(c, 0x0e), Multiply(d, 0x0b)) == InvMixRow(c, d, a, b)
    ensures Xor4(Multiply(a, 0x0b), Multiply(b, 0x0d), Multiply(c, 0x09), Multiply(d, 0x0e)) == InvMixRow(d, a, b, c)
  {
    hide Multiply, Times, Xor, Xor4;
    forall x: bv8, k: bv8 | k < 0x20
      ensures Multiply(x, k) == Times(k, x)
    {
      MultiplyIsTimes(x, k);
    }
    Rotate(Times(0x09, a), Times(0x0e, b), Times(0x0b, c), Times(0x0d, d));
    Rotate(Times(0x0d, a), Times(0x09, b), Times(0x0e, c), Times(0x0b, d));
    Rotate(Times(0x09, b), Times(0x0e, c), Times(0x0b, d), Times(0x0d, a));
    Rotate(Times(0x0e, d), Times(0x0b, a), Times(0x0d, b), Times(0x09, c));
  }

  /** The loop body of InvMixColumns: one column, in place. */
  method InvMixColumn(buf: array<bv8>, o: nat)
    requires o + 4 <= buf.Length
    modifies buf
    ensures buf[o] == old(InvMixRow(buf[o], buf[o + 1], buf[o + 2], buf[o + 3]))
    ensures buf[o + 1] == old(InvMixRow(buf[o + 1], buf[o + 2], buf[o + 3], buf[o]))
    ensures buf[o + 2] == old(InvMixRow(buf[o + 2], buf[o + 3], buf[o], buf[o + 1]))
    ensures buf[o + 3] == old(InvMixRow(buf[o + 3], buf[o], buf[o + 1], buf[o + 2]))
    ensures forall k | 0 <= k < buf.Length && !(o <= k < o + 4) :: buf[k] == old(buf[k])
  {
    hide Multiply, InvMixRow, Xor4;
    var a, b, c, d := buf[o], buf[o + 1], buf[o + 2], buf[o + 3];
    InvMixForms(a, b, c, d);
    buf[o] := Xor4(Multiply(a, 0x0e), Multiply(b, 0x0b), Multiply(c, 0x0d), Multiply(d, 0x09));
    buf[o + 1] := Xor4(Multiply(a, 0x09), Multiply(b, 0x0e), Multiply(c, 0x0b), Multiply(d, 0x0d));
    buf[o + 2] := Xor4(Multiply(a, 0x0d), Multiply(b, 0x09), Multiply(c, 0x0e), Multiply(d, 0x0b));
    buf[o + 3] := Xor4(Multiply(a, 0x0b), Multiply(b, 0x0d), Multiply(c, 0x09), Multiply(d, 0x0e));
  }

  lemma InvMixedColumn(s: Block, i: nat)
    requires i < 4
    ensures var t, o := InvMixColumns(s), 4 * i;
            && t[o] == InvMixRow(s[o], s[o + 1], s[o + 2], s[o + 3])
            && t[o + 1] == InvMixRow(s[o + 1], s[o + 2], s[o + 3], s[o])
            && t[o + 2] == InvMixRow(s[o + 2], s[o + 3], s[o], s[o + 1])
            && t[o + 3] == InvMixRow(s[o + 3], s[o], s[o + 1], s[o + 2])
  {
    hide InvMixRow, Below;
    BelowInColumn(4 * i);
  }

  method InvMixColumnsInPlace(buf: array<bv8>, off: nat)
    requires off + 16 <= buf.Length
    modifies buf
    ensures buf[..] == Splice(old(buf[..]), off, InvMixColumns(old(buf[off..off + 16])))
  {
    hide InvMixColumns, InvMixRow;
    ghost var before := buf[..];
    ghost var s := before[off..off + 16];
    for i := 0 to 4
      invariant forall k | 0 <= k < buf.Length ::
        buf[k] == if off <= k < off + 4 * i then InvMixColumns(s)[k - off] else before[k]
    {
      InvMixColumn(buf, off + 4 * i);
      InvMixedColumn(s, i);
    }
    SpliceAt(before, off, InvMixColumns(s), buf[..]);
  }

  // ---------- The cipher and its inverse, in place ----------

  method CipherInPlace(buf: array<bv8>, off: nat, roundKey: array<bv8>)
    requires off + 16 <= buf.Length && roundKey.Length == 240 && roundKey != buf
    modifies buf
    ensures buf[..] == Splice(old(buf[..]), off, Cipher(old(buf[off..off + 16]), roundKey[..]))
  {
    hide AddRoundKey, SubBytes, ShiftRows, MixColumns, Splice;
    ghost var before := buf[..];
    ghost var s := buf[off..off + 16];
    ghost var w := roundKey[..];
    AddRoundKeyInPlace(0, buf, off, roundKey);
    var round := 1;
    while true
      invariant 1 <= round <= ROUNDS
      invariant buf[..] == Splice(before, off, FullRounds(s, w, round - 1))
      decreases ROUNDS - round
    {
      ghost var now := FullRounds(s, w, round - 1);
      Window(before, off, now, SubBytes(now));
      SubBytesInPlace(buf, off);
      Window(before, off, SubBytes(now), ShiftRows(SubBytes(now)));
      ShiftRowsInPlace(buf, off);
      now := ShiftRows(SubBytes(now));
      if round == ROUNDS {
        break;
      }
      Window(before, off, now, MixColumns(now));
      MixColumnsInPlace(buf, off);
      Window(before, off, MixColumns(now), AddRoundKey(MixColumns(now), w, round));
      AddRoundKeyInPlace(round, buf, off, roundKey);
      round := round + 1;
    }
    ghost var last := ShiftRows(SubBytes(FullRounds(s, w, ROUNDS - 1)));
    Window(before, off, last, AddRoundKey(last, w, ROUNDS));
    AddRoundKeyInPlace(ROUNDS, buf, off, roundKey);
  }

  /** What one step sees in its window, and what two steps on the same window amount to. */
  lemma Window(s: seq<bv8>, off: nat, part: Block, again: Block)
    requires off + 16 <= |s|
    ensures Splice(s, off, part)[off..off + 16] == part
    ensures Splice(Splice(s, off, part), off, again) == Splice(s, off, again)
  {
    SpliceAgain(s, off, part, again);
  }

  method InvCipherInPlace(buf: array<bv8>, off: nat, roundKey: array<bv8>)
    requires off + 16 <= buf.Length && roundKey.Length == 240 && roundKey != buf
    modifies buf
    ensures buf[..] == Splice(old(buf[..]), off, InvCipher(old(buf[off..off + 16]), roundKey[..]))
  {
    hide AddRoundKey, InvSubBytes, InvShiftRows, InvMixColumns, Splice;
    ghost var before := buf[..];
    ghost var w := roundKey[..];
    ghost var now := AddRoundKey(buf[off..off + 16], w, ROUNDS);
    ghost var result := InvRounds(now, w, ROUNDS - 1);
    AddRoundKeyInPlace(ROUNDS, buf, off, roundKey);
    var round := ROUNDS - 1;
    while true
      invariant 0 <= round < ROUNDS
      invariant buf[..] == Splice(before, off, now) && InvRounds(now, w, round) == result
      decreases round
    {
      Window(before, off, now, InvShiftRows(now));
      InvShiftRowsInPlace(buf, off);
      now := InvShiftRows(now);
      Window(before, off, now, InvSubBytes(now));
      InvSubBytesInPlace(buf, off);
      now := InvSubBytes(now);
      Window(before, off, now, AddRoundKey(now, w, round));
      AddRoundKeyInPlace(round, buf, off, roundKey);
      now := AddRoundKey(now, w, round);
      if round == 0 {
        break;
      }
      Window(before, off, now, InvMixColumns(now));
      InvMixColumnsInPlace(buf, off);
      now := InvMixColumns(now);
      round := round - 1;
    }
  }
}
