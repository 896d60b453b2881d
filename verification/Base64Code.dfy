/** The operations of src/nostril/base64.c on caller-supplied buffers, and its two kinds of tables. */
module Base64Code {
  import opened Base64
  import Base64Laws
  import opened Bits
  import opened Memory
  import opened Options
  import opened Sequences
  import opened Tables

  // ---------- base64_init_maps ----------

  ghost predicate Distinct(s: seq<bv8>) {
    forall i, j | 0 <= i < j < |s| :: s[i] != s[j]
  }

  /** Entry `v` is the last of the first `n` positions that hold the character `v`, or invalid. */
  ghost predicate EntryFor(entry: bv8, v: int, src: Alphabet, n: nat) {
    if entry == INVALID then forall j | 0 <= j < n && j < 64 :: src[j] as int != v
    else
      && entry as int < n && entry as int < 64
      && src[entry as int] as int == v
      && forall j | (entry as int) < j < n && j < 64 :: src[j] as int != v
  }

  lemma SmallByte(i: int)
    requires 0 <= i < 64
    ensures (i as bv8) as int == i && i as bv8 != INVALID
  {
    OctetBits(i);
  }

  lemma NextEntry(entry: bv8, v: int, src: Alphabet, i: nat)
    requires i < 64 && EntryFor(entry, v, src, i)
    ensures EntryFor(if src[i] as int == v then i as bv8 else entry, v, src, i + 1)
  {
    SmallByte(i);
  }

  method InitMaps(src: Alphabet) returns (m: Maps)
    ensures BuiltFrom(m, src)
  {
    var decodeMap := new bv8[256](_ => INVALID);
    for i := 0 to 64
      invariant forall v | 0 <= v < 256 :: EntryFor(decodeMap[v], v, src, i)
    {
      hide EntryFor;
      ghost var before := decodeMap[..];
      decodeMap[src[i] as int] := i as bv8;
      forall v | 0 <= v < 256
        ensures EntryFor(decodeMap[v], v, src, i + 1)
      {
        NextEntry(before[v], v, src, i);
      }
    }
    m := Maps(src, decodeMap[..]);
  }

  ghost predicate BuiltFrom(m: Maps, src: Alphabet) {
    && Sized(m) && m.encodeMap == src
    && forall c: bv8 :: EntryFor(Value(m, c), c as int, src, 64)
  }

  lemma BuiltLetter(m: Maps, src: Alphabet, x: bv8)
    requires BuiltFrom(m, src) && Distinct(src) && x < 64
    ensures Value(m, Letter(m, x)) == x
  {
    SmallIndex(x);
    var c := Letter(m, x);
    var e := Value(m, c);
    assert EntryFor(e, c as int, src, 64);
    SameByte(src[e as int], c);
    SameByte(e, x);
  }

  lemma BuiltValue(m: Maps, src: Alphabet, c: bv8)
    requires BuiltFrom(m, src)
    ensures InAlphabet(m, c) <==> c in src
    ensures InAlphabet(m, c) ==> Value(m, c) < 64 && Letter(m, Value(m, c)) == c
  {
    var e := Value(m, c);
    assert EntryFor(e, c as int, src, 64);
    if e != INVALID {
      SameByte(src[e as int], c);
      IndexSmall(e);
    }
  }

  /** Tables built from any 64 characters are fit for decoding. */
  lemma BuiltNonNegative(m: Maps, src: Alphabet)
    requires Sized(m) && BuiltFrom(m, src)
    ensures NonNegative(m)
  {
    forall c: bv8
      ensures Value(m, c) == INVALID || Value(m, c) < 0x80
    {
      hide BuiltFrom, Value;
      BuiltValue(m, src, c);
    }
  }

  /** The tables built from 64 distinct characters other than '=' are inverse to each other. */
  lemma BuiltMatched(m: Maps, src: Alphabet)
    requires Sized(m) && BuiltFrom(m, src) && Distinct(src) && PADDING !in src
    ensures Matched(m)
    ensures forall c :: InAlphabet(m, c) <==> c in src
  {
    hide BuiltFrom, Letter, Value;
    forall x: bv8 | x < 64
      ensures Value(m, Letter(m, x)) == x
    {
      BuiltLetter(m, src, x);
    }
    forall c: bv8
      ensures InAlphabet(m, c) <==> c in src
      ensures InAlphabet(m, c) ==> Value(m, c) < 64 && Letter(m, Value(m, c)) == c
    {
      BuiltValue(m, src, c);
    }
    assert !InAlphabet(m, PADDING);
  }

  lemma IndexSmall(x: bv8)
    requires x as int < 64
    ensures x < 64
  {}

  // ---------- The built-in table ----------

  function RfcLetterAt(i: int): Octet
    requires 0 <= i < 64
  {
    if i < 16 then Pick(i, 65, 66, 67, 68, 69, 70, 71, 72, 73, 74, 75, 76, 77, 78, 79, 80)
    else if i < 32 then Pick(i - 16, 81, 82, 83, 84, 85, 86, 87, 88, 89, 90, 97, 98, 99, 100, 101, 102)
    else if i < 48 then Pick(i - 32, 103, 104, 105, 106, 107, 108, 109, 110, 111, 112, 113, 114, 115, 116, 117, 118)
    else Pick(i - 48, 119, 120, 121, 122, 48, 49, 50, 51, 52, 53, 54, 55, 56, 57, 43, 47)
  }

  function RfcValueAt(i: int): Octet
    requires 0 <= i < 256
  {
    if i < 32 then 255
    else if i < 48 then Pick(i - 32, 255, 255, 255, 255, 255, 255, 255, 255, 255, 255, 255, 62, 255, 255, 255, 63)
    else if i < 64 then Pick(i - 48, 52, 53, 54, 55, 56, 57, 58, 59, 60, 61, 255, 255, 255, 255, 255, 255)
    else if i < 80 then Pick(i - 64, 255, 0, 1, 2, 3, 4, 5, 6, 7, 8, 9, 10, 11, 12, 13, 14)
    else if i < 96 then Pick(i - 80, 15, 16, 17, 18, 19, 20, 21, 22, 23, 24, 25, 255, 255, 255, 255, 255)
    else if i < 112 then Pick(i - 96, 255, 26, 27, 28, 29, 30, 31, 32, 33, 34, 35, 36, 37, 38, 39, 40)
    else if i < 128 then Pick(i - 112, 41, 42, 43, 44, 45, 46, 47, 48, 49, 50, 51, 255, 255, 255, 255, 255)
    else 255
  }

  /** Table 1 of RFC 4648: A to Z, a to z, 0 to 9, + and /. */
  lemma RfcAlphabet(i: int)
    requires 0 <= i < 64
    ensures RfcLetterAt(i) == if i < 26 then 'A' as int + i
                              else if i < 52 then 'a' as int + (i - 26)
                              else if i < 62 then '0' as int + (i - 52)
                              else if i == 62 then '+' as int else '/' as int
  {}

  /** base64_maps_rfc4648 */
  const RFC4648: Maps := Maps(seq(64, i requires 0 <= i < 64 => RfcLetterAt(i) as bv8),
                              seq(256, i requires 0 <= i < 256 => RfcValueAt(i) as bv8))

  lemma RfcValueOfLetter(i: int)
    requires 0 <= i < 64
    ensures RfcValueAt(RfcLetterAt(i)) == i
  {}

  lemma RfcLetterOfValue(i: int)
    requires 0 <= i < 128
    ensures RfcValueAt(i) == 255 || (RfcValueAt(i) < 64 && RfcLetterAt(RfcValueAt(i)) == i)
  {}

  lemma RfcLetter(x: bv8)
    requires x < 64
    ensures Value(RFC4648, Letter(RFC4648, x)) == x
  {
    hide RfcLetterAt, RfcValueAt;
    SmallIndex(x);
    RfcValueOfLetter(x as int);
    OctetBits(RfcLetterAt(x as int));
  }

  lemma RfcValue(c: bv8)
    requires Value(RFC4648, c) != INVALID
    ensures Value(RFC4648, c) < 64 && Letter(RFC4648, Value(RFC4648, c)) == c
  {
    hide RfcLetterAt, RfcValueAt;
    var v := RfcValueAt(c as int);
    OctetBits(v);
    if c as int < 128 {
      RfcLetterOfValue(c as int);
      IndexSmall(v as bv8);
    } else {
      RfcSpecial();
    }
  }

  lemma RfcLetterIs(x: bv8, i: int, l: bv8)
    requires 0 <= i < 64 && x as int == i && RfcLetterAt(i) == l as int
    ensures x < 64 && Letter(RFC4648, x) == l
  {
    hide RfcLetterAt;
    IndexSmall(x);
    OctetBits(RfcLetterAt(i));
    SameByte(RfcLetterAt(i) as bv8, l);
  }

  /** The test vectors of section 10 for "f", "fo", "foo" and "foobar". */
  lemma RfcExamples()
    ensures Encode(RFC4648, Ascii("f")) == Ascii("Zg==") && Encode(RFC4648, Ascii("fo")) == Ascii("Zm8=")
    ensures Encode(RFC4648, Ascii("foo")) == Ascii("Zm9v") && Encode(RFC4648, Ascii("foobar")) == Ascii("Zm9vYmFy")
  {
    hide Encode, EncodeTriplet, Ascii;
    Words();
    Triplets();
    var foo, bar := [0x66, 0x6f, 0x6f], [0x62, 0x61, 0x72];
    Base64Laws.EncodeStep(RFC4648, [0x66]);
    Base64Laws.EncodeStep(RFC4648, [0x66, 0x6f]);
    Base64Laws.EncodeStep(RFC4648, foo);
    Base64Laws.EncodeStep(RFC4648, foo + bar);
    Base64Laws.EncodeStep(RFC4648, bar);
    Base64Laws.EncodeStep(RFC4648, []);
    assert (foo + bar)[3..] == bar && foo[3..] == [] && bar[3..] == [];
    assert foo + bar == [0x66, 0x6f, 0x6f, 0x62, 0x61, 0x72];
  }

  lemma Triplets()
    ensures EncodeTriplet(RFC4648, 0x66, 0, 0) == [0x5a, 0x67, 0x41, 0x41]
    ensures EncodeTriplet(RFC4648, 0x66, 0x6f, 0) == [0x5a, 0x6d, 0x38, 0x41]
    ensures EncodeTriplet(RFC4648, 0x66, 0x6f, 0x6f) == [0x5a, 0x6d, 0x39, 0x76]
    ensures EncodeTriplet(RFC4648, 0x62, 0x61, 0x72) == [0x59, 0x6d, 0x46, 0x79]
  {
    hide Letter, RFC4648;
    Letters();
  }

  lemma Letters()
    ensures Letter(RFC4648, 0) == 0x41 && Letter(RFC4648, 5) == 0x46 && Letter(RFC4648, 24) == 0x59
    ensures Letter(RFC4648, 25) == 0x5a && Letter(RFC4648, 32) == 0x67 && Letter(RFC4648, 38) == 0x6d
    ensures Letter(RFC4648, 47) == 0x76 && Letter(RFC4648, 50) == 0x79 && Letter(RFC4648, 60) == 0x38
    ensures Letter(RFC4648, 61) == 0x39
  {
    hide Letter, RFC4648;
    RfcLetterIs(0, 0, 0x41);
    RfcLetterIs(5, 5, 0x46);
    RfcLetterIs(24, 24, 0x59);
    RfcLetterIs(25, 25, 0x5a);
    RfcLetterIs(32, 32, 0x67);
    RfcLetterIs(38, 38, 0x6d);
    RfcLetterIs(47, 47, 0x76);
    RfcLetterIs(50, 50, 0x79);
    RfcLetterIs(60, 60, 0x38);
    RfcLetterIs(61, 61, 0x39);
  }

  lemma Words()
    ensures Ascii("f") == [0x66] && Ascii("fo") == [0x66, 0x6f] && Ascii("foo") == [0x66, 0x6f, 0x6f]
    ensures Ascii("foobar") == [0x66, 0x6f, 0x6f, 0x62, 0x61, 0x72]
    ensures Ascii("Zg==") == [0x5a, 0x67, 0x3d, 0x3d] && Ascii("Zm8=") == [0x5a, 0x6d, 0x38, 0x3d]
    ensures Ascii("Zm9v") == [0x5a, 0x6d, 0x39, 0x76]
    ensures Ascii("Zm9vYmFy") == [0x5a, 0x6d, 0x39, 0x76, 0x59, 0x6d, 0x46, 0x79]
  {
    AsciiIs("f", [0x66]);
    AsciiIs("fo", [0x66, 0x6f]);
    AsciiIs("foo", [0x66, 0x6f, 0x6f]);
    AsciiIs("foobar", [0x66, 0x6f, 0x6f, 0x62, 0x61, 0x72]);
    AsciiIs("Zg==", [0x5a, 0x67, 0x3d, 0x3d]);
    AsciiIs("Zm8=", [0x5a, 0x6d, 0x38, 0x3d]);
    AsciiIs("Zm9v", [0x5a, 0x6d, 0x39, 0x76]);
    AsciiIs("Zm9vYmFy", [0x5a, 0x6d, 0x39, 0x76, 0x59, 0x6d, 0x46, 0x79]);
  }

  /** Matched tables are fit for decoding. */
  lemma MatchedNonNegative(m: Maps)
    requires Matched(m)
    ensures NonNegative(m)
  {}

  /** The built-in tables are matched, and 'A' is one of their letters. */
  lemma RfcMatched()
    ensures Matched(RFC4648) && InAlphabet(RFC4648, FILLER)
  {
    hide RfcLetterAt, RfcValueAt;
    RfcSpecial();
    assert Value(RFC4648, PADDING) == INVALID && Value(RFC4648, FILLER) == 0;
    hide Value, Letter;
    forall x: bv8 | x < 64
      ensures Value(RFC4648, Letter(RFC4648, x)) == x
    {
      RfcLetter(x);
    }
    forall c: bv8 | Value(RFC4648, c) != INVALID
      ensures Value(RFC4648, c) < 64 && Letter(RFC4648, Value(RFC4648, c)) == c
    {
      RfcValue(c);
    }
  }

  lemma RfcSpecial()
    ensures RfcValueAt(PADDING as int) == 255 && RfcValueAt(FILLER as int) == 0
    ensures forall i | 128 <= i < 256 :: RfcValueAt(i) == 255
  {}

  lemma RfcRoundTrip(x: seq<bv8>)
    ensures Decode(RFC4648, Encode(RFC4648, x)) == Some(x)
  {
    hide Decode, Encode, Value;
    RfcMatched();
    Base64Laws.RoundTrip(RFC4648, x);
  }

  /** An alphabet of the caller's own: the round trip fails for a short group iff 'A' is not in it. */
  lemma AlphabetRoundTrip(m: Maps, src: Alphabet, x: seq<bv8>)
    requires Sized(m) && BuiltFrom(m, src) && Distinct(src) && PADDING !in src
    ensures Decode(m, Encode(m, x)) == Some(x) <==> |x| % 3 == 0 || FILLER in src
  {
    hide Decode, Encode, Value;
    BuiltMatched(m, src);
    Base64Laws.RoundTrip(m, x);
  }

  // ---------- Encoding into a buffer ----------

  // The 64 bytes from 0x80 on: distinct, and neither '=' nor 'A' is among them.
  const HIGH_BYTES: Alphabet := seq(64, i requires 0 <= i < 64 => (0x80 + i) as bv8)

  lemma HighByte(i: int)
    requires 0 <= i < 64
    ensures HIGH_BYTES[i] as int == 0x80 + i
  {
    OctetBits(0x80 + i);
  }

  lemma HighBytesFit()
    ensures Distinct(HIGH_BYTES) && PADDING !in HIGH_BYTES && FILLER !in HIGH_BYTES
  {
    forall i | 0 <= i < 64
      ensures HIGH_BYTES[i] as int == 0x80 + i
    {
      HighByte(i);
    }
    assert PADDING as int == 0x3d && FILLER as int == 0x41;
    hide HIGH_BYTES;
  }

  /** With that alphabet a single zero byte is encoded and then not decoded. */
  lemma RoundTripFails(m: Maps)
    requires Sized(m) && BuiltFrom(m, HIGH_BYTES)
    ensures Decode(m, Encode(m, [0])) == None
  {
    hide Decode, Encode, Value, BuiltFrom;
    HighBytesFit();
    BuiltMatched(m, HIGH_BYTES);
    Base64Laws.RoundTrip(m, [0]);
  }

  method PutTriplet(m: Maps, dest: array<bv8>, off: nat, a: bv8, b: bv8, c: bv8)
    requires Sized(m) && off + 4 <= dest.Length
    modifies dest
    ensures dest[..] == Splice(old(dest[..]), off, EncodeTriplet(m, a, b, c))
  {
    hide Letter, Six0, Six1, Six2, Six3;
    SextetRange(a, b, c);
    dest[off] := Letter(m, Six0(a));
    dest[off + 1] := Letter(m, Six1(a, b));
    dest[off + 2] := Letter(m, Six2(b, c));
    dest[off + 3] := Letter(m, Six3(c));
  }

  /** base64_encode_using_maps: -1 and an untouched buffer if it is too small. */
  method EncodeUsingMaps(m: Maps, dest: array<bv8>, src: seq<bv8>) returns (r: int)
    requires Sized(m)
    modifies dest
    ensures dest.Length < EncodedLength(|src|) ==> r == -1 && dest[..] == old(dest[..])
    ensures dest.Length >= EncodedLength(|src|) ==>
      && r == EncodedLength(|src|)
      && dest[..] == Encode(m, src) + Repeat(0, dest.Length - r)
  {
    hide EncodeTriplet, EncodeTail, Encode, Splice, EncodedLength, Repeat;
    if dest.Length < EncodedLength(|src|) {
      return -1;
    }
    var srcOffset, destOffset := 0, 0;
    assert src[0..] == src;
    while |src| - srcOffset >= 3
      invariant srcOffset <= |src| && EncodedLength(|src|) == destOffset + EncodedLength(|src| - srcOffset)
      invariant dest[..destOffset] + Encode(m, src[srcOffset..]) == Encode(m, src)
    {
      var rest := src[srcOffset..];
      EncodedLengthStep(|rest|);
      Base64Laws.EncodeStep(m, rest);
      ghost var before := dest[..];
      PutTriplet(m, dest, destOffset, src[srcOffset], src[srcOffset + 1], src[srcOffset + 2]);
      SplicePrefix(before, destOffset, EncodeTriplet(m, rest[0], rest[1], rest[2]));
      assert rest[3..] == src[srcOffset + 3..];
      Assoc(before[..destOffset], EncodeTriplet(m, rest[0], rest[1], rest[2]), Encode(m, rest[3..]));
      srcOffset := srcOffset + 3;
      destOffset := destOffset + 4;
    }
    EncodedLengthStep(|src| - srcOffset);
    r := EncodeEnd(m, dest, destOffset, src[srcOffset..]);
  }

  /** The last step of encoding: the tail, then zeros. */
  method EncodeEnd(m: Maps, dest: array<bv8>, off: nat, t: seq<bv8>) returns (r: int)
    requires Sized(m) && |t| <= 2 && off + EncodedLength(|t|) <= dest.Length
    modifies dest
    ensures r == off + EncodedLength(|t|) && dest[..] == old(dest[..off]) + Encode(m, t) + Repeat(0, dest.Length - r)
  {
    hide EncodeTail, Encode, Splice, EncodedLength, Repeat;
    EncodedLengthStep(|t|);
    Base64Laws.EncodeStep(m, t);
    r := off;
    if 0 < |t| {
      ghost var before := dest[..];
      PutTail(m, dest, off, t);
      SplicePrefix(before, off, EncodeTail(m, t));
      r := off + 4;
    }
    ghost var all := dest[..];
    Fill(dest, r, 0, dest.Length - r);
    Zeros(dest.Length - r);
    SpliceEnd(all, r, Repeat(0, dest.Length - r));
  }

  lemma EncodedLengthStep(n: nat)
    ensures n >= 3 ==> EncodedLength(n) == 4 + EncodedLength(n - 3)
    ensures 1 <= n <= 2 ==> EncodedLength(n) == 4
    ensures EncodedLength(0) == 0
  {}

  lemma DecodedLengthStep(n: nat)
    ensures n >= 4 ==> DecodedLength(n) == 3 + DecodedLength(n - 4)
    ensures 1 <= n <= 4 ==> DecodedLength(n) == 3
    ensures DecodedLength(0) == 0
  {}

  method PutTail(m: Maps, dest: array<bv8>, off: nat, t: seq<bv8>)
    requires Sized(m) && off + 4 <= dest.Length && 1 <= |t| <= 2
    modifies dest
    ensures dest[..] == Splice(old(dest[..]), off, EncodeTail(m, t))
  {
    hide EncodeTriplet;
    var b := if |t| > 1 then t[1] else 0;
    PutTriplet(m, dest, off, t[0], b, 0);
    Fill(dest, off + 1 + |t|, PADDING, 3 - |t|);
  }

  lemma Zeros(n: nat)
    ensures Repeat(0, n) == seq(n, _ => 0)
  {}

  method PutQuartet(m: Maps, dest: array<bv8>, off: nat, c0: bv8, c1: bv8, c2: bv8, c3: bv8) returns (ok: bool)
    requires Sized(m) && NonNegative(m) && off + 3 <= dest.Length
    modifies dest
    ensures ok == DecodeQuartet(m, c0, c1, c2, c3).Some?
    ensures dest[..] == if ok then Splice(old(dest[..]), off, DecodeQuartet(m, c0, c1, c2, c3).value) else old(dest[..])
  {
    hide Value, Byte0, Byte1, Byte2;
    var p, q, r, s := Value(m, c0), Value(m, c1), Value(m, c2), Value(m, c3);
    if p == INVALID || q == INVALID || r == INVALID || s == INVALID {
      return false;
    }
    dest[off] := Byte0(p, q);
    dest[off + 1] := Byte1(q, r);
    dest[off + 2] := Byte2(r, s);
    ok := true;
  }

  method StripLength(t: seq<bv8>) returns (insize: nat)
    ensures insize <= |t| && Strip(t) == t[..insize]
  {
    insize := |t|;
    assert t[..insize] == t;
    while insize != 0 && t[insize - 1] == PADDING
      invariant insize <= |t| && Strip(t) == Strip(t[..insize])
    {
      assert t[..insize][..insize - 1] == t[..insize - 1];
      insize := insize - 1;
    }
  }

  /** base64_decode_tail_using_maps: the number of bytes, or -1. */
  method PutDecodedTail(m: Maps, dest: array<bv8>, off: nat, t: seq<bv8>) returns (more: int)
    requires Sized(m) && NonNegative(m) && |t| <= 4 && (t != [] ==> off + 3 <= dest.Length) && off <= dest.Length
    modifies dest
    ensures dest[..off] == old(dest[..off])
    ensures match DecodeTail(m, t)
            case None => more == -1
            case Some(b) => more == |b| && off + more <= dest.Length && dest[off..off + more] == b
  {
    hide DecodeQuartet, Strip;
    var insize := StripLength(t);
    if insize == 0 {
      return 0;
    }
    if insize == 1 {
      return -1;
    }
    var ok := PutQuartet(m, dest, off, t[0], t[1], if insize > 2 then t[2] else FILLER, if insize > 3 then t[3] else FILLER);
    if !ok {
      return -1;
    }
    more := insize - 1;
    assert dest[off..off + more] == dest[off..off + 3][..more];
  }

  /** base64_decode_using_maps: on success the decoded bytes, then zeros. */
  method DecodeUsingMaps(m: Maps, dest: array<bv8>, src: seq<bv8>) returns (r: int)
    requires Sized(m) && NonNegative(m)
    modifies dest
    ensures dest.Length < DecodedLength(|src|) ==> r == -1 && dest[..] == old(dest[..])
    ensures dest.Length >= DecodedLength(|src|) ==>
            match Decode(m, src)
            case None => r == -1
            case Some(b) => r == |b| && r <= dest.Length && dest[..] == b + Repeat(0, dest.Length - r)
  {
    hide DecodeQuartet, DecodeTail, Decode, Splice, DecodedLength, Repeat;
    if dest.Length < DecodedLength(|src|) {
      return -1;
    }
    var i, destOffset := 0, 0;
    assert src[0..] == src;
    PrefixedNothing(Decode(m, src));
    assert dest[..0] == [];
    while |src| - i > 4
      invariant i <= |src| && DecodedLength(|src|) == destOffset + DecodedLength(|src| - i)
      invariant Decode(m, src) == Prefixed(dest[..destOffset], Decode(m, src[i..]))
    {
      var rest := src[i..];
      DecodedLengthStep(|rest|);
      DecodeStep(m, rest);
      ghost var before := dest[..];
      var ok := PutQuartet(m, dest, destOffset, src[i], src[i + 1], src[i + 2], src[i + 3]);
      if !ok {
        return -1;
      }
      SplicePrefix(before, destOffset, DecodeQuartet(m, rest[0], rest[1], rest[2], rest[3]).value);
      assert rest[4..] == src[i + 4..];
      PrefixedTwice(before[..destOffset], DecodeQuartet(m, rest[0], rest[1], rest[2], rest[3]).value, Decode(m, src[i + 4..]));
      i := i + 4;
      destOffset := destOffset + 3;
    }
    DecodedLengthStep(|src| - i);
    DecodeStep(m, src[i..]);
    r := DecodeEnd(m, dest, destOffset, src[i..]);
  }

  /** The last step of decoding: the tail, then zeros. */
  method DecodeEnd(m: Maps, dest: array<bv8>, off: nat, t: seq<bv8>) returns (r: int)
    requires Sized(m) && NonNegative(m) && |t| <= 4 && (t != [] ==> off + 3 <= dest.Length) && off <= dest.Length
    modifies dest
    ensures match Prefixed(old(dest[..off]), DecodeTail(m, t))
            case None => r == -1
            case Some(b) => r == |b| && r <= dest.Length && dest[..] == b + Repeat(0, dest.Length - r)
  {
    hide DecodeTail, Repeat;
    var more := PutDecodedTail(m, dest, off, t);
    if more == -1 {
      return -1;
    }
    r := off + more;
    assert dest[..r] == dest[..off] + dest[off..r];
    ghost var all := dest[..];
    Fill(dest, r, 0, dest.Length - r);
    Zeros(dest.Length - r);
    SpliceEnd(all, r, Repeat(0, dest.Length - r));
  }

  function Prefixed(done: seq<bv8>, rest: Option<seq<bv8>>): Option<seq<bv8>> {
    match rest
    case None => None
    case Some(b) => Some(done + b)
  }

  lemma PrefixedNothing(rest: Option<seq<bv8>>)
    ensures Prefixed([], rest) == rest
  {
    if rest.Some? {
      assert [] + rest.value == rest.value;
    }
  }

  lemma PrefixedTwice(a: seq<bv8>, b: seq<bv8>, rest: Option<seq<bv8>>)
    ensures Prefixed(a, Prefixed(b, rest)) == Prefixed(a + b, rest)
  {
    if rest.Some? {
      assert a + (b + rest.value) == (a + b) + rest.value;
    }
  }

  lemma DecodeStep(m: Maps, s: seq<bv8>)
    requires Sized(m)
    ensures |s| <= 4 ==> Decode(m, s) == DecodeTail(m, s)
    ensures |s| > 4 ==> Decode(m, s) == (match DecodeQuartet(m, s[0], s[1], s[2], s[3])
                                         case None => None
                                         case Some(b) => Prefixed(b, Decode(m, s[4..])))
  {
    hide DecodeTail, DecodeQuartet;
  }
}
