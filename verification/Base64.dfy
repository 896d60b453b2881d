/**
  src/nostril/base64.c: base64 (RFC 4648 section 4) over an arbitrary alphabet. Characters are
  bytes; a decoded value of 0xff stands for the source's signed -1, "not in the alphabet".
 */
module Base64 {
  import opened Options

  const PADDING: bv8 := 0x3d // '='
  const FILLER: bv8 := 0x41  // 'A'
  const INVALID: bv8 := 0xff

  // ---------- Three bytes and four sextets ----------

  function Six0(a: bv8): bv8 { (a & 0xfc) >> 2 }
  function Six1(a: bv8, b: bv8): bv8 { ((a & 0x3) << 4) | ((b & 0xf0) >> 4) }
  function Six2(b: bv8, c: bv8): bv8 { ((c & 0xc0) >> 6) | ((b & 0xf) << 2) }
  function Six3(c: bv8): bv8 { c & 0x3f }

  function Byte0(p: bv8, q: bv8): bv8 { (p << 2) | (q >> 4) }
  function Byte1(q: bv8, r: bv8): bv8 { ((q & 0xf) << 4) | (r >> 2) }
  function Byte2(r: bv8, s: bv8): bv8 { ((r & 0x3) << 6) | s }

  /** The sextets are the four 6-bit groups of the 24-bit group (RFC 4648 section 4). */
  lemma SextetsOfGroup(a: bv8, b: bv8, c: bv8)
    ensures var group := (a as bv24 << 16) | (b as bv24 << 8) | c as bv24;
            && ((group >> 18) & 63) as bv8 == (a & 0xfc) >> 2
            && ((group >> 12) & 63) as bv8 == ((a & 0x3) << 4) | ((b & 0xf0) >> 4)
            && ((group >> 6) & 63) as bv8 == ((c & 0xc0) >> 6) | ((b & 0xf) << 2)
            && (group & 63) as bv8 == c & 0x3f
  {}

  lemma SextetsAre(a: bv8, b: bv8, c: bv8)
    ensures var group := (a as bv24 << 16) | (b as bv24 << 8) | c as bv24;
            && Six0(a) == ((group >> 18) & 63) as bv8 && Six1(a, b) == ((group >> 12) & 63) as bv8
            && Six2(b, c) == ((group >> 6) & 63) as bv8 && Six3(c) == (group & 63) as bv8
  {
    SextetsOfGroup(a, b, c);
  }

  lemma SextetRange(a: bv8, b: bv8, c: bv8)
    ensures Six0(a) < 64 && Six1(a, b) < 64 && Six2(b, c) < 64 && Six3(c) < 64
  {}

  lemma BytesOfSextets(a: bv8, b: bv8, c: bv8)
    ensures Byte0(Six0(a), Six1(a, b)) == a
    ensures Byte1(Six1(a, b), Six2(b, c)) == b
    ensures Byte2(Six2(b, c), Six3(c)) == c
  {}

  lemma SextetsOfBytes(p: bv8, q: bv8, r: bv8, s: bv8)
    requires p < 64 && q < 64 && r < 64 && s < 64
    ensures Six0(Byte0(p, q)) == p
    ensures Six1(Byte0(p, q), Byte1(q, r)) == q
    ensures Six2(Byte1(q, r), Byte2(r, s)) == r
    ensures Six3(Byte2(r, s)) == s
  {}

  /** Only the low bits of the last sextet can be lost when the group is cut short. */
  lemma SextetsCutShort(p: bv8, q: bv8, r: bv8)
    requires p < 64 && q < 64 && r < 64
    ensures Six1(Byte0(p, q), 0) == q <==> q & 0xf == 0
    ensures Six2(Byte1(q, r), 0) == r <==> r & 0x3 == 0
  {}

  // ---------- The maps ----------

  datatype Maps = Maps(encodeMap: seq<bv8>, decodeMap: seq<bv8>)

  type Alphabet = s: seq<bv8> | |s| == 64 witness seq(64, _ => 0)

  /** What every operation needs: the two tables have the right size. */
  ghost predicate Sized(m: Maps) {
    |m.encodeMap| == 64 && |m.decodeMap| == 256
  }

  /**
    What decoding needs besides: the entries are `signed char`, and shifting a negative one has no
    defined result, so -1 is the only negative entry.
   */
  ghost predicate NonNegative(m: Maps)
    requires Sized(m)
  {
    forall c: bv8 :: Value(m, c) == INVALID || Value(m, c) < 0x80
  }

  /** The tables are inverse to each other, and '=' is not a letter. */
  ghost predicate Matched(m: Maps) {
    && Sized(m)
    && (forall x: bv8 | x < 64 :: Value(m, Letter(m, x)) == x)
    && (forall c: bv8 | Value(m, c) != INVALID :: Value(m, c) < 64 && Letter(m, Value(m, c)) == c)
    && Value(m, PADDING) == INVALID
  }

  lemma SmallIndex(x: bv8)
    requires x < 64
    ensures x as int < 64
  {}

  /** sixbit_to_b64 */
  function Letter(m: Maps, x: bv8): bv8
    requires Sized(m) && x < 64
  {
    SmallIndex(x);
    m.encodeMap[x as int]
  }

  /** sixbit_from_b64 */
  function Value(m: Maps, c: bv8): bv8
    requires Sized(m)
  {
    m.decodeMap[c as int]
  }

  predicate InAlphabet(m: Maps, c: bv8)
    requires Sized(m)
  {
    Value(m, c) != INVALID
  }

  ghost predicate AllInAlphabet(m: Maps, s: seq<bv8>)
    requires Sized(m)
  {
    forall i | 0 <= i < |s| :: InAlphabet(m, s[i])
  }

  // ---------- Encoding ----------

  function EncodedLength(n: nat): nat {
    (n + 2) / 3 * 4
  }

  function EncodeTriplet(m: Maps, a: bv8, b: bv8, c: bv8): (r: seq<bv8>)
    requires Sized(m)
    ensures |r| == 4
  {
    SextetRange(a, b, c);
    [Letter(m, Six0(a)), Letter(m, Six1(a, b)), Letter(m, Six2(b, c)), Letter(m, Six3(c))]
  }

  function Repeat(c: bv8, n: nat): (r: seq<bv8>)
    ensures |r| == n && forall i | 0 <= i < n :: r[i] == c
  {
    seq(n, _ => c)
  }

  /** One or two bytes: the missing ones count as zero and their letters are replaced by '='. */
  function EncodeTail(m: Maps, t: seq<bv8>): (r: seq<bv8>)
    requires Sized(m) && 1 <= |t| <= 2
    ensures |r| == 4
  {
    EncodeTriplet(m, t[0], if |t| > 1 then t[1] else 0, 0)[..1 + |t|] + Repeat(PADDING, 3 - |t|)
  }

  function Encode(m: Maps, src: seq<bv8>): (r: seq<bv8>)
    requires Sized(m)
    ensures |r| == EncodedLength(|src|)
  {
    if src == [] then []
    else if |src| < 3 then EncodeTail(m, src)
    else EncodeTriplet(m, src[0], src[1], src[2]) + Encode(m, src[3..])
  }

  // ---------- Decoding ----------

  function DecodedLength(n: nat): nat {
    (n + 3) / 4 * 3
  }

  function DecodeQuartet(m: Maps, c0: bv8, c1: bv8, c2: bv8, c3: bv8): (r: Option<seq<bv8>>)
    requires Sized(m)
    ensures r.Some? <==> AllInAlphabet(m, [c0, c1, c2, c3])
    ensures r.Some? ==> |r.value| == 3
  {
    var p, q, r, s := Value(m, c0), Value(m, c1), Value(m, c2), Value(m, c3);
    if p == INVALID || q == INVALID || r == INVALID || s == INVALID then
      assert !AllInAlphabet(m, [c0, c1, c2, c3]) by {
        var all := [c0, c1, c2, c3];
        assert !InAlphabet(m, all[0]) || !InAlphabet(m, all[1]) || !InAlphabet(m, all[2]) || !InAlphabet(m, all[3]);
      }
      None
    else Some([Byte0(p, q), Byte1(q, r), Byte2(r, s)])
  }

  /** Throws away trailing padding. */
  function Strip(t: seq<bv8>): (u: seq<bv8>)
    ensures u <= t
    ensures u != [] ==> u[|u| - 1] != PADDING
    ensures forall i | |u| <= i < |t| :: t[i] == PADDING
  {
    if t != [] && t[|t| - 1] == PADDING then Strip(t[..|t| - 1]) else t
  }

  /** At most four characters; the source fills what is missing with the letter 'A'. */
  function DecodeTail(m: Maps, t: seq<bv8>): (r: Option<seq<bv8>>)
    requires Sized(m) && |t| <= 4
    ensures r.Some? ==> |r.value| <= 3
  {
    var u := Strip(t);
    if |u| == 0 then Some([])
    else if |u| == 1 then None
    else
      match DecodeQuartet(m, u[0], u[1], if |u| > 2 then u[2] else FILLER, if |u| > 3 then u[3] else FILLER)
      case None => None
      case Some(b) => Some(b[..|u| - 1])
  }

  function Decode(m: Maps, s: seq<bv8>): (r: Option<seq<bv8>>)
    requires Sized(m)
    ensures r.Some? ==> |r.value| <= DecodedLength(|s|)
  {
    if |s| <= 4 then DecodeTail(m, s)
    else
      match DecodeQuartet(m, s[0], s[1], s[2], s[3])
      case None => None
      case Some(b) =>
        match Decode(m, s[4..])
        case None => None
        case Some(rest) => Some(b + rest)
  }
}
