/**
  What base64 promises, for every pair of matched tables: which byte strings survive the round
  trip, which strings decode, and which decoded strings encode to themselves again.
 */
module Base64Laws {
  import opened Base64
  import opened Options

  // ---------- One group ----------

  lemma QuartetOfTriplet(m: Maps, a: bv8, b: bv8, c: bv8)
    requires Matched(m)
    ensures var r := EncodeTriplet(m, a, b, c);
            && AllInAlphabet(m, r)
            && DecodeQuartet(m, r[0], r[1], r[2], r[3]) == Some([a, b, c])
  {
    hide Six0, Six1, Six2, Six3, Byte0, Byte1, Byte2, Letter, Value;
    SextetRange(a, b, c);
    BytesOfSextets(a, b, c);
    NotInvalid(Six0(a));
    NotInvalid(Six1(a, b));
    NotInvalid(Six2(b, c));
    NotInvalid(Six3(c));
  }

  lemma NotInvalid(x: bv8)
    requires x < 64
    ensures x != INVALID
  {}

  lemma TripletOfQuartet(m: Maps, c0: bv8, c1: bv8, c2: bv8, c3: bv8)
    requires Matched(m) && AllInAlphabet(m, [c0, c1, c2, c3])
    ensures var b := DecodeQuartet(m, c0, c1, c2, c3).value;
            EncodeTriplet(m, b[0], b[1], b[2]) == [c0, c1, c2, c3]
  {
    hide Six0, Six1, Six2, Six3, Byte0, Byte1, Byte2, Letter, Value;
    var all := [c0, c1, c2, c3];
    assert InAlphabet(m, all[0]) && InAlphabet(m, all[1]) && InAlphabet(m, all[2]) && InAlphabet(m, all[3]);
    SextetsOfBytes(Value(m, c0), Value(m, c1), Value(m, c2), Value(m, c3));
  }

  // ---------- Decoding undoes encoding ----------

  /** A group that is cut short can only be decoded when the filler is a letter. */
  predicate Recoverable(m: Maps, n: nat)
    requires Sized(m)
  {
    n % 3 == 0 || InAlphabet(m, FILLER)
  }

  lemma StripLetters(m: Maps, t: seq<bv8>, k: nat)
    requires Matched(m) && 1 <= k <= |t| && InAlphabet(m, t[k - 1])
    requires forall i | k <= i < |t| :: t[i] == PADDING
    ensures Strip(t) == t[..k]
  {
    assert t[k - 1] != PADDING;
    assert |Strip(t)| == k;
  }

  lemma TailRoundTrip(m: Maps, t: seq<bv8>)
    requires Matched(m) && 1 <= |t| <= 2
    ensures DecodeTail(m, EncodeTail(m, t)) == if InAlphabet(m, FILLER) then Some(t) else None
  {
    hide Six0, Six1, Six2, Six3, Byte0, Byte1, Byte2, Letter, Value, EncodeTriplet, DecodeQuartet, Strip;
    var a, b := t[0], if |t| > 1 then t[1] else 0;
    var r := EncodeTriplet(m, a, b, 0);
    var e := EncodeTail(m, t);
    QuartetOfTriplet(m, a, b, 0);
    StripLetters(m, e, 1 + |t|);
    assert Strip(e) == r[..1 + |t|];
    CutQuartet(m, a, b, 1 + |t|);
    var d := DecodeQuartet(m, r[0], r[1], if |t| > 1 then r[2] else FILLER, FILLER);
    if d.Some? {
      assert d.value[..|t|] == t;
    }
  }

  /** The bytes that are kept do not depend on the letters that were filled in. */
  lemma CutQuartet(m: Maps, a: bv8, b: bv8, k: nat)
    requires Matched(m) && 2 <= k <= 3
    ensures var r := EncodeTriplet(m, a, b, 0);
            var d := DecodeQuartet(m, r[0], r[1], if k > 2 then r[2] else FILLER, FILLER);
            && (d.Some? <==> InAlphabet(m, FILLER))
            && (d.Some? ==> d.value[0] == a && (k > 2 ==> d.value[1] == b))
  {
    hide Six0, Six1, Six2, Six3, Byte0, Byte1, Byte2, Letter, Value;
    SextetRange(a, b, 0);
    BytesOfSextets(a, b, 0);
    NotInvalid(Six0(a));
    NotInvalid(Six1(a, b));
    NotInvalid(Six2(b, 0));
  }

  lemma EncodeStep(m: Maps, x: seq<bv8>)
    requires Sized(m)
    ensures x == [] ==> Encode(m, x) == []
    ensures 1 <= |x| <= 2 ==> Encode(m, x) == EncodeTail(m, x)
    ensures |x| >= 3 ==> Encode(m, x) == EncodeTriplet(m, x[0], x[1], x[2]) + Encode(m, x[3..])
  {
    hide EncodeTriplet, EncodeTail;
  }

  /** Encoding and decoding give the message back exactly when every group can be recovered. */
  lemma {:induction false} RoundTrip(m: Maps, x: seq<bv8>)
    requires Matched(m)
    ensures Decode(m, Encode(m, x)) == if Recoverable(m, |x|) then Some(x) else None
  {
    hide Encode, Decode, EncodedLength, EncodeTriplet, DecodeQuartet, EncodeTail, DecodeTail;
    hide Value, InAlphabet, AllInAlphabet;
    EncodeStep(m, x);
    if |x| <= 3 {
      ShortRoundTrip(m, x);
    } else {
      QuartetOfTriplet(m, x[0], x[1], x[2]);
      RoundTrip(m, x[3..]);
      EncodeStep(m, x[3..]);
      MoreGroups(m, EncodeTriplet(m, x[0], x[1], x[2]), Encode(m, x[3..]));
      assert x == [x[0], x[1], x[2]] + x[3..];
      assert (|x| - 3) % 3 == |x| % 3;
    }
  }

  lemma ShortRoundTrip(m: Maps, x: seq<bv8>)
    requires Matched(m) && |x| <= 3
    ensures Decode(m, Encode(m, x)) == if Recoverable(m, |x|) then Some(x) else None
  {
    hide Encode, EncodedLength, EncodeTriplet, DecodeQuartet, EncodeTail, DecodeTail;
    hide Value, InAlphabet, AllInAlphabet;
    EncodeStep(m, x);
    if x == [] {
      EmptyTail(m);
    } else if |x| < 3 {
      TailRoundTrip(m, x);
    } else {
      QuartetOfTriplet(m, x[0], x[1], x[2]);
      assert x[3..] == [];
      EncodeStep(m, []);
      assert Encode(m, x) == EncodeTriplet(m, x[0], x[1], x[2]) + [] == EncodeTriplet(m, x[0], x[1], x[2]);
      WholeTail(m, EncodeTriplet(m, x[0], x[1], x[2]));
      assert x == [x[0], x[1], x[2]];
    }
  }

  lemma MoreGroups(m: Maps, g: seq<bv8>, more: seq<bv8>)
    requires Sized(m) && |g| == 4 && more != []
    ensures Decode(m, g + more) ==
            match DecodeQuartet(m, g[0], g[1], g[2], g[3])
            case None => None
            case Some(b) =>
              match Decode(m, more)
              case None => None
              case Some(rest) => Some(b + rest)
  {
    hide DecodeQuartet, DecodeTail;
    assert (g + more)[4..] == more;
  }

  lemma EmptyTail(m: Maps)
    requires Sized(m)
    ensures DecodeTail(m, []) == Some([])
  {}

  lemma WholeTail(m: Maps, t: seq<bv8>)
    requires Matched(m) && |t| == 4 && AllInAlphabet(m, t)
    ensures DecodeTail(m, t) == DecodeQuartet(m, t[0], t[1], t[2], t[3])
  {
    hide DecodeQuartet, Strip, Value;
    StripLetters(m, t, 4);
    var d := DecodeQuartet(m, t[0], t[1], t[2], t[3]);
    assert t == [t[0], t[1], t[2], t[3]];
    assert d.value[..3] == d.value;
  }

  // ---------- Which strings decode ----------

  /** How many characters are decoded as whole quartets before the tail of at most four. */
  function LeadLength(n: nat): (k: nat)
    ensures k <= n && k % 4 == 0 && n - k <= 4 && (n > 0 ==> n - k > 0)
  {
    if n == 0 then 0 else (n - 1) / 4 * 4
  }

  ghost predicate TailDecodes(m: Maps, t: seq<bv8>)
    requires Sized(m)
  {
    var u := Strip(t);
    AllInAlphabet(m, u) && |u| != 1 && (|u| == 2 || |u| == 3 ==> InAlphabet(m, FILLER))
  }

  ghost predicate Decodes(m: Maps, s: seq<bv8>)
    requires Sized(m)
  {
    var k := LeadLength(|s|);
    AllInAlphabet(m, s[..k]) && TailDecodes(m, s[k..])
  }

  lemma TailDecodesIff(m: Maps, t: seq<bv8>)
    requires Sized(m) && |t| <= 4
    ensures DecodeTail(m, t).Some? <==> TailDecodes(m, t)
  {
    hide Value, InAlphabet, Strip, DecodeQuartet;
    var u := Strip(t);
    if |u| >= 2 {
      var c2, c3 := if |u| > 2 then u[2] else FILLER, if |u| > 3 then u[3] else FILLER;
      QuartetLetters(m, u[0], u[1], c2, c3);
      if AllInAlphabet(m, u) {
        assert InAlphabet(m, u[0]) && InAlphabet(m, u[1]);
      } else {
        var i :| 0 <= i < |u| && !InAlphabet(m, u[i]);
        assert i == 0 || i == 1 || i == 2 || i == 3;
      }
    }
  }

  lemma QuartetLetters(m: Maps, c0: bv8, c1: bv8, c2: bv8, c3: bv8)
    requires Sized(m)
    ensures DecodeQuartet(m, c0, c1, c2, c3).Some?
       <==> InAlphabet(m, c0) && InAlphabet(m, c1) && InAlphabet(m, c2) && InAlphabet(m, c3)
  {
    hide Value, Byte0, Byte1, Byte2;
  }

  /** Decoding succeeds on exactly these strings. */
  lemma {:induction false} DecodesIff(m: Maps, s: seq<bv8>)
    requires Sized(m)
    ensures Decode(m, s).Some? <==> Decodes(m, s)
  {
    hide Value, InAlphabet, TailDecodes, DecodeTail, DecodeQuartet, LeadLength;
    var k := LeadLength(|s|);
    LeadStep(|s|);
    if |s| <= 4 {
      assert s[k..] == s;
      TailDecodesIff(m, s);
    } else {
      DecodesIff(m, s[4..]);
      QuartetLetters(m, s[0], s[1], s[2], s[3]);
      assert s[4..][k - 4..] == s[k..];
      AllInParts(m, s[..4], s[4..][..k - 4]);
      assert s[..4] + s[4..][..k - 4] == s[..k];
      assert AllInAlphabet(m, s[..4]) <==> InAlphabet(m, s[0]) && InAlphabet(m, s[1]) && InAlphabet(m, s[2]) && InAlphabet(m, s[3])
      by {
        FourLetters(m, s[..4]);
      }
    }
  }

  lemma LeadStep(n: nat)
    ensures n <= 4 ==> LeadLength(n) == 0
    ensures n > 4 ==> LeadLength(n) == LeadLength(n - 4) + 4
  {}

  lemma AllInParts(m: Maps, s: seq<bv8>, t: seq<bv8>)
    requires Sized(m)
    ensures AllInAlphabet(m, s + t) <==> AllInAlphabet(m, s) && AllInAlphabet(m, t)
  {
    hide InAlphabet;
    if AllInAlphabet(m, s + t) {
      assert forall i | 0 <= i < |s| :: s[i] == (s + t)[i];
      assert forall i | 0 <= i < |t| :: t[i] == (s + t)[|s| + i];
    }
  }

  lemma FourLetters(m: Maps, s: seq<bv8>)
    requires Sized(m) && |s| == 4
    ensures AllInAlphabet(m, s) <==> InAlphabet(m, s[0]) && InAlphabet(m, s[1]) && InAlphabet(m, s[2]) && InAlphabet(m, s[3])
  {
    hide InAlphabet;
    if !AllInAlphabet(m, s) {
      var i :| 0 <= i < 4 && !InAlphabet(m, s[i]);
      assert i == 0 || i == 1 || i == 2 || i == 3;
    }
  }

  // ---------- Which strings are canonical ----------

  /** RFC 4648 section 3.5: a last group of four with at most two '=' and no stray bits under them. */
  ghost predicate CanonicalTail(m: Maps, t: seq<bv8>)
    requires Sized(m)
  {
    var u := Strip(t);
    && |t| == 4 && |u| >= 2
    && (|u| == 2 ==> Value(m, u[1]) & 0xf == 0)
    && (|u| == 3 ==> Value(m, u[2]) & 0x3 == 0)
  }

  ghost predicate Canonical(m: Maps, s: seq<bv8>)
    requires Sized(m)
  {
    s == [] || CanonicalTail(m, s[LeadLength(|s|)..])
  }

  lemma LetterInjective(m: Maps, x: bv8, y: bv8)
    requires Matched(m) && x < 64 && y < 64
    ensures Letter(m, x) == Letter(m, y) <==> x == y
  {
    hide Letter, Value;
    assert Value(m, Letter(m, x)) == x && Value(m, Letter(m, y)) == y;
  }

  /** Re-encoding two or three characters: the last one comes back iff its low bits are clear. */
  lemma CutTriplet(m: Maps, c0: bv8, c1: bv8, c2: bv8, c3: bv8)
    requires Matched(m) && AllInAlphabet(m, [c0, c1, c2, c3])
    ensures var b := DecodeQuartet(m, c0, c1, c2, c3).value;
            var e, f := EncodeTriplet(m, b[0], 0, 0), EncodeTriplet(m, b[0], b[1], 0);
            && e[0] == c0 && (e[1] == c1 <==> Value(m, c1) & 0xf == 0)
            && f[0] == c0 && f[1] == c1 && (f[2] == c2 <==> Value(m, c2) & 0x3 == 0)
  {
    hide Six0, Six1, Six2, Six3, Byte0, Byte1, Byte2, Letter, Value;
    FourLetters(m, [c0, c1, c2, c3]);
    var p, q, r, s := Value(m, c0), Value(m, c1), Value(m, c2), Value(m, c3);
    assert InAlphabet(m, c0) && InAlphabet(m, c1) && InAlphabet(m, c2) && InAlphabet(m, c3);
    SextetsOfBytes(p, q, r, s);
    SextetsCutShort(p, q, r);
    var a, b := Byte0(p, q), Byte1(q, r);
    SextetRange(a, 0, 0);
    SextetRange(a, b, 0);
    LetterInjective(m, Six1(a, 0), q);
    LetterInjective(m, Six2(b, 0), r);
  }

  lemma TailReencodes(m: Maps, t: seq<bv8>)
    requires Matched(m) && 1 <= |t| <= 4 && DecodeTail(m, t).Some?
    ensures Encode(m, DecodeTail(m, t).value) == t <==> CanonicalTail(m, t)
  {
    hide Value, Letter, DecodeQuartet, EncodeTriplet, Strip, Encode, EncodedLength;
    var u := Strip(t);
    var x := DecodeTail(m, t).value;
    EncodeStep(m, x);
    if |u| >= 2 {
      var c2, c3 := if |u| > 2 then u[2] else FILLER, if |u| > 3 then u[3] else FILLER;
      var b := DecodeQuartet(m, u[0], u[1], c2, c3).value;
      assert x == b[..|u| - 1];
      CutTriplet(m, u[0], u[1], c2, c3);
      TripletOfQuartet(m, u[0], u[1], c2, c3);
      if |u| == 4 {
        assert x[3..] == [];
        EncodeStep(m, []);
        assert t == u == [u[0], u[1], c2, c3];
      } else {
        var e := EncodeTail(m, x);
        if |t| == 4 {
          assert t == u + Repeat(PADDING, 4 - |u|);
          assert e[|u| - 1] == t[|u| - 1] <==> e == t;
        }
      }
    }
  }

  lemma CanonicalStep(m: Maps, s: seq<bv8>)
    requires Sized(m) && |s| > 4
    ensures Canonical(m, s) <==> Canonical(m, s[4..])
  {
    hide CanonicalTail, LeadLength;
    LeadStep(|s|);
    var k := LeadLength(|s|);
    assert s[4..][k - 4..] == s[k..];
  }

  lemma ReencodeStep(m: Maps, s: seq<bv8>)
    requires Matched(m) && |s| > 4 && Decode(m, s).Some?
    ensures Decode(m, s[4..]).Some?
    ensures Encode(m, Decode(m, s).value) == [s[0], s[1], s[2], s[3]] + Encode(m, Decode(m, s[4..]).value)
  {
    hide Value, DecodeQuartet, DecodeTail, EncodeTriplet, Encode, EncodedLength;
    var b, rest := DecodeQuartet(m, s[0], s[1], s[2], s[3]).value, Decode(m, s[4..]).value;
    TripletOfQuartet(m, s[0], s[1], s[2], s[3]);
    EncodeStep(m, b + rest);
    assert (b + rest)[3..] == rest;
  }

  lemma SameRest<T>(s: seq<T>, e: seq<T>)
    requires |s| > 4
    ensures [s[0], s[1], s[2], s[3]] + e == s <==> e == s[4..]
  {
    assert s == [s[0], s[1], s[2], s[3]] + s[4..];
    assert ([s[0], s[1], s[2], s[3]] + e)[4..] == e;
  }

  /** Re-encoding what was decoded gives the input back exactly when the input is canonical. */
  lemma {:induction false} ReencodesIff(m: Maps, s: seq<bv8>)
    requires Matched(m) && Decode(m, s).Some?
    ensures Encode(m, Decode(m, s).value) == s <==> Canonical(m, s)
  {
    if |s| <= 4 {
      ReencodesShort(m, s);
    } else {
      hide Decode, Encode, Canonical;
      ReencodeStep(m, s);
      ReencodesIff(m, s[4..]);
      CanonicalStep(m, s);
      SameRest(s, Encode(m, Decode(m, s[4..]).value));
    }
  }

  lemma ReencodesShort(m: Maps, s: seq<bv8>)
    requires Matched(m) && Decode(m, s).Some? && |s| <= 4
    ensures Encode(m, Decode(m, s).value) == s <==> Canonical(m, s)
  {
    hide Value, DecodeQuartet, DecodeTail, EncodeTriplet, Encode, EncodedLength, CanonicalTail, LeadLength;
    LeadStep(|s|);
    if s == [] {
      EmptyTail(m);
      EncodeStep(m, []);
    } else {
      assert s[0..] == s;
      TailReencodes(m, s);
    }
  }
}
