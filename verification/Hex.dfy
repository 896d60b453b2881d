/** src/nostril/hex.h: hexadecimal text. */
module Hex {
  import opened Memory
  import opened Options

  /** hexchar */
  function HexChar(v: bv8): bv8
    requires v < 16
  {
    if v < 10 then 0x30 + v else 0x61 + v - 10
  }

  /** char_to_hex */
  function CharToHex(c: bv8): Option<bv8> {
    if 0x30 <= c <= 0x39 then Some(c - 0x30)
    else if 0x61 <= c <= 0x66 then Some(c - 0x61 + 10)
    else if 0x41 <= c <= 0x46 then Some(c - 0x41 + 10)
    else None
  }

  function HighNibble(b: bv8): (v: bv8)
    ensures v < 16
  {
    b >> 4
  }

  function LowNibble(b: bv8): (v: bv8)
    ensures v < 16
  {
    b & 0xf
  }

  function FromNibbles(h: bv8, l: bv8): bv8 {
    (h << 4) | l
  }

  function LowerCase(c: bv8): bv8 {
    if 0x41 <= c <= 0x46 then c + 0x20 else c
  }

  lemma NibbleRoundTrip(v: bv8)
    requires v < 16
    ensures CharToHex(HexChar(v)) == Some(v)
  {}

  lemma CharRoundTrip(c: bv8)
    requires CharToHex(c).Some?
    ensures CharToHex(c).value < 16 && HexChar(CharToHex(c).value) == LowerCase(c)
  {}

  lemma ByteOfNibbles(b: bv8)
    ensures FromNibbles(HighNibble(b), LowNibble(b)) == b
  {}

  lemma NibblesOfByte(h: bv8, l: bv8)
    requires h < 16 && l < 16
    ensures HighNibble(FromNibbles(h, l)) == h && LowNibble(FromNibbles(h, l)) == l
  {}

  function Encode(b: seq<bv8>): (s: seq<bv8>)
    ensures |s| == 2 * |b|
  {
    if b == [] then []
    else [HexChar(HighNibble(b[0])), HexChar(LowNibble(b[0]))] + Encode(b[1..])
  }

  /** Pairs of hexadecimal digits of either case; anything else is rejected. */
  function Decode(s: seq<bv8>): (r: Option<seq<bv8>>)
    ensures r.Some? ==> |s| == 2 * |r.value|
  {
    if s == [] then Some([])
    else if |s| == 1 then None
    else
      match (CharToHex(s[0]), CharToHex(s[1]), Decode(s[2..]))
      case (Some(h), Some(l), Some(rest)) => Some([FromNibbles(h, l)] + rest)
      case _ => None
  }

  lemma {:induction false} DecodeEncode(b: seq<bv8>)
    ensures Decode(Encode(b)) == Some(b)
  {
    hide HexChar, CharToHex, HighNibble, LowNibble, FromNibbles;
    if b != [] {
      var h, l := HighNibble(b[0]), LowNibble(b[0]);
      NibbleRoundTrip(h);
      NibbleRoundTrip(l);
      ByteOfNibbles(b[0]);
      DecodeEncode(b[1..]);
      assert Encode(b)[2..] == Encode(b[1..]);
      assert b == [b[0]] + b[1..];
    }
  }

  /** The digits, in either case. */
  predicate IsHexDigit(c: bv8) {
    0x30 <= c <= 0x39 || 0x41 <= c <= 0x46 || 0x61 <= c <= 0x66
  }

  /** Decoding succeeds on exactly the texts of pairs of digits. */
  lemma {:induction false} DecodesIff(s: seq<bv8>)
    ensures Decode(s).Some? <==> |s| % 2 == 0 && forall i | 0 <= i < |s| :: IsHexDigit(s[i])
  {
    hide CharToHex, FromNibbles, IsHexDigit;
    DecodePair(s);
    if |s| >= 2 {
      DecodesIff(s[2..]);
      DigitIff(s[0]);
      DigitIff(s[1]);
      assert s == [s[0], s[1]] + s[2..];
      assert forall i | 2 <= i < |s| :: s[i] == s[2..][i - 2];
    }
  }

  lemma DigitIff(c: bv8)
    ensures CharToHex(c).Some? <==> IsHexDigit(c)
  {}

  /** The other way round, only the case of the digits is lost. */
  lemma {:induction false} EncodeDecode(s: seq<bv8>)
    requires Decode(s).Some?
    ensures Encode(Decode(s).value) == seq(|s|, i requires 0 <= i < |s| => LowerCase(s[i]))
  {
    hide HexChar, CharToHex, HighNibble, LowNibble, FromNibbles, LowerCase;
    if s != [] {
      var h, l := CharToHex(s[0]).value, CharToHex(s[1]).value;
      CharRoundTrip(s[0]);
      CharRoundTrip(s[1]);
      NibblesOfByte(h, l);
      EncodeDecode(s[2..]);
      var b := Decode(s).value;
      assert b[1..] == Decode(s[2..]).value;
    }
  }

  lemma EncodeInjective(a: seq<bv8>, b: seq<bv8>)
    requires Encode(a) == Encode(b)
    ensures a == b
  {
    DecodeEncode(a);
    DecodeEncode(b);
  }

  lemma {:induction false} EncodeSnoc(b: seq<bv8>, c: bv8)
    ensures Encode(b + [c]) == Encode(b) + [HexChar(HighNibble(c)), HexChar(LowNibble(c))]
  {
    hide HexChar, HighNibble, LowNibble;
    if b == [] {
      assert b + [c] == [c];
      assert [c][1..] == [];
    } else {
      EncodeSnoc(b[1..], c);
      assert (b + [c])[1..] == b[1..] + [c];
      assert Encode(b + [c]) == [HexChar(HighNibble(b[0])), HexChar(LowNibble(b[0]))] + Encode(b[1..] + [c]);
    }
  }

  /** hex_encode: the text and its NUL, or nothing at all. */
  method HexEncode(src: seq<bv8>, dest: array<bv8>) returns (ok: bool)
    modifies dest
    ensures ok == (dest.Length >= 2 * |src| + 1)
    ensures dest[..] == if ok then Splice(old(dest[..]), 0, Encode(src) + [0]) else old(dest[..])
  {
    if dest.Length < 2 * |src| + 1 {
      return false;
    }
    hide Encode, HexChar, HighNibble, LowNibble, Splice;
    ghost var before := dest[..];
    assert src[..0] == [];
    EncodeNothing();
    for i := 0 to |src|
      invariant dest[..2 * i] == Encode(src[..i])
      invariant dest[2 * i..] == before[2 * i..]
    {
      var c := src[i];
      assert src[..i + 1] == src[..i] + [c];
      EncodeSnoc(src[..i], c);
      PutTwo(dest, 2 * i, HexChar(HighNibble(c)), HexChar(LowNibble(c)));
    }
    assert src[..|src|] == src;
    dest[2 * |src|] := 0;
    Spliced(dest[..], before, Encode(src), 0);
    ok := true;
  }

  method PutTwo<T>(dest: array<T>, k: nat, x: T, y: T)
    requires k + 2 <= dest.Length
    modifies dest
    ensures dest[..k + 2] == old(dest[..k]) + [x, y]
    ensures dest[k + 2..] == old(dest[k..])[2..]
  {
    dest[k] := x;
    dest[k + 1] := y;
  }

  lemma Spliced<T>(s: seq<T>, before: seq<T>, a: seq<T>, x: T)
    requires |s| == |before| > |a|
    requires s[..|a|] == a && s[|a|] == x && s[|a|..][1..] == before[|a|..][1..]
    ensures s == Splice(before, 0, a + [x])
  {
    assert s[|a| + 1..] == s[|a|..][1..] && before[|a| + 1..] == before[|a|..][1..];
    assert s == s[..|a|] + [s[|a|]] + s[|a| + 1..];
  }

  lemma EncodeNothing()
    ensures Encode([]) == []
  {}

  /** hex_decode: true exactly when the text is the right length and all digits. */
  method HexDecode(s: seq<bv8>, dest: array<bv8>) returns (ok: bool)
    modifies dest
    ensures ok <==> Decode(s).Some? && |s| == 2 * dest.Length
    ensures ok ==> dest[..] == Decode(s).value
  {
    hide CharToHex, FromNibbles, Decode;
    var i, p := 0, 0;
    assert s[0..] == s && dest[..0] == [];
    while |s| - i > 1
      invariant i == 2 * p <= |s| && p <= dest.Length
      invariant Decode(s).Some? <==> Decode(s[i..]).Some?
      invariant Decode(s).Some? ==> Decode(s).value == dest[..p] + Decode(s[i..]).value
    {
      var v1, v2 := CharToHex(s[i]), CharToHex(s[i + 1]);
      assert s[i..][2..] == s[i + 2..];
      DecodePair(s[i..]);
      if v1.None? || v2.None? {
        return false;
      }
      if p == dest.Length {
        return false;
      }
      dest[p] := FromNibbles(v1.value, v2.value);
      p := p + 1;
      i := i + 2;
    }
    DecodePair(s[i..]);
    ok := i == |s| && p == dest.Length;
  }

  lemma DecodePair(s: seq<bv8>)
    ensures s == [] ==> Decode(s) == Some([])
    ensures |s| == 1 ==> Decode(s) == None
    ensures |s| >= 2 ==> Decode(s) == (match (CharToHex(s[0]), CharToHex(s[1]), Decode(s[2..]))
                                       case (Some(h), Some(l), Some(rest)) => Some([FromNibbles(h, l)] + rest)
                                       case _ => None)
  {
    hide CharToHex, FromNibbles;
  }
}
