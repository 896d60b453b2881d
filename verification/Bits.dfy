/** Bytes as numbers and as ASCII characters, exclusive or, big-endian numbers, and the range of std::size_t. */
module Bits {
  // std::size_t and unsigned long long have 64 bits.
  const SIZE_LIMIT: nat := 0x1_0000_0000_0000_0000

  lemma {:induction false} OctetBits(v: int)
    requires 0 <= v < 256
    ensures (v as bv8) as int == v
  {
    if v > 0 {
      OctetBits(v - 1);
      NextOctet((v - 1) as bv8, v);
    }
  }

  lemma NextOctet(b: bv8, v: int)
    requires 0 < v < 256 && b as int == v - 1
    ensures v as bv8 == b + 1 && (b + 1) as int == v
  {}

  lemma SameByte(x: bv8, y: bv8)
    requires x as int == y as int
    ensures x == y
  {}

  /** The text in ASCII. */
  function Ascii(s: string): (r: seq<bv8>)
    requires forall i | 0 <= i < |s| :: s[i] as int < 128
    ensures |r| == |s|
  {
    seq(|s|, i requires 0 <= i < |s| => (s[i] as int) as bv8)
  }

  lemma AsciiAt(s: string, i: nat, b: bv8)
    requires forall k | 0 <= k < |s| :: s[k] as int < 128
    requires i < |s| && s[i] as int == b as int
    ensures Ascii(s)[i] == b
  {
    OctetBits(s[i] as int);
    SameByte((s[i] as int) as bv8, b);
  }

  lemma AsciiIs(s: string, b: seq<bv8>)
    requires |s| == |b| && forall i | 0 <= i < |s| :: s[i] as int < 128 && s[i] as int == b[i] as int
    ensures Ascii(s) == b
  {
    forall i | 0 <= i < |s|
      ensures Ascii(s)[i] == b[i]
    {
      AsciiAt(s, i, b[i]);
    }
  }

  // ---------- Exclusive or ----------

  function Xor(x: bv8, y: bv8): bv8 {
    x ^ y
  }

  lemma XorComm(x: bv8, y: bv8)
    ensures Xor(x, y) == Xor(y, x)
  {}

  lemma XorAssocBits(x: bv8, y: bv8, z: bv8)
    ensures (x ^ y) ^ z == x ^ (y ^ z)
  {}

  lemma XorAssoc(x: bv8, y: bv8, z: bv8)
    ensures Xor(Xor(x, y), z) == Xor(x, Xor(y, z))
  {
    XorAssocBits(x, y, z);
  }

  lemma XorZero()
    ensures forall a :: Xor(a, 0) == a && Xor(0, a) == a
  {}

  lemma XorSelf(x: bv8)
    ensures Xor(x, x) == 0
  {}

  lemma XorTwice(x: bv8, k: bv8)
    ensures Xor(Xor(x, k), k) == x
  {
    hide Xor;
    XorAssoc(x, k, k);
    XorSelf(k);
    XorZero();
  }

  // ---------- Big-endian numbers ----------

  function Pow256(n: nat): (r: nat)
    ensures r > 0
  {
    if n == 0 then 1 else 256 * Pow256(n - 1)
  }

  /** The last `n` bytes of `v`, most significant first. */
  function BigEndian(n: nat, v: nat): (s: seq<bv8>)
    ensures |s| == n
  {
    if n == 0 then [] else BigEndian(n - 1, v / 256) + [(v % 256) as bv8]
  }

  function FromBigEndian(s: seq<bv8>): nat {
    if s == [] then 0 else FromBigEndian(s[..|s| - 1]) * 256 + s[|s| - 1] as int
  }

  lemma {:induction false} BigEndianRoundTrip(n: nat, v: nat)
    requires v < Pow256(n)
    ensures FromBigEndian(BigEndian(n, v)) == v
  {
    if n > 0 {
      BigEndianRoundTrip(n - 1, v / 256);
      OctetBits(v % 256);
      var s := BigEndian(n, v);
      assert s[..|s| - 1] == BigEndian(n - 1, v / 256);
    }
  }

  lemma {:induction false} FromBigEndianBound(s: seq<bv8>)
    ensures FromBigEndian(s) < Pow256(|s|)
  {
    if s != [] {
      FromBigEndianBound(s[..|s| - 1]);
    }
  }

  lemma Pow256Values()
    ensures Pow256(2) == 0x1_0000 && Pow256(8) == SIZE_LIMIT
  {
    assert Pow256(4) == 0x1_0000_0000;
  }

  lemma NextByte(n: nat, v: nat, b: bv8, w: nat)
    requires w == 256 * v + b as int
    ensures BigEndian(n + 1, w) == BigEndian(n, v) + [b]
  {
    Split256(v, b as int, w);
    OctetBits(b as int);
    SameByte((w % 256) as bv8, b);
  }

  lemma Split256(v: nat, r: nat, w: nat)
    requires w == 256 * v + r && r < 256
    ensures w / 256 == v && w % 256 == r
  {}

  lemma NoBytes()
    ensures BigEndian(0, 0) == []
  {}
}
