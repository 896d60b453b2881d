/** src/nostril/proof.h: counting the leading zero bits of a hash (NIP-13). */
module ProofOfWork {
  import opened Bits

  function Pow2(n: nat): (r: nat)
    ensures r > 0
  {
    if n == 0 then 1 else 2 * Pow2(n - 1)
  }

  lemma TwiceProduct(x: nat, y: nat)
    ensures 2 * (x * y) == (2 * x) * y
  {}

  lemma {:induction false} Pow2Add(m: nat, n: nat)
    ensures Pow2(m + n) == Pow2(m) * Pow2(n)
  {
    if m > 0 {
      Pow2Add(m - 1, n);
      TwiceProduct(Pow2(m - 1), Pow2(n));
    }
  }

  lemma Pow2Monotone(m: nat, n: nat)
    requires m <= n
    ensures Pow2(m) <= Pow2(n)
  {
    Pow2Add(m, n - m);
    assert Pow2(n - m) >= 1;
    assert Pow2(m) * Pow2(n - m) >= Pow2(m) * 1;
  }

  function BitLength(v: nat): nat {
    if v == 0 then 0 else 1 + BitLength(v / 2)
  }

  lemma {:induction false} BitLengthBound(v: nat, k: nat)
    ensures BitLength(v) <= k <==> v < Pow2(k)
  {
    if v > 0 && k > 0 {
      BitLengthBound(v / 2, k - 1);
    }
  }

  function ZeroBits(b: bv8): (z: int)
    ensures z == 8 - BitLength(b as int)
  {
    8 - BitLength(b as int)
  }

  lemma Halved(b: bv8)
    ensures (b >> 1) as int == b as int / 2
    ensures b == 0 <==> b as int == 0
  {}

  /** zero_bits */
  method CountZeroBits(byte: bv8) returns (z: int)
    ensures z == ZeroBits(byte)
  {
    if byte == 0 {
      return 8;
    }
    var b, n := byte, 0;
    Halved(b);
    b := b >> 1;
    while b != 0
      invariant n + BitLength(b as int) + 1 == BitLength(byte as int)
      decreases b as int
    {
      Halved(b);
      n := n + 1;
      b := b >> 1;
    }
    z := 7 - n;
  }

  /** The number of zero bits before the first one bit. */
  function LeadingZeros(h: seq<bv8>): int {
    if h == [] then 0
    else if h[0] == 0 then 8 + LeadingZeros(h[1..])
    else ZeroBits(h[0])
  }

  /** The hash as a big-endian number. */
  function Value(h: seq<bv8>): (v: nat) {
    if h == [] then 0 else h[0] as int * Pow2(8 * (|h| - 1)) + Value(h[1..])
  }

  /** A byte with `n` bytes after it. */
  function AtPlace(b: bv8, n: nat): nat {
    b as int * Pow2(8 * n)
  }

  lemma NextPlace(b: bv8, n: nat)
    ensures AtPlace(b, 0) == b as int && AtPlace(b, n + 1) == 256 * AtPlace(b, n)
  {
    hide Pow2;
    Pow2Zero();
    Pow2Byte(8 * n);
    Factor(b as int, Pow2(8 * n));
  }

  lemma Factor(b: nat, p: nat)
    ensures b * (256 * p) == 256 * (b * p)
  {}

  lemma ValueFirst(h: seq<bv8>)
    ensures h != [] ==> Value(h) == AtPlace(h[0], |h| - 1) + Value(h[1..])
    ensures h == [] ==> Value(h) == 0
  {}

  lemma {:induction false} ValueLast(h: seq<bv8>)
    requires h != []
    ensures Value(h) == 256 * Value(h[..|h| - 1]) + h[|h| - 1] as int
  {
    hide AtPlace, Value;
    var n := |h| - 1;
    ValueFirst(h);
    ValueFirst(h[..n]);
    if n == 0 {
      assert h[..0] == [] && h[1..] == [];
      ValueFirst(h[1..]);
      NextPlace(h[0], 0);
    } else {
      ValueLast(h[1..]);
      assert h[1..][..n - 1] == h[..n][1..];
      NextPlace(h[0], n - 1);
    }
  }

  /** The first byte is the most significant one. */
  lemma {:induction false} ValueIs(h: seq<bv8>)
    ensures Value(h) == FromBigEndian(h)
  {
    if h != [] {
      ValueLast(h);
      ValueIs(h[..|h| - 1]);
    }
  }

  /** count_leading_zero_bits */
  method CountLeadingZeroBits(hash: seq<bv8>) returns (total: int)
    requires |hash| == 32
    ensures total == LeadingZeros(hash)
  {
    total := 0;
    var i := 0;
    assert hash[0..] == hash;
    while i < 32
      invariant i <= 32 && total + LeadingZeros(hash[i..]) == LeadingZeros(hash)
    {
      var bits := CountZeroBits(hash[i]);
      Halved(hash[i]);
      assert hash[i..][1..] == hash[i + 1..];
      total := total + bits;
      if bits != 8 {
        assert hash[i] != 0;
        return;
      }
      assert hash[i] == 0;
      i := i + 1;
    }
  }

  lemma Pow2Byte(n: nat)
    ensures Pow2(n + 8) == 256 * Pow2(n)
  {
    assert Pow2(8) == 256;
    Pow2Add(8, n);
  }

  lemma ByteRange(b: bv8)
    ensures 0 <= b as int < 256
  {}

  lemma {:induction false} ValueBound(h: seq<bv8>)
    ensures Value(h) < Pow2(8 * |h|)
  {
    hide Pow2;
    if h != [] {
      var n, b := 8 * (|h| - 1), h[0] as int;
      ValueBound(h[1..]);
      Pow2Byte(n);
      ByteRange(h[0]);
      LeadingDigit(b, Pow2(n), Value(h[1..]), 256);
    }
  }

  lemma LeadingByteIff(b: nat, n: nat, rest: nat, d: nat)
    requires 0 < b < 256 && rest < Pow2(n) && d <= n + 8
    ensures 8 - BitLength(b) >= d <==> b * Pow2(n) + rest < Pow2(n + 8 - d)
  {
    hide Pow2, BitLength;
    if d <= 8 {
      BitLengthBound(b, 8 - d);
      Pow2Add(8 - d, n);
      LeadingDigit(b, Pow2(n), rest, Pow2(8 - d));
    } else {
      Pow2Monotone(n + 8 - d, n);
      BitLengthBound(b, 0);
      Pow2Zero();
      assert b * Pow2(n) >= 1 * Pow2(n);
    }
  }

  lemma Pow2Zero()
    ensures Pow2(0) == 1
  {}

  /** At least `d` leading zeros means exactly that the number is below 2^(8n - d). */
  lemma {:induction false} LeadingZerosIff(h: seq<bv8>, d: nat)
    requires d <= 8 * |h|
    ensures LeadingZeros(h) >= d <==> Value(h) < Pow2(8 * |h| - d)
  {
    hide Pow2, BitLength;
    if h == [] {
      Pow2Zero();
    } else {
      var n, b := 8 * (|h| - 1), h[0] as int;
      Halved(h[0]);
      ByteRange(h[0]);
      ValueBound(h[1..]);
      if h[0] != 0 {
        LeadingByteIff(b, n, Value(h[1..]), d);
      } else if d <= 8 {
        assert b * Pow2(n) == 0;
        Pow2Monotone(n, n + 8 - d);
        ZerosNonNegative(h[1..]);
      } else {
        assert b * Pow2(n) == 0;
        LeadingZerosIff(h[1..], d - 8);
      }
    }
  }

  lemma {:induction false} ZerosNonNegative(h: seq<bv8>)
    ensures LeadingZeros(h) >= 0
  {
    hide Pow2, BitLength;
    if h != [] {
      ZerosNonNegative(h[1..]);
      BitLengthBound(h[0] as int, 8);
      ByteRange(h[0]);
      Pow2Byte(0);
      Pow2Zero();
    }
  }

  lemma LeadingDigit(b: nat, p: nat, r: nat, q: nat)
    requires r < p
    ensures b * p + r < q * p <==> b < q
  {
    if b < q {
      assert (b + 1) * p <= q * p;
    } else {
      assert q * p <= b * p;
    }
  }
}
