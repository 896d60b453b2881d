/**
  The Secure Hash Standard, FIPS 180-4: the functions of section 4.1.2, the padding of
  section 5.1.1 and the hash computation of section 6.2.2, written as the standard words them.
  This is the reference that `Sha256` is proved against.
 */
module Fips180 {
  import opened Bits

  // ---------- Section 4.1.2: functions on 32-bit words ----------

  /** Addition modulo 2^32 (section 3.2). */
  function Plus(x: bv32, y: bv32): bv32 {
    x + y
  }

  function Ch(x: bv32, y: bv32, z: bv32): bv32 {
    (x & y) ^ (!x & z)
  }

  function Maj(x: bv32, y: bv32, z: bv32): bv32 {
    (x & y) ^ (x & z) ^ (y & z)
  }

  function BigSigma0(x: bv32): bv32 {
    x.RotateRight(2) ^ x.RotateRight(13) ^ x.RotateRight(22)
  }

  function BigSigma1(x: bv32): bv32 {
    x.RotateRight(6) ^ x.RotateRight(11) ^ x.RotateRight(25)
  }

  function SmallSigma0(x: bv32): bv32 {
    x.RotateRight(7) ^ x.RotateRight(18) ^ (x >> 3)
  }

  function SmallSigma1(x: bv32): bv32 {
    x.RotateRight(17) ^ x.RotateRight(19) ^ (x >> 10)
  }

  function Eighth(i: nat, k0: bv32, k1: bv32, k2: bv32, k3: bv32, k4: bv32, k5: bv32, k6: bv32, k7: bv32): bv32 {
    if i == 0 then k0 else if i == 1 then k1 else if i == 2 then k2 else if i == 3 then k3
    else if i == 4 then k4 else if i == 5 then k5 else if i == 6 then k6 else k7
  }

  /** Section 4.2.2: the 64 round constants. */
  function K(t: nat): bv32
    requires t < 64
  {
    if t < 8 then Eighth(t, 0x428a2f98, 0x71374491, 0xb5c0fbcf, 0xe9b5dba5, 0x3956c25b, 0x59f111f1, 0x923f82a4, 0xab1c5ed5)
    else if t < 16 then Eighth(t - 8, 0xd807aa98, 0x12835b01, 0x243185be, 0x550c7dc3, 0x72be5d74, 0x80deb1fe, 0x9bdc06a7, 0xc19bf174)
    else if t < 24 then Eighth(t - 16, 0xe49b69c1, 0xefbe4786, 0x0fc19dc6, 0x240ca1cc, 0x2de92c6f, 0x4a7484aa, 0x5cb0a9dc, 0x76f988da)
    else if t < 32 then Eighth(t - 24, 0x983e5152, 0xa831c66d, 0xb00327c8, 0xbf597fc7, 0xc6e00bf3, 0xd5a79147, 0x06ca6351, 0x14292967)
    else if t < 40 then Eighth(t - 32, 0x27b70a85, 0x2e1b2138, 0x4d2c6dfc, 0x53380d13, 0x650a7354, 0x766a0abb, 0x81c2c92e, 0x92722c85)
    else if t < 48 then Eighth(t - 40, 0xa2bfe8a1, 0xa81a664b, 0xc24b8b70, 0xc76c51a3, 0xd192e819, 0xd6990624, 0xf40e3585, 0x106aa070)
    else if t < 56 then Eighth(t - 48, 0x19a4c116, 0x1e376c08, 0x2748774c, 0x34b0bcb5, 0x391c0cb3, 0x4ed8aa4a, 0x5b9cca4f, 0x682e6ff3)
    else Eighth(t - 56, 0x748f82ee, 0x78a5636f, 0x84c87814, 0x8cc70208, 0x90befffa, 0xa4506ceb, 0xbef9a3f7, 0xc67178f2)
  }

  // Section 5.3.3: the initial hash value.
  const H0: Regs := Regs(0x6a09e667, 0xbb67ae85, 0x3c6ef372, 0xa54ff53a,
                         0x510e527f, 0x9b05688c, 0x1f83d9ab, 0x5be0cd19)

  /** The eight working variables a to h; also an intermediate hash value H(i). */
  datatype Regs = Regs(a: bv32, b: bv32, c: bv32, d: bv32, e: bv32, f: bv32, g: bv32, h: bv32)

  // ---------- Section 6.2.2: the compression function ----------

  /** The big-endian word made of bytes 4i to 4i+3 of a block (section 5.2.1). */
  function WordAt(block: seq<bv8>, i: nat): bv32
    requires |block| == 64 && i < 16
  {
    (block[4 * i] as bv32 << 24) | (block[4 * i + 1] as bv32 << 16) |
    (block[4 * i + 2] as bv32 << 8) | block[4 * i + 3] as bv32
  }

  /** Step 1: the message schedule, one word from the words 2, 7, 15 and 16 places before it. */
  function NextWord(w2: bv32, w7: bv32, w15: bv32, w16: bv32): bv32 {
    Plus(Plus(Plus(SmallSigma1(w2), w7), SmallSigma0(w15)), w16)
  }

  function Schedule(block: seq<bv8>, t: nat): bv32
    requires |block| == 64
  {
    if t < 16 then WordAt(block, t)
    else NextWord(Schedule(block, t - 2), Schedule(block, t - 7), Schedule(block, t - 15), Schedule(block, t - 16))
  }

  /** Step 3: one round on the working variables. */
  function Step(r: Regs, k: bv32, w: bv32): Regs {
    var t1 := Plus(Plus(Plus(Plus(r.h, BigSigma1(r.e)), Ch(r.e, r.f, r.g)), k), w);
    var t2 := Plus(BigSigma0(r.a), Maj(r.a, r.b, r.c));
    Regs(Plus(t1, t2), r.a, r.b, r.c, Plus(r.d, t1), r.e, r.f, r.g)
  }

  /** The working variables after the first `t` rounds. */
  function Rounds(h: Regs, block: seq<bv8>, t: nat): Regs
    requires |block| == 64 && t <= 64
  {
    if t == 0 then h else Step(Rounds(h, block, t - 1), K(t - 1), Schedule(block, t - 1))
  }

  function Add(x: Regs, y: Regs): Regs {
    Regs(Plus(x.a, y.a), Plus(x.b, y.b), Plus(x.c, y.c), Plus(x.d, y.d),
         Plus(x.e, y.e), Plus(x.f, y.f), Plus(x.g, y.g), Plus(x.h, y.h))
  }

  /** Step 4: the next intermediate hash value. */
  function Compress(h: Regs, block: seq<bv8>): Regs
    requires |block| == 64
  {
    Add(h, Rounds(h, block, 64))
  }

  /** The hash value after every 64-byte block of `blocks`, in order. */
  function HashBlocks(h: Regs, blocks: seq<bv8>): Regs
    requires |blocks| % 64 == 0
  {
    if blocks == [] then h
    else
      var n := |blocks| - 64;
      Compress(HashBlocks(h, blocks[..n]), blocks[n..])
  }

  // ---------- Section 5.1.1: padding ----------

  /** `k` zero bytes bring a message of `n` bytes plus the 0x80 byte to 8 short of a block. */
  predicate ReachesLengthField(n: nat, k: nat) {
    (n + 1 + k) % 64 == 56
  }

  function ZeroCount(n: nat): (k: nat)
    ensures k < 64 && ReachesLengthField(n, k)
  {
    (55 - n) % 64
  }

  /** The standard asks for the smallest such `k`. */
  lemma ZeroCountLeast(n: nat, k: nat)
    requires ReachesLengthField(n, k)
    ensures ZeroCount(n) <= k
  {
    var a, b := (n + 1 + k) / 64, (55 - n) / 64;
    assert n + 1 + k == 64 * a + 56 && 55 - n == 64 * b + ZeroCount(n);
    assert k == ZeroCount(n) + 64 * (a + b);
  }

  function Zeros(n: nat): (s: seq<bv8>)
    ensures |s| == n
  {
    seq(n, _ => 0)
  }

  // The standard defines the hash of messages of fewer than 2^64 bits.
  const MESSAGE_BYTES_LIMIT: nat := 0x2000_0000_0000_0000

  /** The one bit, the zero bits, and the length in bits as a 64-bit big-endian number. */
  function Pad(msg: seq<bv8>): (p: seq<bv8>)
    requires |msg| < MESSAGE_BYTES_LIMIT
    ensures |p| % 64 == 0
  {
    var k := ZeroCount(|msg|);
    WholeBlocks(|msg|, k);
    msg + [0x80] + Zeros(k) + BigEndian(8, 8 * |msg|)
  }

  lemma WholeBlocks(n: nat, k: nat)
    requires ReachesLengthField(n, k)
    ensures (n + 1 + k + 8) % 64 == 0
  {}

  // ---------- The digest ----------

  function WordBytes(w: bv32): (s: seq<bv8>)
    ensures |s| == 4
  {
    [((w >> 24) & 0xff) as bv8, ((w >> 16) & 0xff) as bv8, ((w >> 8) & 0xff) as bv8, (w & 0xff) as bv8]
  }

  function RegsBytes(r: Regs): (s: seq<bv8>)
    ensures |s| == 32
  {
    WordBytes(r.a) + WordBytes(r.b) + WordBytes(r.c) + WordBytes(r.d)
    + WordBytes(r.e) + WordBytes(r.f) + WordBytes(r.g) + WordBytes(r.h)
  }

  function Digest(msg: seq<bv8>): (d: seq<bv8>)
    requires |msg| < MESSAGE_BYTES_LIMIT
    ensures |d| == 32
  {
    RegsBytes(HashBlocks(H0, Pad(msg)))
  }
}
