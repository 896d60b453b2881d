/**
  The Advanced Encryption Standard, FIPS 197, for 256-bit keys: the field GF(2^8) of section 4, the
  cipher of section 5.1, the key expansion of section 5.2 and the inverse cipher of section 5.3.
  A state is 16 bytes, column after column, so row r of column c is byte 4c + r.
 */
module Fips197 {
  import opened Bits
  import opened Tables

  // ---------- Section 4: the field GF(2^8) ----------

  /** Section 4.1: the sum of field elements is their exclusive or. */
  function Xor4(x: bv8, y: bv8, z: bv8, w: bv8): bv8 {
    Xor(Xor(Xor(x, y), z), w)
  }

  /** Section 4.2.1: multiplication by x, that is by {02}. */
  function XTime(x: bv8): bv8 {
    Xor(x << 1, if HighBit(x) then 0x1b else 0)
  }

  predicate HighBit(x: bv8) {
    x & 0x80 != 0
  }

  /** Section 4.2: multiplication, one coefficient of `k` at a time. */
  function Times(k: bv8, x: bv8): bv8
    decreases k
  {
    if k == 0 then 0 else Xor(if k & 1 == 1 then x else 0, Times(k >> 1, XTime(x)))
  }

  // ---------- Sections 5.1.1 and 5.3.2: the S-box and its inverse ----------

  function SboxAt(i: Octet): Octet {
    if i < 0x10 then Pick(i, 0x63, 0x7c, 0x77, 0x7b, 0xf2, 0x6b, 0x6f, 0xc5, 0x30, 0x01, 0x67, 0x2b, 0xfe, 0xd7, 0xab, 0x76)
    else if i < 0x20 then Pick(i - 0x10, 0xca, 0x82, 0xc9, 0x7d, 0xfa, 0x59, 0x47, 0xf0, 0xad, 0xd4, 0xa2, 0xaf, 0x9c, 0xa4, 0x72, 0xc0)
    else if i < 0x30 then Pick(i - 0x20, 0xb7, 0xfd, 0x93, 0x26, 0x36, 0x3f, 0xf7, 0xcc, 0x34, 0xa5, 0xe5, 0xf1, 0x71, 0xd8, 0x31, 0x15)
    else if i < 0x40 then Pick(i - 0x30, 0x04, 0xc7, 0x23, 0xc3, 0x18, 0x96, 0x05, 0x9a, 0x07, 0x12, 0x80, 0xe2, 0xeb, 0x27, 0xb2, 0x75)
    else if i < 0x50 then Pick(i - 0x40, 0x09, 0x83, 0x2c, 0x1a, 0x1b, 0x6e, 0x5a, 0xa0, 0x52, 0x3b, 0xd6, 0xb3, 0x29, 0xe3, 0x2f, 0x84)
    else if i < 0x60 then Pick(i - 0x50, 0x53, 0xd1, 0x00, 0xed, 0x20, 0xfc, 0xb1, 0x5b, 0x6a, 0xcb, 0xbe, 0x39, 0x4a, 0x4c, 0x58, 0xcf)
    else if i < 0x70 then Pick(i - 0x60, 0xd0, 0xef, 0xaa, 0xfb, 0x43, 0x4d, 0x33, 0x85, 0x45, 0xf9, 0x02, 0x7f, 0x50, 0x3c, 0x9f, 0xa8)
    else if i < 0x80 then Pick(i - 0x70, 0x51, 0xa3, 0x40, 0x8f, 0x92, 0x9d, 0x38, 0xf5, 0xbc, 0xb6, 0xda, 0x21, 0x10, 0xff, 0xf3, 0xd2)
    else if i < 0x90 then Pick(i - 0x80, 0xcd, 0x0c, 0x13, 0xec, 0x5f, 0x97, 0x44, 0x17, 0xc4, 0xa7, 0x7e, 0x3d, 0x64, 0x5d, 0x19, 0x73)
    else if i < 0xa0 then Pick(i - 0x90, 0x60, 0x81, 0x4f, 0xdc, 0x22, 0x2a, 0x90, 0x88, 0x46, 0xee, 0xb8, 0x14, 0xde, 0x5e, 0x0b, 0xdb)
    else if i < 0xb0 then Pick(i - 0xa0, 0xe0, 0x32, 0x3a, 0x0a, 0x49, 0x06, 0x24, 0x5c, 0xc2, 0xd3, 0xac, 0x62, 0x91, 0x95, 0xe4, 0x79)
    else if i < 0xc0 then Pick(i - 0xb0, 0xe7, 0xc8, 0x37, 0x6d, 0x8d, 0xd5, 0x4e, 0xa9, 0x6c, 0x56, 0xf4, 0xea, 0x65, 0x7a, 0xae, 0x08)
    else if i < 0xd0 then Pick(i - 0xc0, 0xba, 0x78, 0x25, 0x2e, 0x1c, 0xa6, 0xb4, 0xc6, 0xe8, 0xdd, 0x74, 0x1f, 0x4b, 0xbd, 0x8b, 0x8a)
    else if i < 0xe0 then Pick(i - 0xd0, 0x70, 0x3e, 0xb5, 0x66, 0x48, 0x03, 0xf6, 0x0e, 0x61, 0x35, 0x57, 0xb9, 0x86, 0xc1, 0x1d, 0x9e)
    else if i < 0xf0 then Pick(i - 0xe0, 0xe1, 0xf8, 0x98, 0x11, 0x69, 0xd9, 0x8e, 0x94, 0x9b, 0x1e, 0x87, 0xe9, 0xce, 0x55, 0x28, 0xdf)
    else Pick(i - 0xf0, 0x8c, 0xa1, 0x89, 0x0d, 0xbf, 0xe6, 0x42, 0x68, 0x41, 0x99, 0x2d, 0x0f, 0xb0, 0x54, 0xbb, 0x16)
  }

  function InvSboxAt(i: Octet): Octet {
    if i < 0x10 then Pick(i, 0x52, 0x09, 0x6a, 0xd5, 0x30, 0x36, 0xa5, 0x38, 0xbf, 0x40, 0xa3, 0x9e, 0x81, 0xf3, 0xd7, 0xfb)
    else if i < 0x20 then Pick(i - 0x10, 0x7c, 0xe3, 0x39, 0x82, 0x9b, 0x2f, 0xff, 0x87, 0x34, 0x8e, 0x43, 0x44, 0xc4, 0xde, 0xe9, 0xcb)
    else if i < 0x30 then Pick(i - 0x20, 0x54, 0x7b, 0x94, 0x32, 0xa6, 0xc2, 0x23, 0x3d, 0xee, 0x4c, 0x95, 0x0b, 0x42, 0xfa, 0xc3, 0x4e)
    else if i < 0x40 then Pick(i - 0x30, 0x08, 0x2e, 0xa1, 0x66, 0x28, 0xd9, 0x24, 0xb2, 0x76, 0x5b, 0xa2, 0x49, 0x6d, 0x8b, 0xd1, 0x25)
    else if i < 0x50 then Pick(i - 0x40, 0x72, 0xf8, 0xf6, 0x64, 0x86, 0x68, 0x98, 0x16, 0xd4, 0xa4, 0x5c, 0xcc, 0x5d, 0x65, 0xb6, 0x92)
    else if i < 0x60 then Pick(i - 0x50, 0x6c, 0x70, 0x48, 0x50, 0xfd, 0xed, 0xb9, 0xda, 0x5e, 0x15, 0x46, 0x57, 0xa7, 0x8d, 0x9d, 0x84)
    else if i < 0x70 then Pick(i - 0x60, 0x90, 0xd8, 0xab, 0x00, 0x8c, 0xbc, 0xd3, 0x0a, 0xf7, 0xe4, 0x58, 0x05, 0xb8, 0xb3, 0x45, 0x06)
    else if i < 0x80 then Pick(i - 0x70, 0xd0, 0x2c, 0x1e, 0x8f, 0xca, 0x3f, 0x0f, 0x02, 0xc1, 0xaf, 0xbd, 0x03, 0x01, 0x13, 0x8a, 0x6b)
    else if i < 0x90 then Pick(i - 0x80, 0x3a, 0x91, 0x11, 0x41, 0x4f, 0x67, 0xdc, 0xea, 0x97, 0xf2, 0xcf, 0xce, 0xf0, 0xb4, 0xe6, 0x73)
    else if i < 0xa0 then Pick(i - 0x90, 0x96, 0xac, 0x74, 0x22, 0xe7, 0xad, 0x35, 0x85, 0xe2, 0xf9, 0x37, 0xe8, 0x1c, 0x75, 0xdf, 0x6e)
    else if i < 0xb0 then Pick(i - 0xa0, 0x47, 0xf1, 0x1a, 0x71, 0x1d, 0x29, 0xc5, 0x89, 0x6f, 0xb7, 0x62, 0x0e, 0xaa, 0x18, 0xbe, 0x1b)
    else if i < 0xc0 then Pick(i - 0xb0, 0xfc, 0x56, 0x3e, 0x4b, 0xc6, 0xd2, 0x79, 0x20, 0x9a, 0xdb, 0xc0, 0xfe, 0x78, 0xcd, 0x5a, 0xf4)
    else if i < 0xd0 then Pick(i - 0xc0, 0x1f, 0xdd, 0xa8, 0x33, 0x88, 0x07, 0xc7, 0x31, 0xb1, 0x12, 0x10, 0x59, 0x27, 0x80, 0xec, 0x5f)
    else if i < 0xe0 then Pick(i - 0xd0, 0x60, 0x51, 0x7f, 0xa9, 0x19, 0xb5, 0x4a, 0x0d, 0x2d, 0xe5, 0x7a, 0x9f, 0x93, 0xc9, 0x9c, 0xef)
    else if i < 0xf0 then Pick(i - 0xe0, 0xa0, 0xe0, 0x3b, 0x4d, 0xae, 0x2a, 0xf5, 0xb0, 0xc8, 0xeb, 0xbb, 0x3c, 0x83, 0x53, 0x99, 0x61)
    else Pick(i - 0xf0, 0x17, 0x2b, 0x04, 0x7e, 0xba, 0x77, 0xd6, 0x26, 0xe1, 0x69, 0x14, 0x63, 0x55, 0x21, 0x0c, 0x7d)
  }

  function Sbox(x: bv8): bv8 {
    SboxAt(x as int) as bv8
  }

  function InvSbox(x: bv8): bv8 {
    InvSboxAt(x as int) as bv8
  }

  // ---------- The state and its transformations ----------

  type Block = s: seq<bv8> | |s| == 16 witness seq(16, _ => 0)

  // Fourteen rounds, each with a 16-byte round key, and the initial one.
  type RoundKeys = w: seq<bv8> | |w| == 240 witness seq(240, _ => 0)

  const ROUNDS: nat := 14

  /** Sections 5.1.4 and 5.3.4. */
  function AddRoundKey(s: Block, w: RoundKeys, round: nat): Block
    requires round <= ROUNDS
  {
    seq(16, i requires 0 <= i < 16 => Xor(s[i], w[16 * round + i]))
  }

  function SubBytes(s: Block): Block {
    seq(16, i requires 0 <= i < 16 => Sbox(s[i]))
  }

  function InvSubBytes(s: Block): Block {
    seq(16, i requires 0 <= i < 16 => InvSbox(s[i]))
  }

  /** Section 5.1.2: row r is rotated r places to the left, so byte `i` comes from here. */
  function ShiftFrom(i: nat): (j: nat)
    requires i < 16
    ensures j < 16
  {
    4 * ((i / 4 + i % 4) % 4) + i % 4
  }

  function ShiftRows(s: Block): Block {
    seq(16, i requires 0 <= i < 16 => s[ShiftFrom(i)])
  }

  /** Section 5.3.1: and back to the right. */
  function InvShiftFrom(i: nat): (j: nat)
    requires i < 16
    ensures j < 16
  {
    4 * ((i / 4 + 4 - i % 4) % 4) + i % 4
  }

  function InvShiftRows(s: Block): Block {
    seq(16, i requires 0 <= i < 16 => s[InvShiftFrom(i)])
  }

  /** Section 5.1.3: a row of the product with the polynomial {03}x^3 + {01}x^2 + {01}x + {02}. */
  function MixRow(a: bv8, b: bv8, c: bv8, d: bv8): bv8 {
    Xor4(Times(2, a), Times(3, b), c, d)
  }

  /** Section 5.3.3: a row of the product with the inverse polynomial. */
  function InvMixRow(a: bv8, b: bv8, c: bv8, d: bv8): bv8 {
    Xor4(Times(0x0e, a), Times(0x0b, b), Times(0x0d, c), Times(0x09, d))
  }

  /** The index `k` places below index `i` in its column, wrapping around. */
  function Below(i: nat, k: nat): (j: nat)
    requires i < 16 && k < 4
    ensures j < 16
  {
    if i % 4 + k < 4 then i + k else i + k - 4
  }

  function MixColumns(s: Block): Block {
    seq(16, i requires 0 <= i < 16 => MixRow(s[i], s[Below(i, 1)], s[Below(i, 2)], s[Below(i, 3)]))
  }

  function InvMixColumns(s: Block): Block {
    seq(16, i requires 0 <= i < 16 => InvMixRow(s[i], s[Below(i, 1)], s[Below(i, 2)], s[Below(i, 3)]))
  }

  // ---------- Section 5.1: the cipher ----------

  /** The state after the initial round key and `r` full rounds. */
  function FullRounds(s: Block, w: RoundKeys, r: nat): Block
    requires r < ROUNDS
  {
    if r == 0 then AddRoundKey(s, w, 0)
    else AddRoundKey(MixColumns(ShiftRows(SubBytes(FullRounds(s, w, r - 1)))), w, r)
  }

  function Cipher(s: Block, w: RoundKeys): Block {
    AddRoundKey(ShiftRows(SubBytes(FullRounds(s, w, ROUNDS - 1))), w, ROUNDS)
  }

  // ---------- Section 5.3: the inverse cipher ----------

  /** The inverse rounds from `r` down to the end. */
  function InvRounds(s: Block, w: RoundKeys, r: nat): Block
    requires r < ROUNDS
    decreases r
  {
    var t := AddRoundKey(InvSubBytes(InvShiftRows(s)), w, r);
    if r == 0 then t else InvRounds(InvMixColumns(t), w, r - 1)
  }

  function InvCipher(s: Block, w: RoundKeys): Block {
    InvRounds(AddRoundKey(s, w, ROUNDS), w, ROUNDS - 1)
  }

  // ---------- Section 5.2: the key expansion ----------

  datatype Word = Word(b0: bv8, b1: bv8, b2: bv8, b3: bv8)

  type Key = k: seq<bv8> | |k| == 32 witness seq(32, _ => 0)

  function XorWord(x: Word, y: Word): Word {
    Word(Xor(x.b0, y.b0), Xor(x.b1, y.b1), Xor(x.b2, y.b2), Xor(x.b3, y.b3))
  }

  function SubWord(x: Word): Word {
    Word(Sbox(x.b0), Sbox(x.b1), Sbox(x.b2), Sbox(x.b3))
  }

  function RotWord(x: Word): Word {
    Word(x.b1, x.b2, x.b3, x.b0)
  }

  /** The round constant: the power x^(i-1). */
  function Rcon(i: nat): bv8
    requires 1 <= i
  {
    if i == 1 then 1 else XTime(Rcon(i - 1))
  }

  function WordOf(s: seq<bv8>, i: nat): Word
    requires 4 * i + 4 <= |s|
  {
    Word(s[4 * i], s[4 * i + 1], s[4 * i + 2], s[4 * i + 3])
  }

  /** What is added to the word eight places back. */
  function ScheduleCore(prev: Word, i: nat): Word
    requires 8 <= i
  {
    if i % 8 == 0 then XorWord(SubWord(RotWord(prev)), Word(Rcon(i / 8), 0, 0, 0))
    else if i % 8 == 4 then SubWord(prev)
    else prev
  }

  function KeyWord(key: Key, i: nat): Word {
    if i < 8 then WordOf(key, i)
    else XorWord(KeyWord(key, i - 8), ScheduleCore(KeyWord(key, i - 1), i))
  }

  function ByteOf(x: Word, j: nat): bv8
    requires j < 4
  {
    if j == 0 then x.b0 else if j == 1 then x.b1 else if j == 2 then x.b2 else x.b3
  }

  /** All sixty words of the schedule, as bytes. */
  function ExpandKey(key: Key): RoundKeys {
    seq(240, k requires 0 <= k < 240 => ByteOf(KeyWord(key, k / 4), k % 4))
  }
}
