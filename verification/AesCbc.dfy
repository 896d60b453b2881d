/**
  The key schedule and the CBC mode of src/nostril/aes.c, against FIPS 197 section 5.2 and
  section 6.2 of NIST SP 800-38A.
 */
module AesCbc {
  import opened Aes
  import opened AesInverse
  import opened Bits
  import opened Fips197
  import opened Memory
  import opened Sequences

  // ---------- The key schedule ----------

  /** The source's table; entry 0 is never used. */
  function RconTable(i: nat): bv8
    requires i <= 10
  {
    if i == 0 then 0x8d else if i == 1 then 0x01 else if i == 2 then 0x02 else if i == 3 then 0x04
    else if i == 4 then 0x08 else if i == 5 then 0x10 else if i == 6 then 0x20 else if i == 7 then 0x40
    else if i == 8 then 0x80 else if i == 9 then 0x1b else 0x36
  }

  lemma {:induction false} RconTableIsRcon(i: nat)
    requires 1 <= i <= 10
    ensures RconTable(i) == Rcon(i)
  {
    if i > 1 {
      RconTableIsRcon(i - 1);
    }
  }

  ghost predicate FirstWords(w: seq<bv8>, key: Key, n: nat) {
    4 * n <= |w| && forall m | 0 <= m < n :: WordOf(w, m) == KeyWord(key, m)
  }

  lemma AllWords(w: seq<bv8>, key: Key)
    requires |w| == 240 && FirstWords(w, key, 60)
    ensures w == ExpandKey(key)
  {
    hide KeyWord;
    forall k | 0 <= k < 240
      ensures w[k] == ExpandKey(key)[k]
    {
      assert WordOf(w, k / 4) == KeyWord(key, k / 4);
    }
  }

  /** The word that is added to the one eight places back, computed in the source's `tempa`. */
  method Temp(prev: Word, i: nat) returns (t: Word)
    requires 8 <= i < 60
    ensures t == ScheduleCore(prev, i)
  {
    hide Sbox, Xor, Rcon;
    t := prev;
    if i % 8 == 0 {
      t := Word(t.b1, t.b2, t.b3, t.b0);
      t := Word(Sbox(t.b0), Sbox(t.b1), Sbox(t.b2), Sbox(t.b3));
      RconTableIsRcon(i / 8);
      XorZero();
      t := t.(b0 := Xor(t.b0, RconTable(i / 8)));
    }
    if i % 8 == 4 {
      t := Word(Sbox(t.b0), Sbox(t.b1), Sbox(t.b2), Sbox(t.b3));
    }
  }

  method KeyExpansion(roundKey: array<bv8>, key: Key)
    requires roundKey.Length == 240
    modifies roundKey
    ensures roundKey[..] == ExpandKey(key)
  {
    hide KeyWord, ScheduleCore, Xor, ExpandKey;
    // Words 0 to 7 are copied from the key.
    for i := 0 to 8
      invariant FirstWords(roundKey[..], key, i)
    {
      FirstKeyWord(key, i);
      Put(roundKey, key, i, Word(key[4 * i], key[4 * i + 1], key[4 * i + 2], key[4 * i + 3]));
    }
    // Every later word is made of the ones one and eight places before it.
    for i := 8 to 60
      invariant FirstWords(roundKey[..], key, i)
    {
      var t := Temp(WordOf(roundKey[..], i - 1), i);
      NextKeyWord(key, i);
      Put(roundKey, key, i, XorWord(WordOf(roundKey[..], i - 8), t));
    }
    AllWords(roundKey[..], key);
  }

  /** Stores word `i` of the schedule. */
  method Put(roundKey: array<bv8>, ghost key: Key, i: nat, x: Word)
    requires i < 60 && roundKey.Length == 240
    requires FirstWords(roundKey[..], key, i) && x == KeyWord(key, i)
    modifies roundKey
    ensures FirstWords(roundKey[..], key, i + 1)
  {
    hide KeyWord;
    ghost var before := roundKey[..];
    roundKey[4 * i] := x.b0;
    roundKey[4 * i + 1] := x.b1;
    roundKey[4 * i + 2] := x.b2;
    roundKey[4 * i + 3] := x.b3;
    forall m | 0 <= m < i + 1
      ensures WordOf(roundKey[..], m) == KeyWord(key, m)
    {
      assert m < i ==> WordOf(roundKey[..], m) == WordOf(before, m);
    }
  }

  lemma FirstKeyWord(key: Key, i: nat)
    requires i < 8
    ensures KeyWord(key, i) == WordOf(key, i)
  {}

  lemma NextKeyWord(key: Key, i: nat)
    requires i >= 8
    ensures KeyWord(key, i) == XorWord(KeyWord(key, i - 8), ScheduleCore(KeyWord(key, i - 1), i))
  {
    hide ScheduleCore, XorWord;
  }

  // ---------- The mode of operation ----------

  function XorBlock(a: Block, b: Block): Block {
    seq(16, i requires 0 <= i < 16 => Xor(a[i], b[i]))
  }

  /** The chaining value after the ciphertext `c`. */
  function Chain(iv: Block, c: seq<bv8>): Block
    requires |c| % 16 == 0
  {
    if c == [] then iv else c[|c| - 16..]
  }

  function CbcEncrypt(w: RoundKeys, iv: Block, p: seq<bv8>): (c: seq<bv8>)
    requires |p| % 16 == 0
    ensures |c| == |p|
  {
    if p == [] then []
    else
      var n := |p| - 16;
      var c := CbcEncrypt(w, iv, p[..n]);
      c + Cipher(XorBlock(p[n..], Chain(iv, c)), w)
  }

  function CbcDecrypt(w: RoundKeys, iv: Block, c: seq<bv8>): (p: seq<bv8>)
    requires |c| % 16 == 0
    ensures |p| == |c|
  {
    if c == [] then []
    else
      var n := |c| - 16;
      CbcDecrypt(w, iv, c[..n]) + XorBlock(InvCipher(c[n..], w), Chain(iv, c[..n]))
  }

  lemma XorBlockTwice(a: Block, b: Block)
    ensures XorBlock(XorBlock(a, b), b) == a
  {
    hide Xor;
    forall i | 0 <= i < 16
      ensures XorBlock(XorBlock(a, b), b)[i] == a[i]
    {
      XorTwice(a[i], b[i]);
    }
  }

  /** Decryption undoes encryption, for every round-key array, initialization vector and message. */
  lemma {:induction false} DecryptEncrypt(w: RoundKeys, iv: Block, p: seq<bv8>)
    requires |p| % 16 == 0
    ensures CbcDecrypt(w, iv, CbcEncrypt(w, iv, p)) == p
  {
    hide XorBlock, Cipher, InvCipher;
    if p != [] {
      var n := |p| - 16;
      var before := CbcEncrypt(w, iv, p[..n]);
      var x := XorBlock(p[n..], Chain(iv, before));
      var c := CbcEncrypt(w, iv, p);
      assert c[..n] == before && c[n..] == Cipher(x, w);
      DecryptEncrypt(w, iv, p[..n]);
      CipherInverse(x, w);
      XorBlockTwice(p[n..], Chain(iv, before));
    }
  }

  lemma EncryptLast(w: RoundKeys, iv: Block, p: seq<bv8>, block: Block)
    requires |p| % 16 == 0
    ensures var c := CbcEncrypt(w, iv, p);
            CbcEncrypt(w, iv, p + block) == c + Cipher(XorBlock(block, Chain(iv, c)), w)
  {
    hide XorBlock, Cipher, Chain;
    assert (p + block)[..|p|] == p && (p + block)[|p|..] == block;
  }

  lemma {:induction false} EncryptInParts(w: RoundKeys, iv: Block, p: seq<bv8>, q: seq<bv8>)
    requires |p| % 16 == 0 && |q| % 16 == 0
    ensures var c := CbcEncrypt(w, iv, p);
            CbcEncrypt(w, iv, p + q) == c + CbcEncrypt(w, Chain(iv, c), q)
  {
    hide XorBlock, Cipher, Chain, CbcEncrypt;
    var c := CbcEncrypt(w, iv, p);
    if q == [] {
      assert p + q == p;
      NoBlocks(w, Chain(iv, c));
    } else {
      var n := |q| - 16;
      var front, block := q[..n], q[n..];
      var d := CbcEncrypt(w, Chain(iv, c), front);
      EncryptInParts(w, iv, p, front);
      assert q == front + block;
      Assoc(p, front, block);
      EncryptLast(w, iv, p + front, block);
      EncryptLast(w, Chain(iv, c), front, block);
      ChainInParts(iv, c, d);
      Assoc(c, d, Cipher(XorBlock(block, Chain(iv, c + d)), w));
    }
  }

  lemma ChainInParts(iv: Block, c: seq<bv8>, d: seq<bv8>)
    requires |c| % 16 == 0 && |d| % 16 == 0
    ensures Chain(iv, c + d) == Chain(Chain(iv, c), d)
  {
    if d == [] {
      assert c + d == c;
    } else {
      assert (c + d)[|c + d| - 16..] == d[|d| - 16..];
    }
  }

  lemma DecryptLast(w: RoundKeys, iv: Block, c: seq<bv8>, block: Block)
    requires |c| % 16 == 0
    ensures CbcDecrypt(w, iv, c + block) == CbcDecrypt(w, iv, c) + XorBlock(InvCipher(block, w), Chain(iv, c))
  {
    hide XorBlock, InvCipher, Chain;
    assert (c + block)[..|c|] == c && (c + block)[|c|..] == block;
  }

  lemma {:induction false} DecryptInParts(w: RoundKeys, iv: Block, c: seq<bv8>, d: seq<bv8>)
    requires |c| % 16 == 0 && |d| % 16 == 0
    ensures CbcDecrypt(w, iv, c + d) == CbcDecrypt(w, iv, c) + CbcDecrypt(w, Chain(iv, c), d)
  {
    hide XorBlock, InvCipher, Chain, CbcDecrypt;
    if d == [] {
      assert c + d == c;
      NoBlocks(w, Chain(iv, c));
    } else {
      var n := |d| - 16;
      var front, block := d[..n], d[n..];
      DecryptInParts(w, iv, c, front);
      assert d == front + block;
      Assoc(c, front, block);
      DecryptLast(w, iv, c + front, block);
      DecryptLast(w, Chain(iv, c), front, block);
      ChainInParts(iv, c, front);
      Assoc(CbcDecrypt(w, iv, c), CbcDecrypt(w, Chain(iv, c), front), XorBlock(InvCipher(block, w), Chain(iv, c + front)));
    }
  }

  lemma EncryptNext(w: RoundKeys, iv: Block, p: seq<bv8>, i: nat)
    requires i % 16 == 0 && i + 16 <= |p|
    ensures var c := CbcEncrypt(w, iv, p[..i]);
            CbcEncrypt(w, iv, p[..i + 16]) == c + Cipher(XorBlock(p[i..i + 16], Chain(iv, c)), w)
  {
    hide XorBlock, Cipher, Chain;
    assert p[..i + 16][..i] == p[..i] && p[..i + 16][i..] == p[i..i + 16];
  }

  lemma DecryptNext(w: RoundKeys, iv: Block, c: seq<bv8>, i: nat)
    requires i % 16 == 0 && i + 16 <= |c|
    ensures CbcDecrypt(w, iv, c[..i + 16])
         == CbcDecrypt(w, iv, c[..i]) + XorBlock(InvCipher(c[i..i + 16], w), Chain(iv, c[..i]))
  {
    hide XorBlock, InvCipher, Chain;
    assert c[..i + 16][..i] == c[..i] && c[..i + 16][i..] == c[i..i + 16];
  }

  /** Section 6.2 of SP 800-38A, block by block: each is added to the ciphertext before it, or the vector. */
  lemma CbcBlock(w: RoundKeys, iv: Block, p: seq<bv8>, i: nat)
    requires |p| % 16 == 0 && i % 16 == 0 && i + 16 <= |p|
    ensures var c := CbcEncrypt(w, iv, p);
            var before: Block := if i == 0 then iv else c[i - 16..i];
            c[i..i + 16] == Cipher(seq(16, k requires 0 <= k < 16 => p[i + k] ^ before[k]), w)
  {
    hide Cipher, CbcEncrypt, Xor, Chain, XorBlock;
    var c := CbcEncrypt(w, iv, p);
    var front, block, rest := p[..i], p[i..i + 16], p[i + 16..];
    var d := CbcEncrypt(w, iv, front);
    var x := XorBlock(block, Chain(iv, d));
    assert p == front + (block + rest);
    EncryptInParts(w, iv, front, block + rest);
    EncryptInParts(w, Chain(iv, d), block, rest);
    OneBlock(w, Chain(iv, d), block);
    Middle(d, Cipher(x, w), CbcEncrypt(w, Chain(Chain(iv, d), Cipher(x, w)), rest));
    var before: Block := if i == 0 then iv else c[i - 16..i];
    assert Chain(iv, d) == before by {
      ChainIs(iv, d);
      if i > 0 {
        assert d[i - 16..] == c[..i][i - 16..] == c[i - 16..i];
      }
    }
    BlockSum(p, i, before);
  }

  lemma ChainIs(iv: Block, c: seq<bv8>)
    requires |c| % 16 == 0
    ensures Chain(iv, c) == if c == [] then iv else c[|c| - 16..]
  {}

  lemma OneBlock(w: RoundKeys, iv: Block, block: Block)
    ensures CbcEncrypt(w, iv, block) == Cipher(XorBlock(block, iv), w)
  {
    hide Cipher, XorBlock, CbcEncrypt, Chain;
    NoBlocks(w, iv);
    EncryptLast(w, iv, [], block);
    assert [] + block == block && [] + Cipher(XorBlock(block, iv), w) == Cipher(XorBlock(block, iv), w);
  }

  lemma Middle<T>(a: seq<T>, b: seq<T>, c: seq<T>)
    ensures (a + (b + c))[..|a|] == a && (a + (b + c))[|a|..|a| + |b|] == b
  {}

  lemma BlockSum(p: seq<bv8>, i: nat, before: Block)
    requires i + 16 <= |p|
    ensures XorBlock(p[i..i + 16], before) == seq(16, k requires 0 <= k < 16 => p[i + k] ^ before[k])
  {
    hide Xor;
    forall k | 0 <= k < 16
      ensures XorBlock(p[i..i + 16], before)[k] == p[i + k] ^ before[k]
    {
      XorIs(p[i + k], before[k]);
    }
  }

  lemma XorIs(a: bv8, b: bv8)
    ensures Xor(a, b) == a ^ b
  {}

  /** `iv` points 16 bytes into an array: the context's vector, or the previous ciphertext block. */
  method XorWithIv(buf: array<bv8>, off: nat, iv: array<bv8>, ivOff: nat)
    requires off + 16 <= buf.Length && ivOff + 16 <= iv.Length
    requires iv != buf || ivOff + 16 <= off
    modifies buf
    ensures buf[..] == Splice(old(buf[..]), off, XorBlock(old(buf[off..off + 16]), old(iv[ivOff..ivOff + 16])))
  {
    hide Xor;
    ghost var before := buf[..];
    ghost var v: Block, x: Block := iv[ivOff..ivOff + 16], buf[off..off + 16];
    for i := 0 to 16
      invariant forall k | 0 <= k < buf.Length ::
        buf[k] == if off <= k < off + i then Xor(before[k], v[k - off]) else before[k]
    {
      buf[off + i] := Xor(buf[off + i], iv[ivOff + i]);
    }
    SpliceAt(before, off, XorBlock(x, v), buf[..]);
  }

  class Context {
    const roundKey: array<bv8>
    const iv: array<bv8>

    ghost predicate Valid()
      reads this
    {
      roundKey.Length == 240 && iv.Length == 16 && roundKey != iv
    }

    /** AES_init_ctx_iv */
    constructor (key: Key, vector: Block)
      ensures Valid() && fresh(roundKey) && fresh(iv)
      ensures roundKey[..] == ExpandKey(key) && iv[..] == vector
    {
      roundKey := new bv8[240](_ => 0);
      iv := new bv8[16](_ => 0);
      new;
      KeyExpansion(roundKey, key);
      Copy(iv, 0, vector);
    }

    /** The body of the encryption loop. */
    method EncryptBlock(buf: array<bv8>, i: nat, ivPtr: array<bv8>, ivOff: nat)
      requires Valid() && i + 16 <= buf.Length && buf != roundKey && ivOff + 16 <= ivPtr.Length
      requires ivPtr != buf || ivOff + 16 <= i
      modifies buf
      ensures var x := XorBlock(old(buf[i..i + 16]), old(ivPtr[ivOff..ivOff + 16]));
              buf[..] == Splice(old(buf[..]), i, Cipher(x, roundKey[..]))
    {
      hide Cipher, XorBlock, Splice;
      ghost var x := XorBlock(buf[i..i + 16], ivPtr[ivOff..ivOff + 16]);
      Window(buf[..], i, x, Cipher(x, roundKey[..]));
      XorWithIv(buf, i, ivPtr, ivOff);
      CipherInPlace(buf, i, roundKey);
    }

    /** AES_CBC_encrypt_buffer on the first `length` bytes of `buf`. */
    method EncryptBuffer(buf: array<bv8>, length: nat)
      requires Valid() && length % 16 == 0 && length <= buf.Length && buf != roundKey && buf != iv
      modifies buf, iv
      ensures buf[..length] == CbcEncrypt(roundKey[..], old(iv[..]), old(buf[..length]))
      ensures buf[length..] == old(buf[length..])
      ensures iv[..] == Chain(old(iv[..]), buf[..length])
    {
      hide CbcEncrypt, Cipher, XorBlock, Splice, Chain;
      ghost var w, iv0, p := roundKey[..], iv[..], buf[..];
      NoBlocks(w, iv0);
      var ivPtr, ivOff := iv, 0;
      var i := 0;
      while i < length
        invariant i % 16 == 0 && i <= length
        invariant buf[..i] == CbcEncrypt(w, iv0, p[..i]) && buf[i..] == p[i..]
        invariant (ivPtr == iv && ivOff == 0) || (ivPtr == buf && ivOff == i - 16)
        invariant ivPtr[ivOff..ivOff + 16] == Chain(iv0, buf[..i])
        invariant iv[..] == iv0
      {
        ghost var before := buf[..];
        SameWindow(before, p, i, 16);
        EncryptedNext(w, iv0, p, before, i);
        ghost var block := Cipher(XorBlock(p[i..i + 16], Chain(iv0, before[..i])), w);
        EncryptBlock(buf, i, ivPtr, ivOff);
        assert buf[..] == Splice(before, i, block);
        ivPtr, ivOff := buf, i;
        i := i + 16;
      }
      Copy(iv, 0, ivPtr[ivOff..ivOff + 16]);
      Whole(old(iv[..]), ivPtr[ivOff..ivOff + 16]);
    }

    /** The body of the decryption loop. */
    method DecryptBlock(buf: array<bv8>, i: nat)
      requires Valid() && i + 16 <= buf.Length && buf != roundKey && buf != iv
      modifies buf, iv
      ensures var x := InvCipher(old(buf[i..i + 16]), roundKey[..]);
              buf[..] == Splice(old(buf[..]), i, XorBlock(x, old(iv[..])))
      ensures iv[..] == old(buf[i..i + 16])
    {
      hide InvCipher, XorBlock, Splice;
      var storeNextIv := buf[i..i + 16];
      ghost var x := InvCipher(storeNextIv, roundKey[..]);
      assert iv[0..16] == iv[..];
      Window(buf[..], i, x, XorBlock(x, iv[..]));
      InvCipherInPlace(buf, i, roundKey);
      XorWithIv(buf, i, iv, 0);
      Copy(iv, 0, storeNextIv);
      Whole(old(iv[..]), storeNextIv);
    }

    /** AES_CBC_decrypt_buffer on the first `length` bytes of `buf`. */
    method DecryptBuffer(buf: array<bv8>, length: nat)
      requires Valid() && length % 16 == 0 && length <= buf.Length && buf != roundKey && buf != iv
      modifies buf, iv
      ensures buf[..length] == CbcDecrypt(roundKey[..], old(iv[..]), old(buf[..length]))
      ensures buf[length..] == old(buf[length..])
      ensures iv[..] == Chain(old(iv[..]), old(buf[..length]))
    {
      hide CbcDecrypt, InvCipher, XorBlock, Splice, Chain;
      ghost var w, iv0, c := roundKey[..], iv[..], buf[..];
      NoBlocks(w, iv0);
      var i := 0;
      while i < length
        invariant i % 16 == 0 && i <= length
        invariant buf[..i] == CbcDecrypt(w, iv0, c[..i]) && buf[i..] == c[i..]
        invariant iv[..] == Chain(iv0, c[..i])
      {
        ghost var before := buf[..];
        ghost var block := XorBlock(InvCipher(c[i..i + 16], w), Chain(iv0, c[..i]));
        SameWindow(before, c, i, 16);
        DecryptBlock(buf, i);
        DecryptNext(w, iv0, c, i);
        Parts(before, i, block);
        SameRest(before, c, i);
        ChainNext(iv0, c, i);
        i := i + 16;
      }
    }
  }

  /** The encryption loop, once around. */
  lemma EncryptedNext(w: RoundKeys, iv: Block, p: seq<bv8>, before: seq<bv8>, i: nat)
    requires i % 16 == 0 && i + 16 <= |p| == |before|
    requires before[..i] == CbcEncrypt(w, iv, p[..i]) && before[i..] == p[i..]
    ensures var after := Splice(before, i, Cipher(XorBlock(p[i..i + 16], Chain(iv, before[..i])), w));
            && after[..i + 16] == CbcEncrypt(w, iv, p[..i + 16]) && after[i + 16..] == p[i + 16..]
            && after[i..i + 16] == Chain(iv, after[..i + 16])
  {
    hide CbcEncrypt, Cipher, XorBlock, Splice, Chain;
    var block := Cipher(XorBlock(p[i..i + 16], Chain(iv, before[..i])), w);
    EncryptNext(w, iv, p, i);
    Parts(before, i, block);
    SameRest(before, p, i);
    ChainLast(iv, before[..i], block);
  }

  lemma SameRest<T>(a: seq<T>, b: seq<T>, i: nat)
    requires |a| == |b| && i + 16 <= |a| && a[i..] == b[i..]
    ensures a[i + 16..] == b[i + 16..]
  {
    assert a[i + 16..] == a[i..][16..] && b[i + 16..] == b[i..][16..];
  }

  lemma NoBlocks(w: RoundKeys, iv: Block)
    ensures CbcEncrypt(w, iv, []) == [] && CbcDecrypt(w, iv, []) == [] && Chain(iv, []) == iv
  {}

  lemma ChainLast(iv: Block, c: seq<bv8>, last: Block)
    requires |c| % 16 == 0
    ensures Chain(iv, c + last) == last
  {}

  lemma ChainNext(iv: Block, c: seq<bv8>, i: nat)
    requires i % 16 == 0 && i + 16 <= |c|
    ensures Chain(iv, c[..i + 16]) == c[i..i + 16]
  {
    assert c[..i + 16][i..] == c[i..i + 16];
  }

  lemma Whole(s: Block, block: Block)
    ensures Splice(s, 0, block) == block
  {}

  /** What a splice of one block leaves before, in and after its window. */
  lemma Parts(s: seq<bv8>, i: nat, block: Block)
    requires i + 16 <= |s|
    ensures Splice(s, i, block)[i..i + 16] == block
    ensures Splice(s, i, block)[..i + 16] == s[..i] + block
    ensures Splice(s, i, block)[i + 16..] == s[i + 16..]
  {}
}
