/**
  `aes_encrypt` of src/nostril/nostri.c: pad to whole blocks (section 6.3 of RFC 5652), then CBC.
  `make_encrypted_dm` carries the result as base64 text.
 */
module Encryption {
  import AesCbc
  import opened Base64
  import Base64Code
  import opened Bits
  import opened Cursors
  import opened Fips197
  import opened Options

  /** How many bytes are added: 1 to 16. */
  function PaddingLength(n: nat): (k: nat)
    ensures 1 <= k <= 16 && (n + k) % 16 == 0 && n + k == 16 * (n / 16 + 1)
  {
    16 - n % 16
  }

  /** Each added byte holds their number. */
  function Padded(msg: seq<bv8>): (p: seq<bv8>)
    ensures |p| % 16 == 0 && |p| == 16 * (|msg| / 16 + 1)
  {
    var k := PaddingLength(|msg|);
    msg + Repeat(k as bv8, k)
  }

  /** Drops as many bytes as the last one says. */
  function Unpadded(p: seq<bv8>): Option<seq<bv8>> {
    if p == [] || p[|p| - 1] as int > |p| then None
    else Some(p[..|p| - p[|p| - 1] as int])
  }

  /** Section 6.3 of RFC 5652: every byte that is added is the number of bytes that are added. */
  lemma PaddingBytes(msg: seq<bv8>)
    ensures var p := Padded(msg);
            && 1 <= |p| - |msg| <= 16 && |p| % 16 == 0 && p[..|msg|] == msg
            && (forall i | |msg| <= i < |p| :: p[i] as int == |p| - |msg|)
  {
    hide PaddingLength;
    OctetBits(PaddingLength(|msg|));
  }

  lemma UnpadPad(msg: seq<bv8>)
    ensures Unpadded(Padded(msg)) == Some(msg)
  {
    hide PaddingLength;
    OctetBits(PaddingLength(|msg|));
  }

  function Ciphertext(key: Key, iv: Block, msg: seq<bv8>): seq<bv8> {
    AesCbc.CbcEncrypt(ExpandKey(key), iv, Padded(msg))
  }

  function Plaintext(key: Key, iv: Block, c: seq<bv8>): Option<seq<bv8>>
    requires |c| % 16 == 0
  {
    Unpadded(AesCbc.CbcDecrypt(ExpandKey(key), iv, c))
  }

  /** aes_encrypt, given room for the padding after the message. */
  method AesEncrypt(key: Key, iv: Block, buf: array<bv8>, buflen: nat) returns (n: nat)
    requires buflen + PaddingLength(buflen) <= buf.Length
    modifies buf
    ensures n == 16 * (buflen / 16 + 1) <= buf.Length
    ensures buf[..n] == Ciphertext(key, iv, old(buf[..buflen])) == AesCbc.CbcEncrypt(ExpandKey(key), iv, Padded(old(buf[..buflen])))
    ensures buf[n..] == old(buf[n..])
  {
    hide AesCbc.CbcEncrypt, ExpandKey, PaddingLength;
    ghost var before := buf[..];
    var padding := PaddingLength(buflen);
    var cur := new Cursor(buf, buflen + padding);
    cur.p := cur.p + buflen;
    for i := 0 to padding
      invariant cur.Valid() && cur.p == buflen + i
      invariant cur.Written() == before[..buflen] + Repeat(padding as bv8, i)
      invariant buf[cur.end..] == before[cur.end..]
    {
      var ok := cur.PushByte(padding as bv8);
      assert Repeat(padding as bv8, i + 1) == Repeat(padding as bv8, i) + [padding as bv8];
    }
    n := cur.Length();
    assert buf[..n] == Padded(before[..buflen]);
    var ctx := new AesCbc.Context(key, iv);
    ctx.EncryptBuffer(buf, n);
  }

  /** The receiver's side: what was encrypted comes back, for every key, vector and message. */
  lemma DecryptRecovers(key: Key, iv: Block, msg: seq<bv8>)
    ensures |Ciphertext(key, iv, msg)| == 16 * (|msg| / 16 + 1)
    ensures Plaintext(key, iv, Ciphertext(key, iv, msg)) == Some(msg)
  {
    hide AesCbc.CbcEncrypt, AesCbc.CbcDecrypt, ExpandKey, Padded, Unpadded;
    AesCbc.DecryptEncrypt(ExpandKey(key), iv, Padded(msg));
    UnpadPad(msg);
  }

  /** The same through the base64 text of a direct message. */
  lemma TextRecovers(key: Key, iv: Block, msg: seq<bv8>)
    ensures var text := Encode(Base64Code.RFC4648, Ciphertext(key, iv, msg));
            var c := Decode(Base64Code.RFC4648, text);
            c.Some? && |c.value| % 16 == 0 && Plaintext(key, iv, c.value) == Some(msg)
  {
    hide Ciphertext, Plaintext, Encode, Decode;
    DecryptRecovers(key, iv, msg);
    Base64Code.RfcRoundTrip(Ciphertext(key, iv, msg));
  }
}
