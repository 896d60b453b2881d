/**
  The frame format of RFC 6455 section 5.2, as `send` writes it and `read_message` reads it in
  ext/Simple-WebSocket-Server-v2.0.2 (client_ws.hpp and server_ws.hpp). Frames from a client are
  masked, frames from a server are not.
 */
module Frames {
  import opened Bits

  // Section 5.2: the most significant bit of a 64-bit length is zero.
  const PAYLOAD_LIMIT: nat := 0x8000_0000_0000_0000

  type Mask = m: seq<bv8> | |m| == 4 witness [0, 0, 0, 0]

  // ---------- Masking (section 5.3) ----------

  function Masked(data: seq<bv8>, mask: Mask): (r: seq<bv8>)
    ensures |r| == |data|
  {
    seq(|data|, i requires 0 <= i < |data| => Xor(data[i], mask[i % 4]))
  }

  lemma MaskedTwice(data: seq<bv8>, mask: Mask)
    ensures Masked(Masked(data, mask), mask) == data
  {
    hide Xor;
    forall i | 0 <= i < |data|
      ensures Masked(Masked(data, mask), mask)[i] == data[i]
    {
      XorTwice(data[i], mask[i % 4]);
    }
  }

  // ---------- Headers ----------

  /** The second byte (with the mask bit on top) and the extended length of 0, 2 or 8 bytes. */
  function LengthBytes(length: nat, masked: bool): (s: seq<bv8>)
    ensures 1 <= |s| <= 9
  {
    var bit := if masked then 128 else 0;
    if length > 0xffff then [(127 + bit) as bv8] + BigEndian(8, length)
    else if length >= 126 then [(126 + bit) as bv8] + BigEndian(2, length)
    else [(length + bit) as bv8]
  }

  /** What the client's `send` puts on the wire. */
  function ClientFrame(finRsvOpcode: bv8, mask: Mask, payload: seq<bv8>): seq<bv8> {
    [finRsvOpcode] + LengthBytes(|payload|, true) + mask + Masked(payload, mask)
  }

  /** What the server's `send` puts on the wire. */
  function ServerFrame(finRsvOpcode: bv8, payload: seq<bv8>): seq<bv8> {
    [finRsvOpcode] + LengthBytes(|payload|, false) + payload
  }

  datatype Header =
    | Short                                                     // the stream ends within the header
    | WrongMask                                                 // masked where it must not be, or the reverse
    | Header(finRsvOpcode: bv8, length: nat, rest: seq<bv8>)    // and the bytes after the header

  /** The second byte of a header: the mask bit and a 7-bit length. */
  predicate MaskBit(b: bv8) {
    b >= 128
  }

  function ShortLength(b: bv8): (n: nat)
    ensures n < 128
  {
    LowSeven(b);
    (b & 127) as int
  }

  /** The stages of `read_message`: two bytes, then two or eight more for a long payload. */
  function ReadHeader(s: seq<bv8>, masked: bool): (h: Header)
    ensures h.Header? ==> |h.rest| + 2 <= |s| && h.length < SIZE_LIMIT
  {
    Pow256Values();
    if |s| < 2 then Short
    else if MaskBit(s[1]) != masked then WrongMask
    else
      var length := ShortLength(s[1]);
      if length == 126 then
        if |s| < 4 then Short
        else FromBigEndianBound(s[2..4]); Header(s[0], FromBigEndian(s[2..4]), s[4..])
      else if length == 127 then
        if |s| < 10 then Short
        else FromBigEndianBound(s[2..10]); Header(s[0], FromBigEndian(s[2..10]), s[10..])
      else Header(s[0], length, s[2..])
  }

  lemma SecondByte(v: int, masked: bool)
    requires 0 <= v < 128
    ensures var b := (v + if masked then 128 else 0) as bv8;
            ShortLength(b) == v && (MaskBit(b) <==> masked)
  {
    var n := v + if masked then 128 else 0;
    OctetBits(n);
    LowSeven(n as bv8);
  }

  lemma LowSeven(b: bv8)
    ensures (b & 127) as int == b as int % 128 && (b >= 128 <==> b as int >= 128)
  {}

  lemma ReadShort(first: bv8, second: bv8, rest: seq<bv8>, masked: bool)
    requires MaskBit(second) == masked && ShortLength(second) < 126
    ensures ReadHeader([first, second] + rest, masked) == Header(first, ShortLength(second), rest)
  {
    hide MaskBit, ShortLength;
    assert ([first, second] + rest)[2..] == rest;
  }

  lemma ReadExtended(first: bv8, second: bv8, bytes: seq<bv8>, rest: seq<bv8>, masked: bool)
    requires MaskBit(second) == masked
    requires (ShortLength(second) == 126 && |bytes| == 2) || (ShortLength(second) == 127 && |bytes| == 8)
    ensures ReadHeader([first, second] + bytes + rest, masked).Header?
    ensures ReadHeader([first, second] + bytes + rest, masked) == Header(first, FromBigEndian(bytes), rest)
  {
    hide MaskBit, ShortLength, FromBigEndian;
    var s, n := [first, second] + bytes + rest, |bytes|;
    assert s[0] == first && s[1] == second && s[2..2 + n] == bytes && s[2 + n..] == rest;
  }

  lemma TwoAndMore<T>(a: T, b: T, s: seq<T>)
    ensures [a] + ([b] + s) == [a, b] + s
  {}

  /** A long payload: the code 126 or 127, and the length in two or eight bytes. */
  lemma ReadLong(finRsvOpcode: bv8, length: nat, n: nat, second: bv8, masked: bool, rest: seq<bv8>)
    requires length < Pow256(n) && MaskBit(second) == masked
    requires (ShortLength(second) == 126 && n == 2) || (ShortLength(second) == 127 && n == 8)
    ensures ReadHeader([finRsvOpcode] + ([second] + BigEndian(n, length)) + rest, masked) == Header(finRsvOpcode, length, rest)
  {
    hide BigEndian, FromBigEndian, ReadHeader, MaskBit, ShortLength;
    TwoAndMore(finRsvOpcode, second, BigEndian(n, length));
    BigEndianRoundTrip(n, length);
    ReadExtended(finRsvOpcode, second, BigEndian(n, length), rest, masked);
  }

  /** Reading back what was written, with anything after it. */
  lemma ReadWritten(finRsvOpcode: bv8, length: nat, masked: bool, rest: seq<bv8>)
    requires length < SIZE_LIMIT
    ensures ReadHeader([finRsvOpcode] + LengthBytes(length, masked) + rest, masked) == Header(finRsvOpcode, length, rest)
  {
    hide BigEndian, ReadHeader, MaskBit, ShortLength;
    Pow256Values();
    var code := if length > 0xffff then 127 else if length >= 126 then 126 else length;
    var second := (code + if masked then 128 else 0) as bv8;
    SecondByte(code, masked);
    if length < 126 {
      assert [finRsvOpcode] + [second] == [finRsvOpcode, second];
      ReadShort(finRsvOpcode, second, rest, masked);
    } else {
      ReadLong(finRsvOpcode, length, if length > 0xffff then 8 else 2, second, masked, rest);
    }
  }

  /** Section 5.2: no header that reads as this length has fewer bytes than the one that is written. */
  lemma MinimalLength(s: seq<bv8>, masked: bool)
    ensures var h := ReadHeader(s, masked);
            h.Header? ==> |s| - |h.rest| >= 1 + |LengthBytes(h.length, masked)|
  {
    hide MaskBit, BigEndian, FromBigEndian;
    Pow256Values();
    if |s| >= 4 {
      FromBigEndianBound(s[2..4]);
    }
  }
}
