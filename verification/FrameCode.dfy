/**
  The loops of ext/Simple-WebSocket-Server-v2.0.2 that write frames, read extended lengths and
  remove the mask (client_ws.hpp and server_ws.hpp).
 */
module FrameCode {
  import opened Bits
  import opened Frames

  // ---------- Lengths ----------

  /** `length >> (8 * c)`. */
  function ShiftedDown(length: nat, c: nat): nat {
    if c == 0 then length else ShiftedDown(length / 256, c - 1)
  }

  function LowByte(v: nat): bv8 {
    (v % 256) as bv8
  }

  lemma BigEndianLast(n: nat, v: nat)
    requires n > 0
    ensures BigEndian(n, v) == BigEndian(n - 1, v / 256) + [LowByte(v)]
  {}

  lemma {:induction false} BigEndianFirst(n: nat, v: nat)
    requires n > 0
    ensures BigEndian(n, v) == [LowByte(ShiftedDown(v, n - 1))] + BigEndian(n - 1, v)
  {
    hide LowByte, BigEndian;
    BigEndianLast(n, v);
    if n > 1 {
      BigEndianFirst(n - 1, v / 256);
      BigEndianLast(n - 1, v);
    }
  }

  /** The extended length, most significant byte first. */
  method PutLength(out: seq<bv8>, length: nat, numBytes: nat) returns (r: seq<bv8>)
    ensures r == out + BigEndian(numBytes, length)
  {
    r := out;
    var c: int := numBytes - 1;
    while c != -1
      invariant -1 <= c < numBytes
      invariant r + BigEndian(c + 1, length) == out + BigEndian(numBytes, length)
    {
      hide BigEndian, LowByte;
      BigEndianFirst(c + 1, length);
      r := r + [LowByte(ShiftedDown(length, c))];
      c := c - 1;
    }
  }

  method PutHeader(finRsvOpcode: bv8, length: nat, masked: bool) returns (r: seq<bv8>)
    ensures r == [finRsvOpcode] + LengthBytes(length, masked)
  {
    hide BigEndian;
    var bit := if masked then 128 else 0;
    r := [finRsvOpcode];
    if length >= 126 {
      var numBytes: nat;
      if length > 0xffff {
        numBytes := 8;
        r := r + [(127 + bit) as bv8];
      } else {
        numBytes := 2;
        r := r + [(126 + bit) as bv8];
      }
      r := PutLength(r, length, numBytes);
    } else {
      r := r + [(length + bit) as bv8];
    }
  }

  /** The payload under the mask, and so also the payload again from its masked form. */
  method PutMasked(out: seq<bv8>, data: seq<bv8>, mask: Mask) returns (r: seq<bv8>)
    ensures r == out + Masked(data, mask)
  {
    hide Xor;
    r := out;
    for c := 0 to |data|
      invariant r == out + Masked(data, mask)[..c]
    {
      r := r + [Xor(data[c], mask[c % 4])];
    }
  }

  /** The client's `send`, up to the queue. */
  method ClientSend(finRsvOpcode: bv8, mask: Mask, payload: seq<bv8>) returns (frame: seq<bv8>)
    ensures frame == ClientFrame(finRsvOpcode, mask, payload)
  {
    hide LengthBytes, Masked;
    frame := PutHeader(finRsvOpcode, |payload|, true);
    for c := 0 to 4
      invariant frame == [finRsvOpcode] + LengthBytes(|payload|, true) + mask[..c]
    {
      frame := frame + [mask[c]];
    }
    assert mask[..4] == mask;
    frame := PutMasked(frame, payload, mask);
  }

  /** The server's `send`: the header and the payload are written one after the other. */
  method ServerSend(finRsvOpcode: bv8, payload: seq<bv8>) returns (header: seq<bv8>)
    ensures header + payload == ServerFrame(finRsvOpcode, payload)
  {
    hide LengthBytes;
    header := PutHeader(finRsvOpcode, |payload|, false);
  }

  lemma ShiftAdd(high: nat, p: nat, b: nat)
    ensures high * (256 * p) + b * p == (high * 256 + b) * p
  {}

  /** The length from its two or eight bytes; the sum stays below the limit of std::size_t. */
  method ReadLength(lengthBytes: seq<bv8>) returns (length: nat)
    ensures length == FromBigEndian(lengthBytes) < Pow256(|lengthBytes|)
  {
    hide FromBigEndian;
    length := 0;
    FromNothing();
    var numBytes := |lengthBytes|;
    for c := 0 to numBytes
      invariant length == FromBigEndian(lengthBytes[..c]) * Pow256(numBytes - c)
    {
      var b := lengthBytes[c] as int;
      FromBigEndianLast(lengthBytes, c);
      ShiftAdd(FromBigEndian(lengthBytes[..c]), Pow256(numBytes - 1 - c), b);
      length := length + b * Pow256(numBytes - 1 - c);
    }
    assert lengthBytes[..numBytes] == lengthBytes;
    FromBigEndianBound(lengthBytes);
  }

  lemma FromNothing()
    ensures FromBigEndian([]) == 0
  {}

  lemma FromBigEndianLast(s: seq<bv8>, c: nat)
    requires c < |s|
    ensures FromBigEndian(s[..c + 1]) == FromBigEndian(s[..c]) * 256 + s[c] as int
  {
    assert s[..c + 1][..c] == s[..c];
  }
}
