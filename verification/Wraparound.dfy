/**
  Lengths near 2^64 on the server (ext/Simple-WebSocket-Server-v2.0.2/server_ws.hpp:689-700): where the
  size check and the number of bytes to read wrap around, on streams that a client can send.
 */
module Wraparound {
  import opened Bits
  import opened Delivery
  import opened Frames
  import opened Options
  import opened Readers
  import opened Sequences

  const FRESH := Conn(None, false)
  const ZERO_MASK: Mask := [0, 0, 0, 0]

  /** A first fragment of text, and then the header of a continuation that announces `length` bytes. */
  function FragmentThenHeader(data: seq<bv8>, length: nat): seq<bv8> {
    ClientFrame(0x01, ZERO_MASK, data) + ([0x80] + LengthBytes(length, true))
  }

  lemma FragmentStep(data: seq<bv8>)
    requires |data| < PAYLOAD_LIMIT
    ensures ServerStep(FRESH, 0x01, |data|, data) == Continue(Conn(Some(InMessage(0x81, |data|, data)), false), [])
  {}

  lemma NotTooBig(length: nat, max: nat)
    requires length < SIZE_LIMIT && length <= max
    ensures !TooBig(FRESH, length, max)
  {}

  lemma FragmentRead(data: seq<bv8>, max: nat, rest: seq<bv8>)
    requires |data| < PAYLOAD_LIMIT && |data| <= max
    ensures ServerRun(FRESH, max, ClientFrame(0x01, ZERO_MASK, data) + rest) ==
            ServerRun(Conn(Some(InMessage(0x81, |data|, data)), false), max, rest)
  {
    hide ClientFrame, ServerStep, ServerRun, TooBig, TooBigOutputs;
    NotTooBig(|data|, max);
    ServerReadsFrame(FRESH, max, Frame(0x01, data), ZERO_MASK, rest);
    FragmentStep(data);
    var after := ServerRun(Conn(Some(InMessage(0x81, |data|, data)), false), max, rest);
    assert [] + after == after;
  }

  /** The server is then at the second header, with the first fragment kept. */
  lemma AfterFragment(data: seq<bv8>, length: nat, more: seq<bv8>, max: nat)
    requires |data| < PAYLOAD_LIMIT && |data| <= max && length < SIZE_LIMIT
    ensures ServerRun(FRESH, max, FragmentThenHeader(data, length) + more) ==
            ServerContent(Conn(Some(InMessage(0x81, |data|, data)), false), max, 0x80, length, more)
  {
    hide ClientFrame, LengthBytes, ReadHeader, ServerContent, ServerRun;
    var header := [0x80] + LengthBytes(length, true);
    Assoc(ClientFrame(0x01, ZERO_MASK, data), header, more);
    FragmentRead(data, max, header + more);
    ReadWritten(0x80, length, true, more);
    ContentAfterHeader(Conn(Some(InMessage(0x81, |data|, data)), false), max, header + more, 0x80, length, more);
  }

  lemma ContentAfterHeader(conn: Conn, max: nat, s: seq<bv8>, fin: bv8, length: nat, rest: seq<bv8>)
    requires ReadHeader(s, true) == Header(fin, length, rest)
    ensures ServerRun(conn, max, s) == ServerContent(conn, max, fin, length, rest)
  {
    hide ReadHeader, ServerContent;
  }

  // ---------- The size check ----------

  const TEN: seq<bv8> := seq(10, _ => 0x61)

  /**
    After a fragment of ten bytes, a frame that announces 2^64 - 5 more: the sum is 5 modulo 2^64, so the
    size check lets it pass whatever the limit is, and the server goes on to wait for those bytes.
   */
  lemma SizeCheckBypassed(max: nat)
    requires 10 <= max < SIZE_LIMIT
    ensures ServerRun(FRESH, max, FragmentThenHeader(TEN, SIZE_LIMIT - 5)) == [OnError(EndOfStream)]
    ensures |TEN| + (SIZE_LIMIT - 5) > max
  {
    hide ServerRun, FragmentThenHeader, ServerContent;
    var s := FragmentThenHeader(TEN, SIZE_LIMIT - 5);
    assert s + [] == s;
    AfterFragment(TEN, SIZE_LIMIT - 5, [], max);
    GoesOnToWait(Conn(Some(InMessage(0x81, |TEN|, TEN)), false), max);
  }

  lemma GoesOnToWait(conn: Conn, max: nat)
    requires PartialLength(conn) == 10 && max >= 5
    ensures ServerContent(conn, max, 0x80, SIZE_LIMIT - 5, []) == [OnError(EndOfStream)]
  {
    hide ServerStep, ServerThen, Masked, TooBigOutputs;
    assert (SIZE_LIMIT - 5 + 10) % SIZE_LIMIT == 5;
  }

  // ---------- The number of bytes to read ----------

  lemma NoOverrun(conn: Conn, status: nat, reason: seq<bv8>, length: nat, data: seq<bv8>)
    ensures Overrun !in CloseOutputs(conn, status, reason) && Overrun !in TooBigOutputs(conn)
    ensures Overrun !in CloseFrameOutputs(conn, length, data)
  {
    hide StatusBytes, CloseStatus;
  }

  lemma StepNoOverrun(conn: Conn, fin: bv8, length: nat, data: seq<bv8>)
    ensures Overrun !in ServerStep(conn, fin, length, data).outputs
  {
    hide Opcode, Final, AsFinal, StatusBytes, CloseStatus, Extended, CloseFrameOutputs;
    var message := if IsFragment(fin) then ServerFragment(conn, fin, length, data) else InMessage(fin, length, data);
    NoOverrun(conn, 0, [], length, message.data);
  }

  /**
    The next header announces 2^64 - 4 bytes or more, the size check lets it pass, and as many bytes are
    there as remain of `4 + length` after it has wrapped around.
   */
  predicate OverrunsHere(conn: Conn, max: nat, s: seq<bv8>) {
    var h := ReadHeader(s, true);
    h.Header? && h.length >= SIZE_LIMIT - 4 && !TooBig(conn, h.length, max) && |h.rest| >= h.length + 4 - SIZE_LIMIT
  }

  /** ... after `k` complete frames. */
  predicate OverrunsAfter(conn: Conn, max: nat, s: seq<bv8>, k: nat)
    decreases k
  {
    if k == 0 then OverrunsHere(conn, max, s)
    else
      var h := ReadHeader(s, true);
      && h.Header? && !TooBig(conn, h.length, max) && 4 + h.length < SIZE_LIMIT && 4 + h.length <= |h.rest|
      && var step := ServerStep(conn, h.finRsvOpcode, h.length, Masked(h.rest[4..4 + h.length], h.rest[..4]));
         step.Continue? && OverrunsAfter(step.conn, max, h.rest[4 + h.length..], k - 1)
  }

  /** The model stops following the code exactly on the streams that reach such a header. */
  lemma {:induction false} OverrunIff(conn: Conn, max: nat, s: seq<bv8>)
    ensures Overrun in ServerRun(conn, max, s) <==> exists k: nat :: OverrunsAfter(conn, max, s, k)
    decreases |s|
  {
    hide ReadHeader, TooBig, ServerStep, Masked, CloseOutputs, TooBigOutputs;
    NoOverrun(conn, 1002, NOT_MASKED, 0, []);
    var h := ReadHeader(s, true);
    if OverrunsHere(conn, max, s) {
      assert OverrunsAfter(conn, max, s, 0);
    }
    if h.Header? && !TooBig(conn, h.length, max) && 4 + h.length < SIZE_LIMIT && 4 + h.length <= |h.rest| {
      var step := ServerStep(conn, h.finRsvOpcode, h.length, Masked(h.rest[4..4 + h.length], h.rest[..4]));
      var tail := h.rest[4 + h.length..];
      StepNoOverrun(conn, h.finRsvOpcode, h.length, Masked(h.rest[4..4 + h.length], h.rest[..4]));
      assert ServerRun(conn, max, s) == ServerContent(conn, max, h.finRsvOpcode, h.length, h.rest)
          == ServerThen(step, max, tail);
      if step.Continue? {
        OverrunIff(step.conn, max, tail);
        if k: nat :| OverrunsAfter(conn, max, s, k) {
          Shifted(conn, max, s, step.conn, tail, k - 1);
        }
        if k: nat :| OverrunsAfter(step.conn, max, tail, k) {
          Shifted(conn, max, s, step.conn, tail, k);
        }
      }
    }
  }

  /** The first frame is complete, and the server is then in `next` with `tail` to read. */
  predicate OneFrame(conn: Conn, max: nat, s: seq<bv8>, next: Conn, tail: seq<bv8>) {
    var h := ReadHeader(s, true);
    && h.Header? && !TooBig(conn, h.length, max) && 4 + h.length < SIZE_LIMIT && 4 + h.length <= |h.rest|
    && var step := ServerStep(conn, h.finRsvOpcode, h.length, Masked(h.rest[4..4 + h.length], h.rest[..4]));
       step.Continue? && step.conn == next && h.rest[4 + h.length..] == tail
  }

  lemma Shifted(conn: Conn, max: nat, s: seq<bv8>, next: Conn, tail: seq<bv8>, k: nat)
    requires OneFrame(conn, max, s, next, tail)
    ensures !OverrunsAfter(conn, max, s, 0)
    ensures OverrunsAfter(conn, max, s, k + 1) <==> OverrunsAfter(next, max, tail, k)
  {
    hide ReadHeader, TooBig, ServerStep, Masked;
  }

  /** With the default limit, the first ten bytes are enough. */
  lemma OverrunExample()
    ensures [0x81] + LengthBytes(SIZE_LIMIT - 4, true) == [0x81, 0xff, 0xff, 0xff, 0xff, 0xff, 0xff, 0xff, 0xff, 0xfc]
    ensures ServerRun(FRESH, SIZE_LIMIT - 1, [0x81, 0xff, 0xff, 0xff, 0xff, 0xff, 0xff, 0xff, 0xff, 0xfc]) == [Overrun]
  {
    hide ServerRun, ReadHeader, BigEndian;
    LargeLength();
    var s := [0x81] + LengthBytes(SIZE_LIMIT - 4, true);
    assert s == [0x81, 0xff, 0xff, 0xff, 0xff, 0xff, 0xff, 0xff, 0xff, 0xfc];
    assert s + [] == s;
    ReadWritten(0x81, SIZE_LIMIT - 4, true, []);
    ContentAfterHeader(FRESH, SIZE_LIMIT - 1, s, 0x81, SIZE_LIMIT - 4, []);
  }

  lemma LargeLength()
    ensures BigEndian(8, SIZE_LIMIT - 4) == [0xff, 0xff, 0xff, 0xff, 0xff, 0xff, 0xff, 0xfc]
  {
    hide BigEndian;
    NoBytes();
    NextByte(0, 0, 0xff, 0xff);
    NextByte(1, 0xff, 0xff, 0xffff);
    NextByte(2, 0xffff, 0xff, 0xff_ffff);
    NextByte(3, 0xff_ffff, 0xff, 0xffff_ffff);
    NextByte(4, 0xffff_ffff, 0xff, 0xff_ffff_ffff);
    NextByte(5, 0xff_ffff_ffff, 0xff, 0xffff_ffff_ffff);
    NextByte(6, 0xffff_ffff_ffff, 0xff, 0xff_ffff_ffff_ffff);
    NextByte(7, 0xff_ffff_ffff_ffff, 0xfc, SIZE_LIMIT - 4);
  }

  // ---------- Which limits, and which streams, are safe ----------

  /** A connection whose limit is 0 never holds a byte of a partial message. */
  lemma {:induction false} ZeroLimit(conn: Conn, s: seq<bv8>)
    requires PartialLength(conn) == 0
    ensures Overrun !in ServerRun(conn, 0, s)
    decreases |s|
  {
    hide ReadHeader, ServerStep, Masked, CloseOutputs, TooBigOutputs;
    NoOverrun(conn, 1002, NOT_MASKED, 0, []);
    var h := ReadHeader(s, true);
    if h.Header? && h.length == 0 && |h.rest| >= 4 {
      var data := Masked(h.rest[4..4], h.rest[..4]);
      var step := ServerStep(conn, h.finRsvOpcode, 0, data);
      StepNoOverrun(conn, h.finRsvOpcode, 0, data);
      assert ServerRun(conn, 0, s) == ServerContent(conn, 0, h.finRsvOpcode, 0, h.rest) == ServerThen(step, 0, h.rest[4..]);
      if step.Continue? {
        EmptyStep(conn, h.finRsvOpcode, data);
        ZeroLimit(step.conn, h.rest[4..]);
      }
    }
  }

  lemma EmptyStep(conn: Conn, fin: bv8, data: seq<bv8>)
    requires PartialLength(conn) == 0
    ensures var step := ServerStep(conn, fin, 0, data);
            step.Continue? ==> PartialLength(step.conn) == 0
  {
    hide Opcode, Final, AsFinal, CloseFrameOutputs;
  }

  /** Some stream overruns a fresh connection iff its limit is not 0. */
  lemma OverrunPossibleIff(max: nat)
    ensures (exists s: seq<bv8> :: Overrun in ServerRun(FRESH, max, s)) <==> max >= 1
  {
    hide ServerRun, FragmentThenHeader;
    if max == 0 {
      forall s: seq<bv8>
        ensures Overrun !in ServerRun(FRESH, max, s)
      {
        ZeroLimit(FRESH, s);
      }
    } else {
      var s := FragmentThenHeader([0x61], SIZE_LIMIT - 1) + [0, 0, 0];
      AfterFragment([0x61], SIZE_LIMIT - 1, [0, 0, 0], max);
      assert SIZE_LIMIT % SIZE_LIMIT == 0 && (SIZE_LIMIT + 3) % SIZE_LIMIT == 3;
      assert ServerRun(FRESH, max, s) == [Overrun];
    }
  }

  /** No sequence of frames with payloads below 2^63, which RFC 6455 section 5.2 requires, does. */
  lemma {:induction false} FramesNeverOverrun(conn: Conn, max: nat, fs: seq<Frame>, masks: seq<Mask>)
    requires |masks| == |fs| && forall i | 0 <= i < |fs| :: |fs[i].payload| < PAYLOAD_LIMIT
    ensures Overrun !in ServerRun(conn, max, ClientStream(fs, masks))
    decreases |fs|
  {
    hide ServerRun, ServerStep, ClientFrame, TooBig, TooBigOutputs;
    if fs == [] {
      NoFrames(conn, max);
    } else {
      var f, more := fs[0], ClientStream(fs[1..], masks[1..]);
      ServerReadsFrame(conn, max, f, masks[0], more);
      NoOverrun(conn, 0, [], 0, []);
      var step := ServerStep(conn, f.finRsvOpcode, |f.payload|, f.payload);
      StepNoOverrun(conn, f.finRsvOpcode, |f.payload|, f.payload);
      if step.Continue? {
        FramesNeverOverrun(step.conn, max, fs[1..], masks[1..]);
      }
    }
  }
}
