/** The examples of RFC 6455 section 5.7, byte by byte, as they are written and as they are read. */
module FrameExample {
  import opened Bits
  import opened Delivery
  import opened Frames
  import opened Options
  import opened Readers
  import opened Sequences

  // "Hello"
  const HELLO: seq<bv8> := [0x48, 0x65, 0x6c, 0x6c, 0x6f]
  const KEY: Mask := [0x37, 0xfa, 0x21, 0x3d]
  const MASKED_HELLO: seq<bv8> := [0x7f, 0x9f, 0x4d, 0x51, 0x58]

  lemma HelloMasked()
    ensures Masked(HELLO, KEY) == MASKED_HELLO
  {}

  lemma Lengths()
    ensures LengthBytes(5, false) == [0x05] && LengthBytes(5, true) == [0x85]
    ensures LengthBytes(3, false) == [0x03] && LengthBytes(2, false) == [0x02]
  {}

  /** A single unmasked text message, two fragments of it, and a ping. */
  lemma UnmaskedFrames()
    ensures ServerFrame(0x81, HELLO) == [0x81, 0x05, 0x48, 0x65, 0x6c, 0x6c, 0x6f]
    ensures ServerFrame(0x01, HELLO[..3]) == [0x01, 0x03, 0x48, 0x65, 0x6c]
    ensures ServerFrame(0x80, HELLO[3..]) == [0x80, 0x02, 0x6c, 0x6f]
    ensures ServerFrame(0x89, HELLO) == [0x89, 0x05, 0x48, 0x65, 0x6c, 0x6c, 0x6f]
  {
    hide LengthBytes;
    Lengths();
  }

  /** A masked text message, and the masked pong. */
  lemma MaskedFrames()
    ensures ClientFrame(0x81, KEY, HELLO) == [0x81, 0x85, 0x37, 0xfa, 0x21, 0x3d, 0x7f, 0x9f, 0x4d, 0x51, 0x58]
    ensures ClientFrame(0x8a, KEY, HELLO) == [0x8a, 0x85, 0x37, 0xfa, 0x21, 0x3d, 0x7f, 0x9f, 0x4d, 0x51, 0x58]
  {
    hide LengthBytes, Masked;
    Lengths();
    HelloMasked();
  }

  /** 256 bytes and 64 kilobytes of binary data. */
  lemma LongFrames(data: seq<bv8>)
    ensures |data| == 256 ==> ServerFrame(0x82, data) == [0x82, 0x7e, 0x01, 0x00] + data
    ensures |data| == 65536 ==>
              ServerFrame(0x82, data) == [0x82, 0x7f, 0x00, 0x00, 0x00, 0x00, 0x00, 0x01, 0x00, 0x00] + data
  {
    hide BigEndian;
    LongLengths();
  }

  lemma LongLengths()
    ensures BigEndian(2, 256) == [0x01, 0x00]
    ensures BigEndian(8, 65536) == [0x00, 0x00, 0x00, 0x00, 0x00, 0x01, 0x00, 0x00]
  {
    hide BigEndian;
    NoBytes();
    NextByte(0, 0, 0x00, 0);
    NextByte(1, 0, 0x00, 0);
    NextByte(2, 0, 0x00, 0);
    NextByte(3, 0, 0x00, 0);
    NextByte(4, 0, 0x00, 0);
    NextByte(5, 0, 0x01, 1);
    NextByte(6, 1, 0x00, 256);
    NextByte(7, 256, 0x00, 65536);
    NextByte(0, 0, 0x01, 1);
    NextByte(1, 1, 0x00, 256);
  }

  /** The server on the masked message. */
  lemma ReadMasked(max: nat)
    requires max >= 5
    ensures ServerRun(Conn(None, false), max, [0x81, 0x85, 0x37, 0xfa, 0x21, 0x3d, 0x7f, 0x9f, 0x4d, 0x51, 0x58])
         == [OnMessage(0x81, HELLO), OnError(EndOfStream)]
  {
    hide ServerRun, ClientFrame, TooBig, ServerStep, HELLO;
    MaskedFrames();
    Steps();
    Small(max);
    NoFrames(Conn(None, false), max);
    ServerReadsFrame(Conn(None, false), max, Frame(0x81, HELLO), KEY, []);
    assert ClientFrame(0x81, KEY, HELLO) + [] == ClientFrame(0x81, KEY, HELLO);
  }

  /** The client on the ping. */
  lemma ReadPing(max: nat)
    requires max >= 5
    ensures ClientRun(Conn(None, false), max, [0x89, 0x05, 0x48, 0x65, 0x6c, 0x6c, 0x6f])
         == [Send(0x8a, HELLO), OnPing, OnError(EndOfStream)]
  {
    hide ClientRun, ServerFrame, TooBig, ClientStep, HELLO;
    UnmaskedFrames();
    Steps();
    Small(max);
    NoFrames(Conn(None, false), max);
    ClientReadsFrame(Conn(None, false), max, Frame(0x89, HELLO), []);
    assert ServerFrame(0x89, HELLO) + [] == ServerFrame(0x89, HELLO);
  }

  /** The client on the fragments. */
  lemma ReadFragments(max: nat)
    requires max >= 5
    ensures ClientRun(Conn(None, false), max, [0x01, 0x03, 0x48, 0x65, 0x6c] + [0x80, 0x02, 0x6c, 0x6f])
         == [OnMessage(0x81, HELLO), OnError(EndOfStream)]
  {
    hide ClientRun, ServerFrame, TooBig, ClientStep;
    UnmaskedFrames();
    Steps();
    Small(max);
    NoFrames(Conn(None, false), max);
    var second := ServerFrame(0x80, HELLO[3..]);
    ClientReadsFrame(Conn(None, false), max, Frame(0x01, HELLO[..3]), second);
    ClientReadsFrame(PARTLY, max, Frame(0x80, HELLO[3..]), []);
    assert second + [] == second;
  }

  // The client after the first fragment.
  const PARTLY := Conn(Some(InMessage(0x81, 3, HELLO[..3])), false)

  lemma Small(max: nat)
    requires max >= 5
    ensures |HELLO| == 5 && !TooBig(Conn(None, false), 5, max) && !TooBig(Conn(None, false), 3, max) && !TooBig(PARTLY, 2, max)
  {}

  lemma Steps()
    ensures ServerStep(Conn(None, false), 0x81, 5, HELLO) == Continue(Conn(None, false), [OnMessage(0x81, HELLO)])
    ensures ClientStep(Conn(None, false), 0x01, 3, HELLO[..3]) == Continue(PARTLY, [])
    ensures ClientStep(PARTLY, 0x80, 2, HELLO[3..]) == Continue(Conn(None, false), [OnMessage(0x81, HELLO)])
    ensures ClientStep(Conn(None, false), 0x89, 5, HELLO) == Continue(Conn(None, false), [Send(0x8a, HELLO), OnPing])
  {
    assert HELLO[..3] + HELLO[3..] == HELLO;
  }
}
