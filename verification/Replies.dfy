/**
  What the readers do besides delivering messages: pongs, close frames and the calls that report them.
  It is stated by the bits of the frames that arrive (RFC 6455 sections 5.2 and 5.5), for every legal
  sequence of frames, and for each way in which it can end.
 */
module Replies {
  import opened Bits
  import opened Delivery
  import opened Frames
  import opened Options
  import opened Readers
  import opened Sequences

  /** A ping is answered with a pong of the same reserved bits and payload; pings and pongs are reported. */
  function Answer(f: Frame): seq<Output> {
    if f.finRsvOpcode & 0x0f == 0x09 then [Send((f.finRsvOpcode & 0x70) | 0x8a, f.payload), OnPing]
    else if f.finRsvOpcode & 0x0f == 0x0a then [OnPong]
    else []
  }

  function Answers(fs: seq<Frame>): seq<Output> {
    if fs == [] then [] else Answer(fs[0]) + Answers(fs[1..])
  }

  /** The first byte of a close frame is 0x88; it is sent unless one has been sent before. */
  function Closing(closed: bool, payload: seq<bv8>, status: int, reason: seq<bv8>): seq<Output> {
    (if closed then [] else [Send(0x88, payload)]) + [OnClose(status, reason)]
  }

  /**
    The answer to a close frame: its own payload, with the status and the reason reported. A payload of
    fewer than two bytes is taken as a reason, and answered with status 0 before it.
   */
  function CloseAnswer(closed: bool, payload: seq<bv8>): seq<Output> {
    if |payload| >= 2 then Closing(closed, payload, FromBigEndian(payload[..2]), payload[2..])
    else Closing(closed, [0, 0] + payload, 0, payload)
  }

  // ---------- Leaving out the messages ----------

  function NoMessage(output: Output): seq<Output> {
    if output.OnMessage? then [] else [output]
  }

  function Others(outputs: seq<Output>): seq<Output> {
    if outputs == [] then [] else NoMessage(outputs[0]) + Others(outputs[1..])
  }

  lemma {:induction false} OthersConcat(a: seq<Output>, b: seq<Output>)
    ensures Others(a + b) == Others(a) + Others(b)
  {
    if a == [] {
      assert a + b == b;
    } else {
      hide NoMessage;
      OthersConcat(a[1..], b);
      assert (a + b)[1..] == a[1..] + b && (a + b)[0] == a[0];
      Assoc(NoMessage(a[0]), Others(a[1..]), Others(b));
    }
  }

  lemma OthersOne(x: Output)
    ensures Others([x]) == NoMessage(x)
  {
    assert Others([]) == [];
  }

  lemma OthersTwo(x: Output, y: Output)
    requires !x.OnMessage? && !y.OnMessage?
    ensures Others([x, y]) == [x, y]
  {
    OthersOne(x);
    OthersOne(y);
    OthersConcat([x], [y]);
    assert [x] + [y] == [x, y];
  }

  lemma PongBits(fin: bv8)
    requires Final(fin) && Opcode(fin) == 9
    ensures PongOpcode(fin) == (fin & 0x70) | 0x8a
  {}

  lemma CalledIs(p: Option<Partial>, f: Frame)
    requires LegalFrame(f, p.Some?) && Opcode(f.finRsvOpcode) != 8
    ensures Others(Called(p, f)) == Answer(f)
  {
    Kinds(f, p.Some?);
    var fin := f.finRsvOpcode;
    if Opcode(fin) == 9 {
      PongBits(fin);
      OthersTwo(Send(PongOpcode(fin), f.payload), OnPing);
    } else if Opcode(fin) == 10 {
      OthersOne(OnPong);
    } else if Final(fin) {
      OthersOne(OnMessage(Collected(p, f).finRsvOpcode, Collected(p, f).data));
    }
  }

  // ---------- The connection after some frames ----------

  function ConnOf(p: Option<Partial>, closed: bool): Conn {
    match p
    case None => Conn(None, closed)
    case Some(q) => Conn(Some(InMessage(q.finRsvOpcode, |q.data|, q.data)), closed)
  }

  function AfterAll(p: Option<Partial>, fs: seq<Frame>): Option<Partial>
    decreases |fs|
  {
    if fs == [] then p else AfterAll(After(p, fs[0]), fs[1..])
  }

  lemma HoldsConn(conn: Conn, p: Option<Partial>, closed: bool)
    ensures Holds(conn, p, closed) <==> conn == ConnOf(p, closed) && Size(p) < SIZE_LIMIT
  {}

  lemma {:induction false} ServerAnswersThen(fs: seq<Frame>, masks: seq<Mask>, p: Option<Partial>, closed: bool, max: nat,
                                             more: seq<bv8>)
    requires |masks| == |fs| && Legal(fs, p.Some?) && Fits(fs, p) && Uninterrupted(fs, p, max) && Size(p) < SIZE_LIMIT
    ensures Others(ServerRun(ConnOf(p, closed), max, ClientStream(fs, masks) + more)) ==
            Answers(fs) + Others(ServerRun(ConnOf(AfterAll(p, fs), closed), max, more))
  {
    hide ServerRun, ServerStep, ClientFrame, TooBig, Called, CloseFrameOutputs, Opcode, Final, After, Others, Answer, ConnOf;
    if fs == [] {
      assert ClientStream(fs, masks) + more == more;
    } else {
      var f, rest, conn := fs[0], ClientStream(fs[1..], masks[1..]), ConnOf(p, closed);
      HoldsConn(conn, p, closed);
      SizeCheck(conn, p, closed, |f.payload|, max);
      ServerAgrees(conn, p, closed, f);
      var step := ServerStep(conn, f.finRsvOpcode, |f.payload|, f.payload);
      HoldsConn(step.conn, After(p, f), closed);
      Assoc(ClientFrame(f.finRsvOpcode, masks[0], f.payload), rest, more);
      ServerReadsFrame(conn, max, f, masks[0], rest + more);
      OthersConcat(step.outputs, ServerRun(step.conn, max, rest + more));
      CalledIs(p, f);
      NextLegal(fs, p);
      ServerAnswersThen(fs[1..], masks[1..], After(p, f), closed, max, more);
      Assoc(Answer(f), Answers(fs[1..]), Others(ServerRun(ConnOf(AfterAll(p, fs), closed), max, more)));
    }
  }

  lemma {:induction false} ClientAnswersThen(fs: seq<Frame>, p: Option<Partial>, closed: bool, max: nat, more: seq<bv8>)
    requires Legal(fs, p.Some?) && Fits(fs, p) && Uninterrupted(fs, p, max) && Size(p) < SIZE_LIMIT
    ensures Others(ClientRun(ConnOf(p, closed), max, ServerStream(fs) + more)) ==
            Answers(fs) + Others(ClientRun(ConnOf(AfterAll(p, fs), closed), max, more))
  {
    hide ClientRun, ClientStep, ServerFrame, TooBig, Called, CloseFrameOutputs, Opcode, Final, After, Others, Answer, ConnOf;
    if fs == [] {
      assert ServerStream(fs) + more == more;
    } else {
      var f, rest, conn := fs[0], ServerStream(fs[1..]), ConnOf(p, closed);
      HoldsConn(conn, p, closed);
      SizeCheck(conn, p, closed, |f.payload|, max);
      ClientAgrees(conn, p, closed, f);
      var step := ClientStep(conn, f.finRsvOpcode, |f.payload|, f.payload);
      HoldsConn(step.conn, After(p, f), closed);
      Assoc(ServerFrame(f.finRsvOpcode, f.payload), rest, more);
      ClientReadsFrame(conn, max, f, rest + more);
      OthersConcat(step.outputs, ClientRun(step.conn, max, rest + more));
      CalledIs(p, f);
      NextLegal(fs, p);
      ClientAnswersThen(fs[1..], After(p, f), closed, max, more);
      Assoc(Answer(f), Answers(fs[1..]), Others(ClientRun(ConnOf(AfterAll(p, fs), closed), max, more)));
    }
  }

  // ---------- The ends ----------

  lemma OthersClosing(closed: bool, payload: seq<bv8>, status: int, reason: seq<bv8>)
    ensures Others(Closing(closed, payload, status, reason)) == Closing(closed, payload, status, reason)
  {
    OthersOne(OnClose(status, reason));
    if !closed {
      OthersTwo(Send(0x88, payload), OnClose(status, reason));
      assert [Send(0x88, payload)] + [OnClose(status, reason)] == [Send(0x88, payload), OnClose(status, reason)];
    }
  }

  lemma ClosingIs(conn: Conn, status: nat, reason: seq<bv8>)
    ensures CloseOutputs(conn, status, reason) == Closing(conn.closed, StatusBytes(status) + reason, status, reason)
  {
    hide StatusBytes;
  }

  /** Splitting a status into its bytes and putting them together are inverse to each other. */
  lemma StatusIs(data: seq<bv8>)
    requires |data| >= 2
    ensures CloseStatus(data) == FromBigEndian(data[..2]) && StatusBytes(CloseStatus(data)) == data[..2]
  {
    hide FromBigEndian, StatusBytes;
    assert data[..2] == [data[0], data[1]];
    FromTwo(data[0], data[1]);
    TwoBytes(data[0], data[1]);
  }

  lemma FromTwo(a: bv8, b: bv8)
    ensures FromBigEndian([a, b]) == a as int * 256 + b as int
  {
    assert [a, b][..1] == [a] && [a][..0] == [];
    assert FromBigEndian([a]) == a as int;
  }

  lemma TwoBytes(a: bv8, b: bv8)
    ensures StatusBytes(a as int * 256 + b as int) == [a, b]
  {
    hide StatusBytes;
    SplitStatus(a as int, b as int);
    SameOctet(a);
    SameOctet(b);
  }

  lemma SplitStatus(hi: nat, lo: nat)
    requires hi < 256 && lo < 256
    ensures StatusBytes(hi * 256 + lo) == [hi as bv8, lo as bv8]
  {
    StatusParts(hi, lo);
  }

  lemma StatusParts(hi: nat, lo: nat)
    requires hi < 256 && lo < 256
    ensures (hi * 256 + lo) / 256 % 256 == hi && (hi * 256 + lo) % 256 == lo
  {}

  lemma SameOctet(b: bv8)
    ensures (b as int) as bv8 == b
  {
    OctetBits(b as int);
    SameByte((b as int) as bv8, b);
  }

  lemma CloseAnswerIs(conn: Conn, data: seq<bv8>)
    ensures CloseFrameOutputs(conn, |data|, data) == CloseAnswer(conn.closed, data)
  {
    hide StatusBytes, CloseStatus, FromBigEndian, CloseOutputs, Closing;
    if |data| >= 2 {
      StatusIs(data);
      ClosingIs(conn, CloseStatus(data), data[2..]);
      assert data[..2] + data[2..] == data;
    } else {
      ClosingIs(conn, 0, data);
      Statuses();
    }
  }

  lemma OthersCloseAnswer(closed: bool, data: seq<bv8>)
    ensures Others(CloseAnswer(closed, data)) == CloseAnswer(closed, data)
  {
    hide Others, Closing;
    if |data| >= 2 {
      OthersClosing(closed, data, FromBigEndian(data[..2]), data[2..]);
    } else {
      OthersClosing(closed, [0, 0] + data, 0, data);
    }
  }

  /** Too much for the limit: the error is reported, and the connection closed with 1009. */
  function TooBigAnswer(closed: bool): seq<Output> {
    [OnError(MessageSize)] + Closing(closed, [0x03, 0xf1] + Ascii("message too big"), 1009, Ascii("message too big"))
  }

  lemma Statuses()
    ensures StatusBytes(0) == [0x00, 0x00] && StatusBytes(1009) == [0x03, 0xf1] && StatusBytes(1002) == [0x03, 0xea]
  {
    hide StatusBytes;
    TwoBytes(0x00, 0x00);
    TwoBytes(0x03, 0xf1);
    TwoBytes(0x03, 0xea);
  }

  lemma TooBigAnswerIs(conn: Conn)
    ensures Others(TooBigOutputs(conn)) == TooBigAnswer(conn.closed)
  {
    hide Others, Closing, CloseOutputs, StatusBytes, Ascii;
    Statuses();
    ClosingIs(conn, 1009, TOO_BIG);
    OthersOne(OnError(MessageSize));
    OthersClosing(conn.closed, [0x03, 0xf1] + TOO_BIG, 1009, TOO_BIG);
    OthersConcat([OnError(MessageSize)], CloseOutputs(conn, 1009, TOO_BIG));
  }

  /** The wrong mask bit: the connection is closed with 1002, whatever else the bytes are. */
  lemma WrongMaskAnswer(conn: Conn, max: nat, s: seq<bv8>)
    requires |s| >= 2
    ensures s[1] < 0x80 ==>
              ServerRun(conn, max, s) == Closing(conn.closed, [0x03, 0xea] + Ascii("message from client not masked"),
                                                 1002, Ascii("message from client not masked"))
    ensures s[1] >= 0x80 ==>
              ClientRun(conn, max, s) == Closing(conn.closed, [0x03, 0xea] + Ascii("message from server masked"),
                                                 1002, Ascii("message from server masked"))
  {
    hide Closing, CloseOutputs, StatusBytes, Ascii, ServerContent, ClientContent;
    Statuses();
    ClosingIs(conn, 1002, NOT_MASKED);
    ClosingIs(conn, 1002, MASKED_REPLY);
  }

  /** How a sequence can go on after uninterrupted frames. */
  datatype End = EndOfBytes | Next(frame: Frame)

  /** A close frame, or a frame that is too big together with the message under construction. */
  ghost predicate Ends(p: Option<Partial>, f: Frame, max: nat) {
    && LegalFrame(f, p.Some?) && |f.payload| + Size(p) < SIZE_LIMIT
    && (Opcode(f.finRsvOpcode) == 8 || |f.payload| + Size(p) > max)
  }

  function EndAnswer(p: Option<Partial>, closed: bool, max: nat, end: End): seq<Output> {
    match end
    case EndOfBytes => [OnError(EndOfStream)]
    case Next(f) => if |f.payload| + Size(p) > max then TooBigAnswer(closed) else CloseAnswer(closed, f.payload)
  }

  lemma ServerEnd(p: Option<Partial>, closed: bool, max: nat, f: Frame, mask: Mask, more: seq<bv8>)
    requires Ends(p, f, max) && Size(p) < SIZE_LIMIT
    ensures Others(ServerRun(ConnOf(p, closed), max, ClientFrame(f.finRsvOpcode, mask, f.payload) + more)) ==
            EndAnswer(p, closed, max, Next(f))
  {
    hide ServerRun, ClientFrame, TooBig, Others, ConnOf, ServerStep, TooBigOutputs, TooBigAnswer, CloseAnswer, CloseFrameOutputs;
    var conn := ConnOf(p, closed);
    HoldsConn(conn, p, closed);
    SizeCheck(conn, p, closed, |f.payload|, max);
    ServerReadsFrame(conn, max, f, mask, more);
    TooBigAnswerIs(conn);
    ServerAgrees(conn, p, closed, f);
    CloseAnswerIs(Conn(None, closed), f.payload);
    OthersCloseAnswer(closed, f.payload);
  }

  lemma ClientEnd(p: Option<Partial>, closed: bool, max: nat, f: Frame, more: seq<bv8>)
    requires Ends(p, f, max) && Size(p) < SIZE_LIMIT
    ensures Others(ClientRun(ConnOf(p, closed), max, ServerFrame(f.finRsvOpcode, f.payload) + more)) ==
            EndAnswer(p, closed, max, Next(f))
  {
    hide ClientRun, ServerFrame, TooBig, Others, ConnOf, ClientStep, TooBigOutputs, TooBigAnswer, CloseAnswer, CloseFrameOutputs;
    var conn := ConnOf(p, closed);
    HoldsConn(conn, p, closed);
    SizeCheck(conn, p, closed, |f.payload|, max);
    ClientReadsFrame(conn, max, f, more);
    TooBigAnswerIs(conn);
    ClientAgrees(conn, p, closed, f);
    CloseAnswerIs(Conn(None, closed), f.payload);
    OthersCloseAnswer(closed, f.payload);
  }

  // ---------- Whole streams ----------

  /** Up to the end of the stream: one pong for each ping, in order, and nothing else is sent. */
  lemma ServerAnswers(fs: seq<Frame>, masks: seq<Mask>, closed: bool, max: nat)
    requires |masks| == |fs| && Legal(fs, false) && Fits(fs, None) && Uninterrupted(fs, None, max)
    ensures Others(ServerRun(Conn(None, closed), max, ClientStream(fs, masks))) == Answers(fs) + [OnError(EndOfStream)]
  {
    hide ServerRun, Others, Answers, ClientStream, Legal, Fits, Uninterrupted;
    ServerAnswersThen(fs, masks, None, closed, max, []);
    assert ClientStream(fs, masks) + [] == ClientStream(fs, masks);
    NoFrames(ConnOf(AfterAll(None, fs), closed), max);
    OthersOne(OnError(EndOfStream));
  }

  lemma ClientAnswers(fs: seq<Frame>, closed: bool, max: nat)
    requires Legal(fs, false) && Fits(fs, None) && Uninterrupted(fs, None, max)
    ensures Others(ClientRun(Conn(None, closed), max, ServerStream(fs))) == Answers(fs) + [OnError(EndOfStream)]
  {
    hide ClientRun, Others, Answers, ServerStream, Legal, Fits, Uninterrupted;
    ClientAnswersThen(fs, None, closed, max, []);
    assert ServerStream(fs) + [] == ServerStream(fs);
    NoFrames(ConnOf(AfterAll(None, fs), closed), max);
    OthersOne(OnError(EndOfStream));
  }

  /**
    Up to a close frame, or a frame that is too big: the pongs, and then one close frame with the calls
    that report it. Whatever follows on the stream is not read.
   */
  lemma ServerAnswersEnd(fs: seq<Frame>, masks: seq<Mask>, f: Frame, mask: Mask, more: seq<bv8>, closed: bool, max: nat)
    requires |masks| == |fs| && Legal(fs, false) && Fits(fs, None) && Uninterrupted(fs, None, max)
    requires Size(AfterAll(None, fs)) < SIZE_LIMIT && Ends(AfterAll(None, fs), f, max)
    ensures Others(ServerRun(Conn(None, closed), max,
                             ClientStream(fs, masks) + (ClientFrame(f.finRsvOpcode, mask, f.payload) + more))) ==
            Answers(fs) + EndAnswer(AfterAll(None, fs), closed, max, Next(f))
  {
    hide ServerRun, Others, Answers, ClientStream, ClientFrame, Legal, Fits, Uninterrupted, EndAnswer, Ends, AfterAll;
    ServerAnswersThen(fs, masks, None, closed, max, ClientFrame(f.finRsvOpcode, mask, f.payload) + more);
    ServerEnd(AfterAll(None, fs), closed, max, f, mask, more);
  }

  lemma ClientAnswersEnd(fs: seq<Frame>, f: Frame, more: seq<bv8>, closed: bool, max: nat)
    requires Legal(fs, false) && Fits(fs, None) && Uninterrupted(fs, None, max)
    requires Size(AfterAll(None, fs)) < SIZE_LIMIT && Ends(AfterAll(None, fs), f, max)
    ensures Others(ClientRun(Conn(None, closed), max, ServerStream(fs) + (ServerFrame(f.finRsvOpcode, f.payload) + more))) ==
            Answers(fs) + EndAnswer(AfterAll(None, fs), closed, max, Next(f))
  {
    hide ClientRun, Others, Answers, ServerStream, ServerFrame, Legal, Fits, Uninterrupted, EndAnswer, Ends, AfterAll;
    ClientAnswersThen(fs, None, closed, max, ServerFrame(f.finRsvOpcode, f.payload) + more);
    ClientEnd(AfterAll(None, fs), closed, max, f, more);
  }
}
