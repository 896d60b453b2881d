/**
  What the readers deliver. `Reference` follows RFC 6455 section 5.4 on abstract frames; both byte
  readers do exactly that on the encoding of every legal frame sequence.
 */
module Delivery {
  import opened Bits
  import opened Frames
  import opened Options
  import opened Readers
  import opened Sequences

  datatype Frame = Frame(finRsvOpcode: bv8, payload: seq<bv8>)

  /** The message under construction: the first frame's opcode, and the fragments so far. */
  datatype Partial = Partial(finRsvOpcode: bv8, data: seq<bv8>)

  // ---------- Legal sequences (section 5.4) ----------

  predicate IsControl(f: Frame) {
    Opcode(f.finRsvOpcode) >= 8
  }

  /** Control frames are final; a data frame continues a message iff its opcode is 0. */
  predicate LegalFrame(f: Frame, inMessage: bool) {
    && |f.payload| < PAYLOAD_LIMIT
    && if IsControl(f) then Final(f.finRsvOpcode) && Opcode(f.finRsvOpcode) <= 10
       else inMessage == (Opcode(f.finRsvOpcode) == 0)
  }

  predicate InMessageAfter(f: Frame, inMessage: bool) {
    if IsControl(f) then inMessage else !Final(f.finRsvOpcode)
  }

  predicate Legal(fs: seq<Frame>, inMessage: bool) {
    fs == [] || (LegalFrame(fs[0], inMessage) && Legal(fs[1..], InMessageAfter(fs[0], inMessage)))
  }

  // ---------- The reference ----------

  function Collected(p: Option<Partial>, f: Frame): Partial {
    match p
    case None => Partial(AsFinal(f.finRsvOpcode), f.payload)
    case Some(q) => q.(data := q.data + f.payload)
  }

  function Size(p: Option<Partial>): nat {
    match p
    case None => 0
    case Some(q) => |q.data|
  }

  /** What is called back and sent for a sequence of frames and then the end of the stream. */
  function Reference(fs: seq<Frame>, p: Option<Partial>, closed: bool, max: nat): seq<Output> {
    if fs == [] then [OnError(EndOfStream)]
    else
      var f, op := fs[0], Opcode(fs[0].finRsvOpcode);
      if |f.payload| + Size(p) > max then TooBigOutputs(Conn(None, closed))
      else if op == 8 then CloseFrameOutputs(Conn(None, closed), |f.payload|, f.payload)
      else if op == 9 then [Send(PongOpcode(f.finRsvOpcode), f.payload), OnPing] + Reference(fs[1..], p, closed, max)
      else if op == 10 then [OnPong] + Reference(fs[1..], p, closed, max)
      else if !Final(f.finRsvOpcode) then Reference(fs[1..], Some(Collected(p, f)), closed, max)
      else
        var m := Collected(p, f);
        [OnMessage(m.finRsvOpcode, m.data)] + Reference(fs[1..], None, closed, max)
  }

  // ---------- Both readers follow the reference ----------

  /** The connection holds the partial message, and its length is below the wrap-around. */
  predicate Holds(conn: Conn, p: Option<Partial>, closed: bool) {
    && conn.closed == closed
    && Size(p) < SIZE_LIMIT
    && match p
       case None => conn.fragmented == None
       case Some(q) => conn.fragmented == Some(InMessage(q.finRsvOpcode, |q.data|, q.data))
  }

  /** The next partial message. */
  function After(p: Option<Partial>, f: Frame): Option<Partial> {
    if IsControl(f) then p else if Final(f.finRsvOpcode) then None else Some(Collected(p, f))
  }

  function Called(p: Option<Partial>, f: Frame): seq<Output> {
    var op := Opcode(f.finRsvOpcode);
    if op == 9 then [Send(PongOpcode(f.finRsvOpcode), f.payload), OnPing]
    else if op == 10 then [OnPong]
    else if !Final(f.finRsvOpcode) then []
    else [OnMessage(Collected(p, f).finRsvOpcode, Collected(p, f).data)]
  }

  lemma ReferenceStep(fs: seq<Frame>, p: Option<Partial>, closed: bool, max: nat)
    requires fs != [] && LegalFrame(fs[0], p.Some?)
    ensures var f := fs[0];
            Reference(fs, p, closed, max) ==
            if |f.payload| + Size(p) > max then TooBigOutputs(Conn(None, closed))
            else if Opcode(f.finRsvOpcode) == 8 then CloseFrameOutputs(Conn(None, closed), |f.payload|, f.payload)
            else Called(p, f) + Reference(fs[1..], After(p, f), closed, max)
  {
    ControlOpcodes(fs[0].finRsvOpcode);
  }

  lemma ControlOpcodes(fin: bv8)
    ensures Opcode(fin) == 8 || Opcode(fin) == 9 || Opcode(fin) == 10 <==> 8 <= Opcode(fin) <= 10
    ensures Opcode(fin) == 0 ==> Opcode(fin) < 8
    ensures Final(fin) ==> AsFinal(fin) == fin
  {}

  lemma Kinds(f: Frame, inMessage: bool)
    requires LegalFrame(f, inMessage)
    ensures var fin, op := f.finRsvOpcode, Opcode(f.finRsvOpcode);
            && (IsControl(f) ==> Final(fin) && op != 0 && (op == 8 || op == 9 || op == 10))
            && (!IsControl(f) ==> op != 8 && op != 9 && op != 10 && inMessage == (op == 0))
            && (Final(fin) ==> AsFinal(fin) == fin)
  {}

  lemma ExtendedExact(m: InMessage, length: nat, data: seq<bv8>)
    requires m.length + length < SIZE_LIMIT
    ensures Extended(m, length, data) == InMessage(m.finRsvOpcode, m.length + length, m.data + data)
  {}

  lemma CloseDependsOnClosed(a: Conn, b: Conn, length: nat, data: seq<bv8>)
    requires a.closed == b.closed
    ensures CloseFrameOutputs(a, length, data) == CloseFrameOutputs(b, length, data)
  {
    hide StatusBytes;
  }

  /** The step that the reference takes for a legal frame. */
  predicate Follows(step: Step, p: Option<Partial>, closed: bool, f: Frame) {
    if Opcode(f.finRsvOpcode) == 8 then
      step == Stop(CloseFrameOutputs(Conn(None, closed), |f.payload|, f.payload))
    else step.Continue? && step.outputs == Called(p, f) && Holds(step.conn, After(p, f), closed)
  }

  /** One legal frame that does not wrap around the length: the server does what the reference does. */
  lemma ServerAgrees(conn: Conn, p: Option<Partial>, closed: bool, f: Frame)
    requires Holds(conn, p, closed) && LegalFrame(f, p.Some?) && |f.payload| + Size(p) < SIZE_LIMIT
    ensures Follows(ServerStep(conn, f.finRsvOpcode, |f.payload|, f.payload), p, closed, f)
  {
    hide Opcode, Final, AsFinal, PongOpcode, CloseFrameOutputs, IsControl, LegalFrame, Extended;
    Kinds(f, p.Some?);
    CloseDependsOnClosed(conn, Conn(None, closed), |f.payload|, f.payload);
    if p.Some? {
      ExtendedExact(conn.fragmented.value, |f.payload|, f.payload);
    }
  }

  /** And so does the client. */
  lemma ClientAgrees(conn: Conn, p: Option<Partial>, closed: bool, f: Frame)
    requires Holds(conn, p, closed) && LegalFrame(f, p.Some?) && |f.payload| + Size(p) < SIZE_LIMIT
    ensures Follows(ClientStep(conn, f.finRsvOpcode, |f.payload|, f.payload), p, closed, f)
  {
    hide Opcode, Final, AsFinal, PongOpcode, CloseFrameOutputs, IsControl, LegalFrame, Extended;
    Kinds(f, p.Some?);
    CloseDependsOnClosed(conn, Conn(None, closed), |f.payload|, f.payload);
    if p.Some? {
      ExtendedExact(conn.fragmented.value, |f.payload|, f.payload);
    }
  }

  // ---------- Streams of frames ----------

  /** No message, together with a control frame inside it, reaches the wrap-around of its length. */
  predicate Fits(fs: seq<Frame>, p: Option<Partial>) {
    fs == [] || (|fs[0].payload| + Size(p) < SIZE_LIMIT && Fits(fs[1..], After(p, fs[0])))
  }

  /** The frames as a client sends them, each with its own mask. */
  function ClientStream(fs: seq<Frame>, masks: seq<Mask>): seq<bv8>
    requires |masks| == |fs|
  {
    if fs == [] then []
    else ClientFrame(fs[0].finRsvOpcode, masks[0], fs[0].payload) + ClientStream(fs[1..], masks[1..])
  }

  /** The frames as a server sends them. */
  function ServerStream(fs: seq<Frame>): seq<bv8> {
    if fs == [] then [] else ServerFrame(fs[0].finRsvOpcode, fs[0].payload) + ServerStream(fs[1..])
  }

  lemma ReadClientFrame(f: Frame, mask: Mask, more: seq<bv8>)
    requires |f.payload| < SIZE_LIMIT
    ensures var s := ClientFrame(f.finRsvOpcode, mask, f.payload) + more;
            var h := ReadHeader(s, true);
            && h == Header(f.finRsvOpcode, |f.payload|, mask + Masked(f.payload, mask) + more)
            && h.rest[..4] == mask && Masked(h.rest[4..4 + |f.payload|], mask) == f.payload
            && h.rest[4 + |f.payload|..] == more
  {
    hide LengthBytes, ReadHeader, Xor;
    var e, d := LengthBytes(|f.payload|, true), Masked(f.payload, mask);
    var rest := mask + d + more;
    assert ClientFrame(f.finRsvOpcode, mask, f.payload) + more == [f.finRsvOpcode] + e + rest;
    ReadWritten(f.finRsvOpcode, |f.payload|, true, rest);
    assert rest[4..4 + |f.payload|] == d && rest[..4] == mask;
    MaskedTwice(f.payload, mask);
  }

  lemma ReadServerFrame(f: Frame, more: seq<bv8>)
    requires |f.payload| < SIZE_LIMIT
    ensures var h := ReadHeader(ServerFrame(f.finRsvOpcode, f.payload) + more, false);
            && h == Header(f.finRsvOpcode, |f.payload|, f.payload + more)
            && h.rest[..|f.payload|] == f.payload && h.rest[|f.payload|..] == more
  {
    hide LengthBytes, ReadHeader;
    var e := LengthBytes(|f.payload|, false);
    assert ServerFrame(f.finRsvOpcode, f.payload) + more == [f.finRsvOpcode] + e + (f.payload + more);
    ReadWritten(f.finRsvOpcode, |f.payload|, false, f.payload + more);
  }

  /** A frame from a client, read by the server. */
  lemma ServerReadsFrame(conn: Conn, max: nat, f: Frame, mask: Mask, more: seq<bv8>)
    requires |f.payload| < PAYLOAD_LIMIT
    ensures ServerRun(conn, max, ClientFrame(f.finRsvOpcode, mask, f.payload) + more) ==
            if TooBig(conn, |f.payload|, max) then TooBigOutputs(conn)
            else ServerThen(ServerStep(conn, f.finRsvOpcode, |f.payload|, f.payload), max, more)
  {
    hide ReadHeader, ClientFrame, TooBig, ServerStep, Masked;
    ReadClientFrame(f, mask, more);
  }

  lemma ClientReadsFrame(conn: Conn, max: nat, f: Frame, more: seq<bv8>)
    requires |f.payload| < PAYLOAD_LIMIT
    ensures ClientRun(conn, max, ServerFrame(f.finRsvOpcode, f.payload) + more) ==
            if TooBig(conn, |f.payload|, max) then TooBigOutputs(conn)
            else ClientThen(ClientStep(conn, f.finRsvOpcode, |f.payload|, f.payload), max, more)
  {
    hide ReadHeader, ServerFrame, TooBig, ClientStep;
    ReadServerFrame(f, more);
  }

  lemma NoFrames(conn: Conn, max: nat)
    ensures ServerRun(conn, max, []) == ClientRun(conn, max, []) == [OnError(EndOfStream)]
  {}

  /** The size check of both readers is the intended one as long as the sum does not wrap around. */
  lemma SizeCheck(conn: Conn, p: Option<Partial>, closed: bool, length: nat, max: nat)
    requires Holds(conn, p, closed) && length + Size(p) < SIZE_LIMIT
    ensures TooBig(conn, length, max) <==> length + Size(p) > max
  {}

  /** ... and exactly then, or if what is left after wrapping is still too big. */
  lemma SizeCheckExact(conn: Conn, length: nat, max: nat)
    requires length < SIZE_LIMIT && PartialLength(conn) < SIZE_LIMIT && max < SIZE_LIMIT
    ensures var sum := length + PartialLength(conn);
            (TooBig(conn, length, max) <==> sum > max) <==> (sum < SIZE_LIMIT || sum - SIZE_LIMIT > max)
  {
    var sum := length + PartialLength(conn);
    if sum >= SIZE_LIMIT {
      assert sum % SIZE_LIMIT == sum - SIZE_LIMIT;
    }
  }

  /** The server's reader on any legal sequence from a client, under any masks. */
  lemma {:induction false} ServerFollowsReference(fs: seq<Frame>, masks: seq<Mask>, conn: Conn, p: Option<Partial>,
                                                  closed: bool, max: nat)
    requires |masks| == |fs| && Legal(fs, p.Some?) && Holds(conn, p, closed)
    requires Fits(fs, p)
    ensures ServerRun(conn, max, ClientStream(fs, masks)) == Reference(fs, p, closed, max)
  {
    hide ServerRun, ServerStep, ClientStep, ClientFrame, TooBig, Called, CloseFrameOutputs, Opcode, Final, Reference;
    if fs == [] {
      NoFrames(conn, max);
      ReferenceEnd(p, closed, max);
    } else {
      var f := fs[0];
      ServerReadsFrame(conn, max, f, masks[0], ClientStream(fs[1..], masks[1..]));
      SizeCheck(conn, p, closed, |f.payload|, max);
      ReferenceStep(fs, p, closed, max);
      if |f.payload| + Size(p) <= max {
        ServerAgrees(conn, p, closed, f);
        if Opcode(f.finRsvOpcode) != 8 {
          NextLegal(fs, p);
          ServerFollowsReference(fs[1..], masks[1..], ServerStep(conn, f.finRsvOpcode, |f.payload|, f.payload).conn,
                                 After(p, f), closed, max);
        }
      }
    }
  }

  lemma ReferenceEnd(p: Option<Partial>, closed: bool, max: nat)
    ensures Reference([], p, closed, max) == [OnError(EndOfStream)]
  {}

  lemma NextLegal(fs: seq<Frame>, p: Option<Partial>)
    requires fs != [] && Legal(fs, p.Some?)
    ensures Legal(fs[1..], After(p, fs[0]).Some?)
  {
    hide Opcode, Final, AsFinal;
  }

  /** The client's reader on any legal sequence from a server. */
  lemma {:induction false} ClientFollowsReference(fs: seq<Frame>, conn: Conn, p: Option<Partial>, closed: bool, max: nat)
    requires Legal(fs, p.Some?) && Holds(conn, p, closed)
    requires Fits(fs, p)
    ensures ClientRun(conn, max, ServerStream(fs)) == Reference(fs, p, closed, max)
  {
    hide ClientRun, ServerStep, ClientStep, ServerFrame, TooBig, Called, CloseFrameOutputs, Opcode, Final, Reference;
    if fs == [] {
      NoFrames(conn, max);
      ReferenceEnd(p, closed, max);
    } else {
      var f := fs[0];
      ClientReadsFrame(conn, max, f, ServerStream(fs[1..]));
      SizeCheck(conn, p, closed, |f.payload|, max);
      ReferenceStep(fs, p, closed, max);
      if |f.payload| + Size(p) <= max {
        ClientAgrees(conn, p, closed, f);
        if Opcode(f.finRsvOpcode) != 8 {
          NextLegal(fs, p);
          ClientFollowsReference(fs[1..], ClientStep(conn, f.finRsvOpcode, |f.payload|, f.payload).conn,
                                 After(p, f), closed, max);
        }
      }
    }
  }

  // ---------- What is delivered ----------

  datatype Text = Text(finRsvOpcode: bv8, data: seq<bv8>)

  /** The messages among the outputs. */
  function Delivered(outputs: seq<Output>): seq<Text> {
    if outputs == [] then []
    else MessageOf(outputs[0]) + Delivered(outputs[1..])
  }

  function MessageOf(output: Output): seq<Text> {
    match output
    case OnMessage(fin, data) => [Text(fin, data)]
    case _ => []
  }

  lemma {:induction false} DeliveredConcat(a: seq<Output>, b: seq<Output>)
    ensures Delivered(a + b) == Delivered(a) + Delivered(b)
  {
    if a == [] {
      assert a + b == b;
    } else {
      hide MessageOf;
      DeliveredConcat(a[1..], b);
      assert (a + b)[1..] == a[1..] + b && (a + b)[0] == a[0];
      Assoc(MessageOf(a[0]), Delivered(a[1..]), Delivered(b));
    }
  }

  /**
    The messages that a frame sequence carries: control frames are skipped, and each message is the
    concatenation of its fragments, in order, under the first fragment's opcode.
   */
  function Messages(fs: seq<Frame>, p: Option<Partial>): seq<Text> {
    if fs == [] then []
    else if IsControl(fs[0]) then Messages(fs[1..], p)
    else if Final(fs[0].finRsvOpcode) then
      [Text(Collected(p, fs[0]).finRsvOpcode, Collected(p, fs[0]).data)] + Messages(fs[1..], None)
    else Messages(fs[1..], Some(Collected(p, fs[0])))
  }

  /** No close frame, and no frame that exceeds the limit together with the message it arrives in. */
  predicate Uninterrupted(fs: seq<Frame>, p: Option<Partial>, max: nat) {
    fs == [] ||
    (Opcode(fs[0].finRsvOpcode) != 8 && |fs[0].payload| + Size(p) <= max && Uninterrupted(fs[1..], After(p, fs[0]), max))
  }

  lemma DeliveredStep(p: Option<Partial>, f: Frame)
    requires LegalFrame(f, p.Some?) && Opcode(f.finRsvOpcode) != 8
    ensures Delivered(Called(p, f)) ==
            if IsControl(f) || !Final(f.finRsvOpcode) then []
            else [Text(Collected(p, f).finRsvOpcode, Collected(p, f).data)]
  {
    ControlOpcodes(f.finRsvOpcode);
    hide Opcode, Final, Collected, AsFinal;
    if Opcode(f.finRsvOpcode) == 9 {
      assert Delivered([OnPing]) == [];
      assert Called(p, f)[1..] == [OnPing];
    }
  }

  lemma NothingDelivered(conn: Conn, length: nat, data: seq<bv8>)
    ensures Delivered(TooBigOutputs(conn)) == [] && Delivered(CloseFrameOutputs(conn, length, data)) == []
  {
    CloseDeliversNothing(conn, 1009, TOO_BIG);
    DeliveredConcat([OnError(MessageSize)], CloseOutputs(conn, 1009, TOO_BIG));
    if length >= 2 && |data| >= 2 {
      CloseDeliversNothing(conn, CloseStatus(data), data[2..]);
    } else {
      CloseDeliversNothing(conn, 0, data);
    }
  }

  lemma CloseDeliversNothing(conn: Conn, status: nat, reason: seq<bv8>)
    ensures Delivered(CloseOutputs(conn, status, reason)) == []
  {
    DeliveredConcat(if conn.closed then [] else [Send(136, StatusBytes(status) + reason)], [OnClose(status, reason)]);
  }

  /** What a legal frame contributes to the messages is what is called for it. */
  lemma MessagesStep(fs: seq<Frame>, p: Option<Partial>)
    requires fs != [] && LegalFrame(fs[0], p.Some?) && Opcode(fs[0].finRsvOpcode) != 8
    ensures Messages(fs, p) == Delivered(Called(p, fs[0])) + Messages(fs[1..], After(p, fs[0]))
  {
    hide Opcode, Final, Called, Collected, LegalFrame, Delivered, IsControl;
    DeliveredStep(p, fs[0]);
  }

  /** Messages arrive once each and in order; all of them, unless a close or an oversized frame ends the run. */
  lemma {:induction false} DeliversMessages(fs: seq<Frame>, p: Option<Partial>, closed: bool, max: nat)
    requires Legal(fs, p.Some?)
    ensures Delivered(Reference(fs, p, closed, max)) <= Messages(fs, p)
    ensures Uninterrupted(fs, p, max) ==> Delivered(Reference(fs, p, closed, max)) == Messages(fs, p)
  {
    hide Opcode, Final, Called, Reference, Collected, TooBigOutputs, CloseFrameOutputs, LegalFrame, Delivered, After, Messages;
    if fs == [] {
      ReferenceEnd(p, closed, max);
      NothingAtEnd(p);
    } else {
      var f := fs[0];
      ReferenceStep(fs, p, closed, max);
      NothingDelivered(Conn(None, closed), |f.payload|, f.payload);
      if |f.payload| + Size(p) <= max && Opcode(f.finRsvOpcode) != 8 {
        NextLegal(fs, p);
        DeliversMessages(fs[1..], After(p, f), closed, max);
        DeliveredConcat(Called(p, f), Reference(fs[1..], After(p, f), closed, max));
        MessagesStep(fs, p);
      }
    }
  }

  lemma NothingAtEnd(p: Option<Partial>)
    ensures Delivered([OnError(EndOfStream)]) == [] && Delivered([Overrun]) == [] && Messages([], p) == []
  {}

  /** What the server delivers of a legal sequence, in terms of the messages it carries. */
  lemma ServerDelivers(fs: seq<Frame>, masks: seq<Mask>, closed: bool, max: nat)
    requires |masks| == |fs| && Legal(fs, false) && Fits(fs, None)
    ensures var d := Delivered(ServerRun(Conn(None, closed), max, ClientStream(fs, masks)));
            d <= Messages(fs, None) && (Uninterrupted(fs, None, max) ==> d == Messages(fs, None))
  {
    hide ServerRun, Delivered, Messages, ClientStream, Legal, Fits, Uninterrupted, Reference;
    ServerFollowsReference(fs, masks, Conn(None, closed), None, closed, max);
    DeliversMessages(fs, None, closed, max);
  }

  lemma ClientDelivers(fs: seq<Frame>, closed: bool, max: nat)
    requires Legal(fs, false) && Fits(fs, None)
    ensures var d := Delivered(ClientRun(Conn(None, closed), max, ServerStream(fs)));
            d <= Messages(fs, None) && (Uninterrupted(fs, None, max) ==> d == Messages(fs, None))
  {
    hide ClientRun, Delivered, Messages, ServerStream, Legal, Fits, Uninterrupted, Reference;
    ClientFollowsReference(fs, Conn(None, closed), None, closed, max);
    DeliversMessages(fs, None, closed, max);
  }

  // ---------- The limit, on every stream ----------

  ghost predicate AllWithin(outputs: seq<Output>, max: nat) {
    forall i | 0 <= i < |outputs| && outputs[i].OnMessage? :: |outputs[i].data| <= max
  }

  lemma AllWithinConcat(a: seq<Output>, b: seq<Output>, max: nat)
    requires AllWithin(a, max) && AllWithin(b, max)
    ensures AllWithin(a + b, max)
  {}

  /** The recorded length of the partial message is its real one. */
  predicate Consistent(conn: Conn) {
    conn.fragmented.Some? ==> conn.fragmented.value.length == |conn.fragmented.value.data|
  }

  /** Nothing too long is called back, and the partial message grows by no more than the frame. */
  ghost predicate Within(step: Step, conn: Conn, n: nat, max: nat) {
    AllWithin(step.outputs, max)
    && (step.Continue? ==> Consistent(step.conn) && PartialLength(step.conn) <= PartialLength(conn) + n)
  }

  lemma ServerStepWithin(conn: Conn, fin: bv8, data: seq<bv8>, max: nat)
    requires Consistent(conn) && |data| + PartialLength(conn) < SIZE_LIMIT && !TooBig(conn, |data|, max)
    ensures Within(ServerStep(conn, fin, |data|, data), conn, |data|, max)
  {
    hide Opcode, Final, AsFinal, StatusBytes;
  }

  lemma ClientStepWithin(conn: Conn, fin: bv8, data: seq<bv8>, max: nat)
    requires Consistent(conn) && |data| + PartialLength(conn) < SIZE_LIMIT && !TooBig(conn, |data|, max)
    ensures Within(ClientStep(conn, fin, |data|, data), conn, |data|, max)
  {
    hide Opcode, Final, AsFinal, StatusBytes;
  }

  /** Whatever bytes arrive, legal or not, no message longer than the limit is delivered by the server. */
  lemma {:induction false} ServerLimit(conn: Conn, max: nat, s: seq<bv8>)
    requires Consistent(conn) && PartialLength(conn) + |s| < SIZE_LIMIT
    ensures AllWithin(ServerRun(conn, max, s), max)
    decreases |s|
  {
    hide ServerStep, ReadHeader, TooBig, StatusBytes, Masked;
    var h := ReadHeader(s, true);
    if h.Header? && !TooBig(conn, h.length, max) && |h.rest| >= 4 + h.length {
      var data := Masked(h.rest[4..4 + h.length], h.rest[..4]);
      ServerStepWithin(conn, h.finRsvOpcode, data, max);
      var step := ServerStep(conn, h.finRsvOpcode, h.length, data);
      assert ServerRun(conn, max, s) == ServerContent(conn, max, h.finRsvOpcode, h.length, h.rest)
          == ServerThen(step, max, h.rest[4 + h.length..]);
      if step.Continue? {
        ServerLimit(step.conn, max, h.rest[4 + h.length..]);
        AllWithinConcat(step.outputs, ServerRun(step.conn, max, h.rest[4 + h.length..]), max);
      }
    }
  }

  lemma {:induction false} ClientLimit(conn: Conn, max: nat, s: seq<bv8>)
    requires Consistent(conn) && PartialLength(conn) + |s| < SIZE_LIMIT
    ensures AllWithin(ClientRun(conn, max, s), max)
    decreases |s|
  {
    hide ClientStep, ReadHeader, TooBig, StatusBytes;
    var h := ReadHeader(s, false);
    if h.Header? && !TooBig(conn, h.length, max) && |h.rest| >= h.length {
      var data := h.rest[..h.length];
      ClientStepWithin(conn, h.finRsvOpcode, data, max);
      var step := ClientStep(conn, h.finRsvOpcode, h.length, data);
      assert ClientRun(conn, max, s) == ClientContent(conn, max, h.finRsvOpcode, h.length, h.rest)
          == ClientThen(step, max, h.rest[h.length..]);
      if step.Continue? {
        ClientLimit(step.conn, max, h.rest[h.length..]);
        AllWithinConcat(step.outputs, ClientRun(step.conn, max, h.rest[h.length..]), max);
      }
    }
  }
}
