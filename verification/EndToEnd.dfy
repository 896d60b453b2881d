/**
  From `send` at one end to `on_message` at the other: the send queue and the reader together, in both
  directions. At every moment of a run in which no write has failed, the receiver has been given a
  prefix of what was sent, and all of it once the queue is empty.
 */
module EndToEnd {
  import opened Bits
  import opened Delivery
  import opened Frames
  import opened Options
  import opened Readers
  import opened Sequences
  import Fragments
  import Queue = SendQueues

  // ---------- A reader on part of a stream ----------

  lemma HeaderStable(s: seq<bv8>, more: seq<bv8>, masked: bool)
    ensures (ReadHeader(s, masked).WrongMask? ==> ReadHeader(s + more, masked).WrongMask?)
    ensures var h := ReadHeader(s, masked);
            h.Header? ==> ReadHeader(s + more, masked) == Header(h.finRsvOpcode, h.length, h.rest + more)
  {
    hide FromBigEndian, MaskBit, ShortLength;
    var t := s + more;
    if |s| >= 2 {
      assert t[0] == s[0] && t[1] == s[1] && t[2..] == s[2..] + more;
    }
    if |s| >= 4 {
      assert t[2..4] == s[2..4] && t[4..] == s[4..] + more;
    }
    if |s| >= 10 {
      assert t[2..10] == s[2..10] && t[10..] == s[10..] + more;
    }
  }

  // ---------- The server ----------

  lemma PayloadStable<T>(rest: seq<T>, more: seq<T>, k: nat)
    requires 4 + k <= |rest|
    ensures (rest + more)[..4] == rest[..4] && (rest + more)[4..4 + k] == rest[4..4 + k]
    ensures (rest + more)[4 + k..] == rest[4 + k..] + more
  {}

  /** The server delivers nothing on part of a stream that it would not deliver on all of it. */
  lemma {:induction false} ServerMonotone(conn: Conn, max: nat, s: seq<bv8>, more: seq<bv8>)
    ensures Delivered(ServerRun(conn, max, s)) <= Delivered(ServerRun(conn, max, s + more))
    decreases |s|
  {
    hide ServerRun, ServerContent, ReadHeader, Delivered;
    HeaderStable(s, more, true);
    ServerByHeader(conn, max, s);
    ServerByHeader(conn, max, s + more);
    var h := ReadHeader(s, true);
    if h.Header? {
      ServerContentMonotone(conn, max, h.finRsvOpcode, h.length, h.rest, more);
    }
  }

  lemma ServerByHeader(conn: Conn, max: nat, s: seq<bv8>)
    ensures var h := ReadHeader(s, true);
            && (h.Short? ==> ServerRun(conn, max, s) == [OnError(EndOfStream)] && Delivered(ServerRun(conn, max, s)) == [])
            && (h.WrongMask? ==> ServerRun(conn, max, s) == CloseOutputs(conn, 1002, NOT_MASKED))
            && (h.Header? ==> ServerRun(conn, max, s) == ServerContent(conn, max, h.finRsvOpcode, h.length, h.rest))
  {
    hide ReadHeader, ServerContent, CloseOutputs;
  }

  lemma {:induction false} ServerContentMonotone(conn: Conn, max: nat, fin: bv8, length: nat, rest: seq<bv8>, more: seq<bv8>)
    ensures Delivered(ServerContent(conn, max, fin, length, rest)) <= Delivered(ServerContent(conn, max, fin, length, rest + more))
    decreases |rest|
  {
    hide ServerRun, ServerStep, Masked, TooBig, TooBigOutputs, Delivered;
    NothingAtEnd(None);
    if !TooBig(conn, length, max) && |rest| >= (4 + length) % SIZE_LIMIT && 4 + length < SIZE_LIMIT {
      PayloadStable(rest, more, length);
      var step := ServerStep(conn, fin, length, Masked(rest[4..4 + length], rest[..4]));
      if step.Continue? {
        var tail := rest[4 + length..];
        ServerMonotone(step.conn, max, tail, more);
        DeliveredConcat(step.outputs, ServerRun(step.conn, max, tail));
        DeliveredConcat(step.outputs, ServerRun(step.conn, max, tail + more));
      }
    }
  }

  // ---------- The client ----------

  /** Likewise the client. */
  lemma {:induction false} ClientMonotone(conn: Conn, max: nat, s: seq<bv8>, more: seq<bv8>)
    ensures Delivered(ClientRun(conn, max, s)) <= Delivered(ClientRun(conn, max, s + more))
    decreases |s|, 0
  {
    hide ClientRun, ClientContent, ReadHeader, Delivered;
    HeaderStable(s, more, false);
    ClientByHeader(conn, max, s);
    ClientByHeader(conn, max, s + more);
    var h := ReadHeader(s, false);
    if h.Header? {
      ClientContentMonotone(conn, max, h.finRsvOpcode, h.length, h.rest, more);
    }
  }

  lemma ClientByHeader(conn: Conn, max: nat, s: seq<bv8>)
    ensures var h := ReadHeader(s, false);
            && (h.Short? ==> ClientRun(conn, max, s) == [OnError(EndOfStream)] && Delivered(ClientRun(conn, max, s)) == [])
            && (h.WrongMask? ==> ClientRun(conn, max, s) == CloseOutputs(conn, 1002, MASKED_REPLY))
            && (h.Header? ==> ClientRun(conn, max, s) == ClientContent(conn, max, h.finRsvOpcode, h.length, h.rest))
  {
    hide ReadHeader, ClientContent, CloseOutputs;
  }

  lemma TailStable<T>(rest: seq<T>, more: seq<T>, k: nat)
    requires k <= |rest|
    ensures (rest + more)[..k] == rest[..k] && (rest + more)[k..] == rest[k..] + more
  {}

  lemma {:induction false} ClientContentMonotone(conn: Conn, max: nat, fin: bv8, length: nat, rest: seq<bv8>, more: seq<bv8>)
    ensures Delivered(ClientContent(conn, max, fin, length, rest)) <= Delivered(ClientContent(conn, max, fin, length, rest + more))
    decreases |rest|, 1
  {
    hide ClientRun, ClientStep, TooBig, TooBigOutputs, Delivered;
    NothingAtEnd(None);
    if !TooBig(conn, length, max) && |rest| >= length {
      TailStable(rest, more, length);
      var step := ClientStep(conn, fin, length, rest[..length]);
      if step.Continue? {
        var tail := rest[length..];
        ClientMonotone(step.conn, max, tail, more);
        DeliveredConcat(step.outputs, ClientRun(step.conn, max, tail));
        DeliveredConcat(step.outputs, ClientRun(step.conn, max, tail + more));
      }
    }
  }

  // ---------- The queue's frames as a stream ----------

  /** What the client's `send` makes of the frames. */
  ghost predicate ClientFrames(bytes: seq<seq<bv8>>, fs: seq<Frame>, masks: seq<Mask>) {
    && |bytes| == |fs| == |masks|
    && forall i | 0 <= i < |bytes| :: bytes[i] == ClientFrame(fs[i].finRsvOpcode, masks[i], fs[i].payload)
  }

  lemma {:induction false} ClientStreamIs(bytes: seq<seq<bv8>>, fs: seq<Frame>, masks: seq<Mask>)
    requires ClientFrames(bytes, fs, masks)
    ensures Flatten(bytes) == ClientStream(fs, masks)
  {
    hide ClientFrame;
    if bytes != [] {
      var rest, fs', masks' := bytes[1..], fs[1..], masks[1..];
      assert ClientFrames(rest, fs', masks') by {
        forall i | 0 <= i < |rest|
          ensures rest[i] == ClientFrame(fs'[i].finRsvOpcode, masks'[i], fs'[i].payload)
        {
          assert rest[i] == bytes[i + 1] && fs'[i] == fs[i + 1] && masks'[i] == masks[i + 1];
        }
      }
      FlattenFirst(bytes);
      ClientStreamIs(rest, fs', masks');
    }
  }

  /** What the server's `send` makes of them. */
  ghost predicate ServerFrames(bytes: seq<seq<bv8>>, fs: seq<Frame>) {
    && |bytes| == |fs|
    && forall i | 0 <= i < |bytes| :: bytes[i] == ServerFrame(fs[i].finRsvOpcode, fs[i].payload)
  }

  lemma {:induction false} ServerStreamIs(bytes: seq<seq<bv8>>, fs: seq<Frame>)
    requires ServerFrames(bytes, fs)
    ensures Flatten(bytes) == ServerStream(fs)
  {
    hide ServerFrame;
    if bytes != [] {
      var rest, fs' := bytes[1..], fs[1..];
      assert ServerFrames(rest, fs') by {
        forall i | 0 <= i < |rest|
          ensures rest[i] == ServerFrame(fs'[i].finRsvOpcode, fs'[i].payload)
        {
          assert rest[i] == bytes[i + 1] && fs'[i] == fs[i + 1];
        }
      }
      FlattenFirst(bytes);
      ServerStreamIs(rest, fs');
    }
  }

  // ---------- Together ----------

  /** What the server has delivered when it has read everything on the wire. */
  function ServerHas(wire: seq<bv8>, max: nat): seq<Text> {
    Delivered(ServerRun(Conn(None, false), max, wire))
  }

  function ClientHas(wire: seq<bv8>, max: nat): seq<Text> {
    Delivered(ClientRun(Conn(None, false), max, wire))
  }

  lemma PrefixDelivered(wire: seq<bv8>, whole: seq<bv8>, max: nat)
    requires wire <= whole
    ensures ServerHas(wire, max) <= ServerHas(whole, max) && ClientHas(wire, max) <= ClientHas(whole, max)
  {
    hide ServerRun, ClientRun, Delivered;
    assert whole == wire + whole[|wire|..];
    ServerMonotone(Conn(None, false), max, wire, whole[|wire|..]);
    ClientMonotone(Conn(None, false), max, wire, whole[|wire|..]);
  }

  /**
    Over every run of a client's sends, partial writes, completions, callbacks and stops without a
    failed write, for every legal sequence of frames handed to `send`.
   */
  lemma SentIsReceived(es: seq<Queue.Event>, fs: seq<Frame>, masks: seq<Mask>, max: nat)
    requires Queue.Possible(Queue.START, es) && !Queue.AnyFailure(es)
    requires ClientFrames(Queue.FramesOf(es), fs, masks) && Legal(fs, false) && Fits(fs, None)
    ensures var s := Queue.After(Queue.START, es);
            && ServerHas(s.wire, max) <= Messages(fs, None)
            && (s.queue == [] && Uninterrupted(fs, None, max) ==> ServerHas(s.wire, max) == Messages(fs, None))
  {
    hide Queue.After, Queue.Possible, Queue.AnyFailure, Queue.FramesOf, Flatten;
    hide ClientStream, ServerRun, Delivered, Legal, Fits, Uninterrupted, Messages, ClientFrame;
    Queue.InOrder(es);
    ClientStreamIs(Queue.FramesOf(es), fs, masks);
    ServerDelivers(fs, masks, false, max);
    PrefixDelivered(Queue.After(Queue.START, es).wire, Flatten(Queue.FramesOf(es)), max);
  }

  /** The same from a server's queue to the client. */
  lemma RepliesAreReceived(es: seq<Queue.Event>, fs: seq<Frame>, max: nat)
    requires Queue.Possible(Queue.START, es) && !Queue.AnyFailure(es)
    requires ServerFrames(Queue.FramesOf(es), fs) && Legal(fs, false) && Fits(fs, None)
    ensures var s := Queue.After(Queue.START, es);
            && ClientHas(s.wire, max) <= Messages(fs, None)
            && (s.queue == [] && Uninterrupted(fs, None, max) ==> ClientHas(s.wire, max) == Messages(fs, None))
  {
    hide Queue.After, Queue.Possible, Queue.AnyFailure, Queue.FramesOf, Flatten;
    hide ServerStream, ClientRun, Delivered, Legal, Fits, Uninterrupted, Messages, ServerFrame;
    Queue.InOrder(es);
    ServerStreamIs(Queue.FramesOf(es), fs);
    ClientDelivers(fs, false, max);
    PrefixDelivered(Queue.After(Queue.START, es).wire, Flatten(Queue.FramesOf(es)), max);
  }

  /** In terms of the messages themselves, cut in any way and with pings and pongs between the frames. */
  lemma MessagesAreReceived(es: seq<Queue.Event>, fs: seq<Frame>, masks: seq<Mask>, ms: seq<Fragments.Cut>, c: nat, max: nat)
    requires Queue.Possible(Queue.START, es) && !Queue.AnyFailure(es)
    requires Fragments.Carries(fs, ms, c) && Fragments.SmallFrames(fs)
    requires c <= max < SIZE_LIMIT && Fragments.Within(ms, c, max)
    ensures var s := Queue.After(Queue.START, es);
            && (ClientFrames(Queue.FramesOf(es), fs, masks) ==>
                  && ServerHas(s.wire, max) <= Fragments.TextsOf(ms)
                  && (s.queue == [] ==> ServerHas(s.wire, max) == Fragments.TextsOf(ms)))
            && (ServerFrames(Queue.FramesOf(es), fs) ==>
                  && ClientHas(s.wire, max) <= Fragments.TextsOf(ms)
                  && (s.queue == [] ==> ClientHas(s.wire, max) == Fragments.TextsOf(ms)))
  {
    hide Queue.After, Queue.Possible, Queue.AnyFailure, Queue.FramesOf, ClientFrames, ServerFrames;
    hide ServerHas, ClientHas, Legal, Fits, Uninterrupted, Messages, Fragments.Carries, Fragments.SmallFrames;
    hide Fragments.Within, Fragments.TextsOf;
    Fragments.Carried(fs, ms, c, max);
    if ClientFrames(Queue.FramesOf(es), fs, masks) {
      SentIsReceived(es, fs, masks, max);
    }
    if ServerFrames(Queue.FramesOf(es), fs) {
      RepliesAreReceived(es, fs, max);
    }
  }
}
