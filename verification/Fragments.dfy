/**
  Fragmentation (RFC 6455 section 5.4) without a state machine: messages are cut into frames, pings and
  pongs are put anywhere between the frames, and both readers deliver the messages.
 */
module Fragments {
  import opened Bits
  import opened Delivery
  import opened Frames
  import opened Options
  import opened Readers
  import opened Sequences

  /** A message as its sender cuts it: the first byte without the final bit, and the fragments. */
  datatype Cut = Cut(rsvOpcode: bv8, fragments: Parts)

  type Parts = ps: seq<seq<bv8>> | ps != [] witness [[]]

  predicate IsCut(m: Cut) {
    !Final(m.rsvOpcode) && 0 < Opcode(m.rsvOpcode) < 8
  }

  /** What its receiver is to be given. */
  function TextOf(m: Cut): Text {
    Text(AsFinal(m.rsvOpcode), Flatten(m.fragments))
  }

  function TextsOf(ms: seq<Cut>): seq<Text> {
    if ms == [] then [] else [TextOf(ms[0])] + TextsOf(ms[1..])
  }

  // ---------- Frames ----------

  /** The final bit is set in the last frame, and only there. */
  function FirstByte(rsvOpcode: bv8, last: bool): bv8 {
    if last then AsFinal(rsvOpcode) else rsvOpcode
  }

  /** The frames after the first one have opcode 0. */
  function Continued(fragments: seq<seq<bv8>>): seq<Frame> {
    if fragments == [] then []
    else [Frame(FirstByte(0, |fragments| == 1), fragments[0])] + Continued(fragments[1..])
  }

  function FramesOf(m: Cut): seq<Frame> {
    [Frame(FirstByte(m.rsvOpcode, |m.fragments| == 1), m.fragments[0])] + Continued(m.fragments[1..])
  }

  function AllFrames(ms: seq<Cut>): seq<Frame> {
    if ms == [] then [] else FramesOf(ms[0]) + AllFrames(ms[1..])
  }

  /** A ping or a pong. */
  predicate IsPingPong(f: Frame) {
    Final(f.finRsvOpcode) && (Opcode(f.finRsvOpcode) == 9 || Opcode(f.finRsvOpcode) == 10)
  }

  /** The sequence without its control frames. */
  function DataFrames(fs: seq<Frame>): seq<Frame> {
    if fs == [] then []
    else (if IsControl(fs[0]) then [] else [fs[0]]) + DataFrames(fs[1..])
  }

  /**
    `fs` carries the messages `ms`: its data frames are theirs, and the control frames between them are
    pings and pongs of at most `c` bytes.
   */
  ghost predicate Carries(fs: seq<Frame>, ms: seq<Cut>, c: nat) {
    && (forall m | m in ms :: IsCut(m))
    && DataFrames(fs) == AllFrames(ms)
    && ControlsWithin(fs, c)
  }

  ghost predicate ControlsWithin(fs: seq<Frame>, c: nat) {
    forall i | 0 <= i < |fs| && IsControl(fs[i]) :: IsPingPong(fs[i]) && |fs[i].payload| <= c
  }

  /** A message and a control frame inside it stay within a bound. */
  ghost predicate Within(ms: seq<Cut>, c: nat, bound: nat) {
    forall m | m in ms :: |Flatten(m.fragments)| + c <= bound
  }

  // ---------- What the frames are ----------

  lemma FirstByteIs(rsvOpcode: bv8, last: bool)
    requires !Final(rsvOpcode)
    ensures Final(FirstByte(rsvOpcode, last)) == last && Opcode(FirstByte(rsvOpcode, last)) == Opcode(rsvOpcode)
    ensures AsFinal(FirstByte(rsvOpcode, last)) == AsFinal(rsvOpcode)
  {}

  lemma ContinuationByte()
    ensures !Final(0) && Opcode(0) == 0 && !(Opcode(0) >= 8)
  {}

  lemma PingPongIs(f: Frame)
    requires IsPingPong(f)
    ensures IsControl(f) && Opcode(f.finRsvOpcode) != 8 && Opcode(f.finRsvOpcode) <= 10
  {}

  // ---------- Within a message ----------

  /** The rest of a sequence: first the fragments `rem` of the message being read, then `ms`. */
  ghost predicate Rest(fs: seq<Frame>, p: Option<Partial>, rem: seq<seq<bv8>>, ms: seq<Cut>, c: nat) {
    && (p.Some? <==> rem != [])
    && (forall m | m in ms :: IsCut(m))
    && DataFrames(fs) == Continued(rem) + AllFrames(ms)
    && ControlsWithin(fs, c)
  }

  /** ... all of it within a bound, and each frame small enough to be legal. */
  ghost predicate RestWithin(p: Option<Partial>, rem: seq<seq<bv8>>, ms: seq<Cut>, c: nat, bound: nat) {
    && Size(p) + |Flatten(rem)| + c <= bound
    && Within(ms, c, bound)
  }

  lemma ControlStep(fs: seq<Frame>, p: Option<Partial>, rem: seq<seq<bv8>>, ms: seq<Cut>, c: nat)
    requires fs != [] && IsControl(fs[0]) && Rest(fs, p, rem, ms, c)
    ensures Rest(fs[1..], p, rem, ms, c) && IsPingPong(fs[0]) && |fs[0].payload| <= c && After(p, fs[0]) == p
  {
    hide IsControl, IsPingPong, Continued, AllFrames, IsCut;
    assert DataFrames(fs) == DataFrames(fs[1..]);
  }

  /** The next data frame continues the message. */
  lemma ContinueStep(fs: seq<Frame>, p: Option<Partial>, rem: seq<seq<bv8>>, ms: seq<Cut>, c: nat)
    requires fs != [] && !IsControl(fs[0]) && p.Some? && Rest(fs, p, rem, ms, c)
    ensures fs[0] == Frame(FirstByte(0, |rem| == 1), rem[0])
    ensures Rest(fs[1..], After(p, fs[0]), rem[1..], ms, c)
    ensures Final(fs[0].finRsvOpcode) <==> |rem| == 1
  {
    hide IsControl, IsPingPong, AllFrames, IsCut, FirstByte, Final, Collected;
    ContinuationByte();
    FirstByteIs(0, |rem| == 1);
    HeadTail(fs[0], DataFrames(fs[1..]), Frame(FirstByte(0, |rem| == 1), rem[0]), Continued(rem[1..]), AllFrames(ms));
  }

  /** The next data frame starts a message. */
  lemma StartStep(fs: seq<Frame>, ms: seq<Cut>, c: nat)
    requires fs != [] && !IsControl(fs[0]) && Rest(fs, None, [], ms, c)
    ensures ms != [] && IsCut(ms[0])
    ensures fs[0] == Frame(FirstByte(ms[0].rsvOpcode, |ms[0].fragments| == 1), ms[0].fragments[0])
    ensures Rest(fs[1..], After(None, fs[0]), ms[0].fragments[1..], ms[1..], c)
    ensures Final(fs[0].finRsvOpcode) <==> |ms[0].fragments| == 1
  {
    hide IsControl, IsPingPong, FirstByte, Final, Collected, Opcode, IsCut;
    assert Continued([]) + AllFrames(ms) == AllFrames(ms);
    assert DataFrames(fs) == [fs[0]] + DataFrames(fs[1..]);
    var m := ms[0];
    CutShape(m);
    FirstByteIs(m.rsvOpcode, |m.fragments| == 1);
    HeadTail(fs[0], DataFrames(fs[1..]), Frame(FirstByte(m.rsvOpcode, |m.fragments| == 1), m.fragments[0]),
             Continued(m.fragments[1..]), AllFrames(ms[1..]));
  }

  lemma HeadTail<T>(a: T, s: seq<T>, b: T, t: seq<T>, u: seq<T>)
    requires [a] + s == ([b] + t) + u
    ensures a == b && s == t + u
  {
    assert ([a] + s)[0] == a && (([b] + t) + u)[0] == b;
    assert ([a] + s)[1..] == s && (([b] + t) + u)[1..] == t + u;
  }

  lemma NothingLeft(p: Option<Partial>, rem: seq<seq<bv8>>, ms: seq<Cut>, c: nat)
    requires Rest([], p, rem, ms, c)
    ensures p == None && rem == [] && ms == []
  {}

  // ---------- Whole sequences ----------

  /** The text of the message being read, if there is one. */
  function Pending(p: Option<Partial>, rem: seq<seq<bv8>>): seq<Text> {
    match p
    case None => []
    case Some(q) => [Text(q.finRsvOpcode, q.data + Flatten(rem))]
  }

  /** The messages of the sequence are the concatenations of the fragments. */
  lemma {:induction false} MessagesAre(fs: seq<Frame>, p: Option<Partial>, rem: seq<seq<bv8>>, ms: seq<Cut>, c: nat)
    requires Rest(fs, p, rem, ms, c)
    ensures Messages(fs, p) == Pending(p, rem) + TextsOf(ms)
    decreases |fs|
  {
    hide Rest, IsControl, Final, Opcode, AsFinal, Flatten, FirstByte, IsCut;
    if fs == [] {
      NothingLeft(p, rem, ms, c);
    } else if IsControl(fs[0]) {
      ControlStep(fs, p, rem, ms, c);
      MessagesAre(fs[1..], p, rem, ms, c);
    } else if p.Some? {
      assert rem != [] by { RestShape(fs, p, rem, ms, c); }
      ContinueStep(fs, p, rem, ms, c);
      MessagesAre(fs[1..], After(p, fs[0]), rem[1..], ms, c);
      FlattenFirst(rem);
      LastPart(rem);
      Assoc(p.value.data, rem[0], Flatten(rem[1..]));
    } else {
      RestShape(fs, p, rem, ms, c);
      StartStep(fs, ms, c);
      var m := ms[0];
      MessagesAre(fs[1..], After(None, fs[0]), m.fragments[1..], ms[1..], c);
      CutShape(m);
      FirstByteIs(m.rsvOpcode, |m.fragments| == 1);
      FlattenFirst(m.fragments);
      LastPart(m.fragments);
      assert Pending(None, []) == [];
    }
  }

  lemma RestShape(fs: seq<Frame>, p: Option<Partial>, rem: seq<seq<bv8>>, ms: seq<Cut>, c: nat)
    requires Rest(fs, p, rem, ms, c)
    ensures (p.Some? <==> rem != []) && forall m | m in ms :: IsCut(m)
  {}

  lemma CutShape(m: Cut)
    requires IsCut(m)
    ensures !Final(m.rsvOpcode) && !(Opcode(m.rsvOpcode) >= 8) && Opcode(m.rsvOpcode) != 0
  {}

  lemma LastPart(parts: seq<seq<bv8>>)
    requires parts != []
    ensures |parts| == 1 ==> Flatten(parts[1..]) == [] && Flatten(parts) == parts[0]
  {
    if |parts| == 1 {
      assert parts[1..] == [] && parts[..0] == [];
    }
  }

  // ---------- Legal, and within the limits ----------

  /** Every frame of the sequence is below the limit on payloads. */
  ghost predicate SmallFrames(fs: seq<Frame>) {
    forall i | 0 <= i < |fs| :: |fs[i].payload| < PAYLOAD_LIMIT
  }

  lemma {:induction false} CarriedIsLegal(fs: seq<Frame>, p: Option<Partial>, rem: seq<seq<bv8>>, ms: seq<Cut>, c: nat)
    requires Rest(fs, p, rem, ms, c) && SmallFrames(fs)
    ensures Legal(fs, p.Some?)
    decreases |fs|
  {
    hide Rest, IsControl, Final, Opcode, AsFinal, Flatten, FirstByte, IsCut, LegalFrame;
    if fs != [] {
      assert SmallFrames(fs[1..]);
      RestShape(fs, p, rem, ms, c);
      LegalKinds(fs, p, rem, ms, c);
      if IsControl(fs[0]) {
        ControlStep(fs, p, rem, ms, c);
        CarriedIsLegal(fs[1..], p, rem, ms, c);
      } else if p.Some? {
        ContinueStep(fs, p, rem, ms, c);
        CarriedIsLegal(fs[1..], After(p, fs[0]), rem[1..], ms, c);
      } else {
        StartStep(fs, ms, c);
        CarriedIsLegal(fs[1..], After(None, fs[0]), ms[0].fragments[1..], ms[1..], c);
      }
    }
  }

  lemma LegalKinds(fs: seq<Frame>, p: Option<Partial>, rem: seq<seq<bv8>>, ms: seq<Cut>, c: nat)
    requires fs != [] && Rest(fs, p, rem, ms, c) && SmallFrames(fs)
    ensures LegalFrame(fs[0], p.Some?) && Opcode(fs[0].finRsvOpcode) != 8
  {
    hide Rest, Final, Opcode, FirstByte, IsCut;
    RestShape(fs, p, rem, ms, c);
    if IsControl(fs[0]) {
      ControlStep(fs, p, rem, ms, c);
      PingPongIs(fs[0]);
    } else if p.Some? {
      ContinueStep(fs, p, rem, ms, c);
      ContinuationByte();
      FirstByteIs(0, |rem| == 1);
      SmallIsNotClose(fs[0].finRsvOpcode);
    } else {
      StartStep(fs, ms, c);
      var m := ms[0];
      CutShape(m);
      FirstByteIs(m.rsvOpcode, |m.fragments| == 1);
      SmallIsNotClose(fs[0].finRsvOpcode);
    }
  }

  lemma SmallIsNotClose(b: bv8)
    requires !(Opcode(b) >= 8)
    ensures Opcode(b) != 8
  {}

  /** With every message and a control frame inside it below a bound, so is what a reader has at a time. */
  lemma {:induction false} CarriedStays(fs: seq<Frame>, p: Option<Partial>, rem: seq<seq<bv8>>, ms: seq<Cut>, c: nat, max: nat)
    requires Rest(fs, p, rem, ms, c) && SmallFrames(fs)
    requires RestWithin(p, rem, ms, c, max) && max < SIZE_LIMIT
    ensures Uninterrupted(fs, p, max) && Fits(fs, p)
    decreases |fs|
  {
    hide Rest, IsControl, Final, Opcode, AsFinal, Flatten, FirstByte, IsCut, LegalFrame;
    if fs != [] {
      assert SmallFrames(fs[1..]);
      RestShape(fs, p, rem, ms, c);
      LegalKinds(fs, p, rem, ms, c);
      if IsControl(fs[0]) {
        ControlStep(fs, p, rem, ms, c);
        CarriedStays(fs[1..], p, rem, ms, c, max);
      } else if p.Some? {
        ContinueStep(fs, p, rem, ms, c);
        FlattenFirst(rem);
        LastPart(rem);
        CarriedStays(fs[1..], After(p, fs[0]), rem[1..], ms, c, max);
      } else {
        StartStep(fs, ms, c);
        FlattenFirst(ms[0].fragments);
        LastPart(ms[0].fragments);
        CarriedStays(fs[1..], After(None, fs[0]), ms[0].fragments[1..], ms[1..], c, max);
      }
    }
  }

  // ---------- Both readers ----------

  lemma CarriesRest(fs: seq<Frame>, ms: seq<Cut>, c: nat, bound: nat)
    requires Carries(fs, ms, c)
    ensures Rest(fs, None, [], ms, c)
    ensures c <= bound && Within(ms, c, bound) ==> RestWithin(None, [], ms, c, bound)
  {
    hide DataFrames, AllFrames, IsCut, ControlsWithin;
    assert Continued([]) + AllFrames(ms) == AllFrames(ms);
    assert Flatten<bv8>([]) == [];
  }

  /** Legal, with these messages, and read to its end within the limits. */
  lemma Carried(fs: seq<Frame>, ms: seq<Cut>, c: nat, max: nat)
    requires Carries(fs, ms, c) && SmallFrames(fs)
    requires c <= max < SIZE_LIMIT && Within(ms, c, max)
    ensures Legal(fs, false) && Messages(fs, None) == TextsOf(ms)
    ensures Uninterrupted(fs, None, max) && Fits(fs, None)
  {
    hide Carries, Rest, Legal, Messages, Within, RestWithin, Uninterrupted, Fits, TextsOf, SmallFrames;
    CarriesRest(fs, ms, c, max);
    CarriedIsLegal(fs, None, [], ms, c);
    CarriedStays(fs, None, [], ms, c, max);
    MessagesAre(fs, None, [], ms, c);
    assert Pending(None, []) + TextsOf(ms) == TextsOf(ms);
  }

  /**
    Whatever messages a client sends, however it cuts them and whatever pings and pongs it puts between
    the frames: the server delivers exactly the messages, in order, each under its own opcode.
   */
  lemma ServerReceives(fs: seq<Frame>, masks: seq<Mask>, ms: seq<Cut>, c: nat, closed: bool, max: nat)
    requires |masks| == |fs| && Carries(fs, ms, c) && SmallFrames(fs)
    requires c <= max < SIZE_LIMIT && Within(ms, c, max)
    ensures Delivered(ServerRun(Conn(None, closed), max, ClientStream(fs, masks))) == TextsOf(ms)
  {
    hide Carries, ServerRun, Delivered, Messages, ClientStream, Legal, Fits, Uninterrupted, Within, SmallFrames, TextsOf;
    Carried(fs, ms, c, max);
    ServerDelivers(fs, masks, closed, max);
  }

  /** And the other way: what a server sends reaches the client. */
  lemma ClientReceives(fs: seq<Frame>, ms: seq<Cut>, c: nat, closed: bool, max: nat)
    requires Carries(fs, ms, c) && SmallFrames(fs)
    requires c <= max < SIZE_LIMIT && Within(ms, c, max)
    ensures Delivered(ClientRun(Conn(None, closed), max, ServerStream(fs))) == TextsOf(ms)
  {
    hide Carries, ClientRun, Delivered, Messages, ServerStream, Legal, Fits, Uninterrupted, Within, SmallFrames, TextsOf;
    Carried(fs, ms, c, max);
    ClientDelivers(fs, closed, max);
  }
}
