/**
  The send queue of a connection (ext/Simple-WebSocket-Server-v2.0.2/client_ws.hpp:147-183 and 226-229,
  and the same in server_ws.hpp), as the interleaving of its atomic steps: a `send` under the mutex,
  bytes of an outstanding write reaching the wire, the completion handler of a write, a callback
  that runs once the mutex is released, and the stop of the handler runner.
 */
module SendQueues {
  import opened Sequences

  /** A queued frame; `id` is its position among all sends. */
  datatype Entry = Entry(id: nat, frame: seq<bv8>, hasCallback: bool)

  /** An asynchronous write that has been started and has not called its handler. */
  datatype Write = Write(entry: Entry, transmitted: nat)

  datatype Call = Call(id: nat, ok: bool)

  datatype State = State(
    queue: seq<Entry>,
    writes: seq<Write>,
    stopped: bool,
    pending: seq<Call>,    // taken from the queue by a handler that has not called them yet
    fired: seq<Call>,
    wire: seq<bv8>,
    // what happened so far, for the statements only
    sent: seq<Entry>,
    transmitted: seq<nat>, // for each send, the number of its bytes on the wire
    failed: bool
  )

  const START := State([], [], false, [], [], [], [], [], false)

  datatype Event =
    | Send(frame: seq<bv8>, hasCallback: bool)
    | Transmit(write: nat, count: nat)
    | Complete(write: nat, ok: bool)
    | Fire(call: nat)
    | Stop

  /** A write succeeds only with all its bytes; stop waits for handlers that are still calling back. */
  predicate Allowed(s: State, e: Event) {
    match e
    case Send(_, _) => true
    case Transmit(i, n) => i < |s.writes| && s.writes[i].transmitted + n <= |s.writes[i].entry.frame|
    case Complete(i, ok) => i < |s.writes| && (ok ==> s.writes[i].transmitted == |s.writes[i].entry.frame|)
    case Fire(k) => k < |s.pending|
    case Stop => s.pending == []
  }

  // ---------- The steps ----------

  function Without<T>(s: seq<T>, i: nat): seq<T>
    requires i < |s|
  {
    s[..i] + s[i + 1..]
  }

  /** The callbacks of a stretch of the queue, leaving out those that are not set. */
  function Calls(entries: seq<Entry>, ok: bool): seq<Call> {
    if entries == [] then []
    else Calls(entries[..|entries| - 1], ok) + CallOf(entries[|entries| - 1], ok)
  }

  function CallOf(entry: Entry, ok: bool): seq<Call> {
    if entry.hasCallback then [Call(entry.id, ok)] else []
  }

  /** send_from_queue: a write of the first entry. */
  function WithWrite(s: State): State {
    if s.queue == [] then s else s.(writes := s.writes + [Write(s.queue[0], 0)])
  }

  function SendStep(s: State, frame: seq<bv8>, hasCallback: bool): State {
    var entry := Entry(|s.sent|, frame, hasCallback);
    var t := s.(queue := s.queue + [entry], sent := s.sent + [entry], transmitted := s.transmitted + [0]);
    if |t.queue| == 1 then WithWrite(t) else t
  }

  function TransmitStep(s: State, i: nat, n: nat): State
    requires Allowed(s, Transmit(i, n))
  {
    var w := s.writes[i];
    s.(writes := s.writes[i := Write(w.entry, w.transmitted + n)],
       wire := s.wire + w.entry.frame[w.transmitted..w.transmitted + n],
       transmitted := if w.entry.id < |s.transmitted| then s.transmitted[w.entry.id := w.transmitted + n] else s.transmitted)
  }

  function CompleteStep(s: State, i: nat, ok: bool): State
    requires i < |s.writes|
  {
    var t := s.(writes := Without(s.writes, i), failed := s.failed || !ok);
    if s.stopped then t
    else if !ok then t.(queue := [], pending := s.pending + Calls(s.queue, false))
    else if s.queue == [] then t
    else WithWrite(t.(queue := s.queue[1..], pending := s.pending + Calls(s.queue[..1], true)))
  }

  function Next(s: State, e: Event): State
    requires Allowed(s, e)
  {
    match e
    case Send(frame, hasCallback) => SendStep(s, frame, hasCallback)
    case Transmit(i, n) => TransmitStep(s, i, n)
    case Complete(i, ok) => CompleteStep(s, i, ok)
    case Fire(k) => s.(pending := Without(s.pending, k), fired := s.fired + [s.pending[k]])
    case Stop => s.(stopped := true)
  }

  predicate Possible(s: State, es: seq<Event>)
    decreases |es|
  {
    es == [] || (Allowed(s, es[0]) && Possible(Next(s, es[0]), es[1..]))
  }

  function After(s: State, es: seq<Event>): State
    requires Possible(s, es)
    decreases |es|
  {
    if es == [] then s else After(Next(s, es[0]), es[1..])
  }

  // ---------- The invariant ----------

  /** The position among all sends of the first entry in the queue. */
  function First(s: State): int {
    |s.sent| - |s.queue|
  }

  /** The queue is the rest of what was sent; at most one write, and it writes the first entry. */
  ghost predicate QueueInv(s: State) {
    && |s.queue| <= |s.sent| == |s.transmitted|
    && s.queue == s.sent[First(s)..]
    && (forall i | 0 <= i < |s.sent| :: s.sent[i].id == i)
    && |s.writes| <= 1
    && (s.writes != [] ==> s.queue != [] && s.writes[0].entry == s.queue[0])
    && (s.queue != [] && !s.stopped ==> s.writes != [])
  }

  /** The bytes on the wire, in the order of the sends. */
  function Wire(sent: seq<Entry>, transmitted: seq<nat>): seq<bv8>
    requires |sent| == |transmitted|
  {
    if sent == [] then []
    else
      var n := |sent| - 1;
      var frame := sent[n].frame;
      Wire(sent[..n], transmitted[..n]) + if transmitted[n] <= |frame| then frame[..transmitted[n]] else frame
  }

  ghost predicate WireInv(s: State)
    requires QueueInv(s)
  {
    && s.wire == Wire(s.sent, s.transmitted)
    && Parts(s.sent, s.transmitted, First(s), s.failed)
    && (s.writes != [] ==> s.transmitted[First(s)] == s.writes[0].transmitted)
  }

  /** A part of each frame; of those before `h` all, unless a write has failed; of those after it nothing. */
  ghost predicate Parts(sent: seq<Entry>, transmitted: seq<nat>, h: int, failed: bool) {
    && 0 <= h <= |sent| == |transmitted|
    && (forall i | 0 <= i < |sent| :: transmitted[i] <= |sent[i].frame|)
    && (forall i | h < i < |sent| :: transmitted[i] == 0)
    && (!failed ==> forall i | 0 <= i < h :: transmitted[i] == |sent[i].frame|)
  }

  lemma PartsAppended(sent: seq<Entry>, transmitted: seq<nat>, h: int, failed: bool, entry: Entry)
    requires Parts(sent, transmitted, h, failed)
    ensures Parts(sent + [entry], transmitted + [0], h, failed)
  {}

  function Ids(calls: seq<Call>): seq<nat> {
    seq(|calls|, i requires 0 <= i < |calls| => calls[i].id)
  }

  /** Every callback is in the queue, with a handler, or called: conservation. */
  ghost predicate CallInv(s: State) {
    multiset(Ids(Calls(s.queue, true))) + multiset(Ids(s.pending)) + multiset(Ids(s.fired)) == multiset(Ids(Calls(s.sent, true)))
  }

  /** A call that reports success is about a frame that is completely on the wire. */
  ghost predicate Honest(calls: seq<Call>, s: State)
    requires QueueInv(s)
  {
    forall k | 0 <= k < |calls| && calls[k].ok ::
      calls[k].id < First(s) && s.transmitted[calls[k].id] == |s.sent[calls[k].id].frame|
  }

  ghost predicate Inv(s: State) {
    QueueInv(s) && WireInv(s) && CallInv(s) && Honest(s.pending, s) && Honest(s.fired, s)
  }

  // ---------- Each step keeps it ----------

  lemma SuffixGrows<T>(s: seq<T>, h: nat, x: T)
    requires h <= |s|
    ensures s[h..] + [x] == (s + [x])[h..]
  {}

  lemma SuffixShrinks<T>(s: seq<T>, h: nat)
    requires h < |s|
    ensures s[h..][1..] == s[h + 1..] && s[h..][..1] == [s[h]]
  {}

  lemma WithoutOnly<T>(s: seq<T>, i: nat)
    requires i < |s| <= 1
    ensures Without(s, i) == []
  {}

  lemma Appended<T>(s: seq<T>, x: T)
    ensures (s + [x])[..|s|] == s && (s + [x])[|s|] == x
    ensures forall i | 0 <= i < |s| :: (s + [x])[i] == s[i]
  {}

  /** What a send changes. */
  lemma SendEffect(s: State, frame: seq<bv8>, hasCallback: bool)
    ensures var t := SendStep(s, frame, hasCallback);
            var entry := Entry(|s.sent|, frame, hasCallback);
            && t.queue == s.queue + [entry] && t.sent == s.sent + [entry] && t.transmitted == s.transmitted + [0]
            && t.wire == s.wire && t.failed == s.failed && t.stopped == s.stopped && First(t) == First(s)
            && t.writes == if s.queue == [] then s.writes + [Write(entry, 0)] else s.writes
  {
    assert s.queue == [] ==> (s.queue + [Entry(|s.sent|, frame, hasCallback)])[0] == Entry(|s.sent|, frame, hasCallback);
  }

  lemma QueueAfterSend(s: State, frame: seq<bv8>, hasCallback: bool)
    requires QueueInv(s)
    ensures QueueInv(SendStep(s, frame, hasCallback))
  {
    hide SendStep;
    SendEffect(s, frame, hasCallback);
    SuffixGrows(s.sent, First(s), Entry(|s.sent|, frame, hasCallback));
    if s.queue != [] {
      assert (s.queue + [Entry(|s.sent|, frame, hasCallback)])[0] == s.queue[0];
    }
  }

  lemma QueueAfterTransmit(s: State, i: nat, n: nat)
    requires QueueInv(s) && Allowed(s, Transmit(i, n))
    ensures QueueInv(TransmitStep(s, i, n))
  {}

  lemma QueueAfterComplete(s: State, i: nat, ok: bool)
    requires QueueInv(s) && i < |s.writes|
    ensures QueueInv(CompleteStep(s, i, ok))
  {
    hide Calls, Without;
    WithoutOnly(s.writes, i);
    if !s.stopped && ok {
      SuffixShrinks(s.sent, First(s));
    }
  }

  lemma QueueKept(s: State, e: Event)
    requires QueueInv(s) && Allowed(s, e)
    ensures QueueInv(Next(s, e))
  {
    hide SendStep, TransmitStep, CompleteStep;
    match e
    case Send(frame, cb) => QueueAfterSend(s, frame, cb);
    case Transmit(i, n) => QueueAfterTransmit(s, i, n);
    case Complete(i, ok) => QueueAfterComplete(s, i, ok);
    case Fire(k) =>
    case Stop =>
  }

  lemma {:induction false} WireSuffix(sent: seq<Entry>, transmitted: seq<nat>, h: nat)
    requires h <= |sent| == |transmitted| && forall i | h <= i < |sent| :: transmitted[i] == 0
    ensures Wire(sent, transmitted) == Wire(sent[..h], transmitted[..h])
  {
    if h < |sent| {
      var n := |sent| - 1;
      WireSuffix(sent[..n], transmitted[..n], h);
      assert sent[..n][..h] == sent[..h] && transmitted[..n][..h] == transmitted[..h];
    } else {
      assert sent[..h] == sent && transmitted[..h] == transmitted;
    }
  }

  /** Up to and with entry `h`, when nothing later is on the wire. */
  lemma WireUpTo(sent: seq<Entry>, transmitted: seq<nat>, h: nat)
    requires h < |sent| == |transmitted| && transmitted[h] <= |sent[h].frame|
    requires forall i | h < i < |sent| :: transmitted[i] == 0
    ensures Wire(sent, transmitted) == Wire(sent[..h], transmitted[..h]) + sent[h].frame[..transmitted[h]]
  {
    WireSuffix(sent, transmitted, h + 1);
    assert sent[..h + 1][..h] == sent[..h] && transmitted[..h + 1][..h] == transmitted[..h];
  }

  /** More bytes of one frame are on the wire, none of any later one. */
  lemma WireGrows(sent: seq<Entry>, transmitted: seq<nat>, h: nat, n: nat)
    requires h < |sent| == |transmitted| && transmitted[h] + n <= |sent[h].frame|
    requires forall i | h < i < |sent| :: transmitted[i] == 0
    ensures Wire(sent, transmitted[h := transmitted[h] + n]) ==
            Wire(sent, transmitted) + sent[h].frame[transmitted[h]..transmitted[h] + n]
  {
    hide Wire;
    var more := transmitted[h := transmitted[h] + n];
    WireUpTo(sent, transmitted, h);
    WireUpTo(sent, more, h);
    assert more[..h] == transmitted[..h];
    Prefixes(Wire(sent[..h], transmitted[..h]), sent[h].frame, transmitted[h], n);
  }

  lemma Prefixes<T>(w: seq<T>, frame: seq<T>, k: nat, n: nat)
    requires k + n <= |frame|
    ensures w + frame[..k + n] == (w + frame[..k]) + frame[k..k + n]
  {
    assert frame[..k + n] == frame[..k] + frame[k..k + n];
  }

  lemma WireAfterSend(s: State, frame: seq<bv8>, hasCallback: bool)
    requires QueueInv(s) && WireInv(s)
    ensures QueueInv(SendStep(s, frame, hasCallback)) && WireInv(SendStep(s, frame, hasCallback))
  {
    hide Wire, SendStep, Parts;
    QueueAfterSend(s, frame, hasCallback);
    PartsAppended(s.sent, s.transmitted, First(s), s.failed, Entry(|s.sent|, frame, hasCallback));
    var entry, n := Entry(|s.sent|, frame, hasCallback), |s.sent|;
    Appended(s.sent, entry);
    Appended(s.transmitted, 0);
    WireSuffix(s.sent + [entry], s.transmitted + [0], n);
    SendEffect(s, frame, hasCallback);
  }

  lemma WireAfterTransmit(s: State, i: nat, n: nat)
    requires QueueInv(s) && WireInv(s) && Allowed(s, Transmit(i, n))
    ensures QueueInv(TransmitStep(s, i, n)) && WireInv(TransmitStep(s, i, n))
  {
    hide Wire;
    QueueAfterTransmit(s, i, n);
    var h := First(s);
    assert s.writes[i].entry == s.sent[h];
    WireGrows(s.sent, s.transmitted, h, n);
  }

  /** A completion leaves the wire alone; what it takes from the queue is nothing, one entry or all. */
  lemma CompleteOnWire(s: State, i: nat, ok: bool)
    requires QueueInv(s) && i < |s.writes|
    ensures var t := CompleteStep(s, i, ok);
            && t.sent == s.sent && t.transmitted == s.transmitted && t.wire == s.wire && t.fired == s.fired
            && t.failed == (s.failed || !ok)
            && First(t) == (if s.stopped then First(s) else if ok then First(s) + 1 else |s.sent|)
            && t.pending == (if s.stopped then s.pending else s.pending + Calls(if ok then s.queue[..1] else s.queue, ok))
            && (t.writes == [] || (t.queue != [] && t.writes == [Write(t.queue[0], 0)] && ok && !s.stopped))
            && s.writes[i].entry == s.sent[First(s)] && s.writes[i] == s.writes[0]
  {
    hide Without, Calls;
    WithoutOnly(s.writes, i);
  }

  lemma WireAfterComplete(s: State, i: nat, ok: bool)
    requires QueueInv(s) && WireInv(s) && Allowed(s, Complete(i, ok))
    ensures QueueInv(CompleteStep(s, i, ok)) && WireInv(CompleteStep(s, i, ok))
  {
    hide Wire, Calls, CompleteStep;
    QueueAfterComplete(s, i, ok);
    CompleteOnWire(s, i, ok);
  }

  lemma WireKept(s: State, e: Event)
    requires QueueInv(s) && WireInv(s) && Allowed(s, e)
    ensures QueueInv(Next(s, e)) && WireInv(Next(s, e))
  {
    hide SendStep, TransmitStep, CompleteStep, Wire;
    match e
    case Send(frame, cb) => WireAfterSend(s, frame, cb);
    case Transmit(i, n) => WireAfterTransmit(s, i, n);
    case Complete(i, ok) => WireAfterComplete(s, i, ok);
    case Fire(k) =>
    case Stop =>
  }

  // ---------- Callbacks ----------

  lemma IdsConcat(a: seq<Call>, b: seq<Call>)
    ensures multiset(Ids(a + b)) == multiset(Ids(a)) + multiset(Ids(b))
  {
    assert Ids(a + b) == Ids(a) + Ids(b);
  }

  lemma {:induction false} CallsConcat(a: seq<Entry>, b: seq<Entry>, ok: bool)
    ensures Calls(a + b, ok) == Calls(a, ok) + Calls(b, ok)
  {
    hide CallOf;
    if b == [] {
      assert a + b == a;
    } else {
      var n := |b| - 1;
      CallsConcat(a, b[..n], ok);
      assert (a + b)[..|a + b| - 1] == a + b[..n] && (a + b)[|a + b| - 1] == b[n];
      Assoc(Calls(a, ok), Calls(b[..n], ok), CallOf(b[n], ok));
    }
  }

  /** Success or failure, the same callbacks. */
  lemma {:induction false} SameIds(entries: seq<Entry>, ok: bool)
    ensures Ids(Calls(entries, ok)) == Ids(Calls(entries, true))
  {
    if entries != [] {
      var n := |entries| - 1;
      SameIds(entries[..n], ok);
      IdsSplit(Calls(entries[..n], ok), if entries[n].hasCallback then [Call(entries[n].id, ok)] else []);
      IdsSplit(Calls(entries[..n], true), if entries[n].hasCallback then [Call(entries[n].id, true)] else []);
    }
  }

  lemma IdsSplit(a: seq<Call>, b: seq<Call>)
    ensures Ids(a + b) == Ids(a) + Ids(b)
  {}

  lemma MoveOne(pending: seq<Call>, k: nat)
    requires k < |pending|
    ensures multiset(Ids(pending)) == multiset(Ids(Without(pending, k))) + multiset([pending[k].id])
  {
    assert pending == pending[..k] + ([pending[k]] + pending[k + 1..]);
    IdsConcat(pending[..k], [pending[k]] + pending[k + 1..]);
    IdsConcat([pending[k]], pending[k + 1..]);
    IdsConcat(pending[..k], pending[k + 1..]);
    assert Ids([pending[k]]) == [pending[k].id];
  }

  lemma NoCalls(ok: bool)
    ensures Calls([], ok) == [] && Ids([]) == []
  {}

  lemma CallsAfterSend(s: State, frame: seq<bv8>, hasCallback: bool)
    requires CallInv(s)
    ensures CallInv(SendStep(s, frame, hasCallback))
  {
    hide Calls, Ids;
    var entry := Entry(|s.sent|, frame, hasCallback);
    CallsConcat(s.queue, [entry], true);
    CallsConcat(s.sent, [entry], true);
    IdsConcat(Calls(s.queue, true), Calls([entry], true));
    IdsConcat(Calls(s.sent, true), Calls([entry], true));
  }

  /** The first `k` entries leave the queue for the handler. */
  lemma CallsLeave(queue: seq<Entry>, k: nat, pending: seq<Call>, ok: bool)
    requires k <= |queue|
    ensures multiset(Ids(Calls(queue, true))) + multiset(Ids(pending)) ==
            multiset(Ids(Calls(queue[k..], true))) + multiset(Ids(pending + Calls(queue[..k], ok)))
  {
    hide Calls, Ids;
    assert queue == queue[..k] + queue[k..];
    CallsConcat(queue[..k], queue[k..], true);
    IdsConcat(Calls(queue[..k], true), Calls(queue[k..], true));
    SameIds(queue[..k], ok);
    IdsConcat(pending, Calls(queue[..k], ok));
  }

  lemma CallsAfterComplete(s: State, i: nat, ok: bool)
    requires QueueInv(s) && CallInv(s) && i < |s.writes|
    ensures CallInv(CompleteStep(s, i, ok))
  {
    hide Calls, Ids, Without;
    if !s.stopped {
      var k := if ok then 1 else |s.queue|;
      CallsLeave(s.queue, k, s.pending, ok);
      assert !ok ==> s.queue[..k] == s.queue && s.queue[k..] == [];
    }
  }

  lemma CallsKept(s: State, e: Event)
    requires QueueInv(s) && CallInv(s) && Allowed(s, e)
    ensures CallInv(Next(s, e))
  {
    hide SendStep, CompleteStep, Calls, Ids, Without;
    match e
    case Send(frame, cb) => CallsAfterSend(s, frame, cb);
    case Complete(i, ok) => CallsAfterComplete(s, i, ok);
    case Fire(k) =>
      MoveOne(s.pending, k);
      IdsConcat(s.fired, [s.pending[k]]);
      OneId(s.pending[k]);
    case Transmit(i, n) =>
    case Stop =>
  }

  lemma OneId(c: Call)
    ensures Ids([c]) == [c.id]
  {}

  lemma {:induction false} FailureCalls(entries: seq<Entry>)
    ensures forall k | 0 <= k < |Calls(entries, false)| :: !Calls(entries, false)[k].ok
  {
    if entries != [] {
      FailureCalls(entries[..|entries| - 1]);
    }
  }

  lemma FirstCall(entries: seq<Entry>, ok: bool)
    requires |entries| == 1
    ensures Calls(entries, ok) == if entries[0].hasCallback then [Call(entries[0].id, ok)] else []
  {
    assert Calls(entries[..0], ok) == [];
  }

  lemma HonestAfterComplete(s: State, i: nat, ok: bool)
    requires QueueInv(s) && WireInv(s) && Honest(s.pending, s) && Honest(s.fired, s) && Allowed(s, Complete(i, ok))
    ensures var t := CompleteStep(s, i, ok);
            QueueInv(t) && Honest(t.pending, t) && Honest(t.fired, t)
  {
    hide Wire, Calls, CompleteStep;
    QueueAfterComplete(s, i, ok);
    CompleteOnWire(s, i, ok);
    FailureCalls(s.queue);
    FirstCall(s.queue[..1], true);
  }

  lemma HonestAfterSend(s: State, frame: seq<bv8>, hasCallback: bool)
    requires QueueInv(s) && Honest(s.pending, s) && Honest(s.fired, s)
    ensures var t := SendStep(s, frame, hasCallback);
            QueueInv(t) && Honest(t.pending, t) && Honest(t.fired, t)
  {
    QueueAfterSend(s, frame, hasCallback);
  }

  lemma HonestAfterTransmit(s: State, i: nat, n: nat)
    requires QueueInv(s) && WireInv(s) && Honest(s.pending, s) && Honest(s.fired, s) && Allowed(s, Transmit(i, n))
    ensures var t := TransmitStep(s, i, n);
            QueueInv(t) && Honest(t.pending, t) && Honest(t.fired, t)
  {
    hide Wire;
    QueueAfterTransmit(s, i, n);
    assert s.writes[i].entry == s.sent[First(s)];
  }

  lemma HonestKept(s: State, e: Event)
    requires QueueInv(s) && WireInv(s) && Honest(s.pending, s) && Honest(s.fired, s) && Allowed(s, e)
    ensures var t := Next(s, e);
            QueueInv(t) && Honest(t.pending, t) && Honest(t.fired, t)
  {
    hide SendStep, TransmitStep, CompleteStep, WireInv;
    QueueKept(s, e);
    match e
    case Complete(i, ok) => HonestAfterComplete(s, i, ok);
    case Transmit(i, n) => HonestAfterTransmit(s, i, n);
    case Send(frame, cb) => HonestAfterSend(s, frame, cb);
    case Fire(k) =>
    case Stop =>
  }

  lemma Kept(s: State, e: Event)
    requires Inv(s) && Allowed(s, e)
    ensures Inv(Next(s, e))
  {
    hide QueueInv, WireInv, CallInv, Honest, Next, Allowed;
    WireKept(s, e);
    CallsKept(s, e);
    HonestKept(s, e);
  }

  // ---------- Every run ----------

  lemma StartInv()
    ensures Inv(START)
  {}

  lemma {:induction false} RunKeeps(s: State, es: seq<Event>)
    requires Inv(s) && Possible(s, es)
    ensures Inv(After(s, es))
    decreases |es|
  {
    hide Inv, Next, Allowed;
    if es != [] {
      Kept(s, es[0]);
      RunKeeps(Next(s, es[0]), es[1..]);
    }
  }

  /**
    At most one write is outstanding and it is that of the first entry; while the runner is not
    stopped, a queue with entries has one.
   */
  lemma OneWrite(es: seq<Event>)
    requires Possible(START, es)
    ensures var s := After(START, es);
            && |s.writes| <= 1
            && (s.writes != [] ==> s.queue != [] && s.writes[0].entry == s.queue[0])
            && (!s.stopped && s.queue != [] ==> |s.writes| == 1)
  {
    hide After, Possible, WireInv, CallInv, Honest;
    StartInv();
    RunKeeps(START, es);
  }

  // ---------- The order on the wire ----------

  /** The frames handed to `send`, in order. */
  function FramesOf(es: seq<Event>): seq<seq<bv8>> {
    if es == [] then []
    else (if es[0].Send? then [es[0].frame] else []) + FramesOf(es[1..])
  }

  /** Some write reported an error. */
  predicate AnyFailure(es: seq<Event>) {
    exists i | 0 <= i < |es| :: es[i].Complete? && !es[i].ok
  }

  function Frames(entries: seq<Entry>): seq<seq<bv8>> {
    seq(|entries|, i requires 0 <= i < |entries| => entries[i].frame)
  }

  lemma StepRecorded(s: State, e: Event)
    requires Allowed(s, e)
    ensures Frames(Next(s, e).sent) == Frames(s.sent) + (if e.Send? then [e.frame] else [])
    ensures Next(s, e).failed <==> s.failed || (e.Complete? && !e.ok)
  {
    hide Calls;
  }

  lemma {:induction false} RunRecorded(s: State, es: seq<Event>)
    requires Possible(s, es)
    ensures Frames(After(s, es).sent) == Frames(s.sent) + FramesOf(es)
    ensures After(s, es).failed <==> s.failed || AnyFailure(es)
    decreases |es|
  {
    hide Next, Allowed, Frames;
    if es != [] {
      var e, t := es[0], Next(s, es[0]);
      StepRecorded(s, e);
      RunRecorded(t, es[1..]);
      FailureFirst(es);
      Assoc(Frames(s.sent), if e.Send? then [e.frame] else [], FramesOf(es[1..]));
    }
  }

  lemma FailureFirst(es: seq<Event>)
    requires es != []
    ensures AnyFailure(es) <==> (es[0].Complete? && !es[0].ok) || AnyFailure(es[1..])
  {
    var rest := es[1..];
    assert forall i | 0 <= i < |rest| :: rest[i] == es[i + 1];
    assert forall i | 0 < i < |es| :: es[i] == rest[i - 1];
  }

  lemma WireLast(sent: seq<Entry>, transmitted: seq<nat>)
    requires sent != [] && |sent| == |transmitted| && transmitted[|sent| - 1] <= |sent[|sent| - 1].frame|
    ensures var n := |sent| - 1;
            Wire(sent, transmitted) == Wire(sent[..n], transmitted[..n]) + sent[n].frame[..transmitted[n]]
  {}

  /** Complete frames, then part of one, then nothing. */
  lemma {:induction false} WirePrefix(sent: seq<Entry>, transmitted: seq<nat>, h: nat)
    requires h <= |sent| == |transmitted|
    requires forall i | 0 <= i < |sent| :: transmitted[i] <= |sent[i].frame|
    requires forall i | 0 <= i < h :: transmitted[i] == |sent[i].frame|
    requires forall i | h < i < |sent| :: transmitted[i] == 0
    ensures Wire(sent, transmitted) <= Flatten(Frames(sent))
    ensures h == |sent| ==> Wire(sent, transmitted) == Flatten(Frames(sent))
  {
    hide Frames, Wire, Flatten;
    if sent == [] {
      NothingJoined();
    } else {
      var n := |sent| - 1;
      var front, frame, k := sent[..n], sent[n].frame, transmitted[n];
      WirePrefix(front, transmitted[..n], if h <= n then h else n);
      WireLast(sent, transmitted);
      JoinedLast(sent);
      if h >= n {
        PrefixOfLast(Flatten(Frames(front)), frame, k);
      } else {
        assert frame[..k] == [];
      }
    }
  }

  lemma NothingJoined()
    ensures Wire([], []) == [] && Flatten(Frames([])) == []
  {}

  lemma JoinedLast(sent: seq<Entry>)
    requires sent != []
    ensures var n := |sent| - 1;
            Flatten(Frames(sent)) == Flatten(Frames(sent[..n])) + sent[n].frame
  {
    assert Frames(sent)[..|sent| - 1] == Frames(sent[..|sent| - 1]);
  }

  lemma PrefixOfLast<T>(a: seq<T>, b: seq<T>, k: nat)
    requires k <= |b|
    ensures a + b[..k] <= a + b && (k == |b| ==> b[..k] == b)
  {}

  /**
    Bytes reach the wire in the order of the sends: as long as no write fails, the wire holds a
    prefix of the frames one after the other, and all of them once the queue is empty.
   */
  lemma InOrder(es: seq<Event>)
    requires Possible(START, es) && !AnyFailure(es)
    ensures After(START, es).wire <= Flatten(FramesOf(es))
    ensures After(START, es).queue == [] ==> After(START, es).wire == Flatten(FramesOf(es))
  {
    hide After, Possible, AnyFailure, Wire, Flatten, CallInv, Honest, FramesOf;
    var s := After(START, es);
    StartInv();
    RunKeeps(START, es);
    RunRecorded(START, es);
    assert Frames(START.sent) + FramesOf(es) == FramesOf(es);
    WirePrefix(s.sent, s.transmitted, First(s));
  }

  /**
    With failed writes too, the wire holds a first part of each frame, in the order of the sends, and
    nothing of a frame that waits behind another.
   */
  lemma FirstParts(es: seq<Event>)
    requires Possible(START, es)
    ensures var s := After(START, es);
            && Frames(s.sent) == FramesOf(es) && |s.transmitted| == |s.sent|
            && s.wire == Wire(s.sent, s.transmitted)
            && (forall i | 0 <= i < |s.sent| :: s.transmitted[i] <= |s.sent[i].frame|)
            && (forall i | 0 <= i < |s.sent| && First(s) < i :: s.transmitted[i] == 0)
  {
    hide After, Possible, AnyFailure, Wire, CallInv, Honest, FramesOf;
    StartInv();
    RunKeeps(START, es);
    RunRecorded(START, es);
    assert Frames(START.sent) + FramesOf(es) == FramesOf(es);
  }

  // ---------- Callbacks, once each ----------

  lemma {:induction false} CallCount(sent: seq<Entry>, h: nat, i: nat)
    requires h <= |sent| && forall k | 0 <= k < |sent| :: sent[k].id == k
    ensures multiset(Ids(Calls(sent[h..], true)))[i] == if h <= i < |sent| && sent[i].hasCallback then 1 else 0
  {
    hide Ids;
    NoCalls(true);
    if h < |sent| {
      var n := |sent| - 1;
      var front, last := sent[..n], if sent[n].hasCallback then [Call(n, true)] else [];
      CallCount(front, h, i);
      assert sent[h..][..|sent[h..]| - 1] == front[h..];
      IdsConcat(Calls(front[h..], true), last);
      OneId(Call(n, true));
    } else {
      assert sent[h..] == [];
    }
  }

  /**
    The callback of send `i` is called at most once; once it has left the queue, exactly one of
    being called and being with a handler that is about to call it holds, and before that neither.
   */
  lemma CalledOnce(es: seq<Event>, i: nat)
    requires Possible(START, es)
    ensures var s := After(START, es);
            multiset(Ids(s.fired))[i] + multiset(Ids(s.pending))[i] ==
            if i < First(s) && s.sent[i].hasCallback then 1 else 0
  {
    hide After, Possible, WireInv, Honest, Ids, Calls;
    StartInv();
    RunKeeps(START, es);
    var s := After(START, es);
    CallCount(s.sent, 0, i);
    CallCount(s.sent, First(s), i);
    assert s.sent[0..] == s.sent;
  }

  /**
    While the runner is not stopped, a write that succeeds takes its own entry from the queue, has the
    handler call that entry's callback with success, and starts the write of the next entry.
   */
  lemma SuccessTellsOne(es: seq<Event>)
    requires Possible(START, es) && Allowed(After(START, es), Complete(0, true)) && !After(START, es).stopped
    ensures var s := After(START, es);
            var t := Next(s, Complete(0, true));
            && s.queue != [] && s.queue[0].id == First(s) && t.queue == s.queue[1..]
            && t.pending == s.pending + (if s.queue[0].hasCallback then [Call(s.queue[0].id, true)] else [])
            && t.writes == if t.queue == [] then [] else [Write(t.queue[0], 0)]
  {
    hide After, Possible, WireInv, CallInv, Honest, Calls, CompleteStep;
    StartInv();
    RunKeeps(START, es);
    var s := After(START, es);
    CompleteEffect(s);
    FirstCall(s.queue[..1], true);
  }

  lemma CompleteEffect(s: State)
    requires QueueInv(s) && s.writes != [] && !s.stopped
    ensures var t := CompleteStep(s, 0, true);
            && s.queue != [] && s.queue[0].id == First(s) && t.queue == s.queue[1..]
            && t.pending == s.pending + Calls(s.queue[..1], true)
            && t.writes == if t.queue == [] then [] else [Write(t.queue[0], 0)]
    ensures var t := CompleteStep(s, 0, false);
            t.queue == [] && t.writes == [] && t.pending == s.pending + Calls(s.queue, false)
  {
    hide Calls, Without;
    WithoutOnly(s.writes, 0);
  }

  /** Calls with the failure, one for each callback in the queue. */
  ghost predicate AllFailed(calls: seq<Call>, s: State) {
    && (forall k | 0 <= k < |calls| :: !calls[k].ok)
    && (forall i: nat :: multiset(Ids(calls))[i] == if First(s) <= i < |s.sent| && s.sent[i].hasCallback then 1 else 0)
  }

  /**
    A write that fails empties the queue and has the handler call every callback that was waiting, each
    once and with the failure.
   */
  lemma FailureTellsAll(es: seq<Event>)
    requires Possible(START, es) && Allowed(After(START, es), Complete(0, false)) && !After(START, es).stopped
    ensures var s := After(START, es);
            var t := Next(s, Complete(0, false));
            && t.queue == [] && t.writes == [] && s.pending <= t.pending
            && AllFailed(t.pending[|s.pending|..], s)
  {
    hide After, Possible, WireInv, CallInv, Honest, Calls, CompleteStep, AllFailed;
    StartInv();
    RunKeeps(START, es);
    var s := After(START, es);
    CompleteEffect(s);
    CallsAllFailed(s);
    assert (s.pending + Calls(s.queue, false))[|s.pending|..] == Calls(s.queue, false);
  }

  lemma CallsAllFailed(s: State)
    requires QueueInv(s)
    ensures AllFailed(Calls(s.queue, false), s)
  {
    hide Calls, Ids;
    FailureCalls(s.queue);
    SameIds(s.queue, false);
    forall i: nat
      ensures multiset(Ids(Calls(s.queue, false)))[i] == if First(s) <= i < |s.sent| && s.sent[i].hasCallback then 1 else 0
    {
      CallCount(s.sent, First(s), i);
    }
  }

  /** A callback reports success only for a frame that is completely on the wire. */
  lemma SuccessIsTrue(es: seq<Event>, k: nat)
    requires Possible(START, es) && k < |After(START, es).fired| && After(START, es).fired[k].ok
    ensures var s := After(START, es);
            var i := s.fired[k].id;
            i < |s.sent| == |s.transmitted| && s.transmitted[i] == |s.sent[i].frame| && s.wire == Wire(s.sent, s.transmitted)
  {
    hide After, Possible, CallInv, Wire;
    StartInv();
    RunKeeps(START, es);
  }

  /** After the stop, nothing is called and nothing leaves the queue. */
  lemma {:induction false} SilentAfterStop(s: State, es: seq<Event>)
    requires s.stopped && s.pending == [] && Possible(s, es)
    ensures var t := After(s, es);
            t.stopped && t.pending == [] && t.fired == s.fired && s.queue <= t.queue
    decreases |es|
  {
    hide Next, Allowed;
    if es != [] {
      StoppedStep(s, es[0]);
      SilentAfterStop(Next(s, es[0]), es[1..]);
    }
  }

  /** So from the stop on, after any run. */
  lemma StopSilences(es: seq<Event>, more: seq<Event>)
    requires Possible(START, es) && Allowed(After(START, es), Stop)
    requires Possible(Next(After(START, es), Stop), more)
    ensures var s, t := After(START, es), After(Next(After(START, es), Stop), more);
            t.stopped && t.pending == [] && t.fired == s.fired && s.queue <= t.queue
  {
    SilentAfterStop(Next(After(START, es), Stop), more);
  }

  lemma StoppedStep(s: State, e: Event)
    requires s.stopped && s.pending == [] && Allowed(s, e)
    ensures var t := Next(s, e);
            t.stopped && t.pending == [] && t.fired == s.fired && s.queue <= t.queue
  {
    hide Calls;
  }

  lemma WritesFirst(s: State)
    requires Inv(s)
    ensures s.writes != [] ==> s.queue != []
  {}

  // ---------- The connection's methods ----------

  class Connection {
    var queue: seq<Entry>
    var writes: seq<Write>      // outstanding on the socket
    var stopped: bool           // the handler runner grants no more locks
    var pending: seq<Call>
    var fired: seq<Call>
    var wire: seq<bv8>
    ghost var sent: seq<Entry>
    ghost var transmitted: seq<nat>
    ghost var failed: bool
    var count: nat

    ghost function Now(): State
      reads this
    {
      State(queue, writes, stopped, pending, fired, wire, sent, transmitted, failed)
    }

    ghost predicate Valid()
      reads this
    {
      count == |sent| && Inv(Now())
    }

    constructor ()
      ensures Valid() && Now() == START
    {
      hide Inv;
      queue, writes, stopped, pending, fired, wire := [], [], false, [], [], [];
      sent, transmitted, failed, count := [], [], false, 0;
      new;
      StartInv();
    }

    method SendFromQueue()
      requires queue != []
      modifies this`writes
      ensures Now() == WithWrite(old(Now()))
    {
      writes := writes + [Write(queue[0], 0)];
    }

    /** `send`, once the frame is made. */
    method Send(frame: seq<bv8>, hasCallback: bool)
      requires Valid()
      modifies this
      ensures Valid() && Now() == Next(old(Now()), Event.Send(frame, hasCallback))
    {
      hide Inv;
      Kept(Now(), Event.Send(frame, hasCallback));
      CountSent(frame, hasCallback);
      var entry := Entry(count, frame, hasCallback);
      queue, count := queue + [entry], count + 1;
      sent, transmitted := sent + [entry], transmitted + [0];
      if |queue| == 1 {
        SendFromQueue();
      }
    }

    lemma CountSent(frame: seq<bv8>, hasCallback: bool)
      requires Valid()
      ensures |Next(Now(), Event.Send(frame, hasCallback)).sent| == count + 1
    {
      hide Inv;
    }

    /** The handler of a write, up to the release of the mutex. */
    method WriteHandler(write: nat, ok: bool)
      requires Valid() && Allowed(Now(), Complete(write, ok))
      modifies this
      ensures Valid() && Now() == Next(old(Now()), Complete(write, ok))
    {
      hide Calls, Inv, Without;
      Kept(Now(), Complete(write, ok));
      WritesFirst(Now());
      writes := Without(writes, write);
      failed := failed || !ok;
      if stopped {
        return;
      }
      if ok {
        var it := queue[0];
        FirstCall(queue[..1], true);
        queue := queue[1..];
        if |queue| > 0 {
          SendFromQueue();
        }
        if it.hasCallback {
          pending := pending + [Call(it.id, true)];
        } else {
          assert pending + [] == pending;
        }
      } else {
        var callbacks := CollectCallbacks(queue);
        queue := [];
        pending := pending + callbacks;
      }
    }

    /** All callbacks in the queue, for the error. */
    static method CollectCallbacks(queue: seq<Entry>) returns (callbacks: seq<Call>)
      ensures callbacks == Calls(queue, false)
    {
      callbacks := [];
      for k := 0 to |queue|
        invariant callbacks == Calls(queue[..k], false)
      {
        assert queue[..k + 1][..k] == queue[..k];
        if queue[k].hasCallback {
          callbacks := callbacks + [Call(queue[k].id, false)];
        }
      }
      assert queue[..|queue|] == queue;
    }
  }
}
