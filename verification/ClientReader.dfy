/**
  `read_message` and `read_message_content` of
  ext/Simple-WebSocket-Server-v2.0.2/client_ws.hpp:473-672. The first message object may already hold
  bytes that arrived with the upgrade response; `numAdditionalBytes` counts how many of them are
  unread.
 */
module ClientReader {
  import opened Bits
  import opened Frames
  import opened FrameCode
  import opened Messages
  import opened Options
  import opened Readers
  import opened Sequences

  /** What follows once the second byte has asked for `n` more bytes of length. */
  function AfterExtended(conn: Conn, max: nat, fin: bv8, n: nat, s: seq<bv8>): seq<Output> {
    if |s| < n then [OnError(EndOfStream)] else ClientContent(conn, max, fin, FromBigEndian(s[..n]), s[n..])
  }

  lemma RunByHeader(conn: Conn, max: nat, s: seq<bv8>)
    ensures ClientRun(conn, max, s) ==
            if |s| < 2 then [OnError(EndOfStream)]
            else if MaskBit(s[1]) then CloseOutputs(conn, 1002, MASKED_REPLY)
            else if ShortLength(s[1]) == 126 then AfterExtended(conn, max, s[0], 2, s[2..])
            else if ShortLength(s[1]) == 127 then AfterExtended(conn, max, s[0], 8, s[2..])
            else ClientContent(conn, max, s[0], ShortLength(s[1]), s[2..])
  {
    hide ClientContent, CloseOutputs, FromBigEndian, MaskBit, ShortLength;
    if |s| >= 4 {
      assert s[2..][..2] == s[2..4] && s[2..][2..] == s[4..];
    }
    if |s| >= 10 {
      assert s[2..][..8] == s[2..10] && s[2..][8..] == s[10..];
    }
  }

  /** The message that a data frame completes or adds to. */
  function Joined(conn: Conn, fin: bv8, length: nat, data: seq<bv8>): InMessage {
    match conn.fragmented
    case None => InMessage(fin, length, data)
    case Some(m) => Extended(m, length, data)
  }

  lemma ThenByOpcode(conn: Conn, fin: bv8, length: nat, data: seq<bv8>, max: nat, more: seq<bv8>)
    requires length == |data|
    ensures ClientThen(ClientStep(conn, fin, length, data), max, more) ==
            if Opcode(fin) == 8 then
              if length >= 2 then CloseOutputs(conn, CloseStatus(data), data[2..])
              else CloseOutputs(conn, 0, data)
            else if Opcode(fin) == 9 then [Send(PongOpcode(fin), data), OnPing] + ClientRun(conn, max, more)
            else if Opcode(fin) == 10 then [OnPong] + ClientRun(conn, max, more)
            else if !Final(fin) then
              ClientRun(conn.(fragmented := Some(Joined(conn, AsFinal(fin), length, data))), max, more)
            else
              [OnMessage(Joined(conn, fin, length, data).finRsvOpcode, Joined(conn, fin, length, data).data)]
              + ClientRun(conn.(fragmented := None), max, more)
  {
    hide ClientRun, Opcode, Final, AsFinal, StatusBytes, CloseStatus;
  }

  class Connection {
    var socket: seq<bv8>            // what is still to arrive
    var inMessage: MessageBuffer
    var fragmented: MessageBuffer?
    var closed: bool
    var log: seq<Output>
    const max: nat                  // config.max_message_size

    /** After the handshake: `buffered` came with the upgrade response. */
    constructor (buffered: seq<bv8>, socket: seq<bv8>, max: nat)
      ensures Valid() && fresh(inMessage) && this.socket == socket && this.max == max && log == []
      ensures inMessage.streambuf == buffered && fragmented == null && Now() == Conn(None, false)
    {
      var message := new MessageBuffer(0, 0);
      message.streambuf := buffered;
      inMessage, this.socket, this.max, fragmented, closed, log := message, socket, max, null, false, [];
    }

    /** The message being read is never the one being put together. */
    predicate Valid()
      reads this
    {
      inMessage != fragmented
    }

    function Now(): Conn
      reads this, fragmented
    {
      Conn(if fragmented == null then None else Some(fragmented.Value()), closed)
    }

    /** The unread bytes, whether they have arrived or not. */
    function Unread(): seq<bv8>
      reads this, inMessage
    {
      inMessage.streambuf + socket
    }

    /**
      A read that leaves at least `n` bytes in the buffer, of which `additional` are there already,
      or the end of the stream.
     */
    method AsyncRead(n: nat, additional: nat) returns (ok: bool)
      requires additional == |inMessage.streambuf|
      modifies this`socket, inMessage`streambuf
      ensures Unread() == old(Unread())
      ensures ok <==> n <= |Unread()|
      ensures ok ==> |inMessage.streambuf| == if additional > n then additional else n
    {
      var exactly := if additional > n then 0 else n - additional;
      var k := if exactly <= |socket| then exactly else |socket|;
      ok := exactly <= |socket|;
      MoveAcross(inMessage.streambuf, socket, k);
      inMessage.streambuf, socket := inMessage.streambuf + socket[..k], socket[k..];
    }

    method Take(n: nat) returns (data: seq<bv8>)
      requires n <= |inMessage.streambuf|
      modifies inMessage`streambuf
      ensures data == old(Unread())[..n] && Unread() == old(Unread())[n..]
      ensures |inMessage.streambuf| == old(|inMessage.streambuf|) - n
    {
      data := inMessage.streambuf[..n];
      inMessage.streambuf := inMessage.streambuf[n..];
    }

    /** The close frame is sent only once. */
    method Close(status: nat, reason: seq<bv8>)
      modifies this`closed, this`log
      ensures closed && log == old(log) + CloseOutputs(old(Now()), status, reason)
    {
      if !closed {
        closed := true;
        log := log + [Send(136, StatusBytes(status) + reason)];
      }
      log := log + [OnClose(status, reason)];
    }

    /** The run depends only on the unread bytes, not on how many of them are buffered. */
    method ReadMessage(numAdditionalBytes: nat)
      requires Valid() && numAdditionalBytes == |inMessage.streambuf|
      modifies this, inMessage, fragmented
      ensures log == old(log) + ClientRun(old(Now()), max, old(Unread()))
      decreases |Unread()|, 1
    {
      hide ClientRun, ClientContent, AfterExtended, CloseOutputs, MaskBit, ShortLength;
      ghost var s := Unread();
      RunByHeader(Now(), max, s);
      var ok := AsyncRead(2, numAdditionalBytes);
      if !ok {
        log := log + [OnError(EndOfStream)];
        return;
      }
      var updated := if numAdditionalBytes > 2 then numAdditionalBytes - 2 else 0;
      var first := Take(2);
      assert first == [s[0], s[1]];
      inMessage.finRsvOpcode := first[0];
      if MaskBit(first[1]) {
        Close(1002, MASKED_REPLY);
        return;
      }
      var length := ShortLength(first[1]);
      if length == 126 {
        ReadExtended(2, updated);
      } else if length == 127 {
        ReadExtended(8, updated);
      } else {
        inMessage.length := length;
        ReadMessageContent(updated);
      }
    }

    /** The two callbacks that read the next two or eight bytes as the length. */
    method ReadExtended(numBytes: nat, numAdditionalBytes: nat)
      requires Valid() && numAdditionalBytes == |inMessage.streambuf| && numBytes > 0
      modifies this, inMessage, fragmented
      ensures log == old(log) + AfterExtended(old(Now()), max, old(inMessage.finRsvOpcode), numBytes, old(Unread()))
      decreases |Unread()|, 4
    {
      hide ClientContent, FromBigEndian;
      var ok := AsyncRead(numBytes, numAdditionalBytes);
      if !ok {
        log := log + [OnError(EndOfStream)];
        return;
      }
      var bytes := Take(numBytes);
      var n := ReadLength(bytes);
      inMessage.length := n;
      ReadMessageContent(if numAdditionalBytes > numBytes then numAdditionalBytes - numBytes else 0);
    }

    method ReadMessageContent(numAdditionalBytes: nat)
      requires Valid() && numAdditionalBytes == |inMessage.streambuf|
      modifies this, inMessage, fragmented
      ensures log == old(log) + ClientContent(old(Now()), max, old(inMessage.finRsvOpcode), old(inMessage.length), old(Unread()))
      decreases |Unread()|, 3
    {
      hide ClientThen, ClientStep, CloseOutputs;
      if (inMessage.length + if fragmented != null then fragmented.length else 0) % SIZE_LIMIT > max {
        log := log + [OnError(MessageSize)];
        Close(1009, TOO_BIG);
        return;
      }
      ghost var rest := Unread();
      var ok := AsyncRead(inMessage.length, numAdditionalBytes);
      if !ok {
        log := log + [OnError(EndOfStream)];
        return;
      }
      var updated := if numAdditionalBytes > inMessage.length then numAdditionalBytes - inMessage.length else 0;
      var next := NextMessage(updated);
      assert inMessage.streambuf == rest[..inMessage.length];
      assert next.streambuf + socket == rest[inMessage.length..];
      Handle(next, updated);
    }

    /** Bytes beyond this message, if any, stay in the old object, which is then read next. */
    method NextMessage(updated: nat) returns (next: MessageBuffer)
      requires Valid() && |inMessage.streambuf| == inMessage.length + updated
      modifies this`inMessage, inMessage`streambuf
      ensures inMessage != fragmented && next != fragmented && next != inMessage
      ensures (inMessage == old(inMessage) && fresh(next)) || (next == old(inMessage) && fresh(inMessage))
      ensures inMessage.length == old(inMessage.length) && inMessage.finRsvOpcode == old(inMessage.finRsvOpcode)
      ensures inMessage.streambuf == old(inMessage.streambuf)[..inMessage.length]
      ensures next.streambuf == old(inMessage.streambuf)[inMessage.length..] && |next.streambuf| == updated
    {
      if updated > 0 {
        next := inMessage;
        inMessage := new MessageBuffer(next.finRsvOpcode, next.length);
        inMessage.streambuf := next.streambuf[..next.length];
        next.streambuf := next.streambuf[next.length..];
      } else {
        next := new MessageBuffer(0, 0);
      }
    }

    /** Moves the frame just read to the end of the partial message. */
    method Extend()
      requires Valid() && fragmented != null
      modifies fragmented, inMessage`streambuf
      ensures fragmented.Value() == old(Extended(fragmented.Value(), inMessage.length, inMessage.streambuf))
    {
      fragmented.length := (fragmented.length + inMessage.length) % SIZE_LIMIT;
      fragmented.streambuf := fragmented.streambuf + inMessage.streambuf;
      inMessage.streambuf := [];
    }

    /** The rest of the callback, by opcode. */
    method Handle(next: MessageBuffer, updated: nat)
      requires Valid() && inMessage.length == |inMessage.streambuf|
      requires next != fragmented && next != inMessage && updated == |next.streambuf|
      modifies this, inMessage, fragmented, next
      ensures log == old(log) + ClientThen(ClientStep(old(Now()), old(inMessage.finRsvOpcode), old(inMessage.length), old(inMessage.streambuf)),
                                           max, old(next.streambuf + socket))
      decreases |next.streambuf| + |socket|, 2
    {
      hide ClientRun, ClientThen, ClientStep, Opcode, Final, AsFinal, PongOpcode, CloseOutputs, CloseStatus, Extended;
      ghost var more, before := next.streambuf + socket, log;
      var fin, length := inMessage.finRsvOpcode, inMessage.length;
      ThenByOpcode(Now(), fin, length, inMessage.streambuf, max, next.streambuf + socket);
      if Opcode(fin) == 8 {
        var status, reason := 0, inMessage.streambuf;
        if length >= 2 {
          status, reason := CloseStatus(reason), reason[2..];
        }
        Close(status, reason);
      } else if Opcode(fin) == 9 {
        ghost var out := [Send(PongOpcode(fin), inMessage.streambuf), OnPing];
        log := log + [Send(PongOpcode(fin), inMessage.streambuf), OnPing];
        inMessage := next;
        Assoc(before, out, ClientRun(Now(), max, more));
        ReadMessage(updated);
      } else if Opcode(fin) == 10 {
        log := log + [OnPong];
        inMessage := next;
        Assoc(before, [OnPong], ClientRun(Now(), max, more));
        ReadMessage(updated);
      } else if !Final(fin) {
        if fragmented == null {
          fragmented := inMessage;
          fragmented.finRsvOpcode := AsFinal(fragmented.finRsvOpcode);
        } else {
          Extend();
        }
        inMessage := next;
        ReadMessage(updated);
      } else {
        if fragmented != null {
          Extend();
          log := log + [OnMessage(fragmented.finRsvOpcode, fragmented.streambuf)];
        } else {
          log := log + [OnMessage(inMessage.finRsvOpcode, inMessage.streambuf)];
        }
        ghost var out := log[|before|..];
        inMessage := next;
        fragmented := null;
        Assoc(before, out, ClientRun(Now(), max, more));
        ReadMessage(updated);
      }
    }
  }

  /** A connection from the end of the handshake to the end of its stream. */
  method Serve(buffered: seq<bv8>, socket: seq<bv8>, max: nat) returns (log: seq<Output>)
    ensures log == ClientRun(Conn(None, false), max, buffered + socket)
  {
    hide ClientRun;
    var connection := new Connection(buffered, socket, max);
    connection.ReadMessage(|buffered|);
    log := connection.log;
  }
}
