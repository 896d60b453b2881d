/** A message object: its first byte, its announced length and its stream buffer. */
module Messages {
  import Readers

  class MessageBuffer {
    var finRsvOpcode: bv8
    var length: nat
    var streambuf: seq<bv8>

    constructor (finRsvOpcode: bv8, length: nat)
      ensures this.finRsvOpcode == finRsvOpcode && this.length == length && streambuf == []
    {
      this.finRsvOpcode, this.length, streambuf := finRsvOpcode, length, [];
    }

    function Value(): Readers.InMessage
      reads this
    {
      Readers.InMessage(finRsvOpcode, length, streambuf)
    }
  }
}

/**
  `read_message` and `read_message_content` of
  ext/Simple-WebSocket-Server-v2.0.2/server_ws.hpp:602-781. A callback that starts the next read is a
  call; `log` records, in order, the handlers that are called and the frames handed to `send`.
 */
module ServerReader {
  import opened Bits
  import opened Frames
  import opened FrameCode
  import opened Messages
  import opened Options
  import opened Readers
  import opened Sequences

  /** What follows once the second byte has asked for `n` more bytes of length. */
  function AfterExtended(conn: Conn, max: nat, fin: bv8, n: nat, s: seq<bv8>): seq<Output> {
    if |s| < n then [OnError(EndOfStream)] else ServerContent(conn, max, fin, FromBigEndian(s[..n]), s[n..])
  }

  lemma RunByHeader(conn: Conn, max: nat, s: seq<bv8>)
    ensures ServerRun(conn, max, s) ==
            if |s| < 2 then [OnError(EndOfStream)]
            else if !MaskBit(s[1]) then CloseOutputs(conn, 1002, NOT_MASKED)
            else if ShortLength(s[1]) == 126 then AfterExtended(conn, max, s[0], 2, s[2..])
            else if ShortLength(s[1]) == 127 then AfterExtended(conn, max, s[0], 8, s[2..])
            else ServerContent(conn, max, s[0], ShortLength(s[1]), s[2..])
  {
    hide ServerContent, CloseOutputs, FromBigEndian, MaskBit, ShortLength;
    if |s| >= 4 {
      assert s[2..][..2] == s[2..4] && s[2..][2..] == s[4..];
    }
    if |s| >= 10 {
      assert s[2..][..8] == s[2..10] && s[2..][8..] == s[10..];
    }
  }

  lemma ContentCases(conn: Conn, max: nat, fin: bv8, length: nat, rest: seq<bv8>)
    ensures ServerContent(conn, max, fin, length, rest) ==
            if (length + PartialLength(conn)) % SIZE_LIMIT > max then [OnError(MessageSize)] + CloseOutputs(conn, 1009, TOO_BIG)
            else if |rest| < (4 + length) % SIZE_LIMIT then [OnError(EndOfStream)]
            else if 4 + length >= SIZE_LIMIT then [Overrun]
            else ServerThen(ServerStep(conn, fin, length, Masked(rest[4..4 + length], rest[..4])), max, rest[4 + length..])
  {
    hide ServerThen, ServerStep, Masked, CloseOutputs;
  }

  /** The message and the connection after a payload has been stored. */
  function StoredIn(conn: Conn, fin: bv8, length: nat, data: seq<bv8>): InMessage {
    if IsFragment(fin) then ServerFragment(conn, fin, length, data) else InMessage(fin, length, data)
  }

  function AfterStore(conn: Conn, fin: bv8, length: nat, data: seq<bv8>): Conn {
    if IsFragment(fin) then conn.(fragmented := Some(StoredIn(conn, fin, length, data))) else conn
  }

  lemma ThenByOpcode(conn: Conn, fin: bv8, length: nat, data: seq<bv8>, max: nat, more: seq<bv8>)
    requires length == |data|
    ensures var message, next := StoredIn(conn, fin, length, data), AfterStore(conn, fin, length, data);
            && next.closed == conn.closed && |message.data| >= length
            && ServerThen(ServerStep(conn, fin, length, data), max, more) ==
               if Opcode(fin) == 8 then
                 if length >= 2 then
                   CloseOutputs(next, CloseStatus(message.data), message.data[2..])
                 else CloseOutputs(next, 0, message.data)
               else if Opcode(fin) == 9 then [Send(PongOpcode(fin), message.data), OnPing] + ServerRun(next, max, more)
               else if Opcode(fin) == 10 then [OnPong] + ServerRun(next, max, more)
               else if !Final(fin) then ServerRun(next, max, more)
               else [OnMessage(message.finRsvOpcode, message.data)] + ServerRun(next.(fragmented := None), max, more)
  {
    hide ServerRun, Opcode, Final, AsFinal, StatusBytes, CloseStatus;
  }

  class Connection {
    var socket: seq<bv8>            // what is still to arrive
    var streambuf: seq<bv8>         // what has arrived and is not yet used
    var fragmented: MessageBuffer?
    var closed: bool
    var log: seq<Output>
    const max: nat                  // config.max_message_size

    constructor (socket: seq<bv8>, max: nat)
      ensures this.socket == socket && this.max == max && streambuf == [] && log == []
      ensures fragmented == null && Now() == Conn(None, false)
    {
      this.socket, this.max, streambuf, fragmented, closed, log := socket, max, [], null, false, [];
    }

    function Now(): Conn
      reads this, fragmented
    {
      Conn(if fragmented == null then None else Some(fragmented.Value()), closed)
    }

    /** An asynchronous read of exactly `n` bytes, or the end of the stream. */
    method AsyncRead(n: nat) returns (ok: bool)
      modifies this`socket, this`streambuf
      ensures ok <==> n <= |old(socket)|
      ensures ok ==> streambuf == old(streambuf) + old(socket)[..n] && socket == old(socket)[n..]
    {
      var k := if n <= |socket| then n else |socket|;
      ok := n <= |socket|;
      streambuf, socket := streambuf + socket[..k], socket[k..];
    }

    method Take(n: nat) returns (data: seq<bv8>)
      requires n <= |streambuf|
      modifies this`streambuf
      ensures data == old(streambuf)[..n] && streambuf == old(streambuf)[n..]
    {
      data, streambuf := streambuf[..n], streambuf[n..];
    }

    /** The close frame is sent only once. */
    method Close(status: nat, reason: seq<bv8>)
      modifies this`closed, this`log
      ensures closed && log == old(log) + CloseOutputs(old(Now()), status, reason)
    {
      if !closed {
        closed := true;
        log := log + [Send(136, StatusBytes(status) + reason)];
      }
      log := log + [OnClose(status, reason)];
    }

    method ReadMessage()
      requires streambuf == []
      modifies this, fragmented
      ensures log == old(log) + ServerRun(old(Now()), max, old(socket))
      decreases |socket|, 1
    {
      hide ServerRun, ServerContent, AfterExtended, CloseOutputs, MaskBit, ShortLength;
      ghost var s := socket;
      RunByHeader(Now(), max, s);
      var ok := AsyncRead(2);
      if !ok {
        log := log + [OnError(EndOfStream)];
        return;
      }
      var first := Take(2);
      assert first == [s[0], s[1]] && socket == s[2..];
      if !MaskBit(first[1]) {
        Close(1002, NOT_MASKED);
        return;
      }
      var length := ShortLength(first[1]);
      if length == 126 {
        ReadExtended(2, first[0]);
      } else if length == 127 {
        ReadExtended(8, first[0]);
      } else {
        ReadMessageContent(length, first[0]);
      }
    }

    /** The two callbacks that read the next two or eight bytes as the length. */
    method ReadExtended(numBytes: nat, fin: bv8)
      requires streambuf == [] && numBytes > 0
      modifies this, fragmented
      ensures log == old(log) + AfterExtended(old(Now()), max, fin, numBytes, old(socket))
      decreases |socket|, 4
    {
      hide ServerContent, FromBigEndian;
      var ok := AsyncRead(numBytes);
      if !ok {
        log := log + [OnError(EndOfStream)];
        return;
      }
      var bytes := Take(numBytes);
      assert bytes == old(socket)[..numBytes] && socket == old(socket)[numBytes..];
      var n := ReadLength(bytes);
      ReadMessageContent(n, fin);
    }

    /** The message that the payload goes to, and the payload without its mask. */
    method Collect(fin: bv8, length: nat, mask: Mask) returns (message: MessageBuffer)
      requires length <= |streambuf|
      modifies this`fragmented, this`streambuf, fragmented
      ensures streambuf == old(streambuf)[length..]
      ensures fragmented == null || fragmented == old(fragmented) || fresh(fragmented)
      ensures message == fragmented || fresh(message)
      ensures var data := Masked(old(streambuf)[..length], mask);
              && message.Value() == StoredIn(old(Now()), fin, length, data)
              && Now() == AfterStore(old(Now()), fin, length, data)
    {
      hide Masked;
      if !Final(fin) || Opcode(fin) == 0 {
        if fragmented == null {
          fragmented := new MessageBuffer(fin, length);
          fragmented.finRsvOpcode := fin | 0x80;
        } else {
          fragmented.length := (fragmented.length + length) % SIZE_LIMIT;
        }
        message := fragmented;
      } else {
        message := new MessageBuffer(fin, length);
      }
      var payload := Take(length);
      message.streambuf := PutMasked(message.streambuf, payload, mask);
    }

    method ReadMessageContent(length: nat, fin: bv8)
      requires streambuf == []
      modifies this, fragmented
      ensures log == old(log) + ServerContent(old(Now()), max, fin, length, old(socket))
      decreases |socket|, 3
    {
      hide ServerContent, ServerThen, ServerStep, Masked, CloseOutputs, StoredIn, AfterStore;
      ghost var rest, conn := socket, Now();
      ContentCases(conn, max, fin, length, rest);
      if (length + if fragmented != null then fragmented.length else 0) % SIZE_LIMIT > max {
        log := log + [OnError(MessageSize)];
        Close(1009, TOO_BIG);
        return;
      }
      var ok := AsyncRead((4 + length) % SIZE_LIMIT);
      if !ok {
        log := log + [OnError(EndOfStream)];
        return;
      }
      if 4 + length >= SIZE_LIMIT {
        log := log + [Overrun];
        return;
      }
      var mask := Take(4);
      assert mask == rest[..4] && streambuf == rest[4..4 + length] && socket == rest[4 + length..];
      var message := Collect(fin, length, mask);
      assert rest[4..4 + length][..length] == rest[4..4 + length];
      Handle(conn, fin, length, Masked(rest[4..4 + length], mask), message);
    }

    /** The rest of the callback, by opcode. */
    method Handle(ghost conn: Conn, fin: bv8, length: nat, ghost data: seq<bv8>, message: MessageBuffer)
      requires streambuf == [] && length == |data|
      requires message.Value() == StoredIn(conn, fin, length, data) && Now() == AfterStore(conn, fin, length, data)
      modifies this, fragmented
      ensures log == old(log) + ServerThen(ServerStep(conn, fin, length, data), max, old(socket))
      decreases |socket|, 2
    {
      hide ServerThen, ServerStep, StoredIn, AfterStore, Opcode, Final, CloseOutputs, CloseStatus, IsFragment, ServerRun;
      ThenByOpcode(conn, fin, length, data, max, socket);
      ghost var next := Now();
      if Opcode(fin) == 8 {
        var status, reason := 0, message.streambuf;
        if length >= 2 {
          status, reason := CloseStatus(reason), reason[2..];
        }
        Close(status, reason);
      } else if Opcode(fin) == 9 {
        ghost var out := [Send(PongOpcode(fin), message.streambuf), OnPing];
        log := log + [Send(PongOpcode(fin), message.streambuf), OnPing];
        assert Now() == next;
        Assoc(old(log), out, ServerRun(next, max, socket));
        ReadMessage();
      } else if Opcode(fin) == 10 {
        log := log + [OnPong];
        assert Now() == next;
        Assoc(old(log), [OnPong], ServerRun(next, max, socket));
        ReadMessage();
      } else if !Final(fin) {
        ReadMessage();
      } else {
        ghost var out := [OnMessage(message.finRsvOpcode, message.streambuf)];
        log := log + [OnMessage(message.finRsvOpcode, message.streambuf)];
        fragmented := null;
        Assoc(old(log), out, ServerRun(Now(), max, socket));
        ReadMessage();
      }
    }
  }

  /** A connection from the end of the handshake to the end of its stream. */
  method Serve(socket: seq<bv8>, max: nat) returns (log: seq<Output>)
    ensures log == ServerRun(Conn(None, false), max, socket)
  {
    hide ServerRun;
    var connection := new Connection(socket, max);
    connection.ReadMessage();
    log := connection.log;
  }
}
