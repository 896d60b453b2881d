/**
  The two `read_message` loops of ext/Simple-WebSocket-Server-v2.0.2 as functions of the bytes that
  arrive after the handshake: what each calls back and what it sends in reply, until the stream or
  the connection ends. An asynchronous read takes the next bytes of the stream.
 */
module Readers {
  import opened Bits
  import opened Frames
  import opened Options

  datatype InMessage = InMessage(finRsvOpcode: bv8, length: nat, data: seq<bv8>)

  datatype ReadError = EndOfStream | MessageSize

  datatype Output =
    | OnMessage(finRsvOpcode: bv8, data: seq<bv8>)
    | OnPing
    | OnPong
    | OnClose(status: int, reason: seq<bv8>)
    | OnError(error: ReadError)
    | Send(finRsvOpcode: bv8, payload: seq<bv8>)   // handed to the connection's `send`
    | Overrun                                      // the length wrapped around; not followed further

  /** The part of a connection that the reader keeps from frame to frame. */
  datatype Conn = Conn(fragmented: Option<InMessage>, closed: bool)

  datatype Step = Stop(outputs: seq<Output>) | Continue(conn: Conn, outputs: seq<Output>)

  function Opcode(finRsvOpcode: bv8): bv8 { finRsvOpcode & 0x0f }
  predicate Final(finRsvOpcode: bv8) { finRsvOpcode & 0x80 != 0 }
  function PongOpcode(pingOpcode: bv8): bv8 { pingOpcode + 1 }
  function AsFinal(finRsvOpcode: bv8): bv8 { finRsvOpcode | 0x80 }

  // ---------- Closing ----------

  function StatusBytes(status: nat): seq<bv8> {
    [(status / 256 % 256) as bv8, (status % 256) as bv8]
  }

  /** `send_close` followed by `connection_close`; the close frame is sent only once. */
  function CloseOutputs(conn: Conn, status: nat, reason: seq<bv8>): seq<Output> {
    (if conn.closed then [] else [Send(136, StatusBytes(status) + reason)]) + [OnClose(status, reason)]
  }

  const TOO_BIG: seq<bv8> := Ascii("message too big")

  function TooBigOutputs(conn: Conn): seq<Output> {
    [OnError(MessageSize)] + CloseOutputs(conn, 1009, TOO_BIG)
  }

  function CloseStatus(data: seq<bv8>): nat
    requires |data| >= 2
  {
    data[0] as int * 256 + data[1] as int
  }

  /** A close frame: two bytes of status if there are that many, and the rest as the reason. */
  function CloseFrameOutputs(conn: Conn, length: nat, data: seq<bv8>): seq<Output> {
    if length >= 2 && |data| >= 2 then
      CloseOutputs(conn, CloseStatus(data), data[2..])
    else CloseOutputs(conn, 0, data)
  }

  // ---------- The size check ----------

  function PartialLength(conn: Conn): nat {
    match conn.fragmented
    case None => 0
    case Some(m) => m.length
  }

  /** Computed in std::size_t, so the sum may wrap around. */
  predicate TooBig(conn: Conn, length: nat, max: nat) {
    (length + PartialLength(conn)) % SIZE_LIMIT > max
  }

  // ---------- The server ----------

  function Extended(m: InMessage, length: nat, data: seq<bv8>): InMessage {
    m.(length := (m.length + length) % SIZE_LIMIT, data := m.data + data)
  }

  /** A frame that is not final, or has opcode 0, goes to the fragmented message. */
  predicate IsFragment(finRsvOpcode: bv8) {
    !Final(finRsvOpcode) || Opcode(finRsvOpcode) == 0
  }

  function ServerFragment(conn: Conn, fin: bv8, length: nat, data: seq<bv8>): InMessage {
    match conn.fragmented
    case None => InMessage(AsFinal(fin), length, data)
    case Some(m) => Extended(m, length, data)
  }

  /** read_message_content of server_ws.hpp, once the payload is unmasked. */
  function ServerStep(conn: Conn, fin: bv8, length: nat, data: seq<bv8>): Step {
    var message := if IsFragment(fin) then ServerFragment(conn, fin, length, data) else InMessage(fin, length, data);
    var now := if IsFragment(fin) then conn.(fragmented := Some(message)) else conn;
    if Opcode(fin) == 8 then Stop(CloseFrameOutputs(conn, length, message.data))
    else if Opcode(fin) == 9 then Continue(now, [Send(PongOpcode(fin), message.data), OnPing])
    else if Opcode(fin) == 10 then Continue(now, [OnPong])
    else if !Final(fin) then Continue(now, [])
    else Continue(now.(fragmented := None), [OnMessage(message.finRsvOpcode, message.data)])
  }

  const NOT_MASKED: seq<bv8> := Ascii("message from client not masked")

  /** The server's reader, from a frame boundary to the end of the stream. */
  function ServerRun(conn: Conn, max: nat, s: seq<bv8>): seq<Output>
    decreases |s|, 1
  {
    match ReadHeader(s, true)
    case Short => [OnError(EndOfStream)]
    case WrongMask => CloseOutputs(conn, 1002, NOT_MASKED)
    case Header(fin, length, rest) => ServerContent(conn, max, fin, length, rest)
  }

  /** ... and from the end of a header. */
  function ServerContent(conn: Conn, max: nat, fin: bv8, length: nat, rest: seq<bv8>): seq<Output>
    decreases |rest|, 3
  {
    if TooBig(conn, length, max) then TooBigOutputs(conn)
    else if |rest| < (4 + length) % SIZE_LIMIT then [OnError(EndOfStream)]
    else if 4 + length >= SIZE_LIMIT then [Overrun]
    else ServerThen(ServerStep(conn, fin, length, Masked(rest[4..4 + length], rest[..4])), max, rest[4 + length..])
  }

  function ServerThen(step: Step, max: nat, more: seq<bv8>): seq<Output>
    decreases |more|, 2
  {
    match step
    case Stop(outputs) => outputs
    case Continue(next, outputs) => outputs + ServerRun(next, max, more)
  }

  // ---------- The client ----------

  /** read_message_content of client_ws.hpp. */
  function ClientStep(conn: Conn, fin: bv8, length: nat, data: seq<bv8>): Step {
    if Opcode(fin) == 8 then Stop(CloseFrameOutputs(conn, length, data))
    else if Opcode(fin) == 9 then Continue(conn, [Send(PongOpcode(fin), data), OnPing])
    else if Opcode(fin) == 10 then Continue(conn, [OnPong])
    else if !Final(fin) then
      var message := match conn.fragmented
                     case None => InMessage(AsFinal(fin), length, data)
                     case Some(m) => Extended(m, length, data);
      Continue(conn.(fragmented := Some(message)), [])
    else
      var message := match conn.fragmented
                     case None => InMessage(fin, length, data)
                     case Some(m) => Extended(m, length, data);
      Continue(conn.(fragmented := None), [OnMessage(message.finRsvOpcode, message.data)])
  }

  const MASKED_REPLY: seq<bv8> := Ascii("message from server masked")

  /** The client's reader, from a frame boundary to the end of the stream. */
  function ClientRun(conn: Conn, max: nat, s: seq<bv8>): seq<Output>
    decreases |s|, 1
  {
    match ReadHeader(s, false)
    case Short => [OnError(EndOfStream)]
    case WrongMask => CloseOutputs(conn, 1002, MASKED_REPLY)
    case Header(fin, length, rest) => ClientContent(conn, max, fin, length, rest)
  }

  function ClientContent(conn: Conn, max: nat, fin: bv8, length: nat, rest: seq<bv8>): seq<Output>
    decreases |rest|, 3
  {
    if TooBig(conn, length, max) then TooBigOutputs(conn)
    else if |rest| < length then [OnError(EndOfStream)]
    else ClientThen(ClientStep(conn, fin, length, rest[..length]), max, rest[length..])
  }

  function ClientThen(step: Step, max: nat, more: seq<bv8>): seq<Output>
    decreases |more|, 2
  {
    match step
    case Stop(outputs) => outputs
    case Continue(next, outputs) => outputs + ClientRun(next, max, more)
  }
}
