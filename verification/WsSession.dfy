/** The WebSocket session of src/ws.c as functions on its state: parsing, reassembly, closing. */
module WsSession {
  import opened Bytes
  import opened WsFrame
  import Utf8

  datatype Kind = Text | Binary

  datatype Message = Message(kind: Kind, data: Octets)

  /** What an observer notes: frames sent, frames taken from the input, messages handed out, the end. */
  datatype Event =
    | Sent(frame: Frame)
    | Took(frame: Frame)
    | Delivered(message: Message, cap: nat)
    | Failed
    | PeerClosed

  datatype Log = Empty | And(before: Log, event: Event)

  datatype Session = Session(
    isServer: bool, cap: nat,
    input: Octets, frag: Octets, kind: Kind, fragActive: bool,
    closeSent: bool, closeRecv: bool, failed: bool, closeCode: nat,
    log: Log)

  function Note(s: Session, e: Event): Session {
    s.(log := And(s.log, e))
  }

  function SendClose(s: Session, payload: Octets): Session {
    if s.closeSent then s else Note(s, Sent(Frame(true, OP_CLOSE, payload))).(closeSent := true)
  }

  /** A protocol error: Close once, and the session is over. */
  function Fail(s: Session, code: nat): Session {
    Note(SendClose(s, Be(code, 2)), Failed).(failed := true)
  }

  datatype Outcome = Again | NeedMore | Closed | Deliver(message: Message) | Error

  function Room(s: Session): int {
    s.cap - |s.frag|
  }

  predicate CodeAllowed(code: nat) {
    1000 <= code <= 1003 || 1007 <= code <= 1014 || 3000 <= code <= 4999
  }

  ghost function OnClose(s: Session, payload: Octets): (Session, Outcome) {
    var n := |payload|;
    var code := if n >= 2 then 256 * (payload[0] as int) + payload[1] else 1005;
    if n == 1 || (n >= 2 && !CodeAllowed(code)) then (Fail(s, 1002), Error)
    else if n > 2 && !Utf8.WellFormed(payload[2..]) then (Fail(s, 1007), Error)
    else
      (SendClose(Note(s, PeerClosed).(closeCode := code, closeRecv := true), if n >= 2 then Be(code, 2) else []),
       Closed)
  }

  /** Acts on a complete frame; `s` has it on record and its octets consumed. */
  ghost function OnFrame(s: Session, f: Frame): (Session, Outcome) {
    if f.opcode == OP_PING then (Note(s, Sent(Frame(true, OP_PONG, f.payload))), Again)
    else if f.opcode == OP_PONG then (s, Again)
    else if f.opcode == OP_CLOSE then OnClose(s, f.payload)
    else if f.opcode == OP_CONT then
      var data := s.frag + f.payload;
      if !f.fin then (s.(frag := data), Again)
      else if s.kind.Text? && !Utf8.WellFormed(data) then (Fail(s.(fragActive := false, frag := []), 1007), Error)
      else (s.(fragActive := false, frag := []), Deliver(Message(s.kind, data)))
    else
      var kind := if f.opcode == OP_TEXT then Text else Binary;
      if !f.fin then (s.(fragActive := true, kind := kind, frag := s.frag + f.payload), Again)
      else if kind.Text? && !Utf8.WellFormed(f.payload) then (Fail(s, 1007), Error)
      else (s, Deliver(Message(kind, f.payload)))
  }

  /** A data frame that starts a message inside another, or continues none. */
  predicate OutOfPlace(s: Session, f: Frame) {
    !Control(f.opcode) && (if s.fragActive then f.opcode != OP_CONT else f.opcode == OP_CONT)
  }

  /** Input after the payload of its first frame was unmasked in place. */
  function Unmasked(input: Octets, r: Parsed): Octets
    requires r.Got? && r.off <= r.total <= |input|
  {
    input[..r.off] + r.frame.payload + input[r.total..]
  }

  /** At most one frame of the input. */
  ghost function Step(s: Session): (r: (Session, Outcome))
    ensures r.1.Again? || r.1.Deliver? ==> |r.0.input| < |s.input|
    ensures r.1.NeedMore? ==> r.0 == s
  {
    var r := Parse(s.isServer, Room(s), s.input);
    match r
    case More => (s, NeedMore)
    case Bad(code) => (Fail(s, code), Error)
    case Got(f, _, total) =>
      var s1 := Note(s, Took(f));
      if OutOfPlace(s, f) then (Fail(s1.(input := Unmasked(s.input, r)), 1002), Error)
      else OnFrame(s1.(input := s.input[total..]), f)
  }

  /** Frames as far as they are complete, until a message or the end. */
  ghost function Pump(s: Session): (r: (Session, Outcome))
    ensures !r.1.Again?
    ensures r.1.Deliver? ==> |r.0.input| < |s.input|
    decreases |s.input|
  {
    var (s1, o) := Step(s);
    if o.Again? then Pump(s1) else (s1, o)
  }

  // ------------------------------------------------------------ calls

  /** What reading from the transport comes to. */
  datatype Fill = Chunk(octets: Octets) | Eof | Timeout | Broken

  datatype Result = Received(message: Message) | Over | ProtocolError | TimedOut | TransportError

  function Lose(s: Session): Session {
    Note(s, Failed).(failed := true)
  }

  ghost function Recv(s: Session, fills: seq<Fill>, bounded: bool): (Session, Result)
    decreases |fills|
  {
    if s.closeRecv || s.failed then (s, Over) else RecvLoop(s, fills, bounded)
  }

  ghost function RecvLoop(s: Session, fills: seq<Fill>, bounded: bool): (Session, Result)
    decreases |fills|
  {
    var (s1, o) := Pump(s);
    if o.Deliver? then (Note(s1, Delivered(o.message, s1.cap)), Received(o.message))
    else if o.Closed? then (s1, Over)
    else if o.Error? then (s1, ProtocolError)
    else if fills == [] then (s1, TimedOut)
    else
      match fills[0]
      case Chunk(octets) => RecvLoop(s1.(input := s1.input + octets), fills[1..], bounded)
      case Timeout => if bounded then (s1, TimedOut) else RecvLoop(s1, fills[1..], bounded)
      case Eof => (Lose(s1), Over)
      case Broken => (s1, TransportError)
  }

  ghost function SendMessage(s: Session, m: Message): (Session, bool) {
    if s.failed || s.closeSent || (m.kind.Text? && !Utf8.WellFormed(m.data)) then (s, false)
    else (Note(s, Sent(Frame(true, if m.kind.Text? then OP_TEXT else OP_BIN, m.data))), true)
  }

  function Ping(s: Session, data: Octets): (Session, bool) {
    if s.failed || s.closeSent || |data| > 125 then (s, false)
    else (Note(s, Sent(Frame(true, OP_PING, data))), true)
  }

  /** Waits up to `rounds` turns for the peer's Close and throws away messages that still come in. */
  ghost function AwaitClose(s: Session, fills: seq<Fill>, rounds: nat): Session
    decreases rounds
  {
    if s.closeRecv || rounds == 0 then s
    else
      var (s1, o) := Pump(s);
      if o.Deliver? then AwaitClose(s1, fills, rounds - 1)
      else if o.Closed? then s1
      else if o.Error? then s1.(failed := true)
      else if fills == [] then s1
      else
        match fills[0]
        case Chunk(octets) => AwaitClose(s1.(input := s1.input + octets), fills[1..], rounds - 1)
        case Timeout => AwaitClose(s1, fills[1..], rounds - 1)
        case _ => Lose(s1)
  }

  ghost function Close(s: Session, code: nat, reason: Octets, fills: seq<Fill>, rounds: nat): (Session, bool) {
    if !s.closeSent && !s.failed && (|reason| > 123 || !Utf8.WellFormed(reason)) then (s, false)
    else
      var s1 := if s.failed then s else SendClose(s, Be(code, 2) + reason);
      (if s1.closeRecv || s1.failed then s1 else AwaitClose(s1, fills, rounds), true)
  }

  function SetCap(s: Session, cap: nat): Session {
    if cap > 0 then s.(cap := cap) else s
  }

  const DEFAULT_CAP: nat := 16 * 1024 * 1024

  function Fresh(isServer: bool): Session {
    Session(isServer, DEFAULT_CAP, [], [], Binary, false, false, false, false, 0, Empty)
  }
}
