/**
  What can be observed of an HTTP/2 connection (RFC 9113): frames in both directions, streams
  being opened and handed to the application, and octets leaving the output buffer. The
  functions here recompute windows, phases and counters from such a history alone, as a peer
  on the wire could, without looking at the server's own bookkeeping.
 */
module H2Trace {
  import opened Bytes

  // ------------------------------------------------------------ frames

  const FRAME_HDR: nat := 9
  const INITIAL_WINDOW: nat := 65535
  const MAX_WINDOW: nat := 0x7fff_ffff
  const OUR_MAX_FRAME: nat := 16384
  const DEFAULT_MAX_FRAME: nat := 16384

  const FT_DATA: Byte := 0
  const FT_HEADERS: Byte := 1
  const FT_PRIORITY: Byte := 2
  const FT_RST_STREAM: Byte := 3
  const FT_SETTINGS: Byte := 4
  const FT_PUSH_PROMISE: Byte := 5
  const FT_PING: Byte := 6
  const FT_GOAWAY: Byte := 7
  const FT_WINDOW_UPDATE: Byte := 8
  const FT_CONTINUATION: Byte := 9

  const S_ENABLE_PUSH: nat := 2
  const S_INITIAL_WINDOW_SIZE: nat := 4
  const S_MAX_FRAME_SIZE: nat := 5

  /** A frame received from the client. */
  datatype InFrame = InFrame(kind: Byte, flags: Byte, sid: nat, payload: Octets) {
    predicate EndStream() { flags % 2 == 1 }
    predicate Ack() { flags % 2 == 1 }
    predicate EndHeaders() { flags / 4 % 2 == 1 }
    predicate Padded() { flags / 8 % 2 == 1 }
    predicate Priority() { flags / 32 % 2 == 1 }
  }

  /** A frame sent by the server. */
  datatype OutFrame =
    | Headers(sid: nat, endStream: bool, endHeaders: bool, fragment: Octets)
    | Continuation(sid: nat, endHeaders: bool, fragment: Octets)
    | Data(sid: nat, endStream: bool, payload: Octets)
    | RstStream(sid: nat, code: nat)
    | WindowUpdate(sid: nat, increment: nat)
    | Settings
    | SettingsAck
    | PingAck(opaque8: Octets)
    | GoAway(last: nat, code: nat)
  {
    /** The stream a frame belongs to; 0 for the connection. */
    function Stream(): nat {
      match this
      case Settings => 0
      case SettingsAck => 0
      case PingAck(_) => 0
      case GoAway(_, _) => 0
      case _ => sid
    }

    function Length(): nat {
      match this
      case Headers(_, _, _, f) => |f|
      case Continuation(_, _, f) => |f|
      case Data(_, _, p) => |p|
      case RstStream(_, _) => 4
      case WindowUpdate(_, _) => 4
      case Settings => 30
      case SettingsAck => 0
      case PingAck(_) => 8
      case GoAway(_, _) => 8
    }
  }

  datatype Event =
    | Recv(frame: InFrame)
    | Sent(out: OutFrame)
    | Opened(sid: nat)
    | Dispatched(sid: nat, isHead: bool, body: Octets)
    | Drained(count: nat)

  /** A history, newest event last. */
  datatype Trace = Start | Then(before: Trace, event: Event)

  // ------------------------------------------------------------ integers on the wire

  function Read16(p: Octets): nat
    requires |p| >= 2
  {
    256 * (p[0] as int) + p[1]
  }

  function Read31(p: Octets): nat
    requires |p| >= 4
  {
    0x100_0000 * ((p[0] as int) % 128) + 0x1_0000 * (p[1] as int) + 0x100 * (p[2] as int) + p[3]
  }

  function Read32(p: Octets): nat
    requires |p| >= 4
  {
    0x100_0000 * (p[0] as int) + 0x1_0000 * (p[1] as int) + 0x100 * (p[2] as int) + p[3]
  }

  // ------------------------------------------------------------ sending credit

  /** WINDOW_UPDATE increment that a received frame grants to `sid` (0: the connection). */
  function Grant(f: InFrame, sid: nat): nat {
    if f.kind == FT_WINDOW_UPDATE && f.sid == sid && |f.payload| == 4 then Read31(f.payload) else 0
  }

  function Credit(t: Trace, sid: nat): nat {
    match t
    case Start => 0
    case Then(p, Recv(f)) => Credit(p, sid) + Grant(f, sid)
    case Then(p, _) => Credit(p, sid)
  }

  function DataSent(t: Trace, sid: nat): nat {
    match t
    case Start => 0
    case Then(p, Sent(Data(s, _, d))) => DataSent(p, sid) + if s == sid then |d| else 0
    case Then(p, _) => DataSent(p, sid)
  }

  function DataSentInAll(t: Trace): nat {
    match t
    case Start => 0
    case Then(p, Sent(Data(_, _, d))) => DataSentInAll(p) + |d|
    case Then(p, _) => DataSentInAll(p)
  }

  /** The value a SETTINGS payload leaves for parameter `id`, the last entry winning. */
  function SettingAfter(payload: Octets, id: nat, current: nat): nat {
    if |payload| < 6 then current
    else SettingAfter(payload[6..], id, if Read16(payload) == id then Read32(payload[2..]) else current)
  }

  predicate AppliesSettings(f: InFrame) {
    f.kind == FT_SETTINGS && f.sid == 0 && !f.Ack()
  }

  function PeerSetting(t: Trace, id: nat, initial: nat): nat {
    match t
    case Start => initial
    case Then(p, Recv(f)) =>
      if AppliesSettings(f) then SettingAfter(f.payload, id, PeerSetting(p, id, initial))
      else PeerSetting(p, id, initial)
    case Then(p, _) => PeerSetting(p, id, initial)
  }

  function PeerInitialWindow(t: Trace): nat {
    PeerSetting(t, S_INITIAL_WINDOW_SIZE, INITIAL_WINDOW)
  }

  function PeerMaxFrame(t: Trace): nat {
    PeerSetting(t, S_MAX_FRAME_SIZE, DEFAULT_MAX_FRAME)
  }

  /** Section 6.9.2: what the peer still allows on a stream; SETTINGS may make it negative. */
  function StreamWindow(t: Trace, sid: nat): int {
    PeerInitialWindow(t) + Credit(t, sid) - DataSent(t, sid)
  }

  function ConnectionWindow(t: Trace): int {
    INITIAL_WINDOW + Credit(t, 0) - DataSentInAll(t)
  }

  /** Every DATA frame was within both windows and the peer's frame size when it was sent. */
  predicate WithinCredit(t: Trace) {
    match t
    case Start => true
    case Then(p, Sent(Data(sid, _, d))) =>
      WithinCredit(p) && |d| <= StreamWindow(p, sid) && |d| <= ConnectionWindow(p) && |d| <= PeerMaxFrame(p)
    case Then(p, _) => WithinCredit(p)
  }

  // ------------------------------------------------------------ the output buffer

  function Queued(t: Trace): int {
    match t
    case Start => 0
    case Then(p, Sent(f)) => Queued(p) + FRAME_HDR + f.Length()
    case Then(p, Drained(n)) => Queued(p) - n
    case Then(p, _) => Queued(p)
  }

  /** Every DATA frame fitted the room left in the output buffer when it was sent. */
  predicate WithinBudget(t: Trace, maxOut: nat) {
    match t
    case Start => true
    case Then(p, Sent(Data(_, _, d))) => WithinBudget(p, maxOut) && Queued(p) + FRAME_HDR + |d| <= maxOut
    case Then(p, _) => WithinBudget(p, maxOut)
  }

  // ------------------------------------------------------------ receiving credit

  function DataReceived(t: Trace, sid: nat): nat {
    match t
    case Start => 0
    case Then(p, Recv(f)) => DataReceived(p, sid) + if f.kind == FT_DATA && f.sid == sid then |f.payload| else 0
    case Then(p, _) => DataReceived(p, sid)
  }

  function DataReceivedInAll(t: Trace): nat {
    match t
    case Start => 0
    case Then(p, Recv(f)) => DataReceivedInAll(p) + if f.kind == FT_DATA then |f.payload| else 0
    case Then(p, _) => DataReceivedInAll(p)
  }

  function Granted(t: Trace, sid: nat): nat {
    match t
    case Start => 0
    case Then(p, Sent(WindowUpdate(s, n))) => Granted(p, sid) + if s == sid then n else 0
    case Then(p, _) => Granted(p, sid)
  }

  function StreamRecvWindow(t: Trace, sid: nat): int {
    INITIAL_WINDOW + Granted(t, sid) - DataReceived(t, sid)
  }

  function ConnectionRecvWindow(t: Trace): int {
    INITIAL_WINDOW + Granted(t, 0) - DataReceivedInAll(t)
  }

  // ------------------------------------------------------------ request bodies

  /** The payload of a DATA frame without its padding. */
  function DataPayload(f: InFrame): Option<Octets> {
    var p := f.payload;
    if f.Padded() && |p| < 1 then None
    else
      var pad: nat := if f.Padded() then p[0] else 0;
      var p1 := if f.Padded() then p[1..] else p;
      if pad > |p1| then None else Some(p1[..|p1| - pad])
  }

  /** What the DATA frames of a stream have carried so far, without padding. */
  function RequestBody(t: Trace, sid: nat): Octets {
    match t
    case Start => []
    case Then(p, Recv(f)) =>
      RequestBody(p, sid) +
      if f.kind == FT_DATA && f.sid == sid && DataPayload(f).Some? then DataPayload(f).value else []
    case Then(p, _) => RequestBody(p, sid)
  }

  /** Every request was handed over with the body its stream carried, within the limit. */
  predicate BodiesIntact(t: Trace, max: nat) {
    match t
    case Start => true
    case Then(p, Dispatched(sid, _, body)) => BodiesIntact(p, max) && body == RequestBody(p, sid) && |body| <= max
    case Then(p, _) => BodiesIntact(p, max)
  }

  // ------------------------------------------------------------ header blocks received

  /** The fragment of a HEADERS payload without padding and priority fields. */
  function HeaderFragment(f: InFrame): Option<Octets> {
    var p := f.payload;
    if f.Padded() && |p| < 1 then None
    else
      var pad: nat := if f.Padded() then p[0] else 0;
      var p1 := if f.Padded() then p[1..] else p;
      if f.Priority() && |p1| < 5 then None
      else
        var p2 := if f.Priority() then p1[5..] else p1;
        if pad > |p2| then None else Some(p2[..|p2| - pad])
  }

  /** The header blocks the client has sent: those complete, and the one in progress. */
  datatype Inbound = Inbound(complete: seq<Octets>, open: Option<Octets>)

  function AddFragment(i: Inbound, block: Octets, endHeaders: bool): Inbound {
    if endHeaders then Inbound(i.complete + [block], None) else Inbound(i.complete, Some(block))
  }

  function InboundOf(t: Trace): Inbound {
    match t
    case Start => Inbound([], None)
    case Then(p, Recv(f)) =>
      var i := InboundOf(p);
      if f.kind == FT_HEADERS && HeaderFragment(f).Some? then AddFragment(i, HeaderFragment(f).value, f.EndHeaders())
      else if f.kind == FT_CONTINUATION && i.open.Some? then AddFragment(i, i.open.value + f.payload, f.EndHeaders())
      else i
    case Then(p, _) => InboundOf(p)
  }

  // ------------------------------------------------------------ responses, stream by stream

  /** How far the response on a stream has come, with the octets sent so far. */
  datatype Phase =
    | Idle
    | InHeaders(block: Octets, endStream: bool)
    | Body(block: Octets, data: Octets)
    | Ended(block: Octets, data: Octets, bodyless: bool)
    | Reset
    | Bad

  function HeadersEnd(block: Octets, endStream: bool, endHeaders: bool): Phase {
    if !endHeaders then InHeaders(block, endStream)
    else if endStream then Ended(block, [], true)
    else Body(block, [])
  }

  /** HEADERS, CONTINUATION*, DATA*, with RST_STREAM possible until the end (section 8.1). */
  function NextPhase(phase: Phase, f: OutFrame): Phase {
    match f
    case WindowUpdate(_, _) => if phase.Idle? then Idle else Bad
    case Headers(_, es, eh, frag) => if phase.Idle? then HeadersEnd(frag, es, eh) else Bad
    case Continuation(_, eh, frag) =>
      if phase.InHeaders? then HeadersEnd(phase.block + frag, phase.endStream, eh) else Bad
    case Data(_, es, d) =>
      if !phase.Body? then Bad
      else if es then Ended(phase.block, phase.data + d, false)
      else Body(phase.block, phase.data + d)
    case RstStream(_, _) => if phase.Idle? || phase.Body? then Reset else Bad
    case _ => Bad
  }

  function PhaseOf(t: Trace, sid: nat): Phase {
    match t
    case Start => Idle
    case Then(p, Sent(f)) => if f.Stream() == sid then NextPhase(PhaseOf(p, sid), f) else PhaseOf(p, sid)
    case Then(p, _) => PhaseOf(p, sid)
  }

  /** Stream whose header block is open on the wire, or 0. */
  function OpenBlock(t: Trace): nat {
    match t
    case Start => 0
    case Then(p, Sent(Headers(s, _, eh, _))) => if eh then 0 else s
    case Then(p, Sent(Continuation(s, eh, _))) => if eh then 0 else s
    case Then(p, _) => OpenBlock(p)
  }

  /** Section 6.10: nothing is sent between the fragments of a header block. */
  predicate Contiguous(t: Trace) {
    match t
    case Start => true
    case Then(p, Sent(f)) =>
      && Contiguous(p)
      && (if f.Continuation? then OpenBlock(p) == f.sid != 0 else OpenBlock(p) == 0)
    case Then(p, _) => Contiguous(p)
  }

  // ------------------------------------------------------------ streams the client resets

  predicate Resets(f: InFrame, sid: nat) {
    f.kind == FT_RST_STREAM && f.sid == sid && |f.payload| == 4
  }

  predicate PeerReset(t: Trace, sid: nat) {
    match t
    case Start => false
    case Then(p, Recv(f)) => Resets(f, sid) || PeerReset(p, sid)
    case Then(p, _) => PeerReset(p, sid)
  }

  /** The last frame received is the reset of that stream. */
  predicate JustReset(t: Trace, sid: nat) {
    match t
    case Start => false
    case Then(p, Recv(f)) => Resets(f, sid)
    case Then(p, _) => JustReset(p, sid)
  }

  /** No frame of a stream is sent after the client reset it. */
  predicate Silent(t: Trace) {
    match t
    case Start => true
    case Then(p, Sent(f)) => Silent(p) && (f.Stream() != 0 ==> !PeerReset(p, f.Stream()))
    case Then(p, _) => Silent(p)
  }

  /** The last frame received is a reset in the middle of a header block, where none may come. */
  predicate ResetInside(t: Trace) {
    match t
    case Start => false
    case Then(p, Recv(f)) => f.kind == FT_RST_STREAM && |f.payload| == 4 && InboundOf(p).open.Some?
    case Then(p, _) => ResetInside(p)
  }

  /** The same but for the stream of a reset inside a header block, which broke the connection. */
  predicate NearlySilent(t: Trace) {
    match t
    case Start => true
    case Then(p, Sent(f)) =>
      NearlySilent(p) && (f.Stream() != 0 && PeerReset(p, f.Stream()) ==> JustReset(p, f.Stream()) && ResetInside(p))
    case Then(p, _) => NearlySilent(p)
  }

  // ------------------------------------------------------------ PING and SETTINGS

  predicate AsksPing(f: InFrame) {
    f.kind == FT_PING && f.sid == 0 && |f.payload| == 8 && !f.Ack()
  }

  predicate AsksSettings(f: InFrame) {
    AppliesSettings(f) && |f.payload| % 6 == 0
  }

  /** What the client asked to have echoed, in order, and how often it sent SETTINGS. */
  function PingsAsked(t: Trace): seq<Octets> {
    match t
    case Start => []
    case Then(p, Recv(f)) => PingsAsked(p) + if AsksPing(f) then [f.payload] else []
    case Then(p, _) => PingsAsked(p)
  }

  function SettingsAsked(t: Trace): nat {
    match t
    case Start => 0
    case Then(p, Recv(f)) => SettingsAsked(p) + if AsksSettings(f) then 1 else 0
    case Then(p, _) => SettingsAsked(p)
  }

  /** What the server acknowledged. */
  function PingsAnswered(t: Trace): seq<Octets> {
    match t
    case Start => []
    case Then(p, Sent(PingAck(o))) => PingsAnswered(p) + [o]
    case Then(p, _) => PingsAnswered(p)
  }

  function SettingsAnswered(t: Trace): nat {
    match t
    case Start => 0
    case Then(p, Sent(SettingsAck)) => SettingsAnswered(p) + 1
    case Then(p, _) => SettingsAnswered(p)
  }

  /** The same requests for acknowledgement. */
  predicate SameAsked(t: Trace, t': Trace) {
    PingsAsked(t') == PingsAsked(t) && SettingsAsked(t') == SettingsAsked(t)
  }

  /** The same acknowledgements. */
  predicate SameReplies(t: Trace, t': Trace) {
    PingsAnswered(t') == PingsAnswered(t) && SettingsAnswered(t') == SettingsAnswered(t)
  }

  // ------------------------------------------------------------ growing histories

  /** t' continues t. */
  predicate Extends(t: Trace, t': Trace) {
    t' == t || (t'.Then? && Extends(t, t'.before))
  }

  /** The same, and no DATA was sent in between. */
  predicate DataFree(t: Trace, t': Trace) {
    t' == t || (t'.Then? && !(t'.event.Sent? && t'.event.out.Data?) && DataFree(t, t'.before))
  }

  // ------------------------------------------------------------ the life of a stream

  predicate WasOpened(t: Trace, sid: nat) {
    match t
    case Start => false
    case Then(p, Opened(s)) => s == sid || WasOpened(p, sid)
    case Then(p, _) => WasOpened(p, sid)
  }

  function OpenedInAll(t: Trace): nat {
    match t
    case Start => 0
    case Then(p, Opened(_)) => OpenedInAll(p) + 1
    case Then(p, _) => OpenedInAll(p)
  }

  predicate WasDispatched(t: Trace, sid: nat) {
    match t
    case Start => false
    case Then(p, Dispatched(s, _, _)) => s == sid || WasDispatched(p, sid)
    case Then(p, _) => WasDispatched(p, sid)
  }

  /** Whether the request on a stream was HEAD, as the application saw it. */
  predicate WasHead(t: Trace, sid: nat) {
    match t
    case Start => false
    case Then(p, Dispatched(s, h, _)) => if s == sid then h else WasHead(p, sid)
    case Then(p, _) => WasHead(p, sid)
  }

  /** The client ended its side with a HEADERS or DATA frame. */
  predicate SawEndStream(t: Trace, sid: nat) {
    match t
    case Start => false
    case Then(p, Recv(f)) =>
      SawEndStream(p, sid) || ((f.kind == FT_HEADERS || f.kind == FT_DATA) && f.sid == sid && f.EndStream())
    case Then(p, _) => SawEndStream(p, sid)
  }

  predicate SawGoAway(t: Trace) {
    match t
    case Start => false
    case Then(p, Sent(GoAway(_, _))) => true
    case Then(p, _) => SawGoAway(p)
  }

  predicate SawPeerGoAway(t: Trace) {
    match t
    case Start => false
    case Then(p, Recv(f)) => (f.kind == FT_GOAWAY && f.sid == 0 && |f.payload| >= 8) || SawPeerGoAway(p)
    case Then(p, _) => SawPeerGoAway(p)
  }

  /**
    Streams are opened once, with odd ids and never after a GOAWAY in either direction; each is
    dispatched at most once, after it was opened and END_STREAM was seen; one GOAWAY is sent.
   */
  predicate Orderly(t: Trace) {
    match t
    case Start => true
    case Then(p, Opened(s)) =>
      Orderly(p) && s % 2 == 1 && !WasOpened(p, s) && !SawGoAway(p) && !SawPeerGoAway(p)
    case Then(p, Dispatched(s, _, _)) => Orderly(p) && WasOpened(p, s) && !WasDispatched(p, s) && SawEndStream(p, s)
    case Then(p, Sent(GoAway(_, _))) => Orderly(p) && !SawGoAway(p)
    case Then(p, _) => Orderly(p)
  }
}
