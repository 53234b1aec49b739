/**
  The transitions of the HTTP/2 server connection of src/h2.c, as functions on its state.
  The header decoder and the application are parameters: `Env` says what they answer, for
  every header block and every stream.
 */
module H2Spec {
  import opened Bytes
  import opened H2Trace
  import HpackTable
  import HpackBlock
  import HpackEncoder

  const CONT_MAX: nat := 64
  const PING_PER_FEED: nat := 128
  const SETTINGS_PER_FEED: nat := 64

  const E_NO_ERROR: nat := 0
  const E_PROTOCOL_ERROR: nat := 1
  const E_FLOW_CONTROL_ERROR: nat := 3
  const E_STREAM_CLOSED: nat := 5
  const E_FRAME_SIZE_ERROR: nat := 6
  const E_REFUSED_STREAM: nat := 7
  const E_COMPRESSION_ERROR: nat := 9
  const E_ENHANCE_YOUR_CALM: nat := 11

  // ------------------------------------------------------------ environment

  datatype Limits = Limits(maxHeaderBytes: nat, maxBodyBytes: nat, maxStreams: nat, maxRequests: nat, maxOutBytes: nat)

  /** What decoding a header block comes to: connection error, stream error, or a field list. */
  datatype HeaderOutcome =
    | CompressionError
    | MalformedList
    | FieldList(request: bool, isHead: bool)  // request: mandatory pseudo-headers and target are fine

  datatype Response = Response(status: int, headers: seq<HpackTable.Field>, body: Octets)

  /** A header block as it is handed to the decoder; trailers are judged by other rules. */
  datatype HeaderBlock = HeaderBlock(octets: Octets, trailer: bool)

  /** `headers` judges a block after the blocks decoded before it, on which its meaning depends. */
  datatype Env = Env(lim: Limits, headers: (seq<HeaderBlock>, HeaderBlock) -> HeaderOutcome, app: nat -> Response)

  /** Bodies on HEAD, 1xx, 204 and 304 are suppressed. */
  predicate HasBody(r: Response, isHead: bool) {
    |r.body| > 0 && !isHead && r.status >= 200 && r.status != 204 && r.status != 304
  }

  function LowerName(a: Octets): (r: Octets)
    ensures HpackEncoder.IsLower(r)
  {
    seq(|a|, i requires 0 <= i < |a| => HpackEncoder.Lower(a[i]))
  }

  function LowerNames(headers: seq<HpackTable.Field>): seq<HpackTable.Field> {
    if headers == [] then []
    else [HpackTable.Field(LowerName(headers[0].name), headers[0].value)] + LowerNames(headers[1..])
  }

  /** The encoded field block of a response, names in lower case. */
  ghost function FieldBlock(r: Response): Octets {
    HpackBlock.BlockWire(HpackEncoder.ResponseLines(r.status, LowerNames(r.headers)))
  }

  // ------------------------------------------------------------ state

  datatype Stream = Stream(
    id: nat,
    recvWindow: int, gotHeaders: bool, endStreamRecv: bool, dispatched: bool,
    sendWindow: int, responded: bool, respHeadersDone: bool, endAfterBody: bool, sendDone: bool,
    respBody: Octets, bodyOff: nat,
    isHead: bool, reqBody: Octets)

  /** Reassembly of one header block from HEADERS and CONTINUATION frames. */
  datatype Reassembly = Reassembly(
    active: bool, id: nat, stream: Option<nat>, refuse: nat, trailer: bool, endStream: bool,
    block: Octets, contCount: nat)

  datatype Conn = Conn(
    prefaceGot: nat, needSettings: bool,
    closing: bool, goawaySent: bool, peerGoaway: bool, gotError: bool,
    recvWindow: int, sendWindow: int, peerInitialWindow: nat, peerMaxFrame: nat,
    streams: seq<Stream>, lastClientId: nat, openCount: nat, totalStreams: nat, rapidReset: nat,
    hdr: Reassembly, blocks: seq<HeaderBlock>,
    queued: nat, trace: Trace)

  const NO_BLOCK := Reassembly(false, 0, None, 0, false, false, [], 0)

  // ------------------------------------------------------------ frame output

  function Note(c: Conn, e: Event): Conn {
    c.(trace := Then(c.trace, e))
  }

  function Emit(c: Conn, f: OutFrame): Conn {
    c.(trace := Then(c.trace, Sent(f)), queued := c.queued + FRAME_HDR + f.Length())
  }

  function SendGoaway(c: Conn, code: nat): Conn {
    if c.goawaySent then c else Emit(c, GoAway(c.lastClientId, code)).(goawaySent := true)
  }

  function ConnError(c: Conn, code: nat): Conn {
    SendGoaway(c, code).(gotError := true, closing := true)
  }

  // ------------------------------------------------------------ stream table

  /** First slot holding stream `id`, searching from `from`. */
  function FindFrom(streams: seq<Stream>, id: nat, from: nat): (r: Option<nat>)
    requires from <= |streams|
    ensures r.Some? ==> from <= r.value < |streams| && streams[r.value].id == id
    ensures r.None? ==> forall i | from <= i < |streams| :: streams[i].id != id
    decreases |streams| - from
  {
    if from == |streams| then None
    else if streams[from].id == id then Some(from)
    else FindFrom(streams, id, from + 1)
  }

  function Find(c: Conn, id: nat): (r: Option<nat>)
    ensures r.Some? ==> r.value < |c.streams| && c.streams[r.value].id == id
    ensures r.None? ==> forall i | 0 <= i < |c.streams| :: c.streams[i].id != id
  {
    FindFrom(c.streams, id, 0)
  }

  function NewStream(c: Conn, id: nat): Stream {
    Stream(id, INITIAL_WINDOW, false, false, false, c.peerInitialWindow, false, false, false, false, [], 0, false, [])
  }

  function Open(c: Conn, id: nat): Conn {
    Note(c, Opened(id)).(streams := c.streams + [NewStream(c, id)], openCount := c.openCount + 1)
  }

  /** Frees slot `i`; the last stream moves into it. */
  function CloseAt(c: Conn, i: nat): Conn
    requires i < |c.streams|
  {
    var n := |c.streams| - 1;
    c.(streams := c.streams[i := c.streams[n]][..n],
       openCount := if c.openCount > 0 then c.openCount - 1 else 0)
  }

  function ResetAt(c: Conn, i: nat, code: nat): Conn
    requires i < |c.streams|
  {
    CloseAt(Emit(c, RstStream(c.streams[i].id, code)), i)
  }

  function SetStream(c: Conn, i: nat, st: Stream): Conn
    requires i < |c.streams|
  {
    c.(streams := c.streams[i := st])
  }

  // ------------------------------------------------------------ receive windows

  function ConsumeConn(c: Conn, len: nat): Conn {
    var w := c.recvWindow - len;
    if w <= INITIAL_WINDOW - OUR_MAX_FRAME then
      SendUpdate(c, 0, INITIAL_WINDOW - w).(recvWindow := INITIAL_WINDOW)
    else c.(recvWindow := w)
  }

  function SendUpdate(c: Conn, sid: nat, incr: int): Conn {
    if incr <= 0 then c else Emit(c, WindowUpdate(sid, incr))
  }

  function ConsumeStream(c: Conn, i: nat, len: nat): Conn
    requires i < |c.streams|
  {
    var st := c.streams[i];
    var w := st.recvWindow - len;
    if w <= INITIAL_WINDOW - OUR_MAX_FRAME then
      SendUpdate(SetStream(c, i, st.(recvWindow := INITIAL_WINDOW)), st.id, INITIAL_WINDOW - w)
    else SetStream(c, i, st.(recvWindow := w))
  }

  // ------------------------------------------------------------ responding

  /** HEADERS and CONTINUATION frames for what is left of a field block. */
  function SendBlock(c: Conn, sid: nat, block: Octets, first: bool, endStream: bool): Conn
    decreases |block|
  {
    var maxf := FrameLimit(c);
    var last := |block| <= maxf;
    var chunk := if last then block else block[..maxf];
    var f := if first then Headers(sid, endStream, last, chunk) else Continuation(sid, last, chunk);
    if last then Emit(c, f) else SendBlock(Emit(c, f), sid, block[maxf..], false, endStream)
  }

  function FrameLimit(c: Conn): (n: nat)
    ensures n > 0
  {
    if c.peerMaxFrame > 0 then c.peerMaxFrame else DEFAULT_MAX_FRAME
  }

  ghost function Respond(c: Conn, i: nat, r: Response): Conn
    requires i < |c.streams|
  {
    var st := c.streams[i];
    if st.responded then c
    else
      var body := HasBody(r, st.isHead);
      var c1 := SendBlock(c, st.id, FieldBlock(r), true, !body);
      c1.(streams := c.streams[i := st.(
        respHeadersDone := true, responded := true,
        respBody := if body then st.respBody + r.body else st.respBody,
        endAfterBody := st.endAfterBody || body,
        sendDone := st.sendDone || !body)])
  }

  /** Runs the handler once on a complete request and reaps a stream that is fully sent. */
  ghost function Dispatch(env: Env, c: Conn, i: nat): Conn
    requires i < |c.streams|
  {
    var st := c.streams[i];
    if st.dispatched then c
    else
      var c1 := Note(SetStream(c, i, st.(dispatched := true)), Dispatched(st.id, st.isHead, st.reqBody));
      var c2 := Respond(c1, i, env.app(st.id));
      var c3 := SetStream(c2, i, c2.streams[i].(isHead := false, reqBody := []));
      if c3.streams[i].sendDone && c3.streams[i].endStreamRecv then CloseAt(c3, i) else c3
  }

  // ------------------------------------------------------------ header blocks

  /** Acts on a complete header block. */
  ghost function FinishHeaders(env: Env, c: Conn): Conn {
    var h := c.hdr;
    var outcome := env.headers(c.blocks, HeaderBlock(h.block, h.trailer));
    var c1 := c.(hdr := NO_BLOCK, blocks := c.blocks + [HeaderBlock(h.block, h.trailer)]);
    var slot := if h.stream.Some? then Find(c, h.stream.value) else None;
    if outcome.CompressionError? then ConnError(c1, E_COMPRESSION_ERROR)
    else if outcome.MalformedList? then
      if slot.Some? then ResetAt(c1, slot.value, E_PROTOCOL_ERROR)
      else Emit(c1, RstStream(h.id, if h.refuse != 0 then h.refuse else E_PROTOCOL_ERROR))
    else if h.refuse != 0 then Emit(c1, RstStream(h.id, h.refuse))
    else if slot.None? then Emit(c1, RstStream(h.id, E_REFUSED_STREAM))
    else
      var i, st := slot.value, c.streams[slot.value];
      if h.trailer then
        if !h.endStream then ResetAt(c1, i, E_PROTOCOL_ERROR)
        else Dispatch(env, SetStream(c1, i, st.(endStreamRecv := true)), i)
      else if !outcome.request then ResetAt(c1, i, E_PROTOCOL_ERROR)
      else
        var c2 := SetStream(c1, i, st.(gotHeaders := true, endStreamRecv := h.endStream, isHead := outcome.isHead));
        if h.endStream then Dispatch(env, c2, i) else c2
  }

  /** Appends a fragment under the byte cap and finishes the block at END_HEADERS. */
  ghost function Accumulate(env: Env, c: Conn, fragment: Octets, endHeaders: bool): Conn {
    if |c.hdr.block| + |fragment| > env.lim.maxHeaderBytes + 4096 then ConnError(c, E_ENHANCE_YOUR_CALM)
    else
      var c1 := c.(hdr := c.hdr.(block := c.hdr.block + fragment));
      if endHeaders then FinishHeaders(env, c1) else c1
  }

  /** Code to refuse a new stream with, or 0; a lifetime cap also winds the connection down. */
  function Refusal(lim: Limits, c: Conn): nat {
    if c.closing || c.peerGoaway then E_REFUSED_STREAM
    else if lim.maxRequests != 0 && c.totalStreams > lim.maxRequests then E_REFUSED_STREAM
    else if c.openCount >= lim.maxStreams then E_REFUSED_STREAM
    else 0
  }

  function Admit(lim: Limits, c: Conn, id: nat): Conn {
    var c1 := c.(lastClientId := id, totalStreams := c.totalStreams + 1);
    if Refusal(lim, c1) == 0 then Open(c1, id)
    else if !(c1.closing || c1.peerGoaway) && lim.maxRequests != 0 && c1.totalStreams > lim.maxRequests then
      SendGoaway(c1, E_NO_ERROR).(closing := true)
    else c1
  }

  /** A HEADERS frame on a new stream, accepted or refused, starts a header block. */
  function BeginStream(lim: Limits, c: Conn, f: InFrame): Conn {
    var refuse := Refusal(lim, c.(totalStreams := c.totalStreams + 1));
    Admit(lim, c, f.sid).(
      hdr := Reassembly(true, f.sid, if refuse == 0 then Some(f.sid) else None, refuse, false, f.EndStream(), [], 0))
  }

  /** A HEADERS frame on an open stream starts its trailers. */
  function BeginTrailer(c: Conn, f: InFrame): Conn {
    c.(hdr := Reassembly(true, f.sid, Some(f.sid), 0, true, f.EndStream(), [], 0))
  }

  ghost function OnHeaders(env: Env, c: Conn, f: InFrame): Conn {
    var frag := HeaderFragment(f);
    var slot := Find(c, f.sid);
    if f.sid == 0 || frag.None? then ConnError(c, E_PROTOCOL_ERROR)
    else if slot.None? then
      if f.sid % 2 == 0 || f.sid <= c.lastClientId then ConnError(c, E_PROTOCOL_ERROR)
      else Accumulate(env, BeginStream(env.lim, c, f), frag.value, f.EndHeaders())
    else if c.streams[slot.value].endStreamRecv then ConnError(c, E_STREAM_CLOSED)
    else if !c.streams[slot.value].gotHeaders then ConnError(c, E_PROTOCOL_ERROR)
    else Accumulate(env, BeginTrailer(c, f), frag.value, f.EndHeaders())
  }

  ghost function OnContinuation(env: Env, c: Conn, f: InFrame): Conn {
    var c1 := c.(hdr := c.hdr.(contCount := c.hdr.contCount + 1));
    if c1.hdr.contCount > CONT_MAX then ConnError(c1, E_ENHANCE_YOUR_CALM)
    else Accumulate(env, c1, f.payload, f.EndHeaders())
  }

  // ------------------------------------------------------------ other frames

  ghost function OnData(env: Env, c: Conn, f: InFrame): Conn {
    var len := |f.payload|;
    var slot := Find(c, f.sid);
    if f.sid == 0 then ConnError(c, E_PROTOCOL_ERROR)
    else if len > c.recvWindow then ConnError(c, E_FLOW_CONTROL_ERROR)
    else if slot.None? then
      if f.sid > c.lastClientId then ConnError(ConsumeConn(c, len), E_PROTOCOL_ERROR) else ConsumeConn(c, len)
    else
      var i, st := slot.value, c.streams[slot.value];
      if st.endStreamRecv || !st.gotHeaders then ConnError(c, E_STREAM_CLOSED)
      else if len > st.recvWindow then ConsumeConn(ResetAt(c, i, E_FLOW_CONTROL_ERROR), len)
      else
        match DataPayload(f)
        case None => ConnError(c, E_PROTOCOL_ERROR)
        case Some(d) =>
          if |st.reqBody| + |d| > env.lim.maxBodyBytes then ConsumeConn(ResetAt(c, i, E_ENHANCE_YOUR_CALM), len)
          else
            var c1 := ConsumeConn(SetStream(c, i, st.(reqBody := st.reqBody + d)), len);
            if f.EndStream() then Dispatch(env, SetStream(c1, i, c1.streams[i].(endStreamRecv := true)), i)
            else ConsumeStream(c1, i, len)
  }

  function OnRstStream(env: Env, c: Conn, f: InFrame): Conn {
    if |f.payload| != 4 then ConnError(c, E_FRAME_SIZE_ERROR)
    else if f.sid == 0 then ConnError(c, E_PROTOCOL_ERROR)
    else
      match Find(c, f.sid)
      case Some(i) =>
        var n := if c.streams[i].responded then c.rapidReset else c.rapidReset + 1;
        var c1 := CloseAt(c, i).(rapidReset := n);
        if n > env.lim.maxStreams then ConnError(c1, E_ENHANCE_YOUR_CALM) else c1
      case None => if f.sid > c.lastClientId then ConnError(c, E_PROTOCOL_ERROR) else c
  }

  /** Re-targets the send windows of streams `from`..; stops at the first overflow. */
  function Retarget(streams: seq<Stream>, delta: int, from: nat): (r: (seq<Stream>, bool))
    requires from <= |streams|
    ensures |r.0| == |streams|
    decreases |streams| - from
  {
    if from == |streams| then (streams, true)
    else
      var st := streams[from].(sendWindow := streams[from].sendWindow + delta);
      var streams' := streams[from := st];
      if st.sendWindow > MAX_WINDOW then (streams', false) else Retarget(streams', delta, from + 1)
  }

  /** One parameter of a SETTINGS frame. */
  function ApplySetting(c: Conn, id: nat, val: nat): (r: Conn) {
    if id == S_ENABLE_PUSH && val > 1 then ConnError(c, E_PROTOCOL_ERROR)
    else if id == S_INITIAL_WINDOW_SIZE then
      if val > MAX_WINDOW then ConnError(c, E_FLOW_CONTROL_ERROR)
      else
        var (streams, ok) := Retarget(c.streams, val - c.peerInitialWindow, 0);
        if ok then c.(streams := streams, peerInitialWindow := val)
        else ConnError(c.(streams := streams), E_FLOW_CONTROL_ERROR)
    else if id == S_MAX_FRAME_SIZE then
      if val < 16384 || val > 16777215 then ConnError(c, E_PROTOCOL_ERROR) else c.(peerMaxFrame := val)
    else c
  }

  /** The parameters of a SETTINGS payload in order, up to the first one in error. */
  function ApplySettings(c: Conn, payload: Octets): Conn
    requires |payload| % 6 == 0
    decreases |payload|
  {
    if payload == [] then c
    else
      var c1 := ApplySetting(c, Read16(payload), Read32(payload[2..]));
      if c1.gotError then c1 else ApplySettings(c1, payload[6..])
  }

  /** `seen` counts the SETTINGS frames applied by this feed, this one included. */
  function OnSettings(c: Conn, f: InFrame, seen: nat): Conn {
    if f.sid != 0 then ConnError(c, E_PROTOCOL_ERROR)
    else if f.Ack() then if |f.payload| != 0 then ConnError(c, E_FRAME_SIZE_ERROR) else c
    else if |f.payload| % 6 != 0 then ConnError(c, E_FRAME_SIZE_ERROR)
    else if seen > SETTINGS_PER_FEED then ConnError(c, E_ENHANCE_YOUR_CALM)
    else
      var c1 := ApplySettings(c, f.payload);
      if c1.gotError then c1 else Emit(c1, SettingsAck)
  }

  function OnPing(env: Env, c: Conn, f: InFrame, seen: nat): Conn {
    if f.sid != 0 then ConnError(c, E_PROTOCOL_ERROR)
    else if |f.payload| != 8 then ConnError(c, E_FRAME_SIZE_ERROR)
    else if f.Ack() then c
    else if seen > PING_PER_FEED || c.queued > env.lim.maxOutBytes then ConnError(c, E_ENHANCE_YOUR_CALM)
    else Emit(c, PingAck(f.payload))
  }

  function OnWindowUpdate(c: Conn, f: InFrame): Conn {
    if |f.payload| != 4 then ConnError(c, E_FRAME_SIZE_ERROR)
    else
      var incr := Read31(f.payload);
      if f.sid == 0 then
        if incr == 0 then ConnError(c, E_PROTOCOL_ERROR)
        else
          var c1 := c.(sendWindow := c.sendWindow + incr);
          if c1.sendWindow > MAX_WINDOW then ConnError(c1, E_FLOW_CONTROL_ERROR) else c1
      else
        match Find(c, f.sid)
        case None => if f.sid > c.lastClientId then ConnError(c, E_PROTOCOL_ERROR) else c
        case Some(i) =>
          if incr == 0 then ResetAt(c, i, E_PROTOCOL_ERROR)
          else
            var st := c.streams[i].(sendWindow := c.streams[i].sendWindow + incr);
            var c1 := SetStream(c, i, st);
            if st.sendWindow > MAX_WINDOW then ResetAt(c1, i, E_FLOW_CONTROL_ERROR) else c1
  }

  function OnGoaway(c: Conn, f: InFrame): Conn {
    if f.sid != 0 then ConnError(c, E_PROTOCOL_ERROR)
    else if |f.payload| < 8 then ConnError(c, E_FRAME_SIZE_ERROR)
    else c.(peerGoaway := true)
  }

  function OnPriority(c: Conn, f: InFrame): Conn {
    if f.sid == 0 then ConnError(c, E_PROTOCOL_ERROR)
    else if |f.payload| != 5 then ConnError(c, E_FRAME_SIZE_ERROR)
    else c
  }

  // ------------------------------------------------------------ the frame loop

  /** Counters of one feed call. */
  datatype Feeding = Feeding(pings: nat, settings: nat)

  function Count(n: Feeding, f: InFrame): Feeding {
    if f.kind == FT_PING && f.sid == 0 && |f.payload| == 8 && !f.Ack() then n.(pings := n.pings + 1)
    else if AppliesSettings(f) && |f.payload| % 6 == 0 then n.(settings := n.settings + 1)
    else n
  }

  /** Whether a frame may come now: SETTINGS first, and nothing but CONTINUATION inside a block. */
  predicate InSequence(c: Conn, f: InFrame) {
    && (c.needSettings ==> f.kind == FT_SETTINGS)
    && (if c.hdr.active then f.kind == FT_CONTINUATION && f.sid == c.hdr.id else f.kind != FT_CONTINUATION)
  }

  /** One complete frame; `n` already counts it. */
  ghost function OnFrame(env: Env, c: Conn, f: InFrame, n: Feeding): Conn {
    var c0 := Note(c, Recv(f));
    if !InSequence(c0, f)
      then ConnError(c0.(needSettings := c0.needSettings && f.kind != FT_SETTINGS), E_PROTOCOL_ERROR)
    else
      var c1 := c0.(needSettings := false);
      if f.kind == FT_DATA then OnData(env, c1, f)
      else if f.kind == FT_HEADERS then OnHeaders(env, c1, f)
      else if f.kind == FT_PRIORITY then OnPriority(c1, f)
      else if f.kind == FT_RST_STREAM then OnRstStream(env, c1, f)
      else if f.kind == FT_SETTINGS then OnSettings(c1, f, n.settings)
      else if f.kind == FT_PUSH_PROMISE then ConnError(c1, E_PROTOCOL_ERROR)
      else if f.kind == FT_PING then OnPing(env, c1, f, n.pings)
      else if f.kind == FT_GOAWAY then OnGoaway(c1, f)
      else if f.kind == FT_WINDOW_UPDATE then OnWindowUpdate(c1, f)
      else if f.kind == FT_CONTINUATION then OnContinuation(env, c1, f)
      else c1
  }

  const PREFACE: string := "PRI * HTTP/2.0\r\n\r\nSM\r\n\r\n"
  const PREFACE_LEN: nat := 24

  /** The client preface, octet by octet; it may arrive in pieces. */
  function ConsumePreface(c: Conn, input: Octets): (Conn, Octets)
    decreases |input|
  {
    if c.prefaceGot >= PREFACE_LEN || input == [] then (c, input)
    else if input[0] != PREFACE[c.prefaceGot] as int then (ConnError(c, E_PROTOCOL_ERROR), input)
    else ConsumePreface(c.(prefaceGot := c.prefaceGot + 1), input[1..])
  }

  function Read24(p: Octets): nat
    requires |p| >= 3
  {
    0x1_0000 * (p[0] as int) + 0x100 * (p[1] as int) + p[2]
  }

  /** The frame at the front of the input, if it is all there. */
  function FirstFrame(input: Octets): Option<InFrame> {
    if |input| < FRAME_HDR then None
    else
      var len := Read24(input);
      if |input| < FRAME_HDR + len then None
      else Some(InFrame(input[3], input[4], Read31(input[5..]), input[FRAME_HDR..FRAME_HDR + len]))
  }

  /** Every complete frame of the input, until an error; returns what was not consumed. */
  ghost function FeedFrames(env: Env, c: Conn, input: Octets, n: Feeding): (Conn, Octets)
    decreases |input|
  {
    if c.gotError || |input| < FRAME_HDR then (c, input)
    else if Read24(input) > OUR_MAX_FRAME then (ConnError(c, E_FRAME_SIZE_ERROR), input)
    else
      match FirstFrame(input)
      case None => (c, input)
      case Some(f) =>
        var n1 := Count(n, f);
        var c1 := OnFrame(env, c, f, n1);
        var rest := input[FRAME_HDR + |f.payload|..];
        if !InSequence(c, f) then (c1, input)
        else FeedFrames(env, c1, rest, n1)
  }

  ghost function Feed(env: Env, c: Conn, input: Octets): (Conn, Octets) {
    var (c1, rest) := ConsumePreface(c, input);
    if c1.prefaceGot < PREFACE_LEN then (c1, rest) else FeedFrames(env, c1, rest, Feeding(0, 0))
  }

  // ------------------------------------------------------------ sending bodies

  /** Octets of body that stream `i` may send in one DATA frame now; 0 if it is blocked. */
  function Sendable(lim: Limits, c: Conn, i: nat): (n: int)
    requires i < |c.streams|
    ensures n <= |c.streams[i].respBody| - c.streams[i].bodyOff
  {
    var st := c.streams[i];
    Min(|st.respBody| - st.bodyOff,
        Min(Min(st.sendWindow, c.sendWindow), Min(c.peerMaxFrame, lim.maxOutBytes - c.queued - FRAME_HDR)))
  }

  function SendChunk(c: Conn, i: nat, n: nat): Conn
    requires i < |c.streams| && c.streams[i].bodyOff + n <= |c.streams[i].respBody|
  {
    var st := c.streams[i];
    var last := st.bodyOff + n == |st.respBody|;
    var f := Data(st.id, last && st.endAfterBody, st.respBody[st.bodyOff..st.bodyOff + n]);
    SetStream(Emit(c, f), i,
              st.(bodyOff := st.bodyOff + n, sendWindow := st.sendWindow - n, sendDone := st.sendDone || last))
      .(sendWindow := c.sendWindow - n)
  }

  /** Sends DATA frames of stream `i` until its body is out or it is blocked. */
  function PumpStream(lim: Limits, c: Conn, i: nat): (r: Conn)
    requires i < |c.streams|
    ensures |r.streams| == |c.streams|
    decreases |c.streams[i].respBody| - c.streams[i].bodyOff
  {
    var n := Sendable(lim, c, i);
    if n <= 0 then c else PumpStream(lim, SendChunk(c, i, n), i)
  }

  /** Gives every stream from slot `i` on its turn, reaping those that are finished. */
  function PumpFrom(lim: Limits, c: Conn, i: nat): Conn
    requires i <= |c.streams|
    decreases |c.streams| - i
  {
    if i == |c.streams| then c
    else
      var st := c.streams[i];
      var c1 := if st.respHeadersDone && !st.sendDone then PumpStream(lim, c, i) else c;
      if c1.streams[i].sendDone && c1.streams[i].endStreamRecv then PumpFrom(lim, CloseAt(c1, i), i)
      else PumpFrom(lim, c1, i + 1)
  }

  function Pump(lim: Limits, c: Conn): Conn {
    PumpFrom(lim, c, 0)
  }

  function Graceful(c: Conn): Conn {
    SendGoaway(c, E_NO_ERROR).(closing := true)
  }

  /** The event loop moves octets from the output buffer to the socket. */
  function Drain(c: Conn, n: nat): Conn {
    var k := if n <= c.queued then n else c.queued;
    Note(c, Drained(k)).(queued := c.queued - k)
  }

  // ------------------------------------------------------------ runs

  function Fresh(): Conn {
    Emit(Conn(0, true, false, false, false, false, INITIAL_WINDOW, INITIAL_WINDOW, INITIAL_WINDOW, DEFAULT_MAX_FRAME,
              [], 0, 0, 0, 0, NO_BLOCK, [], 0, Start),
         Settings)
  }

  /** What the event loop may do to a connection. */
  datatype Action = DoFeed(octets: Octets) | DoPump | DoGraceful | DoDrain(count: nat)

  /** A connection and the received octets it has not consumed yet. */
  datatype Server = Server(conn: Conn, input: Octets)

  ghost function Act(env: Env, s: Server, a: Action): Server {
    match a
    case DoFeed(octets) => var (c, rest) := Feed(env, s.conn, s.input + octets); Server(c, rest)
    case DoPump => s.(conn := Pump(env.lim, s.conn))
    case DoGraceful => s.(conn := Graceful(s.conn))
    case DoDrain(n) => s.(conn := Drain(s.conn, n))
  }
}
