/**
  What the server holds a client to: for every frame in every state the verdict of RFC 9113 and of the
  server's limits, with the section it comes from, and that the server passes exactly that verdict.
 */
module H2Rules {
  import opened Bytes
  import opened H2Trace
  import opened H2Spec
  import opened H2Steps
  import opened H2Runs
  import opened H2Table
  import H2Wire
  import H2Blocks
  import H2Replies

  /** Nothing wrong, an error of the stream, or an error of the connection (section 5.4). */
  datatype Verdict = Fine | StreamFault(code: nat) | ConnectionFault(code: nat)

  // ------------------------------------------------------------ the rules

  /** Error codes of section 7. */
  const PROTOCOL: nat := 1
  const FLOW_CONTROL: nat := 3
  const CLOSED: nat := 5
  const FRAME_SIZE: nat := 6
  const REFUSED: nat := 7
  const COMPRESSION: nat := 9
  const CALM: nat := 11

  /** No new stream now: winding down, requests used up, or too many streams at once. */
  predicate Refusing(lim: Limits, c: Conn) {
    c.closing || c.peerGoaway || (lim.maxRequests != 0 && c.totalStreams >= lim.maxRequests)
      || |c.streams| >= lim.maxStreams
  }

  /** Section 6.5.2, parameter by parameter: push is a flag, windows have 31 bits, frames 2^14 to 2^24 - 1. */
  function SettingsFault(windows: seq<int>, initial: nat, payload: Octets): Option<nat>
    requires |payload| % 6 == 0
    decreases |payload|
  {
    if payload == [] then None
    else
      var id, v := Read16(payload), Read32(payload[2..]);
      if id == 2 && v > 1 then Some(PROTOCOL)
      else if id == 4 && (v > 0x7fff_ffff || Overflows(windows, v - initial)) then Some(FLOW_CONTROL)
      else if id == 5 && (v < 0x4000 || v > 0xff_ffff) then Some(PROTOCOL)
      else if id == 4 then SettingsFault(Shifted(windows, v - initial), v, payload[6..])
      else SettingsFault(windows, initial, payload[6..])
  }

  predicate Overflows(windows: seq<int>, delta: int) {
    exists w | w in windows :: w + delta > 0x7fff_ffff
  }

  function Shifted(windows: seq<int>, delta: int): (r: seq<int>)
    ensures |r| == |windows| && forall i | 0 <= i < |r| :: r[i] == windows[i] + delta
  {
    seq(|windows|, i requires 0 <= i < |windows| => windows[i] + delta)
  }

  function Windows(c: Conn): (r: seq<int>)
    ensures |r| == |c.streams| && forall i | 0 <= i < |r| :: r[i] == c.streams[i].sendWindow
  {
    seq(|c.streams|, i requires 0 <= i < |c.streams| => c.streams[i].sendWindow)
  }

  /** A complete header block: section 4.3 and 8.1, refusals by section 5.1.2, trailers must end the stream. */
  function BlockVerdict(outcome: HeaderOutcome, refused: bool, trailer: bool, endStream: bool): Verdict {
    if outcome.CompressionError? then ConnectionFault(COMPRESSION)
    else if refused then StreamFault(REFUSED)
    else if outcome.MalformedList? then StreamFault(PROTOCOL)
    else if trailer && !endStream then StreamFault(PROTOCOL)
    else if !trailer && !outcome.request then StreamFault(PROTOCOL)
    else Fine
  }

  /** A fragment: the block has a cap, and is judged when it is complete. */
  function FragmentVerdict(env: Env, c: Conn, before: Octets, fragment: Octets, last: bool, refused: bool,
                           trailer: bool, endStream: bool): Verdict {
    if |before| + |fragment| > env.lim.maxHeaderBytes + 4096 then ConnectionFault(CALM)
    else if !last then Fine
    else BlockVerdict(env.headers(c.blocks, HeaderBlock(before + fragment, trailer)), refused, trailer, endStream)
  }

  function HeadersVerdict(env: Env, c: Conn, f: InFrame): Verdict {
    var slot := Find(c, f.sid);
    if f.sid == 0 || HeaderFragment(f).None? then ConnectionFault(PROTOCOL)
    else if slot.None? then
      if f.sid % 2 == 0 || f.sid <= c.lastClientId then ConnectionFault(PROTOCOL)
      else
        FragmentVerdict(env, c, [], HeaderFragment(f).value, f.EndHeaders(), Refusing(env.lim, c), false, f.EndStream())
    else if c.streams[slot.value].endStreamRecv then ConnectionFault(CLOSED)
    else if !c.streams[slot.value].gotHeaders then ConnectionFault(PROTOCOL)
    else FragmentVerdict(env, c, [], HeaderFragment(f).value, f.EndHeaders(), false, true, f.EndStream())
  }

  function ContinuationVerdict(env: Env, c: Conn, f: InFrame): Verdict {
    if c.hdr.contCount >= 64 then ConnectionFault(CALM)
    else FragmentVerdict(env, c, c.hdr.block, f.payload, f.EndHeaders(), c.hdr.refuse != 0, c.hdr.trailer,
                         c.hdr.endStream)
  }

  /** Section 6.1: both windows count padding, the stream is open and has its headers, and bodies have a limit. */
  function DataVerdict(env: Env, c: Conn, f: InFrame): Verdict {
    var slot := Find(c, f.sid);
    if f.sid == 0 then ConnectionFault(PROTOCOL)
    else if |f.payload| > c.recvWindow then ConnectionFault(FLOW_CONTROL)
    else if slot.None? then if f.sid > c.lastClientId then ConnectionFault(PROTOCOL) else Fine
    else
      var st := c.streams[slot.value];
      if st.endStreamRecv || !st.gotHeaders then ConnectionFault(CLOSED)
      else if |f.payload| > st.recvWindow then StreamFault(FLOW_CONTROL)
      else if DataPayload(f).None? then ConnectionFault(PROTOCOL)
      else if |st.reqBody| + |DataPayload(f).value| > env.lim.maxBodyBytes then StreamFault(CALM)
      else Fine
  }

  /** Section 6.4; resets of streams that were not answered are counted against the limit on streams. */
  function ResetVerdict(lim: Limits, c: Conn, f: InFrame): Verdict {
    var slot := Find(c, f.sid);
    if |f.payload| != 4 then ConnectionFault(FRAME_SIZE)
    else if f.sid == 0 then ConnectionFault(PROTOCOL)
    else if slot.None? then if f.sid > c.lastClientId then ConnectionFault(PROTOCOL) else Fine
    else if c.rapidReset + (if c.streams[slot.value].responded then 0 else 1) > lim.maxStreams
      then ConnectionFault(CALM)
    else Fine
  }

  function SettingsVerdict(c: Conn, f: InFrame, seen: nat): Verdict {
    if f.sid != 0 then ConnectionFault(PROTOCOL)
    else if f.Ack() then if f.payload == [] then Fine else ConnectionFault(FRAME_SIZE)
    else if |f.payload| % 6 != 0 then ConnectionFault(FRAME_SIZE)
    else if seen > 64 then ConnectionFault(CALM)
    else
      match SettingsFault(Windows(c), c.peerInitialWindow, f.payload)
      case None => Fine
      case Some(code) => ConnectionFault(code)
  }

  function PingVerdict(lim: Limits, c: Conn, f: InFrame, seen: nat): Verdict {
    if f.sid != 0 then ConnectionFault(PROTOCOL)
    else if |f.payload| != 8 then ConnectionFault(FRAME_SIZE)
    else if !f.Ack() && (seen > 128 || c.queued > lim.maxOutBytes) then ConnectionFault(CALM)
    else Fine
  }

  /** Section 6.9: increments are positive and windows stay within 31 bits. */
  function UpdateVerdict(c: Conn, f: InFrame): Verdict {
    if |f.payload| != 4 then ConnectionFault(FRAME_SIZE)
    else
      var n, slot := Read31(f.payload), Find(c, f.sid);
      if f.sid == 0 then
        if n == 0 then ConnectionFault(PROTOCOL)
        else if c.sendWindow + n > 0x7fff_ffff then ConnectionFault(FLOW_CONTROL)
        else Fine
      else if slot.None? then if f.sid > c.lastClientId then ConnectionFault(PROTOCOL) else Fine
      else if n == 0 then StreamFault(PROTOCOL)
      else if c.streams[slot.value].sendWindow + n > 0x7fff_ffff then StreamFault(FLOW_CONTROL)
      else Fine
  }

  function PriorityVerdict(f: InFrame): Verdict {
    if f.sid == 0 then ConnectionFault(PROTOCOL)
    else if |f.payload| != 5 then ConnectionFault(FRAME_SIZE)
    else Fine
  }

  function GoawayVerdict(f: InFrame): Verdict {
    if f.sid != 0 then ConnectionFault(PROTOCOL)
    else if |f.payload| < 8 then ConnectionFault(FRAME_SIZE)
    else Fine
  }

  /** `n` counts the PING and SETTINGS frames of this feed, this frame included. */
  function Judged(env: Env, c: Conn, f: InFrame, n: Feeding): Verdict {
    if c.needSettings && f.kind != 4 then ConnectionFault(PROTOCOL)                             // section 3.4
    else if c.hdr.active && (f.kind != 9 || f.sid != c.hdr.id) then ConnectionFault(PROTOCOL)   // section 4.3
    else if !c.hdr.active && f.kind == 9 then ConnectionFault(PROTOCOL)                         // section 6.10
    else
      match f.kind
      case 0 => DataVerdict(env, c, f)
      case 1 => HeadersVerdict(env, c, f)
      case 2 => PriorityVerdict(f)
      case 3 => ResetVerdict(env.lim, c, f)
      case 4 => SettingsVerdict(c, f, n.settings)
      case 5 => ConnectionFault(PROTOCOL)
      case 6 => PingVerdict(env.lim, c, f, n.pings)
      case 7 => GoawayVerdict(f)
      case 8 => UpdateVerdict(c, f)
      case 9 => ContinuationVerdict(env, c, f)
      case _ => Fine
  }

  // ------------------------------------------------------------ what a verdict leads to

  /** The RST_STREAM sent last. */
  function LastReset(t: Trace): Option<(nat, nat)> {
    match t
    case Start => None
    case Then(_, Sent(RstStream(sid, code))) => Some((sid, code))
    case Then(p, _) => LastReset(p)
  }

  /** GOAWAY with the code unless one was `said` before; RST_STREAM with the code and the stream gone; or neither. */
  ghost predicate Passed(said: bool, c: Conn, d: Conn, sid: nat, v: Verdict) {
    d.rapidReset == c.rapidReset &&
    match v
    case ConnectionFault(code) =>
      && d.gotError && d.closing && d.goawaySent && LastReset(d.trace) == LastReset(c.trace)
      && (!said ==> d.trace.Then? && d.trace.event == Sent(GoAway(d.lastClientId, code)))
    case StreamFault(code) =>
      !d.gotError && Find(d, sid).None? && LastReset(d.trace) == Some((sid, code))
    case Fine => !d.gotError && LastReset(d.trace) == LastReset(c.trace)
  }

  /** Whether the frame resets a stream that was not answered; such resets are counted. */
  function Tally(c: Conn, f: InFrame): nat {
    if InSequence(c, f) && f.kind == 3 && |f.payload| == 4 && f.sid != 0 && Find(c, f.sid).Some?
       && !c.streams[Find(c, f.sid).value].responded then 1 else 0
  }

  function Tallied(c: Conn, f: InFrame): Conn {
    c.(rapidReset := c.rapidReset + Tally(c, f))
  }

  /** Nothing that a verdict is about, but maybe the history. */
  ghost predicate Alike(c: Conn, d: Conn) {
    d.goawaySent == c.goawaySent && d.gotError == c.gotError && d.rapidReset == c.rapidReset
      && LastReset(d.trace) == LastReset(c.trace)
  }

  lemma Faulted(c: Conn, d: Conn, sid: nat, code: nat)
    requires Alike(c, d)
    ensures Passed(c.goawaySent, c, ConnError(d, code), sid, ConnectionFault(code))
  {
  }

  lemma AllFaults(c: Conn, sid: nat)
    ensures forall code: nat :: Passed(c.goawaySent, c, ConnError(c, code), sid, ConnectionFault(code))
  {
    hide Passed, ConnError;
    assert Alike(c, c);
    forall code: nat
      ensures Passed(c.goawaySent, c, ConnError(c, code), sid, ConnectionFault(code))
    {
      Faulted(c, c, sid, code);
    }
  }

  /** A stream is reset and its slot freed. */
  lemma StreamFaulted(env: Env, c: Conn, d: Conn, i: nat, code: nat)
    requires TableInv(env.lim, c) && i < |c.streams| && !c.gotError
    requires Alike(c, d) && |d.streams| == |c.streams|
    requires forall k | 0 <= k < |c.streams| :: d.streams[k].id == c.streams[k].id
    ensures Passed(c.goawaySent, c, ResetAt(d, i, code), c.streams[i].id, StreamFault(code))
  {
    var e := ResetAt(d, i, code);
    assert Distinct(c.streams);
    hide TableInv;
    forall k | 0 <= k < |e.streams|
      ensures e.streams[k].id != c.streams[i].id
    {
      ClosedSlots(Emit(d, RstStream(d.streams[i].id, code)), i, k);
      assert c.streams[if k == i then |c.streams| - 1 else k].id != c.streams[i].id;
    }
    assert Find(e, c.streams[i].id).None?;
  }

  lemma ConsumedAlike(c: Conn, len: nat)
    ensures Alike(c, ConsumeConn(c, len)) && ConsumeConn(c, len).streams == c.streams
    ensures ConsumeConn(c, len).lastClientId == c.lastClientId
  {
  }

  lemma ConsumedStreamAlike(c: Conn, i: nat, len: nat)
    requires i < |c.streams|
    ensures Alike(c, ConsumeStream(c, i, len))
  {
  }

  lemma {:induction false} SendBlockAlike(c: Conn, sid: nat, block: Octets, first: bool, endStream: bool)
    ensures Alike(c, SendBlock(c, sid, block, first, endStream))
    decreases |block|
  {
    SendBlockTurn(c, sid, block, first, endStream);
    hide SendBlock;
    var maxf := FrameLimit(c);
    if |block| > maxf {
      var f := if first then Headers(sid, endStream, false, block[..maxf]) else Continuation(sid, false, block[..maxf]);
      SendBlockAlike(Emit(c, f), sid, block[maxf..], false, endStream);
    }
  }

  lemma DispatchAlike(env: Env, c: Conn, i: nat)
    requires i < |c.streams| && !c.streams[i].dispatched && !c.streams[i].responded
    ensures Alike(c, Dispatch(env, c, i))
  {
    var st := c.streams[i];
    var r := env.app(st.id);
    var c1 := Note(SetStream(c, i, st.(dispatched := true)), Dispatched(st.id, st.isHead, st.reqBody));
    DispatchTrace(env, c, i);
    DispatchShape(env, c, i);
    SendBlockAlike(c1, st.id, FieldBlock(r), true, !HasBody(r, st.isHead));
    hide Dispatch, SendBlock, FieldBlock, HasBody;
  }

  lemma TransAlike(a: Conn, b: Conn, c: Conn)
    requires Alike(a, b) && Alike(b, c)
    ensures Alike(a, c)
  {
  }

  lemma AlikeFine(c: Conn, d: Conn, sid: nat)
    requires Alike(c, d) && !c.gotError
    ensures Passed(c.goawaySent, c, d, sid, Fine)
  {
  }

  // ------------------------------------------------------------ handler by handler

  lemma ResetRule(env: Env, c: Conn, f: InFrame)
    requires !c.gotError && InSequence(c, f) && f.kind == 3
    ensures Passed(c.goawaySent, Tallied(c, f), OnRstStream(env, c, f), f.sid, ResetVerdict(env.lim, c, f))
  {
    var slot := Find(c, f.sid);
    AllFaults(c, f.sid);
    hide Find;
    if |f.payload| == 4 && f.sid != 0 && slot.Some? {
      Faulted(Tallied(c, f), CloseAt(c, slot.value).(rapidReset := c.rapidReset + Tally(c, f)), f.sid, CALM);
    } else {
      assert Tallied(c, f) == c;
    }
    hide ConnError;
  }

  lemma SmallRules(env: Env, c: Conn, f: InFrame, seen: nat)
    requires !c.gotError
    ensures Passed(c.goawaySent, c, OnPing(env, c, f, seen), f.sid, PingVerdict(env.lim, c, f, seen))
    ensures Passed(c.goawaySent, c, OnPriority(c, f), f.sid, PriorityVerdict(f))
    ensures Passed(c.goawaySent, c, OnGoaway(c, f), f.sid, GoawayVerdict(f))
  {
    AllFaults(c, f.sid);
    hide ConnError;
  }

  lemma UpdateRule(env: Env, c: Conn, f: InFrame)
    requires TableInv(env.lim, c) && !c.gotError
    ensures Passed(c.goawaySent, c, OnWindowUpdate(c, f), f.sid, UpdateVerdict(c, f))
  {
    AllFaults(c, f.sid);
    hide TableInv, ConnError, ResetAt, Find, Read31;
    var slot := Find(c, f.sid);
    if |f.payload| == 4 {
      var n := Read31(f.payload);
      Faulted(c, c.(sendWindow := c.sendWindow + n), f.sid, FLOW_CONTROL);
      if slot.Some? {
        var st := c.streams[slot.value].(sendWindow := c.streams[slot.value].sendWindow + n);
        StreamFaulted(env, c, c, slot.value, PROTOCOL);
        StreamFaulted(env, c, SetStream(c, slot.value, st), slot.value, FLOW_CONTROL);
      }
    }
  }

  lemma {:induction false} RetargetSays(streams: seq<Stream>, delta: int, from: nat)
    requires from <= |streams|
    ensures var r := Retarget(streams, delta, from);
            && (r.1 <==> forall k | from <= k < |streams| :: streams[k].sendWindow + delta <= 0x7fff_ffff)
            && (forall k | 0 <= k < from :: r.0[k] == streams[k])
            && (r.1 ==> forall k | from <= k < |streams| :: r.0[k].sendWindow == streams[k].sendWindow + delta)
    decreases |streams| - from
  {
    if from < |streams| {
      var st := streams[from].(sendWindow := streams[from].sendWindow + delta);
      var streams' := streams[from := st];
      if st.sendWindow <= 0x7fff_ffff {
        RetargetSays(streams', delta, from + 1);
        assert forall k | from + 1 <= k < |streams| :: streams'[k] == streams[k];
      }
    }
  }

  lemma OverflowsSomewhere(c: Conn, delta: int)
    ensures Overflows(Windows(c), delta) <==>
            exists k | 0 <= k < |c.streams| :: c.streams[k].sendWindow + delta > 0x7fff_ffff
  {
    if Overflows(Windows(c), delta) {
      var w :| w in Windows(c) && w + delta > 0x7fff_ffff;
      var k :| 0 <= k < |c.streams| && Windows(c)[k] == w;
      assert c.streams[k].sendWindow + delta > 0x7fff_ffff;
    }
    if k :| 0 <= k < |c.streams| && c.streams[k].sendWindow + delta > 0x7fff_ffff {
      assert Windows(c)[k] in Windows(c);
    }
  }

  /** The windows a SETTINGS frame works on. */
  lemma WindowSetting(c: Conn, v: nat)
    requires !c.gotError && v <= 0x7fff_ffff
    ensures var d := ApplySetting(c, 4, v);
            if Overflows(Windows(c), v - c.peerInitialWindow)
              then Passed(c.goawaySent, c, d, 0, ConnectionFault(FLOW_CONTROL))
            else Alike(c, d) && d.peerInitialWindow == v && Windows(d) == Shifted(Windows(c), v - c.peerInitialWindow)
  {
    var delta := v - c.peerInitialWindow;
    RetargetSays(c.streams, delta, 0);
    OverflowsSomewhere(c, delta);
    var r := Retarget(c.streams, delta, 0);
    Faulted(c, c.(streams := r.0), 0, FLOW_CONTROL);
    hide Retarget, ConnError, Overflows, Passed;
  }

  lemma PassedOn(c: Conn, c1: Conn, d: Conn, sid: nat, v: Verdict)
    requires Alike(c, c1) && Passed(c1.goawaySent, c1, d, sid, v)
    ensures Passed(c.goawaySent, c, d, sid, v)
  {
  }

  /** One parameter: an error of the connection, or on to the next. */
  lemma SettingRule(c: Conn, id: nat, v: nat)
    requires !c.gotError
    ensures var d := ApplySetting(c, id, v);
            if (id == 2 && v > 1) || (id == 5 && (v < 0x4000 || v > 0xff_ffff))
              then Passed(c.goawaySent, c, d, 0, ConnectionFault(PROTOCOL))
            else if id == 4 && (v > 0x7fff_ffff || Overflows(Windows(c), v - c.peerInitialWindow)) then
              Passed(c.goawaySent, c, d, 0, ConnectionFault(FLOW_CONTROL))
            else if id == 4 then
              Alike(c, d) && d.peerInitialWindow == v && Windows(d) == Shifted(Windows(c), v - c.peerInitialWindow)
            else Alike(c, d) && d.peerInitialWindow == c.peerInitialWindow && Windows(d) == Windows(c)
  {
    AllFaults(c, 0);
    if id == 4 && v <= 0x7fff_ffff {
      WindowSetting(c, v);
    }
    hide Retarget, ConnError, Overflows, Passed, Windows, Shifted;
  }

  lemma {:induction false} PayloadRule(c: Conn, payload: Octets)
    requires |payload| % 6 == 0 && !c.gotError
    ensures var d := ApplySettings(c, payload);
            match SettingsFault(Windows(c), c.peerInitialWindow, payload)
            case None => Alike(c, d)
            case Some(code) => Passed(c.goawaySent, c, d, 0, ConnectionFault(code))
    decreases |payload|
  {
    hide ApplySetting, Read16, Read32, Overflows, Windows, Shifted;
    if payload != [] {
      var id, v := Read16(payload), Read32(payload[2..]);
      SettingRule(c, id, v);
      var c1 := ApplySetting(c, id, v);
      if !c1.gotError {
        PayloadRule(c1, payload[6..]);
      }
    }
  }

  lemma SettingsRule(c: Conn, f: InFrame, seen: nat)
    requires !c.gotError
    ensures Passed(c.goawaySent, c, OnSettings(c, f, seen), f.sid, SettingsVerdict(c, f, seen))
  {
    AllFaults(c, f.sid);
    hide ConnError, ApplySettings, SettingsFault, Windows;
    if |f.payload| % 6 == 0 {
      PayloadRule(c, f.payload);
    }
  }

  // ------------------------------------------------------------ DATA

  lemma DropRule(env: Env, c: Conn, i: nat, code: nat, len: nat)
    requires TableInv(env.lim, c) && i < |c.streams| && !c.gotError
    ensures Passed(c.goawaySent, c, ConsumeConn(ResetAt(c, i, code), len), c.streams[i].id, StreamFault(code))
  {
    StreamFaulted(env, c, c, i, code);
    var d := ResetAt(c, i, code);
    ConsumedAlike(d, len);
    hide TableInv, ResetAt, ConsumeConn;
    assert ConsumeConn(d, len).streams == d.streams;
  }

  lemma BodyRule(env: Env, c: Conn, i: nat, body: Octets, len: nat, end: bool)
    requires TableInv(env.lim, c) && i < |c.streams| && !c.gotError && !c.streams[i].endStreamRecv
    ensures var c1 := ConsumeConn(SetStream(c, i, c.streams[i].(reqBody := body)), len);
            && |c1.streams| == |c.streams|
            && Alike(c, if end then Dispatch(env, SetStream(c1, i, c1.streams[i].(endStreamRecv := true)), i)
                        else ConsumeStream(c1, i, len))
  {
    assert StreamShape(env.lim, c, c.streams[i]);
    assert !c.streams[i].dispatched && !c.streams[i].responded;
    var c0 := SetStream(c, i, c.streams[i].(reqBody := body));
    var c1 := ConsumeConn(c0, len);
    ConsumedAlike(c0, len);
    hide TableInv, Dispatch, ConsumeConn, ConsumeStream;
    ConsumedStreamAlike(c1, i, len);
    DispatchAlike(env, SetStream(c1, i, c1.streams[i].(endStreamRecv := true)), i);
  }

  lemma DataRule(env: Env, c: Conn, f: InFrame)
    requires TableInv(env.lim, c) && !c.gotError
    ensures Passed(c.goawaySent, c, OnData(env, c, f), f.sid, DataVerdict(env, c, f))
  {
    var slot := Find(c, f.sid);
    var len := |f.payload|;
    AllFaults(c, f.sid);
    if slot.Some? && f.sid != 0 && len <= c.recvWindow {
      hide TableInv, Passed, OnData, DataVerdict;
      DataOnStream(env, c, f, slot.value);
    } else {
      ConsumedAlike(c, len);
      AlikeFine(c, ConsumeConn(c, len), f.sid);
      Faulted(c, ConsumeConn(c, len), f.sid, PROTOCOL);
    }
    hide TableInv, ConnError, ResetAt, ConsumeConn, ConsumeStream, Dispatch, DataPayload, Find, Passed, Alike;
  }

  lemma DataOnStream(env: Env, c: Conn, f: InFrame, i: nat)
    requires TableInv(env.lim, c) && !c.gotError && f.sid != 0 && |f.payload| <= c.recvWindow
             && Find(c, f.sid) == Some(i)
    ensures Passed(c.goawaySent, c, OnData(env, c, f), f.sid, DataVerdict(env, c, f))
  {
    hide TableInv, ConnError, ResetAt, ConsumeConn, ConsumeStream, Dispatch, DataPayload, Find, Passed, Alike;
    AllFaults(c, f.sid);
    var len, d := |f.payload|, DataPayload(f);
    DropRule(env, c, i, FLOW_CONTROL, len);
    DropRule(env, c, i, CALM, len);
    if d.Some? && !c.streams[i].endStreamRecv {
      DataFine(env, c, i, c.streams[i].reqBody + d.value, f);
    }
  }

  lemma DataFine(env: Env, c: Conn, i: nat, body: Octets, f: InFrame)
    requires TableInv(env.lim, c) && i < |c.streams| && !c.gotError && !c.streams[i].endStreamRecv
    ensures var len := |f.payload|;
            var c1 := ConsumeConn(SetStream(c, i, c.streams[i].(reqBody := body)), len);
            && |c1.streams| == |c.streams|
            && Passed(c.goawaySent, c,
                      if f.EndStream() then Dispatch(env, SetStream(c1, i, c1.streams[i].(endStreamRecv := true)), i)
                      else ConsumeStream(c1, i, len), f.sid, Fine)
  {
    BodyRule(env, c, i, body, |f.payload|, f.EndStream());
    hide TableInv, ConsumeConn, ConsumeStream, Dispatch;
  }

  // ------------------------------------------------------------ header blocks

  lemma RefusedRule(env: Env, c: Conn)
    requires TableInv(env.lim, c) && !c.gotError && c.hdr.active && c.hdr.stream.None?
    ensures Passed(c.goawaySent, c, FinishHeaders(env, c), c.hdr.id,
                   BlockVerdict(env.headers(c.blocks, HeaderBlock(c.hdr.block, c.hdr.trailer)), true, c.hdr.trailer,
                                c.hdr.endStream))
  {
    var h := c.hdr;
    var c1 := c.(hdr := NO_BLOCK, blocks := c.blocks + [HeaderBlock(h.block, h.trailer)]);
    Faulted(c, c1, h.id, COMPRESSION);
    assert h.refuse == REFUSED && forall i | 0 <= i < |c.streams| :: c.streams[i].id != h.id;
    hide TableInv, ConnError, StreamShape;
    assert Find(c1, h.id).None?;
    var d := Emit(c1, RstStream(h.id, REFUSED));
    assert d.streams == c1.streams;
    assert Find(d, h.id).None?;
    assert Passed(c.goawaySent, c, d, h.id, StreamFault(REFUSED));
    hide Find, Passed;
  }

  lemma DispatchedFine(env: Env, c: Conn, c1: Conn, i: nat, st: Stream)
    requires i < |c1.streams| && Alike(c, c1) && !c.gotError && !st.dispatched && !st.responded
    ensures Passed(c.goawaySent, c, Dispatch(env, SetStream(c1, i, st), i), st.id, Fine)
  {
    DispatchAlike(env, SetStream(c1, i, st), i);
    hide Dispatch;
  }

  /** Accepting the headers of a request without ending the stream. */
  lemma HeadersFine(c: Conn, c1: Conn, i: nat, st: Stream)
    requires i < |c1.streams| && Alike(c, c1) && !c.gotError
    ensures Passed(c.goawaySent, c, SetStream(c1, i, st), st.id, Fine)
  {
  }

  lemma AcceptedRule(env: Env, c: Conn)
    requires TableInv(env.lim, c) && !c.gotError && c.hdr.active && c.hdr.stream.Some?
    ensures Passed(c.goawaySent, c, FinishHeaders(env, c), c.hdr.id,
                   BlockVerdict(env.headers(c.blocks, HeaderBlock(c.hdr.block, c.hdr.trailer)), false, c.hdr.trailer,
                                c.hdr.endStream))
  {
    var i :| 0 <= i < |c.streams| && Awaits(c, c.streams[i]);
    FindSlot(env.lim, c, i);
    assert StreamShape(env.lim, c, c.streams[i]);
    var c1 := c.(hdr := NO_BLOCK, blocks := c.blocks + [HeaderBlock(c.hdr.block, c.hdr.trailer)]);
    StreamFaulted(env, c, c1, i, PROTOCOL);
    hide TableInv, StreamShape, HdrShape, Find, Passed, Distinct, FinishHeaders, BlockVerdict;
    AcceptedAt(env, c, c1, i);
  }

  /** The outcomes of a block whose stream is in slot `i`. */
  lemma Outcomes(env: Env, c: Conn, c1: Conn, i: nat)
    requires c1 == c.(hdr := NO_BLOCK, blocks := c.blocks + [HeaderBlock(c.hdr.block, c.hdr.trailer)])
    requires c.hdr.stream == Some(c.hdr.id) && c.hdr.refuse == 0 && i < |c.streams| && Find(c, c.hdr.id) == Some(i)
    ensures var h, st, d := c.hdr, c.streams[i], FinishHeaders(env, c);
            var outcome := env.headers(c.blocks, HeaderBlock(h.block, h.trailer));
            if outcome.CompressionError? then d == ConnError(c1, COMPRESSION)
            else if outcome.MalformedList? || (if h.trailer then !h.endStream else !outcome.request) then
              d == ResetAt(c1, i, PROTOCOL)
            else if h.trailer then d == Dispatch(env, SetStream(c1, i, st.(endStreamRecv := true)), i)
            else
              var st2 := st.(gotHeaders := true, endStreamRecv := h.endStream, isHead := outcome.isHead);
              d == if h.endStream then Dispatch(env, SetStream(c1, i, st2), i) else SetStream(c1, i, st2)
  {
    hide Find, Dispatch, ConnError, ResetAt;
  }

  lemma AcceptedAt(env: Env, c: Conn, c1: Conn, i: nat)
    requires c1 == c.(hdr := NO_BLOCK, blocks := c.blocks + [HeaderBlock(c.hdr.block, c.hdr.trailer)])
    requires !c.gotError && c.hdr.stream == Some(c.hdr.id) && c.hdr.refuse == 0
    requires i < |c.streams| && Find(c, c.hdr.id) == Some(i) && !c.streams[i].dispatched && !c.streams[i].responded
    requires Passed(c.goawaySent, c, ResetAt(c1, i, PROTOCOL), c.hdr.id, StreamFault(PROTOCOL))
    ensures Passed(c.goawaySent, c, FinishHeaders(env, c), c.hdr.id,
                   BlockVerdict(env.headers(c.blocks, HeaderBlock(c.hdr.block, c.hdr.trailer)), false, c.hdr.trailer,
                                c.hdr.endStream))
  {
    Outcomes(env, c, c1, i);
    var h, st := c.hdr, c.streams[i];
    var outcome := env.headers(c.blocks, HeaderBlock(h.block, h.trailer));
    Faulted(c, c1, h.id, COMPRESSION);
    hide Find, Passed, Dispatch, ConnError, ResetAt, SetStream, FinishHeaders;
    DispatchedFine(env, c, c1, i, st.(endStreamRecv := true));
    if outcome.FieldList? {
      var st2 := st.(gotHeaders := true, endStreamRecv := h.endStream, isHead := outcome.isHead);
      DispatchedFine(env, c, c1, i, st2);
      HeadersFine(c, c1, i, st2);
    }
  }

  lemma FragmentRule(env: Env, c: Conn, fragment: Octets, last: bool)
    requires TableInv(env.lim, c) && !c.gotError && c.hdr.active
    ensures Passed(c.goawaySent, c, Accumulate(env, c, fragment, last), c.hdr.id,
                   FragmentVerdict(env, c, c.hdr.block, fragment, last, c.hdr.refuse != 0, c.hdr.trailer,
                                   c.hdr.endStream))
  {
    AllFaults(c, c.hdr.id);
    var c1 := c.(hdr := c.hdr.(block := c.hdr.block + fragment));
    Alike2(c, c1);
    TableAtom(env, c, Gather(c.hdr.block + fragment, c.hdr.contCount));
    assert TableInv(env.lim, c1);
    assert c1.hdr.stream.None? <==> c1.hdr.refuse != 0;
    hide TableInv, ConnError, FinishHeaders, BlockVerdict;
    if last && |c.hdr.block| + |fragment| <= env.lim.maxHeaderBytes + 4096 {
      if c1.hdr.stream.None? {
        RefusedRule(env, c1);
      } else {
        AcceptedRule(env, c1);
      }
    }
  }

  lemma Alike2(c: Conn, d: Conn)
    requires d == c.(hdr := d.hdr) && !c.gotError
    ensures Alike(c, d) && Passed(c.goawaySent, c, d, c.hdr.id, Fine)
  {
  }

  lemma ContinuationRule(env: Env, c: Conn, f: InFrame)
    requires TableInv(env.lim, c) && !c.gotError && c.hdr.active && f.sid == c.hdr.id
    ensures Passed(c.goawaySent, c, OnContinuation(env, c, f), f.sid, ContinuationVerdict(env, c, f))
  {
    hide Passed, Alike, ConnError, Accumulate, BlockVerdict;
    var c1 := c.(hdr := c.hdr.(contCount := c.hdr.contCount + 1));
    TableAtom(env, c, Gather(c.hdr.block, c.hdr.contCount + 1));
    assert TableInv(env.lim, c1);
    hide TableInv;
    Alike2(c, c1);
    Faulted(c, c1, f.sid, CALM);
    FragmentRule(env, c1, f.payload, f.EndHeaders());
    PassedOn(c, c1, Accumulate(env, c1, f.payload, f.EndHeaders()), f.sid,
             FragmentVerdict(env, c1, c1.hdr.block, f.payload, f.EndHeaders(), c1.hdr.refuse != 0, c1.hdr.trailer,
                             c1.hdr.endStream));
  }

  /** The last GOAWAY may be out by the time a verdict is passed: one stream too many winds the connection down. */
  predicate Said(lim: Limits, c: Conn, f: InFrame) {
    || c.goawaySent
    || (f.kind == 1 && Find(c, f.sid).None? && !c.closing && !c.peerGoaway && lim.maxRequests != 0
        && c.totalStreams >= lim.maxRequests)
  }

  lemma BegunAlike(env: Env, c: Conn, f: InFrame)
    requires TableInv(env.lim, c) && !c.gotError && !c.hdr.active && f.kind == 1
    requires Find(c, f.sid).None? && f.sid % 2 == 1 && c.lastClientId < f.sid
    ensures var d := BeginStream(env.lim, c, f);
            && (d.goawaySent ==> Said(env.lim, c, f)) && !d.gotError && LastReset(d.trace) == LastReset(c.trace)
            && d.blocks == c.blocks && d.hdr.active && d.hdr.id == f.sid && d.hdr.block == [] && !d.hdr.trailer
            && d.hdr.endStream == f.EndStream() && (d.hdr.refuse != 0 <==> Refusing(env.lim, c))
  {
    assert c.openCount == |c.streams|;
    hide TableInv, Find;
  }

  lemma NewHeaders(env: Env, c: Conn, f: InFrame, frag: Octets)
    requires TableInv(env.lim, c) && !c.gotError && !c.hdr.active && f.kind == 1 && f.sid <= MAX_WINDOW
    requires f.EndStream() ==> SawEndStream(c.trace, f.sid)
    requires Find(c, f.sid).None? && f.sid % 2 == 1 && c.lastClientId < f.sid
    ensures Passed(Said(env.lim, c, f), c, Accumulate(env, BeginStream(env.lim, c, f), frag, f.EndHeaders()), f.sid,
                   FragmentVerdict(env, c, [], frag, f.EndHeaders(), Refusing(env.lim, c), false, f.EndStream()))
  {
    BegunAlike(env, c, f);
    TableAtom(env, c, Begin(f));
    var d := BeginStream(env.lim, c, f);
    assert d == Do(env, c, Begin(f));
    hide TableInv, Accumulate, BlockVerdict, BeginStream, Find, ConnError, Refusing, Said;
    FragmentRule(env, d, frag, f.EndHeaders());
  }

  lemma TrailerHeaders(env: Env, c: Conn, f: InFrame, frag: Octets, i: nat)
    requires TableInv(env.lim, c) && !c.gotError && !c.hdr.active
    requires f.EndStream() ==> SawEndStream(c.trace, f.sid)
    requires i < |c.streams| && c.streams[i].id == f.sid && !c.streams[i].endStreamRecv && c.streams[i].gotHeaders
    ensures Passed(c.goawaySent, c, Accumulate(env, BeginTrailer(c, f), frag, f.EndHeaders()), f.sid,
                   FragmentVerdict(env, c, [], frag, f.EndHeaders(), false, true, f.EndStream()))
  {
    TableAtom(env, c, Trailer(f));
    var d := BeginTrailer(c, f);
    assert d == Do(env, c, Trailer(f));
    hide TableInv, Accumulate, BlockVerdict, ConnError;
    FragmentRule(env, d, frag, f.EndHeaders());
  }

  lemma HeadersRule(env: Env, c: Conn, f: InFrame)
    requires TableInv(env.lim, c) && !c.gotError && !c.hdr.active && f.kind == 1 && f.sid <= MAX_WINDOW
    requires f.EndStream() ==> SawEndStream(c.trace, f.sid)
    ensures Passed(Said(env.lim, c, f), c, OnHeaders(env, c, f), f.sid, HeadersVerdict(env, c, f))
  {
    hide TableInv, Accumulate, FragmentVerdict, BeginStream, BeginTrailer, Find, HeaderFragment, ConnError, Refusing,
         Said, Passed;
    AllFaults(c, f.sid);
    SaidMore(env.lim, c, f);
    var frag, slot := HeaderFragment(f), Find(c, f.sid);
    if f.sid != 0 && frag.Some? {
      if slot.None? {
        if f.sid % 2 == 1 && f.sid > c.lastClientId {
          NewHeaders(env, c, f, frag.value);
        }
      } else if !c.streams[slot.value].endStreamRecv && c.streams[slot.value].gotHeaders {
        TrailerHeaders(env, c, f, frag.value, slot.value);
      }
    }
  }

  lemma SaidMore(lim: Limits, c: Conn, f: InFrame)
    ensures forall b: Conn, d: Conn, sid: nat, v ::
              Passed(c.goawaySent, b, d, sid, v) ==> Passed(Said(lim, c, f), b, d, sid, v)
  {
    hide Find;
  }

  // ------------------------------------------------------------ the main result

  /** The verdicts do not look at the history. */
  lemma JudgedSeen(env: Env, c: Conn, f: InFrame, n: Feeding)
    requires InSequence(c, f)
    ensures Judged(env, Seen(c, f), f, n) == Judged(env, c, f, n)
    ensures Said(env.lim, Seen(c, f), f) == Said(env.lim, c, f) && Tally(Seen(c, f), f) == Tally(c, f)
  {
    var c1 := Seen(c, f);
    VerdictsSeen(env, c, f, n);
    assert Find(c1, f.sid) == Find(c, f.sid);
    hide Find, HeadersVerdict, DataVerdict, ContinuationVerdict, ResetVerdict, SettingsVerdict, PingVerdict,
         UpdateVerdict;
  }

  lemma VerdictsSeen(env: Env, c: Conn, f: InFrame, n: Feeding)
    ensures var d := Seen(c, f);
            && HeadersVerdict(env, d, f) == HeadersVerdict(env, c, f)
            && DataVerdict(env, d, f) == DataVerdict(env, c, f)
            && ContinuationVerdict(env, d, f) == ContinuationVerdict(env, c, f)
            && ResetVerdict(env.lim, d, f) == ResetVerdict(env.lim, c, f)
            && SettingsVerdict(d, f, n.settings) == SettingsVerdict(c, f, n.settings)
            && PingVerdict(env.lim, d, f, n.pings) == PingVerdict(env.lim, c, f, n.pings)
            && UpdateVerdict(d, f) == UpdateVerdict(c, f)
  {
    var d := Seen(c, f);
    assert Windows(d) == Windows(c);
    assert Find(d, f.sid) == Find(c, f.sid);
    hide Find, Windows, SettingsFault, BlockVerdict, DataPayload, HeaderFragment, Read31;
  }

  lemma SeenAlike(env: Env, c: Conn, f: InFrame)
    requires TableInv(env.lim, c) && InSequence(c, f)
    ensures var c1 := Seen(c, f);
            && TableInv(env.lim, c1) && Alike(c, c1) && c1.hdr == c.hdr
            && (f.kind == 1 && f.EndStream() ==> SawEndStream(c1.trace, f.sid))
  {
    TableSeen(env, c, f);
    hide TableInv;
  }

  /** A frame that may come now, handled on the state that has recorded it. */
  lemma HandledRightly(env: Env, c: Conn, f: InFrame, n: Feeding)
    requires TableInv(env.lim, c) && !c.gotError && Parsed(f) && InSequence(c, f)
    ensures var c1 := Seen(c, f);
            Passed(Said(env.lim, c1, f), Tallied(c1, f), OnFrame(env, c, f, n), f.sid, Judged(env, c1, f, n))
  {
    SeenAlike(env, c, f);
    var c1 := Seen(c, f);
    AllFaults(c1, f.sid);
    AlikeFine(c1, c1, f.sid);
    SaidMore(env.lim, c1, f);
    assert f.kind != 3 ==> Tallied(c1, f) == c1;
    assert InSequence(c1, f);
    hide Tallied, InSequence, TableInv, Passed, ConnError, Said, DataVerdict, HeadersVerdict, ContinuationVerdict,
         ResetVerdict, SettingsVerdict, PingVerdict, UpdateVerdict, PriorityVerdict, GoawayVerdict, OnData, OnHeaders,
         OnContinuation, OnRstStream, OnSettings, OnPing, OnWindowUpdate, OnPriority, OnGoaway;
    match f.kind
    case 0 => DataRule(env, c1, f);
    case 1 => HeadersRule(env, c1, f);
    case 3 => ResetRule(env, c1, f);
    case 4 => SettingsRule(c1, f, n.settings);
    case 8 => UpdateRule(env, c1, f);
    case 9 => ContinuationRule(env, c1, f);
    case 5 =>
    case _ => SmallRules(env, c1, f, n.pings);
  }

  /** In every state that runs keep and for every frame, the verdict of the rules is the one passed. */
  lemma RulesApplied(env: Env, c: Conn, f: InFrame, n: Feeding)
    requires TableInv(env.lim, c) && !c.gotError && Parsed(f)
    ensures Passed(Said(env.lim, c, f), Tallied(c, f), OnFrame(env, c, f, n), f.sid, Judged(env, c, f, n))
  {
    SaidMore(env.lim, c, f);
    if InSequence(c, f) {
      SeenAlike(env, c, f);
      JudgedSeen(env, c, f, n);
      hide TableInv, OnFrame, Judged, Said, InSequence;
      HandledRightly(env, c, f, n);
    } else {
      Faulted(c, Note(c, Recv(f)).(needSettings := c.needSettings && f.kind != 4), f.sid, PROTOCOL);
      hide TableInv, ConnError, Said, Passed;
    }
  }

  /** Every run stands in a state that the rules speak about. */
  lemma RunsKeepShape(env: Env, actions: seq<Action>)
    ensures TableInv(env.lim, Run(env, actions).conn)
  {
    hide Invariant, Run, TableInv;
    H2Replies.ReplyInvariant(env);
    RunKeeps(env, H2Replies.ReplyProperty(env), actions);
    assert H2Replies.ReplyInv(env, Run(env, actions).conn);
  }

  /** After any run the verdict on the octets of one more frame is that of the rules. */
  lemma RunRules(env: Env, actions: seq<Action>, f: InFrame)
    requires Parsed(f)
    requires var s := Run(env, actions); !s.conn.gotError && s.conn.prefaceGot == 24 && s.input == []
    ensures var c := Run(env, actions).conn;
            var d := Run(env, actions + [DoFeed(H2Wire.InWire(f))]).conn;
            Passed(Said(env.lim, c, f), Tallied(c, f), d, f.sid, Judged(env, c, f, Count(Feeding(0, 0), f)))
  {
    var s, more := Run(env, actions), actions + [DoFeed(H2Wire.InWire(f))];
    assert more[..|more| - 1] == actions;
    assert Run(env, more) == Act(env, s, DoFeed(H2Wire.InWire(f)));
    RunsKeepShape(env, actions);
    RulesApplied(env, s.conn, f, Count(Feeding(0, 0), f));
    hide Run, TableInv, OnFrame, Judged, Passed, Said, Tallied, Count, InSequence;
    FedAlone(env, s.conn, f);
    assert [] + H2Wire.InWire(f) == H2Wire.InWire(f);
  }

  lemma FedAlone(env: Env, c: Conn, f: InFrame)
    requires Parsed(f) && !c.gotError && c.prefaceGot == 24
    ensures Feed(env, c, H2Wire.InWire(f)).0 == OnFrame(env, c, f, Count(Feeding(0, 0), f))
  {
    hide OnFrame, Count, InSequence, H2Wire.InWire;
    H2Blocks.FeedOne(env, c, f, [], Feeding(0, 0));
    assert H2Wire.InWire(f) + [] == H2Wire.InWire(f);
    var c1 := OnFrame(env, c, f, Count(Feeding(0, 0), f));
    assert FeedFrames(env, c1, [], Count(Feeding(0, 0), f)) == (c1, []);
  }
}
