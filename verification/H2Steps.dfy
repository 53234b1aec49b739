/**
  The HTTP/2 handlers taken apart into atomic steps. A property of the connection that holds
  of the stream table's shape and is kept by every atomic step is kept by every handler; the
  safety proofs then argue about atomic steps only.
 */
module H2Steps {
  import opened Bytes
  import opened H2Trace
  import opened H2Spec

  // ------------------------------------------------------------ shape of the stream table

  /**
    Where a stream in the table stands between steps: answered exactly when the client has ended
    its side, and kept only while some of its response body is still to be sent.
   */
  ghost predicate StreamShape(lim: Limits, c: Conn, st: Stream) {
    && st.id % 2 == 1 && 1 <= st.id <= c.lastClientId
    && (st.dispatched <==> st.endStreamRecv) && (st.responded <==> st.dispatched)
    && (st.respHeadersDone <==> st.responded)
    && (st.endStreamRecv ==> st.gotHeaders)
    && !st.sendDone
    && (if st.responded then st.endAfterBody && st.bodyOff < |st.respBody|
        else st.respBody == [] && st.bodyOff == 0 && !st.endAfterBody)
    && |st.reqBody| <= lim.maxBodyBytes
    && (st.gotHeaders || c.gotError || (c.hdr.active && c.hdr.stream == Some(st.id)))
  }

  /** The header block being reassembled belongs to a live, unfinished stream or was refused. */
  ghost predicate HdrShape(c: Conn) {
    && (if c.hdr.active then 1 <= c.hdr.id <= c.lastClientId else c.hdr == NO_BLOCK)
    && (c.hdr.stream.Some? ==>
          && c.hdr.active && c.hdr.stream == Some(c.hdr.id) && c.hdr.refuse == 0
          && exists i | 0 <= i < |c.streams| :: Awaits(c, c.streams[i]))
    && (c.hdr.active && c.hdr.stream.None? ==>
          && c.hdr.refuse == E_REFUSED_STREAM
          && forall i | 0 <= i < |c.streams| :: c.streams[i].id != c.hdr.id)
  }

  ghost predicate Awaits(c: Conn, st: Stream) {
    st.id == c.hdr.id && !st.endStreamRecv && (st.gotHeaders <==> c.hdr.trailer)
  }

  /** END_STREAM on the HEADERS frame of the block in progress is on record. */
  ghost predicate BlockEndSeen(c: Conn) {
    c.hdr.active && c.hdr.endStream ==> SawEndStream(c.trace, c.hdr.id)
  }

  ghost predicate Distinct(streams: seq<Stream>) {
    forall i, j | 0 <= i < j < |streams| :: streams[i].id != streams[j].id
  }

  ghost predicate TableInv(lim: Limits, c: Conn) {
    && |c.streams| == c.openCount <= lim.maxStreams
    && Distinct(c.streams)
    && (forall i | 0 <= i < |c.streams| :: StreamShape(lim, c, c.streams[i]))
    && HdrShape(c) && BlockEndSeen(c)
    && c.prefaceGot <= PREFACE_LEN
    && 16384 <= c.peerMaxFrame <= 16777215
    && c.peerInitialWindow <= MAX_WINDOW
    && (c.goawaySent ==> c.closing)
    && (c.gotError ==> c.goawaySent)
  }

  // ------------------------------------------------------------ atomic steps

  /** The header block in progress, if any, is that of stream `sid`, and is now done with. */
  ghost predicate EndsBlock(c: Conn, sid: nat) {
    c.hdr.active ==> c.hdr.stream == Some(sid)
  }

  function EndBlock(c: Conn, blocks: seq<HeaderBlock>): Conn {
    c.(hdr := NO_BLOCK, blocks := blocks)
  }

  datatype Atom =
    | Answer(f: OutFrame)
    | WindDown(code: nat, error: bool)
    | Begin(frame: InFrame)
    | Trailer(frame: InFrame)
    | Gather(block: Octets, contCount: nat)
    | Cancel(slot: nat, code: nat, blocks: seq<HeaderBlock>)
    | Refuse(code: nat, blocks: seq<HeaderBlock>)
    | Accept(slot: nat, isHead: bool, blocks: seq<HeaderBlock>)
    | Finish(slot: nat, isHead: bool, blocks: seq<HeaderBlock>)
    | Collect(slot: nat, body: Octets)
    | Close(slot: nat, rapidReset: nat)
    | Abandon(blocks: seq<HeaderBlock>)
    | PeerGoaway
    | Flags(needSettings: bool, prefaceGot: nat)

  /** When an atomic step is possible. */
  ghost predicate Enabled(env: Env, c: Conn, a: Atom) {
    match a
    case Answer(f) => f.PingAck? || f.SettingsAck?
    case WindDown(_, _) => true
    case Begin(f) =>
      && !c.gotError && !c.hdr.active && f.sid % 2 == 1 && c.lastClientId < f.sid <= MAX_WINDOW
      && (f.EndStream() ==> SawEndStream(c.trace, f.sid))
    case Trailer(f) =>
      && !c.hdr.active
      && (exists i | 0 <= i < |c.streams| ::
          c.streams[i].id == f.sid && c.streams[i].gotHeaders && !c.streams[i].endStreamRecv)
      && (f.EndStream() ==> SawEndStream(c.trace, f.sid))
    case Gather(_, _) => c.hdr.active
    case Cancel(i, _, _) => i < |c.streams| && EndsBlock(c, c.streams[i].id)
    case Refuse(_, _) => c.hdr.active && c.hdr.stream.None?
    case Accept(i, _, _) => i < |c.streams| && c.hdr.stream == Some(c.streams[i].id) && !c.hdr.trailer
    case Finish(i, _, _) =>
      && !c.gotError && i < |c.streams| && EndsBlock(c, c.streams[i].id) && !c.streams[i].endStreamRecv
      && SawEndStream(c.trace, c.streams[i].id)
      && (c.hdr.active || c.streams[i].gotHeaders)
    case Collect(i, body) => i < |c.streams| && |body| <= env.lim.maxBodyBytes
    case Close(i, _) => i < |c.streams| && c.hdr.stream != Some(c.streams[i].id)
    case Abandon(_) => true
    case PeerGoaway => true
    case Flags(_, got) => got <= PREFACE_LEN
  }

  ghost function Do(env: Env, c: Conn, a: Atom): Conn
    requires Enabled(env, c, a)
  {
    match a
    case Answer(f) => Emit(c, f)
    case WindDown(code, error) => SendGoaway(c, code).(closing := true, gotError := c.gotError || error)
    case Begin(f) => BeginStream(env.lim, c, f)
    case Trailer(f) => BeginTrailer(c, f)
    case Gather(block, count) => c.(hdr := c.hdr.(block := block, contCount := count))
    case Cancel(i, code, blocks) => ResetAt(EndBlock(c, blocks), i, code)
    case Refuse(code, blocks) => Emit(EndBlock(c, blocks), RstStream(c.hdr.id, code))
    case Accept(i, isHead, blocks) =>
      SetStream(EndBlock(c, blocks), i, c.streams[i].(gotHeaders := true, isHead := isHead))
    case Finish(i, isHead, blocks) =>
      Dispatch(env, SetStream(EndBlock(c, blocks), i,
                              c.streams[i].(gotHeaders := true, endStreamRecv := true, isHead := isHead)), i)
    case Collect(i, body) => SetStream(c, i, c.streams[i].(reqBody := body))
    case Close(i, n) => CloseAt(c, i).(rapidReset := n)
    case Abandon(blocks) => ConnError(EndBlock(c, blocks), E_COMPRESSION_ERROR)
    case PeerGoaway => c.(peerGoaway := true)
    case Flags(needs, got) => c.(needSettings := needs, prefaceGot := got)
  }

  // ------------------------------------------------------------ properties kept by atomic steps

  type Property = Conn -> bool

  /** P implies the shape of the table and survives every atomic step but those of DATA frames. */
  ghost predicate Kept(env: Env, P: Property) {
    && (forall c | P(c) :: TableInv(env.lim, c))
    && (forall c, a | P(c) && Enabled(env, c, a) && !a.Collect? :: P(Do(env, c, a)))
  }

  lemma Take(env: Env, P: Property, c: Conn, a: Atom)
    requires Kept(env, P) && P(c) && Enabled(env, c, a) && !a.Collect?
    ensures P(Do(env, c, a)) && TableInv(env.lim, Do(env, c, a))
  {
  }

  lemma ConnErrorKeeps(env: Env, P: Property, c: Conn, code: nat)
    requires Kept(env, P) && P(c)
    ensures P(ConnError(c, code))
  {
    Take(env, P, c, WindDown(code, true));
    assert Do(env, c, WindDown(code, true)) == ConnError(c, code);
  }

  /** The slot of a stream, given its id. */
  lemma FindSlot(lim: Limits, c: Conn, i: nat)
    requires TableInv(lim, c) && i < |c.streams|
    ensures Find(c, c.streams[i].id) == Some(i)
  {
    forall j | 0 <= j < |c.streams| && j != i
      ensures c.streams[j].id != c.streams[i].id
    {
    }
  }

  lemma FinishHeadersKeeps(env: Env, P: Property, c: Conn)
    requires Kept(env, P) && P(c) && c.hdr.active && !c.gotError
    ensures P(FinishHeaders(env, c))
  {
    hide Dispatch, StreamShape, Distinct;
    assert TableInv(env.lim, c);
    var h := c.hdr;
    var outcome := env.headers(c.blocks, HeaderBlock(h.block, h.trailer));
    var blocks := c.blocks + [HeaderBlock(h.block, h.trailer)];
    if outcome.CompressionError? {
      Take(env, P, c, Abandon(blocks));
    } else if h.stream.None? {
      var code := if outcome.MalformedList? && h.refuse == 0 then E_PROTOCOL_ERROR else h.refuse;
      Take(env, P, c, Refuse(code, blocks));
    } else {
      var i :| 0 <= i < |c.streams| && Awaits(c, c.streams[i]);
      FindSlot(env.lim, c, i);
      if outcome.MalformedList? || (h.trailer && !h.endStream) || (!h.trailer && !outcome.request) {
        Take(env, P, c, Cancel(i, E_PROTOCOL_ERROR, blocks));
      } else if h.endStream {
        var isHead := if h.trailer then c.streams[i].isHead else outcome.isHead;
        Take(env, P, c, Finish(i, isHead, blocks));
        assert !h.trailer || c.streams[i].gotHeaders;
      } else {
        Take(env, P, c, Accept(i, outcome.isHead, blocks));
      }
    }
  }

  lemma AccumulateKeeps(env: Env, P: Property, c: Conn, fragment: Octets, endHeaders: bool)
    requires Kept(env, P) && P(c) && c.hdr.active && !c.gotError
    ensures P(Accumulate(env, c, fragment, endHeaders))
  {
    hide Kept, TableInv, FinishHeaders;
    if |c.hdr.block| + |fragment| > env.lim.maxHeaderBytes + 4096 {
      ConnErrorKeeps(env, P, c, E_ENHANCE_YOUR_CALM);
    } else {
      var a := Gather(c.hdr.block + fragment, c.hdr.contCount);
      Take(env, P, c, a);
      if endHeaders {
        FinishHeadersKeeps(env, P, Do(env, c, a));
      }
    }
  }

  lemma OnHeadersKeeps(env: Env, P: Property, c: Conn, f: InFrame)
    requires Kept(env, P) && P(c) && !c.gotError && !c.hdr.active && f.sid <= MAX_WINDOW
    requires f.EndStream() ==> SawEndStream(c.trace, f.sid)
    ensures P(OnHeaders(env, c, f))
  {
    hide Kept, TableInv, Accumulate, ConnError, HeaderFragment;
    var frag := HeaderFragment(f);
    var slot := Find(c, f.sid);
    if f.sid == 0 || frag.None? {
      ConnErrorKeeps(env, P, c, E_PROTOCOL_ERROR);
    } else if slot.None? {
      if f.sid % 2 == 0 || f.sid <= c.lastClientId {
        ConnErrorKeeps(env, P, c, E_PROTOCOL_ERROR);
      } else {
        Take(env, P, c, Begin(f));
        AccumulateKeeps(env, P, BeginStream(env.lim, c, f), frag.value, f.EndHeaders());
      }
    } else if c.streams[slot.value].endStreamRecv {
      ConnErrorKeeps(env, P, c, E_STREAM_CLOSED);
    } else if !c.streams[slot.value].gotHeaders {
      ConnErrorKeeps(env, P, c, E_PROTOCOL_ERROR);
    } else {
      Take(env, P, c, Trailer(f));
      AccumulateKeeps(env, P, BeginTrailer(c, f), frag.value, f.EndHeaders());
    }
  }

  lemma OnContinuationKeeps(env: Env, P: Property, c: Conn, f: InFrame)
    requires Kept(env, P) && P(c) && c.hdr.active && !c.gotError
    ensures P(OnContinuation(env, c, f))
  {
    hide Kept, TableInv, Accumulate;
    var a := Gather(c.hdr.block, c.hdr.contCount + 1);
    Take(env, P, c, a);
    if c.hdr.contCount + 1 > CONT_MAX {
      ConnErrorKeeps(env, P, Do(env, c, a), E_ENHANCE_YOUR_CALM);
    } else {
      AccumulateKeeps(env, P, Do(env, c, a), f.payload, f.EndHeaders());
    }
  }

  lemma OnRstStreamKeeps(env: Env, P: Property, c: Conn, f: InFrame)
    requires Kept(env, P) && P(c) && !c.hdr.active
    ensures P(OnRstStream(env, c, f))
  {
    assert HdrShape(c);
    hide Kept, TableInv, ConnError, CloseAt;
    if |f.payload| != 4 {
      ConnErrorKeeps(env, P, c, E_FRAME_SIZE_ERROR);
    } else if f.sid == 0 {
      ConnErrorKeeps(env, P, c, E_PROTOCOL_ERROR);
    } else {
      match Find(c, f.sid)
      case None =>
        if f.sid > c.lastClientId {
          ConnErrorKeeps(env, P, c, E_PROTOCOL_ERROR);
        }
      case Some(i) =>
        var n := if c.streams[i].responded then c.rapidReset else c.rapidReset + 1;
        Take(env, P, c, Close(i, n));
        if n > env.lim.maxStreams {
          ConnErrorKeeps(env, P, Do(env, c, Close(i, n)), E_ENHANCE_YOUR_CALM);
        }
    }
  }

  lemma OnPingKeeps(env: Env, P: Property, c: Conn, f: InFrame, seen: nat)
    requires Kept(env, P) && P(c)
    ensures P(OnPing(env, c, f, seen))
  {
    hide Kept, TableInv, ConnError;
    ConnErrorKeeps(env, P, c, E_PROTOCOL_ERROR);
    ConnErrorKeeps(env, P, c, E_FRAME_SIZE_ERROR);
    ConnErrorKeeps(env, P, c, E_ENHANCE_YOUR_CALM);
    Take(env, P, c, Answer(PingAck(f.payload)));
  }

  lemma OnPriorityKeeps(env: Env, P: Property, c: Conn, f: InFrame)
    requires Kept(env, P) && P(c)
    ensures P(OnPriority(c, f))
  {
    hide Kept, TableInv, ConnError;
    ConnErrorKeeps(env, P, c, E_PROTOCOL_ERROR);
    ConnErrorKeeps(env, P, c, E_FRAME_SIZE_ERROR);
  }

  lemma OnGoawayKeeps(env: Env, P: Property, c: Conn, f: InFrame)
    requires Kept(env, P) && P(c)
    ensures P(OnGoaway(c, f))
  {
    hide Kept, TableInv, ConnError;
    ConnErrorKeeps(env, P, c, E_PROTOCOL_ERROR);
    ConnErrorKeeps(env, P, c, E_FRAME_SIZE_ERROR);
    Take(env, P, c, PeerGoaway);
  }

  // ------------------------------------------------------------ window changes

  /** The same streams, up to what the peer lets us send on them. */
  ghost predicate SameButSendWindow(a: seq<Stream>, b: seq<Stream>) {
    |a| == |b| && forall i | 0 <= i < |a| :: b[i] == a[i].(sendWindow := b[i].sendWindow)
  }

  function Tuned(c: Conn, streams: seq<Stream>, sendWindow: int, initial: nat, maxFrame: nat): Conn {
    c.(streams := streams, sendWindow := sendWindow, peerInitialWindow := initial, peerMaxFrame := maxFrame)
  }

  /** P does not depend on send windows. */
  ghost predicate IgnoresSendWindows(P: Property) {
    forall c, streams, w: int, initial: nat, maxFrame: nat
      | P(c) && SameButSendWindow(c.streams, streams) && initial <= MAX_WINDOW && 16384 <= maxFrame <= 16777215 ::
      P(Tuned(c, streams, w, initial, maxFrame))
  }

  lemma Retune(P: Property, c: Conn, streams: seq<Stream>, w: int, initial: nat, maxFrame: nat)
    requires IgnoresSendWindows(P) && P(c)
    requires SameButSendWindow(c.streams, streams) && initial <= MAX_WINDOW && 16384 <= maxFrame <= 16777215
    ensures P(Tuned(c, streams, w, initial, maxFrame))
  {
  }

  lemma {:induction false} RetargetSame(streams: seq<Stream>, delta: int, from: nat)
    requires from <= |streams|
    ensures SameButSendWindow(streams, Retarget(streams, delta, from).0)
    decreases |streams| - from
  {
    if from < |streams| {
      var st := streams[from].(sendWindow := streams[from].sendWindow + delta);
      var streams' := streams[from := st];
      var r := Retarget(streams, delta, from).0;
      RetargetSame(streams', delta, from + 1);
      assert SameButSendWindow(streams', r);
      hide Retarget;
      forall i | 0 <= i < |streams|
        ensures r[i] == streams[i].(sendWindow := r[i].sendWindow)
      {
        assert r[i] == streams'[i].(sendWindow := r[i].sendWindow);
      }
    }
  }

  lemma InitialWindowKeeps(env: Env, P: Property, c: Conn, val: nat)
    requires Kept(env, P) && IgnoresSendWindows(P) && P(c) && val <= MAX_WINDOW
    ensures P(ApplySetting(c, S_INITIAL_WINDOW_SIZE, val))
  {
    assert TableInv(env.lim, c);
    assert c.peerInitialWindow <= MAX_WINDOW && 16384 <= c.peerMaxFrame <= 16777215;
    hide Kept, ConnError, IgnoresSendWindows, TableInv, Retarget, SameButSendWindow;
    var (streams, ok) := Retarget(c.streams, val - c.peerInitialWindow, 0);
    RetargetSame(c.streams, val - c.peerInitialWindow, 0);
    Retune(P, c, streams, c.sendWindow, val, c.peerMaxFrame);
    Retune(P, c, streams, c.sendWindow, c.peerInitialWindow, c.peerMaxFrame);
    ConnErrorKeeps(env, P, c.(streams := streams), E_FLOW_CONTROL_ERROR);
  }

  lemma ApplySettingKeeps(env: Env, P: Property, c: Conn, id: nat, val: nat)
    requires Kept(env, P) && IgnoresSendWindows(P) && P(c)
    ensures P(ApplySetting(c, id, val))
  {
    assert TableInv(env.lim, c);
    hide Kept, ConnError, IgnoresSendWindows, StreamShape, HdrShape, Distinct;
    ConnErrorKeeps(env, P, c, E_PROTOCOL_ERROR);
    ConnErrorKeeps(env, P, c, E_FLOW_CONTROL_ERROR);
    if id == S_INITIAL_WINDOW_SIZE && val <= MAX_WINDOW {
      InitialWindowKeeps(env, P, c, val);
    } else if id == S_MAX_FRAME_SIZE && 16384 <= val <= 16777215 {
      Retune(P, c, c.streams, c.sendWindow, c.peerInitialWindow, val);
    }
  }

  lemma {:induction false} ApplySettingsKeeps(env: Env, P: Property, c: Conn, payload: Octets)
    requires Kept(env, P) && IgnoresSendWindows(P) && P(c) && |payload| % 6 == 0
    ensures P(ApplySettings(c, payload))
    decreases |payload|
  {
    hide Kept, ConnError, IgnoresSendWindows, ApplySetting;
    if payload != [] {
      var id, val := Read16(payload), Read32(payload[2..]);
      ApplySettingKeeps(env, P, c, id, val);
      if !ApplySetting(c, id, val).gotError {
        ApplySettingsKeeps(env, P, ApplySetting(c, id, val), payload[6..]);
      }
    }
  }

  lemma OnSettingsKeeps(env: Env, P: Property, c: Conn, f: InFrame, seen: nat)
    requires Kept(env, P) && IgnoresSendWindows(P) && P(c)
    ensures P(OnSettings(c, f, seen))
  {
    hide Kept, TableInv, ConnError, IgnoresSendWindows, ApplySettings;
    ConnErrorKeeps(env, P, c, E_PROTOCOL_ERROR);
    ConnErrorKeeps(env, P, c, E_FRAME_SIZE_ERROR);
    ConnErrorKeeps(env, P, c, E_ENHANCE_YOUR_CALM);
    if |f.payload| % 6 == 0 {
      ApplySettingsKeeps(env, P, c, f.payload);
      Take(env, P, ApplySettings(c, f.payload), Answer(SettingsAck));
    }
  }

  lemma OnWindowUpdateKeeps(env: Env, P: Property, c: Conn, f: InFrame)
    requires Kept(env, P) && IgnoresSendWindows(P) && P(c) && !c.hdr.active
    ensures P(OnWindowUpdate(c, f))
  {
    hide Kept, TableInv, ConnError, IgnoresSendWindows, ResetAt, Read31, SetStream;
    ConnErrorKeeps(env, P, c, E_FRAME_SIZE_ERROR);
    ConnErrorKeeps(env, P, c, E_PROTOCOL_ERROR);
    if |f.payload| == 4 {
      var incr := Read31(f.payload);
      if f.sid == 0 {
        ConnUpdateKeeps(env, P, c, incr);
      } else if Find(c, f.sid).Some? {
        StreamUpdateKeeps(env, P, c, Find(c, f.sid).value, incr);
      }
    }
  }

  lemma ConnUpdateKeeps(env: Env, P: Property, c: Conn, incr: nat)
    requires Kept(env, P) && IgnoresSendWindows(P) && P(c)
    ensures var c1 := c.(sendWindow := c.sendWindow + incr);
            P(c1) && P(ConnError(c1, E_FLOW_CONTROL_ERROR))
  {
    assert TableInv(env.lim, c);
    hide Kept, IgnoresSendWindows, StreamShape, HdrShape, Distinct, ConnError;
    Retune(P, c, c.streams, c.sendWindow + incr, c.peerInitialWindow, c.peerMaxFrame);
    var c1 := c.(sendWindow := c.sendWindow + incr);
    assert c1 == Tuned(c, c.streams, c.sendWindow + incr, c.peerInitialWindow, c.peerMaxFrame);
    ConnErrorKeeps(env, P, c1, E_FLOW_CONTROL_ERROR);
  }

  /** Credit for one stream, and the reset it earns when it is zero or too much. */
  lemma StreamUpdateKeeps(env: Env, P: Property, c: Conn, i: nat, incr: nat)
    requires Kept(env, P) && IgnoresSendWindows(P) && P(c) && !c.hdr.active && i < |c.streams|
    ensures var c1 := SetStream(c, i, c.streams[i].(sendWindow := c.streams[i].sendWindow + incr));
            P(c1) && P(ResetAt(c1, i, E_FLOW_CONTROL_ERROR)) && P(ResetAt(c, i, E_PROTOCOL_ERROR))
  {
    assert TableInv(env.lim, c);
    hide Kept, IgnoresSendWindows, StreamShape, HdrShape, Distinct, ResetAt;
    var st := c.streams[i].(sendWindow := c.streams[i].sendWindow + incr);
    Retune(P, c, c.streams[i := st], c.sendWindow, c.peerInitialWindow, c.peerMaxFrame);
    var c1 := SetStream(c, i, st);
    assert c1 == Tuned(c, c.streams[i := st], c.sendWindow, c.peerInitialWindow, c.peerMaxFrame);
    CancelKeeps(env, P, c, i, E_PROTOCOL_ERROR);
    CancelKeeps(env, P, c1, i, E_FLOW_CONTROL_ERROR);
  }

  /** Resetting a stream outside header reassembly. */
  lemma CancelKeeps(env: Env, P: Property, c: Conn, i: nat, code: nat)
    requires Kept(env, P) && P(c) && !c.hdr.active && i < |c.streams|
    ensures P(ResetAt(c, i, code))
  {
    Take(env, P, c, Cancel(i, code, c.blocks));
  }

  /** P does not depend on receive windows, on the updates that replenish them, nor on what bodies hold. */
  ghost predicate IgnoresRecvWindows(env: Env, P: Property) {
    && (forall c, i: nat, body: Octets | P(c) && Enabled(env, c, Collect(i, body)) :: P(Do(env, c, Collect(i, body))))
    && (forall c, len: nat | P(c) :: P(ConsumeConn(c, len)))
    && (forall c, i: nat, len: nat | P(c) && i < |c.streams| && c.streams[i].gotHeaders
        && !c.streams[i].endStreamRecv ::
          P(ConsumeStream(c, i, len)))
  }

  lemma CollectTaken(env: Env, P: Property, c: Conn, i: nat, body: Octets)
    requires IgnoresRecvWindows(env, P) && P(c) && i < |c.streams| && |body| <= env.lim.maxBodyBytes
    ensures P(SetStream(c, i, c.streams[i].(reqBody := body)))
  {
    assert P(Do(env, c, Collect(i, body)));
  }

  lemma ConsumeConnKeeps(env: Env, P: Property, c: Conn, len: nat)
    requires IgnoresRecvWindows(env, P) && P(c)
    ensures P(ConsumeConn(c, len)) && ConsumeConn(c, len).streams == c.streams && ConsumeConn(c, len).hdr == c.hdr
    ensures ConsumeConn(c, len).gotError == c.gotError
  {
    assert P(ConsumeConn(c, len));
  }

  lemma ConsumeStreamKeeps(env: Env, P: Property, c: Conn, i: nat, len: nat)
    requires IgnoresRecvWindows(env, P) && P(c)
    requires i < |c.streams| && c.streams[i].gotHeaders && !c.streams[i].endStreamRecv
    ensures P(ConsumeStream(c, i, len))
  {
    assert P(ConsumeStream(c, i, len));
  }

  lemma ConsumeTrace(c: Conn, len: nat, sid: nat)
    ensures SawEndStream(ConsumeConn(c, len).trace, sid) <==> SawEndStream(c.trace, sid)
  {
  }

  /** Hands a request over when DATA ended it. */
  lemma DataEndKeeps(env: Env, P: Property, c: Conn, i: nat)
    requires Kept(env, P) && P(c) && !c.gotError && !c.hdr.active
    requires i < |c.streams| && c.streams[i].gotHeaders && !c.streams[i].endStreamRecv
    requires SawEndStream(c.trace, c.streams[i].id)
    ensures P(Dispatch(env, SetStream(c, i, c.streams[i].(endStreamRecv := true)), i))
  {
    assert TableInv(env.lim, c);
    hide Dispatch, StreamShape, Distinct;
    Take(env, P, c, Finish(i, c.streams[i].isHead, c.blocks));
  }

  lemma OnDataKeeps(env: Env, P: Property, c: Conn, f: InFrame)
    requires Kept(env, P) && IgnoresRecvWindows(env, P) && P(c) && !c.gotError && !c.hdr.active
    requires f.EndStream() ==> SawEndStream(c.trace, f.sid)
    ensures P(OnData(env, c, f))
  {
    hide Kept, TableInv, ConnError, IgnoresRecvWindows, ResetAt, Dispatch, ConsumeConn, ConsumeStream, DataPayload;
    var len := |f.payload|;
    ConnErrorKeeps(env, P, c, E_PROTOCOL_ERROR);
    ConnErrorKeeps(env, P, c, E_FLOW_CONTROL_ERROR);
    ConnErrorKeeps(env, P, c, E_STREAM_CLOSED);
    if f.sid != 0 && len <= c.recvWindow {
      match Find(c, f.sid)
      case None =>
        ConsumeConnKeeps(env, P, c, len);
        ConnErrorKeeps(env, P, ConsumeConn(c, len), E_PROTOCOL_ERROR);
      case Some(i) =>
        var st := c.streams[i];
        if !st.endStreamRecv && st.gotHeaders {
          DropKeeps(env, P, c, i, E_FLOW_CONTROL_ERROR, len);
          DropKeeps(env, P, c, i, E_ENHANCE_YOUR_CALM, len);
          var d := DataPayload(f);
          if d.Some? && |st.reqBody| + |d.value| <= env.lim.maxBodyBytes {
            BodyKeeps(env, P, c, i, st.reqBody + d.value, len, f.EndStream());
          }
        }
    }
  }

  /** A stream reset over a DATA frame still accounts for the frame. */
  lemma DropKeeps(env: Env, P: Property, c: Conn, i: nat, code: nat, len: nat)
    requires Kept(env, P) && IgnoresRecvWindows(env, P) && P(c) && !c.hdr.active && i < |c.streams|
    ensures P(ConsumeConn(ResetAt(c, i, code), len))
  {
    hide Kept, TableInv, IgnoresRecvWindows, ResetAt, ConsumeConn;
    CancelKeeps(env, P, c, i, code);
    ConsumeConnKeeps(env, P, ResetAt(c, i, code), len);
  }

  lemma BodyKeeps(env: Env, P: Property, c: Conn, i: nat, body: Octets, len: nat, end: bool)
    requires Kept(env, P) && IgnoresRecvWindows(env, P) && P(c) && !c.gotError && !c.hdr.active
    requires i < |c.streams| && c.streams[i].gotHeaders && !c.streams[i].endStreamRecv
    requires |body| <= env.lim.maxBodyBytes
    requires end ==> SawEndStream(c.trace, c.streams[i].id)
    ensures var c1 := ConsumeConn(SetStream(c, i, c.streams[i].(reqBody := body)), len);
            && |c1.streams| == |c.streams|
            && if end then P(Dispatch(env, SetStream(c1, i, c1.streams[i].(endStreamRecv := true)), i))
               else P(ConsumeStream(c1, i, len))
  {
    hide Kept, TableInv, IgnoresRecvWindows, Dispatch, ConsumeConn, ConsumeStream;
    CollectTaken(env, P, c, i, body);
    var c0 := SetStream(c, i, c.streams[i].(reqBody := body));
    ConsumeConnKeeps(env, P, c0, len);
    var c1 := ConsumeConn(c0, len);
    if end {
      ConsumeTrace(c0, len, c.streams[i].id);
      DataEndKeeps(env, P, c1, i);
    } else {
      ConsumeStreamKeeps(env, P, c1, i, len);
    }
  }

  // ------------------------------------------------------------ whole frames

  /** The connection once the frame is on record. */
  function Seen(c: Conn, f: InFrame): Conn {
    Note(c, Recv(f)).(needSettings := false)
  }

  lemma OutOfSequenceKeeps(env: Env, P: Property, c: Conn, f: InFrame, n: Feeding)
    requires Kept(env, P) && P(Seen(c, f)) && !InSequence(c, f)
    ensures P(OnFrame(env, c, f, n))
  {
    var c1 := Seen(c, f);
    assert TableInv(env.lim, c1);
    hide Kept, TableInv, ConnError;
    var a := Flags(c.needSettings && f.kind != FT_SETTINGS, c1.prefaceGot);
    PrefaceBound(env.lim, c1);
    Take(env, P, c1, a);
    ConnErrorKeeps(env, P, Do(env, c1, a), E_PROTOCOL_ERROR);
  }

  lemma PrefaceBound(lim: Limits, c: Conn)
    requires TableInv(lim, c)
    ensures c.prefaceGot <= PREFACE_LEN
  {
  }

  lemma FrameKeeps(env: Env, P: Property, c: Conn, f: InFrame, n: Feeding)
    requires Kept(env, P) && P(Seen(c, f)) && !c.gotError && f.sid <= MAX_WINDOW
    requires f.kind == FT_SETTINGS || f.kind == FT_WINDOW_UPDATE ==> IgnoresSendWindows(P)
    requires f.kind == FT_DATA ==> IgnoresRecvWindows(env, P)
    ensures P(OnFrame(env, c, f, n))
  {
    hide Kept, TableInv, ConnError, IgnoresRecvWindows, IgnoresSendWindows;
    hide OnData, OnHeaders, OnPriority, OnRstStream, OnSettings, OnPing, OnGoaway, OnWindowUpdate, OnContinuation;
    var c1 := Seen(c, f);
    ConnErrorKeeps(env, P, c1, E_PROTOCOL_ERROR);
    if !InSequence(c, f) {
      OutOfSequenceKeeps(env, P, c, f, n);
    } else if f.kind == FT_DATA {
      OnDataKeeps(env, P, c1, f);
    } else if f.kind == FT_HEADERS {
      OnHeadersKeeps(env, P, c1, f);
    } else if f.kind == FT_PRIORITY {
      OnPriorityKeeps(env, P, c1, f);
    } else if f.kind == FT_RST_STREAM {
      OnRstStreamKeeps(env, P, c1, f);
    } else if f.kind == FT_SETTINGS {
      OnSettingsKeeps(env, P, c1, f, n.settings);
    } else if f.kind == FT_PING {
      OnPingKeeps(env, P, c1, f, n.pings);
    } else if f.kind == FT_GOAWAY {
      OnGoawayKeeps(env, P, c1, f);
    } else if f.kind == FT_WINDOW_UPDATE {
      OnWindowUpdateKeeps(env, P, c1, f);
    } else if f.kind == FT_CONTINUATION {
      OnContinuationKeeps(env, P, c1, f);
    }
  }
}
