/**
  Header blocks on their way to the decoder: every complete block, of a refused stream too, reaches
  it once, in order and reassembled (section 4.3 of RFC 9113).
 */
module H2Blocks {
  import opened Bytes
  import opened H2Trace
  import opened H2Spec
  import opened H2Steps
  import opened H2Runs
  import opened H2Table
  import H2Wire

  // ------------------------------------------------------------ handlers that leave header blocks alone

  /** Neither the preface, the first SETTINGS nor any header block is touched. */
  ghost predicate Handled(c: Conn, d: Conn) {
    d.prefaceGot == c.prefaceGot && d.needSettings == c.needSettings && d.hdr == c.hdr && d.blocks == c.blocks
      && InboundOf(d.trace) == InboundOf(c.trace) && SameAsked(c.trace, d.trace)
  }

  /** Nor is anything acknowledged. */
  ghost predicate Untouched(c: Conn, d: Conn) {
    Handled(c, d) && SameReplies(c.trace, d.trace)
  }

  lemma ErrorUntouched(c: Conn, code: nat)
    ensures Untouched(c, ConnError(c, code))
  {
  }

  lemma ResetUntouched(c: Conn, i: nat, code: nat)
    requires i < |c.streams|
    ensures Untouched(c, ResetAt(c, i, code))
  {
  }

  lemma ConsumeUntouched(c: Conn, len: nat)
    ensures Untouched(c, ConsumeConn(c, len)) && ConsumeConn(c, len).streams == c.streams
  {
  }

  lemma ConsumeStreamUntouched(c: Conn, i: nat, len: nat)
    requires i < |c.streams|
    ensures Untouched(c, ConsumeStream(c, i, len))
  {
    ConsumeStreamShape(c, i, len);
    ConsumeStreamEvent(c, i, len);
    hide ConsumeStream;
  }

  lemma {:induction false} SendBlockUntouched(c: Conn, sid: nat, block: Octets, first: bool, endStream: bool)
    ensures Untouched(c, SendBlock(c, sid, block, first, endStream))
    decreases |block|
  {
    SendBlockTurn(c, sid, block, first, endStream);
    hide SendBlock;
    var maxf := FrameLimit(c);
    if |block| > maxf {
      var f := if first then Headers(sid, endStream, false, block[..maxf]) else Continuation(sid, false, block[..maxf]);
      SendBlockUntouched(Emit(c, f), sid, block[maxf..], false, endStream);
    }
  }

  lemma RespondUntouched(c: Conn, i: nat, r: Response)
    requires i < |c.streams|
    ensures Untouched(c, Respond(c, i, r)) && |Respond(c, i, r).streams| == |c.streams|
  {
    hide SendBlock, FieldBlock, HasBody;
    var st := c.streams[i];
    SendBlockUntouched(c, st.id, FieldBlock(r), true, !HasBody(r, st.isHead));
    SendBlockOnlySends(c, st.id, FieldBlock(r), true, !HasBody(r, st.isHead));
  }

  lemma DispatchUntouched(env: Env, c: Conn, i: nat)
    requires i < |c.streams|
    ensures Untouched(c, Dispatch(env, c, i))
  {
    hide Respond;
    if !c.streams[i].dispatched {
      var st := c.streams[i];
      var c1 := Note(SetStream(c, i, st.(dispatched := true)), Dispatched(st.id, st.isHead, st.reqBody));
      RespondUntouched(c1, i, env.app(st.id));
    }
  }

  lemma RstUntouched(env: Env, c: Conn, f: InFrame)
    ensures Untouched(c, OnRstStream(env, c, f))
  {
    hide Find, ConnError, InboundOf, PingsAnswered, SettingsAnswered, PingsAsked, SettingsAsked;
    ErrorUntouched(c, E_FRAME_SIZE_ERROR);
    ErrorUntouched(c, E_PROTOCOL_ERROR);
    var slot := Find(c, f.sid);
    if slot.Some? {
      var n := if c.streams[slot.value].responded then c.rapidReset else c.rapidReset + 1;
      ErrorUntouched(CloseAt(c, slot.value).(rapidReset := n), E_ENHANCE_YOUR_CALM);
    }
  }

  lemma UpdateUntouched(c: Conn, f: InFrame)
    ensures Untouched(c, OnWindowUpdate(c, f))
  {
    hide Find, Read31, ConnError, ResetAt, InboundOf, PingsAnswered, SettingsAnswered, PingsAsked, SettingsAsked;
    ErrorUntouched(c, E_FRAME_SIZE_ERROR);
    ErrorUntouched(c, E_PROTOCOL_ERROR);
    if |f.payload| == 4 {
      var incr := Read31(f.payload);
      ErrorUntouched(c.(sendWindow := c.sendWindow + incr), E_FLOW_CONTROL_ERROR);
      var slot := Find(c, f.sid);
      if slot.Some? {
        var st := c.streams[slot.value].(sendWindow := c.streams[slot.value].sendWindow + incr);
        ResetUntouched(c, slot.value, E_PROTOCOL_ERROR);
        ResetUntouched(SetStream(c, slot.value, st), slot.value, E_FLOW_CONTROL_ERROR);
      }
    }
  }

  lemma OthersUntouched(env: Env, c: Conn, f: InFrame, seen: nat)
    ensures Untouched(c, OnGoaway(c, f)) && Untouched(c, OnPriority(c, f))
  {
    ErrorUntouched(c, E_FRAME_SIZE_ERROR);
    ErrorUntouched(c, E_PROTOCOL_ERROR);
    hide ConnError;
  }

  /** A PING is echoed, or an error. */
  lemma PingHandled(env: Env, c: Conn, f: InFrame, seen: nat)
    ensures var d := OnPing(env, c, f, seen);
            && Handled(c, d)
            && (f.kind == FT_PING && !d.gotError ==>
                  && PingsAnswered(d.trace) == PingsAnswered(c.trace) + (if AsksPing(f) then [f.payload] else [])
                  && SettingsAnswered(d.trace) == SettingsAnswered(c.trace))
  {
    ErrorUntouched(c, E_FRAME_SIZE_ERROR);
    ErrorUntouched(c, E_PROTOCOL_ERROR);
    ErrorUntouched(c, E_ENHANCE_YOUR_CALM);
    ErrorFlag(c, E_FRAME_SIZE_ERROR);
    ErrorFlag(c, E_PROTOCOL_ERROR);
    ErrorFlag(c, E_ENHANCE_YOUR_CALM);
    hide ConnError;
  }

  lemma SettingUntouched(c: Conn, id: nat, val: nat)
    ensures Untouched(c, ApplySetting(c, id, val))
  {
    hide Retarget, ConnError, InboundOf, PingsAnswered, SettingsAnswered, PingsAsked, SettingsAsked;
    ErrorUntouched(c, E_PROTOCOL_ERROR);
    ErrorUntouched(c, E_FLOW_CONTROL_ERROR);
    var r := Retarget(c.streams, val - c.peerInitialWindow, 0);
    ErrorUntouched(c.(streams := r.0), E_FLOW_CONTROL_ERROR);
  }

  lemma {:induction false} PayloadUntouched(c: Conn, payload: Octets)
    requires |payload| % 6 == 0
    ensures Untouched(c, ApplySettings(c, payload))
    decreases |payload|
  {
    hide ApplySetting, Read16, Read32;
    if payload != [] {
      SettingUntouched(c, Read16(payload), Read32(payload[2..]));
      var c1 := ApplySetting(c, Read16(payload), Read32(payload[2..]));
      if !c1.gotError {
        PayloadUntouched(c1, payload[6..]);
      }
    }
  }

  /** SETTINGS are acknowledged once, or an error. */
  lemma SettingsHandled(c: Conn, f: InFrame, seen: nat)
    ensures var d := OnSettings(c, f, seen);
            && Handled(c, d)
            && (!d.gotError && f.kind == FT_SETTINGS ==>
                  && PingsAnswered(d.trace) == PingsAnswered(c.trace)
                  && SettingsAnswered(d.trace) == SettingsAnswered(c.trace) + if AsksSettings(f) then 1 else 0)
  {
    ErrorUntouched(c, E_FRAME_SIZE_ERROR);
    ErrorUntouched(c, E_PROTOCOL_ERROR);
    ErrorUntouched(c, E_ENHANCE_YOUR_CALM);
    ErrorFlag(c, E_FRAME_SIZE_ERROR);
    ErrorFlag(c, E_PROTOCOL_ERROR);
    ErrorFlag(c, E_ENHANCE_YOUR_CALM);
    hide ApplySettings, ConnError;
    if |f.payload| % 6 == 0 {
      PayloadUntouched(c, f.payload);
    }
  }

  lemma DropUntouched(c: Conn, i: nat, code: nat, len: nat)
    requires i < |c.streams|
    ensures Untouched(c, ConsumeConn(ResetAt(c, i, code), len))
  {
    ResetUntouched(c, i, code);
    ConsumeUntouched(ResetAt(c, i, code), len);
    hide ConsumeConn, ResetAt, InboundOf, PingsAnswered, SettingsAnswered, PingsAsked, SettingsAsked;
  }

  lemma BodyUntouched(env: Env, c: Conn, i: nat, body: Octets, len: nat)
    requires i < |c.streams|
    ensures var c1 := ConsumeConn(SetStream(c, i, c.streams[i].(reqBody := body)), len);
            && |c1.streams| == |c.streams|
            && Untouched(c, Dispatch(env, SetStream(c1, i, c1.streams[i].(endStreamRecv := true)), i))
            && Untouched(c, ConsumeStream(c1, i, len))
  {
    hide Dispatch, ConsumeConn, ConsumeStream, InboundOf, PingsAnswered, SettingsAnswered, PingsAsked, SettingsAsked;
    var c0 := SetStream(c, i, c.streams[i].(reqBody := body));
    var c1 := ConsumeConn(c0, len);
    ConsumeUntouched(c0, len);
    ConsumeStreamUntouched(c1, i, len);
    DispatchUntouched(env, SetStream(c1, i, c1.streams[i].(endStreamRecv := true)), i);
  }

  lemma DataUntouched(env: Env, c: Conn, f: InFrame)
    ensures Untouched(c, OnData(env, c, f))
  {
    hide Dispatch, DataPayload, ConsumeConn, ConsumeStream, ConnError, ResetAt, InboundOf, PingsAnswered,
         SettingsAnswered, PingsAsked, SettingsAsked, Find;
    var len, slot, d := |f.payload|, Find(c, f.sid), DataPayload(f);
    ErrorUntouched(c, E_PROTOCOL_ERROR);
    ErrorUntouched(c, E_FLOW_CONTROL_ERROR);
    ErrorUntouched(c, E_STREAM_CLOSED);
    ConsumeUntouched(c, len);
    ErrorUntouched(ConsumeConn(c, len), E_PROTOCOL_ERROR);
    if slot.Some? {
      DropUntouched(c, slot.value, E_FLOW_CONTROL_ERROR, len);
      DropUntouched(c, slot.value, E_ENHANCE_YOUR_CALM, len);
      if d.Some? {
        BodyUntouched(env, c, slot.value, c.streams[slot.value].reqBody + d.value, len);
      }
    }
  }

  // ------------------------------------------------------------ handlers of header blocks

  /** The block in progress is handed to the decoder. */
  ghost predicate HandsOver(c: Conn, d: Conn) {
    && d.prefaceGot == c.prefaceGot && d.needSettings == c.needSettings && InboundOf(d.trace) == InboundOf(c.trace)
    && SameReplies(c.trace, d.trace) && SameAsked(c.trace, d.trace)
    && d.hdr == NO_BLOCK && d.blocks == c.blocks + [HeaderBlock(c.hdr.block, c.hdr.trailer)]
  }

  lemma FinishHandsOver(env: Env, c: Conn)
    ensures HandsOver(c, FinishHeaders(env, c))
  {
    hide FinishHeaders, Dispatch, ConnError, ResetAt, Find, InboundOf, PingsAnswered, SettingsAnswered, PingsAsked,
         SettingsAsked;
    FinishUntouched(env, c);
  }

  lemma FinishUntouched(env: Env, c: Conn)
    ensures var c1 := c.(hdr := NO_BLOCK, blocks := c.blocks + [HeaderBlock(c.hdr.block, c.hdr.trailer)]);
            Untouched(c1, FinishHeaders(env, c))
  {
    hide Dispatch, ConnError, ResetAt, Find, Untouched;
    var h := c.hdr;
    var outcome := env.headers(c.blocks, HeaderBlock(h.block, h.trailer));
    var c1 := c.(hdr := NO_BLOCK, blocks := c.blocks + [HeaderBlock(h.block, h.trailer)]);
    var slot := if h.stream.Some? then Find(c, h.stream.value) else None;
    ErrorUntouched(c1, E_COMPRESSION_ERROR);
    RefusalUntouched(c1, h.id);
    if slot.Some? {
      ResetUntouched(c1, slot.value, E_PROTOCOL_ERROR);
      if outcome.FieldList? && h.refuse == 0 {
        HandUntouched(env, c1, slot.value, h.endStream, outcome.isHead);
        StaysUntouched(c1, slot.value, h.endStream, outcome.isHead);
      }
    }
  }

  /** A request whose body is still to come. */
  lemma StaysUntouched(c: Conn, i: nat, endStream: bool, isHead: bool)
    requires i < |c.streams|
    ensures Untouched(c,
                      SetStream(c, i, c.streams[i].(gotHeaders := true, endStreamRecv := endStream, isHead := isHead)))
  {
  }

  lemma RefusalUntouched(c: Conn, id: nat)
    ensures forall code: nat :: Untouched(c, Emit(c, RstStream(id, code)))
  {
  }

  lemma HandUntouched(env: Env, c: Conn, i: nat, endStream: bool, isHead: bool)
    requires i < |c.streams|
    ensures Untouched(c, Dispatch(env, SetStream(c, i, c.streams[i].(endStreamRecv := true)), i))
    ensures var st := c.streams[i].(gotHeaders := true, endStreamRecv := endStream, isHead := isHead);
            Untouched(c, Dispatch(env, SetStream(c, i, st), i))
  {
    hide Dispatch;
    DispatchUntouched(env, SetStream(c, i, c.streams[i].(endStreamRecv := true)), i);
    var st := c.streams[i].(gotHeaders := true, endStreamRecv := endStream, isHead := isHead);
    DispatchUntouched(env, SetStream(c, i, st), i);
  }

  /** What adding a fragment comes to, unless it is an error. */
  ghost predicate Gathers(c: Conn, d: Conn, fragment: Octets, endHeaders: bool) {
    && d.prefaceGot == c.prefaceGot && d.needSettings == c.needSettings && InboundOf(d.trace) == InboundOf(c.trace)
    && SameReplies(c.trace, d.trace) && SameAsked(c.trace, d.trace)
    && (d.gotError ||
        if endHeaders then d.hdr == NO_BLOCK
          && d.blocks == c.blocks + [HeaderBlock(c.hdr.block + fragment, c.hdr.trailer)]
        else d.hdr == c.hdr.(block := c.hdr.block + fragment) && d.blocks == c.blocks)
  }

  lemma AccumulateGathers(env: Env, c: Conn, fragment: Octets, endHeaders: bool)
    ensures Gathers(c, Accumulate(env, c, fragment, endHeaders), fragment, endHeaders)
  {
    hide FinishHeaders, ConnError, InboundOf, PingsAnswered, SettingsAnswered, PingsAsked, SettingsAsked;
    ErrorUntouched(c, E_ENHANCE_YOUR_CALM);
    ErrorFlag(c, E_ENHANCE_YOUR_CALM);
    FinishHandsOver(env, c.(hdr := c.hdr.(block := c.hdr.block + fragment)));
  }

  lemma ErrorFlag(c: Conn, code: nat)
    ensures ConnError(c, code).gotError
  {
  }

  lemma BeginUntouched(lim: Limits, c: Conn, f: InFrame)
    ensures var d := BeginStream(lim, c, f);
            && d.prefaceGot == c.prefaceGot && d.needSettings == c.needSettings
            && InboundOf(d.trace) == InboundOf(c.trace) && SameReplies(c.trace, d.trace) && SameAsked(c.trace, d.trace)
            && d.blocks == c.blocks
            && d.hdr.active && d.hdr.block == []
  {
  }

  lemma HeadersGather(env: Env, c: Conn, f: InFrame)
    ensures var d := OnHeaders(env, c, f);
            && d.prefaceGot == c.prefaceGot && d.needSettings == c.needSettings
            && InboundOf(d.trace) == InboundOf(c.trace) && SameReplies(c.trace, d.trace) && SameAsked(c.trace, d.trace)
            && (d.gotError ||
                (HeaderFragment(f).Some? &&
                 if f.EndHeaders() then d.hdr == NO_BLOCK && exists trailer ::
                   d.blocks == c.blocks + [HeaderBlock(HeaderFragment(f).value, trailer)]
                 else d.hdr.active && d.hdr.block == HeaderFragment(f).value && d.blocks == c.blocks))
  {
    hide Accumulate, HeaderFragment, Find, ConnError, BeginStream, InboundOf, PingsAnswered, SettingsAnswered,
         PingsAsked, SettingsAsked;
    ErrorUntouched(c, E_PROTOCOL_ERROR);
    ErrorUntouched(c, E_STREAM_CLOSED);
    ErrorFlag(c, E_PROTOCOL_ERROR);
    ErrorFlag(c, E_STREAM_CLOSED);
    var frag := HeaderFragment(f);
    if frag.Some? {
      BeginUntouched(env.lim, c, f);
      var b, t := BeginStream(env.lim, c, f), BeginTrailer(c, f);
      AccumulateGathers(env, b, frag.value, f.EndHeaders());
      AccumulateGathers(env, t, frag.value, f.EndHeaders());
      assert [] + frag.value == frag.value;
    }
  }

  lemma ContinuationGathers(env: Env, c: Conn, f: InFrame)
    ensures var d := OnContinuation(env, c, f);
            && d.prefaceGot == c.prefaceGot && d.needSettings == c.needSettings
            && InboundOf(d.trace) == InboundOf(c.trace) && SameReplies(c.trace, d.trace) && SameAsked(c.trace, d.trace)
            && (d.gotError ||
                if f.EndHeaders() then d.hdr == NO_BLOCK
                  && d.blocks == c.blocks + [HeaderBlock(c.hdr.block + f.payload, c.hdr.trailer)]
                else d.hdr.active == c.hdr.active && d.hdr.block == c.hdr.block + f.payload && d.blocks == c.blocks)
  {
    hide Accumulate, ConnError, InboundOf, PingsAnswered, SettingsAnswered, PingsAsked, SettingsAsked;
    var c1 := c.(hdr := c.hdr.(contCount := c.hdr.contCount + 1));
    ErrorUntouched(c1, E_ENHANCE_YOUR_CALM);
    ErrorFlag(c1, E_ENHANCE_YOUR_CALM);
    AccumulateGathers(env, c1, f.payload, f.EndHeaders());
  }

  lemma OutOfSequence(env: Env, c: Conn, f: InFrame, n: Feeding)
    requires !InSequence(c, f)
    ensures var d := OnFrame(env, c, f, n);
            && d.prefaceGot == c.prefaceGot && (d.needSettings ==> c.needSettings)
            && d.streams == c.streams && d.hdr == c.hdr && d.lastClientId == c.lastClientId
  {
  }

  lemma FrameInSequence(env: Env, c: Conn, f: InFrame, n: Feeding)
    requires InSequence(c, f)
    ensures var d := OnFrame(env, c, f, n); d.prefaceGot == c.prefaceGot && !d.needSettings
  {
    var c1 := Seen(c, f);
    if f.kind == FT_HEADERS {
      HeadersGather(env, c1, f);
      hide OnHeaders, InboundOf, PingsAnswered, SettingsAnswered, PingsAsked, SettingsAsked;
    } else if f.kind == FT_CONTINUATION {
      ContinuationGathers(env, c1, f);
      hide OnContinuation, InboundOf, PingsAnswered, SettingsAnswered, PingsAsked, SettingsAsked;
    } else {
      OtherFrames(env, c, f, n);
      hide OnFrame, InboundOf, PingsAnswered, SettingsAnswered, PingsAsked, SettingsAsked;
    }
  }

  /** A complete preface stays complete, and the first frame is past or an error. */
  lemma FrameKeepsPreface(env: Env, c: Conn, f: InFrame, n: Feeding)
    ensures var d := OnFrame(env, c, f, n);
            && d.prefaceGot == c.prefaceGot
            && (d.needSettings ==>
                  c.needSettings && d.streams == c.streams && d.hdr == c.hdr && d.lastClientId == c.lastClientId)
  {
    hide OnFrame, InSequence;
    if InSequence(c, f) {
      FrameInSequence(env, c, f, n);
    } else {
      OutOfSequence(env, c, f, n);
    }
  }

  lemma OtherFrames(env: Env, c: Conn, f: InFrame, n: Feeding)
    requires f.kind != FT_HEADERS && f.kind != FT_CONTINUATION && InSequence(c, f)
    ensures Handled(Seen(c, f), OnFrame(env, c, f, n))
    ensures f.kind != FT_PING && f.kind != FT_SETTINGS ==> Untouched(Seen(c, f), OnFrame(env, c, f, n))
  {
    var c1 := Seen(c, f);
    DataUntouched(env, c1, f);
    SettingsHandled(c1, f, n.settings);
    PingHandled(env, c1, f, n.pings);
    RstUntouched(env, c1, f);
    UpdateUntouched(c1, f);
    OthersUntouched(env, c1, f, n.pings);
    ErrorUntouched(c1, E_PROTOCOL_ERROR);
    assert Untouched(c1, c1);
    hide OnData, OnHeaders, OnContinuation, OnSettings, OnPing, OnRstStream, OnGoaway, OnWindowUpdate, OnPriority,
         ConnError, InboundOf, SameReplies, PingsAnswered, SettingsAnswered, PingsAsked, SettingsAsked;
  }

  // ------------------------------------------------------------ what the decoder has been given

  function OctetsOf(blocks: seq<HeaderBlock>): seq<Octets> {
    if blocks == [] then [] else OctetsOf(blocks[..|blocks| - 1]) + [blocks[|blocks| - 1].octets]
  }

  lemma OctetsSnoc(blocks: seq<HeaderBlock>, b: HeaderBlock)
    ensures OctetsOf(blocks + [b]) == OctetsOf(blocks) + [b.octets]
  {
    assert (blocks + [b])[..|blocks|] == blocks;
  }

  lemma {:induction false} OctetsLength(blocks: seq<HeaderBlock>)
    ensures |OctetsOf(blocks)| == |blocks|
  {
    if blocks != [] {
      OctetsLength(blocks[..|blocks| - 1]);
    }
  }

  lemma {:induction false} OctetAt(blocks: seq<HeaderBlock>, n: nat)
    requires n < |blocks|
    ensures |OctetsOf(blocks)| == |blocks| && OctetsOf(blocks)[n] == blocks[n].octets
  {
    OctetsLength(blocks);
    if n < |blocks| - 1 {
      OctetAt(blocks[..|blocks| - 1], n);
    }
    OctetsLength(blocks[..|blocks| - 1]);
  }

  /** The decoder has had every complete block of the wire, and the block in progress is kept. */
  ghost predicate Handed(c: Conn) {
    && OctetsOf(c.blocks) == InboundOf(c.trace).complete
    && InboundOf(c.trace).open == if c.hdr.active then Some(c.hdr.block) else None
  }

  /** No stream is opened before the first SETTINGS. */
  predicate Early(c: Conn) {
    c.needSettings ==> c.lastClientId == 0
  }

  ghost predicate BlockInv(env: Env, c: Conn) {
    TableInv(env.lim, c) && (!c.gotError ==> Handed(c)) && Early(c)
  }

  ghost function BlockProperty(env: Env): Property {
    c => BlockInv(env, c)
  }

  lemma HandedOn(c: Conn, d: Conn)
    requires Handed(c) && d.hdr == c.hdr && d.blocks == c.blocks && InboundOf(d.trace) == InboundOf(c.trace)
    ensures Handed(d)
  {
    hide InboundOf, PingsAnswered, SettingsAnswered, PingsAsked, SettingsAsked, OctetsOf;
  }

  lemma HeadersHanded(env: Env, c: Conn, f: InFrame)
    requires Handed(c) && f.kind == FT_HEADERS && !c.hdr.active
    ensures var d := OnHeaders(env, Seen(c, f), f); d.gotError || Handed(d)
  {
    var c1 := Seen(c, f);
    HeadersGather(env, c1, f);
    var d := OnHeaders(env, c1, f);
    assert HeaderFragment(f).Some? ==>
             InboundOf(c1.trace) == AddFragment(InboundOf(c.trace), HeaderFragment(f).value, f.EndHeaders());
    hide OnHeaders, HeaderFragment, InboundOf, PingsAnswered, SettingsAnswered, PingsAsked, SettingsAsked, OctetsOf;
    if !d.gotError && f.EndHeaders() {
      var trailer :| d.blocks == c1.blocks + [HeaderBlock(HeaderFragment(f).value, trailer)];
      OctetsSnoc(c.blocks, HeaderBlock(HeaderFragment(f).value, trailer));
    }
  }

  lemma ContinuationHanded(env: Env, c: Conn, f: InFrame)
    requires Handed(c) && f.kind == FT_CONTINUATION && c.hdr.active
    ensures var d := OnContinuation(env, Seen(c, f), f); d.gotError || Handed(d)
  {
    var c1 := Seen(c, f);
    ContinuationGathers(env, c1, f);
    var d := OnContinuation(env, c1, f);
    assert InboundOf(c1.trace) == AddFragment(InboundOf(c.trace), c.hdr.block + f.payload, f.EndHeaders());
    hide OnContinuation, InboundOf, PingsAnswered, SettingsAnswered, PingsAsked, SettingsAsked, OctetsOf;
    OctetsSnoc(c.blocks, HeaderBlock(c.hdr.block + f.payload, c.hdr.trailer));
  }

  lemma FrameHanded(env: Env, c: Conn, f: InFrame, n: Feeding)
    requires Handed(c)
    ensures var d := OnFrame(env, c, f, n); d.gotError || Handed(d)
  {
    var c1 := Seen(c, f);
    if !InSequence(c, f) {
      hide Handed;
    } else if f.kind == FT_HEADERS {
      HeadersHanded(env, c, f);
      hide Handed, OnHeaders;
    } else if f.kind == FT_CONTINUATION {
      ContinuationHanded(env, c, f);
      hide Handed, OnContinuation;
    } else {
      OtherFrames(env, c, f, n);
      assert InboundOf(c1.trace) == InboundOf(c.trace);
      hide OnFrame, InboundOf, PingsAnswered, SettingsAnswered, PingsAsked, SettingsAsked, Handed;
      HandedOn(c, OnFrame(env, c, f, n));
    }
  }

  // ------------------------------------------------------------ every run

  lemma BlockSteady(env: Env)
    ensures Steady(env, BlockProperty(env))
  {
    var P := BlockProperty(env);
    assert forall c | P(c) :: TableInv(env.lim, c);
    hide TableInv, Handed, Do;
    forall c, code: nat, error: bool | P(c)
      ensures P(Do(env, c, WindDown(code, error)))
    {
      AtomBlock(env, c, WindDown(code, error));
    }
    forall c, needs: bool, got: nat | P(c) && got <= PREFACE_LEN && (needs ==> c.needSettings)
      ensures P(Do(env, c, Flags(needs, got)))
    {
      AtomBlock(env, c, Flags(needs, got));
    }
  }

  lemma AtomBlock(env: Env, c: Conn, a: Atom)
    requires BlockInv(env, c) && Enabled(env, c, a)
             && (a.WindDown? || (a.Flags? && (a.needSettings ==> c.needSettings)))
    ensures BlockInv(env, Do(env, c, a))
  {
    TableAtom(env, c, a);
    var d := Do(env, c, a);
    assert d.hdr == c.hdr && d.blocks == c.blocks && InboundOf(d.trace) == InboundOf(c.trace)
           && (c.gotError ==> d.gotError);
    hide TableInv, Handed, Do, InboundOf, PingsAnswered, SettingsAnswered, PingsAsked, SettingsAsked;
    if !c.gotError {
      HandedOn(c, d);
    }
  }

  lemma FrameBlock(env: Env, c: Conn, f: InFrame, n: Feeding)
    requires BlockInv(env, c) && !c.gotError && Parsed(f)
    ensures BlockInv(env, OnFrame(env, c, f, n))
  {
    hide TableInv, Handed, OnFrame;
    TableFrame(env, c, f, n);
    FrameHanded(env, c, f, n);
    FrameKeepsPreface(env, c, f, n);
  }

  lemma ChunkBlock(env: Env, c: Conn, i: nat)
    requires BlockInv(env, c) && Pumpable(c, i) && Sendable(env.lim, c, i) > 0
    ensures BlockInv(env, AfterChunk(env.lim, c, i))
  {
    TableChunk(env, c, i);
    ChunkUntouched(env.lim, c, i);
    hide TableInv, Handed, AfterChunk, Sendable, InboundOf, PingsAnswered, SettingsAnswered, PingsAsked, SettingsAsked;
    if !c.gotError {
      HandedOn(c, AfterChunk(env.lim, c, i));
    }
  }

  lemma ChunkUntouched(lim: Limits, c: Conn, i: nat)
    requires Pumpable(c, i) && Sendable(lim, c, i) > 0
    ensures Untouched(c, AfterChunk(lim, c, i)) && AfterChunk(lim, c, i).gotError == c.gotError
  {
    hide Sendable;
  }

  lemma DrainBlock(env: Env, c: Conn, n: nat)
    requires BlockInv(env, c)
    ensures BlockInv(env, Drain(c, n))
  {
    TableDrain(env, c, n);
    var d := Drain(c, n);
    assert InboundOf(d.trace) == InboundOf(c.trace);
    hide TableInv, Handed, InboundOf, PingsAnswered, SettingsAnswered, PingsAsked, SettingsAsked;
    if !c.gotError {
      HandedOn(c, d);
    }
  }

  lemma FreshBlock(env: Env)
    ensures BlockInv(env, Fresh())
  {
    assert Fresh().trace == Then(Start, Sent(Settings));
    assert InboundOf(Start) == Inbound([], None);
  }

  lemma BlockInvariant(env: Env)
    ensures Invariant(env, BlockProperty(env))
  {
    hide Steady, BlockInv, OnFrame, AfterChunk, Drain, Fresh, Sendable;
    var P := BlockProperty(env);
    BlockSteady(env);
    FreshBlock(env);
    forall c: Conn, f: InFrame, n: Feeding | P(c) && !c.gotError && Parsed(f)
      ensures P(OnFrame(env, c, f, n))
    {
      FrameBlock(env, c, f, n);
    }
    forall c, i: nat | P(c) && Pumpable(c, i) && Sendable(env.lim, c, i) > 0
      ensures P(AfterChunk(env.lim, c, i))
    {
      ChunkBlock(env, c, i);
    }
    forall c, n: nat | P(c)
      ensures P(Drain(c, n))
    {
      DrainBlock(env, c, n);
    }
  }

  /**
    In every run without a connection error the decoder has been given exactly the complete header
    blocks of the wire, in order, whatever became of their streams, and the block in progress is what
    its fragments spell so far.
   */
  lemma BlocksReachTheDecoder(env: Env, actions: seq<Action>)
    ensures var c := Run(env, actions).conn; !c.gotError ==> Handed(c)
  {
    hide Invariant, Run, TableInv, Handed;
    BlockInvariant(env);
    RunKeeps(env, BlockProperty(env), actions);
    assert BlockInv(env, Run(env, actions).conn);
  }

  // ------------------------------------------------------------ one frame of a feed

  lemma FeedTurn(env: Env, c: Conn, input: Octets, n: Feeding)
    ensures FeedFrames(env, c, input, n) ==
            if c.gotError || |input| < FRAME_HDR then (c, input)
            else if Read24(input) > OUR_MAX_FRAME then (ConnError(c, E_FRAME_SIZE_ERROR), input)
            else if FirstFrame(input).None? then (c, input)
            else
              var f := FirstFrame(input).value;
              var c1 := OnFrame(env, c, f, Count(n, f));
              if !InSequence(c, f) then (c1, input)
                else FeedFrames(env, c1, input[FRAME_HDR + |f.payload|..], Count(n, f))
  {
    hide OnFrame, InSequence, Count;
  }

  lemma FrameParsed(input: Octets)
    requires |input| >= FRAME_HDR && Read24(input) <= OUR_MAX_FRAME && FirstFrame(input).Some?
    ensures Parsed(FirstFrame(input).value)
  {
    Sid31(input[5..]);
  }

  /** A whole frame at the front of the input. */
  lemma FeedOne(env: Env, c: Conn, f: InFrame, rest: Octets, n: Feeding)
    requires !c.gotError && |f.payload| <= OUR_MAX_FRAME && f.sid < 0x8000_0000
    ensures var c1 := OnFrame(env, c, f, Count(n, f));
            FeedFrames(env, c, H2Wire.InWire(f) + rest, n) ==
            if InSequence(c, f) then FeedFrames(env, c1, rest, Count(n, f)) else (c1, H2Wire.InWire(f) + rest)
  {
    H2Wire.FrameRead(f, rest);
    FeedTurn(env, c, H2Wire.InWire(f) + rest, n);
    hide FeedFrames, OnFrame, InSequence, Count, Read24, FirstFrame, H2Wire.InWire;
  }

  // ------------------------------------------------------------ the table alone

  ghost function TableProperty(env: Env): Property {
    c => TableInv(env.lim, c)
  }

  /** Every frame keeps the shape of the table. */
  lemma TableFrame(env: Env, c: Conn, f: InFrame, n: Feeding)
    requires TableInv(env.lim, c) && !c.gotError && Parsed(f)
    ensures TableInv(env.lim, OnFrame(env, c, f, n))
  {
    var P := TableProperty(env);
    hide TableInv, Enabled, Do, OnFrame, ConsumeConn, ConsumeStream, Seen;
    forall d, a | P(d) && Enabled(env, d, a)
      ensures P(Do(env, d, a))
    {
      TableAtom(env, d, a);
    }
    forall d, streams, w: int, initial: nat, maxFrame: nat
      | P(d) && SameButSendWindow(d.streams, streams) && initial <= MAX_WINDOW && 16384 <= maxFrame <= 16777215
      ensures P(Tuned(d, streams, w, initial, maxFrame))
    {
      TableSendWindows(env, d, streams, w, initial, maxFrame);
    }
    forall d, len: nat | P(d)
      ensures P(ConsumeConn(d, len))
    {
      TableConsumeConn(env, d, len);
    }
    forall d, i: nat, len: nat | P(d) && i < |d.streams| && d.streams[i].gotHeaders && !d.streams[i].endStreamRecv
      ensures P(ConsumeStream(d, i, len))
    {
      TableConsumeStream(env, d, i, len);
    }
    TableSeen(env, c, f);
    FrameKeeps(env, P, c, f, n);
  }
}
