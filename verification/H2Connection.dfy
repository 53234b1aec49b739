/**
  The HTTP/2 server connection of src/h2.c as it is written: one object whose handlers update
  it in place and append frames to the output buffer. Every method is tied to the transition
  function of the same name, so what is proved of runs holds of the object.
 */
module H2Connection {
  import opened Bytes
  import opened H2Trace
  import opened H2Spec
  import opened H2Wire
  import HpackTable
  import HpackBlock
  import HpackEncoder
  import H2Runs
  import H2Table

  // ------------------------------------------------------------ loops against their recursion

  lemma FeedTurn(env: Env, c: Conn, input: Octets, n: Feeding)
    ensures FeedFrames(env, c, input, n) ==
            if c.gotError || |input| < FRAME_HDR then (c, input)
            else if Read24(input) > OUR_MAX_FRAME then (ConnError(c, E_FRAME_SIZE_ERROR), input)
            else if FirstFrame(input).None? then (c, input)
            else
              var f := FirstFrame(input).value;
              if !InSequence(c, f) then (OnFrame(env, c, f, Count(n, f)), input)
              else FeedFrames(env, OnFrame(env, c, f, Count(n, f)), input[FRAME_HDR + |f.payload|..], Count(n, f))
  {
    hide OnFrame, InSequence, Count;
  }

  lemma RetargetTurn(streams: seq<Stream>, delta: int, from: nat)
    requires from <= |streams|
    ensures Retarget(streams, delta, from) ==
            if from == |streams| then (streams, true)
            else
              var st := streams[from].(sendWindow := streams[from].sendWindow + delta);
              if st.sendWindow > MAX_WINDOW then (streams[from := st], false)
              else Retarget(streams[from := st], delta, from + 1)
  {
  }

  lemma SettingsTurn(c: Conn, payload: Octets, off: nat)
    requires |payload| % 6 == 0 && off % 6 == 0 && off < |payload|
    ensures off + 6 <= |payload|
    ensures var c1 := ApplySetting(c, Read16(payload[off..]), Read32(payload[off + 2..]));
            ApplySettings(c, payload[off..]) == if c1.gotError then c1 else ApplySettings(c1, payload[off + 6..])
  {
    hide ApplySetting, Read16, Read32;
    assert payload[off..][2..] == payload[off + 2..];
    assert payload[off..][6..] == payload[off + 6..];
  }

  lemma {:induction false} FieldLines(status: int, headers: seq<HpackTable.Field>, k: nat)
    requires k < |headers|
    ensures HpackBlock.BlockWire(HpackEncoder.ResponseLines(status, headers[..k + 1])) ==
            HpackBlock.BlockWire(HpackEncoder.ResponseLines(status, headers[..k]))
            + HpackBlock.LineWire(HpackEncoder.HeaderLine(headers[k].name, headers[k].value))
  {
    hide HpackEncoder.HeaderLine, HpackBlock.LineWire, HpackBlock.BlockWire, HpackEncoder.HeaderLines,
         HpackEncoder.StatusLine;
    HeaderLinesSnoc(headers[..k], headers[k]);
    assert headers[..k + 1] == headers[..k] + [headers[k]];
    var l := HpackEncoder.HeaderLine(headers[k].name, headers[k].value);
    var lines := HpackEncoder.ResponseLines(status, headers[..k]);
    assert HpackEncoder.ResponseLines(status, headers[..k + 1]) == lines + [l];
    WireSnoc(lines, l);
  }

  lemma {:induction false} HeaderLinesSnoc(headers: seq<HpackTable.Field>, h: HpackTable.Field)
    ensures HpackEncoder.HeaderLines(headers + [h]) ==
            HpackEncoder.HeaderLines(headers) + [HpackEncoder.HeaderLine(h.name, h.value)]
  {
    hide HpackEncoder.HeaderLine;
    if headers != [] {
      assert (headers + [h])[1..] == headers[1..] + [h];
      HeaderLinesSnoc(headers[1..], h);
    } else {
      assert HpackEncoder.HeaderLines(([h])[1..]) == [];
    }
  }

  lemma {:induction false} WireSnoc(lines: seq<HpackBlock.Line>, l: HpackBlock.Line)
    ensures HpackBlock.BlockWire(lines + [l]) == HpackBlock.BlockWire(lines) + HpackBlock.LineWire(l)
  {
    hide HpackBlock.LineWire;
    if lines != [] {
      assert (lines + [l])[1..] == lines[1..] + [l];
      WireSnoc(lines[1..], l);
    } else {
      assert HpackBlock.BlockWire(([l])[1..]) == [];
    }
  }

  lemma {:induction false} LowerNamesAt(headers: seq<HpackTable.Field>, k: nat)
    requires k < |headers|
    ensures |LowerNames(headers)| == |headers|
    ensures LowerNames(headers)[k] == HpackTable.Field(LowerName(headers[k].name), headers[k].value)
  {
    if |headers| > 1 {
      LowerNamesAt(headers[1..], if k == 0 then 0 else k - 1);
    }
  }

  /** Encodes the field block of a response. */
  method EncodeResponse(r: Response) returns (block: Octets)
    ensures block == FieldBlock(r)
  {
    hide HpackBlock.LineWire, HpackBlock.BlockWire, HpackEncoder.ResponseLines, LowerNames, LowerName;
    ghost var lower := LowerNames(r.headers);
    StatusOnly(r.status, r.headers);
    block := HpackEncoder.EncodeStatus([], r.status);
    for k := 0 to |r.headers|
      invariant |lower| == |r.headers| && lower == LowerNames(r.headers)
      invariant block == HpackBlock.BlockWire(HpackEncoder.ResponseLines(r.status, lower[..k]))
    {
      LowerNamesAt(r.headers, k);
      FieldLines(r.status, lower, k);
      block := HpackEncoder.EncodeHeader(block, LowerName(r.headers[k].name), r.headers[k].value);
    }
    assert lower[..|r.headers|] == lower;
  }

  lemma StatusOnly(status: int, headers: seq<HpackTable.Field>)
    ensures |LowerNames(headers)| == |headers|
    ensures HpackBlock.BlockWire(HpackEncoder.ResponseLines(status, LowerNames(headers)[..0])) ==
            [] + HpackBlock.LineWire(HpackEncoder.StatusLine(status))
  {
    hide HpackBlock.LineWire;
    if headers != [] {
      LowerNamesAt(headers, 0);
    }
    var line := HpackEncoder.StatusLine(status);
    assert HpackEncoder.ResponseLines(status, []) == [line];
    WireSnoc([], line);
    assert [] + [line] == [line];
    assert HpackBlock.BlockWire([]) == [];
  }

  // ------------------------------------------------------------ the connection

  class Connection {
    const env: Env

    var prefaceGot: nat
    var needSettings: bool
    var closing: bool
    var goawaySent: bool
    var peerGoaway: bool
    var gotError: bool

    var recvWindow: int
    var sendWindow: int
    var peerInitialWindow: nat
    var peerMaxFrame: nat

    var streams: seq<Stream>
    var lastClientId: nat
    var openCount: nat
    var totalStreams: nat
    var rapidReset: nat

    var hdr: Reassembly
    var blocks: seq<HeaderBlock>

    var out: Octets
    ghost var trace: Trace

    ghost function Snapshot(): Conn
      reads this
    {
      Conn(prefaceGot, needSettings, closing, goawaySent, peerGoaway, gotError,
           recvWindow, sendWindow, peerInitialWindow, peerMaxFrame,
           streams, lastClientId, openCount, totalStreams, rapidReset,
           hdr, blocks, |out|, trace)
    }

    /** The output buffer holds the frames of the history that were not drained. */
    ghost predicate Valid()
      reads this
    {
      out == Pending(env.lim, trace)
    }

    constructor (env: Env)
      ensures this.env == env && Valid() && Snapshot() == Fresh()
    {
      this.env := env;
      prefaceGot, needSettings, closing, goawaySent, peerGoaway, gotError := 0, true, false, false, false, false;
      recvWindow, sendWindow := INITIAL_WINDOW, INITIAL_WINDOW;
      peerInitialWindow, peerMaxFrame := INITIAL_WINDOW, DEFAULT_MAX_FRAME;
      streams, lastClientId, openCount, totalStreams, rapidReset := [], 0, 0, 0, 0;
      hdr, blocks := NO_BLOCK, [];
      out := [];
      trace := Start;
      new;
      Frame(Settings);
    }

    // -------------------------------------------------------- frame output

    method Frame(f: OutFrame)
      requires Valid() && WellSized(f)
      modifies this
      ensures Valid() && Snapshot() == Emit(old(Snapshot()), f)
    {
      out := out + Wire(env.lim, f);
      trace := Then(trace, Sent(f));
    }

    method GoAway(code: nat)
      requires Valid()
      modifies this
      ensures Valid() && Snapshot() == SendGoaway(old(Snapshot()), code)
    {
      if goawaySent {
        return;
      }
      Frame(OutFrame.GoAway(lastClientId, code));
      goawaySent := true;
    }

    method Fail(code: nat)
      requires Valid()
      modifies this
      ensures Valid() && Snapshot() == ConnError(old(Snapshot()), code)
    {
      GoAway(code);
      gotError := true;
      closing := true;
    }

    // -------------------------------------------------------- stream table

    method FindIndex(id: nat) returns (r: Option<nat>)
      ensures r == Find(Snapshot(), id)
    {
      hide FindFrom;
      for i := 0 to |streams|
        invariant FindFrom(streams, id, 0) == FindFrom(streams, id, i)
      {
        FindTurn(streams, id, i);
        if streams[i].id == id {
          return Some(i);
        }
      }
      FindTurn(streams, id, |streams|);
      return None;
    }

    method StreamNew(id: nat)
      requires Valid()
      modifies this
      ensures Valid() && Snapshot() == Open(old(Snapshot()), id)
    {
      streams := streams +
        [Stream(id, INITIAL_WINDOW, false, false, false, peerInitialWindow, false, false, false, false,
                [], 0, false, [])];
      openCount := openCount + 1;
      trace := Then(trace, Opened(id));
    }

    method StreamClose(i: nat)
      requires Valid() && i < |streams|
      modifies this
      ensures Valid() && Snapshot() == CloseAt(old(Snapshot()), i)
    {
      var n := |streams| - 1;
      streams := streams[i := streams[n]][..n];
      if openCount > 0 {
        openCount := openCount - 1;
      }
    }

    method ResetStream(i: nat, code: nat)
      requires Valid() && i < |streams|
      modifies this
      ensures Valid() && Snapshot() == ResetAt(old(Snapshot()), i, code)
    {
      Frame(RstStream(streams[i].id, code));
      StreamClose(i);
    }

    // -------------------------------------------------------- receive windows

    method RecvConsume(slot: Option<nat>, len: nat)
      requires Valid() && (slot.Some? ==> slot.value < |streams|)
      modifies this
      ensures Valid()
      ensures var c := ConsumeConn(old(Snapshot()), len);
              Snapshot() == if slot.Some? then ConsumeStream(c, slot.value, len) else c
    {
      hide Wire, Pending, ConsumeConn, ConsumeStream;
      ConsumeFrame(Snapshot(), len);
      ConnConsume(len);
      if slot.Some? {
        StreamConsume(slot.value, len);
      }
    }

    method ConnConsume(len: nat)
      requires Valid()
      modifies this
      ensures Valid() && Snapshot() == ConsumeConn(old(Snapshot()), len)
    {
      hide Wire, Pending;
      recvWindow := recvWindow - len;
      if recvWindow <= INITIAL_WINDOW - OUR_MAX_FRAME {
        var delta := INITIAL_WINDOW - recvWindow;
        recvWindow := INITIAL_WINDOW;
        Frame(WindowUpdate(0, delta));
      }
    }

    method StreamConsume(i: nat, len: nat)
      requires Valid() && i < |streams|
      modifies this
      ensures Valid() && Snapshot() == ConsumeStream(old(Snapshot()), i, len)
    {
      hide Wire, Pending;
      var st := streams[i];
      var w := st.recvWindow - len;
      if w <= INITIAL_WINDOW - OUR_MAX_FRAME {
        streams := streams[i := st.(recvWindow := INITIAL_WINDOW)];
        Frame(WindowUpdate(st.id, INITIAL_WINDOW - w));
      } else {
        streams := streams[i := st.(recvWindow := w)];
      }
    }

    // -------------------------------------------------------- responding

    /** HEADERS and CONTINUATION frames of one field block. */
    method SendFieldBlock(sid: nat, block: Octets, endStream: bool)
      requires Valid()
      modifies this
      ensures Valid() && Snapshot() == SendBlock(old(Snapshot()), sid, block, true, endStream)
    {
      hide SendBlock;
      ghost var goal := SendBlock(Snapshot(), sid, block, true, endStream);
      var maxf := if peerMaxFrame > 0 then peerMaxFrame else DEFAULT_MAX_FRAME;
      var off, first := 0, true;
      while |block| - off > maxf
        invariant off <= |block| && Valid() && maxf == FrameLimit(Snapshot())
        invariant goal == SendBlock(Snapshot(), sid, block[off..], first, endStream)
        decreases |block| - off
      {
        H2Table.SendBlockTurn(Snapshot(), sid, block[off..], first, endStream);
        var chunk := block[off..off + maxf];
        assert block[off..][..maxf] == chunk && block[off..][maxf..] == block[off + maxf..];
        Frame(if first then Headers(sid, endStream, false, chunk) else Continuation(sid, false, chunk));
        off := off + maxf;
        first := false;
      }
      H2Table.SendBlockTurn(Snapshot(), sid, block[off..], first, endStream);
      Frame(if first then Headers(sid, endStream, true, block[off..]) else Continuation(sid, true, block[off..]));
    }

    method Reply(i: nat, r: Response)
      requires Valid() && i < |streams|
      modifies this
      ensures Valid() && Snapshot() == Respond(old(Snapshot()), i, r)
    {
      hide SendBlock, FieldBlock, HasBody;
      var st := streams[i];
      if st.responded {
        return;
      }
      var block := EncodeResponse(r);
      var body := HasBody(r, st.isHead);
      H2Table.SendBlockOnlySends(Snapshot(), st.id, block, true, !body);
      SendFieldBlock(st.id, block, !body);
      st := st.(respHeadersDone := true, responded := true);
      if body {
        st := st.(respBody := st.respBody + r.body, endAfterBody := true);
      } else {
        st := st.(sendDone := true);
      }
      streams := streams[i := st];
    }

    /** Runs the handler on a complete request. */
    method Handle(i: nat)
      requires Valid() && i < |streams|
      modifies this
      ensures Valid() && Snapshot() == Dispatch(env, old(Snapshot()), i)
    {
      hide Respond;
      var st := streams[i];
      if st.dispatched {
        return;
      }
      streams := streams[i := st.(dispatched := true)];
      trace := Then(trace, Dispatched(st.id, st.isHead, st.reqBody));
      RespondFrame(Snapshot(), i, env.app(st.id));
      Reply(i, env.app(st.id));
      streams := streams[i := streams[i].(isHead := false, reqBody := [])];
      if streams[i].sendDone && streams[i].endStreamRecv {
        StreamClose(i);
      }
    }

    // -------------------------------------------------------- header blocks

    method FinishBlock()
      requires Valid()
      modifies this
      ensures Valid() && Snapshot() == FinishHeaders(env, old(Snapshot()))
    {
      hide Dispatch, ResetAt, ConnError, Find;
      var outcome := env.headers(blocks, HeaderBlock(hdr.block, hdr.trailer));
      var h := hdr;
      var slot := None;
      if h.stream.Some? {
        slot := FindIndex(h.stream.value);
      }
      hdr := NO_BLOCK;
      blocks := blocks + [HeaderBlock(h.block, h.trailer)];
      match outcome
      case CompressionError => Fail(E_COMPRESSION_ERROR);
      case MalformedList =>
        if slot.Some? {
          ResetStream(slot.value, E_PROTOCOL_ERROR);
        } else {
          Frame(RstStream(h.id, if h.refuse != 0 then h.refuse else E_PROTOCOL_ERROR));
        }
      case FieldList(request, isHead) =>
        if h.refuse != 0 {
          Frame(RstStream(h.id, h.refuse));
        } else if slot.None? {
          Frame(RstStream(h.id, E_REFUSED_STREAM));
        } else {
          AcceptBlock(h, slot.value, request, isHead);
        }
    }

    method AcceptBlock(h: Reassembly, i: nat, request: bool, isHead: bool)
      requires Valid() && i < |streams|
      modifies this
      ensures Valid()
      ensures var c := old(Snapshot());
              Snapshot() == AcceptedBlock(env, c, h, i, request, isHead)
    {
      hide Dispatch, ResetAt;
      if h.trailer {
        if !h.endStream {
          ResetStream(i, E_PROTOCOL_ERROR);
        } else {
          streams := streams[i := streams[i].(endStreamRecv := true)];
          Handle(i);
        }
      } else if !request {
        ResetStream(i, E_PROTOCOL_ERROR);
      } else {
        streams := streams[i := streams[i].(gotHeaders := true, endStreamRecv := h.endStream, isHead := isHead)];
        if h.endStream {
          Handle(i);
        }
      }
    }

    method Gather(fragment: Octets, endHeaders: bool)
      requires Valid()
      modifies this
      ensures Valid() && Snapshot() == Accumulate(env, old(Snapshot()), fragment, endHeaders)
    {
      hide FinishHeaders, ConnError;
      if |hdr.block| + |fragment| > env.lim.maxHeaderBytes + 4096 {
        Fail(E_ENHANCE_YOUR_CALM);
        return;
      }
      hdr := hdr.(block := hdr.block + fragment);
      if endHeaders {
        FinishBlock();
      }
    }

    // -------------------------------------------------------- frame handlers

    /** A HEADERS frame for a stream not in the table: accept it or note why not. */
    method NewStream(f: InFrame)
      requires Valid()
      modifies this
      ensures Valid() && Snapshot() == BeginStream(env.lim, old(Snapshot()), f)
    {
      hide Open, Wire, Pending;
      lastClientId := f.sid;
      totalStreams := totalStreams + 1;
      var refuse := 0;
      if closing || peerGoaway {
        refuse := E_REFUSED_STREAM;
      } else if env.lim.maxRequests != 0 && totalStreams > env.lim.maxRequests {
        WindDown();
        refuse := E_REFUSED_STREAM;
      } else if openCount >= env.lim.maxStreams {
        refuse := E_REFUSED_STREAM;
      }
      if refuse == 0 {
        StreamNew(f.sid);
      }
      hdr := Reassembly(true, f.sid, if refuse == 0 then Some(f.sid) else None, refuse, false, f.EndStream(), [], 0);
    }

    method HandleHeaders(f: InFrame)
      requires Valid()
      modifies this
      ensures Valid() && Snapshot() == OnHeaders(env, old(Snapshot()), f)
    {
      hide Accumulate, BeginStream, ConnError, HeaderFragment, Find;
      var frag := HeaderFragment(f);
      if f.sid == 0 || frag.None? {
        Fail(E_PROTOCOL_ERROR);
        return;
      }
      var slot := FindIndex(f.sid);
      if slot.None? {
        if f.sid % 2 == 0 || f.sid <= lastClientId {
          Fail(E_PROTOCOL_ERROR);
          return;
        }
        NewStream(f);
      } else if streams[slot.value].endStreamRecv {
        Fail(E_STREAM_CLOSED);
        return;
      } else if !streams[slot.value].gotHeaders {
        Fail(E_PROTOCOL_ERROR);
        return;
      } else {
        hdr := Reassembly(true, f.sid, Some(f.sid), 0, true, f.EndStream(), [], 0);
      }
      Gather(frag.value, f.EndHeaders());
    }

    method HandleContinuation(f: InFrame)
      requires Valid()
      modifies this
      ensures Valid() && Snapshot() == OnContinuation(env, old(Snapshot()), f)
    {
      hide Accumulate, ConnError;
      hdr := hdr.(contCount := hdr.contCount + 1);
      if hdr.contCount > CONT_MAX {
        Fail(E_ENHANCE_YOUR_CALM);
      } else {
        Gather(f.payload, f.EndHeaders());
      }
    }

    method HandleData(f: InFrame)
      requires Valid()
      modifies this
      ensures Valid() && Snapshot() == OnData(env, old(Snapshot()), f)
    {
      hide Dispatch, ConsumeConn, ConsumeStream, ResetAt, ConnError, DataPayload, Find;
      var len := |f.payload|;
      if f.sid == 0 {
        Fail(E_PROTOCOL_ERROR);
        return;
      }
      if len > recvWindow {
        Fail(E_FLOW_CONTROL_ERROR);
        return;
      }
      var slot := FindIndex(f.sid);
      if slot.None? {
        ConsumeFrame(Snapshot(), len);
        RecvConsume(None, len);
        if f.sid > lastClientId {
          Fail(E_PROTOCOL_ERROR);
        }
        return;
      }
      var i, st := slot.value, streams[slot.value];
      var d := DataPayload(f);
      if st.endStreamRecv || !st.gotHeaders {
        Fail(E_STREAM_CLOSED);
      } else if len > st.recvWindow {
        ResetStream(i, E_FLOW_CONTROL_ERROR);
        RecvConsume(None, len);
      } else if d.None? {
        Fail(E_PROTOCOL_ERROR);
      } else if |st.reqBody| + |d.value| > env.lim.maxBodyBytes {
        ResetStream(i, E_ENHANCE_YOUR_CALM);
        RecvConsume(None, len);
      } else {
        TakeBody(i, d.value, len, f.EndStream());
      }
    }

    /** Stores body octets, accounts for the frame and hands over a request that is complete. */
    method TakeBody(i: nat, d: Octets, len: nat, end: bool)
      requires Valid() && i < |streams|
      modifies this
      ensures Valid()
      ensures Snapshot() == TakenBody(env, old(Snapshot()), i, d, len, end)
    {
      hide Dispatch, ConsumeConn, ConsumeStream;
      streams := streams[i := streams[i].(reqBody := streams[i].reqBody + d)];
      ConsumeFrame(Snapshot(), len);
      RecvConsume(if end then None else Some(i), len);
      if end {
        streams := streams[i := streams[i].(endStreamRecv := true)];
        Handle(i);
      }
    }

    method HandleRstStream(f: InFrame)
      requires Valid()
      modifies this
      ensures Valid() && Snapshot() == OnRstStream(env, old(Snapshot()), f)
    {
      hide ConnError, Find;
      if |f.payload| != 4 {
        Fail(E_FRAME_SIZE_ERROR);
        return;
      }
      if f.sid == 0 {
        Fail(E_PROTOCOL_ERROR);
        return;
      }
      var slot := FindIndex(f.sid);
      if slot.Some? {
        if !streams[slot.value].responded {
          rapidReset := rapidReset + 1;
        }
        StreamClose(slot.value);
        if rapidReset > env.lim.maxStreams {
          Fail(E_ENHANCE_YOUR_CALM);
        }
      } else if f.sid > lastClientId {
        Fail(E_PROTOCOL_ERROR);
      }
    }

    /** Moves every stream's send window to a new initial window; false on overflow. */
    method RetargetAll(delta: int) returns (ok: bool)
      requires Valid()
      modifies this`streams
      ensures Valid()
      ensures (streams, ok) == Retarget(old(streams), delta, 0)
    {
      hide Retarget;
      for i := 0 to |streams|
        invariant |streams| == |old(streams)| && Valid()
        invariant Retarget(streams, delta, i) == Retarget(old(streams), delta, 0)
      {
        RetargetTurn(streams, delta, i);
        streams := streams[i := streams[i].(sendWindow := streams[i].sendWindow + delta)];
        if streams[i].sendWindow > MAX_WINDOW {
          return false;
        }
      }
      RetargetTurn(streams, delta, |streams|);
      return true;
    }

    method Setting(id: nat, val: nat)
      requires Valid()
      modifies this
      ensures Valid() && Snapshot() == ApplySetting(old(Snapshot()), id, val)
    {
      hide ConnError, Retarget;
      if id == S_ENABLE_PUSH && val > 1 {
        Fail(E_PROTOCOL_ERROR);
      } else if id == S_INITIAL_WINDOW_SIZE {
        if val > MAX_WINDOW {
          Fail(E_FLOW_CONTROL_ERROR);
          return;
        }
        var ok := RetargetAll(val - peerInitialWindow);
        if ok {
          peerInitialWindow := val;
        } else {
          Fail(E_FLOW_CONTROL_ERROR);
        }
      } else if id == S_MAX_FRAME_SIZE {
        if val < 16384 || val > 16777215 {
          Fail(E_PROTOCOL_ERROR);
        } else {
          peerMaxFrame := val;
        }
      }
    }

    method HandleSettings(f: InFrame, seen: nat)
      requires Valid() && !gotError
      modifies this
      ensures Valid() && Snapshot() == OnSettings(old(Snapshot()), f, seen)
    {
      hide ConnError, ApplySetting, ApplySettings, Read16, Read32;
      if f.sid != 0 {
        Fail(E_PROTOCOL_ERROR);
        return;
      }
      if f.Ack() {
        if |f.payload| != 0 {
          Fail(E_FRAME_SIZE_ERROR);
        }
        return;
      }
      if |f.payload| % 6 != 0 {
        Fail(E_FRAME_SIZE_ERROR);
        return;
      }
      if seen > SETTINGS_PER_FEED {
        Fail(E_ENHANCE_YOUR_CALM);
        return;
      }
      ghost var goal := ApplySettings(Snapshot(), f.payload);
      var off := 0;
      assert f.payload[0..] == f.payload;
      while off < |f.payload|
        invariant Valid() && !gotError && off <= |f.payload| && off % 6 == 0
        invariant goal == ApplySettings(Snapshot(), f.payload[off..])
      {
        SettingsTurn(Snapshot(), f.payload, off);
        Setting(Read16(f.payload[off..]), Read32(f.payload[off + 2..]));
        if gotError {
          return;
        }
        off := off + 6;
      }
      NoSettings(Snapshot());
      assert f.payload[off..] == [];
      Frame(SettingsAck);
    }

    method HandlePing(f: InFrame, seen: nat)
      requires Valid()
      modifies this
      ensures Valid() && Snapshot() == OnPing(env, old(Snapshot()), f, seen)
    {
      hide ConnError;
      if f.sid != 0 {
        Fail(E_PROTOCOL_ERROR);
      } else if |f.payload| != 8 {
        Fail(E_FRAME_SIZE_ERROR);
      } else if !f.Ack() {
        if seen > PING_PER_FEED || |out| > env.lim.maxOutBytes {
          Fail(E_ENHANCE_YOUR_CALM);
        } else {
          Frame(PingAck(f.payload));
        }
      }
    }

    method HandleWindowUpdate(f: InFrame)
      requires Valid()
      modifies this
      ensures Valid() && Snapshot() == OnWindowUpdate(old(Snapshot()), f)
    {
      hide ConnError, ResetAt, Read31, Find;
      if |f.payload| != 4 {
        Fail(E_FRAME_SIZE_ERROR);
        return;
      }
      var incr := Read31(f.payload);
      if f.sid == 0 {
        if incr == 0 {
          Fail(E_PROTOCOL_ERROR);
          return;
        }
        sendWindow := sendWindow + incr;
        if sendWindow > MAX_WINDOW {
          Fail(E_FLOW_CONTROL_ERROR);
        }
        return;
      }
      var slot := FindIndex(f.sid);
      if slot.None? {
        if f.sid > lastClientId {
          Fail(E_PROTOCOL_ERROR);
        }
      } else if incr == 0 {
        ResetStream(slot.value, E_PROTOCOL_ERROR);
      } else {
        var i := slot.value;
        streams := streams[i := streams[i].(sendWindow := streams[i].sendWindow + incr)];
        if streams[i].sendWindow > MAX_WINDOW {
          ResetStream(i, E_FLOW_CONTROL_ERROR);
        }
      }
    }

    method HandleGoaway(f: InFrame)
      requires Valid()
      modifies this
      ensures Valid() && Snapshot() == OnGoaway(old(Snapshot()), f)
    {
      hide ConnError;
      if f.sid != 0 {
        Fail(E_PROTOCOL_ERROR);
      } else if |f.payload| < 8 {
        Fail(E_FRAME_SIZE_ERROR);
      } else {
        peerGoaway := true;
      }
    }

    method HandlePriority(f: InFrame)
      requires Valid()
      modifies this
      ensures Valid() && Snapshot() == OnPriority(old(Snapshot()), f)
    {
      hide ConnError;
      if f.sid == 0 {
        Fail(E_PROTOCOL_ERROR);
      } else if |f.payload| != 5 {
        Fail(E_FRAME_SIZE_ERROR);
      }
    }

    // -------------------------------------------------------- feeding

    /** One complete frame; `consumed` tells whether it is taken from the input. */
    method HandleFrame(f: InFrame, n: Feeding) returns (consumed: bool)
      requires Valid() && !gotError
      modifies this
      ensures Valid() && Snapshot() == OnFrame(env, old(Snapshot()), f, n)
      ensures consumed == InSequence(old(Snapshot()), f)
    {
      hide OnData, OnHeaders, OnPriority, OnRstStream, OnSettings, OnPing, OnGoaway, OnWindowUpdate, OnContinuation,
           ConnError;
      trace := Then(trace, Recv(f));
      if needSettings {
        if f.kind != FT_SETTINGS {
          Fail(E_PROTOCOL_ERROR);
          return false;
        }
        needSettings := false;
      }
      if (if hdr.active then f.kind != FT_CONTINUATION || f.sid != hdr.id else f.kind == FT_CONTINUATION) {
        Fail(E_PROTOCOL_ERROR);
        return false;
      }
      match f.kind {
        case 0 => HandleData(f);
        case 1 => HandleHeaders(f);
        case 2 => HandlePriority(f);
        case 3 => HandleRstStream(f);
        case 4 => HandleSettings(f, n.settings);
        case 5 => Fail(E_PROTOCOL_ERROR);
        case 6 => HandlePing(f, n.pings);
        case 7 => HandleGoaway(f);
        case 8 => HandleWindowUpdate(f);
        case 9 => HandleContinuation(f);
        case _ =>
      }
      return true;
    }

    method TakePreface(input: Octets) returns (rest: Octets)
      requires Valid()
      modifies this
      ensures Valid() && (Snapshot(), rest) == ConsumePreface(old(Snapshot()), input)
    {
      hide ConsumePreface, Wire, Pending, ConnError;
      rest := input;
      while prefaceGot < PREFACE_LEN && rest != []
        invariant Valid() && ConsumePreface(old(Snapshot()), input) == ConsumePreface(Snapshot(), rest)
        decreases |rest|
      {
        H2Runs.PrefaceTurn(Snapshot(), rest);
        if rest[0] != PREFACE[prefaceGot] as int {
          Fail(E_PROTOCOL_ERROR);
          return;
        }
        prefaceGot := prefaceGot + 1;
        rest := rest[1..];
      }
      H2Runs.PrefaceTurn(Snapshot(), rest);
    }

    /** Consumes input as far as it goes; tells whether the connection is winding down. */
    method FeedInput(input: Octets) returns (rest: Octets, windingDown: bool)
      requires Valid()
      modifies this
      ensures Valid() && (Snapshot(), rest) == Feed(env, old(Snapshot()), input)
      ensures windingDown ==
              (gotError || (closing && ConsumePreface(old(Snapshot()), input).0.prefaceGot >= PREFACE_LEN))
    {
      hide FeedFrames, OnFrame, InSequence, Count, FirstFrame, Read24, ConnError, ConsumePreface;
      rest := TakePreface(input);
      if prefaceGot < PREFACE_LEN {
        return rest, gotError;
      }
      ghost var goal := FeedFrames(env, Snapshot(), rest, Feeding(0, 0));
      var n := Feeding(0, 0);
      while !gotError && |rest| >= FRAME_HDR
        invariant Valid() && goal == FeedFrames(env, Snapshot(), rest, n)
        decreases |rest|
      {
        FeedTurn(env, Snapshot(), rest, n);
        if Read24(rest) > OUR_MAX_FRAME {
          Fail(E_FRAME_SIZE_ERROR);
          return rest, closing || gotError;
        }
        var f := FirstFrame(rest);
        if f.None? {
          return rest, closing || gotError;
        }
        n := Count(n, f.value);
        var consumed := HandleFrame(f.value, n);
        if !consumed {
          return rest, closing || gotError;
        }
        FrameInside(rest);
        rest := rest[FRAME_HDR + |f.value.payload|..];
      }
      FeedTurn(env, Snapshot(), rest, n);
      return rest, closing || gotError;
    }

    // -------------------------------------------------------- sending bodies

    /** DATA frames of one stream until its body is out or it is blocked. */
    method PumpOne(i: nat)
      requires Valid() && i < |streams|
      modifies this
      ensures Valid() && Snapshot() == PumpStream(env.lim, old(Snapshot()), i)
    {
      hide PumpStream, SendChunk;
      ghost var goal := PumpStream(env.lim, Snapshot(), i);
      while streams[i].bodyOff < |streams[i].respBody|
        invariant Valid() && i < |streams| && goal == PumpStream(env.lim, Snapshot(), i)
        decreases |streams[i].respBody| - streams[i].bodyOff
      {
        PumpStreamTurn(env.lim, Snapshot(), i);
        var st := streams[i];
        var win := Min(st.sendWindow, sendWindow);
        if win <= 0 || |out| + FRAME_HDR >= env.lim.maxOutBytes || peerMaxFrame == 0 {
          return;
        }
        var chunk := |st.respBody| - st.bodyOff;
        chunk := Min(Min(chunk, win), Min(peerMaxFrame, env.lim.maxOutBytes - |out| - FRAME_HDR));
        ChunkKeepsBody(Snapshot(), i, chunk);
        SendData(i, chunk);
      }
      PumpStreamTurn(env.lim, Snapshot(), i);
    }

    method SendData(i: nat, chunk: nat)
      requires Valid() && i < |streams| && streams[i].bodyOff + chunk <= |streams[i].respBody|
      modifies this
      ensures Valid() && Snapshot() == SendChunk(old(Snapshot()), i, chunk)
    {
      hide Wire, Pending, OutFrame.Length;
      var st := streams[i];
      var last := st.bodyOff + chunk == |st.respBody|;
      Frame(Data(st.id, last && st.endAfterBody, st.respBody[st.bodyOff..st.bodyOff + chunk]));
      streams := streams[i := st.(bodyOff := st.bodyOff + chunk, sendWindow := st.sendWindow - chunk,
                                  sendDone := st.sendDone || last)];
      sendWindow := sendWindow - chunk;
    }

    method PumpAll()
      requires Valid()
      modifies this
      ensures Valid() && Snapshot() == Pump(env.lim, old(Snapshot()))
    {
      hide PumpStream, PumpFrom, CloseAt;
      ghost var goal := PumpFrom(env.lim, Snapshot(), 0);
      var i := 0;
      while i < |streams|
        invariant Valid() && i <= |streams| && goal == PumpFrom(env.lim, Snapshot(), i)
        decreases |streams| - i
      {
        H2Runs.PumpFromTurn(env.lim, Snapshot(), i);
        if streams[i].respHeadersDone && !streams[i].sendDone {
          PumpOne(i);
        }
        if streams[i].sendDone && streams[i].endStreamRecv {
          H2Runs.OneFewer(Snapshot(), i);
          StreamClose(i);
        } else {
          i := i + 1;
        }
      }
      H2Runs.PumpFromTurn(env.lim, Snapshot(), i);
    }

    method WindDown()
      requires Valid()
      modifies this
      ensures Valid() && Snapshot() == Graceful(old(Snapshot()))
    {
      GoAway(E_NO_ERROR);
      closing := true;
    }

    /** The event loop takes up to `n` octets off the output buffer. */
    method Take(n: nat) returns (octets: Octets)
      requires Valid()
      modifies this
      ensures Valid() && Snapshot() == Drain(old(Snapshot()), n)
      ensures octets + out == old(out)
    {
      var k := if n <= |out| then n else |out|;
      octets := out[..k];
      out := out[k..];
      trace := Then(trace, Drained(k));
    }
  }

  /** An event loop: whatever it does to a connection is a run, so every theorem on runs holds of the object. */
  method Serve(env: Env, actions: seq<Action>) returns (c: Connection, input: Octets)
    ensures fresh(c) && c.env == env && c.Valid() && Server(c.Snapshot(), input) == H2Runs.Run(env, actions)
  {
    hide Feed, Pump, Graceful, Drain, Fresh;
    c := new Connection(env);
    input := [];
    assert actions[..0] == [];
    for k := 0 to |actions|
      invariant fresh(c) && c.env == env && c.Valid() && Server(c.Snapshot(), input) == H2Runs.Run(env, actions[..k])
    {
      assert actions[..k + 1][..k] == actions[..k];
      match actions[k] {
        case DoFeed(octets) =>
          var windingDown;
          input, windingDown := c.FeedInput(input + octets);
        case DoPump => c.PumpAll();
        case DoGraceful => c.WindDown();
        case DoDrain(n) => var sent := c.Take(n);
      }
    }
    assert actions[..|actions|] == actions;
  }

  // ------------------------------------------------------------ small facts for the methods

  lemma FindTurn(streams: seq<Stream>, id: nat, from: nat)
    requires from <= |streams|
    ensures FindFrom(streams, id, from) ==
            if from == |streams| then None
            else if streams[from].id == id then Some(from)
            else FindFrom(streams, id, from + 1)
  {
  }

  lemma RespondFrame(c: Conn, i: nat, r: Response)
    requires i < |c.streams|
    ensures |Respond(c, i, r).streams| == |c.streams|
  {
    hide SendBlock, FieldBlock, HasBody;
    var st := c.streams[i];
    H2Table.SendBlockOnlySends(c, st.id, FieldBlock(r), true, !HasBody(r, st.isHead));
  }

  lemma ConsumeFrame(c: Conn, len: nat)
    ensures ConsumeConn(c, len).streams == c.streams && ConsumeConn(c, len).lastClientId == c.lastClientId
  {
  }

  /** The part of FinishHeaders that concerns a live stream. */
  ghost function AcceptedBlock(env: Env, c: Conn, h: Reassembly, i: nat, request: bool, isHead: bool): Conn
    requires i < |c.streams|
  {
    var st := c.streams[i];
    if h.trailer then
      if !h.endStream then ResetAt(c, i, E_PROTOCOL_ERROR)
      else Dispatch(env, SetStream(c, i, st.(endStreamRecv := true)), i)
    else if !request then ResetAt(c, i, E_PROTOCOL_ERROR)
    else
      var c2 := SetStream(c, i, st.(gotHeaders := true, endStreamRecv := h.endStream, isHead := isHead));
      if h.endStream then Dispatch(env, c2, i) else c2
  }

  /** The part of OnData that stores a body fragment. */
  ghost function TakenBody(env: Env, c: Conn, i: nat, d: Octets, len: nat, end: bool): Conn
    requires i < |c.streams|
  {
    var st := c.streams[i];
    var c1 := ConsumeConn(SetStream(c, i, st.(reqBody := st.reqBody + d)), len);
    if end then Dispatch(env, SetStream(c1, i, c1.streams[i].(endStreamRecv := true)), i)
    else ConsumeStream(c1, i, len)
  }

  lemma NoSettings(c: Conn)
    ensures ApplySettings(c, []) == c
  {
  }

  lemma FrameInside(input: Octets)
    requires FirstFrame(input).Some?
    ensures FRAME_HDR + |FirstFrame(input).value.payload| <= |input|
  {
  }

  lemma ChunkKeepsBody(c: Conn, i: nat, n: nat)
    requires i < |c.streams| && c.streams[i].bodyOff + n <= |c.streams[i].respBody|
    ensures var d := SendChunk(c, i, n);
            && |d.streams| == |c.streams| && d.streams[i].respBody == c.streams[i].respBody
            && d.streams[i].bodyOff == c.streams[i].bodyOff + n
  {
  }

  lemma PumpStreamTurn(lim: Limits, c: Conn, i: nat)
    requires i < |c.streams|
    ensures PumpStream(lim, c, i) ==
            if Sendable(lim, c, i) <= 0 then c else PumpStream(lim, SendChunk(c, i, Sendable(lim, c, i)), i)
  {
  }
}
