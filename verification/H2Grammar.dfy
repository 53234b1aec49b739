/**
  The output grammar (sections 5.1, 6.10 and 8.1 of RFC 9113): after every run, what was sent on
  a stream is a proper beginning of the application's response, and nothing follows its end.
 */
module H2Grammar {
  import opened Bytes
  import opened H2Trace
  import opened H2Spec
  import opened H2Steps
  import opened H2Runs
  import opened H2Table

  /**
    What a peer has seen on a stream: nothing, a reset, or the response's field block in whole
    HEADERS and CONTINUATION frames and then a prefix of its body, END_STREAM coming exactly
    with the last octet, or with the headers when there is no body to send.
   */
  ghost predicate Proper(env: Env, t: Trace, sid: nat) {
    var r := env.app(sid);
    match PhaseOf(t, sid)
    case Idle => true
    case Reset => true
    case Body(block, data) => block == FieldBlock(r) && data <= r.body && HasBody(r, WasHead(t, sid))
    case Ended(block, data, bodyless) =>
      && block == FieldBlock(r)
      && (bodyless <==> !HasBody(r, WasHead(t, sid)))
      && data == if bodyless then [] else r.body
    case _ => false
  }

  ghost predicate StreamPhase(env: Env, t: Trace, st: Stream) {
    && PhaseOf(t, st.id) == (if st.responded && st.bodyOff <= |st.respBody|
                             then Body(FieldBlock(env.app(st.id)), st.respBody[..st.bodyOff]) else Idle)
    && (st.responded ==> st.respBody == env.app(st.id).body && HasBody(env.app(st.id), WasHead(t, st.id)))
  }

  ghost predicate GrammarInv(env: Env, c: Conn) {
    && (forall i | 0 <= i < |c.streams| :: StreamPhase(env, c.trace, c.streams[i]))
    && (forall sid | sid > 0 :: Proper(env, c.trace, sid))
    && (forall sid | sid > c.lastClientId :: PhaseOf(c.trace, sid) == Idle)
    && (c.hdr.active && c.hdr.stream.None? ==> PhaseOf(c.trace, c.hdr.id) == Idle)
    && OpenBlock(c.trace) == 0 && Contiguous(c.trace)
  }

  // ------------------------------------------------------------ events that leave responses alone

  predicate Quiet(e: Event) {
    match e
    case Sent(f) => f.Stream() == 0 && !f.Headers? && !f.Continuation?
    case Dispatched(_, _, _) => false
    case _ => true
  }

  /** Nothing new on any stream. */
  ghost predicate SamePhases(t: Trace, t': Trace) {
    && (forall sid | sid > 0 :: PhaseOf(t', sid) == PhaseOf(t, sid) && WasHead(t', sid) == WasHead(t, sid))
    && (OpenBlock(t) == 0 && Contiguous(t) ==> OpenBlock(t') == 0 && Contiguous(t'))
  }

  lemma QuietEvent(t: Trace, e: Event)
    requires Quiet(e)
    ensures SamePhases(t, Then(t, e))
  {
  }

  /** The same stream as far as its response goes. */
  predicate SameResponse(a: Stream, b: Stream) {
    a.id == b.id && a.responded == b.responded && a.respBody == b.respBody && a.bodyOff == b.bodyOff
  }

  ghost predicate Kin(c: Conn, st: Stream) {
    exists j | 0 <= j < |c.streams| :: SameResponse(c.streams[j], st)
  }

  /** Every stream of `d` is one of `c`, or one opened since. */
  ghost predicate Inherits(c: Conn, d: Conn) {
    forall k | 0 <= k < |d.streams| ::
      (d.streams[k].id > c.lastClientId && !d.streams[k].responded) || Kin(c, d.streams[k])
  }

  lemma SamePhasesKeep(env: Env, c: Conn, d: Conn)
    requires TableInv(env.lim, c) && GrammarInv(env, c) && SamePhases(c.trace, d.trace)
    requires Inherits(c, d) && c.lastClientId <= d.lastClientId
    requires d.hdr.active && d.hdr.stream.None? ==>
               d.hdr.id > c.lastClientId || (c.hdr.active && c.hdr.stream.None? && d.hdr.id == c.hdr.id)
    ensures GrammarInv(env, d)
  {
    hide HdrShape, Distinct, Proper, PhaseOf, WasHead, FieldBlock, HasBody, OpenBlock, Contiguous;
    forall k | 0 <= k < |d.streams|
      ensures StreamPhase(env, d.trace, d.streams[k])
    {
      var st := d.streams[k];
      if !(st.id > c.lastClientId && !st.responded) {
        var j :| 0 <= j < |c.streams| && SameResponse(c.streams[j], st);
        assert StreamShape(env.lim, c, c.streams[j]) && StreamPhase(env, c.trace, c.streams[j]);
      }
    }
    forall sid | sid > 0
      ensures Proper(env, d.trace, sid)
    {
      SameProper(env, c.trace, d.trace, sid);
    }
    HdrIdPositive(env.lim, c);
  }

  lemma HdrIdPositive(lim: Limits, c: Conn)
    requires TableInv(lim, c)
    ensures c.hdr.active ==> c.hdr.id > 0
  {
  }

  lemma Inherited(c: Conn, d: Conn, k: nat, j: nat)
    requires k < |d.streams| && j < |c.streams| && SameResponse(c.streams[j], d.streams[k])
    ensures Kin(c, d.streams[k])
  {
  }

  /** Same slots, each with the same response. */
  lemma InheritsSlots(c: Conn, d: Conn)
    requires |d.streams| == |c.streams| && forall k | 0 <= k < |c.streams| :: SameResponse(c.streams[k], d.streams[k])
    ensures Inherits(c, d)
  {
    forall k | 0 <= k < |d.streams|
      ensures Kin(c, d.streams[k])
    {
      Inherited(c, d, k, k);
    }
  }

  lemma InheritsClose(c: Conn, d: Conn, i: nat)
    requires i < |c.streams| && d.streams == CloseAt(c, i).streams
    ensures Inherits(c, d)
  {
    forall k | 0 <= k < |d.streams|
      ensures Kin(c, d.streams[k])
    {
      ClosedSlots(c, i, k);
      Inherited(c, d, k, if k == i then |c.streams| - 1 else k);
    }
  }

  lemma InheritsOpen(env: Env, c: Conn, f: InFrame)
    requires f.sid > c.lastClientId
    ensures Inherits(c, BeginStream(env.lim, c, f))
  {
    var d := BeginStream(env.lim, c, f);
    forall k | 0 <= k < |d.streams|
      ensures (d.streams[k].id > c.lastClientId && !d.streams[k].responded) || Kin(c, d.streams[k])
    {
      if k < |c.streams| {
        assert d.streams[k] == c.streams[k];
        Inherited(c, d, k, k);
      }
    }
  }

  // ------------------------------------------------------------ events of one response

  /** Streams other than `sid`, and phases other than that of `sid`, are as before. */
  lemma OtherResponses(env: Env, c: Conn, d: Conn, sid: nat)
    requires TableInv(env.lim, c) && GrammarInv(env, c) && 0 < sid <= c.lastClientId
    requires forall s | s != sid ::
               PhaseOf(d.trace, s) == PhaseOf(c.trace, s) && WasHead(d.trace, s) == WasHead(c.trace, s)
    requires Proper(env, d.trace, sid)
    requires forall k | 0 <= k < |d.streams| ::
               if d.streams[k].id == sid then StreamPhase(env, d.trace, d.streams[k])
               else Kin(c, d.streams[k])
    requires d.lastClientId == c.lastClientId
    requires d.hdr.active && d.hdr.stream.None? ==> d.hdr == c.hdr && d.hdr.id != sid
    requires OpenBlock(d.trace) == 0 && Contiguous(d.trace)
    ensures GrammarInv(env, d)
  {
    hide HdrShape, Distinct, Proper, PhaseOf, WasHead, FieldBlock, HasBody, OpenBlock, Contiguous;
    forall k | 0 <= k < |d.streams|
      ensures StreamPhase(env, d.trace, d.streams[k])
    {
      var st := d.streams[k];
      if st.id != sid {
        var j :| 0 <= j < |c.streams| && SameResponse(c.streams[j], st);
        assert StreamShape(env.lim, c, c.streams[j]) && StreamPhase(env, c.trace, c.streams[j]);
      }
    }
    forall s | s > 0
      ensures Proper(env, d.trace, s)
    {
      if s != sid {
        SameProper(env, c.trace, d.trace, s);
      }
    }
  }

  lemma SameProper(env: Env, t: Trace, t': Trace, sid: nat)
    requires PhaseOf(t', sid) == PhaseOf(t, sid) && WasHead(t', sid) == WasHead(t, sid)
    ensures Proper(env, t', sid) <==> Proper(env, t, sid)
  {
    hide PhaseOf, WasHead, FieldBlock;
  }

  /** RST_STREAM on a stream that is not in the table afterwards. */
  lemma ResetEvent(env: Env, c: Conn, d: Conn, sid: nat, code: nat)
    requires TableInv(env.lim, c) && GrammarInv(env, c) && 0 < sid <= c.lastClientId
    requires PhaseOf(c.trace, sid).Idle? || PhaseOf(c.trace, sid).Body?
    requires d.trace == Then(c.trace, Sent(RstStream(sid, code))) && d.lastClientId == c.lastClientId
    requires forall k | 0 <= k < |d.streams| ::
               d.streams[k].id != sid && Kin(c, d.streams[k])
    requires !d.hdr.active
    ensures GrammarInv(env, d)
  {
    hide TableInv;
    assert PhaseOf(d.trace, sid) == Reset;
    OtherResponses(env, c, d, sid);
  }

  lemma CancelGrammar(env: Env, c: Conn, a: Atom)
    requires TableInv(env.lim, c) && GrammarInv(env, c) && a.Cancel? && Enabled(env, c, a)
    ensures GrammarInv(env, Do(env, c, a))
  {
    var d := Do(env, c, a);
    var i, sid := a.slot, c.streams[a.slot].id;
    assert StreamShape(env.lim, c, c.streams[i]) && StreamPhase(env, c.trace, c.streams[i]);
    assert d.streams == CloseAt(c, i).streams;
    assert Distinct(c.streams);
    hide GrammarInv, HdrShape, PhaseOf, FieldBlock;
    InheritsClose(c, d, i);
    forall k | 0 <= k < |d.streams|
      ensures d.streams[k].id != sid && Kin(c, d.streams[k])
    {
      ClosedSlots(c, i, k);
      Inherited(c, d, k, if k == i then |c.streams| - 1 else k);
    }
    ResetEvent(env, c, d, sid, a.code);
  }

  lemma RefuseGrammar(env: Env, c: Conn, a: Atom)
    requires TableInv(env.lim, c) && GrammarInv(env, c) && a.Refuse? && Enabled(env, c, a)
    ensures GrammarInv(env, Do(env, c, a))
  {
    var d := Do(env, c, a);
    assert HdrShape(c);
    hide PhaseOf, FieldBlock;
    forall k | 0 <= k < |d.streams|
      ensures d.streams[k].id != c.hdr.id && Kin(c, d.streams[k])
    {
      Inherited(c, d, k, k);
    }
    ResetEvent(env, c, d, c.hdr.id, a.code);
  }

  // ------------------------------------------------------------ sending a response

  /** A field block of which `sent` is on the wire, all of it in the open block. */
  ghost predicate Sending(t: Trace, sid: nat, first: bool, endStream: bool, sent: Octets) {
    && Contiguous(t)
    && if first then sent == [] && PhaseOf(t, sid) == Idle && OpenBlock(t) == 0
       else PhaseOf(t, sid) == InHeaders(sent, endStream) && OpenBlock(t) == sid
  }

  lemma Fragment(t: Trace, sid: nat, first: bool, endStream: bool, endHeaders: bool, frag: Octets, sent: Octets)
    requires sid > 0 && Sending(t, sid, first, endStream, sent)
    ensures var f := if first then Headers(sid, endStream, endHeaders, frag) else Continuation(sid, endHeaders, frag);
            var t' := Then(t, Sent(f));
            && PhaseOf(t', sid) == HeadersEnd(sent + frag, endStream, endHeaders)
            && OpenBlock(t') == (if endHeaders then 0 else sid) && Contiguous(t')
  {
    assert sent == [] ==> sent + frag == frag;
  }

  /** The fragments of a field block put together, and nothing between them. */
  lemma {:induction false} SendBlockPhase(c: Conn, sid: nat, block: Octets, first: bool, endStream: bool, sent: Octets)
    requires sid > 0 && Sending(c.trace, sid, first, endStream, sent)
    ensures var t := SendBlock(c, sid, block, first, endStream).trace;
            && PhaseOf(t, sid) == HeadersEnd(sent + block, endStream, true)
            && OpenBlock(t) == 0 && Contiguous(t)
    decreases |block|
  {
    hide PhaseOf, OpenBlock, Contiguous;
    var maxf := FrameLimit(c);
    if |block| > maxf {
      var head, rest := block[..maxf], block[maxf..];
      var f := if first then Headers(sid, endStream, false, head) else Continuation(sid, false, head);
      Fragment(c.trace, sid, first, endStream, false, head, sent);
      SendBlockPhase(Emit(c, f), sid, rest, false, endStream, sent + head);
      assert sent + head + rest == sent + block;
    } else {
      Fragment(c.trace, sid, first, endStream, true, block, sent);
    }
  }

  lemma {:induction false} SendBlockOthers(c: Conn, sid: nat, block: Octets, first: bool, endStream: bool, s: nat)
    ensures var t := SendBlock(c, sid, block, first, endStream).trace;
            && (s != sid ==> PhaseOf(t, s) == PhaseOf(c.trace, s))
            && WasHead(t, s) == WasHead(c.trace, s)
    decreases |block|
  {
    var maxf := FrameLimit(c);
    if |block| > maxf {
      var head, rest := block[..maxf], block[maxf..];
      var f := if first then Headers(sid, endStream, false, head) else Continuation(sid, false, head);
      SendBlockOthers(Emit(c, f), sid, rest, false, endStream, s);
    }
  }

  lemma DispatchPhase(env: Env, c: Conn, i: nat)
    requires i < |c.streams| && !c.streams[i].dispatched && !c.streams[i].responded && c.streams[i].id > 0
    requires PhaseOf(c.trace, c.streams[i].id) == Idle && OpenBlock(c.trace) == 0 && Contiguous(c.trace)
    ensures var st, t := c.streams[i], Dispatch(env, c, i).trace;
            var r := env.app(st.id);
            && PhaseOf(t, st.id) == HeadersEnd(FieldBlock(r), !HasBody(r, st.isHead), true)
            && WasHead(t, st.id) == st.isHead
            && OpenBlock(t) == 0 && Contiguous(t)
            && forall s | s != st.id :: PhaseOf(t, s) == PhaseOf(c.trace, s) && WasHead(t, s) == WasHead(c.trace, s)
  {
    var st := c.streams[i];
    var r := env.app(st.id);
    var c1 := Note(SetStream(c, i, st.(dispatched := true)), Dispatched(st.id, st.isHead, st.reqBody));
    var block, es := FieldBlock(r), !HasBody(r, st.isHead);
    hide FieldBlock, SendBlock, Dispatch, HasBody;
    DispatchTrace(env, c, i);
    SendBlockPhase(c1, st.id, block, true, es, []);
    assert [] + block == block;
    forall s
      ensures s != st.id ==> PhaseOf(Dispatch(env, c, i).trace, s) == PhaseOf(c.trace, s)
      ensures WasHead(Dispatch(env, c, i).trace, s) == WasHead(c1.trace, s)
    {
      SendBlockOthers(c1, st.id, block, true, es, s);
    }
  }

  lemma FinishGrammar(env: Env, c: Conn, a: Atom)
    requires TableInv(env.lim, c) && GrammarInv(env, c) && a.Finish? && Enabled(env, c, a)
    ensures GrammarInv(env, Do(env, c, a))
  {
    var d := Do(env, c, a);
    var i, st := a.slot, c.streams[a.slot];
    assert StreamShape(env.lim, c, st) && StreamPhase(env, c.trace, st) && OpenBlock(c.trace) == 0
           && Contiguous(c.trace);
    assert Distinct(c.streams);
    var st1 := st.(gotHeaders := true, endStreamRecv := true, isHead := a.isHead);
    var c1 := SetStream(EndBlock(c, a.blocks), i, st1);
    FinishShape(env, c, a);
    hide HdrShape, GrammarInv, PhaseOf, FieldBlock, HasBody, Dispatch, OpenBlock, Contiguous, CloseAt, WasHead,
         TableInv;
    hide SawEndStream;
    assert d == Dispatch(env, c1, i);
    hide Do;
    DispatchPhase(env, c1, i);
    FinishStreams(env, c, d, a);
    FinishProper(env, d, st, a.isHead);
    OtherResponses(env, c, d, st.id);
  }

  lemma FinishProper(env: Env, d: Conn, st: Stream, isHead: bool)
    requires var r := env.app(st.id);
             && PhaseOf(d.trace, st.id) == HeadersEnd(FieldBlock(r), !HasBody(r, isHead), true)
             && WasHead(d.trace, st.id) == isHead
    ensures Proper(env, d.trace, st.id)
  {
    hide PhaseOf, FieldBlock, WasHead;
  }

  /** The finished stream shows its response so far, or is gone; the others are untouched. */
  lemma FinishStreams(env: Env, c: Conn, d: Conn, a: Atom)
    requires a.Finish? && Enabled(env, c, a) && Distinct(c.streams)
    requires StreamShape(env.lim, c, c.streams[a.slot]) && !c.streams[a.slot].endStreamRecv
    requires var st := c.streams[a.slot];
             var r := env.app(st.id);
             var st' := Answered(st.(gotHeaders := true, endStreamRecv := true, isHead := a.isHead), r);
             var c1 := SetStream(EndBlock(c, a.blocks), a.slot, st');
             && d.streams == (if st'.sendDone then CloseAt(c1, a.slot) else c1).streams
             && PhaseOf(d.trace, st.id) == HeadersEnd(FieldBlock(r), !HasBody(r, a.isHead), true)
             && WasHead(d.trace, st.id) == a.isHead
    ensures forall k | 0 <= k < |d.streams| ::
              if d.streams[k].id == c.streams[a.slot].id then StreamPhase(env, d.trace, d.streams[k])
              else Kin(c, d.streams[k])
  {
    hide PhaseOf, FieldBlock, WasHead, HasBody, SawEndStream;
    var i, st := a.slot, c.streams[a.slot];
    var r := env.app(st.id);
    var st' := Answered(st.(gotHeaders := true, endStreamRecv := true, isHead := a.isHead), r);
    var c1 := SetStream(EndBlock(c, a.blocks), i, st');
    forall k | 0 <= k < |d.streams|
      ensures if d.streams[k].id == st.id then StreamPhase(env, d.trace, d.streams[k])
              else Kin(c, d.streams[k])
    {
      if st'.sendDone {
        ClosedSlots(c1, i, k);
        Inherited(c, d, k, if k == i then |c.streams| - 1 else k);
      } else if k == i {
        assert st'.respBody == r.body && st'.respBody[..0] == [];
      } else {
        Inherited(c, d, k, k);
      }
    }
  }

  // ------------------------------------------------------------ sending a body

  lemma ChunkPhase(env: Env, c: Conn, i: nat, block: Octets, data: Octets)
    requires Pumpable(c, i) && Sendable(env.lim, c, i) > 0 && c.streams[i].id > 0
    requires PhaseOf(c.trace, c.streams[i].id) == Body(block, data)
    ensures var n, st := Sendable(env.lim, c, i), c.streams[i];
            var t := SendChunk(c, i, n).trace;
            var data' := data + st.respBody[st.bodyOff..st.bodyOff + n];
            && PhaseOf(t, st.id) ==
               (if st.bodyOff + n == |st.respBody| && st.endAfterBody then Ended(block, data', false)
                else Body(block, data'))
  {
  }

  /** A chunk changes nothing on other streams, nor the framing of header blocks. */
  lemma ChunkOthers(env: Env, c: Conn, i: nat)
    requires Pumpable(c, i) && Sendable(env.lim, c, i) > 0
    requires OpenBlock(c.trace) == 0 && Contiguous(c.trace)
    ensures var t := SendChunk(c, i, Sendable(env.lim, c, i)).trace;
            && OpenBlock(t) == 0 && Contiguous(t)
            && (forall s :: WasHead(t, s) == WasHead(c.trace, s))
            && forall s | s != c.streams[i].id :: PhaseOf(t, s) == PhaseOf(c.trace, s)
  {
  }

  /** The response so far, one chunk later. */
  lemma ChunkText(env: Env, c: Conn, i: nat)
    requires Pumpable(c, i) && Sendable(env.lim, c, i) > 0
    requires StreamPhase(env, c.trace, c.streams[i]) && StreamShape(env.lim, c, c.streams[i])
    requires OpenBlock(c.trace) == 0 && Contiguous(c.trace)
    ensures var n, st := Sendable(env.lim, c, i), c.streams[i];
            var t, block := SendChunk(c, i, n).trace, FieldBlock(env.app(st.id));
            && WasHead(t, st.id) == WasHead(c.trace, st.id)
            && PhaseOf(t, st.id) == (if st.bodyOff + n == |st.respBody| then Ended(block, st.respBody, false)
                                     else Body(block, st.respBody[..st.bodyOff + n]))
  {
    hide PhaseOf, FieldBlock, HasBody, OpenBlock, Contiguous, WasHead, Sendable, SendChunk;
    var n, st := Sendable(env.lim, c, i), c.streams[i];
    ChunkPhase(env, c, i, FieldBlock(env.app(st.id)), st.respBody[..st.bodyOff]);
    ChunkOthers(env, c, i);
    Slices(st.respBody, st.bodyOff, st.bodyOff + n);
  }

  lemma Slices(s: Octets, a: nat, b: nat)
    requires a <= b <= |s|
    ensures s[..a] + s[a..b] == s[..b] && s[..|s|] == s
  {
  }

  /** The stream that sent a chunk, before it is reaped. */
  lemma ChunkOwn(env: Env, c: Conn, i: nat)
    requires Pumpable(c, i) && Sendable(env.lim, c, i) > 0
    requires StreamPhase(env, c.trace, c.streams[i]) && StreamShape(env.lim, c, c.streams[i])
    requires OpenBlock(c.trace) == 0 && Contiguous(c.trace)
    ensures var e := SendChunk(c, i, Sendable(env.lim, c, i));
            && Proper(env, e.trace, c.streams[i].id)
            && (!e.streams[i].sendDone ==> StreamPhase(env, e.trace, e.streams[i]))
  {
    ChunkText(env, c, i);
    hide PhaseOf, FieldBlock, HasBody, OpenBlock, Contiguous, WasHead, Sendable;
  }

  /** The stream that sent a chunk shows it, or is gone; the others are untouched. */
  lemma ChunkStreams(env: Env, c: Conn, i: nat)
    requires Pumpable(c, i) && Sendable(env.lim, c, i) > 0 && Distinct(c.streams)
    requires StreamPhase(env, c.trace, c.streams[i]) && StreamShape(env.lim, c, c.streams[i])
    requires OpenBlock(c.trace) == 0 && Contiguous(c.trace)
    ensures var d := AfterChunk(env.lim, c, i);
            && (forall k | 0 <= k < |d.streams| ::
                  if d.streams[k].id == c.streams[i].id then StreamPhase(env, d.trace, d.streams[k])
                    else Kin(c, d.streams[k]))
            && Proper(env, d.trace, c.streams[i].id)
  {
    hide StreamPhase, StreamShape, Proper, Kin, OpenBlock, Contiguous, Sendable;
    ChunkOwn(env, c, i);
    var st, d := c.streams[i], AfterChunk(env.lim, c, i);
    var e := SendChunk(c, i, Sendable(env.lim, c, i));
    forall k | 0 <= k < |d.streams|
      ensures if d.streams[k].id == st.id then StreamPhase(env, d.trace, d.streams[k]) else Kin(c, d.streams[k])
    {
      if e.streams[i].sendDone {
        ClosedSlots(e, i, k);
        Inherited(c, d, k, if k == i then |c.streams| - 1 else k);
      } else if k != i {
        Inherited(c, d, k, k);
      }
    }
  }

  lemma ChunkGrammar(env: Env, c: Conn, i: nat)
    requires TableInv(env.lim, c) && GrammarInv(env, c) && Pumpable(c, i) && Sendable(env.lim, c, i) > 0
    ensures GrammarInv(env, AfterChunk(env.lim, c, i))
  {
    var st := c.streams[i];
    assert StreamShape(env.lim, c, st) && StreamPhase(env, c.trace, st) && OpenBlock(c.trace) == 0
           && Contiguous(c.trace);
    assert Distinct(c.streams) && HdrShape(c);
    ChunkOthers(env, c, i);
    hide GrammarInv, PhaseOf, FieldBlock, HasBody, OpenBlock, Contiguous, WasHead, TableInv, Sendable, StreamPhase,
         Proper;
    ChunkStreams(env, c, i);
    OtherResponses(env, c, AfterChunk(env.lim, c, i), st.id);
  }

  // ------------------------------------------------------------ every step

  lemma QuietGrammar(env: Env, c: Conn, a: Atom)
    requires TableInv(env.lim, c) && GrammarInv(env, c) && Enabled(env, c, a)
    requires a.Answer? || a.WindDown? || a.Gather? || a.PeerGoaway? || a.Flags? || a.Abandon? || a.Trailer?
    ensures GrammarInv(env, Do(env, c, a))
  {
    var d := Do(env, c, a);
    assert d.trace == c.trace || (d.trace.before == c.trace && Quiet(d.trace.event));
    if d.trace != c.trace {
      QuietEvent(c.trace, d.trace.event);
    }
    assert d.streams == c.streams;
    hide Do, GrammarInv, TableInv, PhaseOf, WasHead, OpenBlock, Contiguous;
    InheritsSlots(c, d);
    SamePhasesKeep(env, c, d);
  }

  lemma BeginGrammar(env: Env, c: Conn, a: Atom)
    requires TableInv(env.lim, c) && GrammarInv(env, c) && a.Begin? && Enabled(env, c, a)
    ensures GrammarInv(env, Do(env, c, a))
  {
    var d := Do(env, c, a);
    assert d.trace == c.trace || (d.trace.before == c.trace && Quiet(d.trace.event));
    if d.trace != c.trace {
      QuietEvent(c.trace, d.trace.event);
    }
    InheritsOpen(env, c, a.frame);
    hide GrammarInv, TableInv, PhaseOf, WasHead, OpenBlock, Contiguous;
    SamePhasesKeep(env, c, d);
  }

  lemma SlotGrammar(env: Env, c: Conn, a: Atom)
    requires TableInv(env.lim, c) && GrammarInv(env, c) && Enabled(env, c, a)
    requires a.Accept? || a.Collect? || a.Close?
    ensures GrammarInv(env, Do(env, c, a))
  {
    var d := Do(env, c, a);
    hide GrammarInv, TableInv, PhaseOf, WasHead, OpenBlock, Contiguous;
    if a.Close? {
      InheritsClose(c, d, a.slot);
    } else {
      InheritsSlots(c, d);
    }
    SamePhasesKeep(env, c, d);
  }

  lemma GrammarAtom(env: Env, c: Conn, a: Atom)
    requires TableInv(env.lim, c) && GrammarInv(env, c) && Enabled(env, c, a)
    ensures GrammarInv(env, Do(env, c, a))
  {
    hide TableInv, Enabled, Do, GrammarInv;
    match a
    case Begin(f) => BeginGrammar(env, c, a);
    case Finish(_, _, _) => FinishGrammar(env, c, a);
    case Cancel(_, _, _) => CancelGrammar(env, c, a);
    case Refuse(_, _) => RefuseGrammar(env, c, a);
    case Accept(_, _, _) => SlotGrammar(env, c, a);
    case Collect(_, _) => SlotGrammar(env, c, a);
    case Close(_, _) => SlotGrammar(env, c, a);
    case _ => QuietGrammar(env, c, a);
  }

  /** A step that adds at most one quiet event and keeps every slot's response. */
  lemma SlotsGrammar(env: Env, c: Conn, d: Conn)
    requires TableInv(env.lim, c) && GrammarInv(env, c)
    requires SamePhases(c.trace, d.trace) && d.hdr == c.hdr && d.lastClientId == c.lastClientId
    requires |d.streams| == |c.streams| && forall k | 0 <= k < |c.streams| :: SameResponse(c.streams[k], d.streams[k])
    ensures GrammarInv(env, d)
  {
    hide TableInv, GrammarInv, SamePhases;
    InheritsSlots(c, d);
    SamePhasesKeep(env, c, d);
  }

  lemma ConsumeConnGrammar(env: Env, c: Conn, len: nat)
    requires TableInv(env.lim, c) && GrammarInv(env, c)
    ensures GrammarInv(env, ConsumeConn(c, len))
  {
    var d := ConsumeConn(c, len);
    ConsumeConnShape(c, len);
    assert d.trace == c.trace || d.trace == Then(c.trace, Sent(WindowUpdate(0, INITIAL_WINDOW - (c.recvWindow - len))));
    hide TableInv, GrammarInv, SamePhases, ConsumeConn;
    if d.trace != c.trace {
      QuietEvent(c.trace, d.trace.event);
    }
    SamePhasesRefl(c.trace);
    SlotsGrammar(env, c, d);
  }

  lemma SamePhasesRefl(t: Trace)
    ensures SamePhases(t, t)
  {
  }

  /** WINDOW_UPDATE goes out only on streams that have not been answered. */
  lemma UpdateEvent(t: Trace, sid: nat, n: nat)
    requires PhaseOf(t, sid) == Idle
    ensures SamePhases(t, Then(t, Sent(WindowUpdate(sid, n))))
  {
  }

  lemma ConsumeStreamGrammar(env: Env, c: Conn, i: nat, len: nat)
    requires TableInv(env.lim, c) && GrammarInv(env, c) && i < |c.streams| && !c.streams[i].endStreamRecv
    ensures GrammarInv(env, ConsumeStream(c, i, len))
  {
    var d := ConsumeStream(c, i, len);
    assert StreamShape(env.lim, c, c.streams[i]) && StreamPhase(env, c.trace, c.streams[i]);
    ConsumeStreamShape(c, i, len);
    ConsumeStreamEvent(c, i, len);
    hide TableInv, GrammarInv, SamePhases, ConsumeStream;
    SamePhasesRefl(c.trace);
    if d.trace != c.trace {
      UpdateEvent(c.trace, c.streams[i].id, d.trace.event.out.increment);
    }
    SlotsGrammar(env, c, d);
  }

  ghost predicate Responds(env: Env, c: Conn) {
    TableInv(env.lim, c) && GrammarInv(env, c)
  }

  ghost function ResponseProperty(env: Env): Property {
    c => Responds(env, c)
  }

  lemma GrammarKept(env: Env)
    ensures Kept(env, ResponseProperty(env))
    ensures IgnoresSendWindows(ResponseProperty(env)) && IgnoresRecvWindows(env, ResponseProperty(env))
  {
    hide TableInv, GrammarInv, Enabled, Do, ConsumeConn, ConsumeStream;
    var P := ResponseProperty(env);
    forall c, a | P(c) && Enabled(env, c, a)
      ensures P(Do(env, c, a))
    {
      TableAtom(env, c, a);
      GrammarAtom(env, c, a);
    }
    forall c, streams, w: int, initial: nat, maxFrame: nat
      | P(c) && SameButSendWindow(c.streams, streams) && initial <= MAX_WINDOW && 16384 <= maxFrame <= 16777215
      ensures P(Tuned(c, streams, w, initial, maxFrame))
    {
      TableSendWindows(env, c, streams, w, initial, maxFrame);
      SamePhasesRefl(c.trace);
      SlotsGrammar(env, c, Tuned(c, streams, w, initial, maxFrame));
    }
    forall c, len: nat | P(c)
      ensures P(ConsumeConn(c, len))
    {
      TableConsumeConn(env, c, len);
      ConsumeConnGrammar(env, c, len);
    }
    forall c, i: nat, len: nat | P(c) && i < |c.streams| && c.streams[i].gotHeaders && !c.streams[i].endStreamRecv
      ensures P(ConsumeStream(c, i, len))
    {
      TableConsumeStream(env, c, i, len);
      ConsumeStreamGrammar(env, c, i, len);
    }
  }

  lemma SeenResponds(env: Env, c: Conn, f: InFrame)
    requires Responds(env, c)
    ensures Responds(env, Seen(c, f))
  {
    hide TableInv, GrammarInv;
    TableSeen(env, c, f);
    QuietEvent(c.trace, Recv(f));
    SlotsGrammar(env, c, Seen(c, f));
  }

  lemma DrainResponds(env: Env, c: Conn, n: nat)
    requires Responds(env, c)
    ensures Responds(env, Drain(c, n))
  {
    hide TableInv, GrammarInv;
    TableDrain(env, c, n);
    QuietEvent(c.trace, Drain(c, n).trace.event);
    SlotsGrammar(env, c, Drain(c, n));
  }

  lemma FreshResponds(env: Env)
    ensures Responds(env, Fresh())
  {
    assert Fresh().trace == Then(Start, Sent(Settings));
    QuietEvent(Start, Sent(Settings));
    assert OpenBlock(Start) == 0 && Contiguous(Start);
    forall sid | sid > 0
      ensures Proper(env, Fresh().trace, sid) && PhaseOf(Fresh().trace, sid) == Idle
    {
      assert PhaseOf(Start, sid) == Idle;
    }
  }

  lemma GrammarInvariant(env: Env)
    ensures Invariant(env, ResponseProperty(env))
  {
    hide Steady, Responds, Kept, OnFrame, AfterChunk, Drain, Fresh, Sendable, IgnoresSendWindows, IgnoresRecvWindows,
         Seen;
    var P := ResponseProperty(env);
    GrammarKept(env);
    KeptSteady(env, P);
    FreshResponds(env);
    forall c: Conn, f: InFrame, n: Feeding | P(c) && !c.gotError && Parsed(f)
      ensures P(OnFrame(env, c, f, n))
    {
      SeenResponds(env, c, f);
      FrameKeeps(env, P, c, f, n);
    }
    forall c, i: nat | P(c) && Pumpable(c, i) && Sendable(env.lim, c, i) > 0
      ensures P(AfterChunk(env.lim, c, i))
    {
      ChunkResponds(env, c, i);
    }
    forall c, n: nat | P(c)
      ensures P(Drain(c, n))
    {
      DrainResponds(env, c, n);
    }
  }

  lemma ChunkResponds(env: Env, c: Conn, i: nat)
    requires Responds(env, c) && Pumpable(c, i) && Sendable(env.lim, c, i) > 0
    ensures Responds(env, AfterChunk(env.lim, c, i))
  {
    hide TableInv, GrammarInv;
    TableChunk(env, c, i);
    ChunkGrammar(env, c, i);
  }

  /**
    Output grammar: whatever the client sends and however the calls fall, every stream shows a
    proper beginning of its response, and header blocks are never interleaved with other frames.
   */
  lemma ResponseGrammar(env: Env, actions: seq<Action>, sid: nat)
    requires sid > 0
    ensures Proper(env, Run(env, actions).conn.trace, sid) && Contiguous(Run(env, actions).conn.trace)
  {
    hide Invariant, Run, TableInv;
    GrammarInvariant(env);
    RunKeeps(env, ResponseProperty(env), actions);
  }
}
