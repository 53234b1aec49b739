/** The shape of the stream table survives everything that can happen to a connection. */
module H2Table {
  import opened Bytes
  import opened H2Trace
  import opened H2Spec
  import opened H2Steps
  import opened H2Runs

  // ------------------------------------------------------------ what the compound steps change

  lemma SendBlockTurn(c: Conn, sid: nat, block: Octets, first: bool, endStream: bool)
    ensures var maxf := FrameLimit(c);
            var last := |block| <= maxf;
            var f := if first then Headers(sid, endStream, last, if last then block else block[..maxf])
                     else Continuation(sid, last, if last then block else block[..maxf]);
            SendBlock(c, sid, block, first, endStream) ==
            if last then Emit(c, f) else SendBlock(Emit(c, f), sid, block[maxf..], false, endStream)
  {
  }

  lemma {:induction false} SendBlockOnlySends(c: Conn, sid: nat, block: Octets, first: bool, endStream: bool)
    ensures var d := SendBlock(c, sid, block, first, endStream);
            d == c.(trace := d.trace, queued := d.queued)
    decreases |block|
  {
    SendBlockTurn(c, sid, block, first, endStream);
    hide SendBlock;
    var maxf := FrameLimit(c);
    if |block| > maxf {
      var f := if first then Headers(sid, endStream, false, block[..maxf]) else Continuation(sid, false, block[..maxf]);
      SendBlockOnlySends(Emit(c, f), sid, block[maxf..], false, endStream);
    }
  }

  /** A stream whose request was handed over and answered. */
  function Answered(st: Stream, r: Response): Stream {
    var body := HasBody(r, st.isHead);
    st.(dispatched := true, responded := true, respHeadersDone := true,
        respBody := if body then st.respBody + r.body else st.respBody,
        endAfterBody := st.endAfterBody || body, sendDone := st.sendDone || !body,
        isHead := false, reqBody := [])
  }

  lemma RespondShape(c: Conn, i: nat, r: Response)
    requires i < |c.streams| && !c.streams[i].responded
    ensures var st := c.streams[i];
            var body := HasBody(r, st.isHead);
            var d := Respond(c, i, r);
            d == c.(trace := d.trace, queued := d.queued,
                    streams := c.streams[i := st.(
                      respHeadersDone := true, responded := true,
                      respBody := if body then st.respBody + r.body else st.respBody,
                      endAfterBody := st.endAfterBody || body, sendDone := st.sendDone || !body)])
  {
    hide FieldBlock, SendBlock, HasBody;
    SendBlockOnlySends(c, c.streams[i].id, FieldBlock(r), true, !HasBody(r, c.streams[i].isHead));
  }

  /** The connection between answering a request and reaping its stream. */
  ghost function HandedOver(env: Env, c: Conn, i: nat): Conn
    requires i < |c.streams|
  {
    var st := c.streams[i];
    var c1 := Note(SetStream(c, i, st.(dispatched := true)), Dispatched(st.id, st.isHead, st.reqBody));
    var c2 := Respond(c1, i, env.app(st.id));
    SetStream(c2, i, c2.streams[i].(isHead := false, reqBody := []))
  }

  lemma DispatchParts(env: Env, c: Conn, i: nat)
    requires i < |c.streams| && !c.streams[i].dispatched
    ensures var d := HandedOver(env, c, i);
            |d.streams| == |c.streams| &&
            Dispatch(env, c, i) == if d.streams[i].sendDone && d.streams[i].endStreamRecv then CloseAt(d, i) else d
  {
    hide SendBlock, FieldBlock, HasBody, CloseAt;
    SendBlockOnlySends(Note(SetStream(c, i, c.streams[i].(dispatched := true)),
                            Dispatched(c.streams[i].id, c.streams[i].isHead, c.streams[i].reqBody)),
                       c.streams[i].id, FieldBlock(env.app(c.streams[i].id)), true,
                       !HasBody(env.app(c.streams[i].id), c.streams[i].isHead));
  }

  lemma HandedOverShape(env: Env, c: Conn, i: nat)
    requires i < |c.streams| && !c.streams[i].responded
    ensures var d := HandedOver(env, c, i);
            d == SetStream(c, i, Answered(c.streams[i], env.app(c.streams[i].id))).(trace := d.trace,
                                                                                    queued := d.queued)
  {
    hide Respond, HasBody;
    var st := c.streams[i];
    var c1 := Note(SetStream(c, i, st.(dispatched := true)), Dispatched(st.id, st.isHead, st.reqBody));
    RespondShape(c1, i, env.app(st.id));
    var d := HandedOver(env, c, i);
    assert d.streams == c.streams[i := d.streams[i]];
  }

  /** Apart from frames sent, dispatching answers one stream and reaps it if it has no body. */
  lemma DispatchShape(env: Env, c: Conn, i: nat)
    requires i < |c.streams| && !c.streams[i].dispatched && !c.streams[i].responded
    ensures var st := Answered(c.streams[i], env.app(c.streams[i].id));
            var c1 := SetStream(c, i, st);
            var d := Dispatch(env, c, i);
            var e := if st.sendDone && st.endStreamRecv then CloseAt(c1, i) else c1;
            d == e.(trace := d.trace, queued := d.queued)
  {
    hide Dispatch, CloseAt, HasBody, HandedOver;
    DispatchParts(env, c, i);
    HandedOverShape(env, c, i);
    var d := HandedOver(env, c, i);
    CloseAside(SetStream(c, i, Answered(c.streams[i], env.app(c.streams[i].id))), i, d.trace, d.queued);
  }

  /** Freeing a slot does not look at frames sent. */
  lemma CloseAside(c: Conn, i: nat, t: Trace, queued: nat)
    requires i < |c.streams|
    ensures CloseAt(c.(trace := t, queued := queued), i) == CloseAt(c, i).(trace := t, queued := queued)
  {
  }

  /** What dispatching adds to the history. */
  lemma DispatchTrace(env: Env, c: Conn, i: nat)
    requires i < |c.streams| && !c.streams[i].dispatched && !c.streams[i].responded
    ensures var st := c.streams[i];
            var r := env.app(st.id);
            var c1 := Note(SetStream(c, i, st.(dispatched := true)), Dispatched(st.id, st.isHead, st.reqBody));
            var d := SendBlock(c1, st.id, FieldBlock(r), true, !HasBody(r, st.isHead));
            Dispatch(env, c, i).trace == d.trace && Dispatch(env, c, i).queued == d.queued
  {
    hide FieldBlock, SendBlock;
  }

  lemma ClosedSlots(c: Conn, i: nat, k: nat)
    requires i < |c.streams| && k < |c.streams| - 1
    ensures |CloseAt(c, i).streams| == |c.streams| - 1
    ensures CloseAt(c, i).streams[k] == if k == i then c.streams[|c.streams| - 1] else c.streams[k]
  {
  }

  // ------------------------------------------------------------ moving parts of the shape

  /** StreamShape looks only at these parts of the connection. */
  lemma ShapeMoves(lim: Limits, c: Conn, d: Conn, st: Stream)
    requires StreamShape(lim, c, st)
    requires c.lastClientId <= d.lastClientId && (c.gotError ==> d.gotError)
    requires st.gotHeaders || d.gotError || (d.hdr.active && d.hdr.stream == Some(st.id))
    ensures StreamShape(lim, d, st)
  {
  }

  /** Replacing slot `i` by a stream of the same id. */
  lemma ReplaceKeeps(lim: Limits, c: Conn, d: Conn, i: nat, st: Stream)
    requires TableInv(lim, c) && i < |c.streams| && st.id == c.streams[i].id
    requires d == c.(streams := c.streams[i := st], hdr := d.hdr, blocks := d.blocks, trace := d.trace,
                     queued := d.queued, recvWindow := d.recvWindow, sendWindow := d.sendWindow)
    requires StreamShape(lim, d, st) && HdrShape(d) && BlockEndSeen(d)
    requires d.hdr == c.hdr || (d.hdr == NO_BLOCK && EndsBlock(c, st.id))
    ensures TableInv(lim, d)
  {
    forall k | 0 <= k < |d.streams|
      ensures StreamShape(lim, d, d.streams[k])
    {
      if k != i {
        assert c.streams[k].id != c.streams[i].id;
      }
    }
  }

  /** Freeing slot `i`, the header block of its stream ending with it. */
  lemma CloseKeeps(lim: Limits, c: Conn, d: Conn, i: nat)
    requires TableInv(lim, c) && i < |c.streams|
    requires d == CloseAt(c, i).(hdr := d.hdr, blocks := d.blocks, trace := d.trace, queued := d.queued,
                                 rapidReset := d.rapidReset)
    requires if d.hdr == c.hdr then c.hdr.stream != Some(c.streams[i].id) && BlockEndSeen(d)
             else d.hdr == NO_BLOCK && EndsBlock(c, c.streams[i].id)
    ensures TableInv(lim, d)
  {
    var n := |c.streams| - 1;
    forall k | 0 <= k < n
      ensures StreamShape(lim, d, d.streams[k]) && d.streams[k].id != c.streams[i].id
    {
      ClosedSlots(c, i, k);
      assert StreamShape(lim, c, c.streams[if k == i then n else k]);
    }
    forall j, k | 0 <= j < k < n
      ensures d.streams[j].id != d.streams[k].id
    {
      ClosedSlots(c, i, j);
      ClosedSlots(c, i, k);
    }
    CloseKeepsHdr(c, d, i);
  }

  lemma CloseKeepsHdr(c: Conn, d: Conn, i: nat)
    requires i < |c.streams| && HdrShape(c) && d.streams == CloseAt(c, i).streams && d.lastClientId == c.lastClientId
    requires if d.hdr == c.hdr then c.hdr.stream != Some(c.streams[i].id) else d.hdr == NO_BLOCK
    ensures HdrShape(d)
  {
    if d.hdr == c.hdr {
      var n := |c.streams| - 1;
      forall k | 0 <= k < n
        ensures d.streams[k] == c.streams[if k == i then n else k]
      {
        ClosedSlots(c, i, k);
      }
      if c.hdr.stream.Some? {
        var j :| 0 <= j < |c.streams| && Awaits(c, c.streams[j]);
        var k := if j == n then i else j;
        assert Awaits(d, d.streams[k]);
      }
    }
  }

  // ------------------------------------------------------------ atomic steps

  lemma BeginKeeps(env: Env, c: Conn, f: InFrame)
    requires TableInv(env.lim, c) && Enabled(env, c, Begin(f))
    ensures TableInv(env.lim, Do(env, c, Begin(f)))
  {
    var d := Do(env, c, Begin(f));
    forall k | 0 <= k < |d.streams|
      ensures StreamShape(env.lim, d, d.streams[k])
    {
      if k < |c.streams| {
        ShapeMoves(env.lim, c, d, c.streams[k]);
      }
    }
    if d.hdr.stream.Some? {
      assert Awaits(d, d.streams[|c.streams|]);
    }
  }

  lemma TrailerKeeps(env: Env, c: Conn, f: InFrame)
    requires TableInv(env.lim, c) && Enabled(env, c, Trailer(f))
    ensures TableInv(env.lim, Do(env, c, Trailer(f)))
  {
    var d := Do(env, c, Trailer(f));
    var i :| 0 <= i < |c.streams| && c.streams[i].id == f.sid && c.streams[i].gotHeaders && !c.streams[i].endStreamRecv;
    assert StreamShape(env.lim, c, c.streams[i]);
    assert Awaits(d, d.streams[i]);
    forall k | 0 <= k < |d.streams|
      ensures StreamShape(env.lim, d, d.streams[k])
    {
      ShapeMoves(env.lim, c, d, c.streams[k]);
    }
  }

  /** Steps that touch neither streams nor header block, or only what the block holds. */
  lemma OtherKeeps(env: Env, c: Conn, d: Conn)
    requires TableInv(env.lim, c) && d.streams == c.streams
    requires d == c.(hdr := d.hdr, blocks := d.blocks, trace := d.trace, queued := d.queued, closing := d.closing,
                     goawaySent := d.goawaySent, gotError := d.gotError, peerGoaway := d.peerGoaway,
                     needSettings := d.needSettings, prefaceGot := d.prefaceGot, recvWindow := d.recvWindow)
    requires d.hdr == NO_BLOCK || d.hdr == c.hdr.(block := d.hdr.block, contCount := d.hdr.contCount)
    requires d.hdr == NO_BLOCK && c.hdr.stream.Some? ==> d.gotError
    requires c.gotError ==> d.gotError
    requires HdrShape(d) && BlockEndSeen(d) && d.prefaceGot <= PREFACE_LEN
    requires d.gotError ==> d.goawaySent
    requires d.goawaySent ==> d.closing
    ensures TableInv(env.lim, d)
  {
    forall k | 0 <= k < |d.streams|
      ensures StreamShape(env.lim, d, d.streams[k])
    {
      ShapeMoves(env.lim, c, d, c.streams[k]);
    }
  }

  lemma SameHdr(c: Conn, d: Conn)
    requires HdrShape(c) && BlockEndSeen(c)
    requires d.streams == c.streams && d.lastClientId == c.lastClientId
    requires d.hdr == if c.hdr.active then c.hdr.(block := d.hdr.block, contCount := d.hdr.contCount) else c.hdr
    requires SawEndStream(c.trace, c.hdr.id) ==> SawEndStream(d.trace, c.hdr.id)
    ensures HdrShape(d) && BlockEndSeen(d)
  {
    if c.hdr.stream.Some? {
      var i :| 0 <= i < |c.streams| && Awaits(c, c.streams[i]);
      assert Awaits(d, d.streams[i]);
    }
  }

  /** What finishing a request leaves behind, apart from frames sent. */
  lemma FinishShape(env: Env, c: Conn, a: Atom)
    requires a.Finish? && Enabled(env, c, a) && !c.streams[a.slot].dispatched && !c.streams[a.slot].responded
    ensures var st := c.streams[a.slot].(gotHeaders := true, endStreamRecv := true, isHead := a.isHead);
            var st' := Answered(st, env.app(st.id));
            var c1 := SetStream(EndBlock(c, a.blocks), a.slot, st');
            var d := Do(env, c, a);
            d == (if st'.sendDone then CloseAt(c1, a.slot) else c1).(trace := d.trace, queued := d.queued)
  {
    hide Dispatch, CloseAt, SawEndStream;
    var i, st := a.slot, c.streams[a.slot];
    var c1 := SetStream(EndBlock(c, a.blocks), i, st.(gotHeaders := true, endStreamRecv := true, isHead := a.isHead));
    DispatchShape(env, c1, i);
    var st' := Answered(c1.streams[i], env.app(st.id));
    assert SetStream(c1, i, st') == SetStream(EndBlock(c, a.blocks), i, st');
  }

  lemma FinishKeeps(env: Env, c: Conn, a: Atom)
    requires TableInv(env.lim, c) && a.Finish? && Enabled(env, c, a)
    ensures TableInv(env.lim, Do(env, c, a))
  {
    var i, st := a.slot, c.streams[a.slot];
    assert StreamShape(env.lim, c, st);
    var d := Do(env, c, a);
    FinishShape(env, c, a);
    hide HdrShape, Distinct, Do, CloseAt, Dispatch;
    var st' := Answered(st.(gotHeaders := true, endStreamRecv := true, isHead := a.isHead), env.app(st.id));
    if st'.sendDone {
      FinishClose(env, c, d, i, st', a.blocks);
    } else {
      EmptyBlock(d);
      AnsweredShape(env, c, d, st, a.isHead);
      ReplaceKeeps(env.lim, c, d, i, st');
    }
  }

  lemma AnsweredShape(env: Env, c: Conn, d: Conn, st: Stream, isHead: bool)
    requires StreamShape(env.lim, c, st) && !st.endStreamRecv && d.lastClientId == c.lastClientId
    requires HasBody(env.app(st.id), isHead)
    ensures var st' := Answered(st.(gotHeaders := true, endStreamRecv := true, isHead := isHead), env.app(st.id));
            StreamShape(env.lim, d, st')
  {
  }

  lemma EmptyBlock(d: Conn)
    requires d.hdr == NO_BLOCK
    ensures HdrShape(d) && BlockEndSeen(d)
  {
  }

  /** Replacing a slot and freeing it at once leaves what freeing it would. */
  lemma FinishClose(env: Env, c: Conn, d: Conn, i: nat, st: Stream, blocks: seq<HeaderBlock>)
    requires TableInv(env.lim, c) && i < |c.streams| && EndsBlock(c, c.streams[i].id)
    requires d == CloseAt(SetStream(EndBlock(c, blocks), i, st), i).(trace := d.trace, queued := d.queued)
    ensures TableInv(env.lim, d)
  {
    assert SetStream(c, i, st).streams[i := c.streams[|c.streams| - 1]] == c.streams[i := c.streams[|c.streams| - 1]] ||
           i == |c.streams| - 1;
    assert d.streams == CloseAt(c, i).streams;
    hide HdrShape, Distinct, StreamShape;
    CloseKeeps(env.lim, c, d, i);
  }

  lemma AcceptKeeps(env: Env, c: Conn, a: Atom)
    requires TableInv(env.lim, c) && a.Accept? && Enabled(env, c, a)
    ensures TableInv(env.lim, Do(env, c, a))
  {
    var i, st := a.slot, c.streams[a.slot];
    var d := Do(env, c, a);
    assert c.hdr.active;
    assert StreamShape(env.lim, c, st);
    EmptyBlock(d);
    hide HdrShape, Distinct;
    ReplaceKeeps(env.lim, c, d, i, st.(gotHeaders := true, isHead := a.isHead));
  }

  lemma CollectKeeps(env: Env, c: Conn, a: Atom)
    requires TableInv(env.lim, c) && a.Collect? && Enabled(env, c, a)
    ensures TableInv(env.lim, Do(env, c, a))
  {
    var i, st := a.slot, c.streams[a.slot];
    var d := Do(env, c, a);
    assert StreamShape(env.lim, c, st);
    var st' := st.(reqBody := a.body);
    if c.hdr.stream.Some? {
      var j :| 0 <= j < |c.streams| && Awaits(c, c.streams[j]);
      assert Awaits(d, d.streams[j]);
    }
    assert HdrShape(d);
    hide HdrShape, Distinct;
    ReplaceKeeps(env.lim, c, d, i, st');
  }

  lemma CloseTable(env: Env, c: Conn, a: Atom)
    requires TableInv(env.lim, c) && a.Close? && Enabled(env, c, a)
    ensures TableInv(env.lim, Do(env, c, a))
  {
    hide HdrShape, StreamShape, Distinct;
    CloseKeeps(env.lim, c, Do(env, c, a), a.slot);
  }

  /** Steps that end a header block without touching a stream. */
  lemma EndTable(env: Env, c: Conn, a: Atom)
    requires TableInv(env.lim, c) && (a.Refuse? || a.Abandon?) && Enabled(env, c, a)
    ensures TableInv(env.lim, Do(env, c, a))
  {
    hide StreamShape, Distinct;
    EmptyBlock(Do(env, c, a));
    OtherKeeps(env, c, Do(env, c, a));
  }

  lemma QuietTable(env: Env, c: Conn, a: Atom)
    requires TableInv(env.lim, c) && Enabled(env, c, a)
    requires a.Answer? || a.WindDown? || a.Gather? || a.PeerGoaway? || a.Flags?
    ensures TableInv(env.lim, Do(env, c, a))
  {
    hide StreamShape, Distinct;
    SameHdr(c, Do(env, c, a));
    OtherKeeps(env, c, Do(env, c, a));
  }

  lemma TableAtom(env: Env, c: Conn, a: Atom)
    requires TableInv(env.lim, c) && Enabled(env, c, a)
    ensures TableInv(env.lim, Do(env, c, a))
  {
    hide TableInv, Enabled, Do;
    match a
    case Begin(f) => BeginKeeps(env, c, f);
    case Trailer(f) => TrailerKeeps(env, c, f);
    case Finish(_, _, _) => FinishKeeps(env, c, a);
    case Accept(_, _, _) => AcceptKeeps(env, c, a);
    case Collect(_, _) => CollectKeeps(env, c, a);
    case Cancel(i, _, _) => CancelTable(env, c, a);
    case Close(i, _) => CloseTable(env, c, a);
    case Refuse(_, _) => EndTable(env, c, a);
    case Abandon(_) => EndTable(env, c, a);
    case _ => QuietTable(env, c, a);
  }

  lemma CancelTable(env: Env, c: Conn, a: Atom)
    requires TableInv(env.lim, c) && a.Cancel? && Enabled(env, c, a)
    ensures TableInv(env.lim, Do(env, c, a))
  {
    hide StreamShape;
    var d := Do(env, c, a);
    assert d.streams == CloseAt(c, a.slot).streams;
    if c.hdr.active {
      CloseKeeps(env.lim, c, d, a.slot);
    } else {
      assert c.hdr == NO_BLOCK;
      CloseKeeps(env.lim, c, d, a.slot);
    }
  }

  // ------------------------------------------------------------ everything else

  lemma TableSendWindows(env: Env, c: Conn, streams: seq<Stream>, w: int, initial: nat, maxFrame: nat)
    requires TableInv(env.lim, c)
    requires SameButSendWindow(c.streams, streams) && initial <= MAX_WINDOW && 16384 <= maxFrame <= 16777215
    ensures TableInv(env.lim, Tuned(c, streams, w, initial, maxFrame))
  {
    var d := Tuned(c, streams, w, initial, maxFrame);
    forall k | 0 <= k < |d.streams|
      ensures StreamShape(env.lim, d, d.streams[k]) && d.streams[k].id == c.streams[k].id
    {
      assert StreamShape(env.lim, c, c.streams[k]);
    }
    if c.hdr.stream.Some? {
      var j :| 0 <= j < |c.streams| && Awaits(c, c.streams[j]);
      assert Awaits(d, d.streams[j]);
    }
  }

  lemma TableConsumeConn(env: Env, c: Conn, len: nat)
    requires TableInv(env.lim, c)
    ensures TableInv(env.lim, ConsumeConn(c, len))
  {
    hide StreamShape, Distinct, ConsumeConn, SawEndStream;
    ConsumeConnShape(c, len);
    SameHdr(c, ConsumeConn(c, len));
    OtherKeeps(env, c, ConsumeConn(c, len));
  }

  lemma ConsumeConnShape(c: Conn, len: nat)
    ensures var d := ConsumeConn(c, len);
            && d == c.(recvWindow := d.recvWindow, trace := d.trace, queued := d.queued)
            && (SawEndStream(d.trace, c.hdr.id) <==> SawEndStream(c.trace, c.hdr.id))
  {
    ConsumeTrace(c, len, c.hdr.id);
    hide SawEndStream;
  }

  lemma ConsumeStreamShape(c: Conn, i: nat, len: nat)
    requires i < |c.streams|
    ensures var d := ConsumeStream(c, i, len);
            && |d.streams| == |c.streams|
            && d.streams[i] == c.streams[i].(recvWindow := d.streams[i].recvWindow)
            && d == c.(streams := c.streams[i := d.streams[i]], trace := d.trace, queued := d.queued)
            && (SawEndStream(d.trace, c.hdr.id) <==> SawEndStream(c.trace, c.hdr.id))
  {
    var st := c.streams[i];
    var w := st.recvWindow - len;
    var w' := if w <= INITIAL_WINDOW - OUR_MAX_FRAME then INITIAL_WINDOW else w;
    var c1 := SetStream(c, i, st.(recvWindow := w'));
    var d := ConsumeStream(c, i, len);
    assert d == c1 || d == Emit(c1, WindowUpdate(st.id, INITIAL_WINDOW - w));
    hide ConsumeStream;
    assert d.streams == c1.streams;
  }

  lemma ConsumeStreamEvent(c: Conn, i: nat, len: nat)
    requires i < |c.streams|
    ensures var d := ConsumeStream(c, i, len);
            d.trace == c.trace ||
            (d.trace.Then? && d.trace.event.Sent? && d.trace.event.out.WindowUpdate? &&
             d.trace == Then(c.trace, Sent(WindowUpdate(c.streams[i].id, d.trace.event.out.increment))))
  {
  }

  lemma TableConsumeStream(env: Env, c: Conn, i: nat, len: nat)
    requires TableInv(env.lim, c) && i < |c.streams|
    ensures TableInv(env.lim, ConsumeStream(c, i, len))
  {
    var d := ConsumeStream(c, i, len);
    assert StreamShape(env.lim, c, c.streams[i]);
    ConsumeStreamShape(c, i, len);
    hide HdrShape, Distinct, ConsumeStream;
    SlotKeepsHdr(c, d, i);
    ReplaceKeeps(env.lim, c, d, i, d.streams[i]);
  }

  /** A slot changed in a way the header block does not care about. */
  lemma SlotKeepsHdr(c: Conn, d: Conn, i: nat)
    requires HdrShape(c) && BlockEndSeen(c) && i < |c.streams| && |d.streams| == |c.streams|
    requires d.streams == c.streams[i := d.streams[i]] && d.hdr == c.hdr && d.lastClientId == c.lastClientId
    requires d.streams[i].id == c.streams[i].id && d.streams[i].gotHeaders == c.streams[i].gotHeaders
    requires d.streams[i].endStreamRecv == c.streams[i].endStreamRecv
    requires SawEndStream(c.trace, c.hdr.id) ==> SawEndStream(d.trace, c.hdr.id)
    ensures HdrShape(d) && BlockEndSeen(d)
  {
    if c.hdr.stream.Some? {
      var j :| 0 <= j < |c.streams| && Awaits(c, c.streams[j]);
      assert Awaits(d, d.streams[j]);
    }
    forall k | 0 <= k < |d.streams|
      ensures d.streams[k].id == c.streams[k].id
    {
    }
  }

  lemma TableChunk(env: Env, c: Conn, i: nat)
    requires TableInv(env.lim, c) && Pumpable(c, i) && Sendable(env.lim, c, i) > 0
    ensures TableInv(env.lim, AfterChunk(env.lim, c, i))
  {
    var d := SendChunk(c, i, Sendable(env.lim, c, i));
    assert StreamShape(env.lim, c, c.streams[i]);
    if d.streams[i].sendDone {
      NotAwaited(env.lim, c, i);
      assert BlockEndSeen(d);
      hide HdrShape, Distinct, StreamShape;
      ReapKeeps(env, c, d, i);
    } else {
      SlotKeepsHdr(c, d, i);
      hide HdrShape, Distinct;
      ReplaceKeeps(env.lim, c, d, i, d.streams[i]);
    }
  }

  /** The stream being reaped is not the one whose header block is in progress. */
  lemma NotAwaited(lim: Limits, c: Conn, i: nat)
    requires TableInv(lim, c) && i < |c.streams| && c.streams[i].endStreamRecv
    ensures c.hdr.stream != Some(c.streams[i].id)
  {
    if c.hdr.stream.Some? {
      var j :| 0 <= j < |c.streams| && Awaits(c, c.streams[j]);
      assert i != j;
    }
  }

  lemma ReapKeeps(env: Env, c: Conn, d: Conn, i: nat)
    requires TableInv(env.lim, c) && i < |c.streams| && c.hdr.stream != Some(c.streams[i].id) && BlockEndSeen(d)
    requires |d.streams| == |c.streams|
    requires d == c.(streams := c.streams[i := d.streams[i]], trace := d.trace, queued := d.queued,
                     sendWindow := d.sendWindow)
    ensures TableInv(env.lim, CloseAt(d, i))
  {
    hide HdrShape, Distinct, StreamShape;
    var e := CloseAt(d, i);
    assert e.streams == CloseAt(c, i).streams;
    CloseKeeps(env.lim, c, e.(sendWindow := c.sendWindow), i);
    SendWindowFree(env.lim, e, c.sendWindow);
  }

  lemma SendWindowFree(lim: Limits, e: Conn, w: int)
    requires TableInv(lim, e.(sendWindow := w))
    ensures TableInv(lim, e)
  {
    var d := e.(sendWindow := w);
    forall k | 0 <= k < |e.streams|
      ensures StreamShape(lim, e, e.streams[k])
    {
      assert StreamShape(lim, d, d.streams[k]);
    }
    if e.hdr.stream.Some? {
      var j :| 0 <= j < |d.streams| && Awaits(d, d.streams[j]);
      assert Awaits(e, e.streams[j]);
    }
  }

  lemma TableDrain(env: Env, c: Conn, n: nat)
    requires TableInv(env.lim, c)
    ensures TableInv(env.lim, Drain(c, n))
  {
    hide StreamShape, Distinct;
    SameHdr(c, Drain(c, n));
    OtherKeeps(env, c, Drain(c, n));
  }

  lemma TableSeen(env: Env, c: Conn, f: InFrame)
    requires TableInv(env.lim, c)
    ensures TableInv(env.lim, Seen(c, f))
  {
    hide StreamShape, Distinct;
    SameHdr(c, Seen(c, f));
    OtherKeeps(env, c, Seen(c, f));
  }
}
