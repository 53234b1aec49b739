/**
  Request bodies (section 8.1 of RFC 9113): what the application is handed is what the DATA frames
  of the stream carried, without padding and within the limit.
 */
module H2Bodies {
  import opened Bytes
  import opened H2Trace
  import opened H2Spec
  import opened H2Steps
  import opened H2Runs
  import opened H2Table

  ghost predicate BodyMatches(t: Trace, st: Stream) {
    st.reqBody == RequestBody(t, st.id)
  }

  /** Streams the client has not ended hold what they carried; streams to come have carried nothing. */
  ghost predicate BodiesMatch(c: Conn) {
    && (forall i | 0 <= i < |c.streams| && !c.streams[i].endStreamRecv :: BodyMatches(c.trace, c.streams[i]))
    && (forall s | s > c.lastClientId :: RequestBody(c.trace, s) == [])
  }

  ghost predicate BodyInv(env: Env, c: Conn) {
    && TableInv(env.lim, c)
    && BodiesIntact(c.trace, env.lim.maxBodyBytes)
    && (!c.gotError ==> BodiesMatch(c))
  }

  ghost function BodyProperty(env: Env): Property {
    c => BodyInv(env, c)
  }

  // ------------------------------------------------------------ events that leave bodies alone

  predicate Neutral(e: Event) {
    match e
    case Recv(f) => f.kind != FT_DATA
    case Dispatched(_, _, _) => false
    case _ => true
  }

  ghost predicate SameBodies(t: Trace, t': Trace, max: nat) {
    && (forall sid :: RequestBody(t', sid) == RequestBody(t, sid))
    && (BodiesIntact(t, max) ==> BodiesIntact(t', max))
  }

  lemma NeutralStep(t: Trace, e: Event, max: nat)
    requires Neutral(e)
    ensures SameBodies(t, Then(t, e), max)
  {
  }

  lemma SameRefl(t: Trace, max: nat)
    ensures SameBodies(t, t, max)
  {
  }

  lemma SameJoin(a: Trace, b: Trace, c: Trace, max: nat)
    requires SameBodies(a, b, max) && SameBodies(b, c, max)
    ensures SameBodies(a, c, max)
  {
    hide RequestBody, BodiesIntact;
  }

  /** If `b` is still open to the client, so was `a`, with the same body. */
  predicate SameBody(a: Stream, b: Stream) {
    a.id == b.id && (b.endStreamRecv || (!a.endStreamRecv && a.reqBody == b.reqBody))
  }

  ghost predicate Kin(c: Conn, st: Stream) {
    || (st.id > c.lastClientId && st.reqBody == [])
    || exists j | 0 <= j < |c.streams| :: SameBody(c.streams[j], st)
  }

  lemma IsKin(c: Conn, st: Stream, j: nat)
    requires j < |c.streams| && SameBody(c.streams[j], st)
    ensures Kin(c, st)
  {
  }

  /** What a step that leaves bodies alone looks like. */
  ghost predicate Quiet(max: nat, c: Conn, d: Conn) {
    && SameBodies(c.trace, d.trace, max)
    && (forall k | 0 <= k < |d.streams| :: Kin(c, d.streams[k]))
    && c.lastClientId <= d.lastClientId && (c.gotError ==> d.gotError)
  }

  lemma MatchKeep(c: Conn, d: Conn, max: nat)
    requires BodiesMatch(c) && Quiet(max, c, d)
    ensures BodiesMatch(d)
  {
    hide RequestBody, BodiesIntact;
    forall k | 0 <= k < |d.streams| && !d.streams[k].endStreamRecv
      ensures BodyMatches(d.trace, d.streams[k])
    {
      var st := d.streams[k];
      if !(st.id > c.lastClientId && st.reqBody == []) {
        var j :| 0 <= j < |c.streams| && SameBody(c.streams[j], st);
        assert BodyMatches(c.trace, c.streams[j]);
      }
    }
  }

  lemma QuietKeeps(env: Env, c: Conn, d: Conn)
    requires BodyInv(env, c) && TableInv(env.lim, d) && Quiet(env.lim.maxBodyBytes, c, d)
    ensures BodyInv(env, d)
  {
    hide TableInv, BodiesMatch, RequestBody, BodiesIntact;
    if !d.gotError {
      MatchKeep(c, d, env.lim.maxBodyBytes);
    }
  }

  /** At most one more event, and a neutral one. */
  ghost predicate OneNeutral(c: Conn, d: Conn) {
    d.trace == c.trace || (d.trace.Then? && d.trace.before == c.trace && Neutral(d.trace.event))
  }

  lemma OneNeutralSame(c: Conn, d: Conn, max: nat)
    requires OneNeutral(c, d)
    ensures SameBodies(c.trace, d.trace, max)
  {
    hide SameBodies;
    SameRefl(c.trace, max);
    if d.trace != c.trace {
      NeutralStep(c.trace, d.trace.event, max);
    }
  }

  lemma KinSlots(c: Conn, d: Conn)
    requires |d.streams| == |c.streams| && forall k | 0 <= k < |c.streams| :: SameBody(c.streams[k], d.streams[k])
    ensures forall k | 0 <= k < |d.streams| :: Kin(c, d.streams[k])
  {
    forall k | 0 <= k < |d.streams|
      ensures Kin(c, d.streams[k])
    {
      IsKin(c, d.streams[k], k);
    }
  }

  /** Freeing a slot after changing it. */
  lemma KinClose(c: Conn, e: Conn, d: Conn, i: nat)
    requires |e.streams| == |c.streams| && i < |c.streams| && d.streams == CloseAt(e, i).streams
    requires forall k | 0 <= k < |c.streams| && k != i :: SameBody(c.streams[k], e.streams[k])
    ensures forall k | 0 <= k < |d.streams| :: Kin(c, d.streams[k])
  {
    forall k | 0 <= k < |d.streams|
      ensures Kin(c, d.streams[k])
    {
      ClosedSlots(e, i, k);
      IsKin(c, d.streams[k], if k == i then |c.streams| - 1 else k);
    }
  }

  // ------------------------------------------------------------ atomic steps

  lemma SlotQuiet(env: Env, c: Conn, a: Atom)
    requires Enabled(env, c, a)
    requires a.Answer? || a.Gather? || a.PeerGoaway? || a.Flags? || a.Trailer? || a.Accept? || a.Refuse? || a.WindDown?
             || a.Abandon?
    ensures Quiet(env.lim.maxBodyBytes, c, Do(env, c, a))
  {
    var d := Do(env, c, a);
    assert OneNeutral(c, d);
    assert |d.streams| == |c.streams| && forall k | 0 <= k < |c.streams| :: SameBody(c.streams[k], d.streams[k]);
    hide SameBodies, OneNeutral;
    OneNeutralSame(c, d, env.lim.maxBodyBytes);
    KinSlots(c, d);
  }

  lemma GoneQuiet(env: Env, c: Conn, a: Atom)
    requires Enabled(env, c, a) && (a.Cancel? || a.Close?)
    ensures Quiet(env.lim.maxBodyBytes, c, Do(env, c, a))
  {
    var d := Do(env, c, a);
    assert OneNeutral(c, d) && d.streams == CloseAt(c, a.slot).streams;
    hide SameBodies, OneNeutral;
    OneNeutralSame(c, d, env.lim.maxBodyBytes);
    KinClose(c, c, d, a.slot);
  }

  lemma BeginQuiet(env: Env, c: Conn, a: Atom)
    requires Enabled(env, c, a) && a.Begin?
    ensures Quiet(env.lim.maxBodyBytes, c, Do(env, c, a))
  {
    var d := Do(env, c, a);
    assert OneNeutral(c, d);
    forall k | 0 <= k < |d.streams|
      ensures Kin(c, d.streams[k])
    {
      if k < |c.streams| {
        assert d.streams[k] == c.streams[k];
        IsKin(c, d.streams[k], k);
      }
    }
    hide SameBodies, OneNeutral;
    OneNeutralSame(c, d, env.lim.maxBodyBytes);
  }

  lemma {:induction false} SendBlockQuiet(c: Conn, sid: nat, block: Octets, first: bool, endStream: bool, max: nat)
    ensures SameBodies(c.trace, SendBlock(c, sid, block, first, endStream).trace, max)
    decreases |block|
  {
    SendBlockTurn(c, sid, block, first, endStream);
    hide SendBlock, SameBodies;
    var maxf := FrameLimit(c);
    var last := |block| <= maxf;
    var chunk := if last then block else block[..maxf];
    var f := if first then Headers(sid, endStream, last, chunk) else Continuation(sid, last, chunk);
    NeutralStep(c.trace, Sent(f), max);
    if !last {
      SendBlockQuiet(Emit(c, f), sid, block[maxf..], false, endStream, max);
      SameJoin(c.trace, Emit(c, f).trace, SendBlock(c, sid, block, first, endStream).trace, max);
    }
  }

  lemma DispatchStep(t: Trace, sid: nat, isHead: bool, body: Octets, max: nat)
    requires body == RequestBody(t, sid) && |body| <= max
    ensures SameBodies(t, Then(t, Dispatched(sid, isHead, body)), max)
  {
  }

  /** A request handed over with the body its stream carried. */
  lemma DispatchQuiet(env: Env, c: Conn, i: nat)
    requires i < |c.streams| && !c.streams[i].dispatched && !c.streams[i].responded
    requires BodyMatches(c.trace, c.streams[i]) && |c.streams[i].reqBody| <= env.lim.maxBodyBytes
    ensures SameBodies(c.trace, Dispatch(env, c, i).trace, env.lim.maxBodyBytes)
  {
    var st, max := c.streams[i], env.lim.maxBodyBytes;
    DispatchStep(c.trace, st.id, st.isHead, st.reqBody, max);
    hide Dispatch, FieldBlock, SendBlock, SameBodies;
    var r := env.app(st.id);
    var c1 := Note(SetStream(c, i, st.(dispatched := true)), Dispatched(st.id, st.isHead, st.reqBody));
    DispatchTrace(env, c, i);
    SendBlockQuiet(c1, st.id, FieldBlock(r), true, !HasBody(r, st.isHead), max);
    SameJoin(c.trace, c1.trace, Dispatch(env, c, i).trace, max);
  }

  lemma FinishBody(env: Env, c: Conn, a: Atom)
    requires BodyInv(env, c) && a.Finish? && Enabled(env, c, a)
    ensures BodyInv(env, Do(env, c, a))
  {
    TableAtom(env, c, a);
    var d := Do(env, c, a);
    var i, st := a.slot, c.streams[a.slot];
    assert StreamShape(env.lim, c, st) && BodyMatches(c.trace, st);
    var st1 := st.(gotHeaders := true, endStreamRecv := true, isHead := a.isHead);
    var c1 := SetStream(EndBlock(c, a.blocks), i, st1);
    FinishShape(env, c, a);
    hide TableInv, Dispatch, CloseAt, SameBodies, SawEndStream, HasBody, BodiesMatch, BodiesIntact, RequestBody;
    assert d == Dispatch(env, c1, i);
    DispatchQuiet(env, c1, i);
    hide Do;
    FinishKin(c, d, i, Answered(st1, env.app(st.id)), a.blocks);
    QuietKeeps(env, c, d);
  }

  lemma FinishKin(c: Conn, d: Conn, i: nat, st: Stream, blocks: seq<HeaderBlock>)
    requires i < |c.streams| && st.id == c.streams[i].id && st.endStreamRecv
    requires var c2 := SetStream(EndBlock(c, blocks), i, st);
             d == (if st.sendDone then CloseAt(c2, i) else c2).(trace := d.trace, queued := d.queued)
    ensures (forall k | 0 <= k < |d.streams| :: Kin(c, d.streams[k])) && d.lastClientId == c.lastClientId
            && d.gotError == c.gotError
  {
    var c2 := SetStream(EndBlock(c, blocks), i, st);
    if st.sendDone {
      KinClose(c, c2, d, i);
    } else {
      KinSlots(c, d);
    }
  }

  lemma AtomBody(env: Env, c: Conn, a: Atom)
    requires BodyInv(env, c) && Enabled(env, c, a) && !a.Collect?
    ensures BodyInv(env, Do(env, c, a))
  {
    if a.Finish? {
      FinishBody(env, c, a);
    } else {
      TableAtom(env, c, a);
      hide TableInv, Enabled, Do, Quiet, BodyInv;
      if a.Begin? {
        BeginQuiet(env, c, a);
      } else if a.Cancel? || a.Close? {
        GoneQuiet(env, c, a);
      } else {
        SlotQuiet(env, c, a);
      }
      QuietKeeps(env, c, Do(env, c, a));
    }
  }

  lemma BodyKept(env: Env)
    ensures Kept(env, BodyProperty(env))
  {
    var P := BodyProperty(env);
    assert forall c | P(c) :: TableInv(env.lim, c);
    hide Enabled, Do, TableInv, BodyInv;
    forall c, a | P(c) && Enabled(env, c, a) && !a.Collect?
      ensures P(Do(env, c, a))
    {
      AtomBody(env, c, a);
    }
  }

  lemma BodyIgnoresSendWindows(env: Env)
    ensures IgnoresSendWindows(BodyProperty(env))
  {
    hide TableInv, BodiesMatch;
    forall c, streams, w: int, initial: nat, maxFrame: nat
      | BodyInv(env, c) && SameButSendWindow(c.streams, streams) && initial <= MAX_WINDOW
         && 16384 <= maxFrame <= 16777215
      ensures BodyInv(env, Tuned(c, streams, w, initial, maxFrame))
    {
      var d := Tuned(c, streams, w, initial, maxFrame);
      TableSendWindows(env, c, streams, w, initial, maxFrame);
      TunedQuiet(c, d, env.lim.maxBodyBytes);
      QuietKeeps(env, c, d);
    }
  }

  lemma TunedQuiet(c: Conn, d: Conn, max: nat)
    requires SameButSendWindow(c.streams, d.streams) && d.trace == c.trace
    requires d.lastClientId == c.lastClientId && d.gotError == c.gotError
    ensures Quiet(max, c, d)
  {
    hide SameBodies;
    SameRefl(c.trace, max);
    KinSlots(c, d);
  }

  // ------------------------------------------------------------ DATA frames

  lemma DataStep(t: Trace, f: InFrame, max: nat)
    requires f.kind == FT_DATA
    ensures var t' := Then(t, Recv(f));
            && (forall s | s != f.sid :: RequestBody(t', s) == RequestBody(t, s))
            && (DataPayload(f).Some? ==> RequestBody(t', f.sid) == RequestBody(t, f.sid) + DataPayload(f).value)
            && (BodiesIntact(t, max) ==> BodiesIntact(t', max))
  {
    hide DataPayload;
    assert forall s | s != f.sid :: RequestBody(t, s) + [] == RequestBody(t, s);
  }

  lemma ErrorBody(env: Env, c: Conn, code: nat)
    requires TableInv(env.lim, c) && BodiesIntact(c.trace, env.lim.maxBodyBytes)
    ensures BodyInv(env, ConnError(c, code))
  {
    TableAtom(env, c, WindDown(code, true));
    assert Do(env, c, WindDown(code, true)) == ConnError(c, code);
  }

  /** Streams other than `sid` hold what they carried. */
  ghost predicate OthersMatch(c: Conn, sid: nat) {
    && (forall i | 0 <= i < |c.streams| && !c.streams[i].endStreamRecv && c.streams[i].id != sid ::
        BodyMatches(c.trace, c.streams[i]))
    && (forall s | s > c.lastClientId :: RequestBody(c.trace, s) == [])
  }

  lemma SeenData(env: Env, c: Conn, f: InFrame)
    requires BodyInv(env, c) && !c.gotError && f.kind == FT_DATA && f.sid <= c.lastClientId
    ensures var d := Seen(c, f);
            && TableInv(env.lim, d) && BodiesIntact(d.trace, env.lim.maxBodyBytes) && OthersMatch(d, f.sid)
            && (DataPayload(f).Some? ==>
                  forall i | 0 <= i < |c.streams| && !c.streams[i].endStreamRecv && c.streams[i].id == f.sid ::
                    RequestBody(d.trace, f.sid) == c.streams[i].reqBody + DataPayload(f).value)
  {
    TableSeen(env, c, f);
    DataStep(c.trace, f, env.lim.maxBodyBytes);
    hide TableInv, RequestBody, BodiesIntact, DataPayload;
    var d := Seen(c, f);
    forall i | 0 <= i < |c.streams| && !c.streams[i].endStreamRecv
      ensures BodyMatches(c.trace, c.streams[i])
    {
    }
  }

  /** DATA on a stream that is gone, or that goes with it: the others do not notice. */
  lemma GoneData(env: Env, c: Conn, d: Conn, sid: nat)
    requires OthersMatch(c, sid) && BodiesIntact(c.trace, env.lim.maxBodyBytes) && TableInv(env.lim, d)
    requires SameBodies(c.trace, d.trace, env.lim.maxBodyBytes) && d.lastClientId == c.lastClientId
    requires forall k | 0 <= k < |d.streams| :: d.streams[k].id != sid && d.streams[k] in c.streams
    ensures BodyInv(env, d)
  {
    hide TableInv, RequestBody, BodiesIntact;
    forall k | 0 <= k < |d.streams| && !d.streams[k].endStreamRecv
      ensures BodyMatches(d.trace, d.streams[k])
    {
      var j :| 0 <= j < |c.streams| && c.streams[j] == d.streams[k];
      assert BodyMatches(c.trace, c.streams[j]);
    }
  }

  lemma ConsumeSame(c: Conn, len: nat, max: nat)
    ensures SameBodies(c.trace, ConsumeConn(c, len).trace, max)
  {
    var d := ConsumeConn(c, len);
    assert OneNeutral(c, d);
    hide SameBodies, OneNeutral, ConsumeConn;
    OneNeutralSame(c, d, max);
  }

  lemma ClosedData(env: Env, c: Conn, f: InFrame)
    requires BodyInv(env, c) && !c.gotError && f.kind == FT_DATA && f.sid <= c.lastClientId && Find(c, f.sid).None?
    ensures BodyInv(env, ConsumeConn(Seen(c, f), |f.payload|))
  {
    var c1 := Seen(c, f);
    SeenData(env, c, f);
    TableConsumeConn(env, c1, |f.payload|);
    ConsumeSame(c1, |f.payload|, env.lim.maxBodyBytes);
    ConsumeConnShape(c1, |f.payload|);
    hide TableInv, BodyInv, OthersMatch, SameBodies, ConsumeConn, BodiesIntact;
    GoneData(env, c1, ConsumeConn(c1, |f.payload|), f.sid);
  }

  /** A stream reset over a DATA frame takes its body with it. */
  lemma DropData(env: Env, c: Conn, f: InFrame, i: nat, code: nat)
    requires BodyInv(env, c) && !c.gotError && !c.hdr.active && f.kind == FT_DATA
    requires i < |c.streams| && c.streams[i].id == f.sid
    ensures BodyInv(env, ConsumeConn(ResetAt(Seen(c, f), i, code), |f.payload|))
  {
    var c1, max := Seen(c, f), env.lim.maxBodyBytes;
    var c2 := ResetAt(c1, i, code);
    assert StreamShape(env.lim, c, c.streams[i]);
    SeenData(env, c, f);
    ResetTable(env, c1, i, code);
    ResetParts(env.lim, c1, i, code, max);
    TableConsumeConn(env, c2, |f.payload|);
    ConsumeSame(c2, |f.payload|, max);
    ConsumeConnShape(c2, |f.payload|);
    hide TableInv, BodyInv, OthersMatch, SameBodies, ConsumeConn, BodiesIntact, ResetAt, StreamShape;
    SameJoin(c1.trace, c2.trace, ConsumeConn(c2, |f.payload|).trace, max);
    GoneData(env, c1, ConsumeConn(c2, |f.payload|), f.sid);
  }

  lemma ResetTable(env: Env, c: Conn, i: nat, code: nat)
    requires TableInv(env.lim, c) && !c.hdr.active && i < |c.streams|
    ensures TableInv(env.lim, ResetAt(c, i, code))
  {
    assert HdrShape(c);
    TableAtom(env, c, Cancel(i, code, c.blocks));
    assert Do(env, c, Cancel(i, code, c.blocks)) == ResetAt(c, i, code);
  }

  lemma ResetParts(lim: Limits, c: Conn, i: nat, code: nat, max: nat)
    requires TableInv(lim, c) && i < |c.streams|
    ensures var d := ResetAt(c, i, code);
            && SameBodies(c.trace, d.trace, max) && d.lastClientId == c.lastClientId && d.gotError == c.gotError
            && forall k | 0 <= k < |d.streams| :: d.streams[k].id != c.streams[i].id && d.streams[k] in c.streams
  {
    var d := ResetAt(c, i, code);
    assert Distinct(c.streams);
    hide StreamShape, HdrShape;
    NeutralStep(c.trace, d.trace.event, max);
    hide SameBodies;
    forall k | 0 <= k < |d.streams|
      ensures d.streams[k].id != c.streams[i].id && d.streams[k] in c.streams
    {
      ClosedSlots(c, i, k);
    }
  }

  /** Storing the payload settles the account of its stream. */
  lemma StoredData(env: Env, c: Conn, f: InFrame, i: nat)
    requires BodyInv(env, c) && !c.gotError && !c.hdr.active && f.kind == FT_DATA && DataPayload(f).Some?
    requires i < |c.streams| && c.streams[i].id == f.sid && !c.streams[i].endStreamRecv
    requires |c.streams[i].reqBody| + |DataPayload(f).value| <= env.lim.maxBodyBytes
    ensures BodyInv(env,
                    SetStream(Seen(c, f), i, c.streams[i].(reqBody := c.streams[i].reqBody + DataPayload(f).value)))
  {
    var c1 := Seen(c, f);
    var body := c.streams[i].reqBody + DataPayload(f).value;
    var d := SetStream(c1, i, c.streams[i].(reqBody := body));
    assert StreamShape(env.lim, c, c.streams[i]) && Distinct(c.streams);
    SeenData(env, c, f);
    TableAtom(env, c1, Collect(i, body));
    assert d == Do(env, c1, Collect(i, body));
    hide TableInv, RequestBody, BodiesIntact, DataPayload, StreamShape, Do;
    forall k | 0 <= k < |d.streams| && !d.streams[k].endStreamRecv
      ensures BodyMatches(d.trace, d.streams[k])
    {
      if k != i {
        assert c.streams[k].id != c.streams[i].id;
        assert BodyMatches(c1.trace, c1.streams[k]);
      }
    }
  }

  lemma ConsumeBody(env: Env, c: Conn, len: nat)
    requires BodyInv(env, c)
    ensures BodyInv(env, ConsumeConn(c, len))
  {
    TableConsumeConn(env, c, len);
    ConsumeSame(c, len, env.lim.maxBodyBytes);
    ConsumeConnShape(c, len);
    hide TableInv, BodiesMatch, SameBodies, ConsumeConn;
    KinSlots(c, ConsumeConn(c, len));
    QuietKeeps(env, c, ConsumeConn(c, len));
  }

  lemma ConsumeStreamBody(env: Env, c: Conn, i: nat, len: nat)
    requires BodyInv(env, c) && i < |c.streams|
    ensures BodyInv(env, ConsumeStream(c, i, len))
  {
    var d := ConsumeStream(c, i, len);
    TableConsumeStream(env, c, i, len);
    ConsumeStreamShape(c, i, len);
    ConsumeStreamEvent(c, i, len);
    hide TableInv, BodiesMatch, SameBodies, ConsumeStream;
    OneNeutralSame(c, d, env.lim.maxBodyBytes);
    KinSlots(c, d);
    QuietKeeps(env, c, d);
  }

  lemma TakenData(env: Env, c: Conn, f: InFrame, i: nat)
    requires BodyInv(env, c) && !c.gotError && !c.hdr.active && f.kind == FT_DATA && DataPayload(f).Some?
    requires i < |c.streams| && c.streams[i].id == f.sid && c.streams[i].gotHeaders && !c.streams[i].endStreamRecv
    requires |c.streams[i].reqBody| + |DataPayload(f).value| <= env.lim.maxBodyBytes
    ensures var st := c.streams[i].(reqBody := c.streams[i].reqBody + DataPayload(f).value);
            var c1 := ConsumeConn(SetStream(Seen(c, f), i, st), |f.payload|);
            && |c1.streams| == |c.streams|
            && if f.EndStream()
               then BodyInv(env, Dispatch(env, SetStream(c1, i, c1.streams[i].(endStreamRecv := true)), i))
               else BodyInv(env, ConsumeStream(c1, i, |f.payload|))
  {
    var len := |f.payload|;
    assert f.EndStream() ==> SawEndStream(Seen(c, f).trace, f.sid);
    hide BodyInv, ConsumeConn, ConsumeStream, Dispatch, Kept, SawEndStream, DataPayload;
    StoredData(env, c, f, i);
    var c0 := SetStream(Seen(c, f), i, c.streams[i].(reqBody := c.streams[i].reqBody + DataPayload(f).value));
    ConsumeBody(env, c0, len);
    ConsumeConnShape(c0, len);
    var c1 := ConsumeConn(c0, len);
    if f.EndStream() {
      ConsumeTrace(c0, len, f.sid);
      BodyKept(env);
      DataEndKeeps(env, BodyProperty(env), c1, i);
    } else {
      ConsumeStreamBody(env, c1, i, len);
    }
  }

  lemma DataBody(env: Env, c: Conn, f: InFrame)
    requires BodyInv(env, c) && !c.gotError && f.kind == FT_DATA && !c.hdr.active
    ensures BodyInv(env, OnData(env, Seen(c, f), f))
  {
    var c1, len, slot := Seen(c, f), |f.payload|, Find(c, f.sid);
    assert Find(c1, f.sid) == slot;
    DataErrors(env, c, f);
    hide TableInv, BodyInv, ConnError, ResetAt, ConsumeConn, ConsumeStream, Dispatch, DataPayload, Find;
    if f.sid != 0 && len <= c.recvWindow {
      if slot.None? {
        if f.sid <= c.lastClientId {
          ClosedData(env, c, f);
        }
      } else {
        OpenData(env, c, f, slot.value);
      }
    }
  }

  /** The DATA handler for a stream in the table. */
  lemma OnOpenStream(env: Env, c: Conn, f: InFrame, i: nat)
    requires f.sid != 0 && |f.payload| <= c.recvWindow && i < |c.streams| && Find(c, f.sid) == Some(i)
    ensures var st, len, d := c.streams[i], |f.payload|, DataPayload(f);
            OnData(env, c, f) ==
            if st.endStreamRecv || !st.gotHeaders then ConnError(c, E_STREAM_CLOSED)
            else if len > st.recvWindow then ConsumeConn(ResetAt(c, i, E_FLOW_CONTROL_ERROR), len)
            else if d.None? then ConnError(c, E_PROTOCOL_ERROR)
            else if |st.reqBody| + |d.value| > env.lim.maxBodyBytes
              then ConsumeConn(ResetAt(c, i, E_ENHANCE_YOUR_CALM), len)
            else
              var c1 := ConsumeConn(SetStream(c, i, st.(reqBody := st.reqBody + d.value)), len);
              if i >= |c1.streams| then c1
              else if f.EndStream() then Dispatch(env, SetStream(c1, i, c1.streams[i].(endStreamRecv := true)), i)
              else ConsumeStream(c1, i, len)
  {
    hide ConnError, ResetAt, ConsumeStream, Dispatch, DataPayload, Find;
  }

  lemma OpenData(env: Env, c: Conn, f: InFrame, i: nat)
    requires BodyInv(env, c) && !c.gotError && f.kind == FT_DATA && !c.hdr.active && f.sid != 0
             && |f.payload| <= c.recvWindow
    requires i < |c.streams| && c.streams[i].id == f.sid && Find(Seen(c, f), f.sid) == Some(i)
    ensures BodyInv(env, OnData(env, Seen(c, f), f))
  {
    OnOpenStream(env, Seen(c, f), f, i);
    DataErrors(env, c, f);
    hide OnData, TableInv, BodyInv, ConnError, ResetAt, ConsumeConn, ConsumeStream, Dispatch, DataPayload, Find;
    var st, d := c.streams[i], DataPayload(f);
    if !st.endStreamRecv && st.gotHeaders {
      DropData(env, c, f, i, E_FLOW_CONTROL_ERROR);
      DropData(env, c, f, i, E_ENHANCE_YOUR_CALM);
      if d.Some? && |st.reqBody| + |d.value| <= env.lim.maxBodyBytes {
        TakenData(env, c, f, i);
      }
    }
  }

  lemma DataErrors(env: Env, c: Conn, f: InFrame)
    requires BodyInv(env, c) && f.kind == FT_DATA
    ensures var c1 := Seen(c, f);
            && BodyInv(env, ConnError(c1, E_PROTOCOL_ERROR)) && BodyInv(env, ConnError(c1, E_FLOW_CONTROL_ERROR))
            && BodyInv(env, ConnError(c1, E_STREAM_CLOSED))
            && BodyInv(env, ConnError(ConsumeConn(c1, |f.payload|), E_PROTOCOL_ERROR))
  {
    var c1 := Seen(c, f);
    TableSeen(env, c, f);
    DataStep(c.trace, f, env.lim.maxBodyBytes);
    TableConsumeConn(env, c1, |f.payload|);
    ConsumeSame(c1, |f.payload|, env.lim.maxBodyBytes);
    hide TableInv, ConnError, ConsumeConn, BodyInv, RequestBody, BodiesIntact, DataPayload;
    ErrorBody(env, c1, E_PROTOCOL_ERROR);
    ErrorBody(env, c1, E_FLOW_CONTROL_ERROR);
    ErrorBody(env, c1, E_STREAM_CLOSED);
    ErrorBody(env, ConsumeConn(c1, |f.payload|), E_PROTOCOL_ERROR);
  }

  // ------------------------------------------------------------ everything

  lemma SeenBody(env: Env, c: Conn, f: InFrame)
    requires BodyInv(env, c) && f.kind != FT_DATA
    ensures BodyInv(env, Seen(c, f))
  {
    TableSeen(env, c, f);
    NeutralStep(c.trace, Recv(f), env.lim.maxBodyBytes);
    KinSlots(c, Seen(c, f));
    hide TableInv, BodiesMatch, SameBodies;
    QuietKeeps(env, c, Seen(c, f));
  }

  lemma OutOfSequenceBody(env: Env, c: Conn, f: InFrame, n: Feeding)
    requires BodyInv(env, c) && !InSequence(c, f)
    ensures BodyInv(env, OnFrame(env, c, f, n))
  {
    var c1, max := Seen(c, f), env.lim.maxBodyBytes;
    if f.kind == FT_DATA {
      DataStep(c.trace, f, max);
    } else {
      NeutralStep(c.trace, Recv(f), max);
    }
    assert BodiesIntact(c1.trace, max);
    hide TableInv, BodiesIntact, RequestBody, BodiesMatch;
    TableSeen(env, c, f);
    PrefaceBound(env.lim, c1);
    var a := Flags(c.needSettings && f.kind != FT_SETTINGS, c1.prefaceGot);
    TableAtom(env, c1, a);
    ErrorBody(env, Do(env, c1, a), E_PROTOCOL_ERROR);
  }

  lemma FrameBody(env: Env, c: Conn, f: InFrame, n: Feeding)
    requires BodyInv(env, c) && !c.gotError && Parsed(f)
    ensures BodyInv(env, OnFrame(env, c, f, n))
  {
    if !InSequence(c, f) {
      OutOfSequenceBody(env, c, f, n);
    } else if f.kind == FT_DATA {
      DataBody(env, c, f);
    } else {
      OtherFrameBody(env, c, f, n);
    }
  }

  lemma OtherFrameBody(env: Env, c: Conn, f: InFrame, n: Feeding)
    requires BodyInv(env, c) && !c.gotError && Parsed(f) && f.kind != FT_DATA
    ensures BodyInv(env, OnFrame(env, c, f, n))
  {
    hide OnFrame, BodyInv, Kept, IgnoresSendWindows;
    SeenBody(env, c, f);
    BodyKept(env);
    BodyIgnoresSendWindows(env);
    FrameKeeps(env, BodyProperty(env), c, f, n);
  }

  lemma ChunkBody(env: Env, c: Conn, i: nat)
    requires BodyInv(env, c) && Pumpable(c, i) && Sendable(env.lim, c, i) > 0
    ensures BodyInv(env, AfterChunk(env.lim, c, i))
  {
    TableChunk(env, c, i);
    var n, d := Sendable(env.lim, c, i), AfterChunk(env.lim, c, i);
    var e := SendChunk(c, i, n);
    ChunkQuiet(c, i, n);
    CloseFrame(e, i);
    hide TableInv, BodiesMatch, SameBodies, Sendable, SendChunk;
    NeutralStep(c.trace, e.trace.event, env.lim.maxBodyBytes);
    if e.streams[i].sendDone {
      KinClose(c, e, d, i);
    } else {
      KinSlots(c, d);
    }
    QuietKeeps(env, c, d);
  }

  lemma ChunkQuiet(c: Conn, i: nat, n: nat)
    requires i < |c.streams| && c.streams[i].bodyOff + n <= |c.streams[i].respBody|
    ensures var e := SendChunk(c, i, n);
            && e.trace.Then? && e.trace.before == c.trace && Neutral(e.trace.event)
            && |e.streams| == |c.streams| && (forall k | 0 <= k < |c.streams| :: SameBody(c.streams[k], e.streams[k]))
            && e.lastClientId == c.lastClientId && e.gotError == c.gotError
  {
  }

  lemma CloseFrame(c: Conn, i: nat)
    requires i < |c.streams|
    ensures CloseAt(c, i).lastClientId == c.lastClientId && CloseAt(c, i).gotError == c.gotError
            && CloseAt(c, i).trace == c.trace
  {
  }

  lemma DrainBody(env: Env, c: Conn, n: nat)
    requires BodyInv(env, c)
    ensures BodyInv(env, Drain(c, n))
  {
    TableDrain(env, c, n);
    var d := Drain(c, n);
    assert d.trace.Then? && d.trace.before == c.trace && Neutral(d.trace.event);
    hide TableInv, BodiesMatch, SameBodies;
    NeutralStep(c.trace, d.trace.event, env.lim.maxBodyBytes);
    KinSlots(c, d);
    QuietKeeps(env, c, d);
  }

  lemma FreshBody(env: Env)
    ensures BodyInv(env, Fresh())
  {
    assert Fresh().trace == Then(Start, Sent(Settings));
    NeutralStep(Start, Sent(Settings), env.lim.maxBodyBytes);
    forall sid: nat
      ensures RequestBody(Start, sid) == []
    {
    }
    assert BodiesIntact(Start, env.lim.maxBodyBytes);
  }

  lemma BodyInvariant(env: Env)
    ensures Invariant(env, BodyProperty(env))
  {
    hide Steady, BodyInv, Kept, OnFrame, AfterChunk, Drain, Fresh, Sendable;
    var P := BodyProperty(env);
    BodyKept(env);
    KeptSteady(env, P);
    FreshBody(env);
    forall c: Conn, f: InFrame, n: Feeding | P(c) && !c.gotError && Parsed(f)
      ensures P(OnFrame(env, c, f, n))
    {
      FrameBody(env, c, f, n);
    }
    forall c, i: nat | P(c) && Pumpable(c, i) && Sendable(env.lim, c, i) > 0
      ensures P(AfterChunk(env.lim, c, i))
    {
      ChunkBody(env, c, i);
    }
    forall c, n: nat | P(c)
      ensures P(Drain(c, n))
    {
      DrainBody(env, c, n);
    }
  }

  /**
    In every run each request is handed over with exactly what the DATA frames of its stream had
    carried, padding removed, and never more than the body limit.
   */
  lemma RequestBodies(env: Env, actions: seq<Action>)
    ensures BodiesIntact(Run(env, actions).conn.trace, env.lim.maxBodyBytes)
  {
    hide Invariant, Run, TableInv;
    BodyInvariant(env);
    RunKeeps(env, BodyProperty(env), actions);
  }
}
