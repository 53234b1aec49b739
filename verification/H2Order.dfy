/**
  The life of streams over a whole run: opened once and with odd ids, within the lifetime limit
  and never after GOAWAY; handed to the application at most once, after the client ended them.
 */
module H2Order {
  import opened Bytes
  import opened H2Trace
  import opened H2Spec
  import opened H2Steps
  import opened H2Runs
  import opened H2Table

  ghost predicate StreamLife(t: Trace, st: Stream) {
    WasOpened(t, st.id) && (WasDispatched(t, st.id) <==> st.dispatched)
  }

  ghost predicate LifeInv(env: Env, c: Conn) {
    && Orderly(c.trace)
    && (SawGoAway(c.trace) <==> c.goawaySent)
    && (forall i | 0 <= i < |c.streams| :: StreamLife(c.trace, c.streams[i]))
    && (forall sid | sid > c.lastClientId :: !WasOpened(c.trace, sid))
    && OpenedInAll(c.trace) <= c.totalStreams
    && (env.lim.maxRequests != 0 ==> OpenedInAll(c.trace) <= env.lim.maxRequests)
    && 2 * c.totalStreams <= c.lastClientId + 1 && c.lastClientId <= MAX_WINDOW
  }

  /** A GOAWAY from the client is remembered, or the connection is in error. */
  ghost predicate PeerInv(c: Conn) {
    SawPeerGoAway(c.trace) ==> c.peerGoaway || c.gotError
  }

  // ------------------------------------------------------------ events that matter to nobody's life

  predicate Uneventful(e: Event) {
    match e
    case Sent(f) => !f.GoAway?
    case Opened(_) => false
    case Dispatched(_, _, _) => false
    case _ => true
  }

  ghost predicate SameLives(t: Trace, t': Trace) {
    && (Orderly(t) ==> Orderly(t'))
    && (SawGoAway(t') <==> SawGoAway(t))
    && OpenedInAll(t') == OpenedInAll(t)
    && forall sid :: (WasOpened(t', sid) <==> WasOpened(t, sid)) && (WasDispatched(t', sid) <==> WasDispatched(t, sid))
  }

  lemma UneventfulStep(t: Trace, e: Event)
    requires Uneventful(e)
    ensures SameLives(t, Then(t, e))
    ensures e.Recv? || (SawPeerGoAway(Then(t, e)) <==> SawPeerGoAway(t))
  {
  }

  lemma SameLivesRefl(t: Trace)
    ensures SameLives(t, t)
  {
  }

  predicate SameLife(a: Stream, b: Stream) {
    a.id == b.id && a.dispatched == b.dispatched
  }

  ghost predicate Kin(c: Conn, st: Stream) {
    exists j | 0 <= j < |c.streams| :: SameLife(c.streams[j], st)
  }

  lemma IsKin(c: Conn, st: Stream, j: nat)
    requires j < |c.streams| && SameLife(c.streams[j], st)
    ensures Kin(c, st)
  {
  }

  /** Nobody is born or handed over; some may be gone. */
  lemma SameLivesKeep(env: Env, c: Conn, d: Conn)
    requires LifeInv(env, c) && SameLives(c.trace, d.trace)
    requires forall k | 0 <= k < |d.streams| :: Kin(c, d.streams[k])
    requires d.lastClientId == c.lastClientId && d.totalStreams == c.totalStreams && d.goawaySent == c.goawaySent
    ensures LifeInv(env, d)
  {
    hide Orderly, WasOpened, WasDispatched, SawGoAway, OpenedInAll;
    forall k | 0 <= k < |d.streams|
      ensures StreamLife(d.trace, d.streams[k])
    {
      var j :| 0 <= j < |c.streams| && SameLife(c.streams[j], d.streams[k]);
      assert StreamLife(c.trace, c.streams[j]);
    }
  }

  lemma KinSlots(c: Conn, d: Conn)
    requires |d.streams| == |c.streams| && forall k | 0 <= k < |c.streams| :: SameLife(c.streams[k], d.streams[k])
    ensures forall k | 0 <= k < |d.streams| :: Kin(c, d.streams[k])
  {
    forall k | 0 <= k < |d.streams|
      ensures Kin(c, d.streams[k])
    {
      IsKin(c, d.streams[k], k);
    }
  }

  lemma KinClose(c: Conn, d: Conn, i: nat)
    requires i < |c.streams| && d.streams == CloseAt(c, i).streams
    ensures forall k | 0 <= k < |d.streams| :: Kin(c, d.streams[k])
  {
    forall k | 0 <= k < |d.streams|
      ensures Kin(c, d.streams[k])
    {
      ClosedSlots(c, i, k);
      IsKin(c, d.streams[k], if k == i then |c.streams| - 1 else k);
    }
  }

  // ------------------------------------------------------------ atomic steps

  ghost predicate OrderInv(env: Env, c: Conn) {
    TableInv(env.lim, c) && LifeInv(env, c) && PeerInv(c)
  }

  /** One more uneventful event at most, slots of the same streams. */
  lemma QuietOrder(env: Env, c: Conn, d: Conn)
    requires OrderInv(env, c)
    requires d.trace == c.trace
             || (d.trace.Then? && d.trace.before == c.trace && Uneventful(d.trace.event) && !d.trace.event.Recv?)
    requires forall k | 0 <= k < |d.streams| :: Kin(c, d.streams[k])
    requires d.lastClientId == c.lastClientId && d.totalStreams == c.totalStreams && d.goawaySent == c.goawaySent
    requires (c.peerGoaway ==> d.peerGoaway) && (c.gotError ==> d.gotError)
    ensures LifeInv(env, d) && PeerInv(d)
  {
    hide TableInv, LifeInv;
    SameLivesRefl(c.trace);
    if d.trace != c.trace {
      UneventfulStep(c.trace, d.trace.event);
    }
    SameLivesKeep(env, c, d);
  }

  lemma SlotOrder(env: Env, c: Conn, a: Atom)
    requires OrderInv(env, c) && Enabled(env, c, a)
    requires a.Answer? || a.Gather? || a.PeerGoaway? || a.Flags? || a.Trailer? || a.Accept? || a.Collect? || a.Refuse?
    ensures LifeInv(env, Do(env, c, a)) && PeerInv(Do(env, c, a))
  {
    hide OrderInv;
    KinSlots(c, Do(env, c, a));
    QuietOrder(env, c, Do(env, c, a));
  }

  lemma GoneOrder(env: Env, c: Conn, a: Atom)
    requires OrderInv(env, c) && Enabled(env, c, a) && (a.Cancel? || a.Close?)
    ensures LifeInv(env, Do(env, c, a)) && PeerInv(Do(env, c, a))
  {
    hide OrderInv;
    assert Do(env, c, a).streams == CloseAt(c, a.slot).streams;
    KinClose(c, Do(env, c, a), a.slot);
    QuietOrder(env, c, Do(env, c, a));
  }

  lemma GoAwayStep(t: Trace, last: nat, code: nat)
    requires Orderly(t) && !SawGoAway(t)
    ensures var t' := Then(t, Sent(GoAway(last, code)));
            && Orderly(t') && SawGoAway(t') && OpenedInAll(t') == OpenedInAll(t)
            && (SawPeerGoAway(t') <==> SawPeerGoAway(t))
            && forall sid :: (WasOpened(t', sid) <==> WasOpened(t, sid)) && (WasDispatched(t', sid) <==>
                                                                             WasDispatched(t, sid))
  {
  }

  /** GOAWAY goes out once. */
  lemma GoawayOrder(env: Env, c: Conn, code: nat)
    requires LifeInv(env, c)
    ensures LifeInv(env, SendGoaway(c, code))
    ensures SawPeerGoAway(SendGoaway(c, code).trace) <==> SawPeerGoAway(c.trace)
  {
    if !c.goawaySent {
      GoAwayStep(c.trace, c.lastClientId, code);
      hide Orderly, WasOpened, WasDispatched, SawGoAway, OpenedInAll, SawPeerGoAway;
      var d := SendGoaway(c, code);
      forall k | 0 <= k < |d.streams|
        ensures StreamLife(d.trace, d.streams[k])
      {
        assert StreamLife(c.trace, c.streams[k]);
      }
    }
  }

  /** LifeInv does not look at the other parts of the connection. */
  lemma LifeFrame(env: Env, c: Conn, d: Conn)
    requires LifeInv(env, c) && d.trace == c.trace && d.streams == c.streams
    requires d.lastClientId == c.lastClientId && d.totalStreams == c.totalStreams && d.goawaySent == c.goawaySent
    ensures LifeInv(env, d)
  {
  }

  lemma WindDownOrder(env: Env, c: Conn, a: Atom)
    requires OrderInv(env, c) && Enabled(env, c, a) && (a.WindDown? || a.Abandon?)
    ensures LifeInv(env, Do(env, c, a)) && PeerInv(Do(env, c, a))
  {
    var code := if a.WindDown? then a.code else E_COMPRESSION_ERROR;
    hide LifeInv, TableInv;
    GoawayOrder(env, c, code);
    LifeFrame(env, SendGoaway(c, code), Do(env, c, a));
  }

  lemma OpenStep(t: Trace, sid: nat)
    requires Orderly(t) && sid % 2 == 1 && !WasOpened(t, sid) && !SawGoAway(t) && !SawPeerGoAway(t)
    ensures var t' := Then(t, Opened(sid));
            && Orderly(t') && !SawGoAway(t') && !SawPeerGoAway(t') && OpenedInAll(t') == OpenedInAll(t) + 1
            && (forall s :: WasOpened(t', s) <==> s == sid || WasOpened(t, s))
            && (forall s :: WasDispatched(t', s) <==> WasDispatched(t, s))
  {
  }

  lemma {:induction false} DispatchedWasOpened(t: Trace, sid: nat)
    requires Orderly(t) && WasDispatched(t, sid)
    ensures WasOpened(t, sid)
  {
    match t
    case Then(p, Dispatched(s, _, _)) =>
      if s != sid {
        DispatchedWasOpened(p, sid);
      }
    case Then(p, _) => DispatchedWasOpened(p, sid);
  }

  lemma BeginOrder(env: Env, c: Conn, a: Atom)
    requires OrderInv(env, c) && a.Begin? && Enabled(env, c, a)
    ensures LifeInv(env, Do(env, c, a)) && PeerInv(Do(env, c, a))
  {
    var f := a.frame;
    var c1 := c.(lastClientId := f.sid, totalStreams := c.totalStreams + 1);
    NextId(env, c, f.sid);
    var d := Do(env, c, a);
    if Refusal(env.lim, c1) == 0 {
      assert !c.closing && !c.peerGoaway && !c.gotError;
      OpenOrder(env, c1, d, f.sid);
    } else {
      hide LifeInv, TableInv;
      GoawayOrder(env, c1, E_NO_ERROR);
      LifeFrame(env, if d.goawaySent == c1.goawaySent then c1 else SendGoaway(c1, E_NO_ERROR), d);
    }
  }

  /** A higher stream id from the client. */
  lemma NextId(env: Env, c: Conn, sid: nat)
    requires OrderInv(env, c) && sid % 2 == 1 && c.lastClientId < sid <= MAX_WINDOW
    ensures LifeInv(env, c.(lastClientId := sid, totalStreams := c.totalStreams + 1))
    ensures !WasOpened(c.trace, sid)
  {
    var d := c.(lastClientId := sid, totalStreams := c.totalStreams + 1);
    forall k | 0 <= k < |d.streams|
      ensures StreamLife(d.trace, d.streams[k])
    {
      assert StreamLife(c.trace, c.streams[k]);
    }
    assert 2 * (c.totalStreams + 1) <= sid + 1 by {
      assert 2 * c.totalStreams <= c.lastClientId + 1 <= sid;
    }
  }

  lemma OpenOrder(env: Env, c: Conn, d: Conn, sid: nat)
    requires LifeInv(env, c) && sid % 2 == 1 && !WasOpened(c.trace, sid)
    requires !c.goawaySent && !SawPeerGoAway(c.trace)
    requires sid == c.lastClientId
    requires OpenedInAll(c.trace) + 1 <= c.totalStreams
    requires env.lim.maxRequests != 0 ==> c.totalStreams <= env.lim.maxRequests
    requires d == Open(c, sid).(hdr := d.hdr)
    ensures LifeInv(env, d) && PeerInv(d)
  {
    OpenStep(c.trace, sid);
    if WasDispatched(c.trace, sid) {
      DispatchedWasOpened(c.trace, sid);
    }
    hide Orderly, WasOpened, WasDispatched, SawGoAway, OpenedInAll, SawPeerGoAway;
    forall k | 0 <= k < |d.streams|
      ensures StreamLife(d.trace, d.streams[k])
    {
      if k < |c.streams| {
        assert StreamLife(c.trace, c.streams[k]);
      }
    }
  }

  // ------------------------------------------------------------ handing a request over

  lemma {:induction false} SendBlockLives(c: Conn, sid: nat, block: Octets, first: bool, endStream: bool)
    ensures var t := SendBlock(c, sid, block, first, endStream).trace;
            SameLives(c.trace, t) && (SawPeerGoAway(t) <==> SawPeerGoAway(c.trace))
    decreases |block|
  {
    SendBlockTurn(c, sid, block, first, endStream);
    hide SendBlock, SameLives, SawPeerGoAway;
    var maxf := FrameLimit(c);
    var last := |block| <= maxf;
    var chunk := if last then block else block[..maxf];
    var f := if first then Headers(sid, endStream, last, chunk) else Continuation(sid, last, chunk);
    UneventfulStep(c.trace, Sent(f));
    if !last {
      SendBlockLives(Emit(c, f), sid, block[maxf..], false, endStream);
      LivesJoin(c.trace, Emit(c, f).trace, SendBlock(c, sid, block, first, endStream).trace);
    }
  }

  lemma LivesJoin(a: Trace, b: Trace, c: Trace)
    requires SameLives(a, b) && SameLives(b, c)
    ensures SameLives(a, c)
  {
    hide Orderly, WasOpened, WasDispatched, SawGoAway, OpenedInAll;
  }

  lemma DispatchStep(t: Trace, sid: nat, isHead: bool, body: Octets)
    requires Orderly(t) && WasOpened(t, sid) && !WasDispatched(t, sid) && SawEndStream(t, sid)
    ensures var t' := Then(t, Dispatched(sid, isHead, body));
            && Orderly(t') && (SawGoAway(t') <==> SawGoAway(t)) && OpenedInAll(t') == OpenedInAll(t)
            && (SawPeerGoAway(t') <==> SawPeerGoAway(t))
            && (forall s :: WasOpened(t', s) <==> WasOpened(t, s))
            && (forall s :: WasDispatched(t', s) <==> s == sid || WasDispatched(t, s))
  {
  }

  /** The history after a dispatch: handed over once, everything else as before. */
  lemma DispatchLives(env: Env, c: Conn, i: nat)
    requires i < |c.streams| && !c.streams[i].dispatched && !c.streams[i].responded
    requires Orderly(c.trace) && WasOpened(c.trace, c.streams[i].id) && !WasDispatched(c.trace, c.streams[i].id)
    requires SawEndStream(c.trace, c.streams[i].id)
    ensures var t, sid := Dispatch(env, c, i).trace, c.streams[i].id;
            && Orderly(t) && (SawGoAway(t) <==> SawGoAway(c.trace)) && OpenedInAll(t) == OpenedInAll(c.trace)
            && (SawPeerGoAway(t) <==> SawPeerGoAway(c.trace))
            && (forall s :: WasOpened(t, s) <==> WasOpened(c.trace, s))
            && (forall s :: WasDispatched(t, s) <==> s == sid || WasDispatched(c.trace, s))
  {
    hide Dispatch, FieldBlock, SendBlock, Orderly, WasOpened, WasDispatched, SawGoAway, OpenedInAll, SawPeerGoAway,
         SawEndStream;
    var st := c.streams[i];
    var r := env.app(st.id);
    var c1 := Note(SetStream(c, i, st.(dispatched := true)), Dispatched(st.id, st.isHead, st.reqBody));
    DispatchTrace(env, c, i);
    DispatchStep(c.trace, st.id, st.isHead, st.reqBody);
    SendBlockLives(c1, st.id, FieldBlock(r), true, !HasBody(r, st.isHead));
  }

  lemma FinishOrder(env: Env, c: Conn, a: Atom)
    requires OrderInv(env, c) && a.Finish? && Enabled(env, c, a)
    ensures LifeInv(env, Do(env, c, a)) && PeerInv(Do(env, c, a))
  {
    var d := Do(env, c, a);
    var i, st := a.slot, c.streams[a.slot];
    assert StreamShape(env.lim, c, st) && StreamLife(c.trace, st);
    assert Distinct(c.streams);
    var st1 := st.(gotHeaders := true, endStreamRecv := true, isHead := a.isHead);
    var c1 := SetStream(EndBlock(c, a.blocks), i, st1);
    FinishShape(env, c, a);
    hide TableInv, Dispatch, Orderly, WasOpened, WasDispatched, SawGoAway, OpenedInAll, SawPeerGoAway, SawEndStream,
         CloseAt;
    DispatchLives(env, c1, i);
    FinishLives(env, c, d, a);
  }

  lemma FinishLives(env: Env, c: Conn, d: Conn, a: Atom)
    requires a.Finish? && Enabled(env, c, a) && Distinct(c.streams)
    requires forall k | 0 <= k < |c.streams| :: StreamLife(c.trace, c.streams[k])
    requires var st := c.streams[a.slot];
             var st' := Answered(st.(gotHeaders := true, endStreamRecv := true, isHead := a.isHead), env.app(st.id));
             var c1 := SetStream(EndBlock(c, a.blocks), a.slot, st');
             && d.streams == (if st'.sendDone then CloseAt(c1, a.slot) else c1).streams
             && (forall s :: WasOpened(d.trace, s) <==> WasOpened(c.trace, s))
             && (forall s :: WasDispatched(d.trace, s) <==> s == st.id || WasDispatched(c.trace, s))
    ensures forall k | 0 <= k < |d.streams| :: StreamLife(d.trace, d.streams[k])
  {
    hide Orderly, WasOpened, WasDispatched, SawEndStream, HasBody;
    var i, st := a.slot, c.streams[a.slot];
    var st' := Answered(st.(gotHeaders := true, endStreamRecv := true, isHead := a.isHead), env.app(st.id));
    var c1 := SetStream(EndBlock(c, a.blocks), i, st');
    forall k | 0 <= k < |d.streams|
      ensures StreamLife(d.trace, d.streams[k])
    {
      if st'.sendDone {
        ClosedSlots(c1, i, k);
        var j := if k == i then |c.streams| - 1 else k;
        assert d.streams[k] == c.streams[j] && StreamLife(c.trace, c.streams[j]);
      } else if k != i {
        assert StreamLife(c.trace, c.streams[k]);
      } else {
        assert StreamLife(c.trace, c.streams[i]);
      }
    }
  }

  lemma OrderAtom(env: Env, c: Conn, a: Atom)
    requires OrderInv(env, c) && Enabled(env, c, a)
    ensures OrderInv(env, Do(env, c, a))
  {
    assert TableInv(env.lim, c);
    hide TableInv, LifeInv, PeerInv, Enabled, Do;
    TableAtom(env, c, a);
    match a
    case Begin(f) => BeginOrder(env, c, a);
    case Finish(_, _, _) => FinishOrder(env, c, a);
    case Cancel(_, _, _) => GoneOrder(env, c, a);
    case Close(_, _) => GoneOrder(env, c, a);
    case WindDown(_, _) => WindDownOrder(env, c, a);
    case Abandon(_) => WindDownOrder(env, c, a);
    case _ => SlotOrder(env, c, a);
  }

  // ------------------------------------------------------------ everything else

  /** Steps that add at most one uneventful event and keep every slot's life. */
  lemma SlotsOrder(env: Env, c: Conn, d: Conn)
    requires OrderInv(env, c) && TableInv(env.lim, d)
    requires d.trace == c.trace
             || (d.trace.Then? && d.trace.before == c.trace && Uneventful(d.trace.event) && !d.trace.event.Recv?)
    requires |d.streams| == |c.streams| && forall k | 0 <= k < |c.streams| :: SameLife(c.streams[k], d.streams[k])
    requires d.lastClientId == c.lastClientId && d.totalStreams == c.totalStreams && d.goawaySent == c.goawaySent
    requires d.peerGoaway == c.peerGoaway && d.gotError == c.gotError
    ensures OrderInv(env, d)
  {
    hide TableInv, LifeInv, PeerInv;
    KinSlots(c, d);
    QuietOrder(env, c, d);
  }

  lemma ConsumeConnOrder(env: Env, c: Conn, len: nat)
    requires OrderInv(env, c)
    ensures OrderInv(env, ConsumeConn(c, len))
  {
    hide TableInv, LifeInv, PeerInv;
    TableConsumeConn(env, c, len);
    SlotsOrder(env, c, ConsumeConn(c, len));
  }

  lemma ConsumeStreamOrder(env: Env, c: Conn, i: nat, len: nat)
    requires OrderInv(env, c) && i < |c.streams|
    ensures OrderInv(env, ConsumeStream(c, i, len))
  {
    hide TableInv, LifeInv, PeerInv, ConsumeStream;
    TableConsumeStream(env, c, i, len);
    ConsumeStreamShape(c, i, len);
    ConsumeStreamEvent(c, i, len);
    SlotsOrder(env, c, ConsumeStream(c, i, len));
  }

  lemma DrainOrder(env: Env, c: Conn, n: nat)
    requires OrderInv(env, c)
    ensures OrderInv(env, Drain(c, n))
  {
    hide TableInv, LifeInv, PeerInv;
    TableDrain(env, c, n);
    SlotsOrder(env, c, Drain(c, n));
  }

  lemma ChunkOrder(env: Env, c: Conn, i: nat)
    requires OrderInv(env, c) && Pumpable(c, i) && Sendable(env.lim, c, i) > 0
    ensures OrderInv(env, AfterChunk(env.lim, c, i))
  {
    hide TableInv, LifeInv, PeerInv, Sendable;
    TableChunk(env, c, i);
    var e := SendChunk(c, i, Sendable(env.lim, c, i));
    var d := AfterChunk(env.lim, c, i);
    forall k | 0 <= k < |d.streams|
      ensures Kin(c, d.streams[k])
    {
      if e.streams[i].sendDone {
        ClosedSlots(e, i, k);
        IsKin(c, d.streams[k], if k == i then |c.streams| - 1 else k);
      } else {
        IsKin(c, d.streams[k], k);
      }
    }
    QuietOrder(env, c, d);
  }

  lemma SeenLives(env: Env, c: Conn, f: InFrame)
    requires OrderInv(env, c)
    ensures TableInv(env.lim, Seen(c, f)) && LifeInv(env, Seen(c, f))
  {
    hide TableInv, LifeInv, PeerInv;
    TableSeen(env, c, f);
    UneventfulStep(c.trace, Recv(f));
    KinSlots(c, Seen(c, f));
    SameLivesKeep(env, c, Seen(c, f));
  }

  ghost function LifeProperty(env: Env): Property {
    c => OrderInv(env, c)
  }

  lemma OrderKept(env: Env)
    ensures Kept(env, LifeProperty(env))
    ensures IgnoresSendWindows(LifeProperty(env)) && IgnoresRecvWindows(env, LifeProperty(env))
  {
    hide TableInv, LifeInv, PeerInv, Enabled, Do, ConsumeConn, ConsumeStream;
    var P := LifeProperty(env);
    forall c, a | P(c) && Enabled(env, c, a)
      ensures P(Do(env, c, a))
    {
      OrderAtom(env, c, a);
    }
    forall c, streams, w: int, initial: nat, maxFrame: nat
      | P(c) && SameButSendWindow(c.streams, streams) && initial <= MAX_WINDOW && 16384 <= maxFrame <= 16777215
      ensures P(Tuned(c, streams, w, initial, maxFrame))
    {
      TableSendWindows(env, c, streams, w, initial, maxFrame);
      SlotsOrder(env, c, Tuned(c, streams, w, initial, maxFrame));
    }
    forall c, len: nat | P(c)
      ensures P(ConsumeConn(c, len))
    {
      ConsumeConnOrder(env, c, len);
    }
    forall c, i: nat, len: nat | P(c) && i < |c.streams| && c.streams[i].gotHeaders && !c.streams[i].endStreamRecv
      ensures P(ConsumeStream(c, i, len))
    {
      ConsumeStreamOrder(env, c, i, len);
    }
  }

  /** A GOAWAY frame: the flag and the record of it change together. */
  lemma GoawayFrameOrder(env: Env, c: Conn, f: InFrame, n: Feeding)
    requires OrderInv(env, c) && f.kind == FT_GOAWAY && f.sid == 0 && |f.payload| >= 8
    ensures OrderInv(env, OnFrame(env, c, f, n))
  {
    SeenLives(env, c, f);
    var c1 := Seen(c, f);
    hide LifeInv, TableInv, SawPeerGoAway;
    if InSequence(c, f) {
      TableAtom(env, c1, PeerGoaway);
      LifeFrame(env, c1, c1.(peerGoaway := true));
    } else {
      LateGoaway(env, c1, c.needSettings && f.kind != FT_SETTINGS);
    }
  }

  /** A frame out of sequence ends the connection. */
  lemma LateGoaway(env: Env, c: Conn, needs: bool)
    requires TableInv(env.lim, c) && LifeInv(env, c)
    ensures OrderInv(env, ConnError(c.(needSettings := needs), E_PROTOCOL_ERROR))
  {
    hide LifeInv, TableInv, SawPeerGoAway;
    var c2 := c.(needSettings := needs);
    PrefaceBound(env.lim, c);
    TableAtom(env, c, Flags(needs, c.prefaceGot));
    TableAtom(env, c2, WindDown(E_PROTOCOL_ERROR, true));
    LifeFrame(env, c, c2);
    GoawayOrder(env, c2, E_PROTOCOL_ERROR);
    LifeFrame(env, SendGoaway(c2, E_PROTOCOL_ERROR), ConnError(c2, E_PROTOCOL_ERROR));
  }

  lemma FrameOrder(env: Env, c: Conn, f: InFrame, n: Feeding)
    requires OrderInv(env, c) && !c.gotError && Parsed(f)
    ensures OrderInv(env, OnFrame(env, c, f, n))
  {
    hide OnFrame, LifeInv, TableInv, Kept, IgnoresRecvWindows, IgnoresSendWindows;
    if f.kind == FT_GOAWAY && f.sid == 0 && |f.payload| >= 8 {
      GoawayFrameOrder(env, c, f, n);
    } else {
      SeenLives(env, c, f);
      assert SawPeerGoAway(Seen(c, f).trace) <==> SawPeerGoAway(c.trace);
      OrderKept(env);
      FrameKeeps(env, LifeProperty(env), c, f, n);
    }
  }

  lemma FreshOrder(env: Env)
    ensures OrderInv(env, Fresh())
  {
    assert Fresh().trace == Then(Start, Sent(Settings));
    UneventfulStep(Start, Sent(Settings));
    forall sid: nat
      ensures !WasOpened(Fresh().trace, sid)
    {
      assert !WasOpened(Start, sid);
    }
    assert Orderly(Start) && !SawGoAway(Start) && OpenedInAll(Start) == 0 && !SawPeerGoAway(Start);
  }

  lemma OrderInvariant(env: Env)
    ensures Invariant(env, LifeProperty(env))
  {
    hide Steady, OrderInv, Kept, OnFrame, AfterChunk, Drain, Fresh, Sendable, IgnoresSendWindows, IgnoresRecvWindows;
    var P := LifeProperty(env);
    OrderKept(env);
    KeptSteady(env, P);
    FreshOrder(env);
    forall c: Conn, f: InFrame, n: Feeding | P(c) && !c.gotError && Parsed(f)
      ensures P(OnFrame(env, c, f, n))
    {
      FrameOrder(env, c, f, n);
    }
    forall c, i: nat | P(c) && Pumpable(c, i) && Sendable(env.lim, c, i) > 0
      ensures P(AfterChunk(env.lim, c, i))
    {
      ChunkOrder(env, c, i);
    }
    forall c, n: nat | P(c)
      ensures P(Drain(c, n))
    {
      DrainOrder(env, c, n);
    }
  }

  /**
    Stream table over every run: ids are distinct, odd and at most the highest seen; the table is
    as large as its counter and within the concurrency limit; the whole history is orderly and
    within the lifetime limit; no counter can reach the end of its 32-bit range; and the stream
    whose header block is in progress is in the table, alone in not having its headers yet.
   */
  lemma StreamTable(env: Env, actions: seq<Action>)
    ensures var c := Run(env, actions).conn;
            && |c.streams| == c.openCount <= env.lim.maxStreams
            && Distinct(c.streams)
            && (forall i | 0 <= i < |c.streams| :: c.streams[i].id % 2 == 1 && 1 <= c.streams[i].id <= c.lastClientId)
            && Orderly(c.trace)
            && (env.lim.maxRequests != 0 ==> OpenedInAll(c.trace) <= env.lim.maxRequests)
            && 2 * c.totalStreams <= c.lastClientId + 1 <= 0x8000_0000
            && (c.hdr.stream.Some? ==> Find(c, c.hdr.stream.value).Some?)
            && (forall i | 0 <= i < |c.streams| ::
                  c.gotError || c.streams[i].gotHeaders || c.hdr.stream == Some(c.streams[i].id))
  {
    OrderInvariant(env);
    RunKeeps(env, LifeProperty(env), actions);
    var c := Run(env, actions).conn;
    assert OrderInv(env, c);
    hide Invariant, Run;
    forall i | 0 <= i < |c.streams|
      ensures c.streams[i].id % 2 == 1 && 1 <= c.streams[i].id <= c.lastClientId
      ensures c.gotError || c.streams[i].gotHeaders || c.hdr.stream == Some(c.streams[i].id)
    {
      assert StreamShape(env.lim, c, c.streams[i]);
    }
  }
}
