/**
  Streams the client resets (section 5.4.2 of RFC 9113): the server sends nothing more on them,
  except that a reset inside a header block is a connection error and leaves its stream in the table.
 */
module H2Silence {
  import opened Bytes
  import opened H2Trace
  import opened H2Spec
  import opened H2Steps
  import opened H2Runs
  import opened H2Table
  import H2Blocks

  /** The client has not reset that stream, unless inside a header block. */
  ghost predicate Fit(t: Trace, sid: nat) {
    PeerReset(t, sid) ==> JustReset(t, sid) && ResetInside(t)
  }

  /** Streams in the table, the one whose header block is in progress and those to come. */
  ghost predicate IdsFit(c: Conn) {
    && (forall i | 0 <= i < |c.streams| :: Fit(c.trace, c.streams[i].id))
    && (c.hdr.active ==> Fit(c.trace, c.hdr.id))
    && (!c.gotError ==> forall s | s > c.lastClientId :: Fit(c.trace, s))
  }

  ghost predicate Quiet(t: Trace) {
    NearlySilent(t) && (!ResetInside(t) ==> Silent(t))
  }

  /** `inside`: a reset inside a header block may have been the last frame. */
  ghost predicate SilenceInv(env: Env, inside: bool, c: Conn) {
    TableInv(env.lim, c) && IdsFit(c) && Quiet(c.trace) && (ResetInside(c.trace) ==> inside && c.gotError)
  }

  ghost function SilenceProperty(env: Env, inside: bool): Property {
    c => SilenceInv(env, inside, c)
  }

  // ------------------------------------------------------------ steps that receive nothing

  ghost predicate SameResets(t: Trace, t': Trace) {
    && (ResetInside(t') <==> ResetInside(t))
    && forall s :: (PeerReset(t', s) <==> PeerReset(t, s)) && (JustReset(t', s) <==> JustReset(t, s))
  }

  /** A stretch of history without frames received, its frames sent on fit streams only. */
  ghost predicate Follows(t: Trace, t': Trace) {
    SameResets(t, t') && (Quiet(t) ==> Quiet(t'))
  }

  lemma FollowsRefl(t: Trace)
    ensures Follows(t, t)
  {
  }

  lemma FollowsJoin(a: Trace, b: Trace, c: Trace)
    requires Follows(a, b) && Follows(b, c)
    ensures Follows(a, c)
  {
    hide PeerReset, JustReset, ResetInside, Quiet;
  }

  lemma EventFollows(t: Trace, e: Event)
    requires !e.Recv?
    requires e.Sent? && e.out.Stream() != 0 ==> Fit(t, e.out.Stream())
    ensures Follows(t, Then(t, e))
  {
  }

  /** At most one more event, and one that may happen. */
  ghost predicate OneEvent(c: Conn, d: Conn) {
    || d.trace == c.trace
    || (d.trace.Then? && d.trace.before == c.trace && !d.trace.event.Recv?
        && (d.trace.event.Sent? && d.trace.event.out.Stream() != 0 ==> Fit(c.trace, d.trace.event.out.Stream())))
  }

  lemma OneEventFollows(c: Conn, d: Conn)
    requires OneEvent(c, d)
    ensures Follows(c.trace, d.trace)
  {
    hide Fit, Follows;
    FollowsRefl(c.trace);
    if d.trace != c.trace {
      EventFollows(c.trace, d.trace.event);
    }
  }

  /** An id known before, or one that had not been used yet. */
  ghost predicate Kin(c: Conn, id: nat) {
    || (!c.gotError && id > c.lastClientId)
    || (c.hdr.active && id == c.hdr.id)
    || exists j | 0 <= j < |c.streams| :: c.streams[j].id == id
  }

  lemma IsKin(c: Conn, id: nat, j: nat)
    requires j < |c.streams| && c.streams[j].id == id
    ensures Kin(c, id)
  {
  }

  lemma KinFit(c: Conn, id: nat)
    requires IdsFit(c) && Kin(c, id)
    ensures Fit(c.trace, id)
  {
    hide Fit;
  }

  ghost predicate Heirs(c: Conn, d: Conn) {
    && (forall k | 0 <= k < |d.streams| :: Kin(c, d.streams[k].id))
    && (d.hdr.active ==> Kin(c, d.hdr.id))
    && c.lastClientId <= d.lastClientId && (c.gotError ==> d.gotError)
  }

  lemma StepKeeps(env: Env, inside: bool, c: Conn, d: Conn)
    requires SilenceInv(env, inside, c) && TableInv(env.lim, d) && Follows(c.trace, d.trace) && Heirs(c, d)
    ensures SilenceInv(env, inside, d)
  {
    hide TableInv, PeerReset, JustReset, ResetInside, Silent, NearlySilent;
    forall k | 0 <= k < |d.streams|
      ensures Fit(d.trace, d.streams[k].id)
    {
      KinFit(c, d.streams[k].id);
    }
    if d.hdr.active {
      KinFit(c, d.hdr.id);
    }
    if !d.gotError {
      forall s | s > d.lastClientId
        ensures Fit(d.trace, s)
      {
        assert Fit(c.trace, s);
      }
    }
  }

  // ------------------------------------------------------------ atomic steps

  lemma SlotAtom(env: Env, inside: bool, c: Conn, a: Atom)
    requires SilenceInv(env, inside, c) && Enabled(env, c, a)
    requires a.Answer? || a.Gather? || a.PeerGoaway? || a.Flags? || a.Trailer? || a.Accept? || a.Collect? || a.WindDown?
             || a.Abandon?
    ensures SilenceInv(env, inside, Do(env, c, a))
  {
    TableAtom(env, c, a);
    var d := Do(env, c, a);
    assert OneEvent(c, d) && |d.streams| == |c.streams|;
    assert d.lastClientId == c.lastClientId && (c.gotError ==> d.gotError);
    assert d.hdr.active ==> Kin(c, d.hdr.id);
    forall k | 0 <= k < |d.streams|
      ensures Kin(c, d.streams[k].id)
    {
      IsKin(c, d.streams[k].id, k);
    }
    hide TableInv, IdsFit, Quiet, OneEvent, Follows, Do, Kin;
    OneEventFollows(c, d);
    StepKeeps(env, inside, c, d);
  }

  lemma RefuseAtom(env: Env, inside: bool, c: Conn, a: Atom)
    requires SilenceInv(env, inside, c) && Enabled(env, c, a) && a.Refuse?
    ensures SilenceInv(env, inside, Do(env, c, a))
  {
    TableAtom(env, c, a);
    var d := Do(env, c, a);
    assert OneEvent(c, d) && d.streams == c.streams && !d.hdr.active;
    forall k | 0 <= k < |d.streams|
      ensures Kin(c, d.streams[k].id)
    {
      IsKin(c, d.streams[k].id, k);
    }
    hide TableInv, IdsFit, Quiet, OneEvent, Follows, Kin;
    OneEventFollows(c, d);
    StepKeeps(env, inside, c, d);
  }

  lemma GoneAtom(env: Env, inside: bool, c: Conn, a: Atom)
    requires SilenceInv(env, inside, c) && Enabled(env, c, a) && (a.Cancel? || a.Close?)
    ensures SilenceInv(env, inside, Do(env, c, a))
  {
    TableAtom(env, c, a);
    var d := Do(env, c, a);
    assert Fit(c.trace, c.streams[a.slot].id);
    assert OneEvent(c, d) && d.streams == CloseAt(c, a.slot).streams;
    assert d.hdr.active ==> d.hdr == c.hdr;
    hide TableInv, IdsFit, Quiet, OneEvent, Follows;
    OneEventFollows(c, d);
    KinClose(c, c, d, a.slot);
    StepKeeps(env, inside, c, d);
  }

  lemma KinClose(c: Conn, e: Conn, d: Conn, i: nat)
    requires |e.streams| == |c.streams| && i < |c.streams| && d.streams == CloseAt(e, i).streams
    requires forall k | 0 <= k < |c.streams| :: c.streams[k].id == e.streams[k].id
    ensures forall k | 0 <= k < |d.streams| :: Kin(c, d.streams[k].id)
  {
    forall k | 0 <= k < |d.streams|
      ensures Kin(c, d.streams[k].id)
    {
      ClosedSlots(e, i, k);
      IsKin(c, d.streams[k].id, if k == i then |c.streams| - 1 else k);
    }
  }

  lemma BeginAtom(env: Env, inside: bool, c: Conn, a: Atom)
    requires SilenceInv(env, inside, c) && Enabled(env, c, a) && a.Begin?
    ensures SilenceInv(env, inside, Do(env, c, a))
  {
    TableAtom(env, c, a);
    var d := Do(env, c, a);
    assert OneEvent(c, d) && d.hdr.id > c.lastClientId;
    forall k | 0 <= k < |d.streams|
      ensures Kin(c, d.streams[k].id)
    {
      if k < |c.streams| {
        assert d.streams[k] == c.streams[k];
        IsKin(c, d.streams[k].id, k);
      }
    }
    hide TableInv, IdsFit, Quiet, OneEvent, Follows;
    OneEventFollows(c, d);
    StepKeeps(env, inside, c, d);
  }

  lemma {:induction false} SendBlockFollows(c: Conn, sid: nat, block: Octets, first: bool, endStream: bool)
    requires Fit(c.trace, sid)
    ensures Follows(c.trace, SendBlock(c, sid, block, first, endStream).trace)
    decreases |block|
  {
    SendBlockTurn(c, sid, block, first, endStream);
    var maxf := FrameLimit(c);
    var last := |block| <= maxf;
    var chunk := if last then block else block[..maxf];
    var f := if first then Headers(sid, endStream, last, chunk) else Continuation(sid, last, chunk);
    EventFollows(c.trace, Sent(f));
    hide SendBlock, Quiet, PeerReset, JustReset, ResetInside;
    if !last {
      SendBlockFollows(Emit(c, f), sid, block[maxf..], false, endStream);
      FollowsJoin(c.trace, Emit(c, f).trace, SendBlock(c, sid, block, first, endStream).trace);
    }
  }

  lemma DispatchFollows(env: Env, c: Conn, i: nat)
    requires i < |c.streams| && !c.streams[i].dispatched && !c.streams[i].responded
    requires Fit(c.trace, c.streams[i].id)
    ensures Follows(c.trace, Dispatch(env, c, i).trace)
  {
    var st := c.streams[i];
    var c1 := Note(SetStream(c, i, st.(dispatched := true)), Dispatched(st.id, st.isHead, st.reqBody));
    EventFollows(c.trace, Dispatched(st.id, st.isHead, st.reqBody));
    hide Dispatch, FieldBlock, SendBlock, Quiet, PeerReset, JustReset, ResetInside;
    var r := env.app(st.id);
    DispatchTrace(env, c, i);
    SendBlockFollows(c1, st.id, FieldBlock(r), true, !HasBody(r, st.isHead));
    FollowsJoin(c.trace, c1.trace, Dispatch(env, c, i).trace);
  }

  lemma FinishAtom(env: Env, inside: bool, c: Conn, a: Atom)
    requires SilenceInv(env, inside, c) && a.Finish? && Enabled(env, c, a)
    ensures SilenceInv(env, inside, Do(env, c, a))
  {
    TableAtom(env, c, a);
    var d := Do(env, c, a);
    var i, st := a.slot, c.streams[a.slot];
    assert StreamShape(env.lim, c, st) && Fit(c.trace, st.id);
    var st1 := st.(gotHeaders := true, endStreamRecv := true, isHead := a.isHead);
    var c1 := SetStream(EndBlock(c, a.blocks), i, st1);
    FinishShape(env, c, a);
    hide TableInv, Dispatch, CloseAt, SawEndStream, HasBody, IdsFit, Quiet, Follows, Fit;
    assert d == Dispatch(env, c1, i);
    DispatchFollows(env, c1, i);
    hide Do;
    FinishHeirs(c, d, i, Answered(st1, env.app(st.id)), a.blocks);
    StepKeeps(env, inside, c, d);
  }

  lemma FinishHeirs(c: Conn, d: Conn, i: nat, st: Stream, blocks: seq<HeaderBlock>)
    requires i < |c.streams| && st.id == c.streams[i].id
    requires var c2 := SetStream(EndBlock(c, blocks), i, st);
             d == (if st.sendDone then CloseAt(c2, i) else c2).(trace := d.trace, queued := d.queued)
    ensures Heirs(c, d)
  {
    var c2 := SetStream(EndBlock(c, blocks), i, st);
    if st.sendDone {
      KinClose(c, c2, d, i);
    } else {
      forall k | 0 <= k < |d.streams|
        ensures Kin(c, d.streams[k].id)
      {
        IsKin(c, d.streams[k].id, k);
      }
    }
  }

  lemma SilenceAtom(env: Env, inside: bool, c: Conn, a: Atom)
    requires SilenceInv(env, inside, c) && Enabled(env, c, a)
    ensures SilenceInv(env, inside, Do(env, c, a))
  {
    hide SilenceInv, Enabled, Do;
    match a
    case Begin(f) => BeginAtom(env, inside, c, a);
    case Finish(_, _, _) => FinishAtom(env, inside, c, a);
    case Cancel(_, _, _) => GoneAtom(env, inside, c, a);
    case Close(_, _) => GoneAtom(env, inside, c, a);
    case Refuse(_, _) => RefuseAtom(env, inside, c, a);
    case _ => SlotAtom(env, inside, c, a);
  }

  lemma SilenceKept(env: Env, inside: bool)
    ensures Kept(env, SilenceProperty(env, inside))
  {
    var P := SilenceProperty(env, inside);
    assert forall c | P(c) :: TableInv(env.lim, c);
    hide SilenceInv, Enabled, Do, TableInv;
    forall c, a | P(c) && Enabled(env, c, a) && !a.Collect?
      ensures P(Do(env, c, a))
    {
      SilenceAtom(env, inside, c, a);
    }
  }

  /** Same streams and header block, at most one more event. */
  lemma SameSlots(env: Env, inside: bool, c: Conn, d: Conn)
    requires SilenceInv(env, inside, c) && TableInv(env.lim, d) && OneEvent(c, d)
    requires |d.streams| == |c.streams| && forall k | 0 <= k < |c.streams| :: d.streams[k].id == c.streams[k].id
    requires d.hdr == c.hdr && d.lastClientId == c.lastClientId && d.gotError == c.gotError
    ensures SilenceInv(env, inside, d)
  {
    forall k | 0 <= k < |d.streams|
      ensures Kin(c, d.streams[k].id)
    {
      IsKin(c, d.streams[k].id, k);
    }
    hide TableInv, IdsFit, Quiet, OneEvent, Follows;
    OneEventFollows(c, d);
    StepKeeps(env, inside, c, d);
  }

  lemma ConsumeConnSilent(env: Env, inside: bool, c: Conn, len: nat)
    requires SilenceInv(env, inside, c)
    ensures SilenceInv(env, inside, ConsumeConn(c, len))
  {
    TableConsumeConn(env, c, len);
    ConsumeConnShape(c, len);
    assert OneEvent(c, ConsumeConn(c, len));
    hide SilenceInv, TableInv, ConsumeConn, OneEvent;
    SameSlots(env, inside, c, ConsumeConn(c, len));
  }

  lemma ConsumeStreamSilent(env: Env, inside: bool, c: Conn, i: nat, len: nat)
    requires SilenceInv(env, inside, c) && i < |c.streams|
    ensures SilenceInv(env, inside, ConsumeStream(c, i, len))
  {
    TableConsumeStream(env, c, i, len);
    ConsumeStreamShape(c, i, len);
    ConsumeStreamEvent(c, i, len);
    assert Fit(c.trace, c.streams[i].id);
    hide ConsumeStream, TableInv, IdsFit, Quiet, Fit;
    SameSlots(env, inside, c, ConsumeStream(c, i, len));
  }

  lemma SilenceIgnores(env: Env, inside: bool)
    ensures IgnoresSendWindows(SilenceProperty(env, inside)) && IgnoresRecvWindows(env, SilenceProperty(env, inside))
  {
    var P := SilenceProperty(env, inside);
    assert forall c | P(c) :: TableInv(env.lim, c);
    hide SilenceInv, TableInv, ConsumeConn, ConsumeStream, Enabled, Do;
    forall c, streams, w: int, initial: nat, maxFrame: nat
      | P(c) && SameButSendWindow(c.streams, streams) && initial <= MAX_WINDOW && 16384 <= maxFrame <= 16777215
      ensures P(Tuned(c, streams, w, initial, maxFrame))
    {
      TableSendWindows(env, c, streams, w, initial, maxFrame);
      SameSlots(env, inside, c, Tuned(c, streams, w, initial, maxFrame));
    }
    forall c, i: nat, body: Octets | P(c) && Enabled(env, c, Collect(i, body))
      ensures P(Do(env, c, Collect(i, body)))
    {
      SilenceAtom(env, inside, c, Collect(i, body));
    }
    forall c, len: nat | P(c)
      ensures P(ConsumeConn(c, len))
    {
      ConsumeConnSilent(env, inside, c, len);
    }
    forall c, i: nat, len: nat | P(c) && i < |c.streams| && c.streams[i].gotHeaders && !c.streams[i].endStreamRecv
      ensures P(ConsumeStream(c, i, len))
    {
      ConsumeStreamSilent(env, inside, c, i, len);
    }
  }

  // ------------------------------------------------------------ frames received

  lemma RecvStep(t: Trace, f: InFrame)
    ensures var t' := Then(t, Recv(f));
            && (forall s :: PeerReset(t', s) <==> Resets(f, s) || PeerReset(t, s))
            && (forall s :: JustReset(t', s) <==> Resets(f, s))
            && (ResetInside(t') <==> f.kind == FT_RST_STREAM && |f.payload| == 4 && InboundOf(t).open.Some?)
            && (Silent(t') <==> Silent(t)) && (NearlySilent(t') <==> NearlySilent(t))
  {
  }

  lemma SilentIsNearly(t: Trace)
    requires Silent(t)
    ensures NearlySilent(t)
  {
  }

  /** While nothing is broken no reset is excused, and none is needed. */
  lemma NoExcuse(env: Env, inside: bool, c: Conn)
    requires SilenceInv(env, inside, c) && !c.gotError
    ensures Silent(c.trace) && (forall id | Kin(c, id) :: !PeerReset(c.trace, id))
  {
    hide TableInv, PeerReset, JustReset, ResetInside, Silent, NearlySilent;
    forall id | Kin(c, id)
      ensures !PeerReset(c.trace, id)
    {
      KinFit(c, id);
    }
  }

  /** A frame on record, and at most a GOAWAY after it. */
  ghost predicate Recorded(t: Trace, f: InFrame, t': Trace) {
    var t1 := Then(t, Recv(f));
    t' == t1 || (t'.Then? && t'.before == t1 && t'.event.Sent? && t'.event.out.GoAway?)
  }

  /** Nothing was sent yet that the frame could have forbidden, and no stream that stays was reset by it. */
  lemma FrameRecorded(env: Env, inside: bool, c: Conn, d: Conn, f: InFrame)
    requires SilenceInv(env, inside, c) && !c.gotError && TableInv(env.lim, d) && Recorded(c.trace, f, d.trace)
    requires forall k | 0 <= k < |d.streams| :: Kin(c, d.streams[k].id)
    requires (d.hdr.active ==> Kin(c, d.hdr.id)) && c.lastClientId <= d.lastClientId
    requires ResetInside(d.trace) ==> inside && d.gotError
    requires !ResetInside(d.trace) ==>
               && (forall k | 0 <= k < |d.streams| :: !Resets(f, d.streams[k].id))
               && (d.hdr.active ==> !Resets(f, d.hdr.id))
    requires !d.gotError ==> forall s | s > d.lastClientId :: !Resets(f, s)
    ensures SilenceInv(env, inside, d) && Silent(d.trace)
  {
    var t := Then(c.trace, Recv(f));
    RecvStep(c.trace, f);
    NoExcuse(env, inside, c);
    SilentIsNearly(c.trace);
    if d.trace != t {
      EventFollows(t, d.trace.event);
      SilentThen(t, d.trace.event);
    }
    hide TableInv, PeerReset, JustReset, ResetInside, Silent, NearlySilent, Resets, Recorded;
  }

  lemma SilentThen(t: Trace, e: Event)
    requires Silent(t) && (e.Sent? ==> e.out.GoAway?)
    ensures Silent(Then(t, e))
  {
  }

  /** What holds of the header blocks and of resets. */
  ghost predicate ResetInv(env: Env, c: Conn) {
    H2Blocks.BlockInv(env, c) && SilenceInv(env, true, c)
  }

  lemma NotInside(env: Env, c: Conn)
    requires SilenceInv(env, true, c) && !c.gotError
    ensures SilenceInv(env, false, c)
  {
  }

  lemma Inside(env: Env, c: Conn)
    requires SilenceInv(env, false, c)
    ensures SilenceInv(env, true, c)
  {
  }

  lemma ErrorShape(c: Conn, f: InFrame, d: Conn, code: nat)
    requires d.trace == Then(c.trace, Recv(f))
    ensures var e := ConnError(d, code);
            && Recorded(c.trace, f, e.trace) && e.streams == d.streams && e.hdr == d.hdr
            && e.lastClientId == d.lastClientId && e.gotError
            && (ResetInside(e.trace) <==> ResetInside(d.trace))
  {
  }

  lemma SameKin(c: Conn, d: Conn)
    requires d.streams == c.streams
    ensures forall k | 0 <= k < |d.streams| :: Kin(c, d.streams[k].id)
  {
    forall k | 0 <= k < |d.streams|
      ensures Kin(c, d.streams[k].id)
    {
      IsKin(c, d.streams[k].id, k);
    }
  }

  /** A frame out of sequence breaks the connection; nothing but GOAWAY is sent for it. */
  lemma OutOfSequenceSilent(env: Env, c: Conn, f: InFrame, n: Feeding)
    requires ResetInv(env, c) && !c.gotError && Parsed(f) && !InSequence(c, f)
    ensures var d := OnFrame(env, c, f, n); SilenceInv(env, true, d) && Silent(d.trace)
  {
    var d := OnFrame(env, c, f, n);
    var c1 := Note(c, Recv(f)).(needSettings := c.needSettings && f.kind != FT_SETTINGS);
    assert d == ConnError(c1, E_PROTOCOL_ERROR);
    H2Blocks.TableFrame(env, c, f, n);
    ErrorShape(c, f, c1, E_PROTOCOL_ERROR);
    RecvStep(c.trace, f);
    SameKin(c, d);
    if !ResetInside(Then(c.trace, Recv(f))) {
      ResetsOutside(env, c, f);
    }
    hide TableInv, ConnError, OnFrame, ResetInside, Recorded, IdsFit, Quiet, Kin, H2Blocks.Handed, Resets;
    FrameRecorded(env, true, c, d, f);
  }

  /** Out of sequence and not inside a header block, a frame resets no stream: there is none yet. */
  lemma ResetsOutside(env: Env, c: Conn, f: InFrame)
    requires H2Blocks.BlockInv(env, c) && !c.gotError && !InSequence(c, f) && !ResetInside(Then(c.trace, Recv(f)))
    ensures forall k | 0 <= k < |c.streams| :: !Resets(f, c.streams[k].id)
    ensures c.hdr.active ==> !Resets(f, c.hdr.id)
  {
    assert c.hdr.active <==> InboundOf(c.trace).open.Some?;
    hide InboundOf;
    if f.kind == FT_RST_STREAM && |f.payload| == 4 {
      NeverOpened(env, c, f);
    }
  }

  /** The reset of a stream in the table frees its slot; nobody else has its id. */
  lemma ResetSilent(env: Env, c: Conn, f: InFrame, i: nat, rapid: nat)
    requires ResetInv(env, c) && !c.gotError && !c.hdr.active && f.kind == FT_RST_STREAM && |f.payload| == 4
    requires i < |c.streams| && c.streams[i].id == f.sid
    ensures var d := CloseAt(Seen(c, f), i).(rapidReset := rapid);
            SilenceInv(env, false, d) && SilenceInv(env, false, ConnError(d, E_ENHANCE_YOUR_CALM))
  {
    var c1 := Seen(c, f);
    var d := CloseAt(c1, i).(rapidReset := rapid);
    ResetTable(env, c, f, i, rapid);
    RecvStep(c.trace, f);
    NotInside(env, c);
    assert InboundOf(c.trace).open.None?;
    hide TableInv, ResetInside, IdsFit, Quiet;
    OthersStay(env, c, f, i, rapid);
    hide Kin, Resets;
    FrameRecorded(env, false, c, d, f);
    var a := WindDown(E_ENHANCE_YOUR_CALM, true);
    SlotAtom(env, false, d, a);
    assert ConnError(d, E_ENHANCE_YOUR_CALM) == Do(env, d, a);
  }

  lemma OthersStay(env: Env, c: Conn, f: InFrame, i: nat, rapid: nat)
    requires TableInv(env.lim, c) && i < |c.streams| && c.streams[i].id == f.sid && !c.hdr.active
    ensures var d := CloseAt(Seen(c, f), i).(rapidReset := rapid);
            && (forall k | 0 <= k < |d.streams| :: !Resets(f, d.streams[k].id) && Kin(c, d.streams[k].id))
            && (forall s | s > d.lastClientId :: !Resets(f, s))
            && !d.hdr.active && d.lastClientId == c.lastClientId && d.trace == Then(c.trace, Recv(f))
            && d.gotError == c.gotError
  {
    var c1 := Seen(c, f);
    var d := CloseAt(c1, i).(rapidReset := rapid);
    assert StreamShape(env.lim, c, c.streams[i]) && Distinct(c.streams);
    hide TableInv;
    forall k | 0 <= k < |d.streams|
      ensures !Resets(f, d.streams[k].id) && Kin(c, d.streams[k].id)
    {
      ClosedSlots(c1, i, k);
      var j := if k == i then |c.streams| - 1 else k;
      assert c.streams[j].id != f.sid;
      IsKin(c, d.streams[k].id, j);
    }
  }

  lemma ResetTable(env: Env, c: Conn, f: InFrame, i: nat, rapid: nat)
    requires TableInv(env.lim, c) && !c.hdr.active && i < |c.streams|
    ensures TableInv(env.lim, CloseAt(Seen(c, f), i).(rapidReset := rapid))
  {
    TableSeen(env, c, f);
    assert HdrShape(c);
    TableAtom(env, Seen(c, f), Close(i, rapid));
  }

  /** A frame in sequence that resets no stream in the table. */
  lemma SeenSilent(env: Env, c: Conn, f: InFrame)
    requires ResetInv(env, c) && !c.gotError && InSequence(c, f)
    requires f.kind == FT_RST_STREAM && |f.payload| == 4 ==> 0 < f.sid <= c.lastClientId && Find(c, f.sid).None?
    ensures SilenceInv(env, false, Seen(c, f))
  {
    var d := Seen(c, f);
    TableSeen(env, c, f);
    RecvStep(c.trace, f);
    NotInside(env, c);
    SameKin(c, d);
    assert !c.hdr.active ==> InboundOf(c.trace).open.None?;
    hide TableInv, ResetInside, IdsFit, Quiet, InboundOf, Find;
    FrameRecorded(env, false, c, d, f);
  }

  /** The reset of a stream that was never opened is a connection error. */
  lemma IdleResetSilent(env: Env, c: Conn, f: InFrame)
    requires ResetInv(env, c) && !c.gotError && !c.hdr.active && f.kind == FT_RST_STREAM && |f.payload| == 4
    requires f.sid == 0 || f.sid > c.lastClientId
    ensures SilenceInv(env, false, ConnError(Seen(c, f), E_PROTOCOL_ERROR))
  {
    var c1 := Seen(c, f);
    var d := ConnError(c1, E_PROTOCOL_ERROR);
    TableSeen(env, c, f);
    TableAtom(env, c1, WindDown(E_PROTOCOL_ERROR, true));
    assert d == Do(env, c1, WindDown(E_PROTOCOL_ERROR, true));
    ErrorShape(c, f, c1, E_PROTOCOL_ERROR);
    RecvStep(c.trace, f);
    NotInside(env, c);
    SameKin(c, d);
    assert InboundOf(c.trace).open.None?;
    NeverOpened(env, c, f);
    hide TableInv, ResetInside, IdsFit, Quiet, ConnError, Recorded, Do;
    FrameRecorded(env, false, c, d, f);
  }

  lemma NeverOpened(env: Env, c: Conn, f: InFrame)
    requires TableInv(env.lim, c) && (f.sid == 0 || f.sid > c.lastClientId)
    ensures forall k | 0 <= k < |c.streams| :: !Resets(f, c.streams[k].id)
  {
    forall k | 0 <= k < |c.streams|
      ensures !Resets(f, c.streams[k].id)
    {
      assert StreamShape(env.lim, c, c.streams[k]);
    }
  }

  lemma RstFrameSilent(env: Env, c: Conn, f: InFrame)
    requires ResetInv(env, c) && !c.gotError && InSequence(c, f) && f.kind == FT_RST_STREAM && |f.payload| == 4
    ensures SilenceInv(env, false, OnRstStream(env, Seen(c, f), f))
  {
    var c1, slot := Seen(c, f), Find(c, f.sid);
    assert Find(c1, f.sid) == slot && !c.hdr.active;
    hide SilenceInv, ResetInv, ConnError, CloseAt, Find, OnRstStream, FindFrom, InSequence;
    OnReset(env, c1, f);
    if f.sid == 0 {
      IdleResetSilent(env, c, f);
    } else if slot.Some? {
      var n := if c.streams[slot.value].responded then c.rapidReset else c.rapidReset + 1;
      ResetSilent(env, c, f, slot.value, n);
    } else if f.sid <= c.lastClientId {
      SeenSilent(env, c, f);
    } else {
      IdleResetSilent(env, c, f);
    }
  }

  /** The handler, case by case. */
  lemma OnReset(env: Env, c: Conn, f: InFrame)
    requires |f.payload| == 4
    ensures OnRstStream(env, c, f) ==
            if f.sid == 0 then ConnError(c, E_PROTOCOL_ERROR)
            else if Find(c, f.sid).Some? then
              var i := Find(c, f.sid).value;
              var n := if c.streams[i].responded then c.rapidReset else c.rapidReset + 1;
              var d := CloseAt(c, i).(rapidReset := n);
              if n > env.lim.maxStreams then ConnError(d, E_ENHANCE_YOUR_CALM) else d
            else if f.sid > c.lastClientId then ConnError(c, E_PROTOCOL_ERROR)
            else c
  {
    hide ConnError, Find, CloseAt;
  }

  /** A frame in sequence is never a reset inside a header block. */
  lemma FrameSilent(env: Env, c: Conn, f: InFrame, n: Feeding)
    requires ResetInv(env, c) && !c.gotError && Parsed(f) && InSequence(c, f)
    ensures SilenceInv(env, false, OnFrame(env, c, f, n))
  {
    if f.kind == FT_RST_STREAM && |f.payload| == 4 {
      RstFrameSilent(env, c, f);
    } else {
      hide OnFrame, SilenceInv, Kept, IgnoresSendWindows, IgnoresRecvWindows;
      SeenSilent(env, c, f);
      SilenceKept(env, false);
      SilenceIgnores(env, false);
      assert TableInv(env.lim, c);
      FrameKeeps(env, SilenceProperty(env, false), c, f, n);
    }
  }

  // ------------------------------------------------------------ everything

  lemma ChunkSilent(env: Env, inside: bool, c: Conn, i: nat)
    requires SilenceInv(env, inside, c) && Pumpable(c, i) && Sendable(env.lim, c, i) > 0
    ensures SilenceInv(env, inside, AfterChunk(env.lim, c, i))
  {
    TableChunk(env, c, i);
    var n, d := Sendable(env.lim, c, i), AfterChunk(env.lim, c, i);
    var e := SendChunk(c, i, n);
    assert Fit(c.trace, c.streams[i].id);
    ChunkParts(c, i, n);
    hide TableInv, IdsFit, Quiet, Sendable, SendChunk, Fit, Follows;
    OneEventFollows(c, e);
    ChunkHeirs(c, e, d, i);
    StepKeeps(env, inside, c, d);
  }

  lemma ChunkParts(c: Conn, i: nat, n: nat)
    requires i < |c.streams| && c.streams[i].bodyOff + n <= |c.streams[i].respBody| && Fit(c.trace, c.streams[i].id)
    ensures var e := SendChunk(c, i, n);
            && OneEvent(c, e) && |e.streams| == |c.streams|
            && (forall k | 0 <= k < |c.streams| :: e.streams[k].id == c.streams[k].id)
            && e.hdr == c.hdr && e.lastClientId == c.lastClientId && e.gotError == c.gotError
  {
    hide Fit;
  }

  lemma ChunkHeirs(c: Conn, e: Conn, d: Conn, i: nat)
    requires |e.streams| == |c.streams| && i < |c.streams|
             && (forall k | 0 <= k < |c.streams| :: c.streams[k].id == e.streams[k].id)
    requires e.hdr == c.hdr && e.lastClientId == c.lastClientId && e.gotError == c.gotError
    requires d == if e.streams[i].sendDone then CloseAt(e, i) else e
    ensures Heirs(c, d) && d.trace == e.trace
  {
    if e.streams[i].sendDone {
      KinClose(c, e, d, i);
    } else {
      forall k | 0 <= k < |d.streams|
        ensures Kin(c, d.streams[k].id)
      {
        IsKin(c, d.streams[k].id, k);
      }
    }
  }

  lemma DrainSilent(env: Env, inside: bool, c: Conn, n: nat)
    requires SilenceInv(env, inside, c)
    ensures SilenceInv(env, inside, Drain(c, n))
  {
    TableDrain(env, c, n);
    assert OneEvent(c, Drain(c, n));
    hide SilenceInv, TableInv, OneEvent;
    SameSlots(env, inside, c, Drain(c, n));
  }

  lemma FreshSilent(env: Env)
    ensures SilenceInv(env, true, Fresh())
  {
    assert Fresh().trace == Then(Start, Sent(Settings));
    assert Silent(Start) && NearlySilent(Start) && !ResetInside(Start);
    forall s: nat
      ensures !PeerReset(Fresh().trace, s)
    {
      assert !PeerReset(Start, s);
    }
  }

  ghost function ResetProperty(env: Env): Property {
    c => ResetInv(env, c)
  }

  lemma ResetSteady(env: Env)
    ensures Steady(env, ResetProperty(env))
  {
    var P := ResetProperty(env);
    assert forall c | P(c) :: TableInv(env.lim, c);
    hide TableInv, H2Blocks.BlockInv, SilenceInv, Do;
    forall c, code: nat, error: bool | P(c)
      ensures P(Do(env, c, WindDown(code, error)))
    {
      H2Blocks.AtomBlock(env, c, WindDown(code, error));
      SilenceAtom(env, true, c, WindDown(code, error));
    }
    forall c, needs: bool, got: nat | P(c) && got <= PREFACE_LEN && (needs ==> c.needSettings)
      ensures P(Do(env, c, Flags(needs, got)))
    {
      H2Blocks.AtomBlock(env, c, Flags(needs, got));
      SilenceAtom(env, true, c, Flags(needs, got));
    }
  }

  lemma FrameReset(env: Env, c: Conn, f: InFrame, n: Feeding)
    requires ResetInv(env, c) && !c.gotError && Parsed(f)
    ensures var d := OnFrame(env, c, f, n); ResetInv(env, d) && Silent(d.trace)
  {
    hide H2Blocks.BlockInv, SilenceInv, OnFrame, InSequence;
    H2Blocks.FrameBlock(env, c, f, n);
    var d := OnFrame(env, c, f, n);
    if InSequence(c, f) {
      FrameSilent(env, c, f, n);
      Inside(env, d);
      SilentInside(env, d);
    } else {
      OutOfSequenceSilent(env, c, f, n);
    }
  }

  lemma SilentInside(env: Env, c: Conn)
    requires SilenceInv(env, false, c)
    ensures Silent(c.trace)
  {
  }

  lemma ResetInvariant(env: Env)
    ensures Invariant(env, ResetProperty(env))
  {
    hide Steady, H2Blocks.BlockInv, SilenceInv, OnFrame, AfterChunk, Drain, Fresh, Sendable;
    var P := ResetProperty(env);
    ResetSteady(env);
    H2Blocks.FreshBlock(env);
    FreshSilent(env);
    forall c: Conn, f: InFrame, n: Feeding | P(c) && !c.gotError && Parsed(f)
      ensures P(OnFrame(env, c, f, n))
    {
      FrameReset(env, c, f, n);
    }
    forall c, i: nat | P(c) && Pumpable(c, i) && Sendable(env.lim, c, i) > 0
      ensures P(AfterChunk(env.lim, c, i))
    {
      H2Blocks.ChunkBlock(env, c, i);
      ChunkSilent(env, true, c, i);
    }
    forall c, n: nat | P(c)
      ensures P(Drain(c, n))
    {
      H2Blocks.DrainBlock(env, c, n);
      DrainSilent(env, true, c, n);
    }
  }

  lemma RunReset(env: Env, actions: seq<Action>)
    ensures ResetInv(env, Run(env, actions).conn)
  {
    hide Invariant, Run, ResetInv;
    ResetInvariant(env);
    RunKeeps(env, ResetProperty(env), actions);
    assert ResetProperty(env)(Run(env, actions).conn);
  }

  /**
    In every run nothing is sent on a stream after the client reset it, unless the last frame received
    is a reset inside a header block; that has broken the connection, and then only on its own stream.
   */
  lemma SilentAfterReset(env: Env, actions: seq<Action>)
    ensures var c := Run(env, actions).conn;
            && NearlySilent(c.trace)
            && (!ResetInside(c.trace) ==> Silent(c.trace))
            && (ResetInside(c.trace) ==> c.gotError)
  {
    hide Run;
    RunReset(env, actions);
  }

  // ------------------------------------------------------------ until the next pump

  lemma FeedFramesReset(env: Env, c: Conn, input: Octets, n: Feeding)
    requires ResetInv(env, c)
    ensures ResetInv(env, FeedFrames(env, c, input, n).0)
  {
    ResetInvariant(env);
    FeedFramesKeeps(env, ResetProperty(env), c, input, n);
    hide ResetInv, Invariant, Stable, FeedFrames;
    assert ResetProperty(env)(FeedFrames(env, c, input, n).0);
  }

  lemma {:induction false} FramesSilent(env: Env, c: Conn, input: Octets, n: Feeding)
    requires ResetInv(env, c) && Silent(c.trace)
    ensures var d := FeedFrames(env, c, input, n).0; ResetInv(env, d) && Silent(d.trace)
    decreases |input|
  {
    FeedFramesReset(env, c, input, n);
    H2Blocks.FeedTurn(env, c, input, n);
    hide ResetInv, FeedFrames, OnFrame, InSequence, ConnError, Silent, Read24, FirstFrame, Count;
    if !c.gotError && |input| >= FRAME_HDR {
      if Read24(input) > OUR_MAX_FRAME {
        ErrorStaysSilent(c, E_FRAME_SIZE_ERROR);
      } else if FirstFrame(input).Some? {
        var f := FirstFrame(input).value;
        H2Blocks.FrameParsed(input);
        FrameReset(env, c, f, Count(n, f));
        if InSequence(c, f) {
          FramesSilent(env, OnFrame(env, c, f, Count(n, f)), input[FRAME_HDR + |f.payload|..], Count(n, f));
        }
      }
    }
  }

  lemma ErrorStaysSilent(c: Conn, code: nat)
    requires Silent(c.trace)
    ensures Silent(ConnError(c, code).trace) && Silent(SendGoaway(c, code).trace)
  {
  }

  lemma {:induction false} PrefaceSilent(c: Conn, input: Octets)
    requires Silent(c.trace)
    ensures Silent(ConsumePreface(c, input).0.trace)
    decreases |input|
  {
    PrefaceTurn(c, input);
    hide ConsumePreface, ConnError, Silent;
    ErrorStaysSilent(c, E_PROTOCOL_ERROR);
    if c.prefaceGot < PREFACE_LEN && input != [] && input[0] == PREFACE[c.prefaceGot] as int {
      PrefaceSilent(c.(prefaceGot := c.prefaceGot + 1), input[1..]);
    }
  }

  lemma ActSilent(env: Env, s: Server, a: Action)
    requires ResetInv(env, s.conn) && Silent(s.conn.trace) && !a.DoPump?
    ensures Silent(Act(env, s, a).conn.trace)
  {
    hide ResetInv, Silent, ConsumePreface, FeedFrames;
    match a
    case DoFeed(octets) =>
      var input := s.input + octets;
      ResetSteady(env);
      PrefaceKeeps(env, ResetProperty(env), s.conn, input);
      var p := ConsumePreface(s.conn, input);
      assert ResetProperty(env)(p.0);
      PrefaceSilent(s.conn, input);
      FramesSilent(env, p.0, p.1, Feeding(0, 0));
    case DoGraceful => ErrorStaysSilent(s.conn, E_NO_ERROR);
    case DoDrain(n) => DrainStaysSilent(s.conn, n);
  }

  lemma DrainStaysSilent(c: Conn, n: nat)
    requires Silent(c.trace)
    ensures Silent(Drain(c, n).trace)
  {
  }

  /** Nothing is sent on a stream after its reset until the first pump after a connection error. */
  lemma {:induction false} SilentUntilPumped(env: Env, actions: seq<Action>, more: seq<Action>)
    requires !Run(env, actions).conn.gotError && forall a | a in more :: !a.DoPump?
    ensures Silent(Run(env, actions + more).conn.trace)
    decreases |more|
  {
    hide Act, Silent, ResetInside, NearlySilent;
    if more == [] {
      assert actions + more == actions;
      SilentAfterReset(env, actions);
    } else {
      var init, last := more[..|more| - 1], more[|more| - 1];
      var all := actions + more;
      SilentUntilPumped(env, actions, init);
      assert all[..|all| - 1] == actions + init && all[|all| - 1] == last;
      RunReset(env, actions + init);
      ActSilent(env, Run(env, actions + init), last);
    }
  }
}
