/**
  Sending under flow control (sections 6.9.1 and 6.9.2 of RFC 9113): the server's windows are
  the ones a peer computes from the frames exchanged, and no DATA frame exceeds them, the
  peer's frame size or the room in the output buffer.
 */
module H2Credit {
  import opened Bytes
  import opened H2Trace
  import opened H2Spec
  import opened H2Steps
  import opened H2Runs
  import opened H2Table

  ghost predicate StreamCredit(initial: nat, t: Trace, st: Stream) {
    && st.sendWindow == initial + Credit(t, st.id) - DataSent(t, st.id)
    && st.sendWindow <= MAX_WINDOW
    && DataSent(t, st.id) <= Credit(t, st.id) + MAX_WINDOW
  }

  /** Windows against the history, for the peer's settings as the server has them. */
  ghost predicate WindowInv(c: Conn) {
    && c.sendWindow == ConnectionWindow(c.trace) && 0 <= c.sendWindow <= MAX_WINDOW
    && (forall i | 0 <= i < |c.streams| :: StreamCredit(c.peerInitialWindow, c.trace, c.streams[i]))
    && (forall sid | sid > c.lastClientId :: Credit(c.trace, sid) == 0 && DataSent(c.trace, sid) == 0)
    && WithinCredit(c.trace)
  }

  /** The server's view of the peer's settings is the peer's. */
  ghost predicate SettingsInv(c: Conn) {
    c.peerInitialWindow == PeerInitialWindow(c.trace) && c.peerMaxFrame == PeerMaxFrame(c.trace)
  }

  ghost predicate BudgetInv(lim: Limits, c: Conn) {
    c.queued == Queued(c.trace) && WithinBudget(c.trace, lim.maxOutBytes)
  }

  ghost predicate CreditInv(env: Env, c: Conn) {
    && TableInv(env.lim, c)
    && BudgetInv(env.lim, c)
    && (!c.gotError ==> WindowInv(c) && SettingsInv(c))
  }

  // ------------------------------------------------------------ events without credit

  predicate Neutral(e: Event) {
    match e
    case Sent(f) => !f.Data?
    case Recv(f) => f.kind != FT_WINDOW_UPDATE && !AppliesSettings(f)
    case _ => true
  }

  ghost predicate SameCredit(t: Trace, t': Trace) {
    && (forall sid :: Credit(t', sid) == Credit(t, sid) && DataSent(t', sid) == DataSent(t, sid))
    && DataSentInAll(t') == DataSentInAll(t)
    && (WithinCredit(t) ==> WithinCredit(t'))
  }

  ghost predicate SameSettings(t: Trace, t': Trace) {
    PeerInitialWindow(t') == PeerInitialWindow(t) && PeerMaxFrame(t') == PeerMaxFrame(t)
  }

  lemma NeutralStep(t: Trace, e: Event)
    requires Neutral(e)
    ensures SameCredit(t, Then(t, e)) && SameSettings(t, Then(t, e))
  {
  }

  lemma SameRefl(t: Trace)
    ensures SameCredit(t, t) && SameSettings(t, t)
  {
  }

  predicate SameSender(a: Stream, b: Stream) {
    a.id == b.id && a.sendWindow == b.sendWindow
  }

  /** A stream known before with the same window, or a new one with the initial window. */
  ghost predicate Kin(c: Conn, st: Stream) {
    || (st.id > c.lastClientId && st.sendWindow == c.peerInitialWindow)
    || exists j | 0 <= j < |c.streams| :: SameSender(c.streams[j], st)
  }

  lemma IsKin(c: Conn, st: Stream, j: nat)
    requires j < |c.streams| && SameSender(c.streams[j], st)
    ensures Kin(c, st)
  {
  }

  lemma WindowsKeep(c: Conn, d: Conn)
    requires WindowInv(c) && SameCredit(c.trace, d.trace) && c.peerInitialWindow <= MAX_WINDOW
    requires forall k | 0 <= k < |d.streams| :: Kin(c, d.streams[k])
    requires c.lastClientId <= d.lastClientId
    requires d.sendWindow == c.sendWindow && d.peerInitialWindow == c.peerInitialWindow
    ensures WindowInv(d)
  {
    hide Credit, DataSent, DataSentInAll, WithinCredit;
    forall k | 0 <= k < |d.streams|
      ensures StreamCredit(d.peerInitialWindow, d.trace, d.streams[k])
    {
      var st := d.streams[k];
      if !(st.id > c.lastClientId && st.sendWindow == c.peerInitialWindow) {
        var j :| 0 <= j < |c.streams| && SameSender(c.streams[j], st);
        assert StreamCredit(c.peerInitialWindow, c.trace, c.streams[j]);
      }
    }
    assert Credit(d.trace, 0) == Credit(c.trace, 0);
  }

  /** Steps that neither grant nor use credit. */
  lemma NeutralKeeps(env: Env, c: Conn, d: Conn)
    requires CreditInv(env, c) && TableInv(env.lim, d) && BudgetInv(env.lim, d)
    requires SameCredit(c.trace, d.trace) && SameSettings(c.trace, d.trace)
    requires forall k | 0 <= k < |d.streams| :: Kin(c, d.streams[k])
    requires c.lastClientId <= d.lastClientId && (c.gotError ==> d.gotError)
    requires d.sendWindow == c.sendWindow && d.peerInitialWindow == c.peerInitialWindow
             && d.peerMaxFrame == c.peerMaxFrame
    ensures CreditInv(env, d)
  {
    hide WindowInv, SameCredit, SameSettings, PeerSetting, BudgetInv;
    if !d.gotError {
      WindowsKeep(c, d);
      SettingsKeep(c, d);
    }
  }

  lemma SettingsKeep(c: Conn, d: Conn)
    requires SettingsInv(c) && SameSettings(c.trace, d.trace)
    requires d.peerInitialWindow == c.peerInitialWindow && d.peerMaxFrame == c.peerMaxFrame
    ensures SettingsInv(d)
  {
    hide PeerInitialWindow, PeerMaxFrame;
  }

  lemma KinSlots(c: Conn, d: Conn)
    requires |d.streams| == |c.streams| && forall k | 0 <= k < |c.streams| :: SameSender(c.streams[k], d.streams[k])
    ensures forall k | 0 <= k < |d.streams| :: Kin(c, d.streams[k])
  {
    forall k | 0 <= k < |d.streams|
      ensures Kin(c, d.streams[k])
    {
      IsKin(c, d.streams[k], k);
    }
  }

  lemma KinClose(c: Conn, d: Conn, i: nat)
    requires i < |c.streams| && d.streams == CloseAt(c, i).streams
    ensures forall k | 0 <= k < |d.streams| :: Kin(c, d.streams[k])
  {
    forall k | 0 <= k < |d.streams|
      ensures Kin(c, d.streams[k])
    {
      ClosedSlots(c, i, k);
      IsKin(c, d.streams[k], if k == i then |c.streams| - 1 else k);
    }
  }

  lemma KinOpen(env: Env, c: Conn, f: InFrame)
    requires f.sid > c.lastClientId
    ensures var d := BeginStream(env.lim, c, f); forall k | 0 <= k < |d.streams| :: Kin(c, d.streams[k])
  {
    var d := BeginStream(env.lim, c, f);
    forall k | 0 <= k < |d.streams|
      ensures Kin(c, d.streams[k])
    {
      if k < |c.streams| {
        assert d.streams[k] == c.streams[k];
        IsKin(c, d.streams[k], k);
      }
    }
  }

  // ------------------------------------------------------------ atomic steps

  /** At most one more event, accounted for in the buffer. */
  ghost predicate OneNeutral(c: Conn, d: Conn) {
    || (d.trace == c.trace && d.queued == c.queued)
    || (d.trace.Then? && d.trace.before == c.trace && Neutral(d.trace.event)
        && d.queued == Queued(d.trace) - Queued(c.trace) + c.queued)
  }

  lemma OneNeutralKeeps(env: Env, c: Conn, d: Conn)
    requires CreditInv(env, c) && TableInv(env.lim, d) && OneNeutral(c, d)
    requires forall k | 0 <= k < |d.streams| :: Kin(c, d.streams[k])
    requires c.lastClientId <= d.lastClientId && (c.gotError ==> d.gotError)
    requires d.sendWindow == c.sendWindow && d.peerInitialWindow == c.peerInitialWindow
             && d.peerMaxFrame == c.peerMaxFrame
    ensures CreditInv(env, d)
  {
    hide TableInv, WindowInv, SettingsInv;
    SameRefl(c.trace);
    if d.trace != c.trace {
      NeutralStep(c.trace, d.trace.event);
    }
    NeutralKeeps(env, c, d);
  }

  lemma SlotCredit(env: Env, c: Conn, a: Atom)
    requires CreditInv(env, c) && Enabled(env, c, a)
    requires a.Answer? || a.Gather? || a.PeerGoaway? || a.Flags? || a.Trailer? || a.Accept? || a.Collect? || a.Refuse?
    ensures CreditInv(env, Do(env, c, a))
  {
    TableAtom(env, c, a);
    SlotShape(env, c, a);
    hide CreditInv, TableInv, Do, OneNeutral, Enabled;
    KinSlots(c, Do(env, c, a));
    OneNeutralKeeps(env, c, Do(env, c, a));
  }

  lemma SlotShape(env: Env, c: Conn, a: Atom)
    requires Enabled(env, c, a)
    requires a.Answer? || a.Gather? || a.PeerGoaway? || a.Flags? || a.Trailer? || a.Accept? || a.Collect? || a.Refuse?
    ensures var d := Do(env, c, a);
            && OneNeutral(c, d) && |d.streams| == |c.streams| && d.lastClientId == c.lastClientId
            && (forall k | 0 <= k < |c.streams| :: SameSender(c.streams[k], d.streams[k]))
            && d.sendWindow == c.sendWindow && d.peerInitialWindow == c.peerInitialWindow
            && d.peerMaxFrame == c.peerMaxFrame
            && (c.gotError ==> d.gotError)
  {
  }

  lemma WindDownCredit(env: Env, c: Conn, a: Atom)
    requires CreditInv(env, c) && Enabled(env, c, a) && (a.WindDown? || a.Abandon?)
    ensures CreditInv(env, Do(env, c, a))
  {
    TableAtom(env, c, a);
    WindDownShape(env, c, a);
    hide CreditInv, TableInv, Do, OneNeutral;
    KinSlots(c, Do(env, c, a));
    OneNeutralKeeps(env, c, Do(env, c, a));
  }

  lemma WindDownShape(env: Env, c: Conn, a: Atom)
    requires Enabled(env, c, a) && (a.WindDown? || a.Abandon?)
    ensures var d := Do(env, c, a);
            && OneNeutral(c, d) && d.streams == c.streams && d.lastClientId == c.lastClientId
            && d.sendWindow == c.sendWindow && d.peerInitialWindow == c.peerInitialWindow
            && d.peerMaxFrame == c.peerMaxFrame
            && (c.gotError ==> d.gotError)
  {
  }

  lemma GoneCredit(env: Env, c: Conn, a: Atom)
    requires CreditInv(env, c) && Enabled(env, c, a) && (a.Cancel? || a.Close?)
    ensures CreditInv(env, Do(env, c, a))
  {
    TableAtom(env, c, a);
    hide CreditInv, TableInv;
    assert Do(env, c, a).streams == CloseAt(c, a.slot).streams;
    KinClose(c, Do(env, c, a), a.slot);
    OneNeutralKeeps(env, c, Do(env, c, a));
  }

  lemma BeginCredit(env: Env, c: Conn, a: Atom)
    requires CreditInv(env, c) && a.Begin? && Enabled(env, c, a)
    ensures CreditInv(env, Do(env, c, a))
  {
    TableAtom(env, c, a);
    hide CreditInv, TableInv;
    KinOpen(env, c, a.frame);
    OneNeutralKeeps(env, c, Do(env, c, a));
  }

  lemma {:induction false} SendBlockCredit(lim: Limits, c: Conn, sid: nat, block: Octets, first: bool, endStream: bool)
    requires BudgetInv(lim, c)
    ensures var d := SendBlock(c, sid, block, first, endStream);
            SameCredit(c.trace, d.trace) && SameSettings(c.trace, d.trace) && BudgetInv(lim, d)
    decreases |block|
  {
    hide Credit, DataSent, DataSentInAll, WithinCredit, PeerSetting;
    var maxf := FrameLimit(c);
    var last := |block| <= maxf;
    var chunk := if last then block else block[..maxf];
    var f := if first then Headers(sid, endStream, last, chunk) else Continuation(sid, last, chunk);
    NeutralStep(c.trace, Sent(f));
    if !last {
      SendBlockCredit(lim, Emit(c, f), sid, block[maxf..], false, endStream);
    }
  }

  lemma DispatchCredit(env: Env, c: Conn, i: nat)
    requires i < |c.streams| && !c.streams[i].dispatched && !c.streams[i].responded && BudgetInv(env.lim, c)
    ensures var d := Dispatch(env, c, i);
            SameCredit(c.trace, d.trace) && SameSettings(c.trace, d.trace) && BudgetInv(env.lim, d)
  {
    hide Dispatch, FieldBlock, SendBlock, Credit, DataSent, DataSentInAll, WithinCredit, PeerSetting;
    var st := c.streams[i];
    var r := env.app(st.id);
    var c1 := Note(SetStream(c, i, st.(dispatched := true)), Dispatched(st.id, st.isHead, st.reqBody));
    DispatchTrace(env, c, i);
    NeutralStep(c.trace, Dispatched(st.id, st.isHead, st.reqBody));
    SendBlockCredit(env.lim, c1, st.id, FieldBlock(r), true, !HasBody(r, st.isHead));
  }

  lemma FinishCredit(env: Env, c: Conn, a: Atom)
    requires CreditInv(env, c) && a.Finish? && Enabled(env, c, a)
    ensures CreditInv(env, Do(env, c, a))
  {
    TableAtom(env, c, a);
    var d := Do(env, c, a);
    var i, st := a.slot, c.streams[a.slot];
    assert StreamShape(env.lim, c, st);
    var st1 := st.(gotHeaders := true, endStreamRecv := true, isHead := a.isHead);
    var c1 := SetStream(EndBlock(c, a.blocks), i, st1);
    FinishShape(env, c, a);
    hide TableInv, WindowInv, SettingsInv, Dispatch, CloseAt, Do, SameCredit, SameSettings;
    DispatchCredit(env, c1, i);
    FinishKin(env, c, d, a);
    assert d == Dispatch(env, c1, i);
    CloseFrame(SetStream(EndBlock(c, a.blocks), i, Answered(st1, env.app(st.id))), i);
    NeutralKeeps(env, c, d);
  }

  lemma CloseFrame(c: Conn, i: nat)
    requires i < |c.streams|
    ensures var d := CloseAt(c, i);
            && d.sendWindow == c.sendWindow && d.peerInitialWindow == c.peerInitialWindow
            && d.peerMaxFrame == c.peerMaxFrame
            && d.lastClientId == c.lastClientId && d.gotError == c.gotError
  {
  }

  lemma FinishKin(env: Env, c: Conn, d: Conn, a: Atom)
    requires a.Finish? && Enabled(env, c, a)
    requires var st := c.streams[a.slot];
             var st' := Answered(st.(gotHeaders := true, endStreamRecv := true, isHead := a.isHead), env.app(st.id));
             var c1 := SetStream(EndBlock(c, a.blocks), a.slot, st');
             d.streams == (if st'.sendDone then CloseAt(c1, a.slot) else c1).streams
    ensures forall k | 0 <= k < |d.streams| :: Kin(c, d.streams[k])
  {
    hide SawEndStream, HasBody;
    var i, st := a.slot, c.streams[a.slot];
    var st' := Answered(st.(gotHeaders := true, endStreamRecv := true, isHead := a.isHead), env.app(st.id));
    var c1 := SetStream(EndBlock(c, a.blocks), i, st');
    forall k | 0 <= k < |d.streams|
      ensures Kin(c, d.streams[k])
    {
      if st'.sendDone {
        ClosedSlots(c1, i, k);
        IsKin(c, d.streams[k], if k == i then |c.streams| - 1 else k);
      } else {
        IsKin(c, d.streams[k], k);
      }
    }
  }

  lemma CreditAtom(env: Env, c: Conn, a: Atom)
    requires CreditInv(env, c) && Enabled(env, c, a)
    ensures CreditInv(env, Do(env, c, a))
  {
    hide CreditInv, Enabled, Do;
    match a
    case Begin(f) => BeginCredit(env, c, a);
    case Finish(_, _, _) => FinishCredit(env, c, a);
    case Cancel(_, _, _) => GoneCredit(env, c, a);
    case Close(_, _) => GoneCredit(env, c, a);
    case WindDown(_, _) => WindDownCredit(env, c, a);
    case Abandon(_) => WindDownCredit(env, c, a);
    case _ => SlotCredit(env, c, a);
  }

  // ------------------------------------------------------------ using credit

  /** One DATA frame of `n` octets within all limits. */
  lemma DataStep(t: Trace, f: OutFrame)
    requires f.Data?
    ensures var t', n := Then(t, Sent(f)), |f.payload|;
            && (forall s ::
                  Credit(t', s) == Credit(t, s) && DataSent(t', s) == DataSent(t, s) + if s == f.sid then n else 0)
            && DataSentInAll(t') == DataSentInAll(t) + n
            && PeerInitialWindow(t') == PeerInitialWindow(t) && PeerMaxFrame(t') == PeerMaxFrame(t)
            && (WithinCredit(t') <==>
                WithinCredit(t) && n <= StreamWindow(t, f.sid) && n <= ConnectionWindow(t) && n <= PeerMaxFrame(t))
  {
  }

  lemma ChunkWindows(env: Env, c: Conn, i: nat)
    requires WindowInv(c) && SettingsInv(c) && c.peerInitialWindow <= MAX_WINDOW && Distinct(c.streams)
    requires Pumpable(c, i) && Sendable(env.lim, c, i) > 0 && c.streams[i].id <= c.lastClientId
    ensures var d := SendChunk(c, i, Sendable(env.lim, c, i)); WindowInv(d) && SettingsInv(d)
  {
    var n, st := Sendable(env.lim, c, i), c.streams[i];
    var d := SendChunk(c, i, n);
    var f := d.trace.event.out;
    assert d.trace == Then(c.trace, Sent(f)) && f.Data? && f.sid == st.id && |f.payload| == n;
    DataStep(c.trace, f);
    assert StreamCredit(c.peerInitialWindow, c.trace, st);
    assert n <= st.sendWindow && n <= c.sendWindow && n <= c.peerMaxFrame;
    hide Credit, DataSent, DataSentInAll, WithinCredit, PeerSetting, Sendable;
    forall k | 0 <= k < |d.streams|
      ensures StreamCredit(d.peerInitialWindow, d.trace, d.streams[k])
    {
      assert StreamCredit(c.peerInitialWindow, c.trace, c.streams[k]);
    }
  }

  lemma ChunkCredit(env: Env, c: Conn, i: nat)
    requires CreditInv(env, c) && Pumpable(c, i) && Sendable(env.lim, c, i) > 0
    ensures CreditInv(env, AfterChunk(env.lim, c, i))
  {
    TableChunk(env, c, i);
    assert StreamShape(env.lim, c, c.streams[i]) && Distinct(c.streams);
    var d := AfterChunk(env.lim, c, i);
    var e := SendChunk(c, i, Sendable(env.lim, c, i));
    assert BudgetInv(env.lim, e);
    if !c.gotError {
      ChunkWindows(env, c, i);
    }
    hide TableInv, WindowInv, SettingsInv, BudgetInv, Sendable;
    if e.streams[i].sendDone {
      CloseWindows(env.lim, e, i);
    }
  }

  /** Freeing a slot says nothing about the other streams' windows. */
  lemma CloseWindows(lim: Limits, e: Conn, i: nat)
    requires i < |e.streams| && e.peerInitialWindow <= MAX_WINDOW
    ensures WindowInv(e) ==> WindowInv(CloseAt(e, i))
    ensures SettingsInv(e) ==> SettingsInv(CloseAt(e, i))
    ensures BudgetInv(lim, e) ==> BudgetInv(lim, CloseAt(e, i))
  {
    var d := CloseAt(e, i);
    if WindowInv(e) {
      hide WindowInv;
      SameRefl(e.trace);
      KinClose(e, d, i);
      WindowsKeep(e, d);
    }
  }

  // ------------------------------------------------------------ receiving credit

  lemma GrantStep(t: Trace, f: InFrame)
    requires !AppliesSettings(f)
    ensures var t' := Then(t, Recv(f));
            && (forall s :: Credit(t', s) == Credit(t, s) + Grant(f, s) && DataSent(t', s) == DataSent(t, s))
            && DataSentInAll(t') == DataSentInAll(t) && (WithinCredit(t') <==> WithinCredit(t))
            && SameSettings(t, t')
  {
  }

  lemma ErrorCredit(env: Env, c: Conn, code: nat)
    requires TableInv(env.lim, c) && BudgetInv(env.lim, c)
    ensures CreditInv(env, ConnError(c, code))
  {
    TableAtom(env, c, WindDown(code, true));
    assert Do(env, c, WindDown(code, true)) == ConnError(c, code);
  }

  lemma SeenBudget(env: Env, c: Conn, f: InFrame)
    requires CreditInv(env, c)
    ensures TableInv(env.lim, Seen(c, f)) && BudgetInv(env.lim, Seen(c, f))
  {
    TableSeen(env, c, f);
  }

  /** A frame out of sequence is a connection error, whatever credit it carries. */
  lemma OutOfSequenceCredit(env: Env, c: Conn, f: InFrame, n: Feeding)
    requires CreditInv(env, c) && !InSequence(c, f)
    ensures CreditInv(env, OnFrame(env, c, f, n))
  {
    hide TableInv, WindowInv, SettingsInv;
    SeenBudget(env, c, f);
    var c1 := Seen(c, f);
    PrefaceBound(env.lim, c1);
    var a := Flags(c.needSettings && f.kind != FT_SETTINGS, c1.prefaceGot);
    TableAtom(env, c1, a);
    ErrorCredit(env, Do(env, c1, a), E_PROTOCOL_ERROR);
  }

  /** Every window grows by what the frame grants it. */
  lemma GrantWindows(c: Conn, d: Conn, f: InFrame)
    requires WindowInv(c) && !AppliesSettings(f) && d.trace == Then(c.trace, Recv(f))
    requires d.lastClientId == c.lastClientId && d.peerInitialWindow == c.peerInitialWindow
    requires d.sendWindow == c.sendWindow + Grant(f, 0) <= MAX_WINDOW
    requires forall sid | sid > c.lastClientId :: Grant(f, sid) == 0
    requires |d.streams| == |c.streams|
    requires forall k | 0 <= k < |d.streams| ::
               d.streams[k].id == c.streams[k].id
               && d.streams[k].sendWindow == c.streams[k].sendWindow + Grant(f, c.streams[k].id) <= MAX_WINDOW
    ensures WindowInv(d)
  {
    GrantStep(c.trace, f);
    hide Credit, DataSent, DataSentInAll, WithinCredit, Grant;
    forall k | 0 <= k < |d.streams|
      ensures StreamCredit(d.peerInitialWindow, d.trace, d.streams[k])
    {
      assert StreamCredit(c.peerInitialWindow, c.trace, c.streams[k]);
    }
  }

  lemma SettingsGrant(c: Conn, d: Conn, f: InFrame)
    requires SettingsInv(c) && !AppliesSettings(f) && d.trace == Then(c.trace, Recv(f))
    requires d.peerInitialWindow == c.peerInitialWindow && d.peerMaxFrame == c.peerMaxFrame
    ensures SettingsInv(d)
  {
    GrantStep(c.trace, f);
    hide PeerSetting;
  }

  lemma NoGrant(f: InFrame, sid: nat)
    ensures f.sid != sid ==> Grant(f, sid) == 0
    ensures f.kind == FT_WINDOW_UPDATE && |f.payload| == 4 && f.sid == sid ==> Grant(f, sid) == Read31(f.payload)
  {
  }

  /** Credit for the connection. */
  lemma ConnUpdateCredit(env: Env, c: Conn, f: InFrame)
    requires CreditInv(env, c) && !c.gotError && f.kind == FT_WINDOW_UPDATE && |f.payload| == 4 && f.sid == 0
    requires Read31(f.payload) > 0
    ensures CreditInv(env, OnWindowUpdate(Seen(c, f), f))
  {
    hide TableInv, WindowInv, Read31, SettingsInv;
    var incr := Read31(f.payload);
    var c1 := Seen(c, f);
    var d := c1.(sendWindow := c.sendWindow + incr);
    SeenBudget(env, c, f);
    TableBounds(env.lim, c1);
    TableSendWindows(env, c1, c1.streams, c.sendWindow + incr, c1.peerInitialWindow, c1.peerMaxFrame);
    assert d == Tuned(c1, c1.streams, c.sendWindow + incr, c1.peerInitialWindow, c1.peerMaxFrame);
    if d.sendWindow > MAX_WINDOW {
      ErrorCredit(env, d, E_FLOW_CONTROL_ERROR);
    } else {
      ConnGrant(env, c, d, f);
      SettingsGrant(c, d, f);
    }
  }

  lemma TableBounds(lim: Limits, c: Conn)
    requires TableInv(lim, c)
    ensures c.peerInitialWindow <= MAX_WINDOW && 16384 <= c.peerMaxFrame <= 16777215
  {
  }

  lemma ConnGrant(env: Env, c: Conn, d: Conn, f: InFrame)
    requires TableInv(env.lim, c) && WindowInv(c) && f.kind == FT_WINDOW_UPDATE && |f.payload| == 4 && f.sid == 0
    requires d == Seen(c, f).(sendWindow := c.sendWindow + Read31(f.payload)) && d.sendWindow <= MAX_WINDOW
    ensures WindowInv(d)
  {
    NoGrant(f, 0);
    forall k | 0 <= k < |c.streams|
      ensures Grant(f, c.streams[k].id) == 0 && c.streams[k].sendWindow <= MAX_WINDOW
    {
      assert StreamShape(env.lim, c, c.streams[k]);
      assert StreamCredit(c.peerInitialWindow, c.trace, c.streams[k]);
      NoGrant(f, c.streams[k].id);
    }
    hide TableInv, WindowInv, Read31;
    GrantWindows(c, d, f);
  }

  /** Credit for a stream in the table. */
  lemma StreamUpdateCredit(env: Env, c: Conn, f: InFrame, i: nat)
    requires CreditInv(env, c) && !c.gotError && f.kind == FT_WINDOW_UPDATE && |f.payload| == 4 && f.sid > 0
    requires i < |c.streams| && c.streams[i].id == f.sid && !c.hdr.active
    ensures var st := c.streams[i].(sendWindow := c.streams[i].sendWindow + Read31(f.payload));
            var c1 := SetStream(Seen(c, f), i, st);
            if st.sendWindow > MAX_WINDOW then CreditInv(env, ResetAt(c1, i, E_FLOW_CONTROL_ERROR))
              else CreditInv(env, c1)
  {
    var c0 := Seen(c, f);
    var st := c.streams[i].(sendWindow := c.streams[i].sendWindow + Read31(f.payload));
    var c1 := SetStream(c0, i, st);
    assert StreamShape(env.lim, c, c.streams[i]) && Distinct(c.streams);
    SeenBudget(env, c, f);
    TableSendWindows(env, c0, c0.streams[i := st], c0.sendWindow, c0.peerInitialWindow, c0.peerMaxFrame);
    assert c1 == Tuned(c0, c0.streams[i := st], c0.sendWindow, c0.peerInitialWindow, c0.peerMaxFrame);
    hide StreamShape, HdrShape, Read31;
    SettingsGrant(c, c1, f);
    NoGrant(f, 0);
    forall sid
      ensures sid != f.sid ==> Grant(f, sid) == 0
      ensures sid == f.sid ==> Grant(f, sid) == Read31(f.payload)
    {
      NoGrant(f, sid);
    }
    if st.sendWindow <= MAX_WINDOW {
      StreamGrant(env, c, c1, f, i);
    } else {
      OverflowReset(env, c, c1, f, i);
    }
  }

  lemma StreamGrant(env: Env, c: Conn, c1: Conn, f: InFrame, i: nat)
    requires WindowInv(c) && Distinct(c.streams) && f.kind == FT_WINDOW_UPDATE && 0 < f.sid <= c.lastClientId
    requires i < |c.streams| && c.streams[i].id == f.sid
    requires |f.payload| == 4
    requires forall sid :: if sid != f.sid then Grant(f, sid) == 0 else Grant(f, sid) == Read31(f.payload)
    requires c.streams[i].sendWindow + Read31(f.payload) <= MAX_WINDOW
    requires c1 == SetStream(Seen(c, f), i, c.streams[i].(sendWindow := c.streams[i].sendWindow + Read31(f.payload)))
    ensures WindowInv(c1)
  {
    hide Grant, Read31;
    forall k | 0 <= k < |c.streams|
      ensures c1.streams[k].id == c.streams[k].id
      ensures c1.streams[k].sendWindow == c.streams[k].sendWindow + Grant(f, c.streams[k].id) <= MAX_WINDOW
    {
      assert StreamCredit(c.peerInitialWindow, c.trace, c.streams[k]);
    }
    GrantWindows(c, c1, f);
  }

  /** Too much credit for a stream costs it its life; the others keep their windows. */
  lemma OverflowReset(env: Env, c: Conn, c1: Conn, f: InFrame, i: nat)
    requires CreditInv(env, c) && !c.gotError && f.kind == FT_WINDOW_UPDATE && 0 < f.sid <= c.lastClientId
    requires i < |c.streams| && c.streams[i].id == f.sid && !c.hdr.active && |f.payload| == 4
    requires forall sid | sid != f.sid :: Grant(f, sid) == 0
    requires |c1.streams| == |c.streams| && c1.streams[i := c.streams[i]] == c.streams && c1.streams[i].id == f.sid
    requires c1 == Seen(c, f).(streams := c1.streams)
    requires TableInv(env.lim, c1) && BudgetInv(env.lim, c1) && SettingsInv(c1)
    ensures CreditInv(env, ResetAt(c1, i, E_FLOW_CONTROL_ERROR))
  {
    var d := ResetAt(c1, i, E_FLOW_CONTROL_ERROR);
    var a := Cancel(i, E_FLOW_CONTROL_ERROR, c1.blocks);
    assert HdrShape(c1) && Distinct(c.streams);
    TableAtom(env, c1, a);
    assert Do(env, c1, a) == d;
    ResetBudget(env.lim, c1, i, E_FLOW_CONTROL_ERROR);
    hide TableInv, Grant, HdrShape, Do, BudgetInv, WindowInv;
    OverflowWindows(c, c1, f, i);
  }

  lemma OverflowWindows(c: Conn, c1: Conn, f: InFrame, i: nat)
    requires WindowInv(c) && Distinct(c.streams) && f.kind == FT_WINDOW_UPDATE && 0 < f.sid <= c.lastClientId
    requires i < |c.streams| && c.streams[i].id == f.sid
    requires forall sid | sid != f.sid :: Grant(f, sid) == 0
    requires |c1.streams| == |c.streams| && c1.streams[i := c.streams[i]] == c.streams && c1.streams[i].id == f.sid
    requires c1 == Seen(c, f).(streams := c1.streams) && SettingsInv(c1)
    ensures var d := ResetAt(c1, i, E_FLOW_CONTROL_ERROR); WindowInv(d) && SettingsInv(d)
  {
    var d := ResetAt(c1, i, E_FLOW_CONTROL_ERROR);
    assert d.streams == CloseAt(c, i).streams;
    GrantStep(c.trace, f);
    NeutralStep(c1.trace, Sent(RstStream(f.sid, E_FLOW_CONTROL_ERROR)));
    assert ConnectionWindow(d.trace) == ConnectionWindow(c.trace);
    hide Credit, DataSent, DataSentInAll, WithinCredit, Grant, PeerSetting;
    forall k | 0 <= k < |d.streams|
      ensures StreamCredit(d.peerInitialWindow, d.trace, d.streams[k])
    {
      ClosedSlots(c, i, k);
      var j := if k == i then |c.streams| - 1 else k;
      assert StreamCredit(c.peerInitialWindow, c.trace, c.streams[j]);
      assert c.streams[j].id != f.sid;
    }
  }

  lemma ResetBudget(lim: Limits, c: Conn, i: nat, code: nat)
    requires BudgetInv(lim, c) && i < |c.streams|
    ensures BudgetInv(lim, ResetAt(c, i, code))
  {
  }

  /** WINDOW_UPDATE that grants nothing: the frame alone changes no window. */
  lemma SeenCredit(env: Env, c: Conn, f: InFrame)
    requires CreditInv(env, c) && !AppliesSettings(f) && (forall sid | sid > 0 :: Grant(f, sid) == 0)
             && Grant(f, 0) == 0
    ensures CreditInv(env, Seen(c, f))
  {
    SeenBudget(env, c, f);
    hide TableInv, Grant;
    if !c.gotError {
      forall k | 0 <= k < |c.streams|
        ensures c.streams[k].sendWindow <= MAX_WINDOW && Grant(f, c.streams[k].id) == 0
      {
        assert StreamCredit(c.peerInitialWindow, c.trace, c.streams[k]);
      }
      GrantWindows(c, Seen(c, f), f);
      SettingsGrant(c, Seen(c, f), f);
    }
  }

  /** Credit for a stream that was closed: it is gone, so nothing changes. */
  lemma ClosedUpdateCredit(env: Env, c: Conn, f: InFrame)
    requires CreditInv(env, c) && !c.gotError && f.kind == FT_WINDOW_UPDATE && 0 < f.sid <= c.lastClientId
    requires forall i | 0 <= i < |c.streams| :: c.streams[i].id != f.sid
    ensures CreditInv(env, Seen(c, f))
  {
    SeenBudget(env, c, f);
    hide TableInv, Read31;
    NoGrant(f, 0);
    forall k | 0 <= k < |c.streams|
      ensures c.streams[k].sendWindow <= MAX_WINDOW && Grant(f, c.streams[k].id) == 0
    {
      assert StreamCredit(c.peerInitialWindow, c.trace, c.streams[k]);
      NoGrant(f, c.streams[k].id);
    }
    GrantWindows(c, Seen(c, f), f);
    SettingsGrant(c, Seen(c, f), f);
  }

  lemma UpdateFrameCredit(env: Env, c: Conn, f: InFrame)
    requires CreditInv(env, c) && !c.gotError && f.kind == FT_WINDOW_UPDATE && !c.hdr.active
    ensures CreditInv(env, OnWindowUpdate(Seen(c, f), f))
  {
    hide CreditInv, ConnError, ResetAt, SetStream, Read31;
    var c1 := Seen(c, f);
    assert Find(c1, f.sid) == Find(c, f.sid);
    UpdateErrors(env, c, f);
    if |f.payload| == 4 {
      if f.sid == 0 {
        if Read31(f.payload) > 0 {
          ConnUpdateCredit(env, c, f);
        }
      } else if Find(c, f.sid).None? {
        if f.sid <= c.lastClientId {
          ClosedUpdateCredit(env, c, f);
        }
      } else if Read31(f.payload) == 0 {
        ZeroUpdateCredit(env, c, f, Find(c, f.sid).value);
      } else {
        StreamUpdateCredit(env, c, f, Find(c, f.sid).value);
      }
    }
  }

  lemma UpdateErrors(env: Env, c: Conn, f: InFrame)
    requires CreditInv(env, c)
    ensures CreditInv(env, ConnError(Seen(c, f), E_FRAME_SIZE_ERROR))
    ensures CreditInv(env, ConnError(Seen(c, f), E_PROTOCOL_ERROR))
    ensures CreditInv(env, ConnError(Seen(c, f), E_ENHANCE_YOUR_CALM))
  {
    SeenBudget(env, c, f);
    hide CreditInv, ConnError;
    ErrorCredit(env, Seen(c, f), E_FRAME_SIZE_ERROR);
    ErrorCredit(env, Seen(c, f), E_PROTOCOL_ERROR);
    ErrorCredit(env, Seen(c, f), E_ENHANCE_YOUR_CALM);
  }

  lemma ZeroUpdateCredit(env: Env, c: Conn, f: InFrame, i: nat)
    requires CreditInv(env, c) && f.kind == FT_WINDOW_UPDATE && |f.payload| == 4 && Read31(f.payload) == 0
    requires i < |c.streams| && !c.hdr.active
    ensures CreditInv(env, ResetAt(Seen(c, f), i, E_PROTOCOL_ERROR))
  {
    SeenCredit(env, c, f);
    var c1 := Seen(c, f);
    assert HdrShape(c1);
    var a := Cancel(i, E_PROTOCOL_ERROR, c1.blocks);
    hide CreditInv;
    CreditAtom(env, c1, a);
    assert Do(env, c1, a) == ResetAt(c1, i, E_PROTOCOL_ERROR);
  }

  // ------------------------------------------------------------ the peer's settings

  /** Re-targeting moves every window by the change of the initial window. */
  lemma {:induction false} RetargetWindows(streams: seq<Stream>, delta: int, from: nat)
    requires from <= |streams| && Retarget(streams, delta, from).1
    ensures var r := Retarget(streams, delta, from).0;
            && (forall k | 0 <= k < from :: r[k] == streams[k])
            && forall k | from <= k < |streams| ::
                 r[k] == streams[k].(sendWindow := streams[k].sendWindow + delta) && r[k].sendWindow <= MAX_WINDOW
    decreases |streams| - from
  {
    if from < |streams| {
      var st := streams[from].(sendWindow := streams[from].sendWindow + delta);
      RetargetWindows(streams[from := st], delta, from + 1);
    }
  }

  lemma SettingWindows(c: Conn, id: nat, val: nat)
    requires WindowInv(c) && !c.gotError && !ApplySetting(c, id, val).gotError
    ensures var d := ApplySetting(c, id, val);
            && WindowInv(d) && d.trace == c.trace && d.queued == c.queued
            && d.peerInitialWindow == (if id == S_INITIAL_WINDOW_SIZE then val else c.peerInitialWindow)
            && d.peerMaxFrame == (if id == S_MAX_FRAME_SIZE then val else c.peerMaxFrame)
  {
    var d := ApplySetting(c, id, val);
    if id == S_INITIAL_WINDOW_SIZE {
      RetargetWindows(c.streams, val - c.peerInitialWindow, 0);
      hide Credit, DataSent, DataSentInAll, WithinCredit, Retarget;
      forall k | 0 <= k < |d.streams|
        ensures StreamCredit(d.peerInitialWindow, d.trace, d.streams[k])
      {
        assert StreamCredit(c.peerInitialWindow, c.trace, c.streams[k]);
      }
    }
  }

  lemma {:induction false} SettingsWindows(c: Conn, payload: Octets)
    requires WindowInv(c) && !c.gotError && |payload| % 6 == 0 && !ApplySettings(c, payload).gotError
    ensures var d := ApplySettings(c, payload);
            && WindowInv(d) && d.trace == c.trace && d.queued == c.queued
            && d.peerInitialWindow == SettingAfter(payload, S_INITIAL_WINDOW_SIZE, c.peerInitialWindow)
            && d.peerMaxFrame == SettingAfter(payload, S_MAX_FRAME_SIZE, c.peerMaxFrame)
    decreases |payload|
  {
    SettingsTurn(c, payload);
    hide WindowInv, ApplySetting, ApplySettings, SettingAfter, Read16, Read32;
    if payload != [] {
      var id, val := Read16(payload), Read32(payload[2..]);
      SettingWindows(c, id, val);
      SettingsWindows(ApplySetting(c, id, val), payload[6..]);
    }
  }

  /** One entry of a SETTINGS payload, for the server and for its peer. */
  lemma SettingsTurn(c: Conn, payload: Octets)
    requires |payload| % 6 == 0
    ensures payload == [] ==> ApplySettings(c, payload) == c && forall id, cur :: SettingAfter(payload, id, cur) == cur
    ensures payload != [] ==>
              && |payload| >= 6 && |payload[6..]| % 6 == 0
              && var id, val := Read16(payload), Read32(payload[2..]);
              && var c1 := ApplySetting(c, id, val);
              && ApplySettings(c, payload) == (if c1.gotError then c1 else ApplySettings(c1, payload[6..]))
              && forall k, cur ::
                   SettingAfter(payload, k, cur) == SettingAfter(payload[6..], k, if id == k then val else cur)
  {
    hide ApplySetting, Read16, Read32;
  }

  /** Nothing but the table's shape and the buffer account is claimed of a connection in error. */
  lemma {:induction false} SettingsTable(env: Env, c: Conn, payload: Octets)
    requires TableInv(env.lim, c) && BudgetInv(env.lim, c) && |payload| % 6 == 0
    ensures TableInv(env.lim, ApplySettings(c, payload)) && BudgetInv(env.lim, ApplySettings(c, payload))
    decreases |payload|
  {
    SettingsTurn(c, payload);
    hide TableInv, BudgetInv, ApplySetting, ApplySettings, Read16, Read32;
    if payload != [] {
      SettingTable(env, c, Read16(payload), Read32(payload[2..]));
      var c1 := ApplySetting(c, Read16(payload), Read32(payload[2..]));
      if !c1.gotError {
        SettingsTable(env, c1, payload[6..]);
      }
    }
  }

  lemma SettingTable(env: Env, c: Conn, id: nat, val: nat)
    requires TableInv(env.lim, c) && BudgetInv(env.lim, c)
    ensures TableInv(env.lim, ApplySetting(c, id, val)) && BudgetInv(env.lim, ApplySetting(c, id, val))
  {
    ErrorTable(env, c, E_PROTOCOL_ERROR);
    ErrorTable(env, c, E_FLOW_CONTROL_ERROR);
    if id == S_INITIAL_WINDOW_SIZE && val <= MAX_WINDOW {
      hide TableInv, BudgetInv;
      InitialWindowTable(env, c, val);
    } else {
      MaxFrameTable(env, c, val);
      hide TableInv, BudgetInv, ConnError;
    }
  }

  lemma InitialWindowTable(env: Env, c: Conn, val: nat)
    requires TableInv(env.lim, c) && BudgetInv(env.lim, c) && val <= MAX_WINDOW
    ensures var d := ApplySetting(c, S_INITIAL_WINDOW_SIZE, val); TableInv(env.lim, d) && BudgetInv(env.lim, d)
  {
    TableBounds(env.lim, c);
    InitialWindowApplied(c, val);
    hide TableInv, ConnError, BudgetInv, Retarget, SameButSendWindow, ApplySetting;
    var r := Retarget(c.streams, val - c.peerInitialWindow, 0);
    RetargetSame(c.streams, val - c.peerInitialWindow, 0);
    TunedTable(env, c, r.0, if r.1 then val else c.peerInitialWindow, c.peerMaxFrame);
  }

  lemma InitialWindowApplied(c: Conn, val: nat)
    requires val <= MAX_WINDOW
    ensures var r := Retarget(c.streams, val - c.peerInitialWindow, 0);
            var initial := if r.1 then val else c.peerInitialWindow;
            var d := c.(streams := r.0, peerInitialWindow := initial, peerMaxFrame := c.peerMaxFrame);
            ApplySetting(c, S_INITIAL_WINDOW_SIZE, val) == if r.1 then d else ConnError(d, E_FLOW_CONTROL_ERROR)
  {
    hide Retarget, ConnError;
  }

  lemma MaxFrameTable(env: Env, c: Conn, val: nat)
    requires TableInv(env.lim, c) && BudgetInv(env.lim, c)
    ensures 16384 <= val <= 16777215 ==>
              TableInv(env.lim, c.(peerMaxFrame := val)) && BudgetInv(env.lim, c.(peerMaxFrame := val))
  {
    TableBounds(env.lim, c);
    hide TableInv, BudgetInv;
    if 16384 <= val <= 16777215 {
      RetargetNone(c.streams);
      TunedTable(env, c, c.streams, c.peerInitialWindow, val);
      assert c.(peerMaxFrame := val) ==
             c.(streams := c.streams, peerInitialWindow := c.peerInitialWindow, peerMaxFrame := val);
    }
  }

  lemma TunedTable(env: Env, c: Conn, streams: seq<Stream>, initial: nat, maxFrame: nat)
    requires TableInv(env.lim, c) && BudgetInv(env.lim, c)
    requires SameButSendWindow(c.streams, streams) && initial <= MAX_WINDOW && 16384 <= maxFrame <= 16777215
    ensures var d := c.(streams := streams, peerInitialWindow := initial, peerMaxFrame := maxFrame);
            && TableInv(env.lim, d) && BudgetInv(env.lim, d)
            && TableInv(env.lim, ConnError(d, E_FLOW_CONTROL_ERROR))
            && BudgetInv(env.lim, ConnError(d, E_FLOW_CONTROL_ERROR))
  {
    hide TableInv, ConnError, Queued, WithinBudget;
    TableSendWindows(env, c, streams, c.sendWindow, initial, maxFrame);
    ErrorTable(env, Tuned(c, streams, c.sendWindow, initial, maxFrame), E_FLOW_CONTROL_ERROR);
  }

  lemma RetargetNone(streams: seq<Stream>)
    ensures SameButSendWindow(streams, streams)
  {
  }

  lemma ErrorTable(env: Env, c: Conn, code: nat)
    requires TableInv(env.lim, c) && BudgetInv(env.lim, c)
    ensures TableInv(env.lim, ConnError(c, code)) && BudgetInv(env.lim, ConnError(c, code))
  {
    hide TableInv, BudgetInv;
    ErrorCredit(env, c, code);
  }

  /** SETTINGS on record leaves windows alone until it is applied. */
  lemma SeenSettings(c: Conn, f: InFrame)
    requires f.kind == FT_SETTINGS
    ensures SameCredit(c.trace, Seen(c, f).trace)
    ensures AppliesSettings(f) ==>
              && PeerInitialWindow(Seen(c, f).trace) ==
                 SettingAfter(f.payload, S_INITIAL_WINDOW_SIZE, PeerInitialWindow(c.trace))
              && PeerMaxFrame(Seen(c, f).trace) == SettingAfter(f.payload, S_MAX_FRAME_SIZE, PeerMaxFrame(c.trace))
  {
  }

  lemma SettingsFrameCredit(env: Env, c: Conn, f: InFrame, seen: nat)
    requires CreditInv(env, c) && !c.gotError && AppliesSettings(f)
    ensures CreditInv(env, OnSettings(Seen(c, f), f, seen))
  {
    var c1 := Seen(c, f);
    UpdateErrors(env, c, f);
    SeenBudget(env, c, f);
    if |f.payload| % 6 == 0 && seen <= SETTINGS_PER_FEED {
      SettingsTable(env, c1, f.payload);
      var c2 := ApplySettings(c1, f.payload);
      TableBounds(env.lim, c);
      hide TableInv, ApplySettings, ConnError, SettingAfter, SameCredit;
      if !c2.gotError {
        SeenSettings(c, f);
        KinSlots(c, c1);
        WindowsKeep(c, c1);
        SettingsWindows(c1, f.payload);
        AckCredit(env, c2);
      }
    }
  }

  lemma AckCredit(env: Env, c: Conn)
    requires CreditInv(env, c)
    ensures CreditInv(env, Emit(c, SettingsAck))
  {
    hide CreditInv;
    CreditAtom(env, c, Answer(SettingsAck));
    assert Do(env, c, Answer(SettingsAck)) == Emit(c, SettingsAck);
  }

  // ------------------------------------------------------------ everything

  lemma ConsumeConnCredit(env: Env, c: Conn, len: nat)
    requires CreditInv(env, c)
    ensures CreditInv(env, ConsumeConn(c, len))
  {
    TableConsumeConn(env, c, len);
    ConsumeConnShape(c, len);
    ConsumeConnNeutral(c, len);
    hide CreditInv, TableInv, ConsumeConn, OneNeutral;
    KinSlots(c, ConsumeConn(c, len));
    OneNeutralKeeps(env, c, ConsumeConn(c, len));
  }

  lemma ConsumeConnNeutral(c: Conn, len: nat)
    ensures OneNeutral(c, ConsumeConn(c, len))
  {
  }

  lemma ConsumeStreamCredit(env: Env, c: Conn, i: nat, len: nat)
    requires CreditInv(env, c) && i < |c.streams|
    ensures CreditInv(env, ConsumeStream(c, i, len))
  {
    TableConsumeStream(env, c, i, len);
    ConsumeStreamShape(c, i, len);
    ConsumeStreamEvent(c, i, len);
    assert ConsumeStream(c, i, len).queued == Queued(ConsumeStream(c, i, len).trace) - Queued(c.trace) + c.queued;
    hide TableInv, WindowInv, SettingsInv, ConsumeStream;
    KinSlots(c, ConsumeStream(c, i, len));
    OneNeutralKeeps(env, c, ConsumeStream(c, i, len));
  }

  lemma DrainCredit(env: Env, c: Conn, n: nat)
    requires CreditInv(env, c)
    ensures CreditInv(env, Drain(c, n))
  {
    TableDrain(env, c, n);
    DrainShape(c, n);
    hide CreditInv, TableInv, Drain, OneNeutral;
    KinSlots(c, Drain(c, n));
    OneNeutralKeeps(env, c, Drain(c, n));
  }

  lemma DrainShape(c: Conn, n: nat)
    ensures var d := Drain(c, n); OneNeutral(c, d) && d == c.(trace := d.trace, queued := d.queued)
  {
  }

  ghost function CreditProperty(env: Env): Property {
    c => CreditInv(env, c)
  }

  lemma CreditKept(env: Env)
    ensures Kept(env, CreditProperty(env)) && IgnoresRecvWindows(env, CreditProperty(env))
  {
    var P := CreditProperty(env);
    assert forall c | P(c) :: TableInv(env.lim, c);
    hide CreditInv, Enabled, Do, ConsumeConn, ConsumeStream, TableInv;
    forall c, a | P(c) && Enabled(env, c, a)
      ensures P(Do(env, c, a))
    {
      CreditAtom(env, c, a);
    }
    forall c, len: nat | P(c)
      ensures P(ConsumeConn(c, len))
    {
      ConsumeConnCredit(env, c, len);
    }
    forall c, i: nat, len: nat | P(c) && i < |c.streams| && c.streams[i].gotHeaders && !c.streams[i].endStreamRecv
      ensures P(ConsumeStream(c, i, len))
    {
      ConsumeStreamCredit(env, c, i, len);
    }
  }

  lemma FrameCredit(env: Env, c: Conn, f: InFrame, n: Feeding)
    requires CreditInv(env, c) && !c.gotError && Parsed(f)
    ensures CreditInv(env, OnFrame(env, c, f, n))
  {
    if !InSequence(c, f) {
      OutOfSequenceCredit(env, c, f, n);
    } else if f.kind == FT_WINDOW_UPDATE {
      UpdateFrameCredit(env, c, f);
    } else if AppliesSettings(f) {
      SettingsFrameCredit(env, c, f, n.settings);
    } else {
      OtherFrameCredit(env, c, f, n);
    }
  }

  lemma OtherFrameCredit(env: Env, c: Conn, f: InFrame, n: Feeding)
    requires CreditInv(env, c) && !c.gotError && f.kind != FT_WINDOW_UPDATE && !AppliesSettings(f) && Parsed(f)
             && InSequence(c, f)
    ensures CreditInv(env, OnFrame(env, c, f, n))
  {
    SeenCredit(env, c, f);
    hide CreditInv;
    if f.kind == FT_SETTINGS {
      UpdateErrors(env, c, f);
    } else {
      CreditKept(env);
      hide OnFrame, Kept, IgnoresRecvWindows;
      FrameKeeps(env, CreditProperty(env), c, f, n);
    }
  }

  lemma FreshCredit(env: Env)
    ensures CreditInv(env, Fresh())
  {
    assert Fresh().trace == Then(Start, Sent(Settings));
    NeutralStep(Start, Sent(Settings));
    assert Queued(Start) == 0 && WithinBudget(Start, env.lim.maxOutBytes) && WithinCredit(Start);
    forall sid: nat
      ensures Credit(Start, sid) == 0 && DataSent(Start, sid) == 0
    {
    }
    assert Credit(Fresh().trace, 0) == 0 && DataSentInAll(Start) == 0;
    assert PeerInitialWindow(Start) == INITIAL_WINDOW && PeerMaxFrame(Start) == DEFAULT_MAX_FRAME;
  }

  lemma CreditInvariant(env: Env)
    ensures Invariant(env, CreditProperty(env))
  {
    hide Steady, CreditInv, Kept, OnFrame, AfterChunk, Drain, Fresh, Sendable, IgnoresRecvWindows;
    var P := CreditProperty(env);
    CreditKept(env);
    KeptSteady(env, P);
    FreshCredit(env);
    forall c: Conn, f: InFrame, n: Feeding | P(c) && !c.gotError && Parsed(f)
      ensures P(OnFrame(env, c, f, n))
    {
      FrameCredit(env, c, f, n);
    }
    forall c, i: nat | P(c) && Pumpable(c, i) && Sendable(env.lim, c, i) > 0
      ensures P(AfterChunk(env.lim, c, i))
    {
      ChunkCredit(env, c, i);
    }
    forall c, n: nat | P(c)
      ensures P(Drain(c, n))
    {
      DrainCredit(env, c, n);
    }
  }

  /**
    Send-side credit: in every run without a connection error the windows are those of the wire,
    stay within 31 bits (a stream's may be negative after SETTINGS shrank it, the connection's may
    not), and every DATA frame was within both windows and the peer's frame size. In every run,
    error or not, DATA frames fitted the output buffer.
   */
  lemma SendCredit(env: Env, actions: seq<Action>)
    ensures var c := Run(env, actions).conn;
            && WithinBudget(c.trace, env.lim.maxOutBytes) && c.queued == Queued(c.trace)
            && (!c.gotError ==>
                  && WithinCredit(c.trace)
                  && c.sendWindow == ConnectionWindow(c.trace) && 0 <= c.sendWindow <= MAX_WINDOW
                  && forall i | 0 <= i < |c.streams| ::
                       c.streams[i].sendWindow == StreamWindow(c.trace, c.streams[i].id)
                       && 0 - MAX_WINDOW <= c.streams[i].sendWindow <= MAX_WINDOW)
  {
    CreditInvariant(env);
    RunKeeps(env, CreditProperty(env), actions);
    var c := Run(env, actions).conn;
    assert CreditInv(env, c);
    hide Invariant, Run, TableInv;
    if !c.gotError {
      forall i | 0 <= i < |c.streams|
        ensures c.streams[i].sendWindow == StreamWindow(c.trace, c.streams[i].id)
        ensures 0 - MAX_WINDOW <= c.streams[i].sendWindow <= MAX_WINDOW
      {
        assert StreamCredit(c.peerInitialWindow, c.trace, c.streams[i]);
      }
    }
  }
}
