/**
  Receiving under flow control (section 6.9 of RFC 9113): the server's receive windows are the
  ones the frames on the wire imply, they never fall below what one more frame may need, and so
  no frame within the advertised size can be a flow-control error.
 */
module H2Receive {
  import opened Bytes
  import opened H2Trace
  import opened H2Spec
  import opened H2Steps
  import opened H2Runs
  import opened H2Table

  const LOW: nat := 49152

  /** One stream's window, `owed` octets of it still to be accounted on stream `sid`. */
  ghost predicate StreamRecv(t: Trace, st: Stream, sid: nat, owed: nat) {
    && st.recvWindow == StreamRecvWindow(t, st.id) + (if st.id == sid then owed else 0)
    && LOW <= st.recvWindow <= INITIAL_WINDOW
  }

  /**
    Windows against the history. While a DATA frame is being handled, `owed` of its octets are
    not yet taken from the connection window and `owedStream` not from that of stream `sid`.
   */
  ghost predicate RecvWindows(c: Conn, owed: nat, sid: nat, owedStream: nat) {
    && c.recvWindow == ConnectionRecvWindow(c.trace) + owed && LOW <= c.recvWindow <= INITIAL_WINDOW
    && (forall i | 0 <= i < |c.streams| && !c.streams[i].endStreamRecv ::
        StreamRecv(c.trace, c.streams[i], sid, owedStream))
    && (forall s | s > c.lastClientId :: Granted(c.trace, s) == 0 && DataReceived(c.trace, s) == 0)
    && sid <= c.lastClientId
  }

  ghost predicate RecvInv(env: Env, c: Conn, owed: nat, sid: nat, owedStream: nat) {
    TableInv(env.lim, c) && (!c.gotError ==> RecvWindows(c, owed, sid, owedStream))
  }

  ghost function RecvProperty(env: Env, owed: nat, sid: nat, owedStream: nat): Property {
    c => RecvInv(env, c, owed, sid, owedStream)
  }

  // ------------------------------------------------------------ events without credit

  predicate Neutral(e: Event) {
    match e
    case Sent(f) => !f.WindowUpdate?
    case Recv(f) => f.kind != FT_DATA
    case _ => true
  }

  ghost predicate SameRecv(t: Trace, t': Trace) {
    && (forall sid :: Granted(t', sid) == Granted(t, sid) && DataReceived(t', sid) == DataReceived(t, sid))
    && DataReceivedInAll(t') == DataReceivedInAll(t)
  }

  lemma NeutralStep(t: Trace, e: Event)
    requires Neutral(e)
    ensures SameRecv(t, Then(t, e))
  {
  }

  lemma SameRefl(t: Trace)
    ensures SameRecv(t, t)
  {
  }

  /** If `b` is still open to the client, so was `a`, with the same window. */
  predicate SameReceiver(a: Stream, b: Stream) {
    a.id == b.id && (b.endStreamRecv || (!a.endStreamRecv && a.recvWindow == b.recvWindow))
  }

  ghost predicate Kin(c: Conn, st: Stream) {
    || (st.id > c.lastClientId && st.recvWindow == INITIAL_WINDOW)
    || exists j | 0 <= j < |c.streams| :: SameReceiver(c.streams[j], st)
  }

  lemma IsKin(c: Conn, st: Stream, j: nat)
    requires j < |c.streams| && SameReceiver(c.streams[j], st)
    ensures Kin(c, st)
  {
  }

  lemma WindowsKeep(c: Conn, d: Conn, owed: nat, sid: nat, owedStream: nat)
    requires RecvWindows(c, owed, sid, owedStream) && SameRecv(c.trace, d.trace)
    requires forall k | 0 <= k < |d.streams| :: Kin(c, d.streams[k])
    requires c.lastClientId <= d.lastClientId && d.recvWindow == c.recvWindow
    ensures RecvWindows(d, owed, sid, owedStream)
  {
    hide Granted, DataReceived, DataReceivedInAll;
    forall k | 0 <= k < |d.streams| && !d.streams[k].endStreamRecv
      ensures StreamRecv(d.trace, d.streams[k], sid, owedStream)
    {
      var st := d.streams[k];
      if !(st.id > c.lastClientId && st.recvWindow == INITIAL_WINDOW) {
        var j :| 0 <= j < |c.streams| && SameReceiver(c.streams[j], st);
        assert StreamRecv(c.trace, c.streams[j], sid, owedStream);
      }
    }
    assert Granted(d.trace, 0) == Granted(c.trace, 0);
  }

  /** What a step that neither grants nor uses credit looks like. */
  ghost predicate Quiet(c: Conn, d: Conn) {
    && SameRecv(c.trace, d.trace)
    && (forall k | 0 <= k < |d.streams| :: Kin(c, d.streams[k]))
    && c.lastClientId <= d.lastClientId && d.recvWindow == c.recvWindow && (c.gotError ==> d.gotError)
  }

  lemma QuietKeeps(env: Env, c: Conn, d: Conn, owed: nat, sid: nat, owedStream: nat)
    requires RecvInv(env, c, owed, sid, owedStream) && TableInv(env.lim, d) && Quiet(c, d)
    ensures RecvInv(env, d, owed, sid, owedStream)
  {
    hide RecvWindows, TableInv, SameRecv;
    if !d.gotError {
      WindowsKeep(c, d, owed, sid, owedStream);
    }
  }

  /** At most one more event, and it carries no receive credit. */
  ghost predicate OneNeutral(c: Conn, d: Conn) {
    d.trace == c.trace || (d.trace.Then? && d.trace.before == c.trace && Neutral(d.trace.event))
  }

  lemma OneNeutralSame(c: Conn, d: Conn)
    requires OneNeutral(c, d)
    ensures SameRecv(c.trace, d.trace)
  {
    hide SameRecv;
    SameRefl(c.trace);
    if d.trace != c.trace {
      NeutralStep(c.trace, d.trace.event);
    }
  }

  lemma KinSlots(c: Conn, d: Conn)
    requires |d.streams| == |c.streams| && forall k | 0 <= k < |c.streams| :: SameReceiver(c.streams[k], d.streams[k])
    ensures forall k | 0 <= k < |d.streams| :: Kin(c, d.streams[k])
  {
    forall k | 0 <= k < |d.streams|
      ensures Kin(c, d.streams[k])
    {
      IsKin(c, d.streams[k], k);
    }
  }

  lemma KinClose(c: Conn, d: Conn, i: nat)
    requires i < |c.streams| && d.streams == CloseAt(c, i).streams
    ensures forall k | 0 <= k < |d.streams| :: Kin(c, d.streams[k])
  {
    forall k | 0 <= k < |d.streams|
      ensures Kin(c, d.streams[k])
    {
      ClosedSlots(c, i, k);
      IsKin(c, d.streams[k], if k == i then |c.streams| - 1 else k);
    }
  }

  // ------------------------------------------------------------ atomic steps

  lemma SlotQuiet(env: Env, c: Conn, a: Atom)
    requires Enabled(env, c, a)
    requires a.Answer? || a.Gather? || a.PeerGoaway? || a.Flags? || a.Trailer? || a.Accept? || a.Collect? || a.Refuse?
             || a.WindDown? || a.Abandon?
    ensures Quiet(c, Do(env, c, a))
  {
    var d := Do(env, c, a);
    assert OneNeutral(c, d);
    assert |d.streams| == |c.streams| && forall k | 0 <= k < |c.streams| :: SameReceiver(c.streams[k], d.streams[k]);
    hide SameRecv, OneNeutral;
    OneNeutralSame(c, d);
    KinSlots(c, d);
  }

  lemma GoneQuiet(env: Env, c: Conn, a: Atom)
    requires Enabled(env, c, a) && (a.Cancel? || a.Close?)
    ensures Quiet(c, Do(env, c, a))
  {
    var d := Do(env, c, a);
    assert OneNeutral(c, d) && d.streams == CloseAt(c, a.slot).streams;
    hide SameRecv, OneNeutral;
    OneNeutralSame(c, d);
    KinClose(c, d, a.slot);
  }

  lemma BeginQuiet(env: Env, c: Conn, a: Atom)
    requires Enabled(env, c, a) && a.Begin?
    ensures Quiet(c, Do(env, c, a))
  {
    var d := Do(env, c, a);
    assert OneNeutral(c, d);
    forall k | 0 <= k < |d.streams|
      ensures Kin(c, d.streams[k])
    {
      if k < |c.streams| {
        assert d.streams[k] == c.streams[k];
        IsKin(c, d.streams[k], k);
      }
    }
    hide SameRecv, OneNeutral;
    OneNeutralSame(c, d);
  }

  lemma {:induction false} SendBlockQuiet(c: Conn, sid: nat, block: Octets, first: bool, endStream: bool)
    ensures SameRecv(c.trace, SendBlock(c, sid, block, first, endStream).trace)
    decreases |block|
  {
    hide Granted, DataReceived, DataReceivedInAll;
    var maxf := FrameLimit(c);
    var last := |block| <= maxf;
    var chunk := if last then block else block[..maxf];
    var f := if first then Headers(sid, endStream, last, chunk) else Continuation(sid, last, chunk);
    NeutralStep(c.trace, Sent(f));
    if !last {
      SendBlockQuiet(Emit(c, f), sid, block[maxf..], false, endStream);
    }
  }

  lemma DispatchQuiet(env: Env, c: Conn, i: nat)
    requires i < |c.streams| && !c.streams[i].dispatched && !c.streams[i].responded
    ensures SameRecv(c.trace, Dispatch(env, c, i).trace)
  {
    hide Dispatch, FieldBlock, SendBlock, Granted, DataReceived, DataReceivedInAll;
    var st := c.streams[i];
    var r := env.app(st.id);
    var c1 := Note(SetStream(c, i, st.(dispatched := true)), Dispatched(st.id, st.isHead, st.reqBody));
    DispatchTrace(env, c, i);
    NeutralStep(c.trace, Dispatched(st.id, st.isHead, st.reqBody));
    SendBlockQuiet(c1, st.id, FieldBlock(r), true, !HasBody(r, st.isHead));
  }

  lemma FinishQuiet(env: Env, c: Conn, a: Atom)
    requires TableInv(env.lim, c) && a.Finish? && Enabled(env, c, a)
    ensures Quiet(c, Do(env, c, a))
  {
    var d := Do(env, c, a);
    var i, st := a.slot, c.streams[a.slot];
    assert StreamShape(env.lim, c, st);
    var st1 := st.(gotHeaders := true, endStreamRecv := true, isHead := a.isHead);
    var c1 := SetStream(EndBlock(c, a.blocks), i, st1);
    FinishShape(env, c, a);
    hide TableInv, Dispatch, CloseAt, SameRecv, SawEndStream, HasBody;
    DispatchQuiet(env, c1, i);
    assert d == Dispatch(env, c1, i);
    hide Do;
    var st' := Answered(st1, env.app(st.id));
    var c2 := SetStream(EndBlock(c, a.blocks), i, st');
    CloseFrame(c2, i);
    FinishKin(c, c2, d, i, st'.sendDone);
  }

  lemma FinishKin(c: Conn, c2: Conn, d: Conn, i: nat, done: bool)
    requires i < |c.streams| && |c2.streams| == |c.streams| && c2.streams == c.streams[i := c2.streams[i]]
    requires SameReceiver(c.streams[i], c2.streams[i])
    requires d.streams == (if done then CloseAt(c2, i) else c2).streams
    ensures forall k | 0 <= k < |d.streams| :: Kin(c, d.streams[k])
  {
    forall k | 0 <= k < |d.streams|
      ensures Kin(c, d.streams[k])
    {
      if done {
        ClosedSlots(c2, i, k);
        IsKin(c, d.streams[k], if k == i then |c.streams| - 1 else k);
      } else {
        IsKin(c, d.streams[k], k);
      }
    }
  }

  lemma CloseFrame(c: Conn, i: nat)
    requires i < |c.streams|
    ensures var d := CloseAt(c, i);
            d.recvWindow == c.recvWindow && d.lastClientId == c.lastClientId && d.gotError == c.gotError
            && |d.streams| == |c.streams| - 1
  {
  }

  lemma AtomQuiet(env: Env, c: Conn, a: Atom)
    requires TableInv(env.lim, c) && Enabled(env, c, a)
    ensures Quiet(c, Do(env, c, a))
  {
    hide TableInv, Enabled, Do, Quiet;
    match a
    case Begin(f) => BeginQuiet(env, c, a);
    case Finish(_, _, _) => FinishQuiet(env, c, a);
    case Cancel(_, _, _) => GoneQuiet(env, c, a);
    case Close(_, _) => GoneQuiet(env, c, a);
    case _ => SlotQuiet(env, c, a);
  }

  lemma RecvKept(env: Env, owed: nat, sid: nat, owedStream: nat)
    ensures Kept(env, RecvProperty(env, owed, sid, owedStream))
  {
    var P := RecvProperty(env, owed, sid, owedStream);
    assert forall c | P(c) :: TableInv(env.lim, c);
    hide Enabled, Do, TableInv, Quiet, RecvWindows;
    forall c, a | P(c) && Enabled(env, c, a)
      ensures P(Do(env, c, a))
    {
      AtomQuiet(env, c, a);
      TableAtom(env, c, a);
      QuietKeeps(env, c, Do(env, c, a), owed, sid, owedStream);
    }
  }

  lemma RecvIgnoresSendWindows(env: Env, owed: nat, sid: nat, owedStream: nat)
    ensures IgnoresSendWindows(RecvProperty(env, owed, sid, owedStream))
  {
    hide TableInv, RecvWindows;
    forall c, streams, w: int, initial: nat, maxFrame: nat
      | RecvInv(env, c, owed, sid, owedStream) && SameButSendWindow(c.streams, streams) && initial <= MAX_WINDOW
        && 16384 <= maxFrame <= 16777215
      ensures RecvInv(env, Tuned(c, streams, w, initial, maxFrame), owed, sid, owedStream)
    {
      TableSendWindows(env, c, streams, w, initial, maxFrame);
      TunedQuiet(c, streams, w, initial, maxFrame);
      QuietKeeps(env, c, Tuned(c, streams, w, initial, maxFrame), owed, sid, owedStream);
    }
  }

  lemma TunedQuiet(c: Conn, streams: seq<Stream>, w: int, initial: nat, maxFrame: nat)
    requires SameButSendWindow(c.streams, streams)
    ensures Quiet(c, Tuned(c, streams, w, initial, maxFrame))
  {
    hide SameRecv;
    SameRefl(c.trace);
    KinSlots(c, Tuned(c, streams, w, initial, maxFrame));
  }

  // ------------------------------------------------------------ using and granting credit

  lemma UpdateStep(t: Trace, sid: nat, n: nat)
    ensures var t' := Then(t, Sent(WindowUpdate(sid, n)));
            && (forall s ::
                  && Granted(t', s) == Granted(t, s) + (if s == sid then n else 0)
                  && DataReceived(t', s) == DataReceived(t, s))
            && DataReceivedInAll(t') == DataReceivedInAll(t)
  {
  }

  lemma DataStep(t: Trace, f: InFrame)
    requires f.kind == FT_DATA
    ensures var t', n := Then(t, Recv(f)), |f.payload|;
            && (forall s ::
                  && Granted(t', s) == Granted(t, s)
                  && DataReceived(t', s) == DataReceived(t, s) + if s == f.sid then n else 0)
            && DataReceivedInAll(t') == DataReceivedInAll(t) + n
  {
  }

  /** A DATA frame on record is owed to both windows. */
  lemma SeenOwes(env: Env, c: Conn, f: InFrame)
    requires RecvInv(env, c, 0, 0, 0) && f.kind == FT_DATA && 0 < f.sid <= c.lastClientId
    ensures RecvInv(env, Seen(c, f), |f.payload|, f.sid, |f.payload|)
  {
    TableSeen(env, c, f);
    hide TableInv;
    var d := Seen(c, f);
    DataStep(c.trace, f);
    hide Granted, DataReceived, DataReceivedInAll;
    if !c.gotError {
      forall k | 0 <= k < |d.streams| && !d.streams[k].endStreamRecv
        ensures StreamRecv(d.trace, d.streams[k], f.sid, |f.payload|)
      {
        assert StreamRecv(c.trace, c.streams[k], 0, 0);
      }
    }
  }

  /** Accounting for the frame on the connection. */
  lemma ConnPaid(env: Env, c: Conn, len: nat, sid: nat, owedStream: nat)
    requires RecvInv(env, c, len, sid, owedStream) && len <= OUR_MAX_FRAME
    requires forall i | 0 <= i < |c.streams| :: c.streams[i].id != 0
    ensures RecvInv(env, ConsumeConn(c, len), 0, sid, owedStream)
  {
    TableConsumeConn(env, c, len);
    hide TableInv;
    var d := ConsumeConn(c, len);
    var w := c.recvWindow - len;
    if !c.gotError {
      var t' := if w <= INITIAL_WINDOW - OUR_MAX_FRAME then Then(c.trace, Sent(WindowUpdate(0, INITIAL_WINDOW - w)))
        else c.trace;
      assert d == c.(recvWindow := d.recvWindow, trace := t', queued := d.queued);
      UpdateStep(c.trace, 0, INITIAL_WINDOW - w);
      hide Granted, DataReceived, DataReceivedInAll;
      forall k | 0 <= k < |d.streams| && !d.streams[k].endStreamRecv
        ensures StreamRecv(d.trace, d.streams[k], sid, owedStream)
      {
        assert StreamRecv(c.trace, c.streams[k], sid, owedStream);
      }
    }
  }

  lemma ConsumeStreamParts(c: Conn, i: nat, len: nat)
    requires i < |c.streams| && c.streams[i].recvWindow - len <= INITIAL_WINDOW
    ensures var d, st := ConsumeStream(c, i, len), c.streams[i];
            var w := st.recvWindow - len;
            var low := w <= INITIAL_WINDOW - OUR_MAX_FRAME;
            && d.trace == (if low then Then(c.trace, Sent(WindowUpdate(st.id, INITIAL_WINDOW - w))) else c.trace)
            && d.recvWindow == c.recvWindow && d.lastClientId == c.lastClientId && d.gotError == c.gotError
            && d.streams == c.streams[i := st.(recvWindow := if low then INITIAL_WINDOW else w)]
  {
  }

  /** Accounting for the frame on its stream. */
  lemma StreamPaid(env: Env, c: Conn, i: nat, len: nat)
    requires i < |c.streams| && RecvInv(env, c, 0, c.streams[i].id, len) && len <= OUR_MAX_FRAME
    requires !c.streams[i].endStreamRecv && c.streams[i].id != 0
    ensures RecvInv(env, ConsumeStream(c, i, len), 0, 0, 0)
  {
    TableConsumeStream(env, c, i, len);
    assert Distinct(c.streams);
    hide TableInv;
    var d, st := ConsumeStream(c, i, len), c.streams[i];
    var w := st.recvWindow - len;
    if !c.gotError {
      hide Granted, DataReceived, DataReceivedInAll, ConsumeStream;
      assert StreamRecv(c.trace, st, st.id, len);
      ConsumeStreamParts(c, i, len);
      UpdateStep(c.trace, st.id, INITIAL_WINDOW - w);
      forall k | 0 <= k < |d.streams| && !d.streams[k].endStreamRecv
        ensures StreamRecv(d.trace, d.streams[k], 0, 0)
      {
        assert StreamRecv(c.trace, c.streams[k], st.id, len);
        assert k != i ==> c.streams[k].id != st.id;
      }
    }
  }

  /** Once the stream is closed to the client nothing is owed to it. */
  lemma NothingOwed(env: Env, c: Conn, sid: nat, owedStream: nat)
    requires RecvInv(env, c, 0, sid, owedStream)
    requires forall i | 0 <= i < |c.streams| && !c.streams[i].endStreamRecv :: c.streams[i].id != sid
    ensures RecvInv(env, c, 0, 0, 0)
  {
    hide TableInv, Granted, DataReceived, DataReceivedInAll;
    if !c.gotError {
      forall i | 0 <= i < |c.streams| && !c.streams[i].endStreamRecv
        ensures StreamRecv(c.trace, c.streams[i], 0, 0)
      {
        assert StreamRecv(c.trace, c.streams[i], sid, owedStream);
      }
    }
  }

  // ------------------------------------------------------------ DATA frames

  lemma ErrorRecv(env: Env, c: Conn, code: nat, owed: nat, sid: nat, owedStream: nat)
    requires TableInv(env.lim, c)
    ensures RecvInv(env, ConnError(c, code), owed, sid, owedStream)
  {
    TableAtom(env, c, WindDown(code, true));
    assert Do(env, c, WindDown(code, true)) == ConnError(c, code);
  }

  lemma IdsPositive(lim: Limits, c: Conn)
    requires TableInv(lim, c)
    ensures forall i | 0 <= i < |c.streams| :: 1 <= c.streams[i].id <= c.lastClientId
  {
    forall i | 0 <= i < |c.streams|
      ensures 1 <= c.streams[i].id <= c.lastClientId
    {
      assert StreamShape(lim, c, c.streams[i]);
    }
  }

  /** A stream reset over a DATA frame: the frame still counts for the connection. */
  lemma DropRecv(env: Env, c: Conn, i: nat, code: nat, len: nat)
    requires i < |c.streams| && RecvInv(env, c, len, c.streams[i].id, len) && len <= OUR_MAX_FRAME && !c.hdr.active
    ensures RecvInv(env, ConsumeConn(ResetAt(c, i, code), len), 0, 0, 0)
  {
    var P := RecvProperty(env, len, c.streams[i].id, len);
    var d := ResetAt(c, i, code);
    RecvKept(env, len, c.streams[i].id, len);
    CancelKeeps(env, P, c, i, code);
    assert TableInv(env.lim, d);
    IdsPositive(env.lim, d);
    GoneFrom(env.lim, c, i, code);
    hide TableInv, RecvWindows, ResetAt, ConsumeConn, Kept;
    ConnPaid(env, d, len, c.streams[i].id, len);
    ConsumeConnFrame(d, len);
    NothingOwed(env, ConsumeConn(d, len), c.streams[i].id, len);
  }

  lemma ConsumeConnFrame(c: Conn, len: nat)
    ensures ConsumeConn(c, len).streams == c.streams && ConsumeConn(c, len).hdr == c.hdr
            && ConsumeConn(c, len).lastClientId == c.lastClientId && ConsumeConn(c, len).gotError == c.gotError
  {
  }

  lemma GoneFrom(lim: Limits, c: Conn, i: nat, code: nat)
    requires TableInv(lim, c) && i < |c.streams|
    ensures var d := ResetAt(c, i, code); forall k | 0 <= k < |d.streams| :: d.streams[k].id != c.streams[i].id
  {
    assert Distinct(c.streams);
    hide StreamShape, HdrShape;
    var d := ResetAt(c, i, code);
    forall k | 0 <= k < |d.streams|
      ensures d.streams[k].id != c.streams[i].id
    {
      ClosedSlots(c, i, k);
    }
  }

  lemma CollectRecv(env: Env, c: Conn, i: nat, body: Octets, len: nat)
    requires i < |c.streams| && RecvInv(env, c, len, c.streams[i].id, len) && |body| <= env.lim.maxBodyBytes
    ensures RecvInv(env, Do(env, c, Collect(i, body)), len, c.streams[i].id, len)
  {
    hide TableInv, RecvWindows, Quiet, Do;
    AtomQuiet(env, c, Collect(i, body));
    TableAtom(env, c, Collect(i, body));
    QuietKeeps(env, c, Do(env, c, Collect(i, body)), len, c.streams[i].id, len);
  }

  lemma BodyRecv(env: Env, c: Conn, i: nat, body: Octets, len: nat, end: bool)
    requires i < |c.streams| && RecvInv(env, c, len, c.streams[i].id, len) && len <= OUR_MAX_FRAME && !c.hdr.active
    requires !c.gotError && c.streams[i].gotHeaders && !c.streams[i].endStreamRecv && |body| <= env.lim.maxBodyBytes
    requires end ==> SawEndStream(c.trace, c.streams[i].id)
    ensures var c1 := ConsumeConn(SetStream(c, i, c.streams[i].(reqBody := body)), len);
            && |c1.streams| == |c.streams|
            && if end then RecvInv(env, Dispatch(env, SetStream(c1, i, c1.streams[i].(endStreamRecv := true)), i), 0, 0,
                                   0)
               else RecvInv(env, ConsumeStream(c1, i, len), 0, 0, 0)
  {
    var id := c.streams[i].id;
    IdsPositive(env.lim, c);
    hide TableInv, RecvWindows, ConsumeConn, ConsumeStream, Kept, Dispatch;
    CollectRecv(env, c, i, body, len);
    var c0 := SetStream(c, i, c.streams[i].(reqBody := body));
    assert c0 == Do(env, c, Collect(i, body));
    IdsPositive(env.lim, c0);
    ConnPaid(env, c0, len, id, len);
    ConsumeConnFrame(c0, len);
    var c1 := ConsumeConn(c0, len);
    if end {
      ConsumeTrace(c0, len, id);
      EndRecv(env, c1, i, len);
    } else {
      StreamPaid(env, c1, i, len);
    }
  }

  /** The request ended with this frame: its stream is no longer open to the client. */
  lemma EndRecv(env: Env, c: Conn, i: nat, len: nat)
    requires i < |c.streams| && RecvInv(env, c, 0, c.streams[i].id, len) && !c.gotError && !c.hdr.active
    requires c.streams[i].gotHeaders && !c.streams[i].endStreamRecv && SawEndStream(c.trace, c.streams[i].id)
    ensures RecvInv(env, Dispatch(env, SetStream(c, i, c.streams[i].(endStreamRecv := true)), i), 0, 0, 0)
  {
    var id := c.streams[i].id;
    var c1 := SetStream(c, i, c.streams[i].(endStreamRecv := true));
    var d := Dispatch(env, c1, i);
    assert Distinct(c.streams) && StreamShape(env.lim, c, c.streams[i]);
    hide TableInv, RecvWindows, Kept, Dispatch, CloseAt;
    RecvKept(env, 0, id, len);
    DataEndKeeps(env, RecvProperty(env, 0, id, len), c, i);
    DispatchShape(env, c1, i);
    var st := Answered(c1.streams[i], env.app(id));
    var c2 := SetStream(c1, i, st);
    CloseFrame(c2, i);
    forall k | 0 <= k < |d.streams| && !d.streams[k].endStreamRecv
      ensures d.streams[k].id != id
    {
      if st.sendDone {
        ClosedSlots(c2, i, k);
      }
    }
    NothingOwed(env, d, id, len);
  }

  /** A DATA frame on a stream that was closed: only the connection accounts for it. */
  lemma ClosedRecv(env: Env, c: Conn, f: InFrame)
    requires RecvInv(env, c, 0, 0, 0) && f.kind == FT_DATA && Parsed(f) && 0 < f.sid <= c.lastClientId
             && Find(c, f.sid).None?
    ensures RecvInv(env, ConsumeConn(Seen(c, f), |f.payload|), 0, 0, 0)
  {
    var c1 := Seen(c, f);
    IdsPositive(env.lim, c);
    hide TableInv, RecvWindows, ConsumeConn;
    SeenOwes(env, c, f);
    ConnPaid(env, c1, |f.payload|, f.sid, |f.payload|);
    ConsumeConnFrame(c1, |f.payload|);
    NothingOwed(env, ConsumeConn(c1, |f.payload|), f.sid, |f.payload|);
  }

  /** A DATA frame fits both windows before it is accounted. */
  lemma FrameFits(env: Env, c: Conn, f: InFrame)
    requires RecvInv(env, c, 0, 0, 0) && !c.gotError && Parsed(f)
    ensures |f.payload| <= c.recvWindow
    ensures forall i | 0 <= i < |c.streams| && !c.streams[i].endStreamRecv :: |f.payload| <= c.streams[i].recvWindow
  {
    forall i | 0 <= i < |c.streams| && !c.streams[i].endStreamRecv
      ensures |f.payload| <= c.streams[i].recvWindow
    {
      assert StreamRecv(c.trace, c.streams[i], 0, 0);
    }
  }

  lemma OpenRecv(env: Env, c: Conn, f: InFrame, i: nat)
    requires RecvInv(env, c, 0, 0, 0) && !c.gotError && f.kind == FT_DATA && Parsed(f) && !c.hdr.active
    requires i < |c.streams| && c.streams[i].id == f.sid && Find(c, f.sid) == Some(i)
    ensures RecvInv(env, OnData(env, Seen(c, f), f), 0, 0, 0)
  {
    var c1, st, len := Seen(c, f), c.streams[i], |f.payload|;
    FrameFits(env, c, f);
    IdsPositive(env.lim, c);
    TableSeen(env, c, f);
    assert Find(c1, f.sid) == Some(i);
    assert f.EndStream() ==> SawEndStream(c1.trace, f.sid);
    hide TableInv, RecvWindows, ConnError, ResetAt, ConsumeConn, ConsumeStream, Dispatch, DataPayload, RecvInv;
    ErrorRecv(env, c1, E_STREAM_CLOSED, 0, 0, 0);
    ErrorRecv(env, c1, E_PROTOCOL_ERROR, 0, 0, 0);
    SeenOwes(env, c, f);
    DropRecv(env, c1, i, E_ENHANCE_YOUR_CALM, len);
    var d := DataPayload(f);
    if !st.endStreamRecv && st.gotHeaders && d.Some? && |st.reqBody| + |d.value| <= env.lim.maxBodyBytes {
      BodyRecv(env, c1, i, st.reqBody + d.value, len, f.EndStream());
    }
  }

  lemma DataRecv(env: Env, c: Conn, f: InFrame)
    requires RecvInv(env, c, 0, 0, 0) && !c.gotError && f.kind == FT_DATA && Parsed(f) && !c.hdr.active
    ensures RecvInv(env, OnData(env, Seen(c, f), f), 0, 0, 0)
  {
    var c1, len := Seen(c, f), |f.payload|;
    FrameFits(env, c, f);
    TableSeen(env, c, f);
    assert Find(c1, f.sid) == Find(c, f.sid);
    ErrorRecv(env, c1, E_PROTOCOL_ERROR, 0, 0, 0);
    TableConsumeConn(env, c1, len);
    ErrorRecv(env, ConsumeConn(c1, len), E_PROTOCOL_ERROR, 0, 0, 0);
    hide TableInv, RecvWindows, ConnError, ResetAt, ConsumeConn, ConsumeStream, Dispatch, DataPayload, RecvInv;
    if f.sid != 0 {
      if Find(c, f.sid).Some? {
        OpenRecv(env, c, f, Find(c, f.sid).value);
      } else if f.sid <= c.lastClientId {
        ClosedRecv(env, c, f);
      }
    }
  }

  // ------------------------------------------------------------ everything

  lemma SeenRecv(env: Env, c: Conn, f: InFrame)
    requires RecvInv(env, c, 0, 0, 0) && f.kind != FT_DATA
    ensures RecvInv(env, Seen(c, f), 0, 0, 0)
  {
    TableSeen(env, c, f);
    NeutralStep(c.trace, Recv(f));
    KinSlots(c, Seen(c, f));
    hide TableInv, RecvWindows, SameRecv;
    QuietKeeps(env, c, Seen(c, f), 0, 0, 0);
  }

  lemma OutOfSequenceRecv(env: Env, c: Conn, f: InFrame, n: Feeding)
    requires TableInv(env.lim, c) && !InSequence(c, f)
    ensures RecvInv(env, OnFrame(env, c, f, n), 0, 0, 0)
  {
    hide TableInv;
    TableSeen(env, c, f);
    var c1 := Seen(c, f);
    PrefaceBound(env.lim, c1);
    var a := Flags(c.needSettings && f.kind != FT_SETTINGS, c1.prefaceGot);
    TableAtom(env, c1, a);
    ErrorRecv(env, Do(env, c1, a), E_PROTOCOL_ERROR, 0, 0, 0);
  }

  lemma FrameRecv(env: Env, c: Conn, f: InFrame, n: Feeding)
    requires RecvInv(env, c, 0, 0, 0) && !c.gotError && Parsed(f)
    ensures RecvInv(env, OnFrame(env, c, f, n), 0, 0, 0)
  {
    if !InSequence(c, f) {
      OutOfSequenceRecv(env, c, f, n);
    } else if f.kind == FT_DATA {
      DataRecv(env, c, f);
    } else {
      OtherFrameRecv(env, c, f, n);
    }
  }

  lemma OtherFrameRecv(env: Env, c: Conn, f: InFrame, n: Feeding)
    requires RecvInv(env, c, 0, 0, 0) && !c.gotError && Parsed(f) && f.kind != FT_DATA
    ensures RecvInv(env, OnFrame(env, c, f, n), 0, 0, 0)
  {
    hide OnFrame, RecvInv, Kept, IgnoresSendWindows;
    SeenRecv(env, c, f);
    RecvKept(env, 0, 0, 0);
    RecvIgnoresSendWindows(env, 0, 0, 0);
    FrameKeeps(env, RecvProperty(env, 0, 0, 0), c, f, n);
  }

  lemma ChunkRecv(env: Env, c: Conn, i: nat)
    requires RecvInv(env, c, 0, 0, 0) && Pumpable(c, i) && Sendable(env.lim, c, i) > 0
    ensures RecvInv(env, AfterChunk(env.lim, c, i), 0, 0, 0)
  {
    TableChunk(env, c, i);
    var n := Sendable(env.lim, c, i);
    var e := SendChunk(c, i, n);
    var d := AfterChunk(env.lim, c, i);
    ChunkQuiet(c, i, n);
    hide TableInv, RecvWindows, SameRecv, Sendable, SendChunk;
    CloseFrame(e, i);
    NeutralStep(c.trace, e.trace.event);
    if e.streams[i].sendDone {
      ChunkKin(c, e, d, i);
    } else {
      KinSlots(c, d);
    }
    QuietKeeps(env, c, d, 0, 0, 0);
  }

  lemma ChunkQuiet(c: Conn, i: nat, n: nat)
    requires i < |c.streams| && c.streams[i].bodyOff + n <= |c.streams[i].respBody|
    ensures var e := SendChunk(c, i, n);
            && e.trace.Then? && e.trace.before == c.trace && Neutral(e.trace.event)
            && |e.streams| == |c.streams| && (forall k | 0 <= k < |c.streams| ::
                                              SameReceiver(c.streams[k], e.streams[k]))
            && e.recvWindow == c.recvWindow && e.lastClientId == c.lastClientId && e.gotError == c.gotError
  {
  }

  lemma ChunkKin(c: Conn, e: Conn, d: Conn, i: nat)
    requires |c.streams| == |e.streams| && i < |c.streams| && d.streams == CloseAt(e, i).streams
    requires forall k | 0 <= k < |c.streams| :: SameReceiver(c.streams[k], e.streams[k])
    ensures forall k | 0 <= k < |d.streams| :: Kin(c, d.streams[k])
  {
    forall k | 0 <= k < |d.streams|
      ensures Kin(c, d.streams[k])
    {
      ClosedSlots(e, i, k);
      IsKin(c, d.streams[k], if k == i then |c.streams| - 1 else k);
    }
  }

  lemma DrainRecv(env: Env, c: Conn, n: nat)
    requires RecvInv(env, c, 0, 0, 0)
    ensures RecvInv(env, Drain(c, n), 0, 0, 0)
  {
    TableDrain(env, c, n);
    var d := Drain(c, n);
    assert d.trace.Then? && d.trace.before == c.trace && Neutral(d.trace.event);
    hide TableInv, RecvWindows, SameRecv;
    NeutralStep(c.trace, d.trace.event);
    KinSlots(c, d);
    QuietKeeps(env, c, d, 0, 0, 0);
  }

  lemma FreshRecv(env: Env)
    ensures RecvInv(env, Fresh(), 0, 0, 0)
  {
    assert Fresh().trace == Then(Start, Sent(Settings));
    NeutralStep(Start, Sent(Settings));
    forall sid: nat
      ensures Granted(Start, sid) == 0 && DataReceived(Start, sid) == 0
    {
    }
    assert Granted(Fresh().trace, 0) == 0 && DataReceivedInAll(Start) == 0;
  }

  lemma RecvInvariant(env: Env)
    ensures Invariant(env, RecvProperty(env, 0, 0, 0))
  {
    hide Steady, RecvInv, Kept, OnFrame, AfterChunk, Drain, Fresh, Sendable;
    var P := RecvProperty(env, 0, 0, 0);
    RecvKept(env, 0, 0, 0);
    KeptSteady(env, P);
    FreshRecv(env);
    forall c: Conn, f: InFrame, n: Feeding | P(c) && !c.gotError && Parsed(f)
      ensures P(OnFrame(env, c, f, n))
    {
      FrameRecv(env, c, f, n);
    }
    forall c, i: nat | P(c) && Pumpable(c, i) && Sendable(env.lim, c, i) > 0
      ensures P(AfterChunk(env.lim, c, i))
    {
      ChunkRecv(env, c, i);
    }
    forall c, n: nat | P(c)
      ensures P(Drain(c, n))
    {
      DrainRecv(env, c, n);
    }
  }

  /**
    Receive-side credit: in every run without a connection error the receive windows are those
    of the wire and lie in 49152..65535, the connection's and that of every stream the client has
    not ended. Hence neither flow-control check of the DATA handler can fire on a frame within the
    advertised size.
   */
  lemma ReceiveCredit(env: Env, actions: seq<Action>, f: InFrame)
    requires Parsed(f)
    ensures var c := Run(env, actions).conn;
            !c.gotError ==>
              && c.recvWindow == ConnectionRecvWindow(c.trace) && LOW <= c.recvWindow <= INITIAL_WINDOW
              && |f.payload| <= c.recvWindow
              && forall i | 0 <= i < |c.streams| && !c.streams[i].endStreamRecv ::
                   && c.streams[i].recvWindow == StreamRecvWindow(c.trace, c.streams[i].id)
                   && LOW <= c.streams[i].recvWindow <= INITIAL_WINDOW
                   && |f.payload| <= c.streams[i].recvWindow
  {
    var c := Run(env, actions).conn;
    RecvInvariant(env);
    RunKeeps(env, RecvProperty(env, 0, 0, 0), actions);
    assert RecvInv(env, c, 0, 0, 0);
    hide Invariant, Run, TableInv;
    if !c.gotError {
      FrameFits(env, c, f);
      IdsPositive(env.lim, c);
      forall i | 0 <= i < |c.streams| && !c.streams[i].endStreamRecv
        ensures c.streams[i].recvWindow == StreamRecvWindow(c.trace, c.streams[i].id)
        ensures LOW <= c.streams[i].recvWindow <= INITIAL_WINDOW
      {
        assert StreamRecv(c.trace, c.streams[i], 0, 0);
      }
    }
  }
}
