/**
  The pump sends all it may: every DATA frame is as long as the rest of the body, the windows, the peer's
  frame size and the output budget let it be, and after a pump every response that is left is held up by a
  window or by the output buffer.
 */
module H2Pump {
  import opened Bytes
  import opened H2Trace
  import opened H2Spec
  import opened H2Steps
  import opened H2Runs
  import opened H2Table
  import H2Credit
  import H2Grammar
  import H2History
  import H2Interrupted

  // ------------------------------------------------------------ how long a DATA frame is

  /** n is the least of five bounds. */
  predicate Least(n: int, a: int, b: int, c: int, d: int, e: int) {
    n <= a && n <= b && n <= c && n <= d && n <= e && (n == a || n == b || n == c || n == d || n == e)
  }

  /** As many octets as the history allows: rest of the body, both windows, frame size, room for a frame. */
  ghost predicate FullChunk(env: Env, t: Trace, sid: nat, n: nat) {
    && PhaseOf(t, sid).Body? && n > 0
    && Least(n, |env.app(sid).body| - |PhaseOf(t, sid).data|, StreamWindow(t, sid), ConnectionWindow(t),
             PeerMaxFrame(t), env.lim.maxOutBytes - Queued(t) - FRAME_HDR)
  }

  ghost predicate FullChunks(env: Env, t: Trace) {
    match t
    case Start => true
    case Then(p, Sent(Data(sid, _, d))) => FullChunks(env, p) && FullChunk(env, p, sid, |d|)
    case Then(p, _) => FullChunks(env, p)
  }

  ghost predicate PumpInv(env: Env, c: Conn) {
    H2Credit.CreditInv(env, c) && H2Grammar.Responds(env, c) && (!c.gotError ==> FullChunks(env, c.trace))
  }

  ghost function PumpProperty(env: Env): Property {
    c => PumpInv(env, c)
  }

  lemma {:induction false} NoNewChunks(env: Env, t: Trace, t': Trace)
    requires DataFree(t, t') && FullChunks(env, t)
    ensures FullChunks(env, t')
  {
    hide FullChunk;
    if t' != t {
      NoNewChunks(env, t, t'.before);
    }
  }

  lemma ChunkSent(env: Env, c: Conn, i: nat)
    requires PumpInv(env, c) && !c.gotError && Pumpable(c, i) && Sendable(env.lim, c, i) > 0
    ensures FullChunk(env, c.trace, c.streams[i].id, Sendable(env.lim, c, i))
  {
    var st := c.streams[i];
    assert StreamShape(env.lim, c, st);
    assert H2Grammar.StreamPhase(env, c.trace, st);
    assert H2Credit.StreamCredit(c.peerInitialWindow, c.trace, st);
    hide H2Credit.BudgetInv, PhaseOf, Credit, DataSent, DataSentInAll, PeerSetting, Queued;
    assert H2Credit.BudgetInv(env.lim, c);
    BudgetIs(env.lim, c);
    assert PhaseOf(c.trace, st.id).data == st.respBody[..st.bodyOff];
  }

  lemma BudgetIs(lim: Limits, c: Conn)
    requires H2Credit.BudgetInv(lim, c)
    ensures c.queued == Queued(c.trace)
  {
  }

  lemma ChunkTrace(lim: Limits, c: Conn, i: nat)
    requires Pumpable(c, i) && Sendable(lim, c, i) > 0
    ensures var d := AfterChunk(lim, c, i);
            && d.trace.Then? && d.trace.before == c.trace && d.trace.event.Sent? && d.trace.event.out.Data?
            && d.trace.event.out.sid == c.streams[i].id && |d.trace.event.out.payload| == Sendable(lim, c, i)
            && d.gotError == c.gotError
  {
    hide Sendable;
  }

  lemma ChunkPump(env: Env, c: Conn, i: nat)
    requires PumpInv(env, c) && Pumpable(c, i) && Sendable(env.lim, c, i) > 0
    ensures PumpInv(env, AfterChunk(env.lim, c, i))
  {
    ChunkTrace(env.lim, c, i);
    hide H2Credit.CreditInv, H2Grammar.Responds, AfterChunk, Sendable, FullChunk;
    H2Credit.ChunkCredit(env, c, i);
    H2Grammar.ChunkResponds(env, c, i);
    if !c.gotError {
      ChunkSent(env, c, i);
    }
  }

  /** A step without DATA. */
  lemma OtherPump(env: Env, c: Conn, d: Conn)
    requires PumpInv(env, c) && H2Credit.CreditInv(env, d) && H2Grammar.Responds(env, d)
    requires DataFree(c.trace, d.trace) && (c.gotError ==> d.gotError)
    ensures PumpInv(env, d)
  {
    hide H2Credit.CreditInv, H2Grammar.Responds, DataFree, FullChunks;
    if !d.gotError {
      NoNewChunks(env, c.trace, d.trace);
    }
  }

  lemma CreditTable(env: Env, c: Conn)
    requires H2Credit.CreditInv(env, c)
    ensures TableInv(env.lim, c)
  {
  }

  lemma AtomPump(env: Env, c: Conn, a: Atom)
    requires PumpInv(env, c) && Enabled(env, c, a) && (a.WindDown? || a.Flags?)
    requires H2Credit.CreditInv(env, Do(env, c, a)) && H2Grammar.Responds(env, Do(env, c, a))
    ensures PumpInv(env, Do(env, c, a))
  {
    assert c.gotError ==> Do(env, c, a).gotError;
    CreditTable(env, c);
    H2History.AtomGrows(env, c, a);
    hide PumpInv, Do, H2Credit.CreditInv, H2Grammar.Responds, DataFree;
    OtherPump(env, c, Do(env, c, a));
  }

  lemma WindPump(env: Env, c: Conn, a: Atom)
    requires PumpInv(env, c) && Enabled(env, c, a)
    requires a.WindDown? || (a.Flags? && (a.needSettings ==> c.needSettings))
    ensures PumpInv(env, Do(env, c, a))
  {
    var Q, R := H2Credit.CreditProperty(env), H2Grammar.ResponseProperty(env);
    H2Credit.CreditInvariant(env);
    H2Grammar.GrammarInvariant(env);
    hide Invariant, H2Credit.CreditInv, H2Grammar.Responds, Do, TableInv, FullChunks, Enabled;
    SteadyAtom(env, Q, c, a);
    SteadyAtom(env, R, c, a);
    assert Q(Do(env, c, a)) && R(Do(env, c, a));
    AtomPump(env, c, a);
  }

  lemma PumpSteady(env: Env)
    ensures Steady(env, PumpProperty(env))
  {
    var P := PumpProperty(env);
    assert forall c | P(c) :: TableInv(env.lim, c);
    hide TableInv, H2Credit.CreditInv, H2Grammar.Responds, FullChunks, Do;
    forall c, code: nat, error: bool | P(c)
      ensures P(Do(env, c, WindDown(code, error)))
    {
      WindPump(env, c, WindDown(code, error));
    }
    forall c, needs: bool, got: nat | P(c) && got <= PREFACE_LEN && (needs ==> c.needSettings)
      ensures P(Do(env, c, Flags(needs, got)))
    {
      WindPump(env, c, Flags(needs, got));
    }
  }

  lemma SteadyAtom(env: Env, P: Property, c: Conn, a: Atom)
    requires Invariant(env, P) && P(c) && Enabled(env, c, a)
    requires a.WindDown? || (a.Flags? && (a.needSettings ==> c.needSettings))
    ensures P(Do(env, c, a))
  {
    assert Steady(env, P);
    hide Do, Invariant, TableInv;
    match a
    case WindDown(code, error) => assert P(Do(env, c, WindDown(code, error)));
    case Flags(needs, got) => assert P(Do(env, c, Flags(needs, got)));
    case _ =>
  }

  lemma FramePump(env: Env, c: Conn, f: InFrame, n: Feeding)
    requires PumpInv(env, c) && !c.gotError && Parsed(f)
    ensures PumpInv(env, OnFrame(env, c, f, n))
  {
    var d := OnFrame(env, c, f, n);
    var R := H2Grammar.ResponseProperty(env);
    hide H2Credit.CreditInv, H2Grammar.Responds, OnFrame, FullChunks, DataFree, Invariant;
    CreditTable(env, c);
    H2Credit.FrameCredit(env, c, f, n);
    H2Grammar.GrammarInvariant(env);
    assert R(d) by {
      InvariantFrame(env, R, c, f, n);
    }
    H2History.FrameAdds(env, c, f, n);
    OtherPump(env, c, d);
  }

  lemma InvariantFrame(env: Env, P: Property, c: Conn, f: InFrame, n: Feeding)
    requires Invariant(env, P) && P(c) && !c.gotError && Parsed(f)
    ensures P(OnFrame(env, c, f, n))
  {
    hide Steady, OnFrame;
  }

  lemma InvariantDrain(env: Env, P: Property, c: Conn, n: nat)
    requires Invariant(env, P) && P(c)
    ensures P(Drain(c, n)) && P(Fresh())
  {
    hide Steady, OnFrame, Drain, Fresh;
  }

  lemma DrainPump(env: Env, c: Conn, n: nat)
    requires PumpInv(env, c)
    ensures PumpInv(env, Drain(c, n))
  {
    var Q, R := H2Credit.CreditProperty(env), H2Grammar.ResponseProperty(env);
    var d := Drain(c, n);
    assert DataFree(c.trace, d.trace) && d.gotError == c.gotError;
    hide H2Credit.CreditInv, H2Grammar.Responds, Drain, FullChunks, DataFree, Invariant;
    H2Credit.CreditInvariant(env);
    H2Grammar.GrammarInvariant(env);
    InvariantDrain(env, Q, c, n);
    InvariantDrain(env, R, c, n);
    OtherPump(env, c, d);
  }

  lemma FreshPump(env: Env)
    ensures PumpInv(env, Fresh())
  {
    H2Credit.FreshCredit(env);
    H2Grammar.FreshResponds(env);
    assert Fresh().trace == Then(Start, Sent(Settings)) && FullChunks(env, Start);
    hide H2Credit.CreditInv, H2Grammar.Responds;
  }

  lemma PumpInvariant(env: Env)
    ensures Invariant(env, PumpProperty(env))
  {
    hide Steady, PumpInv, OnFrame, AfterChunk, Drain, Fresh, Sendable;
    var P := PumpProperty(env);
    PumpSteady(env);
    FreshPump(env);
    forall c: Conn, f: InFrame, n: Feeding | P(c) && !c.gotError && Parsed(f)
      ensures P(OnFrame(env, c, f, n))
    {
      FramePump(env, c, f, n);
    }
    forall c, i: nat | P(c) && Pumpable(c, i) && Sendable(env.lim, c, i) > 0
      ensures P(AfterChunk(env.lim, c, i))
    {
      ChunkPump(env, c, i);
    }
    forall c, n: nat | P(c)
      ensures P(Drain(c, n))
    {
      DrainPump(env, c, n);
    }
  }

  lemma RunPump(env: Env, actions: seq<Action>)
    ensures PumpInv(env, Run(env, actions).conn)
  {
    hide Invariant, Run, PumpInv;
    PumpInvariant(env);
    RunKeeps(env, PumpProperty(env), actions);
    assert PumpProperty(env)(Run(env, actions).conn);
  }

  /**
    In every run without a connection error each DATA frame was as long as the least of the rest of its
    body, both windows, the peer's frame size and the room left in the output buffer.
   */
  lemma ChunksAreFull(env: Env, actions: seq<Action>)
    ensures var c := Run(env, actions).conn; !c.gotError ==> FullChunks(env, c.trace)
  {
    hide Run, FullChunks;
    RunPump(env, actions);
  }

  // ------------------------------------------------------------ what a pump leaves

  /** A window is used up or the output buffer has no room beyond a frame header. */
  predicate Blocked(lim: Limits, c: Conn, k: nat)
    requires k < |c.streams|
  {
    c.streams[k].sendWindow <= 0 || c.sendWindow <= 0 || lim.maxOutBytes <= c.queued + FRAME_HDR
  }

  predicate Unsent(st: Stream) {
    st.respHeadersDone && !st.sendDone ==> st.bodyOff < |st.respBody|
  }

  ghost predicate Shaped(c: Conn) {
    c.peerMaxFrame > 0 && forall k | 0 <= k < |c.streams| :: Unsent(c.streams[k])
  }

  ghost predicate BlockedTo(lim: Limits, c: Conn, i: nat)
    requires i <= |c.streams|
  {
    forall k | 0 <= k < i :: Pumpable(c, k) ==> Blocked(lim, c, k)
  }

  /** Less credit and less room, and the other streams as they were. */
  ghost predicate Spends(c: Conn, d: Conn, i: nat) {
    && |d.streams| == |c.streams| && d.sendWindow <= c.sendWindow && d.queued >= c.queued
    && d.peerMaxFrame == c.peerMaxFrame
    && forall k | 0 <= k < |c.streams| && k != i :: d.streams[k] == c.streams[k]
  }

  lemma ChunkSpends(lim: Limits, c: Conn, i: nat)
    requires Pumpable(c, i) && Sendable(lim, c, i) > 0
    ensures var d := SendChunk(c, i, Sendable(lim, c, i));
            Spends(c, d, i) && d.streams[i].respHeadersDone && Unsent(d.streams[i])
  {
    hide Sendable;
  }

  /** A stream's turn ends when its body is out or it is blocked. */
  lemma {:induction false} TurnBlocks(lim: Limits, c: Conn, i: nat)
    requires Pumpable(c, i) && Unsent(c.streams[i]) && c.peerMaxFrame > 0
    ensures var d := PumpStream(lim, c, i);
            Spends(c, d, i) && Unsent(d.streams[i]) && (Pumpable(d, i) ==> Blocked(lim, d, i))
    decreases |c.streams[i].respBody| - c.streams[i].bodyOff
  {
    var n := Sendable(lim, c, i);
    if n > 0 {
      var d := SendChunk(c, i, n);
      ChunkSpends(lim, c, i);
      hide SendChunk;
      if Pumpable(d, i) {
        hide Sendable;
        TurnBlocks(lim, d, i);
      } else {
        SentOut(lim, c, i);
      }
    }
  }

  lemma SentOut(lim: Limits, c: Conn, i: nat)
    requires Pumpable(c, i) && Sendable(lim, c, i) > 0 && !Pumpable(SendChunk(c, i, Sendable(lim, c, i)), i)
    ensures var d := SendChunk(c, i, Sendable(lim, c, i)); PumpStream(lim, d, i) == d
  {
  }

  lemma SpendsBlocks(lim: Limits, c: Conn, d: Conn, i: nat)
    requires i < |c.streams| && Spends(c, d, i) && BlockedTo(lim, c, i) && Shaped(c) && Unsent(d.streams[i])
    ensures BlockedTo(lim, d, i) && Shaped(d)
  {
    hide Unsent;
    forall k | 0 <= k < i
      ensures Pumpable(d, k) ==> Blocked(lim, d, k)
    {
      assert d.streams[k] == c.streams[k];
      assert Pumpable(c, k) ==> Blocked(lim, c, k);
    }
  }

  lemma ClosedBlocks(lim: Limits, c: Conn, i: nat)
    requires i < |c.streams| && BlockedTo(lim, c, i) && Shaped(c)
    ensures var d := CloseAt(c, i); i <= |d.streams| && BlockedTo(lim, d, i) && Shaped(d)
  {
    hide Unsent;
    var d := CloseAt(c, i);
    assert d.sendWindow == c.sendWindow && d.queued == c.queued && d.peerMaxFrame == c.peerMaxFrame;
    forall k | 0 <= k < |d.streams|
      ensures Unsent(d.streams[k])
    {
      ClosedSlots(c, i, k);
    }
    forall k | 0 <= k < i
      ensures Pumpable(d, k) ==> Blocked(lim, d, k)
    {
      if k < |d.streams| {
        ClosedSlots(c, i, k);
        assert Pumpable(c, k) ==> Blocked(lim, c, k);
      }
    }
  }

  lemma OneTurn(lim: Limits, c: Conn, i: nat)
    requires i < |c.streams| && BlockedTo(lim, c, i) && Shaped(c)
    ensures var (d, j) := H2Interrupted.AfterTurn(lim, c, i); BlockedTo(lim, d, j) && Shaped(d)
  {
    var c1 := if Pumpable(c, i) then PumpStream(lim, c, i) else c;
    assert Unsent(c.streams[i]);
    assert H2Interrupted.AfterTurn(lim, c, i) ==
           if c1.streams[i].sendDone && c1.streams[i].endStreamRecv then (CloseAt(c1, i), i) else (c1, i + 1);
    hide PumpStream, H2Interrupted.AfterTurn, CloseAt;
    if Pumpable(c, i) {
      TurnBlocks(lim, c, i);
      SpendsBlocks(lim, c, c1, i);
    }
    ClosedBlocks(lim, c1, i);
  }

  lemma {:induction false} PumpBlocks(lim: Limits, c: Conn, i: nat)
    requires i <= |c.streams| && BlockedTo(lim, c, i) && Shaped(c)
    ensures var d := PumpFrom(lim, c, i); BlockedTo(lim, d, |d.streams|)
    decreases |c.streams| - i
  {
    PumpFromTurn(lim, c, i);
    hide PumpFrom, H2Interrupted.AfterTurn, BlockedTo, Shaped;
    if i < |c.streams| {
      H2Interrupted.TurnStep(lim, c, i);
      OneTurn(lim, c, i);
      var (d, j) := H2Interrupted.AfterTurn(lim, c, i);
      PumpBlocks(lim, d, j);
    }
  }

  lemma ShapeHolds(env: Env, c: Conn)
    requires TableInv(env.lim, c)
    ensures Shaped(c)
    ensures forall k | 0 <= k < |c.streams| :: c.streams[k].bodyOff < |c.streams[k].respBody| ==> Pumpable(c, k)
  {
    forall k | 0 <= k < |c.streams|
      ensures Unsent(c.streams[k]) && (c.streams[k].bodyOff < |c.streams[k].respBody| ==> Pumpable(c, k))
    {
      assert StreamShape(env.lim, c, c.streams[k]);
    }
  }

  lemma RunEnds(env: Env, actions: seq<Action>)
    ensures Run(env, actions + [DoPump]).conn == Pump(env.lim, Run(env, actions).conn)
  {
    var all := actions + [DoPump];
    assert all[..|all| - 1] == actions && all[|all| - 1] == DoPump;
    hide Pump;
  }

  /**
    After a pump, in every run without a connection error, each stream that still has something of its
    body to send is held up: by its own window, by the connection's or by the output buffer, which has no
    room beyond a frame header.
   */
  lemma PumpExhausts(env: Env, actions: seq<Action>)
    ensures var c := Run(env, actions + [DoPump]).conn;
            !c.gotError ==>
              forall k | 0 <= k < |c.streams| && c.streams[k].bodyOff < |c.streams[k].respBody| ::
                || StreamWindow(c.trace, c.streams[k].id) <= 0 || ConnectionWindow(c.trace) <= 0
                || env.lim.maxOutBytes <= Queued(c.trace) + FRAME_HDR
  {
    var c0, c := Run(env, actions).conn, Run(env, actions + [DoPump]).conn;
    RunPump(env, actions);
    RunPump(env, actions + [DoPump]);
    RunEnds(env, actions);
    H2Credit.SendCredit(env, actions + [DoPump]);
    CreditTable(env, c0);
    CreditTable(env, c);
    ShapeHolds(env, c0);
    ShapeHolds(env, c);
    hide Run, PumpInv, PumpFrom, Pumpable, TableInv, StreamWindow, ConnectionWindow, Queued, Shaped;
    PumpBlocks(env.lim, c0, 0);
  }
}
