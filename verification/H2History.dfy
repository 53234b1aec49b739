/**
  Histories only grow, and so what a stream has finished stays finished; and no frame received is
  answered with DATA.
 */
module H2History {
  import opened Bytes
  import opened H2Trace
  import opened H2Spec
  import opened H2Steps
  import opened H2Runs
  import opened H2Table
  import H2Grammar

  /** The history went on without DATA. */
  ghost predicate Grown(env: Env, t: Trace, c: Conn) {
    TableInv(env.lim, c) && DataFree(t, c.trace)
  }

  ghost function GrownProperty(env: Env, t: Trace): Property {
    c => Grown(env, t, c)
  }

  lemma {:induction false} DataFreeJoin(a: Trace, b: Trace, c: Trace)
    requires DataFree(a, b) && DataFree(b, c)
    ensures DataFree(a, c)
  {
    if b != c {
      DataFreeJoin(a, b, c.before);
    }
  }

  lemma {:induction false} ExtendsJoin(a: Trace, b: Trace, c: Trace)
    requires Extends(a, b) && Extends(b, c)
    ensures Extends(a, c)
  {
    if b != c {
      ExtendsJoin(a, b, c.before);
    }
  }

  lemma {:induction false} DataFreeExtends(t: Trace, t': Trace)
    requires DataFree(t, t')
    ensures Extends(t, t')
  {
    if t' != t {
      DataFreeExtends(t, t'.before);
    }
  }

  lemma {:induction false} SendBlockGrows(c: Conn, sid: nat, block: Octets, first: bool, endStream: bool)
    ensures DataFree(c.trace, SendBlock(c, sid, block, first, endStream).trace)
    decreases |block|
  {
    SendBlockTurn(c, sid, block, first, endStream);
    var maxf := FrameLimit(c);
    var last := |block| <= maxf;
    var chunk := if last then block else block[..maxf];
    var f := if first then Headers(sid, endStream, last, chunk) else Continuation(sid, last, chunk);
    assert DataFree(c.trace, Emit(c, f).trace);
    hide SendBlock;
    if !last {
      SendBlockGrows(Emit(c, f), sid, block[maxf..], false, endStream);
      DataFreeJoin(c.trace, Emit(c, f).trace, SendBlock(c, sid, block, first, endStream).trace);
    }
  }

  lemma DispatchGrows(env: Env, c: Conn, i: nat)
    requires i < |c.streams| && !c.streams[i].dispatched && !c.streams[i].responded
    ensures DataFree(c.trace, Dispatch(env, c, i).trace)
  {
    var st := c.streams[i];
    var c1 := Note(SetStream(c, i, st.(dispatched := true)), Dispatched(st.id, st.isHead, st.reqBody));
    assert DataFree(c.trace, c1.trace);
    hide Dispatch, FieldBlock, SendBlock, DataFree;
    var r := env.app(st.id);
    DispatchTrace(env, c, i);
    SendBlockGrows(c1, st.id, FieldBlock(r), true, !HasBody(r, st.isHead));
    DataFreeJoin(c.trace, c1.trace, Dispatch(env, c, i).trace);
  }

  /** One event at most, and no DATA. */
  predicate OneMore(t: Trace, t': Trace) {
    t' == t || (t'.Then? && t'.before == t && !(t'.event.Sent? && t'.event.out.Data?))
  }

  lemma OpeningAtom(env: Env, c: Conn, a: Atom)
    requires Enabled(env, c, a) && (a.Begin? || a.Trailer? || a.Gather? || a.Accept? || a.Collect?)
    ensures OneMore(c.trace, Do(env, c, a).trace)
  {
    hide Enabled, Dispatch;
  }

  lemma ClosingAtom(env: Env, c: Conn, a: Atom)
    requires Enabled(env, c, a) && (a.Cancel? || a.Refuse? || a.Close? || a.Abandon? || a.WindDown?)
    ensures OneMore(c.trace, Do(env, c, a).trace)
  {
    hide SawEndStream, Dispatch;
  }

  /** Every step but the answer to a request. */
  lemma OtherAtom(env: Env, c: Conn, a: Atom)
    requires Enabled(env, c, a) && !a.Finish?
    ensures OneMore(c.trace, Do(env, c, a).trace)
  {
    if a.Begin? || a.Trailer? || a.Gather? || a.Accept? || a.Collect? {
      OpeningAtom(env, c, a);
    } else if a.Answer? || a.PeerGoaway? || a.Flags? {
      hide SawEndStream, Dispatch;
    } else {
      hide Do, Enabled;
      ClosingAtom(env, c, a);
    }
  }

  lemma AtomGrows(env: Env, c: Conn, a: Atom)
    requires TableInv(env.lim, c) && Enabled(env, c, a)
    ensures DataFree(c.trace, Do(env, c, a).trace)
  {
    if a.Finish? {
      assert StreamShape(env.lim, c, c.streams[a.slot]);
      hide Dispatch, DataFree, TableInv, SawEndStream;
      var st := c.streams[a.slot].(gotHeaders := true, endStreamRecv := true, isHead := a.isHead);
      DispatchGrows(env, SetStream(EndBlock(c, a.blocks), a.slot, st), a.slot);
    } else {
      hide TableInv, Do, Enabled;
      OtherAtom(env, c, a);
    }
  }

  lemma GrowsOn(env: Env, t: Trace, c: Conn, d: Conn)
    requires Grown(env, t, c) && TableInv(env.lim, d) && DataFree(c.trace, d.trace)
    ensures Grown(env, t, d)
  {
    hide TableInv, DataFree;
    DataFreeJoin(t, c.trace, d.trace);
  }

  lemma AtomKeeps(env: Env, t: Trace, c: Conn, a: Atom)
    requires Grown(env, t, c) && Enabled(env, c, a)
    ensures Grown(env, t, Do(env, c, a))
  {
    hide TableInv, DataFree, Enabled, Do;
    TableAtom(env, c, a);
    AtomGrows(env, c, a);
    GrowsOn(env, t, c, Do(env, c, a));
  }

  lemma GrownKept(env: Env, t: Trace)
    ensures Kept(env, GrownProperty(env, t))
  {
    var P := GrownProperty(env, t);
    assert forall c | P(c) :: TableInv(env.lim, c);
    hide Grown, Enabled, Do, TableInv;
    forall c, a | P(c) && Enabled(env, c, a) && !a.Collect?
      ensures P(Do(env, c, a))
    {
      AtomKeeps(env, t, c, a);
    }
  }

  lemma GrownIgnores(env: Env, t: Trace)
    ensures IgnoresSendWindows(GrownProperty(env, t)) && IgnoresRecvWindows(env, GrownProperty(env, t))
  {
    var P := GrownProperty(env, t);
    hide TableInv, ConsumeConn, ConsumeStream, Enabled, Do;
    forall c, streams, w: int, initial: nat, maxFrame: nat
      | P(c) && SameButSendWindow(c.streams, streams) && initial <= MAX_WINDOW && 16384 <= maxFrame <= 16777215
      ensures P(Tuned(c, streams, w, initial, maxFrame))
    {
      TableSendWindows(env, c, streams, w, initial, maxFrame);
    }
    forall c, i: nat, body: Octets | P(c) && Enabled(env, c, Collect(i, body))
      ensures P(Do(env, c, Collect(i, body)))
    {
      AtomKeeps(env, t, c, Collect(i, body));
    }
    forall c, len: nat | P(c)
      ensures P(ConsumeConn(c, len))
    {
      TableConsumeConn(env, c, len);
      ConsumeConnGrows(c, len);
      GrowsOn(env, t, c, ConsumeConn(c, len));
    }
    forall c, i: nat, len: nat | P(c) && i < |c.streams| && c.streams[i].gotHeaders && !c.streams[i].endStreamRecv
      ensures P(ConsumeStream(c, i, len))
    {
      TableConsumeStream(env, c, i, len);
      ConsumeStreamGrows(c, i, len);
      GrowsOn(env, t, c, ConsumeStream(c, i, len));
    }
  }

  lemma ConsumeConnGrows(c: Conn, len: nat)
    ensures DataFree(c.trace, ConsumeConn(c, len).trace)
  {
  }

  lemma ConsumeStreamGrows(c: Conn, i: nat, len: nat)
    requires i < |c.streams|
    ensures DataFree(c.trace, ConsumeStream(c, i, len).trace)
  {
    ConsumeStreamEvent(c, i, len);
    hide ConsumeStream;
  }

  /** DATA is sent by the pump alone, never in answer to a frame. */
  lemma FrameAdds(env: Env, c: Conn, f: InFrame, n: Feeding)
    requires TableInv(env.lim, c) && !c.gotError && Parsed(f)
    ensures DataFree(c.trace, OnFrame(env, c, f, n).trace) && TableInv(env.lim, OnFrame(env, c, f, n))
  {
    var t := c.trace;
    TableSeen(env, c, f);
    assert DataFree(t, Seen(c, f).trace);
    assert Grown(env, t, Seen(c, f));
    hide Grown, OnFrame, Kept, IgnoresSendWindows, IgnoresRecvWindows;
    GrownKept(env, t);
    GrownIgnores(env, t);
    FrameKeeps(env, GrownProperty(env, t), c, f, n);
    assert Grown(env, t, OnFrame(env, c, f, n)) by {
      assert GrownProperty(env, t)(OnFrame(env, c, f, n));
    }
    GrownIs(env, t, OnFrame(env, c, f, n));
  }

  lemma GrownIs(env: Env, t: Trace, c: Conn)
    requires Grown(env, t, c)
    ensures TableInv(env.lim, c) && DataFree(t, c.trace)
  {
  }

  // ------------------------------------------------------------ every run

  ghost predicate Onward(env: Env, t: Trace, c: Conn) {
    TableInv(env.lim, c) && Extends(t, c.trace)
  }

  ghost function OnwardProperty(env: Env, t: Trace): Property {
    c => Onward(env, t, c)
  }

  lemma OnwardOn(env: Env, t: Trace, c: Conn, d: Conn)
    requires Onward(env, t, c) && TableInv(env.lim, d) && Extends(c.trace, d.trace)
    ensures Onward(env, t, d)
  {
    hide TableInv, Extends;
    ExtendsJoin(t, c.trace, d.trace);
  }

  lemma OnwardSteady(env: Env, t: Trace)
    ensures Steady(env, OnwardProperty(env, t))
  {
    var P := OnwardProperty(env, t);
    hide TableInv, Do, Extends;
    forall c, code: nat, error: bool | P(c)
      ensures P(Do(env, c, WindDown(code, error)))
    {
      AtomOnward(env, t, c, WindDown(code, error));
    }
    forall c, needs: bool, got: nat | P(c) && got <= PREFACE_LEN && (needs ==> c.needSettings)
      ensures P(Do(env, c, Flags(needs, got)))
    {
      AtomOnward(env, t, c, Flags(needs, got));
    }
  }

  lemma AtomOnward(env: Env, t: Trace, c: Conn, a: Atom)
    requires Onward(env, t, c) && Enabled(env, c, a)
    ensures Onward(env, t, Do(env, c, a))
  {
    hide TableInv, Extends, DataFree, Enabled, Do;
    TableAtom(env, c, a);
    AtomGrows(env, c, a);
    DataFreeExtends(c.trace, Do(env, c, a).trace);
    OnwardOn(env, t, c, Do(env, c, a));
  }

  lemma FrameOnward(env: Env, t: Trace, c: Conn, f: InFrame, n: Feeding)
    requires Onward(env, t, c) && !c.gotError && Parsed(f)
    ensures Onward(env, t, OnFrame(env, c, f, n))
  {
    hide TableInv, Extends, DataFree, OnFrame;
    FrameAdds(env, c, f, n);
    DataFreeExtends(c.trace, OnFrame(env, c, f, n).trace);
    OnwardOn(env, t, c, OnFrame(env, c, f, n));
  }

  lemma ChunkOnward(env: Env, t: Trace, c: Conn, i: nat)
    requires Onward(env, t, c) && Pumpable(c, i) && Sendable(env.lim, c, i) > 0
    ensures Onward(env, t, AfterChunk(env.lim, c, i))
  {
    TableChunk(env, c, i);
    var d := AfterChunk(env.lim, c, i);
    assert d.trace.Then? && d.trace.before == c.trace;
    hide TableInv, Sendable;
    assert Extends(c.trace, d.trace);
    OnwardOn(env, t, c, d);
  }

  lemma DrainOnward(env: Env, t: Trace, c: Conn, n: nat)
    requires Onward(env, t, c)
    ensures Onward(env, t, Drain(c, n))
  {
    TableDrain(env, c, n);
    hide TableInv;
    assert Extends(c.trace, Drain(c, n).trace);
    OnwardOn(env, t, c, Drain(c, n));
  }

  lemma OnwardStable(env: Env, t: Trace)
    ensures Stable(env, OnwardProperty(env, t))
  {
    hide Steady, Onward, OnFrame, AfterChunk, Drain, Sendable;
    var P := OnwardProperty(env, t);
    OnwardSteady(env, t);
    forall c: Conn, f: InFrame, n: Feeding | P(c) && !c.gotError && Parsed(f)
      ensures P(OnFrame(env, c, f, n))
    {
      FrameOnward(env, t, c, f, n);
    }
    forall c, i: nat | P(c) && Pumpable(c, i) && Sendable(env.lim, c, i) > 0
      ensures P(AfterChunk(env.lim, c, i))
    {
      ChunkOnward(env, t, c, i);
    }
    forall c, n: nat | P(c)
      ensures P(Drain(c, n))
    {
      DrainOnward(env, t, c, n);
    }
  }

  /** Nothing that happened is ever undone. */
  lemma HistoryGrows(env: Env, actions: seq<Action>, more: seq<Action>)
    ensures Extends(Run(env, actions).conn.trace, Run(env, actions + more).conn.trace)
  {
    var t := Run(env, actions).conn.trace;
    H2Grammar.GrammarInvariant(env);
    RunKeeps(env, H2Grammar.ResponseProperty(env), actions);
    assert Extends(t, t);
    hide Invariant, Run, Stable, TableInv, H2Grammar.GrammarInv;
    OnwardStable(env, t);
    RunKeepsOn(env, OnwardProperty(env, t), actions, more);
  }

  /** After the end of a response any further frame of its stream would be an error. */
  lemma {:induction false} PhaseStays(t: Trace, t': Trace, sid: nat)
    requires Extends(t, t') && (PhaseOf(t, sid).Ended? || PhaseOf(t, sid).Reset? || PhaseOf(t, sid).Bad?)
    ensures PhaseOf(t', sid) == PhaseOf(t, sid) || PhaseOf(t', sid) == Bad
  {
    if t' != t {
      PhaseStays(t, t'.before, sid);
    }
  }

  /**
    A response that has ended, or a stream that was reset, stays so: no further action makes the
    server send another frame on it.
   */
  lemma EndIsFinal(env: Env, actions: seq<Action>, more: seq<Action>, sid: nat)
    requires sid > 0
    ensures var phase := PhaseOf(Run(env, actions).conn.trace, sid);
            phase.Ended? || phase.Reset? ==> PhaseOf(Run(env, actions + more).conn.trace, sid) == phase
  {
    var t, t' := Run(env, actions).conn.trace, Run(env, actions + more).conn.trace;
    H2Grammar.ResponseGrammar(env, actions + more, sid);
    HistoryGrows(env, actions, more);
    hide Run, Extends;
    if PhaseOf(t, sid).Ended? || PhaseOf(t, sid).Reset? {
      PhaseStays(t, t', sid);
    }
  }
}
