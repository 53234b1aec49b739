/** Sections 6.5 and 6.7 of RFC 9113: PING and SETTINGS are acknowledged, each once, in order. */
module H2Replies {
  import opened Bytes
  import opened H2Trace
  import opened H2Spec
  import opened H2Steps
  import opened H2Runs
  import opened H2Table
  import opened H2Blocks

  /** Everything that was asked is answered. */
  ghost predicate Answered(t: Trace) {
    PingsAnswered(t) == PingsAsked(t) && SettingsAnswered(t) == SettingsAsked(t)
  }

  ghost predicate ReplyInv(env: Env, c: Conn) {
    TableInv(env.lim, c) && (!c.gotError ==> Answered(c.trace))
  }

  ghost function ReplyProperty(env: Env): Property {
    c => ReplyInv(env, c)
  }

  lemma Unaffected(t: Trace, t': Trace)
    requires SameReplies(t, t') && SameAsked(t, t') && Answered(t)
    ensures Answered(t')
  {
  }

  /** A frame on record asks for what its handler answers. */
  lemma FrameAnswered(env: Env, c: Conn, f: InFrame, n: Feeding)
    requires Answered(c.trace) && !c.gotError
    ensures var d := OnFrame(env, c, f, n); d.gotError || Answered(d.trace)
  {
    var c1 := Seen(c, f);
    assert PingsAsked(c1.trace) == PingsAsked(c.trace) + if AsksPing(f) then [f.payload] else [];
    assert SettingsAsked(c1.trace) == SettingsAsked(c.trace) + if AsksSettings(f) then 1 else 0;
    assert SameReplies(c.trace, c1.trace);
    if !InSequence(c, f) {
      hide PingsAsked, PingsAnswered, SettingsAsked, SettingsAnswered;
    } else if f.kind == FT_PING {
      PingHandled(env, c1, f, n.pings);
      assert OnFrame(env, c, f, n) == OnPing(env, c1, f, n.pings);
      hide OnPing, OnFrame, PingsAsked, PingsAnswered, SettingsAsked, SettingsAnswered, InboundOf;
    } else if f.kind == FT_SETTINGS {
      SettingsHandled(c1, f, n.settings);
      assert OnFrame(env, c, f, n) == OnSettings(c1, f, n.settings);
      hide OnSettings, OnFrame, PingsAsked, PingsAnswered, SettingsAsked, SettingsAnswered, InboundOf;
    } else {
      assert !AsksPing(f) && !AsksSettings(f);
      assert SameAsked(c.trace, c1.trace);
      RestAnswered(env, c, f, n);
    }
  }

  lemma RestAnswered(env: Env, c: Conn, f: InFrame, n: Feeding)
    requires InSequence(c, f) && f.kind != FT_PING && f.kind != FT_SETTINGS
    requires Answered(c.trace) && SameReplies(c.trace, Seen(c, f).trace) && SameAsked(c.trace, Seen(c, f).trace)
    ensures Answered(OnFrame(env, c, f, n).trace)
  {
    var c1 := Seen(c, f);
    hide PingsAsked, PingsAnswered, SettingsAsked, SettingsAnswered, InboundOf;
    if f.kind == FT_HEADERS {
      HeadersGather(env, c1, f);
      assert OnFrame(env, c, f, n) == OnHeaders(env, c1, f);
      hide OnHeaders, OnFrame;
    } else if f.kind == FT_CONTINUATION {
      ContinuationGathers(env, c1, f);
      assert OnFrame(env, c, f, n) == OnContinuation(env, c1, f);
      hide OnContinuation, OnFrame;
    } else {
      OtherFrames(env, c, f, n);
      hide OnFrame;
    }
  }

  /** A step that adds an event which is neither a frame received nor an acknowledgement. */
  lemma PlainEvent(t: Trace, e: Event)
    requires !e.Recv? && (e.Sent? ==> !e.out.PingAck? && !e.out.SettingsAck?)
    ensures SameReplies(t, Then(t, e)) && SameAsked(t, Then(t, e))
  {
  }

  lemma AtomReply(env: Env, c: Conn, a: Atom)
    requires ReplyInv(env, c) && Enabled(env, c, a) && (a.WindDown? || a.Flags?)
    ensures ReplyInv(env, Do(env, c, a))
  {
    TableAtom(env, c, a);
    var d := Do(env, c, a);
    assert d.trace == c.trace
           || (d.trace.Then? && d.trace.before == c.trace && d.trace.event.Sent? && d.trace.event.out.GoAway?);
    assert c.gotError ==> d.gotError;
    hide TableInv, Do, Answered;
    if d.trace != c.trace {
      PlainEvent(c.trace, d.trace.event);
      if !c.gotError {
        Unaffected(c.trace, d.trace);
      }
    }
  }

  lemma ReplySteady(env: Env)
    ensures Steady(env, ReplyProperty(env))
  {
    var P := ReplyProperty(env);
    assert forall c | P(c) :: TableInv(env.lim, c);
    hide TableInv, Answered, Do;
    forall c, code: nat, error: bool | P(c)
      ensures P(Do(env, c, WindDown(code, error)))
    {
      AtomReply(env, c, WindDown(code, error));
    }
    forall c, needs: bool, got: nat | P(c) && got <= PREFACE_LEN && (needs ==> c.needSettings)
      ensures P(Do(env, c, Flags(needs, got)))
    {
      AtomReply(env, c, Flags(needs, got));
    }
  }

  lemma ChunkReply(env: Env, c: Conn, i: nat)
    requires ReplyInv(env, c) && Pumpable(c, i) && Sendable(env.lim, c, i) > 0
    ensures ReplyInv(env, AfterChunk(env.lim, c, i))
  {
    TableChunk(env, c, i);
    ChunkEvent(env.lim, c, i);
    hide TableInv, AfterChunk, Sendable, Answered;
    PlainEvent(c.trace, AfterChunk(env.lim, c, i).trace.event);
    if !c.gotError {
      Unaffected(c.trace, AfterChunk(env.lim, c, i).trace);
    }
  }

  lemma ChunkEvent(lim: Limits, c: Conn, i: nat)
    requires Pumpable(c, i) && Sendable(lim, c, i) > 0
    ensures var d := AfterChunk(lim, c, i);
            && d.trace.Then? && d.trace.before == c.trace && d.trace.event.Sent? && d.trace.event.out.Data?
            && d.gotError == c.gotError
  {
    hide Sendable;
  }

  lemma DrainReply(env: Env, c: Conn, n: nat)
    requires ReplyInv(env, c)
    ensures ReplyInv(env, Drain(c, n))
  {
    TableDrain(env, c, n);
    var d := Drain(c, n);
    assert d.trace.Then? && d.trace.before == c.trace && d.trace.event.Drained? && d.gotError == c.gotError;
    hide TableInv, Drain, Answered;
    PlainEvent(c.trace, d.trace.event);
    if !c.gotError {
      Unaffected(c.trace, d.trace);
    }
  }

  lemma FreshReply(env: Env)
    ensures ReplyInv(env, Fresh())
  {
    assert Fresh().trace == Then(Start, Sent(Settings));
    PlainEvent(Start, Sent(Settings));
    assert Answered(Start);
  }

  lemma ReplyInvariant(env: Env)
    ensures Invariant(env, ReplyProperty(env))
  {
    hide Steady, Answered, TableInv, OnFrame, AfterChunk, Drain, Fresh, Sendable;
    var P := ReplyProperty(env);
    ReplySteady(env);
    FreshReply(env);
    forall c: Conn, f: InFrame, n: Feeding | P(c) && !c.gotError && Parsed(f)
      ensures P(OnFrame(env, c, f, n))
    {
      TableFrame(env, c, f, n);
      FrameAnswered(env, c, f, n);
    }
    forall c, i: nat | P(c) && Pumpable(c, i) && Sendable(env.lim, c, i) > 0
      ensures P(AfterChunk(env.lim, c, i))
    {
      ChunkReply(env, c, i);
    }
    forall c, n: nat | P(c)
      ensures P(Drain(c, n))
    {
      DrainReply(env, c, n);
    }
  }

  /**
    In every run without a connection error the PINGs of the client are echoed, each once, in order and
    with their eight octets, and each of its SETTINGS is acknowledged once.
   */
  lemma AsksAreAnswered(env: Env, actions: seq<Action>)
    ensures var c := Run(env, actions).conn;
            !c.gotError ==>
              PingsAnswered(c.trace) == PingsAsked(c.trace) && SettingsAnswered(c.trace) == SettingsAsked(c.trace)
  {
    hide Invariant, Run, TableInv;
    ReplyInvariant(env);
    RunKeeps(env, ReplyProperty(env), actions);
    assert ReplyInv(env, Run(env, actions).conn);
  }
}
