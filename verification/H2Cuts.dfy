/**
  How HTTP/2 input is cut into feeds: nothing depends on it if and only if the PING and SETTINGS
  frames of one feed stay within their limits, or the first one beyond is refused in any case.
 */
module H2Cuts {
  import opened Bytes
  import opened H2Trace
  import opened H2Spec
  import opened H2Steps
  import opened H2Table
  import H2Blocks
  import H2Wire
  import H2Opening
  import H2Runs

  predicate Within(n: Feeding) {
    n.pings <= PING_PER_FEED && n.settings <= SETTINGS_PER_FEED
  }

  predicate AtMost(m: Feeding, n: Feeding) {
    m.pings <= n.pings && m.settings <= n.settings
  }

  /** The first frame beyond a limit, and the connection it meets. */
  ghost function Excess(env: Env, c: Conn, input: Octets, n: Feeding): (r: Option<(Conn, InFrame)>)
    decreases |input|
  {
    if c.gotError || |input| < FRAME_HDR || Read24(input) > OUR_MAX_FRAME || FirstFrame(input).None? then None
    else
      var f := FirstFrame(input).value;
      var n1 := Count(n, f);
      if !Within(n1) then Some((c, f))
      else if !InSequence(c, f) then None
      else Excess(env, OnFrame(env, c, f, n1), input[FRAME_HDR + |f.payload|..], n1)
  }

  /** SETTINGS in error that change nothing, at a connection that has sent its GOAWAY. */
  ghost predicate IdleSettings(c: Conn, payload: Octets)
    requires |payload| % 6 == 0
  {
    var d := ApplySettings(c, payload);
    && c.goawaySent && d.gotError
    && d.streams == c.streams && d.peerInitialWindow == c.peerInitialWindow && d.peerMaxFrame == c.peerMaxFrame
  }

  /** A PING or SETTINGS frame that comes to the same whether it is counted out or not. */
  ghost predicate RefusedAnyway(env: Env, c: Conn, f: InFrame) {
    || !InSequence(c, f)
    || (f.kind == FT_PING && c.queued > env.lim.maxOutBytes)
    || (f.kind == FT_SETTINGS && |f.payload| % 6 == 0 && IdleSettings(Seen(c, f), f.payload))
  }

  ghost predicate Tame(env: Env, c: Conn, input: Octets, n: Feeding) {
    var x := Excess(env, c, input, n);
    x.Some? ==> RefusedAnyway(env, x.value.0, x.value.1)
  }

  /** The input stays within the limits when it is fed at once, or meets one with a frame that is refused anyway. */
  ghost predicate Harmless(env: Env, c: Conn, input: Octets) {
    var (c1, rest) := ConsumePreface(c, input);
    c1.prefaceGot < PREFACE_LEN || Tame(env, c1, rest, Feeding(0, 0))
  }

  // ------------------------------------------------------------ one frame at the limit

  predicate Counted(f: InFrame) {
    || (f.kind == FT_PING && f.sid == 0 && |f.payload| == 8 && !f.Ack())
    || (AppliesSettings(f) && |f.payload| % 6 == 0)
  }

  lemma CountedOut(n: Feeding, f: InFrame)
    requires Within(n) && !Within(Count(n, f))
    ensures Counted(f) && !(f.kind == FT_PING && Count(n, f).pings <= PING_PER_FEED)
    ensures !(f.kind == FT_SETTINGS && Count(n, f).settings <= SETTINGS_PER_FEED)
  {
  }

  /** What parameters in error leave of a connection. */
  lemma {:induction false} ApplyShape(c: Conn, payload: Octets) returns (code: nat)
    requires !c.gotError && |payload| % 6 == 0
    ensures var d := ApplySettings(c, payload);
            var e := c.(streams := d.streams, peerInitialWindow := d.peerInitialWindow, peerMaxFrame := d.peerMaxFrame);
            if d.gotError then code != E_ENHANCE_YOUR_CALM && d == ConnError(e, code) else d == e
    decreases |payload|
  {
    code := E_PROTOCOL_ERROR;
    if payload != [] {
      code := SettingShape(c, Read16(payload), Read32(payload[2..]));
      hide ApplySetting, Read16, Read32, ConnError;
      var c1 := ApplySetting(c, Read16(payload), Read32(payload[2..]));
      if !c1.gotError {
        code := ApplyShape(c1, payload[6..]);
      }
    }
  }

  lemma SettingShape(c: Conn, id: nat, val: nat) returns (code: nat)
    requires !c.gotError
    ensures var d := ApplySetting(c, id, val);
            var e := c.(streams := d.streams, peerInitialWindow := d.peerInitialWindow, peerMaxFrame := d.peerMaxFrame);
            if d.gotError then code != E_ENHANCE_YOUR_CALM && d == ConnError(e, code) else d == e
  {
    hide Retarget;
    code := if id == S_INITIAL_WINDOW_SIZE then E_FLOW_CONTROL_ERROR else E_PROTOCOL_ERROR;
  }

  /** A frame beyond the limit: one error, in whatever feed. */
  lemma BeyondLimit(env: Env, c: Conn, f: InFrame, n: Feeding)
    requires Within(n) && !Within(Count(n, f)) && InSequence(c, f)
    ensures OnFrame(env, c, f, Count(n, f)) == ConnError(Seen(c, f), E_ENHANCE_YOUR_CALM)
  {
    CountedOut(n, f);
    hide OnData, OnHeaders, OnRstStream, OnGoaway, OnWindowUpdate, OnContinuation, OnPriority, ConnError, ApplySettings;
  }

  /** The same frame below the limit. */
  lemma BelowLimit(env: Env, c: Conn, f: InFrame, m: Feeding)
    requires Counted(f) && Within(m) && InSequence(c, f) && !c.gotError
    ensures var c1 := Seen(c, f);
            OnFrame(env, c, f, m) ==
            if f.kind == FT_PING then
              if c.queued > env.lim.maxOutBytes then ConnError(c1, E_ENHANCE_YOUR_CALM)
                else Emit(c1, PingAck(f.payload))
            else
              var d := ApplySettings(c1, f.payload);
              if d.gotError then d else Emit(d, SettingsAck)
  {
    hide OnData, OnHeaders, OnRstStream, OnGoaway, OnWindowUpdate, OnContinuation, OnPriority, ConnError, ApplySettings;
  }

  /** Refused with the same error, or answered. */
  lemma Answered(env: Env, c: Conn, f: InFrame, m: Feeding)
    requires Counted(f) && Within(m) && InSequence(c, f) && !c.gotError
    ensures var g := OnFrame(env, c, f, m);
            && (RefusedAnyway(env, c, f) <==> g == ConnError(Seen(c, f), E_ENHANCE_YOUR_CALM))
            && (!g.gotError ==>
                  && g.trace.Then? && g.trace.before == Then(c.trace, Recv(f))
                  && g.trace.event.Sent? && !g.trace.event.out.GoAway?)
  {
    BelowLimit(env, c, f, m);
    hide OnFrame;
    if f.kind == FT_SETTINGS {
      var code := ApplyShape(Seen(c, f), f.payload);
      hide ApplySettings;
    }
  }

  lemma FrameBlind(env: Env, c: Conn, f: InFrame, n: Feeding, m: Feeding)
    requires Within(n) && Within(m)
    ensures OnFrame(env, c, f, n) == OnFrame(env, c, f, m)
  {
    hide OnData, OnHeaders, OnRstStream, OnGoaway, OnWindowUpdate, OnContinuation, OnPriority, ConnError, ApplySettings;
  }

  lemma OutBlind(env: Env, c: Conn, f: InFrame, n: Feeding, m: Feeding)
    requires !InSequence(c, f)
    ensures OnFrame(env, c, f, n) == OnFrame(env, c, f, m) && OnFrame(env, c, f, n).gotError
  {
  }

  /** A frame that is refused anyway does not care for the counters. */
  lemma RefusedBlind(env: Env, c: Conn, f: InFrame, n: Feeding, m: Feeding)
    requires Within(n) && Within(m) && !Within(Count(n, f)) && RefusedAnyway(env, c, f) && !c.gotError
    ensures OnFrame(env, c, f, Count(n, f)) == OnFrame(env, c, f, Count(m, f))
            && OnFrame(env, c, f, Count(n, f)).gotError
  {
    hide OnFrame, RefusedAnyway, InSequence;
    CountedOut(n, f);
    if InSequence(c, f) {
      BeyondLimit(env, c, f, n);
      H2Blocks.ErrorFlag(Seen(c, f), E_ENHANCE_YOUR_CALM);
      if Within(Count(m, f)) {
        Answered(env, c, f, Count(m, f));
      } else {
        BeyondLimit(env, c, f, m);
      }
    } else {
      OutBlind(env, c, f, Count(n, f), Count(m, f));
    }
  }

  // ------------------------------------------------------------ counters below the limits do not matter

  lemma ExcessTurn(env: Env, c: Conn, input: Octets, n: Feeding)
    ensures Excess(env, c, input, n) ==
            if c.gotError || |input| < FRAME_HDR || Read24(input) > OUR_MAX_FRAME || FirstFrame(input).None? then None
            else
              var f := FirstFrame(input).value;
              var n1 := Count(n, f);
              if !Within(n1) then Some((c, f))
              else if !InSequence(c, f) then None
              else Excess(env, OnFrame(env, c, f, n1), input[FRAME_HDR + |f.payload|..], n1)
  {
    hide OnFrame, InSequence, Count, Within;
  }

  /** A feed stops at an error. */
  lemma Stops(env: Env, c: Conn, input: Octets, n: Feeding)
    requires c.gotError
    ensures FeedFrames(env, c, input, n) == (c, input)
  {
  }

  lemma CountMonotone(m: Feeding, n: Feeding, f: InFrame)
    requires AtMost(m, n)
    ensures AtMost(Count(m, f), Count(n, f)) && (Within(n) ==> Within(m))
            && (Within(Count(n, f)) ==> Within(Count(m, f)))
  {
  }

  /** Starting from lower counters makes no difference. */
  lemma {:induction false} FeedBlind(env: Env, c: Conn, input: Octets, n: Feeding, m: Feeding)
    requires AtMost(m, n) && Within(n) && Tame(env, c, input, n)
    ensures FeedFrames(env, c, input, n) == FeedFrames(env, c, input, m)
    decreases |input|
  {
    H2Blocks.FeedTurn(env, c, input, n);
    H2Blocks.FeedTurn(env, c, input, m);
    ExcessTurn(env, c, input, n);
    hide OnFrame, InSequence, Excess, FeedFrames, Count, Within, AtMost, RefusedAnyway, Read24, FirstFrame, ConnError;
    if !c.gotError && |input| >= FRAME_HDR && Read24(input) <= OUR_MAX_FRAME && FirstFrame(input).Some? {
      var f := FirstFrame(input).value;
      var n1, m1 := Count(n, f), Count(m, f);
      FrameInside(input);
      var rest := input[FRAME_HDR + |f.payload|..];
      CountMonotone(m, n, f);
      if !Within(n1) {
        RefusedBlind(env, c, f, n, m);
        Stops(env, OnFrame(env, c, f, n1), rest, n1);
        Stops(env, OnFrame(env, c, f, n1), rest, m1);
      } else {
        FrameBlind(env, c, f, n1, m1);
        if InSequence(c, f) {
          FeedBlind(env, OnFrame(env, c, f, n1), rest, n1, m1);
        }
      }
    }
  }

  // ------------------------------------------------------------ cutting frames

  lemma FirstFrameMore(a: Octets, b: Octets)
    requires |a| >= FRAME_HDR
    ensures Read24(a + b) == Read24(a)
    ensures FirstFrame(a).Some? ==>
              && FirstFrame(a + b) == FirstFrame(a)
              && var k := FRAME_HDR + |FirstFrame(a).value.payload|;
              && k <= |a| && (a + b)[k..] == a[k..] + b
  {
    if FirstFrame(a).Some? {
      var k := FRAME_HDR + |FirstFrame(a).value.payload|;
      assert (a + b)[FRAME_HDR..k] == a[FRAME_HDR..k];
      assert (a + b)[5..][..4] == a[5..][..4];
      assert forall j | 0 <= j < 4 :: (a + b)[5..][j] == a[5..][j];
    }
  }

  lemma FrameInside(input: Octets)
    ensures FirstFrame(input).Some? ==> FRAME_HDR + |FirstFrame(input).value.payload| <= |input|
  {
  }

  lemma NothingCounted(n: Feeding)
    ensures AtMost(Feeding(0, 0), n) && Within(Feeding(0, 0))
  {
  }

  /** Frames cut in two feeds. */
  lemma {:induction false} FramesCut(env: Env, c: Conn, a: Octets, b: Octets, n: Feeding)
    requires Within(n) && Tame(env, c, a + b, n)
    ensures var r := FeedFrames(env, c, a, n);
            FeedFrames(env, c, a + b, n) == FeedFrames(env, r.0, r.1 + b, Feeding(0, 0))
    decreases |a|
  {
    NothingCounted(n);
    hide OnFrame, InSequence, Excess, FeedFrames, Count, Within, AtMost, RefusedAnyway, Read24, FirstFrame, ConnError;
    H2Blocks.FeedTurn(env, c, a, n);
    H2Blocks.FeedTurn(env, c, a + b, n);
    ExcessTurn(env, c, a + b, n);
    FeedBlind(env, c, a + b, n, Feeding(0, 0));
    if !c.gotError && |a| >= FRAME_HDR {
      FirstFrameMore(a, b);
      if Read24(a) > OUR_MAX_FRAME {
        H2Blocks.ErrorFlag(c, E_FRAME_SIZE_ERROR);
        Stops(env, ConnError(c, E_FRAME_SIZE_ERROR), a + b, Feeding(0, 0));
      } else if FirstFrame(a).Some? {
        FrameCut(env, c, a, b, n);
      }
    }
  }

  /** The cut is behind the first frame. */
  lemma {:induction false} FrameCut(env: Env, c: Conn, a: Octets, b: Octets, n: Feeding)
    requires Within(n) && Tame(env, c, a + b, n) && !c.gotError && |a| >= FRAME_HDR && Read24(a) <= OUR_MAX_FRAME
             && FirstFrame(a).Some?
    ensures var r := FeedFrames(env, c, a, n);
            FeedFrames(env, c, a + b, n) == FeedFrames(env, r.0, r.1 + b, Feeding(0, 0))
    decreases |a|, 0
  {
    hide OnFrame, InSequence, Excess, FeedFrames, Count, Within, RefusedAnyway, Read24, FirstFrame, ConnError;
    H2Blocks.FeedTurn(env, c, a, n);
    H2Blocks.FeedTurn(env, c, a + b, n);
    ExcessTurn(env, c, a + b, n);
    FirstFrameMore(a, b);
    FrameInside(a);
    var f := FirstFrame(a).value;
    var n1 := Count(n, f);
    var c1, rest := OnFrame(env, c, f, n1), a[FRAME_HDR + |f.payload|..];
    if !InSequence(c, f) {
      OutBlind(env, c, f, n1, n1);
      Stops(env, c1, a + b, Feeding(0, 0));
    } else if Within(n1) {
      FramesCut(env, c1, rest, b, n1);
    } else {
      RefusedBlind(env, c, f, n, n);
      Stops(env, c1, rest, n1);
      Stops(env, c1, rest + b, n1);
      Stops(env, c1, rest + b, Feeding(0, 0));
    }
  }

  // ------------------------------------------------------------ the preface

  lemma {:induction false} PrefaceCut(c: Conn, a: Octets, b: Octets)
    ensures var r := ConsumePreface(c, a); ConsumePreface(c, a + b) == ConsumePreface(r.0, r.1 + b)
    decreases |a|
  {
    H2Runs.PrefaceTurn(c, a);
    H2Runs.PrefaceTurn(c, a + b);
    hide ConsumePreface;
    if c.prefaceGot < PREFACE_LEN && a != [] {
      assert (a + b)[0] == a[0] && (a + b)[1..] == a[1..] + b;
      if a[0] != PREFACE[c.prefaceGot] as int {
        H2Runs.PrefaceTurn(ConnError(c, E_PROTOCOL_ERROR), a + b);
      } else {
        PrefaceCut(c.(prefaceGot := c.prefaceGot + 1), a[1..], b);
      }
    }
  }

  lemma {:induction false} FramesKeepPreface(env: Env, c: Conn, input: Octets, n: Feeding)
    ensures var r := FeedFrames(env, c, input, n); r.0.prefaceGot == c.prefaceGot && |r.1| <= |input|
    decreases |input|
  {
    H2Blocks.FeedTurn(env, c, input, n);
    FrameInside(input);
    PrefaceOfError(c, E_FRAME_SIZE_ERROR);
    hide OnFrame, InSequence, FeedFrames, Count, Read24, FirstFrame, ConnError;
    if !c.gotError && |input| >= FRAME_HDR && Read24(input) <= OUR_MAX_FRAME && FirstFrame(input).Some? {
      var f := FirstFrame(input).value;
      H2Blocks.FrameKeepsPreface(env, c, f, Count(n, f));
      if InSequence(c, f) {
        FramesKeepPreface(env, OnFrame(env, c, f, Count(n, f)), input[FRAME_HDR + |f.payload|..], Count(n, f));
      }
    }
  }

  lemma PrefaceOfError(c: Conn, code: nat)
    ensures ConnError(c, code).prefaceGot == c.prefaceGot
  {
  }

  // ------------------------------------------------------------ feeds

  /** Feeding a + b is feeding a and then b on what was kept, for every harmless a + b. */
  lemma FeedCut(env: Env, c: Conn, a: Octets, b: Octets)
    requires Harmless(env, c, a + b)
    ensures var r := Feed(env, c, a); Feed(env, c, a + b) == Feed(env, r.0, r.1 + b)
  {
    hide ConsumePreface, FeedFrames, Tame;
    var p, p' := ConsumePreface(c, a), ConsumePreface(c, a + b);
    PrefaceCut(c, a, b);
    if p.0.prefaceGot >= PREFACE_LEN {
      H2Runs.PrefaceTurn(p.0, p.1 + b);
      FramesCut(env, p.0, p.1, b, Feeding(0, 0));
      FramesKeepPreface(env, p.0, p.1, Feeding(0, 0));
      var r := FeedFrames(env, p.0, p.1, Feeding(0, 0));
      H2Runs.PrefaceTurn(r.0, r.1 + b);
    }
  }

  /** The same for the event loop's calls. */
  lemma ActionsCut(env: Env, s: Server, a: Octets, b: Octets)
    requires Harmless(env, s.conn, s.input + (a + b))
    ensures Act(env, Act(env, s, DoFeed(a)), DoFeed(b)) == Act(env, s, DoFeed(a + b))
  {
    hide Feed, Harmless;
    assert s.input + (a + b) == s.input + a + b;
    FeedCut(env, s.conn, s.input + a, b);
  }

  // ------------------------------------------------------------ at the limit

  /** What is fed before `k` leads to the frame `f` that the rest begins with, beyond a limit. */
  ghost predicate Leads(env: Env, c: Conn, input: Octets, n: Feeding, k: nat, n': Feeding, e: Conn, f: InFrame)
    requires k <= |input|
  {
    var b := input[k..];
    && FeedFrames(env, c, input[..k], n) == (e, []) && FeedFrames(env, c, input, n) == FeedFrames(env, e, b, n')
    && |b| >= FRAME_HDR && Read24(b) <= OUR_MAX_FRAME && FirstFrame(b) == Some(f)
    && !e.gotError && Within(n') && !Within(Count(n', f))
  }

  lemma LeadsFrom(env: Env, c: Conn, input: Octets, n: Feeding)
    requires Within(n) && !c.gotError && |input| >= FRAME_HDR && Read24(input) <= OUR_MAX_FRAME
             && FirstFrame(input).Some?
    requires !Within(Count(n, FirstFrame(input).value))
    ensures Leads(env, c, input, n, 0, n, c, FirstFrame(input).value)
  {
    hide FeedFrames, Count, Within, Read24, FirstFrame;
    H2Blocks.FeedTurn(env, c, [], n);
    assert input[..0] == [] && input[0..] == input;
  }

  lemma TakeLater(input: Octets, at: nat, k: nat)
    requires at + k <= |input|
    ensures input[..at + k][at..] == input[at..][..k] && input[at + k..] == input[at..][k..]
  {
  }

  /** The input begins with a frame that may come now. */
  ghost predicate Begins(c: Conn, input: Octets, f: InFrame) {
    && !c.gotError && |input| >= FRAME_HDR && Read24(input) <= OUR_MAX_FRAME && FirstFrame(input) == Some(f)
    && InSequence(c, f) && FRAME_HDR + |f.payload| <= |input|
  }

  lemma GoesOn(env: Env, c: Conn, input: Octets, n: Feeding, f: InFrame)
    requires Begins(c, input, f)
    ensures FeedFrames(env, c, input, n) ==
            FeedFrames(env, OnFrame(env, c, f, Count(n, f)), input[FRAME_HDR + |f.payload|..], Count(n, f))
  {
    H2Blocks.FeedTurn(env, c, input, n);
    hide FeedFrames, OnFrame, Count, InSequence, Read24, FirstFrame;
  }

  lemma BeginsShorter(c: Conn, input: Octets, f: InFrame, k: nat)
    requires Begins(c, input, f) && FRAME_HDR + |f.payload| <= k <= |input|
    ensures Begins(c, input[..k], f)
  {
    FirstTake(input, k);
    hide InSequence, Read24, FirstFrame;
  }

  lemma LeadsLater(env: Env, c: Conn, input: Octets, n: Feeding, k: nat, n': Feeding, e: Conn, f1: InFrame, f: InFrame)
    requires Begins(c, input, f1)
    requires var at := FRAME_HDR + |f1.payload|;
             && at + k <= |input|
             && Leads(env, OnFrame(env, c, f1, Count(n, f1)), input[at..], Count(n, f1), k, n', e, f)
    ensures Leads(env, c, input, n, FRAME_HDR + |f1.payload| + k, n', e, f)
  {
    hide OnFrame, Begins, FeedFrames, Count, Within, Read24, FirstFrame;
    var at := FRAME_HDR + |f1.payload|;
    BeginsShorter(c, input, f1, at + k);
    TakeLater(input, at, k);
    GoesOn(env, c, input, n, f1);
    GoesOn(env, c, input[..at + k], n, f1);
  }

  /** The frames before the one beyond the limit, and the counters it meets. */
  lemma {:induction false} BeforeExcess(env: Env, c: Conn, input: Octets, n: Feeding) returns (k: nat, n': Feeding)
    requires Within(n) && Excess(env, c, input, n).Some?
    ensures k <= |input| && var (e, f) := Excess(env, c, input, n).value; Leads(env, c, input, n, k, n', e, f)
    decreases |input|
  {
    ExcessTurn(env, c, input, n);
    FrameInside(input);
    hide OnFrame, InSequence, Excess, Count, Within, Read24, FirstFrame, Leads;
    var f := FirstFrame(input).value;
    var n1 := Count(n, f);
    if !Within(n1) {
      k, n' := 0, n;
      LeadsFrom(env, c, input, n);
    } else {
      var at := FRAME_HDR + |f.payload|;
      var c1 := OnFrame(env, c, f, n1);
      k, n' := BeforeExcess(env, c1, input[at..], n1);
      var (e, f') := Excess(env, c1, input[at..], n1).value;
      LeadsLater(env, c, input, n, k, n', e, f, f');
      k := at + k;
    }
  }

  lemma FirstTake(input: Octets, k: nat)
    requires |input| >= FRAME_HDR && FirstFrame(input).Some?
             && FRAME_HDR + |FirstFrame(input).value.payload| <= k <= |input|
    ensures Read24(input[..k]) == Read24(input) && FirstFrame(input[..k]) == FirstFrame(input)
  {
    FirstFrameMore(input[..k], input[k..]);
    assert input[..k] + input[k..] == input;
    assert |input[..k]| >= FRAME_HDR + Read24(input);
  }

  function Events(t: Trace): nat {
    match t
    case Start => 0
    case Then(p, _) => 1 + Events(p)
  }

  /** A frame that is not refused leaves a connection that no further input turns into the refused one. */
  lemma NeverTheSame(env: Env, c: Conn, f: InFrame, m: Feeding, rest: Octets)
    requires Counted(f) && Within(m) && InSequence(c, f) && !c.gotError && !RefusedAnyway(env, c, f)
    ensures FeedFrames(env, OnFrame(env, c, f, m), rest, m) != (ConnError(Seen(c, f), E_ENHANCE_YOUR_CALM), rest)
  {
    Answered(env, c, f, m);
    var g, h := OnFrame(env, c, f, m), ConnError(Seen(c, f), E_ENHANCE_YOUR_CALM);
    H2Blocks.FeedTurn(env, g, rest, m);
    assert Events(h.trace) <= Events(c.trace) + 2;
    assert Events(h.trace) == Events(c.trace) + 2 ==> h.trace.event.Sent? && h.trace.event.out.GoAway?;
    hide OnFrame, InSequence, FeedFrames, Count, Read24, FirstFrame, RefusedAnyway;
    if !g.gotError && |rest| >= FRAME_HDR {
      assert Events(g.trace) == Events(c.trace) + 2;
      if Read24(rest) > OUR_MAX_FRAME {
        LaterEvents(env, g, InFrame(0, 0, 0, []), m);
      } else if FirstFrame(rest).Some? {
        var f2 := FirstFrame(rest).value;
        FrameInside(rest);
        if InSequence(g, f2) {
          FramesKeepPreface(env, OnFrame(env, g, f2, Count(m, f2)), rest[FRAME_HDR + |f2.payload|..], Count(m, f2));
        } else {
          LaterEvents(env, g, f2, Count(m, f2));
        }
      }
    }
  }

  lemma LaterEvents(env: Env, g: Conn, f: InFrame, m: Feeding)
    ensures var e := ConnError(g, E_FRAME_SIZE_ERROR).trace; e == g.trace || Events(e) > Events(g.trace)
    ensures !InSequence(g, f) ==> Events(OnFrame(env, g, f, m).trace) > Events(g.trace)
  {
  }

  lemma TakeRest(x: Octets, j: nat)
    requires x != [] && 1 <= j <= |x|
    ensures x[..j] != [] && x[..j][0] == x[0] && x[..j][1..] == x[1..][..j - 1] && x[1..][j - 1..] == x[j..]
  {
  }

  /** The preface and the frames behind it, cut among the frames. */
  lemma {:induction false} PrefaceTaken(c: Conn, x: Octets, k: nat)
    requires ConsumePreface(c, x).0.prefaceGot >= PREFACE_LEN && k <= |ConsumePreface(c, x).1|
    ensures var (c1, rest) := ConsumePreface(c, x);
            var j := |x| - |rest| + k;
            && |rest| <= |x| && x[j..] == rest[k..] && ConsumePreface(c, x[..j]) == (c1, rest[..k])
    decreases |x|
  {
    H2Runs.PrefaceTurn(c, x);
    PrefaceOfError(c, E_PROTOCOL_ERROR);
    hide ConsumePreface, ConnError;
    if c.prefaceGot < PREFACE_LEN {
      var c', x' := c.(prefaceGot := c.prefaceGot + 1), x[1..];
      PrefaceTaken(c', x', k);
      var j := |x| - |ConsumePreface(c', x').1| + k;
      TakeRest(x, j);
      H2Runs.PrefaceTurn(c, x[..j]);
    } else {
      H2Runs.PrefaceTurn(c, x[..k]);
    }
  }

  ghost predicate CutAt(env: Env, c: Conn, x: Octets, k: nat)
    requires k <= |x|
  {
    var r := Feed(env, c, x[..k]);
    Feed(env, c, x) == Feed(env, r.0, r.1 + x[k..])
  }

  /** A feed that is cut behind the preface. */
  lemma FeedPrefix(env: Env, c: Conn, x: Octets, k: nat)
    requires ConsumePreface(c, x).0.prefaceGot >= PREFACE_LEN && k <= |ConsumePreface(c, x).1|
    ensures var (c1, rest) := ConsumePreface(c, x);
            var j := |x| - |rest| + k;
            && |rest| <= |x| && x[j..] == rest[k..]
            && Feed(env, c, x[..j]) == FeedFrames(env, c1, rest[..k], Feeding(0, 0))
            && Feed(env, c, x) == FeedFrames(env, c1, rest, Feeding(0, 0))
  {
    PrefaceTaken(c, x, k);
    hide ConsumePreface, FeedFrames;
  }

  lemma LeadsTell(env: Env, c: Conn, input: Octets, k: nat, n': Feeding, e: Conn, f: InFrame)
    requires k <= |input| && Leads(env, c, input, Feeding(0, 0), k, n', e, f) && !RefusedAnyway(env, e, f)
    requires c.prefaceGot >= PREFACE_LEN
    ensures FeedFrames(env, c, input[..k], Feeding(0, 0)) == (e, [])
    ensures Feed(env, e, input[k..]) != FeedFrames(env, c, input, Feeding(0, 0))
  {
    hide FeedFrames, Feed, Count, RefusedAnyway, Within, Read24, FirstFrame;
    FramesKeepPreface(env, c, input[..k], Feeding(0, 0));
    FeedBehind(env, e, input[k..]);
    AtLimit(env, e, f, input[k..], n');
  }

  lemma Disagree(env: Env, c: Conn, x: Octets, k: nat, e: Conn)
    requires k <= |x| && Feed(env, c, x[..k]) == (e, []) && Feed(env, e, x[k..]) != Feed(env, c, x)
    ensures !CutAt(env, c, x, k)
  {
    hide Feed;
    assert [] + x[k..] == x[k..];
  }

  /** The same behind a preface. */
  lemma BehindPreface(env: Env, c: Conn, x: Octets, k': nat, n': Feeding, e: Conn, f: InFrame) returns (k: nat)
    requires var (c1, rest) := ConsumePreface(c, x);
             c1.prefaceGot >= PREFACE_LEN && k' <= |rest| && Leads(env, c1, rest, Feeding(0, 0), k', n', e, f)
    requires !RefusedAnyway(env, e, f)
    ensures k <= |x| && !CutAt(env, c, x, k)
  {
    hide ConsumePreface, FeedFrames, RefusedAnyway, Feed, Leads, CutAt;
    var (c1, rest) := ConsumePreface(c, x);
    FeedPrefix(env, c, x, k');
    LeadsTell(env, c1, rest, k', n', e, f);
    k := |x| - |rest| + k';
    Disagree(env, c, x, k, e);
  }

  /** The cut in front of the frame beyond the limit tells. */
  lemma TellingCut(env: Env, c: Conn, x: Octets) returns (k: nat)
    requires !Harmless(env, c, x)
    ensures k <= |x| && !CutAt(env, c, x, k)
  {
    NothingCounted(Feeding(0, 0));
    hide ConsumePreface, Excess, RefusedAnyway, Leads, Within, AtMost, CutAt;
    var p := ConsumePreface(c, x);
    var y := Excess(env, p.0, p.1, Feeding(0, 0)).value;
    var k', n' := BeforeExcess(env, p.0, p.1, Feeding(0, 0));
    k := BehindPreface(env, c, x, k', n', y.0, y.1);
  }

  /** One feed stops at the frame beyond the limit, another one that starts with it goes on. */
  lemma AtLimit(env: Env, e: Conn, f: InFrame, b: Octets, n: Feeding)
    requires |b| >= FRAME_HDR && Read24(b) <= OUR_MAX_FRAME && FirstFrame(b) == Some(f)
    requires !e.gotError && Within(n) && !Within(Count(n, f)) && !RefusedAnyway(env, e, f)
    ensures FeedFrames(env, e, b, n) != FeedFrames(env, e, b, Feeding(0, 0))
  {
    assert InSequence(e, f);
    var m := Count(Feeding(0, 0), f);
    assert Within(m);
    FrameInside(b);
    var rest := b[FRAME_HDR + |f.payload|..];
    CountedOut(n, f);
    hide FeedFrames, OnFrame, Count, RefusedAnyway, Within, Read24, FirstFrame, InSequence, ConnError;
    BeyondLimit(env, e, f, n);
    H2Blocks.FeedTurn(env, e, b, n);
    H2Blocks.FeedTurn(env, e, b, Feeding(0, 0));
    H2Blocks.ErrorFlag(Seen(e, f), E_ENHANCE_YOUR_CALM);
    Stops(env, ConnError(Seen(e, f), E_ENHANCE_YOUR_CALM), rest, Count(n, f));
    NeverTheSame(env, e, f, m, rest);
  }

  /**
    How an input is cut makes no difference if and only if its PING and SETTINGS frames stay within the
    limits of one feed, or the first one beyond them is refused anyway: out of sequence, a PING with the
    output buffer full, SETTINGS in error that change nothing after GOAWAY was sent.
   */
  lemma CutsAgree(env: Env, c: Conn, x: Octets)
    ensures (forall k | 0 <= k <= |x| :: CutAt(env, c, x, k)) <==> Harmless(env, c, x)
  {
    hide CutAt, Harmless;
    if Harmless(env, c, x) {
      forall k | 0 <= k <= |x|
        ensures CutAt(env, c, x, k)
      {
        HarmlessCut(env, c, x, k);
      }
    } else {
      var k := TellingCut(env, c, x);
    }
  }

  lemma HarmlessCut(env: Env, c: Conn, x: Octets, k: nat)
    requires Harmless(env, c, x) && k <= |x|
    ensures CutAt(env, c, x, k)
  {
    hide Harmless, Feed;
    assert x[..k] + x[k..] == x;
    FeedCut(env, c, x[..k], x[k..]);
  }

  // ------------------------------------------------------------ inputs above the limits

  const PING: InFrame := InFrame(FT_PING, 0, 0, [0, 0, 0, 0, 0, 0, 0, 0])

  function Repeated(f: InFrame, k: nat): Octets {
    if k == 0 then [] else H2Wire.InWire(f) + Repeated(f, k - 1)
  }

  function Used(f: InFrame, n: Feeding): nat {
    if f == PING then n.pings else n.settings
  }

  function Limit(f: InFrame): nat {
    if f == PING then PING_PER_FEED else SETTINGS_PER_FEED
  }

  /** A connection in which such frames are answered. */
  predicate Calm(env: Env, c: Conn, room: nat) {
    && !c.gotError && !c.needSettings && !c.hdr.active && c.prefaceGot >= PREFACE_LEN
    && c.queued + 17 * room <= env.lim.maxOutBytes
  }

  lemma FloodTurn(env: Env, c: Conn, f: InFrame, k: nat, n: Feeding, spare: nat) returns (c1: Conn)
    requires (f == PING || f == H2Opening.SETTINGS) && Calm(env, c, k + spare + 1)
    ensures var n1 := Count(n, f);
            && Used(f, n1) == Used(f, n) + 1
            && if Used(f, n1) > Limit(f) then FeedFrames(env, c, Repeated(f, k + 1), n).0.gotError
               else
                 && Calm(env, c1, k + spare)
                 && FeedFrames(env, c, Repeated(f, k + 1), n) == FeedFrames(env, c1, Repeated(f, k), n1)
  {
    var n1 := Count(n, f);
    c1 := OnFrame(env, c, f, n1);
    FloodFrame(env, c, f, n1, k + spare);
    H2Blocks.FeedOne(env, c, f, Repeated(f, k), n);
    hide FeedFrames, OnFrame, Calm, H2Wire.InWire;
    if Used(f, n1) > Limit(f) {
      Stops(env, c1, Repeated(f, k), n1);
    }
  }

  lemma FloodFrame(env: Env, c: Conn, f: InFrame, n: Feeding, room: nat)
    requires (f == PING || f == H2Opening.SETTINGS) && Calm(env, c, room + 1)
    ensures InSequence(c, f) && !c.gotError
    ensures var d := OnFrame(env, c, f, n); if Used(f, n) > Limit(f) then d.gotError else Calm(env, d, room)
  {
    if f == PING {
      assert OnFrame(env, c, f, n) == OnPing(env, Seen(c, f), f, n.pings);
    } else {
      assert OnFrame(env, c, f, n) == OnSettings(Seen(c, f), f, n.settings);
    }
    hide OnFrame;
  }

  /** As many frames as the limit allows are answered. */
  lemma {:induction false} FloodAnswered(env: Env, c: Conn, f: InFrame, k: nat, n: Feeding, spare: nat)
    requires (f == PING || f == H2Opening.SETTINGS) && Calm(env, c, k + spare) && Used(f, n) + k <= Limit(f)
    ensures var r := FeedFrames(env, c, Repeated(f, k), n); Calm(env, r.0, spare) && r.1 == []
    decreases k
  {
    hide FeedFrames, Calm;
    if k == 0 {
      H2Blocks.FeedTurn(env, c, [], n);
    } else {
      var c1 := FloodTurn(env, c, f, k - 1, n, spare);
      FloodAnswered(env, c1, f, k - 1, Count(n, f), spare);
    }
  }

  /** One more is an error. */
  lemma {:induction false} FloodBreaks(env: Env, c: Conn, f: InFrame, k: nat, n: Feeding)
    requires (f == PING || f == H2Opening.SETTINGS) && Calm(env, c, k) && Used(f, n) <= Limit(f) < Used(f, n) + k
    ensures FeedFrames(env, c, Repeated(f, k), n).0.gotError
    decreases k
  {
    hide FeedFrames, Calm;
    var c1 := FloodTurn(env, c, f, k - 1, n, 0);
    if Used(f, n) < Limit(f) {
      FloodBreaks(env, c1, f, k - 1, Count(n, f));
    }
  }

  lemma RepeatedTurn(f: InFrame, k: nat)
    ensures Repeated(f, k) == if k == 0 then [] else H2Wire.InWire(f) + Repeated(f, k - 1)
  {
    hide H2Wire.InWire;
  }

  lemma {:induction false} RepeatedJoin(f: InFrame, j: nat, k: nat)
    ensures Repeated(f, j) + Repeated(f, k) == Repeated(f, j + k)
  {
    hide H2Wire.InWire, Repeated;
    RepeatedTurn(f, j);
    var tail := Repeated(f, k);
    if j > 0 {
      RepeatedJoin(f, j - 1, k);
      RepeatedTurn(f, j + k);
      assert H2Wire.InWire(f) + Repeated(f, j - 1) + tail == H2Wire.InWire(f) + (Repeated(f, j - 1) + tail);
    } else {
      assert [] + tail == tail;
    }
  }

  /** A feed when the preface is complete. */
  lemma FeedBehind(env: Env, c: Conn, input: Octets)
    requires c.prefaceGot >= PREFACE_LEN
    ensures Feed(env, c, input) == FeedFrames(env, c, input, Feeding(0, 0))
  {
    H2Runs.PrefaceTurn(c, input);
    hide FeedFrames, ConsumePreface;
  }

  lemma LimitIsPerFeed(env: Env, c: Conn, f: InFrame)
    requires (f == PING || f == H2Opening.SETTINGS) && Calm(env, c, Limit(f) + 1)
    ensures Feed(env, c, Repeated(f, Limit(f)) + Repeated(f, 1)).0.gotError
    ensures var r := Feed(env, c, Repeated(f, Limit(f))); !Feed(env, r.0, r.1 + Repeated(f, 1)).0.gotError
  {
    var none := Feeding(0, 0);
    var many, one := Repeated(f, Limit(f)), Repeated(f, 1);
    RepeatedJoin(f, Limit(f), 1);
    FloodBreaks(env, c, f, Limit(f) + 1, none);
    FloodAnswered(env, c, f, Limit(f), none, 1);
    var r := FeedFrames(env, c, many, none);
    FloodAnswered(env, r.0, f, 1, none, 0);
    FeedBehind(env, c, many + one);
    FeedBehind(env, c, many);
    assert r.1 + one == one;
    FeedBehind(env, r.0, one);
    hide Feed, FeedFrames, Repeated;
  }

  /** 129 PING frames in one feed break a connection that survives them in two. */
  lemma PingLimitIsPerFeed(env: Env, c: Conn)
    requires Calm(env, c, 129)
    ensures Feed(env, c, Repeated(PING, 128) + Repeated(PING, 1)).0.gotError
    ensures var r := Feed(env, c, Repeated(PING, 128)); !Feed(env, r.0, r.1 + Repeated(PING, 1)).0.gotError
  {
    hide Feed, Repeated, Calm;
    LimitIsPerFeed(env, c, PING);
  }

  /** So do 65 SETTINGS frames. */
  lemma SettingsLimitIsPerFeed(env: Env, c: Conn)
    requires Calm(env, c, 65)
    ensures Feed(env, c, Repeated(H2Opening.SETTINGS, 64) + Repeated(H2Opening.SETTINGS, 1)).0.gotError
    ensures var r := Feed(env, c, Repeated(H2Opening.SETTINGS, 64));
            !Feed(env, r.0, r.1 + Repeated(H2Opening.SETTINGS, 1)).0.gotError
  {
    hide Feed, Repeated, Calm;
    LimitIsPerFeed(env, c, H2Opening.SETTINGS);
  }
}
