/** Runs of an HTTP/2 connection under any sequence of feed, pump, graceful and drain calls. */
module H2Runs {
  import opened Bytes
  import opened H2Trace
  import opened H2Spec
  import opened H2Steps

  ghost function Run(env: Env, actions: seq<Action>): Server {
    if actions == [] then Server(Fresh(), [])
    else Act(env, Run(env, actions[..|actions| - 1]), actions[|actions| - 1])
  }

  /** Stream `i` has a response body to send. */
  predicate Pumpable(c: Conn, i: nat) {
    i < |c.streams| && c.streams[i].respHeadersDone && !c.streams[i].sendDone
  }

  /** One DATA frame of stream `i`; the last one also frees its slot. */
  function AfterChunk(lim: Limits, c: Conn, i: nat): Conn
    requires Pumpable(c, i) && Sendable(lim, c, i) > 0
  {
    var d := SendChunk(c, i, Sendable(lim, c, i));
    if d.streams[i].sendDone then CloseAt(d, i) else d
  }

  /** What the frame header guarantees: our frame size limit and a 31-bit stream id. */
  predicate Parsed(f: InFrame) {
    |f.payload| <= OUR_MAX_FRAME && f.sid <= MAX_WINDOW
  }

  /** P implies the shape of the table and survives winding down, the client preface and the first SETTINGS. */
  ghost predicate Steady(env: Env, P: Property) {
    && (forall c | P(c) :: TableInv(env.lim, c))
    && (forall c, code: nat, error: bool | P(c) :: P(Do(env, c, WindDown(code, error))))
    && (forall c, needs: bool, got: nat | P(c) && got <= PREFACE_LEN && (needs ==> c.needSettings) ::
        P(Do(env, c, Flags(needs, got))))
  }

  /** Everything that can happen to a connection keeps P. */
  ghost predicate Stable(env: Env, P: Property) {
    && Steady(env, P)
    && (forall c: Conn, f: InFrame, n: Feeding | P(c) && !c.gotError && Parsed(f) :: P(OnFrame(env, c, f, n)))
    && (forall c, i: nat | P(c) && Pumpable(c, i) && Sendable(env.lim, c, i) > 0 :: P(AfterChunk(env.lim, c, i)))
    && (forall c, n: nat | P(c) :: P(Drain(c, n)))
  }

  /** P holds from the start on. */
  ghost predicate Invariant(env: Env, P: Property) {
    P(Fresh()) && Stable(env, P)
  }

  lemma KeptSteady(env: Env, P: Property)
    requires Kept(env, P)
    ensures Steady(env, P)
  {
    assert forall c | P(c) :: TableInv(env.lim, c);
    hide Kept, Do, TableInv;
    forall c, code: nat, error: bool | P(c)
      ensures P(Do(env, c, WindDown(code, error)))
    {
      Take(env, P, c, WindDown(code, error));
    }
    forall c, needs: bool, got: nat | P(c) && got <= PREFACE_LEN && (needs ==> c.needSettings)
      ensures P(Do(env, c, Flags(needs, got)))
    {
      Take(env, P, c, Flags(needs, got));
    }
  }

  lemma ErrorSteady(env: Env, P: Property, c: Conn, code: nat)
    requires Steady(env, P) && P(c)
    ensures P(ConnError(c, code))
  {
    assert P(Do(env, c, WindDown(code, true)));
    assert Do(env, c, WindDown(code, true)) == ConnError(c, code);
  }

  lemma GracefulSteady(env: Env, P: Property, c: Conn)
    requires Steady(env, P) && P(c)
    ensures P(Graceful(c))
  {
    assert P(Do(env, c, WindDown(E_NO_ERROR, false)));
    assert Do(env, c, WindDown(E_NO_ERROR, false)) == Graceful(c);
  }

  lemma FlagsSteady(env: Env, P: Property, c: Conn, got: nat)
    requires Steady(env, P) && P(c) && got <= PREFACE_LEN
    ensures P(c.(prefaceGot := got))
  {
    assert P(Do(env, c, Flags(c.needSettings, got)));
    assert Do(env, c, Flags(c.needSettings, got)) == c.(prefaceGot := got);
  }

  lemma StableSteady(env: Env, P: Property)
    requires Stable(env, P)
    ensures Steady(env, P)
  {
  }

  lemma DrainStep(env: Env, P: Property, c: Conn, n: nat)
    requires Stable(env, P) && P(c)
    ensures P(Drain(c, n))
  {
  }

  lemma FrameStep(env: Env, P: Property, c: Conn, f: InFrame, n: Feeding)
    requires Stable(env, P) && P(c) && !c.gotError && Parsed(f)
    ensures P(OnFrame(env, c, f, n))
  {
  }

  lemma ChunkStep(env: Env, P: Property, c: Conn, i: nat)
    requires Stable(env, P) && P(c) && Pumpable(c, i) && Sendable(env.lim, c, i) > 0
    ensures P(AfterChunk(env.lim, c, i))
  {
  }

  lemma PrefaceTurn(c: Conn, input: Octets)
    ensures ConsumePreface(c, input) ==
            if c.prefaceGot >= PREFACE_LEN || input == [] then (c, input)
            else if input[0] != PREFACE[c.prefaceGot] as int then (ConnError(c, E_PROTOCOL_ERROR), input)
            else ConsumePreface(c.(prefaceGot := c.prefaceGot + 1), input[1..])
  {
  }

  lemma {:induction false} PrefaceKeeps(env: Env, P: Property, c: Conn, input: Octets)
    requires Steady(env, P) && P(c)
    ensures P(ConsumePreface(c, input).0)
    decreases |input|
  {
    hide Steady, ConnError;
    if c.prefaceGot < PREFACE_LEN && input != [] {
      ErrorSteady(env, P, c, E_PROTOCOL_ERROR);
      FlagsSteady(env, P, c, c.prefaceGot + 1);
      PrefaceKeeps(env, P, c.(prefaceGot := c.prefaceGot + 1), input[1..]);
    }
  }

  lemma {:induction false} FeedFramesKeeps(env: Env, P: Property, c: Conn, input: Octets, n: Feeding)
    requires Stable(env, P) && P(c)
    ensures P(FeedFrames(env, c, input, n).0)
    decreases |input|
  {
    hide Steady, Stable, ConnError, OnFrame, InSequence;
    StableSteady(env, P);
    if !c.gotError && |input| >= FRAME_HDR {
      ErrorSteady(env, P, c, E_FRAME_SIZE_ERROR);
      if Read24(input) <= OUR_MAX_FRAME && FirstFrame(input).Some? {
        var f := FirstFrame(input).value;
        Sid31(input[5..]);
        FrameStep(env, P, c, f, Count(n, f));
        FeedFramesKeeps(env, P, OnFrame(env, c, f, Count(n, f)), input[FRAME_HDR + |f.payload|..], Count(n, f));
      }
    }
  }

  lemma Sid31(p: Octets)
    requires |p| >= 4
    ensures Read31(p) <= MAX_WINDOW
  {
  }

  lemma {:induction false} PumpStreamKeeps(env: Env, P: Property, c: Conn, i: nat)
    requires Stable(env, P) && P(c) && Pumpable(c, i)
    ensures var d := PumpStream(env.lim, c, i);
            && d.streams[i].endStreamRecv == c.streams[i].endStreamRecv
            && if d.streams[i].sendDone then P(CloseAt(d, i)) else P(d)
    decreases |c.streams[i].respBody| - c.streams[i].bodyOff
  {
    hide Stable;
    var n := Sendable(env.lim, c, i);
    if n > 0 {
      ChunkStep(env, P, c, i);
      var c1 := SendChunk(c, i, n);
      if Pumpable(c1, i) {
        PumpStreamKeeps(env, P, c1, i);
      } else {
        assert Sendable(env.lim, c1, i) <= 0;
      }
    }
  }

  lemma PumpFromTurn(lim: Limits, c: Conn, i: nat)
    requires i <= |c.streams|
    ensures PumpFrom(lim, c, i) ==
            if i == |c.streams| then c
            else
              var st := c.streams[i];
              var c1 := if st.respHeadersDone && !st.sendDone then PumpStream(lim, c, i) else c;
              if c1.streams[i].sendDone && c1.streams[i].endStreamRecv then PumpFrom(lim, CloseAt(c1, i), i)
              else PumpFrom(lim, c1, i + 1)
  {
  }

  /** One slot's turn: what is left to pump, one slot further or with one slot fewer. */
  lemma PumpTurn(env: Env, P: Property, c: Conn, i: nat) returns (d: Conn, j: nat)
    requires Stable(env, P) && P(c) && i < |c.streams|
    ensures P(d) && j <= |d.streams| && |d.streams| - j < |c.streams| - i
    ensures PumpFrom(env.lim, c, i) == PumpFrom(env.lim, d, j)
  {
    hide Stable, PumpStream, CloseAt, PumpFrom, Sendable;
    PumpFromTurn(env.lim, c, i);
    Unsent(env, P, c, i);
    d, j := c, i + 1;
    if Pumpable(c, i) {
      PumpStreamKeeps(env, P, c, i);
      var c1 := PumpStream(env.lim, c, i);
      OneFewer(c1, i);
      if c1.streams[i].sendDone {
        d, j := CloseAt(c1, i), i;
      } else {
        d := c1;
      }
    }
  }

  lemma {:induction false} PumpFromKeeps(env: Env, P: Property, c: Conn, i: nat)
    requires Stable(env, P) && P(c) && i <= |c.streams|
    ensures P(PumpFrom(env.lim, c, i))
    decreases |c.streams| - i
  {
    PumpFromTurn(env.lim, c, i);
    hide Stable, PumpFrom;
    if i < |c.streams| {
      var d, j := PumpTurn(env, P, c, i);
      PumpFromKeeps(env, P, d, j);
    }
  }

  lemma OneFewer(c: Conn, i: nat)
    requires i < |c.streams|
    ensures |CloseAt(c, i).streams| == |c.streams| - 1
  {
  }

  /** Between steps no stream is fully sent, and one that is being sent has been ended by the client. */
  lemma Unsent(env: Env, P: Property, c: Conn, i: nat)
    requires Stable(env, P) && P(c) && i < |c.streams|
    ensures !c.streams[i].sendDone && (c.streams[i].respHeadersDone ==> c.streams[i].endStreamRecv)
  {
    assert Steady(env, P);
    assert TableInv(env.lim, c);
    assert StreamShape(env.lim, c, c.streams[i]);
  }

  lemma ActKeeps(env: Env, P: Property, s: Server, a: Action)
    requires Stable(env, P) && P(s.conn)
    ensures P(Act(env, s, a).conn)
  {
    StableSteady(env, P);
    hide Steady, Stable, FeedFrames, ConsumePreface;
    match a
    case DoFeed(octets) =>
      var input := s.input + octets;
      PrefaceKeeps(env, P, s.conn, input);
      var (c1, rest) := ConsumePreface(s.conn, input);
      FeedFramesKeeps(env, P, c1, rest, Feeding(0, 0));
    case DoPump => PumpFromKeeps(env, P, s.conn, 0);
    case DoGraceful => GracefulSteady(env, P, s.conn);
    case DoDrain(n) => DrainStep(env, P, s.conn, n);
  }

  /** What holds after some actions and is stable holds after any more. */
  lemma {:induction false} RunKeepsOn(env: Env, P: Property, actions: seq<Action>, more: seq<Action>)
    requires Stable(env, P) && P(Run(env, actions).conn)
    ensures P(Run(env, actions + more).conn)
    decreases |more|
  {
    hide Stable, Act;
    if more == [] {
      assert actions + more == actions;
    } else {
      var init, last := more[..|more| - 1], more[|more| - 1];
      RunKeepsOn(env, P, actions, init);
      var all := actions + more;
      assert all[..|all| - 1] == actions + init && all[|all| - 1] == last;
      ActKeeps(env, P, Run(env, actions + init), last);
    }
  }

  /** An invariant holds after every run. */
  lemma RunKeeps(env: Env, P: Property, actions: seq<Action>)
    requires Invariant(env, P)
    ensures P(Run(env, actions).conn)
  {
    assert Run(env, []).conn == Fresh();
    hide Stable, Run, Fresh;
    RunKeepsOn(env, P, [], actions);
    assert [] + actions == actions;
  }
}
