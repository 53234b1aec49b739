/**
  A reset inside a header block (src/h2.c:841-845): the connection is over, but the stream keeps its
  slot, and the pump that the event loop runs after every feed may still send its response.
 */
module H2Interrupted {
  import opened Bytes
  import opened H2Trace
  import opened H2Spec
  import opened H2Steps
  import opened H2Runs
  import opened H2Table
  import opened H2Silence
  import opened H2Opening
  import H2Blocks
  import H2Wire

  // ------------------------------------------------------------ what one pump sends

  /** One slot's turn, and where the pump goes on. */
  function AfterTurn(lim: Limits, c: Conn, i: nat): (r: (Conn, nat))
    requires i < |c.streams|
    ensures r.1 <= |r.0.streams| && |r.0.streams| - r.1 < |c.streams| - i
  {
    var c1 := if Pumpable(c, i) then PumpStream(lim, c, i) else c;
    if c1.streams[i].sendDone && c1.streams[i].endStreamRecv then (CloseAt(c1, i), i) else (c1, i + 1)
  }

  lemma TurnStep(lim: Limits, c: Conn, i: nat)
    requires i < |c.streams|
    ensures PumpFrom(lim, c, i) == PumpFrom(lim, AfterTurn(lim, c, i).0, AfterTurn(lim, c, i).1)
  {
    hide PumpStream, CloseAt;
    PumpFromTurn(lim, c, i);
  }

  /** The connection and the slot when the pump comes to a stream. */
  function TurnOf(lim: Limits, c: Conn, i: nat, sid: nat): (r: Option<(Conn, nat)>)
    requires i <= |c.streams|
    ensures r.Some? ==> r.value.1 < |r.value.0.streams|
    decreases |c.streams| - i
  {
    if i == |c.streams| then None
    else if c.streams[i].id == sid then Some((c, i))
    else var (d, j) := AfterTurn(lim, c, i); TurnOf(lim, d, j, sid)
  }

  /** The same resets on record, and a history that is silent no longer than before. */
  ghost predicate Onward(t: Trace, t': Trace) {
    (Silent(t') ==> Silent(t)) && forall s :: PeerReset(t', s) <==> PeerReset(t, s)
  }

  lemma ChunkSent(lim: Limits, c: Conn, i: nat)
    requires i < |c.streams| && Sendable(lim, c, i) > 0 && c.streams[i].id > 0
    ensures var d := SendChunk(c, i, Sendable(lim, c, i));
            && Onward(c.trace, d.trace) && (Silent(d.trace) <==>
                                            Silent(c.trace) && !PeerReset(c.trace, c.streams[i].id))
            && |d.streams| == |c.streams| && forall k | 0 <= k < |c.streams| :: d.streams[k].id == c.streams[k].id
  {
    hide Sendable;
  }

  /** A stream's turn breaks the silence exactly if the client reset it and some of its body can go. */
  lemma {:induction false} StreamSent(lim: Limits, c: Conn, i: nat)
    requires i < |c.streams| && c.streams[i].id > 0
    ensures var d := PumpStream(lim, c, i);
            && Onward(c.trace, d.trace)
            && (Silent(d.trace) <==>
                Silent(c.trace) && !(PeerReset(c.trace, c.streams[i].id) && Sendable(lim, c, i) > 0))
            && |d.streams| == |c.streams| && forall k | 0 <= k < |c.streams| :: d.streams[k].id == c.streams[k].id
    decreases |c.streams[i].respBody| - c.streams[i].bodyOff
  {
    var n := Sendable(lim, c, i);
    if n > 0 {
      ChunkSent(lim, c, i);
      var d := SendChunk(c, i, n);
      hide Sendable, Silent, PeerReset;
      StreamSent(lim, d, i);
    }
  }

  ghost predicate Positive(c: Conn) {
    forall k | 0 <= k < |c.streams| :: c.streams[k].id > 0
  }

  ghost predicate SameIds(c: Conn, d: Conn) {
    |d.streams| == |c.streams| && forall k | 0 <= k < |c.streams| :: d.streams[k].id == c.streams[k].id
  }

  /** The streams still to have their turn, slot i being kept or freed. */
  ghost predicate Moved(c: Conn, i: nat, d: Conn, j: nat) {
    && Positive(d) && Distinct(d.streams)
    && (forall k | j <= k < |d.streams| :: Follower(c, i, d.streams[k].id))
    && (forall m | i < m < |c.streams| :: Found(d, j, c.streams[m].id))
  }

  lemma SlotKept(c: Conn, i: nat, d: Conn)
    requires i < |c.streams| && Positive(c) && Distinct(c.streams) && SameIds(c, d)
    ensures Moved(c, i, d, i + 1)
  {
    forall k | i + 1 <= k < |d.streams|
      ensures Follower(c, i, d.streams[k].id)
    {
      assert c.streams[k].id == d.streams[k].id;
    }
    forall m | i < m < |c.streams|
      ensures Found(d, i + 1, c.streams[m].id)
    {
      assert d.streams[m].id == c.streams[m].id;
    }
  }

  lemma SlotFreed(c: Conn, i: nat, c1: Conn)
    requires i < |c.streams| && Positive(c) && Distinct(c.streams) && SameIds(c, c1)
    ensures Moved(c, i, CloseAt(c1, i), i)
  {
    var d, n := CloseAt(c1, i), |c.streams| - 1;
    assert |d.streams| == n;
    assert forall k | 0 <= k < n :: d.streams[k].id == c.streams[if k == i then n else k].id;
    hide CloseAt;
    forall k | i <= k < n
      ensures Follower(c, i, d.streams[k].id)
    {
      assert c.streams[if k == i then n else k].id == d.streams[k].id;
    }
    forall m | i < m < |c.streams|
      ensures Found(d, i, c.streams[m].id)
    {
      assert d.streams[if m == n then i else m].id == c.streams[m].id;
    }
    forall k | 0 <= k < n
      ensures d.streams[k].id > 0
    {
      assert c.streams[if k == i then n else k].id > 0;
    }
  }

  lemma FreedTrace(c: Conn, i: nat)
    requires i < |c.streams|
    ensures CloseAt(c, i).trace == c.trace
  {
  }

  lemma TurnSent(lim: Limits, c: Conn, i: nat)
    requires i < |c.streams| && Positive(c) && Distinct(c.streams)
    ensures var (d, j) := AfterTurn(lim, c, i);
            && Moved(c, i, d, j) && Onward(c.trace, d.trace)
            && (Silent(d.trace) <==>
                Silent(c.trace) && !(PeerReset(c.trace, c.streams[i].id) && Pumpable(c, i) && Sendable(lim, c, i) > 0))
  {
    assert c.streams[i].id > 0;
    var c1 := if Pumpable(c, i) then PumpStream(lim, c, i) else c;
    var closes := c1.streams[i].sendDone && c1.streams[i].endStreamRecv;
    assert AfterTurn(lim, c, i) == if closes then (CloseAt(c1, i), i) else (c1, i + 1);
    assert SameIds(c, c);
    hide Silent, PeerReset, Sendable, PumpStream, Moved, Positive, Distinct, CloseAt, AfterTurn;
    if Pumpable(c, i) {
      StreamSent(lim, c, i);
    }
    assert SameIds(c, c1);
    SlotKept(c, i, c1);
    SlotFreed(c, i, c1);
    FreedTrace(c1, i);
  }

  /** A stream whose turn is after slot i. */
  ghost predicate Follower(c: Conn, i: nat, id: nat) {
    exists m | i < m < |c.streams| :: c.streams[m].id == id
  }

  ghost predicate Found(c: Conn, i: nat, id: nat) {
    exists m | i <= m < |c.streams| :: c.streams[m].id == id
  }

  lemma {:induction false} PumpOnward(lim: Limits, c: Conn, i: nat)
    requires i <= |c.streams| && Positive(c) && Distinct(c.streams)
    ensures Onward(c.trace, PumpFrom(lim, c, i).trace)
    decreases |c.streams| - i
  {
    hide PumpFrom, AfterTurn, Silent, PeerReset, Distinct, Positive;
    PumpFromTurn(lim, c, i);
    if i < |c.streams| {
      TurnStep(lim, c, i);
      TurnSent(lim, c, i);
      PumpOnward(lim, AfterTurn(lim, c, i).0, AfterTurn(lim, c, i).1);
    }
  }

  /** Streams that were not reset may all be given their turn. */
  lemma {:induction false} OthersSilent(lim: Limits, c: Conn, i: nat)
    requires i <= |c.streams| && Positive(c) && Distinct(c.streams) && Silent(c.trace)
    requires forall k | i <= k < |c.streams| :: !PeerReset(c.trace, c.streams[k].id)
    ensures Silent(PumpFrom(lim, c, i).trace)
    decreases |c.streams| - i
  {
    hide PumpFrom, AfterTurn, Silent, PeerReset, Distinct, Positive;
    PumpFromTurn(lim, c, i);
    if i < |c.streams| {
      TurnStep(lim, c, i);
      TurnSent(lim, c, i);
      OthersSilent(lim, AfterTurn(lim, c, i).0, AfterTurn(lim, c, i).1);
    }
  }

  /** The stream is in the table, and when its turn comes some of its body can go. */
  ghost predicate Resumes(lim: Limits, c: Conn, i: nat, sid: nat)
    requires i <= |c.streams|
  {
    Found(c, i, sid) && TurnOf(lim, c, i, sid).Some? &&
    var (d, j) := TurnOf(lim, c, i, sid).value; Pumpable(d, j) && Sendable(lim, d, j) > 0
  }

  /** A stream of the table has its turn. */
  lemma {:induction false} HasTurn(lim: Limits, c: Conn, i: nat, sid: nat)
    requires i <= |c.streams| && Positive(c) && Distinct(c.streams)
    ensures TurnOf(lim, c, i, sid).Some? <==> Found(c, i, sid)
    decreases |c.streams| - i
  {
    hide AfterTurn, Silent, PeerReset, Distinct, Positive, Sendable;
    if i < |c.streams| && c.streams[i].id != sid {
      TurnSent(lim, c, i);
      HasTurn(lim, AfterTurn(lim, c, i).0, AfterTurn(lim, c, i).1, sid);
    }
  }

  /** Only the stream with that id was reset, among those still to have their turn. */
  ghost predicate OnlyReset(c: Conn, i: nat, sid: nat) {
    forall k | i <= k < |c.streams| :: PeerReset(c.trace, c.streams[k].id) <==> c.streams[k].id == sid
  }

  lemma OnlyStays(c: Conn, i: nat, d: Conn, j: nat, sid: nat)
    requires OnlyReset(c, i, sid) && i < |c.streams| && Distinct(c.streams) && Onward(c.trace, d.trace)
             && Moved(c, i, d, j)
    ensures OnlyReset(d, j, sid)
    ensures c.streams[i].id == sid ==> forall k | j <= k < |d.streams| :: !PeerReset(d.trace, d.streams[k].id)
  {
    hide Silent, PeerReset;
  }

  lemma ResumesTurn(lim: Limits, c: Conn, i: nat, sid: nat)
    requires i < |c.streams| && Positive(c) && Distinct(c.streams)
    ensures Resumes(lim, c, i, sid) <==>
            if c.streams[i].id == sid then Pumpable(c, i) && Sendable(lim, c, i) > 0
            else Resumes(lim, AfterTurn(lim, c, i).0, AfterTurn(lim, c, i).1, sid)
  {
    hide AfterTurn, Sendable, Positive, Distinct;
    TurnSent(lim, c, i);
    HasTurn(lim, c, i, sid);
    var (d, j) := AfterTurn(lim, c, i);
    HasTurn(lim, d, j, sid);
  }

  lemma {:induction false} PumpSilence(lim: Limits, c: Conn, i: nat, sid: nat)
    requires i <= |c.streams| && Positive(c) && Distinct(c.streams) && Silent(c.trace) && OnlyReset(c, i, sid)
    ensures Silent(PumpFrom(lim, c, i).trace) <==> !Resumes(lim, c, i, sid)
    decreases |c.streams| - i
  {
    PumpFromTurn(lim, c, i);
    if i == |c.streams| {
      NoTurn(lim, c, i, sid);
    }
    hide PumpFrom, AfterTurn, Silent, PeerReset, Positive, Sendable, OnlyReset, Resumes, Distinct, Pumpable;
    if i < |c.streams| {
      TurnStep(lim, c, i);
      TurnSent(lim, c, i);
      ResumesTurn(lim, c, i, sid);
      var (d, j) := AfterTurn(lim, c, i);
      OnlyStays(c, i, d, j, sid);
      OnlyThis(c, i, sid);
      if c.streams[i].id != sid {
        PumpSilence(lim, d, j, sid);
      } else if Pumpable(c, i) && Sendable(lim, c, i) > 0 {
        PumpOnward(lim, d, j);
      } else {
        OthersSilent(lim, d, j);
      }
    }
  }

  lemma NoTurn(lim: Limits, c: Conn, i: nat, sid: nat)
    requires i == |c.streams|
    ensures !Resumes(lim, c, i, sid)
  {
  }

  lemma OnlyThis(c: Conn, i: nat, sid: nat)
    requires i < |c.streams| && OnlyReset(c, i, sid)
    ensures PeerReset(c.trace, c.streams[i].id) <==> c.streams[i].id == sid
  {
    hide PeerReset;
  }

  // ------------------------------------------------------------ every run

  lemma {:induction false} JustIsPeer(t: Trace, sid: nat, other: nat)
    requires JustReset(t, sid)
    ensures PeerReset(t, sid) && (JustReset(t, other) ==> other == sid)
  {
    if !t.event.Recv? {
      JustIsPeer(t.before, sid, other);
    }
  }

  /**
    A pump right after the reset of a stream sends something of it if and only if the stream still has
    its slot and, when the slot's turn comes, the windows, the frame size and the output budget let some
    of its body go.
   */
  lemma OnePump(env: Env, actions: seq<Action>, sid: nat)
    requires var c := Run(env, actions).conn; JustReset(c.trace, sid) && Silent(c.trace)
    ensures var c := Run(env, actions).conn; Silent(Pump(env.lim, c).trace) <==> !Resumes(env.lim, c, 0, sid)
  {
    var c := Run(env, actions).conn;
    RunReset(env, actions);
    hide Run;
    PumpReset(env, c, sid);
  }

  lemma PumpReset(env: Env, c: Conn, sid: nat)
    requires ResetInv(env, c) && JustReset(c.trace, sid) && Silent(c.trace)
    ensures Silent(Pump(env.lim, c).trace) <==> !Resumes(env.lim, c, 0, sid)
  {
    JustIsPeer(c.trace, sid, sid);
    forall k | 0 <= k < |c.streams|
      ensures c.streams[k].id > 0
      ensures PeerReset(c.trace, c.streams[k].id) <==> c.streams[k].id == sid && ResetInside(c.trace)
    {
      assert StreamShape(env.lim, c, c.streams[k]) && Fit(c.trace, c.streams[k].id);
      JustIsPeer(c.trace, sid, c.streams[k].id);
    }
    hide PumpFrom, Silent, PeerReset, ResetInside, ResetInv, JustReset;
    if ResetInside(c.trace) {
      PumpSilence(env.lim, c, 0, sid);
    } else {
      OthersSilent(env.lim, c, 0);
    }
  }

  // ------------------------------------------------------------ a response sent after its reset

  /** The beginning of a header block on stream 3. */
  const OPENING: InFrame := InFrame(FT_HEADERS, 0, 3, [])

  /** CANCEL for stream 1. */
  const CANCEL: InFrame := InFrame(FT_RST_STREAM, 0, 1, [0, 0, 0, 8])

  function Conversation(block: Octets): Octets {
    PrefaceOctets() +
      (H2Wire.InWire(SETTINGS) + (H2Wire.InWire(Request(block)) + (H2Wire.InWire(OPENING) + H2Wire.InWire(CANCEL))))
  }

  /** The response of stream 1 is under way. */
  predicate Answering(lim: Limits, c: Conn, room: nat) {
    && !c.gotError && !c.needSettings && c.streams != [] && c.streams[0].id == 1 && Pumpable(c, 0)
    && c.streams[0].bodyOff < |c.streams[0].respBody| && c.streams[0].sendWindow > 0
    && c.sendWindow > 0 && c.peerMaxFrame > 0 && c.queued + room + FRAME_HDR < lim.maxOutBytes
  }

  /** The server's side of the conversation: it answers stream 1 with a body and has room for it. */
  ghost predicate Responsive(env: Env, block: Octets) {
    && |block| <= OUR_MAX_FRAME && |block| <= env.lim.maxHeaderBytes + 4096
    && env.lim.maxStreams > 1 && env.lim.maxRequests != 1
    && env.headers([], HeaderBlock(block, false)) == FieldList(true, false)
    && HasBody(env.app(1), false) && |FieldBlock(env.app(1))| <= DEFAULT_MAX_FRAME
    && env.lim.maxOutBytes > 83 + |FieldBlock(env.app(1))|
  }

  /** Alone in the table and answered. */
  predicate Alone(c: Conn) {
    !c.hdr.active && c.lastClientId == 1 && c.openCount == 1 && !c.closing && !c.peerGoaway && |c.streams| == 1
      && c.totalStreams == 1
  }

  lemma AfterRequest(env: Env, c: Conn, block: Octets)
    requires JustOpened(c) && Responsive(env, block)
    ensures var d := OnFrame(env, c, Request(block), Feeding(0, 1));
            InSequence(c, Request(block)) && Answering(env.lim, d, 17) && Alone(d)
  {
    var c2 := RequestJudged(env, c, block, false);
    hide OnFrame, FinishHeaders, Dispatch, FieldBlock, HasBody, BeginStream;
    DispatchShape(env, c2, 0);
    DispatchTrace(env, c2, 0);
    var c3 := Note(SetStream(c2, 0, c2.streams[0].(dispatched := true)), Dispatched(1, false, []));
    SendBlockTurn(c3, 1, FieldBlock(env.app(1)), true, false);
  }

  lemma AfterOpening(env: Env, c: Conn, n: Feeding)
    requires Answering(env.lim, c, 17) && Alone(c)
    requires env.lim.maxStreams > 1 && env.lim.maxRequests != 1
    ensures var d := OnFrame(env, c, OPENING, n);
            InSequence(c, OPENING) && Answering(env.lim, d, 17) && d.hdr.active
  {
    assert HeaderFragment(OPENING) == Some([]);
  }

  lemma AfterCancel(env: Env, c: Conn, n: Feeding)
    requires Answering(env.lim, c, 17) && c.hdr.active
    ensures !InSequence(c, CANCEL)
    ensures var d := OnFrame(env, c, CANCEL, n);
            JustReset(d.trace, 1) && d.gotError && Found(d, 0, 1) && Pumpable(d, 0) && Sendable(env.lim, d, 0) > 0
            && TurnOf(env.lim, d, 0, 1) == Some((d, 0))
  {
    var d := OnFrame(env, c, CANCEL, n);
    assert d.streams[0].id == 1;
  }

  /**
    The client opens a connection, asks for something on stream 1, starts another header block and
    resets stream 1 in its middle. Fed at once and pumped once, the server sends DATA on stream 1
    after its reset, whatever the request, if it is answered with a body there is room for.
   */
  lemma SentAfterReset(env: Env, block: Octets)
    requires Responsive(env, block)
    ensures var actions := [DoFeed(Conversation(block)), DoPump];
            Silent(Run(env, actions[..1]).conn.trace) && !Silent(Run(env, actions).conn.trace)
  {
    var a := [DoFeed(Conversation(block))];
    FreshCalm(env);
    RunPump(env, a[0]);
    hide Run, Conversation, Silent, Resumes, JustReset;
    ConversationRun(env, block);
    assert [] + a == a;
    SilentUntilPumped(env, [], a);
    OnePump(env, a, 1);
  }

  lemma RunPump(env: Env, a: Action)
    ensures [a, DoPump][..1] == [a]
    ensures Run(env, [a, DoPump]).conn == Pump(env.lim, Run(env, [a]).conn)
  {
    var all := [a, DoPump];
    assert all[..1] == [a];
    assert Run(env, all) == Act(env, Run(env, [a]), DoPump);
  }

  lemma FreshCalm(env: Env)
    ensures !Run(env, []).conn.gotError
  {
  }

  lemma ConversationRun(env: Env, block: Octets)
    requires Responsive(env, block)
    ensures var c := Run(env, [DoFeed(Conversation(block))]).conn; JustReset(c.trace, 1) && Resumes(env.lim, c, 0, 1)
  {
    var f4 := H2Wire.InWire(CANCEL);
    var f3 := H2Wire.InWire(OPENING) + f4;
    var f2 := H2Wire.InWire(Request(block)) + f3;
    var f1 := H2Wire.InWire(SETTINGS) + f2;
    var c0 := Fresh().(prefaceGot := PREFACE_LEN);
    var n := Feeding(0, 1);
    RunFeed(env, Conversation(block));
    FeedFresh(env, f1);
    assert !c0.gotError && Count(Feeding(0, 0), SETTINGS) == n && Count(n, Request(block)) == n
           && Count(n, OPENING) == n
           && Count(n, CANCEL) == n;
    AfterSettings(env, n);
    H2Blocks.FeedOne(env, c0, SETTINGS, f2, Feeding(0, 0));
    var c1 := OnFrame(env, c0, SETTINGS, n);
    AfterRequest(env, c1, block);
    H2Blocks.FeedOne(env, c1, Request(block), f3, n);
    var c2 := OnFrame(env, c1, Request(block), n);
    AfterOpening(env, c2, n);
    H2Blocks.FeedOne(env, c2, OPENING, f4, n);
    var c3 := OnFrame(env, c2, OPENING, n);
    AfterCancel(env, c3, n);
    H2Blocks.FeedOne(env, c3, CANCEL, [], n);
    assert f4 + [] == f4;
    hide Run, FeedFrames, OnFrame, InSequence, Count, H2Wire.InWire, PrefaceOctets, Fresh, FieldBlock, TurnOf, Sendable,
         Pumpable, JustReset, Conversation, Answering, Alone, JustOpened, HasBody;
  }
}
