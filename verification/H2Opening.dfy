/** How a connection starts: the client preface, SETTINGS and a first request, fed at once. */
module H2Opening {
  import opened Bytes
  import opened H2Trace
  import opened H2Spec
  import opened H2Steps
  import opened H2Runs

  const SETTINGS: InFrame := InFrame(FT_SETTINGS, 0, 0, [])

  /** A complete request on stream 1; its field block is left to the decoder. */
  function Request(block: Octets): InFrame {
    InFrame(FT_HEADERS, 5, 1, block)
  }

  /** The client preface in octets (section 3.4 of RFC 9113). */
  function PrefaceOctets(): Octets {
    [80, 82, 73, 32, 42, 32, 72, 84, 84, 80, 47, 50, 46, 48, 13, 10, 13, 10, 83, 77, 13, 10, 13, 10]
  }

  ghost predicate SpellsPreface(p: Octets) {
    |p| == PREFACE_LEN && forall k | 0 <= k < PREFACE_LEN :: p[k] == PREFACE[k] as int
  }

  lemma PrefaceSpelled()
    ensures SpellsPreface(PrefaceOctets())
  {
    assert forall k | 0 <= k < 24 :: PrefaceOctets()[k] == PREFACE[k] as int;
  }

  lemma {:induction false} PrefaceRead(c: Conn, p: Octets, k: nat, rest: Octets)
    requires SpellsPreface(p) && c.prefaceGot == k <= PREFACE_LEN
    ensures ConsumePreface(c, p[k..] + rest) == (c.(prefaceGot := PREFACE_LEN), rest)
    decreases PREFACE_LEN - k
  {
    var input := p[k..] + rest;
    PrefaceTurn(c, input);
    hide ConsumePreface, ConnError;
    if k < PREFACE_LEN {
      assert input[0] == p[k] == PREFACE[k] as int;
      assert input[1..] == p[k + 1..] + rest;
      PrefaceRead(c.(prefaceGot := k + 1), p, k + 1, rest);
    } else {
      assert input == rest;
    }
  }

  /** The connection has nothing behind it but the opening exchange. */
  predicate JustOpened(c: Conn) {
    && !c.gotError && !c.goawaySent && !c.closing && !c.peerGoaway && !c.needSettings && c.streams == []
    && c.hdr == NO_BLOCK && c.blocks == []
    && c.lastClientId == 0 && c.openCount == 0 && c.totalStreams == 0
    && c.sendWindow == c.peerInitialWindow == INITIAL_WINDOW && c.peerMaxFrame == DEFAULT_MAX_FRAME && c.queued == 48
  }

  lemma AfterSettings(env: Env, n: Feeding)
    requires n.settings <= SETTINGS_PER_FEED
    ensures var c := Fresh().(prefaceGot := PREFACE_LEN);
            InSequence(c, SETTINGS) && JustOpened(OnFrame(env, c, SETTINGS, n))
  {
    var c := Fresh().(prefaceGot := PREFACE_LEN);
    assert ApplySettings(Seen(c, SETTINGS), []) == Seen(c, SETTINGS);
  }

  lemma RequestGathered(env: Env, c: Conn, block: Octets)
    requires JustOpened(c) && |block| <= env.lim.maxHeaderBytes + 4096 && env.lim.maxStreams > 0
    ensures var d := BeginStream(env.lim, Seen(c, Request(block)), Request(block));
            && OnFrame(env, c, Request(block), Feeding(0, 1)) == FinishHeaders(env, d.(hdr := d.hdr.(block := block)))
            && d.hdr == Reassembly(true, 1, Some(1), 0, false, true, [], 0)
            && d.streams == [NewStream(c, 1)] && d.queued == c.queued
            && d == c.(trace := d.trace, streams := d.streams, hdr := d.hdr, openCount := 1, lastClientId := 1,
                       totalStreams := 1)
  {
    hide FinishHeaders, HasBody, FieldBlock;
    assert [] + block == block;
    assert HeaderFragment(Request(block)) == Some(block) by {
      assert block[..|block| - 0] == block;
    }
  }

  /** The request block is judged to be a request and its stream dispatched. */
  lemma RequestJudged(env: Env, c: Conn, block: Octets, isHead: bool) returns (c2: Conn)
    requires JustOpened(c) && |block| <= env.lim.maxHeaderBytes + 4096 && env.lim.maxStreams > 0
    requires env.headers([], HeaderBlock(block, false)) == FieldList(true, isHead)
    ensures c2.streams == [NewStream(c, 1).(gotHeaders := true, endStreamRecv := true, isHead := isHead)]
    ensures c2.hdr == NO_BLOCK && c2.queued == 48
    ensures InSequence(c, Request(block)) && OnFrame(env, c, Request(block), Feeding(0, 1)) == Dispatch(env, c2, 0)
    ensures c2 == c.(trace := c2.trace, streams := c2.streams, blocks := c2.blocks, openCount := 1, lastClientId := 1,
                     totalStreams := 1)
  {
    RequestGathered(env, c, block);
    var b := BeginStream(env.lim, Seen(c, Request(block)), Request(block));
    c2 := SetStream(b.(hdr := NO_BLOCK, blocks := [] + [HeaderBlock(block, false)]), 0,
                    b.streams[0].(gotHeaders := true, endStreamRecv := true, isHead := isHead));
    hide Dispatch, OnFrame, BeginStream;
  }

  lemma FeedFresh(env: Env, frames: Octets)
    ensures Feed(env, Fresh(), PrefaceOctets() + frames) ==
            FeedFrames(env, Fresh().(prefaceGot := PREFACE_LEN), frames, Feeding(0, 0))
  {
    PrefaceSpelled();
    var c, p := Fresh(), PrefaceOctets();
    hide PrefaceOctets, FeedFrames, ConsumePreface;
    PrefaceRead(c, p, 0, frames);
    assert p[0..] == p;
  }

  lemma RunFeed(env: Env, input: Octets)
    ensures Run(env, [DoFeed(input)]).conn == Feed(env, Fresh(), input).0
  {
    hide Feed;
    var a := [DoFeed(input)];
    assert a[..0] == [];
    assert [] + input == input;
  }
}
