/**
  The connection with the HPACK decoder and the server's own field checks behind it: how long its
  dynamic table is that of a conforming encoder, and what happens when it no longer is.
 */
module H2Sync {
  import opened Bytes
  import opened HpackTable
  import opened HpackBlock
  import opened HpackStop
  import opened H2Trace
  import opened H2Spec
  import opened H2Runs
  import H2Blocks
  import H2Fields
  import H2Wire
  import H2Opening

  /** The decoder's table after some blocks; the callback differs for trailers. */
  ghost function TableOf(blocks: seq<HeaderBlock>, maxOut: nat, sinks: bool -> Sink): Dynamic {
    if blocks == [] then EMPTY
    else
      var last := blocks[|blocks| - 1];
      DecodeBlock(last.octets, TableOf(blocks[..|blocks| - 1], maxOut, sinks), maxOut, sinks(last.trailer)).table
  }

  /** The encoder's table after `n` of its blocks. */
  ghost function EncoderTable(meant: seq<Meant>, n: nat): Dynamic
    requires n <= |meant|
  {
    if n == 0 then EMPTY else meant[n - 1].table
  }

  /** Meaning of the n-th block of a stream, seen from the table the blocks before it left. */
  lemma {:induction false} NthMeaning(lines: seq<seq<Line>>, d: Dynamic, meant: seq<Meant>, n: nat)
    requires StreamMeaning(lines, d) == Some(meant) && n < |lines|
    ensures |meant| == |lines|
    ensures BlockMeaning(lines[n], if n == 0 then d else meant[n - 1].table, false) == Some(meant[n])
    ensures StreamWires(lines)[n] == BlockWire(lines[n])
    decreases |lines|
  {
    hide BlockMeaning, BlockWire;
    var m := BlockMeaning(lines[0], d, false).value;
    var ms := StreamMeaning(lines[1..], m.table).value;
    assert meant == [m] + ms;
    StreamLength(lines[1..], m.table);
    if n > 0 {
      NthMeaning(lines[1..], m.table, ms, n - 1);
      assert StreamWires(lines)[n] == StreamWires(lines[1..])[n - 1];
      assert meant[n] == ms[n - 1] && (n > 1 ==> meant[n - 1] == ms[n - 2]);
    }
  }

  lemma {:induction false} StreamLength(lines: seq<seq<Line>>, d: Dynamic)
    requires StreamMeaning(lines, d).Some?
    ensures |StreamMeaning(lines, d).value| == |lines|
  {
    hide BlockMeaning;
    if lines != [] {
      StreamLength(lines[1..], BlockMeaning(lines[0], d, false).value.table);
    }
  }

  ghost predicate FromEncoder(lines: seq<seq<Line>>, meant: seq<Meant>, maxOut: nat) {
    && StreamMeaning(lines, EMPTY) == Some(meant)
    && forall m | m in meant :: ListSize(m.fields) <= maxOut
  }

  /** What the lines left unread would enter does not stay: the table is back to what it was. */
  ghost predicate Restores(lines: seq<Line>, d: Dynamic, sink: Sink) {
    var k := StopAt(lines, d, [], sink);
    var t := TableAfter(lines[..k], d);
    Fit(t.entries + Added(lines[k..], t), t.max) == t.entries
  }

  lemma {:induction false} TablesValid(lines: seq<seq<Line>>, d: Dynamic, meant: seq<Meant>, n: nat)
    requires StreamMeaning(lines, d) == Some(meant) && d.Valid() && n < |lines|
    ensures |meant| == |lines| && meant[n].table.Valid()
    decreases |lines|
  {
    hide BlockMeaning;
    var m := BlockMeaning(lines[0], d, false).value;
    var ms := StreamMeaning(lines[1..], m.table).value;
    assert meant == [m] + ms;
    StreamLength(lines[1..], m.table);
    MeantTable(lines[0], d, false);
    TableAfterValid(lines[0], d);
    if n > 0 {
      TablesValid(lines[1..], m.table, ms, n - 1);
      assert meant[n] == ms[n - 1];
    }
  }

  lemma EmptyValid()
    ensures EMPTY.Valid()
  {
    assert Size([]) == 0;
  }

  lemma EncoderValid(lines: seq<seq<Line>>, meant: seq<Meant>, n: nat)
    requires StreamMeaning(lines, EMPTY) == Some(meant) && n < |lines|
    ensures |meant| == |lines| && EncoderTable(meant, n).Valid()
  {
    hide StreamMeaning;
    EmptyValid();
    StreamLength(lines, EMPTY);
    if n > 0 {
      TablesValid(lines, EMPTY, meant, n - 1);
    }
  }

  lemma MeaningAt(lines: seq<seq<Line>>, meant: seq<Meant>, n: nat, maxOut: nat)
    requires FromEncoder(lines, meant, maxOut) && n < |lines|
    ensures |meant| == |lines| && EncoderTable(meant, n).Valid() && ListSize(meant[n].fields) <= maxOut
    ensures BlockMeaning(lines[n], EncoderTable(meant, n), false) == Some(meant[n])
            && StreamWires(lines)[n] == BlockWire(lines[n])
  {
    hide BlockMeaning, BlockWire, StreamMeaning, StreamWires, Size, ListSize;
    EncoderValid(lines, meant, n);
    NthMeaning(lines, EMPTY, meant, n);
    assert meant[n] in meant;
  }

  /** One block of a conforming encoder, decoded from the encoder's own table. */
  lemma BlockInSync(lines: seq<seq<Line>>, meant: seq<Meant>, n: nat, maxOut: nat, sink: Sink)
    requires FromEncoder(lines, meant, maxOut) && n < |lines|
    ensures |meant| == |lines|
    ensures var d := EncoderTable(meant, n);
            var r := DecodeBlock(StreamWires(lines)[n], d, maxOut, sink);
            && (r.table == meant[n].table <==> Restores(lines[n], d, sink))
            && (if StopAt(lines[n], d, [], sink) == |lines[n]| then r.outcome == Complete && r.fields == meant[n].fields
                else r.outcome.Stopped?)
  {
    hide BlockMeaning, BlockWire, DecodeBlock, FromEncoder, StreamWires, StopAt, TableAfter, Added, Fit, ListSize,
         EncoderTable;
    MeaningAt(lines, meant, n, maxOut);
    StopSync(lines[n], EncoderTable(meant, n), maxOut, sink, meant[n]);
  }

  /** One more block keeps the tables together, or takes them apart. */
  lemma TablesStep(lines: seq<seq<Line>>, meant: seq<Meant>, blocks: seq<HeaderBlock>, n: nat, maxOut: nat,
                   sinks: bool -> Sink)
    requires FromEncoder(lines, meant, maxOut) && H2Blocks.OctetsOf(blocks) <= StreamWires(lines)
    requires n < |blocks| <= |lines| == |meant| && TableOf(blocks[..n], maxOut, sinks) == EncoderTable(meant, n)
    ensures TableOf(blocks[..n + 1], maxOut, sinks) == EncoderTable(meant, n + 1) <==>
            Restores(lines[n], EncoderTable(meant, n), sinks(blocks[n].trailer))
  {
    hide DecodeBlock, FromEncoder, StreamWires, Restores, StopAt;
    H2Blocks.OctetAt(blocks, n);
    assert blocks[..n + 1][..n] == blocks[..n] && blocks[..n + 1][n] == blocks[n];
    BlockInSync(lines, meant, n, maxOut, sinks(blocks[n].trailer));
  }

  /** The decoder's table was the encoder's after every one of the blocks. */
  ghost predicate InSync(meant: seq<Meant>, blocks: seq<HeaderBlock>, maxOut: nat, sinks: bool -> Sink)
    requires |blocks| <= |meant|
  {
    forall n | 0 <= n <= |blocks| :: TableOf(blocks[..n], maxOut, sinks) == EncoderTable(meant, n)
  }

  lemma {:induction false} TablesAgree(lines: seq<seq<Line>>, meant: seq<Meant>, blocks: seq<HeaderBlock>, n: nat,
                                       maxOut: nat, sinks: bool -> Sink)
    requires FromEncoder(lines, meant, maxOut) && H2Blocks.OctetsOf(blocks) <= StreamWires(lines)
    requires n <= |blocks| <= |lines| == |meant|
    requires forall k | 0 <= k < n :: Restores(lines[k], EncoderTable(meant, k), sinks(blocks[k].trailer))
    ensures TableOf(blocks[..n], maxOut, sinks) == EncoderTable(meant, n)
    decreases n
  {
    hide FromEncoder, Restores, TableOf, StreamWires, EncoderTable;
    if n == 0 {
      NoBlocks(meant, maxOut, sinks);
      assert blocks[..0] == [];
    } else {
      TablesAgree(lines, meant, blocks, n - 1, maxOut, sinks);
      TablesStep(lines, meant, blocks, n - 1, maxOut, sinks);
    }
  }

  lemma NoBlocks(meant: seq<Meant>, maxOut: nat, sinks: bool -> Sink)
    ensures TableOf([], maxOut, sinks) == EncoderTable(meant, 0)
  {
  }

  /** In sync after every block exactly if every block restores the table it was stopped at. */
  lemma SyncExact(lines: seq<seq<Line>>, meant: seq<Meant>, blocks: seq<HeaderBlock>, maxOut: nat, sinks: bool -> Sink)
    requires FromEncoder(lines, meant, maxOut) && H2Blocks.OctetsOf(blocks) <= StreamWires(lines)
    requires |blocks| <= |lines| == |meant|
    ensures InSync(meant, blocks, maxOut, sinks) <==>
            forall n | 0 <= n < |blocks| :: Restores(lines[n], EncoderTable(meant, n), sinks(blocks[n].trailer))
  {
    hide FromEncoder, Restores, TableOf, StreamWires, EncoderTable;
    if InSync(meant, blocks, maxOut, sinks) {
      forall n | 0 <= n < |blocks|
        ensures Restores(lines[n], EncoderTable(meant, n), sinks(blocks[n].trailer))
      {
        assert TableOf(blocks[..n + 1], maxOut, sinks) == EncoderTable(meant, n + 1);
        TablesStep(lines, meant, blocks, n, maxOut, sinks);
      }
    }
    if forall n | 0 <= n < |blocks| :: Restores(lines[n], EncoderTable(meant, n), sinks(blocks[n].trailer)) {
      forall n | 0 <= n <= |blocks|
        ensures TableOf(blocks[..n], maxOut, sinks) == EncoderTable(meant, n)
      {
        TablesAgree(lines, meant, blocks, n, maxOut, sinks);
      }
    }
  }

  /** Where the callback stops is told by the fields meant. */
  lemma {:induction false} StopsAtEnd(lines: seq<Line>, d: Dynamic, seenField: bool, fields: seq<Field>, sink: Sink,
                                      m: Meant)
    requires BlockMeaning(lines, d, seenField) == Some(m)
    ensures StopAt(lines, d, fields, sink) == |lines| <==>
            forall k | 0 < k <= |m.fields| :: sink(fields + m.fields[..k]) == 0
    decreases |lines|
  {
    if lines != [] {
      var m' := MeaningTurn(lines, d, seenField, m);
      hide Conforms, Meaning, After, BlockMeaning;
      var d' := After(lines[0], d);
      if lines[0].SizeUpdate? {
        StopsAtEnd(lines[1..], d', false, fields, sink, m');
      } else {
        var f := Meaning(lines[0], d);
        StopsAtEnd(lines[1..], d', true, fields + [f], sink, m');
        SinkTurn(fields, f, m', m, sink);
      }
    }
  }

  lemma SinkTurn(fields: seq<Field>, f: Field, m': Meant, m: Meant, sink: Sink)
    requires m.fields == [f] + m'.fields
    ensures (forall k | 0 < k <= |m.fields| :: sink(fields + m.fields[..k]) == 0) <==>
            sink(fields + [f]) == 0 && forall k | 0 < k <= |m'.fields| :: sink(fields + [f] + m'.fields[..k]) == 0
  {
    forall k | 0 < k <= |m'.fields|
      ensures fields + m.fields[..k + 1] == fields + [f] + m'.fields[..k]
    {
    }
    assert fields + m.fields[..1] == fields + [f];
    if forall k | 0 < k <= |m.fields| :: sink(fields + m.fields[..k]) == 0 {
      forall k | 0 < k <= |m'.fields|
        ensures sink(fields + [f] + m'.fields[..k]) == 0
      {
        assert fields + m.fields[..k + 1] == fields + [f] + m'.fields[..k];
        assert sink(fields + m.fields[..k + 1]) == 0;
      }
    }
    if sink(fields + [f]) == 0 && forall k | 0 < k <= |m'.fields| :: sink(fields + [f] + m'.fields[..k]) == 0 {
      forall k | 0 < k <= |m.fields|
        ensures sink(fields + m.fields[..k]) == 0
      {
        if k > 1 {
          assert fields + m.fields[..k] == fields + [f] + m'.fields[..k - 1];
        }
      }
    }
  }

  // ------------------------------------------------------------ the server's own checks

  ghost function SourceSinks(caps: H2Fields.Caps): bool -> Sink {
    trailer => H2Fields.EmitSink(caps, trailer)
  }

  /** The server with its decoder and its field checks; the application stays a parameter. */
  ghost function SourceEnv(lim: Limits, maxHeaders: nat, maxUrl: nat, app: nat -> Response): Env {
    var caps := H2Fields.Caps(maxHeaders, lim.maxHeaderBytes, maxUrl);
    Env(lim, (blocks: seq<HeaderBlock>, b: HeaderBlock) => Verdict(caps, blocks, b), app)
  }

  ghost function Verdict(caps: H2Fields.Caps, blocks: seq<HeaderBlock>, b: HeaderBlock): HeaderOutcome {
    var sinks := SourceSinks(caps);
    var r := DecodeBlock(b.octets, TableOf(blocks, caps.maxHeaderBytes, sinks), caps.maxHeaderBytes, sinks(b.trailer));
    H2Fields.Judge(caps, b.trailer, r.outcome, r.fields)
  }

  /** A list that is acceptable as it is meant to be is read to its end. */
  lemma AcceptableRead(caps: H2Fields.Caps, trailer: bool, lines: seq<Line>, d: Dynamic, m: Meant)
    requires BlockMeaning(lines, d, false) == Some(m)
    ensures StopAt(lines, d, [], H2Fields.EmitSink(caps, trailer)) == |lines| <==>
            H2Fields.Acceptable(caps, trailer, m.fields)
  {
    var sink := H2Fields.EmitSink(caps, trailer);
    StopsAtEnd(lines, d, false, [], sink, m);
    H2Fields.AcceptsPrefixes(caps, trailer, m.fields);
    assert sink(m.fields[..0]) == 0;
    hide H2Fields.Acceptable, H2Fields.EmitSink, BlockMeaning, StopAt;
    forall k | 0 <= k <= |m.fields|
      ensures [] + m.fields[..k] == m.fields[..k]
    {
    }
  }

  /** Such a block leaves the tables together. */
  lemma AcceptableRestores(caps: H2Fields.Caps, trailer: bool, lines: seq<Line>, d: Dynamic, m: Meant)
    requires d.Valid() && BlockMeaning(lines, d, false) == Some(m) && H2Fields.Acceptable(caps, trailer, m.fields)
    ensures Restores(lines, d, H2Fields.EmitSink(caps, trailer))
  {
    hide H2Fields.Acceptable, H2Fields.EmitSink, BlockMeaning, StopAt, Restores;
    AcceptableRead(caps, trailer, lines, d, m);
    RestoresAtEnd(lines, d, H2Fields.EmitSink(caps, trailer));
  }

  lemma RestoresAtEnd(lines: seq<Line>, d: Dynamic, sink: Sink)
    requires d.Valid() && StopAt(lines, d, [], sink) == |lines|
    ensures Restores(lines, d, sink)
  {
    hide StopAt, TableAfter, Fit;
    var t, none := TableAfter(lines, d), lines[|lines|..];
    TableAfterValid(lines, d);
    assert lines[..|lines|] == lines && none == [];
    NothingAdded(none, t);
    assert t.entries + [] == t.entries;
    FitStep(t.entries, t.max);
  }

  /**
    Against a client whose header blocks come from a conforming encoder, in every run without a
    connection error: the decoder's table was the encoder's after each of the blocks received so far,
    those of refused streams among them, if and only if no block was refused in front of fields that
    stay in the table. As long as the tables agree, the next block is taken for what the encoder means,
    and only its stream can suffer.
   */
  lemma ConnectionInSync(lim: Limits, maxHeaders: nat, maxUrl: nat, app: nat -> Response, actions: seq<Action>,
                         lines: seq<seq<Line>>, meant: seq<Meant>, trailer: bool)
    requires FromEncoder(lines, meant, lim.maxHeaderBytes)
    requires var c := Run(SourceEnv(lim, maxHeaders, maxUrl, app), actions).conn;
             !c.gotError && InboundOf(c.trace).complete <= StreamWires(lines)
    ensures var env := SourceEnv(lim, maxHeaders, maxUrl, app);
            var c := Run(env, actions).conn;
            var caps := H2Fields.Caps(maxHeaders, lim.maxHeaderBytes, maxUrl);
            var sinks := SourceSinks(caps);
            var n := |c.blocks|;
            && n <= |lines| == |meant|
            && (InSync(meant, c.blocks, lim.maxHeaderBytes, sinks) <==>
                forall k | 0 <= k < n :: Restores(lines[k], EncoderTable(meant, k), sinks(c.blocks[k].trailer)))
            && (TableOf(c.blocks, lim.maxHeaderBytes, sinks) == EncoderTable(meant, n) && n < |lines| ==>
                  env.headers(c.blocks, HeaderBlock(StreamWires(lines)[n], trailer)) ==
                  if H2Fields.Acceptable(caps, trailer, meant[n].fields)
                  then H2Fields.Judge(caps, trailer, Complete, meant[n].fields)
                  else MalformedList)
  {
    hide Run, InboundOf, TableOf, DecodeBlock, StreamWires, Restores, H2Blocks.OctetsOf, InSync, StreamMeaning;
    hide H2Fields.Acceptable, H2Fields.Judge, Verdict;
    var env := SourceEnv(lim, maxHeaders, maxUrl, app);
    var c := Run(env, actions).conn;
    var caps := H2Fields.Caps(maxHeaders, lim.maxHeaderBytes, maxUrl);
    H2Blocks.BlocksReachTheDecoder(env, actions);
    H2Blocks.OctetsLength(c.blocks);
    StreamLength(lines, EMPTY);
    SyncExact(lines, meant, c.blocks, lim.maxHeaderBytes, SourceSinks(caps));
    if |c.blocks| < |lines|
      && TableOf(c.blocks, lim.maxHeaderBytes, SourceSinks(caps)) == EncoderTable(meant, |c.blocks|) {
      NextBlock(caps, c.blocks, lines, meant, trailer);
      SourceVerdict(lim, maxHeaders, maxUrl, app, c.blocks, HeaderBlock(StreamWires(lines)[|c.blocks|], trailer));
    }
  }

  lemma NextBlock(caps: H2Fields.Caps, blocks: seq<HeaderBlock>, lines: seq<seq<Line>>, meant: seq<Meant>,
                  trailer: bool)
    requires FromEncoder(lines, meant, caps.maxHeaderBytes) && |blocks| < |lines| == |meant|
    requires TableOf(blocks, caps.maxHeaderBytes, SourceSinks(caps)) == EncoderTable(meant, |blocks|)
    ensures var n := |blocks|;
            Verdict(caps, blocks, HeaderBlock(StreamWires(lines)[n], trailer)) ==
            if H2Fields.Acceptable(caps, trailer, meant[n].fields)
            then H2Fields.Judge(caps, trailer, Complete, meant[n].fields)
            else MalformedList
  {
    hide H2Fields.Acceptable, H2Fields.EmitSink, StopAt, Restores, TableOf, DecodeBlock, StreamWires, FromEncoder;
    hide BlockMeaning;
    var n := |blocks|;
    MeaningAt(lines, meant, n, caps.maxHeaderBytes);
    BlockInSync(lines, meant, n, caps.maxHeaderBytes, H2Fields.EmitSink(caps, trailer));
    AcceptableRead(caps, trailer, lines[n], EncoderTable(meant, n), meant[n]);
  }

  // ------------------------------------------------------------ a connection that is lost

  function Connection(): Octets {
    Ascii("connection")
  }

  lemma ConnectionRefused(caps: H2Fields.Caps, value: Octets)
    ensures H2Fields.EmitSink(caps, false)([Field(Connection(), value)]) != 0
  {
    var f := Field(Connection(), value);
    assert [f][..0] == [];
    assert !H2Fields.IsPseudo(f.name);
    assert H2Fields.ConnectionSpecific(f.name);
    assert H2Fields.EmitField(caps, false, H2Fields.NOTHING, f).None?;
  }

  /** A request whose only line enters a "connection" field, and one that refers to the entry. */
  function Refused(value: Octets): seq<Line> {
    [Entering(Connection(), value)]
  }

  const REFERENCE: seq<Line> := [Indexed(62)]

  lemma TableOfOne(b: HeaderBlock, maxOut: nat, sinks: bool -> Sink)
    ensures TableOf([], maxOut, sinks) == EMPTY
    ensures TableOf([b], maxOut, sinks) == DecodeBlock(b.octets, EMPTY, maxOut, sinks(b.trailer)).table
  {
    assert [b][..0] == [];
    hide DecodeBlock;
  }

  /** The second block of a conforming client is an error of the connection. */
  lemma VerdictsDiffer(caps: H2Fields.Caps, value: Octets)
    requires 10 + |value| <= caps.maxHeaderBytes && 42 + |value| <= TABLE_MAX
    ensures var b1, b2 := HeaderBlock(BlockWire(Refused(value)), false), HeaderBlock(BlockWire(REFERENCE), false);
            && Verdict(caps, [], b1) == MalformedList && Verdict(caps, [b1], b2) == CompressionError
            && StreamMeaning([Refused(value), REFERENCE], EMPTY).Some?
  {
    assert |Connection()| == 10;
    hide DecodeBlock, BlockWire, BlockMeaning, StreamMeaning, H2Fields.EmitSink, Connection, TableOf;
    var sink := H2Fields.EmitSink(caps, false);
    var b1 := HeaderBlock(BlockWire(Refused(value)), false);
    ConnectionRefused(caps, value);
    RefusalDesynchronises(Connection(), value, caps.maxHeaderBytes, sink, sink);
    TableOfOne(b1, caps.maxHeaderBytes, SourceSinks(caps));
    TwoBlocks(Refused(value), REFERENCE);
  }

  lemma TwoBlocks(a: seq<Line>, b: seq<Line>)
    requires BlockMeaning(a, EMPTY, false).Some?
             && BlockMeaning(b, BlockMeaning(a, EMPTY, false).value.table, false).Some?
    ensures StreamMeaning([a, b], EMPTY).Some?
  {
    hide BlockMeaning;
    var m := BlockMeaning(a, EMPTY, false).value;
    assert [a, b][1..] == [b] && [b][1..] == [];
    assert StreamMeaning([b], m.table).Some?;
  }

  /** The client's side: the opening exchange and both requests. */
  function Requests(w1: Octets, w2: Octets): Octets {
    H2Opening.PrefaceOctets() +
    (H2Wire.InWire(H2Opening.SETTINGS) +
     (H2Wire.InWire(H2Opening.Request(w1)) + H2Wire.InWire(InFrame(FT_HEADERS, 5, 3, w2))))
  }

  /** Room for the two blocks. */
  ghost predicate Roomy(lim: Limits, value: Octets) {
    && 10 + |value| <= lim.maxHeaderBytes && 42 + |value| <= TABLE_MAX
    && |BlockWire(Refused(value))| <= Min(OUR_MAX_FRAME, lim.maxHeaderBytes + 4096)
    && |BlockWire(REFERENCE)| <= Min(OUR_MAX_FRAME, lim.maxHeaderBytes + 4096)
    && lim.maxStreams > 0 && lim.maxRequests != 1
  }

  lemma AfterRefused(env: Env, c: Conn, block: Octets)
    requires H2Opening.JustOpened(c) && |block| <= env.lim.maxHeaderBytes + 4096 && env.lim.maxStreams > 0
    requires env.headers([], HeaderBlock(block, false)) == MalformedList
    ensures var f := H2Opening.Request(block);
            var d := OnFrame(env, c, f, Feeding(0, 1));
            && InSequence(c, f) && !d.gotError && !d.goawaySent && !d.closing && !d.peerGoaway && !d.needSettings
            && d.streams == [] && d.hdr == NO_BLOCK && d.blocks == [HeaderBlock(block, false)]
            && d.lastClientId == 1 && d.openCount == 0 && d.totalStreams == 1
  {
    H2Opening.RequestGathered(env, c, block);
    hide OnFrame, BeginStream, Dispatch;
    assert [] + [HeaderBlock(block, false)] == [HeaderBlock(block, false)];
  }

  lemma AfterReference(env: Env, c: Conn, block: Octets, before: HeaderBlock)
    requires !c.gotError && !c.goawaySent && !c.closing && !c.peerGoaway && !c.needSettings
    requires c.streams == [] && c.hdr == NO_BLOCK && c.blocks == [before] && c.lastClientId == 1 && c.openCount == 0
             && c.totalStreams == 1
    requires |block| <= env.lim.maxHeaderBytes + 4096 && env.lim.maxStreams > 0 && env.lim.maxRequests != 1
    requires env.headers([before], HeaderBlock(block, false)) == CompressionError
    ensures var f := InFrame(FT_HEADERS, 5, 3, block);
            var d := OnFrame(env, c, f, Feeding(0, 1));
            && InSequence(c, f) && d.gotError
            && d.trace.Then? && d.trace.event == Sent(GoAway(3, E_COMPRESSION_ERROR))
  {
    var f := InFrame(FT_HEADERS, 5, 3, block);
    assert HeaderFragment(f) == Some(block) by {
      assert block[..|block| - 0] == block;
    }
    assert [] + block == block;
    hide Dispatch, HeaderFragment;
  }

  lemma SourceVerdict(lim: Limits, maxHeaders: nat, maxUrl: nat, app: nat -> Response, blocks: seq<HeaderBlock>,
                      b: HeaderBlock)
    ensures SourceEnv(lim, maxHeaders, maxUrl, app).headers(blocks, b) ==
            Verdict(H2Fields.Caps(maxHeaders, lim.maxHeaderBytes, maxUrl), blocks, b)
    ensures SourceEnv(lim, maxHeaders, maxUrl, app).lim == lim
  {
    hide Verdict;
  }

  /**
    A client that conforms to the HPACK specification sends a "connection" field by incremental indexing
    and refers to its entry in the next request: the server closes the connection with COMPRESSION_ERROR.
   */
  lemma ConnectionLost(lim: Limits, maxHeaders: nat, maxUrl: nat, app: nat -> Response, value: Octets)
    requires Roomy(lim, value)
    ensures StreamMeaning([Refused(value), REFERENCE], EMPTY).Some?
    ensures var c := Run(SourceEnv(lim, maxHeaders, maxUrl, app),
                         [DoFeed(Requests(BlockWire(Refused(value)), BlockWire(REFERENCE)))]).conn;
            c.gotError && c.trace.Then? && c.trace.event == Sent(GoAway(3, E_COMPRESSION_ERROR))
  {
    hide BlockWire, Verdict, StreamMeaning, SourceEnv, Run, Requests, Refused;
    var env := SourceEnv(lim, maxHeaders, maxUrl, app);
    var w1, w2 := BlockWire(Refused(value)), BlockWire(REFERENCE);
    VerdictsDiffer(H2Fields.Caps(maxHeaders, lim.maxHeaderBytes, maxUrl), value);
    SourceVerdict(lim, maxHeaders, maxUrl, app, [], HeaderBlock(w1, false));
    SourceVerdict(lim, maxHeaders, maxUrl, app, [HeaderBlock(w1, false)], HeaderBlock(w2, false));
    LostRun(env, w1, w2);
  }

  lemma LostRun(env: Env, w1: Octets, w2: Octets)
    requires |w1| <= Min(OUR_MAX_FRAME, env.lim.maxHeaderBytes + 4096)
             && |w2| <= Min(OUR_MAX_FRAME, env.lim.maxHeaderBytes + 4096)
    requires env.lim.maxStreams > 0 && env.lim.maxRequests != 1
    requires env.headers([], HeaderBlock(w1, false)) == MalformedList
    requires env.headers([HeaderBlock(w1, false)], HeaderBlock(w2, false)) == CompressionError
    ensures var c := Run(env, [DoFeed(Requests(w1, w2))]).conn;
            c.gotError && c.trace.Then? && c.trace.event == Sent(GoAway(3, E_COMPRESSION_ERROR))
  {
    var f1, f2, n := H2Opening.Request(w1), InFrame(FT_HEADERS, 5, 3, w2), Feeding(0, 1);
    var r2 := H2Wire.InWire(f2);
    var r1 := H2Wire.InWire(f1) + r2;
    var r0 := H2Wire.InWire(H2Opening.SETTINGS) + r1;
    var c0 := Fresh().(prefaceGot := PREFACE_LEN);
    H2Opening.RunFeed(env, H2Opening.PrefaceOctets() + r0);
    H2Opening.FeedFresh(env, r0);
    assert !c0.gotError && Count(Feeding(0, 0), H2Opening.SETTINGS) == n && Count(n, f1) == n && Count(n, f2) == n;
    H2Opening.AfterSettings(env, n);
    H2Blocks.FeedOne(env, c0, H2Opening.SETTINGS, r1, Feeding(0, 0));
    var c1 := OnFrame(env, c0, H2Opening.SETTINGS, n);
    AfterRefused(env, c1, w1);
    H2Blocks.FeedOne(env, c1, f1, r2, n);
    var c2 := OnFrame(env, c1, f1, n);
    AfterReference(env, c2, w2, HeaderBlock(w1, false));
    assert r2 + [] == r2;
    H2Blocks.FeedOne(env, c2, f2, [], n);
    H2Blocks.FeedTurn(env, OnFrame(env, c2, f2, n), [], n);
    hide Run, FeedFrames, OnFrame, InSequence, Count, H2Wire.InWire, H2Opening.PrefaceOctets, Fresh;
  }
}
