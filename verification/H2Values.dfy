/**
  A request whose field value section 8.2.1 of RFC 9113 may rule out, from the start of a connection to
  the application: the server dispatches it whatever the octets of the value.
 */
module H2Values {
  import opened Bytes
  import opened HpackTable
  import opened HpackBlock
  import opened H2Trace
  import opened H2Spec
  import opened H2Runs
  import opened H2Fields
  import HpackStop
  import H2Blocks
  import H2History
  import H2Opening
  import H2Sync
  import H2Table
  import H2Wire
  import PrefixInt
  import P = Path
  import Target

  // ------------------------------------------------------------ the request

  /** GET / by https, and a field "x" that stays out of the table. */
  function RequestLines(value: Octets): seq<Line> {
    [Indexed(2), Indexed(7), Indexed(4), Plain(ByText(Raw(X)), Raw(value), false)]
  }

  /** What the request means. */
  function RequestFields(value: Octets): seq<Field> {
    [StaticField(2), StaticField(7), StaticField(4), Field(X, value)]
  }

  /** A field line that leaves the table alone in front of others. */
  lemma MeaningCons(line: Line, rest: seq<Line>, seenField: bool, m: Meant)
    requires Conforms(line, EMPTY) && (line.Indexed? || line.Plain?) && BlockMeaning(rest, EMPTY, true) == Some(m)
    ensures BlockMeaning([line] + rest, EMPTY, seenField) == Some(Meant([Meaning(line, EMPTY)] + m.fields, m.table))
  {
    assert ([line] + rest)[1..] == rest;
    hide Conforms, Meaning;
  }

  lemma LinesMean(value: Octets)
    requires |value| <= PrefixInt.INT_MAX
    ensures BlockMeaning(RequestLines(value), EMPTY, false) == Some(Meant(RequestFields(value), EMPTY))
  {
    var lines, fields := RequestLines(value), RequestFields(value);
    LinesConform(value);
    assert |lines| == |fields| == 4 && lines[4..] == [] && fields[4..] == [];
    hide StaticField, Conforms, Meaning, BlockMeaning, X;
    NoLines();
    MeaningTail(lines, fields, 3);
    MeaningTail(lines, fields, 2);
    MeaningTail(lines, fields, 1);
    MeaningTail(lines, fields, 0);
    assert lines[0..] == lines && fields[0..] == fields;
  }

  lemma MeaningTail(lines: seq<Line>, fields: seq<Field>, k: nat)
    requires k < |lines| == |fields| && Conforms(lines[k], EMPTY) && (lines[k].Indexed? || lines[k].Plain?)
    requires fields[k] == Meaning(lines[k], EMPTY)
    requires BlockMeaning(lines[k + 1..], EMPTY, true) == Some(Meant(fields[k + 1..], EMPTY))
    ensures forall seenField :: BlockMeaning(lines[k..], EMPTY, seenField) == Some(Meant(fields[k..], EMPTY))
  {
    hide Conforms, Meaning, BlockMeaning;
    assert [lines[k]] + lines[k + 1..] == lines[k..] && [fields[k]] + fields[k + 1..] == fields[k..];
    MeaningCons(lines[k], lines[k + 1..], true, Meant(fields[k + 1..], EMPTY));
    MeaningCons(lines[k], lines[k + 1..], false, Meant(fields[k + 1..], EMPTY));
  }

  lemma NoLines()
    ensures BlockMeaning([], EMPTY, true) == Some(Meant([], EMPTY))
  {
  }

  lemma LinesConform(value: Octets)
    requires |value| <= PrefixInt.INT_MAX
    ensures Conforms(Indexed(2), EMPTY) && Meaning(Indexed(2), EMPTY) == StaticField(2)
    ensures Conforms(Indexed(7), EMPTY) && Meaning(Indexed(7), EMPTY) == StaticField(7)
    ensures Conforms(Indexed(4), EMPTY) && Meaning(Indexed(4), EMPTY) == StaticField(4)
    ensures var line := Plain(ByText(Raw(X)), Raw(value), false);
            Conforms(line, EMPTY) && Meaning(line, EMPTY) == Field(X, value)
  {
    hide StaticField;
  }

  lemma {:induction false} AsciiAt(s: string, k: nat)
    requires k < |s|
    ensures Ascii(s)[k] == s[k] as int % 256
  {
    if k > 0 {
      AsciiAt(s[1..], k - 1);
    }
  }

  lemma Names()
    ensures StaticField(2) == Field(Ascii(":method"), Ascii("GET"))
    ensures StaticField(7) == Field(Ascii(":scheme"), Ascii("https"))
    ensures StaticField(4) == Field(Ascii(":path"), Ascii("/"))
  {
    hide Ascii;
  }

  lemma SchemeIsNotMethod()
    ensures Ascii(":scheme") != Ascii(":method")
  {
    AsciiAt(":method", 1);
    AsciiAt(":scheme", 1);
    hide Ascii;
  }

  lemma PseudoNames()
    ensures PseudoOf(Ascii(":method")) == Some(Method) && IsPseudo(Ascii(":method"))
    ensures PseudoOf(Ascii(":scheme")) == Some(Scheme) && IsPseudo(Ascii(":scheme"))
    ensures PseudoOf(Ascii(":path")) == Some(Path) && IsPseudo(Ascii(":path"))
  {
    hide Ascii;
    SchemeIsNotMethod();
    AsciiAt(":method", 0);
    AsciiAt(":scheme", 0);
    AsciiAt(":path", 0);
  }

  /** Three pseudo-header fields and one that may be sent. */
  lemma ListFormed(a: Field, b: Field, c: Field, d: Field)
    requires IsPseudo(a.name) && IsPseudo(b.name) && IsPseudo(c.name) && !IsPseudo(d.name) && RegularOk(d)
    requires PseudoOf(a.name) == Some(Method) && PseudoOf(b.name) == Some(Scheme) && PseudoOf(c.name) == Some(Path)
    ensures WellNamed(false, [a, b, c, d]) && Regular([a, b, c, d]) == [d]
  {
    hide IsPseudo, PseudoOf, RegularOk, Regular;
    RegularNone();
    RegularSnoc([], a);
    RegularSnoc([a], b);
    RegularSnoc([a, b], c);
    RegularSnoc([a, b, c], d);
    assert [] + [a] == [a] && [a] + [b] == [a, b] && [a, b] + [c] == [a, b, c] && [a, b, c] + [d] == [a, b, c, d];
  }

  /** Names, order and limits are in order. */
  lemma RequestAcceptable(caps: Caps, value: Octets)
    requires |value| + 1 <= caps.maxHeaderBytes && |value| + 33 <= ListCap(caps) && caps.maxHeaders > 0
    ensures Acceptable(caps, false, RequestFields(value))
  {
    Names();
    assert |X| == 1;
    hide Ascii, StaticField, IsPseudo, PseudoOf, RegularOk, WellNamed, WithinCaps, Regular, ListCap, X;
    PseudoNames();
    XMayBeSent(value);
    var d := Field(X, value);
    OneWithin(caps, d);
    ListFormed(StaticField(2), StaticField(7), StaticField(4), d);
  }

  // ------------------------------------------------------------ the verdict on it

  lemma Strings()
    ensures Ascii("GET") == [71, 69, 84] && Ascii("/") == [47]
  {
    var get, root := "GET", "/";
    AsciiAt(get, 0);
    AsciiAt(get, 1);
    AsciiAt(get, 2);
    AsciiAt(root, 0);
    assert |Ascii(get)| == 3 && |Ascii(root)| == 1;
    hide Ascii;
  }

  lemma RootDecoded()
    ensures Target.PctDecode([47]) == Some([47]) && Target.FindQuery([47], 0) == 1
  {
    var raw: Octets := [47];
    assert raw[1..] == [];
    assert Target.FirstOctet(raw) == Some((47, 1));
    Target.DecodeEnd();
    assert [47] + [] == raw;
  }

  lemma RootNormal()
    ensures P.Normalised([47]).Some?
  {
    P.RootSegments();
    P.FoldClean([], P.ROOT);
  }

  lemma RootTarget(maxUrl: nat)
    requires maxUrl > 0
    ensures Target.DecodeTarget([47], maxUrl).Some?
  {
    var raw: Octets := [47];
    assert raw[..1] == raw;
    RootDecoded();
    RootNormal();
    hide Target.PctDecode, Target.FindQuery, P.Normalised;
  }

  lemma PlainStrings()
    ensures CString([71, 69, 84]) == [71, 69, 84] && CString([47]) == [47] && Token([71, 69, 84])
  {
  }

  /** The list is a request. */
  lemma RequestTaken(caps: Caps, value: Octets)
    requires |value| + 1 <= caps.maxHeaderBytes && |value| + 33 <= ListCap(caps) && caps.maxHeaders > 0
             && caps.maxUrl > 0
    ensures var j := Judge(caps, false, Complete, RequestFields(value)); j.FieldList? && j.request
  {
    var fields := RequestFields(value);
    Names();
    PseudoNames();
    Strings();
    PlainStrings();
    RootTarget(caps.maxUrl);
    RequestAcceptable(caps, value);
    RequestsJudged(caps, false, fields);
    hide Ascii, StaticField, IsPseudo, PseudoOf, Acceptable, CString, Token, Target.DecodeTarget, ListCap, Judge;
    assert fields[0] == StaticField(2) && fields[1] == StaticField(7) && fields[2] == StaticField(4);
    assert HasPseudo(fields, Method, Ascii("GET"));
    assert HasPseudo(fields, Scheme, Ascii("https"));
    assert HasPseudo(fields, Path, Ascii("/"));
  }

  // ------------------------------------------------------------ from the wire to the application

  lemma {:induction false} ListSizeOne(fields: seq<Field>)
    requires fields != []
    ensures ListSize(fields) == |fields[0].name| + |fields[0].value| + ListSize(fields[1..])
  {
  }

  lemma RequestSize(value: Octets)
    ensures ListSize(RequestFields(value)) == 29 + |value|
  {
    var fields := RequestFields(value);
    Names();
    assert |X| == 1;
    hide StaticField, Ascii, X, ListSize;
    ListSizeOne(fields);
    ListSizeOne(fields[1..]);
    ListSizeOne(fields[2..]);
    ListSizeOne(fields[3..]);
    assert fields[1..][1..] == fields[2..] && fields[2..][1..] == fields[3..] && fields[3..][1..] == [];
    assert ListSize([]) == 0 by {
      NoFields();
    }
  }

  lemma NoFields()
    ensures ListSize([]) == 0
  {
  }

  /** The first block of a conforming encoder with an acceptable list is judged by its fields. */
  lemma FirstVerdict(caps: Caps, lines: seq<Line>, m: Meant)
    requires BlockMeaning(lines, EMPTY, false) == Some(m) && ListSize(m.fields) <= caps.maxHeaderBytes
    requires Acceptable(caps, false, m.fields)
    ensures H2Sync.Verdict(caps, [], HeaderBlock(BlockWire(lines), false)) == Judge(caps, false, Complete, m.fields)
  {
    var sink := EmitSink(caps, false);
    hide BlockMeaning, BlockWire, DecodeBlock, Acceptable, EmitSink, ListSize, Judge;
    hide HpackStop.StopAt, HpackStop.TableAfter, HpackStop.Added, Fit;
    H2Sync.EmptyValid();
    H2Sync.NoBlocks([], caps.maxHeaderBytes, H2Sync.SourceSinks(caps));
    H2Sync.AcceptableRead(caps, false, lines, EMPTY, m);
    HpackStop.StopSync(lines, EMPTY, caps.maxHeaderBytes, sink, m);
  }

  lemma {:induction false} DispatchStays(t: Trace, t': Trace, sid: nat)
    requires Extends(t, t') && WasDispatched(t, sid)
    ensures WasDispatched(t', sid)
  {
    if t' != t {
      DispatchStays(t, t'.before, sid);
    }
  }

  lemma DispatchSeen(env: Env, c: Conn, i: nat)
    requires i < |c.streams| && !c.streams[i].dispatched && !c.streams[i].responded
    ensures WasDispatched(Dispatch(env, c, i).trace, c.streams[i].id)
  {
    var st := c.streams[i];
    var r := env.app(st.id);
    var c1 := Note(SetStream(c, i, st.(dispatched := true)), Dispatched(st.id, st.isHead, st.reqBody));
    assert WasDispatched(c1.trace, st.id);
    hide Dispatch, FieldBlock, SendBlock, Extends, WasDispatched;
    H2Table.DispatchTrace(env, c, i);
    H2History.SendBlockGrows(c1, st.id, FieldBlock(r), true, !HasBody(r, st.isHead));
    H2History.DataFreeExtends(c1.trace, Dispatch(env, c, i).trace);
    DispatchStays(c1.trace, Dispatch(env, c, i).trace, st.id);
  }

  /** The client's side: the opening exchange and one request. */
  function Opening(block: Octets): Octets {
    H2Opening.PrefaceOctets() + (H2Wire.InWire(H2Opening.SETTINGS) + H2Wire.InWire(H2Opening.Request(block)))
  }

  lemma OpeningRun(env: Env, block: Octets, isHead: bool)
    requires |block| <= Min(OUR_MAX_FRAME, env.lim.maxHeaderBytes + 4096) && env.lim.maxStreams > 0
    requires env.headers([], HeaderBlock(block, false)) == FieldList(true, isHead)
    ensures WasDispatched(Run(env, [DoFeed(Opening(block))]).conn.trace, 1)
  {
    var f, n := H2Opening.Request(block), Feeding(0, 1);
    var r1 := H2Wire.InWire(f);
    var r0 := H2Wire.InWire(H2Opening.SETTINGS) + r1;
    var c0 := Fresh().(prefaceGot := PREFACE_LEN);
    H2Opening.RunFeed(env, H2Opening.PrefaceOctets() + r0);
    H2Opening.FeedFresh(env, r0);
    assert !c0.gotError && Count(Feeding(0, 0), H2Opening.SETTINGS) == n && Count(n, f) == n;
    H2Opening.AfterSettings(env, n);
    H2Blocks.FeedOne(env, c0, H2Opening.SETTINGS, r1, Feeding(0, 0));
    var c1 := OnFrame(env, c0, H2Opening.SETTINGS, n);
    var c2 := H2Opening.RequestJudged(env, c1, block, isHead);
    assert r1 + [] == r1;
    H2Blocks.FeedOne(env, c1, f, [], n);
    H2Blocks.FeedTurn(env, OnFrame(env, c1, f, n), [], n);
    DispatchSeen(env, c2, 0);
    hide Run, FeedFrames, OnFrame, InSequence, Count, H2Wire.InWire, H2Opening.PrefaceOctets, Fresh, Dispatch,
         WasDispatched;
  }

  lemma ValuesOfRequest(value: Octets)
    ensures Conforming(false, RequestFields(value)) ==> ValueOk(value)
  {
    hide ValueOk, WellNamed, StaticField;
    var fields := RequestFields(value);
    assert fields[3].value == value;
  }

  lemma RoomForValue(caps: Caps, value: Octets)
    requires 29 + |value| <= caps.maxHeaderBytes && |value| <= OUR_MAX_FRAME
    ensures |value| + 33 <= ListCap(caps)
  {
  }

  lemma ValueVerdict(caps: Caps, value: Octets) returns (isHead: bool)
    requires 29 + |value| <= caps.maxHeaderBytes && |value| <= OUR_MAX_FRAME && caps.maxHeaders > 0 && caps.maxUrl > 0
    ensures BlockMeaning(RequestLines(value), EMPTY, false) == Some(Meant(RequestFields(value), EMPTY))
    ensures H2Sync.Verdict(caps, [], HeaderBlock(BlockWire(RequestLines(value)), false)) == FieldList(true, isHead)
  {
    hide BlockWire, BlockMeaning, RequestLines, RequestFields, H2Sync.Verdict, Acceptable, Judge, ListSize, ListCap;
    RoomForValue(caps, value);
    LinesMean(value);
    RequestSize(value);
    RequestAcceptable(caps, value);
    RequestTaken(caps, value);
    FirstVerdict(caps, RequestLines(value), Meant(RequestFields(value), EMPTY));
    isHead := Judge(caps, false, Complete, RequestFields(value)).isHead;
  }

  /**
    One feed from the start of a connection: a request with a field "x" is handed to the application
    whatever the octets of its value, although the list is malformed unless the value is one that
    section 8.2.1 allows.
   */
  lemma ValueDispatched(lim: Limits, maxHeaders: nat, maxUrl: nat, app: nat -> Response, value: Octets)
    requires 29 + |value| <= lim.maxHeaderBytes && maxHeaders > 0 && maxUrl > 0 && lim.maxStreams > 0
    requires |value| <= OUR_MAX_FRAME
    requires |BlockWire(RequestLines(value))| <= Min(OUR_MAX_FRAME, lim.maxHeaderBytes + 4096)
    ensures BlockMeaning(RequestLines(value), EMPTY, false) == Some(Meant(RequestFields(value), EMPTY))
    ensures !ValueOk(value) ==> !Conforming(false, RequestFields(value))
    ensures var feed := DoFeed(Opening(BlockWire(RequestLines(value))));
            WasDispatched(Run(H2Sync.SourceEnv(lim, maxHeaders, maxUrl, app), [feed]).conn.trace, 1)
  {
    hide BlockWire, BlockMeaning, RequestLines, RequestFields, Run, H2Sync.SourceEnv, H2Sync.Verdict, WasDispatched,
         Opening;
    hide Conforming, ValueOk;
    ValuesOfRequest(value);
    var isHead := ValueVerdict(Caps(maxHeaders, lim.maxHeaderBytes, maxUrl), value);
    var b := HeaderBlock(BlockWire(RequestLines(value)), false);
    H2Sync.SourceVerdict(lim, maxHeaders, maxUrl, app, [], b);
    OpeningRun(H2Sync.SourceEnv(lim, maxHeaders, maxUrl, app), b.octets, isHead);
  }
}
