/** What chunked and counted bodies decode to, however the input arrives (section 7.1 of RFC 9112). */
module H1Codec {
  import opened Bytes
  import opened H1Body

  // ------------------------------------------------------------ encoding

  /** A chunk with its size line, in any spelling of the size and with any extension. */
  datatype Chunk = Chunk(line: Octets, data: Octets)

  const CRLF: Octets := [CR, LF]

  /** A line that can be sent as such and is short of the borderline. */
  predicate PlainLine(line: Octets) {
    LF !in line && |line| < CHUNK_LINE_MAX
  }

  predicate Conforming(c: Chunk) {
    c.data != [] && PlainLine(c.line) && SizeOf(c.line) == Some(|c.data|)
  }

  function Chunks(chunks: seq<Chunk>): Octets {
    if chunks == [] then []
    else chunks[0].line + CRLF + (chunks[0].data + CRLF) + Chunks(chunks[1..])
  }

  function Body(chunks: seq<Chunk>): Octets {
    if chunks == [] then [] else chunks[0].data + Body(chunks[1..])
  }

  function Lines(lines: seq<Octets>): Octets {
    if lines == [] then [] else lines[0] + CRLF + Lines(lines[1..])
  }

  /** Chunks, the last chunk, trailer fields and the empty line. */
  function Encoding(chunks: seq<Chunk>, last: Octets, trailers: seq<Octets>): Octets {
    Chunks(chunks) + (last + CRLF + (Lines(trailers) + CRLF))
  }

  // ------------------------------------------------------------ reading lines back

  lemma {:induction false} FindLfAfter(line: Octets, rest: Octets)
    requires LF !in line
    ensures FindLf(line + CRLF + rest) == |line| + 1
  {
    if line == [] {
      var s := line + CRLF + rest;
      assert s[0] == CR && s[1..][0] == LF;
      assert FindLf(s[1..]) == 0;
    } else {
      assert (line + CRLF + rest)[1..] == line[1..] + CRLF + rest;
      FindLfAfter(line[1..], rest);
    }
  }

  lemma LineReads(line: Octets, rest: Octets)
    requires LF !in line
    ensures FirstLine(line + CRLF + rest) == Line(line)
    ensures (line + CRLF + rest)[|line| + 2..] == rest
  {
    FindLfAfter(line, rest);
    var s := line + CRLF + rest;
    assert s[|line|] == CR && s[..|line|] == line;
  }

  // ------------------------------------------------------------ chunk by chunk

  /** After the same prefix: the same outcome and the same borderline lines. */
  ghost predicate Leads(lim: Limits, st: State, s: Octets, st': State, s': Octets) {
    Run(lim, st, s) == Run(lim, st', s') && Borderline(lim, st, s) == Borderline(lim, st', s')
  }

  lemma MoveLeads(lim: Limits, st: State, s: Octets)
    requires Move1(lim, st, s).Go? && (st.stage.Size? ==> Move1(lim, st, s).consumed != CHUNK_LINE_MAX + 2)
    ensures Leads(lim, st, s, Move1(lim, st, s).next, s[Move1(lim, st, s).consumed..])
  {
    hide Move1;
    RunGo(lim, st, s);
  }

  lemma LineLeads(lim: Limits, st: State, line: Octets, size: nat, rest: Octets)
    requires st.stage.Size? && PlainLine(line) && SizeOf(line) == Some(size) && size <= lim.maxBody - |st.body|
    ensures Leads(lim, st, line + CRLF + rest,
                  if size == 0 then st.(stage := Trailer) else st.(stage := Data, left := size), rest)
  {
    LineReads(line, rest);
    hide FirstLine, SizeOf;
    MoveLeads(lim, st, line + CRLF + rest);
  }

  lemma DataLeads(lim: Limits, st: State, data: Octets, rest: Octets)
    requires st.stage.Data? && st.left == |data| > 0
    ensures Leads(lim, st, data + CRLF + rest, State(Size, 0, st.headBytes, st.body + data), rest)
  {
    var s := data + CRLF + rest;
    assert s[..|data|] == data && s[|data|..] == CRLF + rest;
    MoveLeads(lim, st, s);
    var st1 := State(Crlf, 0, st.headBytes, st.body + data);
    assert Move1(lim, st, s) == Go(st1, |data|);
    assert (CRLF + rest)[2..] == rest;
    MoveLeads(lim, st1, CRLF + rest);
  }

  lemma ChunkLeads(lim: Limits, st: State, c: Chunk, rest: Octets)
    requires st.stage.Size? && Conforming(c) && |st.body| + |c.data| <= lim.maxBody
    ensures Leads(lim, st, c.line + CRLF + (c.data + CRLF) + rest, State(Size, 0, st.headBytes, st.body + c.data), rest)
  {
    hide Run, Borderline, SizeOf, Move1;
    var tail := c.data + CRLF + rest;
    assert c.line + CRLF + (c.data + CRLF) + rest == c.line + CRLF + tail;
    LineLeads(lim, st, c.line, |c.data|, tail);
    DataLeads(lim, st.(stage := Data, left := |c.data|), c.data, rest);
  }

  lemma {:induction false} ChunksLead(lim: Limits, st: State, chunks: seq<Chunk>, rest: Octets)
    requires st.stage.Size? && st.left == 0 && (forall c | c in chunks :: Conforming(c))
    requires |st.body| + |Body(chunks)| <= lim.maxBody
    ensures Leads(lim, st, Chunks(chunks) + rest, st.(body := st.body + Body(chunks)), rest)
    decreases |chunks|
  {
    hide Run, Borderline, Conforming;
    if chunks == [] {
      assert Chunks(chunks) + rest == rest && st.body + Body(chunks) == st.body;
    } else {
      var c, tail := chunks[0], Chunks(chunks[1..]) + rest;
      assert Chunks(chunks) + rest == c.line + CRLF + (c.data + CRLF) + tail;
      ChunkLeads(lim, st, c, tail);
      ChunksLead(lim, st.(body := st.body + c.data), chunks[1..], rest);
      assert st.body + c.data + Body(chunks[1..]) == st.body + Body(chunks);
      hide Chunks, Body;
    }
  }

  predicate TrailerLine(line: Octets) {
    line != [] && LF !in line
  }

  /** Trailer fields and the empty line end the body. */
  lemma {:induction false} TrailersEnd(lim: Limits, st: State, trailers: seq<Octets>, rest: Octets)
    requires st.stage.Trailer? && (forall t | t in trailers :: TrailerLine(t))
    requires st.headBytes + |Lines(trailers)| + 2 <= lim.maxHeader
    ensures var s := Lines(trailers) + CRLF + rest;
            && Run(lim, st, s) == Progress(st.(headBytes := st.headBytes + |Lines(trailers)| + 2), rest, Complete)
            && !Borderline(lim, st, s)
    decreases |trailers|
  {
    var s := Lines(trailers) + CRLF + rest;
    hide Run, Borderline, Move1;
    if trailers == [] {
      assert s == [] + CRLF + rest;
      EmptyLineEnds(lim, st, rest);
    } else {
      var tail := Lines(trailers[1..]) + CRLF + rest;
      var t := trailers[0];
      assert s == t + CRLF + tail;
      assert TrailerLine(t);
      TrailerLeads(lim, st, t, tail);
      TrailersEnd(lim, st.(headBytes := st.headBytes + |t| + 2), trailers[1..], rest);
    }
  }

  lemma TrailerLeads(lim: Limits, st: State, line: Octets, rest: Octets)
    requires st.stage.Trailer? && TrailerLine(line) && st.headBytes + |line| + 2 <= lim.maxHeader
    ensures Leads(lim, st, line + CRLF + rest, st.(headBytes := st.headBytes + |line| + 2), rest)
  {
    LineReads(line, rest);
    hide FirstLine;
    MoveLeads(lim, st, line + CRLF + rest);
  }

  lemma EmptyLineEnds(lim: Limits, st: State, rest: Octets)
    requires st.stage.Trailer? && st.headBytes + 2 <= lim.maxHeader
    ensures var s := [] + CRLF + rest;
            Run(lim, st, s) == Progress(st.(headBytes := st.headBytes + 2), rest, Complete) && !Borderline(lim, st, s)
  {
    LineReads([], rest);
    hide FirstLine;
  }

  /** The last chunk, of size zero in any spelling. */
  predicate LastLine(line: Octets) {
    PlainLine(line) && SizeOf(line) == Some(0)
  }

  lemma EncodingDecodes(lim: Limits, chunks: seq<Chunk>, last: Octets, trailers: seq<Octets>, rest: Octets)
    requires (forall c | c in chunks :: Conforming(c)) && |Body(chunks)| <= lim.maxBody && LastLine(last)
    requires (forall t | t in trailers :: TrailerLine(t)) && |Lines(trailers)| + 2 <= lim.maxHeader
    ensures var s := Encoding(chunks, last, trailers) + rest;
            && Run(lim, StartChunked, s) ==
               Progress(State(Trailer, 0, |Lines(trailers)| + 2, Body(chunks)), rest, Complete)
            && !Borderline(lim, StartChunked, s)
  {
    hide Run, Borderline, SizeOf, Move1;
    var end := Lines(trailers) + CRLF + rest;
    var s := Encoding(chunks, last, trailers) + rest;
    assert s == Chunks(chunks) + (last + CRLF + end);
    ChunksLead(lim, StartChunked, chunks, last + CRLF + end);
    var st := StartChunked.(body := [] + Body(chunks));
    LineLeads(lim, st, last, 0, end);
    TrailersEnd(lim, st.(stage := Trailer), trailers, rest);
  }

  /**
    Chunked round trip under any cut: the body is the concatenation of the chunks and exactly the
    encoding is consumed, so that what follows is untouched.
   */
  lemma ChunkedRoundTrip(lim: Limits, chunks: seq<Chunk>, last: Octets, trailers: seq<Octets>, rest: Octets,
                         pieces: seq<Octets>)
    requires (forall c | c in chunks :: Conforming(c)) && |Body(chunks)| <= lim.maxBody && LastLine(last)
    requires (forall t | t in trailers :: TrailerLine(t)) && |Lines(trailers)| + 2 <= lim.maxHeader
    requires Concat(pieces) == Encoding(chunks, last, trailers) + rest
    ensures var r := FeedAll(lim, StartChunked, [], pieces);
            r.verdict == Complete && r.state.body == Body(chunks) && r.rest == rest
  {
    hide Run, Borderline, Conforming, LastLine, TrailerLine;
    EncodingDecodes(lim, chunks, last, trailers, rest);
    assert [] + Concat(pieces) == Concat(pieces);
    assert pieces != [];
    PiecesAgree(lim, StartChunked, [], pieces);
  }

  /** The same for a body of a given length. */
  lemma LengthRoundTrip(lim: Limits, body: Octets, rest: Octets, pieces: seq<Octets>)
    requires |body| <= lim.maxBody && pieces != [] && Concat(pieces) == body + rest
    ensures var r := FeedAll(lim, StartLength(|body|), [], pieces);
            r.verdict == Complete && r.state.body == body && r.rest == rest
  {
    var st, s := StartLength(|body|), body + rest;
    LengthDecodes(lim, body, rest);
    hide Run, Borderline;
    assert [] + Concat(pieces) == s;
    PiecesAgree(lim, st, [], pieces);
  }

  lemma LengthDecodes(lim: Limits, body: Octets, rest: Octets)
    ensures Run(lim, StartLength(|body|), body + rest) == Progress(State(Length, 0, 0, body), rest, Complete)
    ensures !Borderline(lim, StartLength(|body|), body + rest)
  {
    var st, s := StartLength(|body|), body + rest;
    var done := State(Length, 0, 0, body);
    assert forall t :: Move1(lim, done, t) == Finished(done, 0);
    assert rest[0..] == rest;
    if body == [] {
      assert s == rest && st == done;
    } else {
      assert s[..|body|] == body && s[|body|..] == rest;
      assert [] + body == body;
      assert Move1(lim, st, s) == Go(done, |body|);
    }
  }

  // ------------------------------------------------------------ nothing else is accepted

  /** A chunk as it may be accepted: the size line has at most 4096 octets. */
  predicate Acceptable(c: Chunk) {
    c.data != [] && SizeLine(c.line, |c.data|)
  }

  predicate SizeLine(line: Octets, size: nat) {
    LF !in line && |line| <= 4096 && SizeOf(line) == Some(size)
  }

  lemma LineSplit(s: Octets)
    requires FirstLine(s).Line?
    ensures var text := FirstLine(s).text; LF !in text && s == text + CRLF + s[|text| + 2..]
  {
    var i := FindLf(s);
    assert s[i - 1] == CR && s[i] == LF;
    assert s == s[..i - 1] + [s[i - 1], s[i]] + s[i + 1..];
  }

  /** A run that completes makes a move, and completes from there. */
  lemma Completing(lim: Limits, st: State, input: Octets)
    requires Run(lim, st, input).verdict.Complete?
    ensures var m, r := Move1(lim, st, input), Run(lim, st, input);
            if m.Go? then r == Run(lim, m.next, input[m.consumed..])
            else m.Finished? && r == Progress(m.next, input[m.consumed..], Complete)
  {
    hide Move1;
  }

  lemma TrailerMove(lim: Limits, st: State, input: Octets)
    requires st.stage.Trailer? && (Move1(lim, st, input).Go? || Move1(lim, st, input).Finished?)
    ensures FirstLine(input).Line?
    ensures var m, text := Move1(lim, st, input), FirstLine(input).text;
            && LF !in text && m.consumed == |text| + 2 && input == text + CRLF + input[m.consumed..]
            && m.next == st.(headBytes := st.headBytes + |text| + 2) && m.next.headBytes <= lim.maxHeader
            && m.Finished? == (text == [])
  {
    LineSplit(input);
    hide FirstLine;
  }

  lemma Joined(text: Octets, lines: Octets, rest: Octets)
    ensures text + CRLF + (lines + CRLF + rest) == (text + CRLF + lines) + CRLF + rest
  {
  }

  /** Trailer fields read to the end of the body. */
  lemma {:induction false} TrailersRead(lim: Limits, st: State, input: Octets) returns (trailers: seq<Octets>)
    requires st.stage.Trailer? && Run(lim, st, input).verdict.Complete?
    ensures input == Lines(trailers) + CRLF + Run(lim, st, input).rest && forall t | t in trailers :: TrailerLine(t)
    ensures st.headBytes + |Lines(trailers)| + 2 <= lim.maxHeader && Run(lim, st, input).state.body == st.body
    decreases |input|
  {
    hide Run, Move1;
    Completing(lim, st, input);
    TrailerMove(lim, st, input);
    var m, text := Move1(lim, st, input), FirstLine(input).text;
    hide FirstLine;
    if text == [] {
      trailers := [];
      assert input == Lines([]) + CRLF + input[2..];
    } else {
      var more := TrailersRead(lim, m.next, input[m.consumed..]);
      trailers := [text] + more;
      assert trailers[1..] == more;
      Joined(text, Lines(more), Run(lim, st, input).rest);
    }
  }

  lemma ShortData(lim: Limits, st: State, input: Octets)
    requires st.stage.Data? && |input| < st.left
    ensures Run(lim, st, input).verdict.More?
  {
    if input != [] {
      hide Run;
      BodyWaits(lim, st, input);
    }
  }

  lemma DataMove(lim: Limits, st: State, input: Octets)
    requires st.stage.Data? && 0 < st.left <= |input|
    ensures Move1(lim, st, input) == Go(State(Crlf, 0, st.headBytes, st.body + input[..st.left]), st.left)
  {
  }

  lemma CrlfMove(lim: Limits, st: State, input: Octets)
    requires st.stage.Crlf? && (Move1(lim, st, input).Go? || Move1(lim, st, input).Finished?)
    ensures Move1(lim, st, input) == Go(st.(stage := Size), 2) && input == CRLF + input[2..]
  {
    assert input[..2] == CRLF;
  }

  /** The data of a chunk and the line end after it. */
  lemma DataRead(lim: Limits, st: State, input: Octets) returns (data: Octets, tail: Octets)
    requires st.stage.Data? && st.left > 0 && Run(lim, st, input).verdict.Complete?
    ensures |data| == st.left && input == data + CRLF + tail
    ensures Run(lim, st, input) == Run(lim, State(Size, 0, st.headBytes, st.body + data), tail)
  {
    hide Run, Move1;
    if |input| < st.left {
      ShortData(lim, st, input);
      assert false;
    } else {
      DataMove(lim, st, input);
      Completing(lim, st, input);
      var st1, end := Move1(lim, st, input).next, input[st.left..];
      Completing(lim, st1, end);
      CrlfMove(lim, st1, end);
      data, tail := input[..st.left], end[2..];
      assert input == data + (CRLF + tail);
    }
  }

  lemma SizeMove(lim: Limits, st: State, input: Octets)
    requires st.stage.Size? && |st.body| <= lim.maxBody
    requires Move1(lim, st, input).Go? || Move1(lim, st, input).Finished?
    ensures FirstLine(input).Line?
    ensures var m, text := Move1(lim, st, input), FirstLine(input).text;
            && SizeOf(text).Some? && SizeLine(text, SizeOf(text).value)
            && m.Go? && m.consumed == |text| + 2 && input == text + CRLF + input[m.consumed..]
            && |st.body| + SizeOf(text).value <= lim.maxBody
            && m.next == if SizeOf(text) == Some(0) then st.(stage := Trailer)
                         else st.(stage := Data, left := SizeOf(text).value)
  {
    LineSplit(input);
    hide FirstLine, SizeOf;
  }

  lemma Prepended(text: Octets, data: Octets, chunks: Octets, end: Octets, rest: Octets)
    ensures text + CRLF + (data + CRLF + (chunks + end + rest)) == (text + CRLF + (data + CRLF) + chunks) + end + rest
  {
  }

  /** The chunks at the front of the input, the last chunk and the trailers. */
  lemma {:induction false} ChunksRead(lim: Limits, st: State, input: Octets)
      returns (chunks: seq<Chunk>, last: Octets, trailers: seq<Octets>)
    requires st.stage.Size? && Run(lim, st, input).verdict.Complete? && |st.body| <= lim.maxBody
    ensures input == Encoding(chunks, last, trailers) + Run(lim, st, input).rest
    ensures (forall c | c in chunks :: Acceptable(c)) && SizeLine(last, 0) && forall t | t in trailers :: TrailerLine(t)
    ensures Run(lim, st, input).state.body == st.body + Body(chunks)
    ensures |st.body| + |Body(chunks)| <= lim.maxBody && st.headBytes + |Lines(trailers)| + 2 <= lim.maxHeader
    decreases |input|
  {
    hide Run, Move1;
    Completing(lim, st, input);
    SizeMove(lim, st, input);
    var m, text := Move1(lim, st, input), FirstLine(input).text;
    hide FirstLine, SizeOf;
    var tail, rest := input[m.consumed..], Run(lim, st, input).rest;
    if m.next.stage.Trailer? {
      trailers := TrailersRead(lim, m.next, tail);
      chunks, last := [], text;
      assert input == [] + (text + CRLF + (Lines(trailers) + CRLF)) + rest;
    } else {
      var data, tail1 := DataRead(lim, m.next, tail);
      var more;
      more, last, trailers := ChunksRead(lim, State(Size, 0, st.headBytes, st.body + data), tail1);
      chunks := [Chunk(text, data)] + more;
      assert chunks[1..] == more;
      hide SizeLine;
      Prepended(text, data, Chunks(more), last + CRLF + (Lines(trailers) + CRLF), rest);
      assert st.body + data + Body(more) == st.body + Body(chunks);
    }
  }

  /** A chunked body that completes was an encoding, within the limits, of what was handed on. */
  lemma OnlyEncodings(lim: Limits, input: Octets)
    requires Run(lim, StartChunked, input).verdict.Complete?
    ensures var r := Run(lim, StartChunked, input);
            exists chunks, last, trailers ::
              && input == Encoding(chunks, last, trailers) + r.rest && r.state.body == Body(chunks)
              && (forall c | c in chunks :: Acceptable(c)) && SizeLine(last, 0)
                 && (forall t | t in trailers :: TrailerLine(t))
              && |Body(chunks)| <= lim.maxBody && |Lines(trailers)| + 2 <= lim.maxHeader
  {
    hide Run, Encoding, Acceptable, SizeLine, Lines;
    var chunks, last, trailers := ChunksRead(lim, StartChunked, input);
    assert [] + Body(chunks) == Body(chunks);
  }

  // ------------------------------------------------------------ canonical size lines

  function HexDigit(d: nat): Byte
    requires d < 16
  {
    if d < 10 then 48 + d else 87 + d
  }

  function Hexed(n: nat): (r: Octets)
    ensures r != []
  {
    if n < 16 then [HexDigit(n)] else Hexed(n / 16) + [HexDigit(n % 16)]
  }

  lemma {:induction false} HexedReads(n: nat)
    ensures Number(Hexed(n)) == n && LF !in Hexed(n)
    ensures forall k | 0 <= k < |Hexed(n)| :: HexValue(Hexed(n)[k]) >= 0
  {
    if n < 16 {
      assert Hexed(n)[..0] == [];
    } else {
      HexedReads(n / 16);
      assert Hexed(n)[..|Hexed(n)| - 1] == Hexed(n / 16);
    }
  }

  lemma {:induction false} HexedShort(n: nat, k: nat)
    requires n < Pow16(k) && k > 0
    ensures |Hexed(n)| <= k
  {
    if n >= 16 {
      HexedShort(n / 16, k - 1);
    }
  }

  function Pow16(k: nat): nat {
    if k == 0 then 1 else 16 * Pow16(k - 1)
  }

  lemma SixteenDigits()
    ensures Pow16(16) == UINT64_MAX + 1
  {
    assert Pow16(4) == 0x1_0000;
    assert Pow16(8) == 0x1_0000_0000;
    assert Pow16(12) == 0x1_0000_0000_0000;
  }

  /** The usual spelling of a size is among those the round trip covers. */
  lemma CanonicalChunk(data: Octets)
    requires data != [] && |data| <= UINT64_MAX
    ensures Conforming(Chunk(Hexed(|data|), data))
  {
    hide Pow16, Number, Hexed, Digits;
    var n := |data|;
    var line := Hexed(n);
    HexedReads(n);
    SixteenDigits();
    HexedShort(n, 16);
    assert Digits(line) == |line| && line[..|line|] == line;
  }

  lemma {:induction false} DigitsUpTo(line: Octets, n: nat)
    requires n <= |line| && (forall k | 0 <= k < n :: HexValue(line[k]) >= 0) && (n < |line| ==> HexValue(line[n]) < 0)
    ensures Digits(line) == n
  {
    if n > 0 {
      DigitsUpTo(line[1..], n - 1);
    }
  }

  /** After the digits of a size only a semicolon may come, and then anything. */
  lemma SizeLines(n: nat, b: Byte, ext: Octets)
    requires n <= 0xffff_ffff_ffff_ffff && HexValue(b) < 0
    ensures SizeOf(Hexed(n)) == Some(n)
    ensures SizeOf(Hexed(n) + [b] + ext) == if b == 59 then Some(n) else None
    ensures SizeOf([b] + ext) == None
  {
    HexedReads(n);
    hide Hexed, Number;
    var digits := Hexed(n);
    var line := digits + [b] + ext;
    assert line[..|digits|] == digits && line[|digits|] == b;
    assert digits[..|digits|] == digits;
    DigitsUpTo(line, |digits|);
    DigitsUpTo(digits, |digits|);
    DigitsUpTo([b] + ext, 0);
    hide Digits;
  }

  lemma OneChunk(line: Octets, data: Octets)
    ensures Body([Chunk(line, data)]) == data
    ensures Encoding([Chunk(line, data)], [48], []) == line + [13, 10] + (data + [13, 10]) + [48, 13, 10, 13, 10]
  {
    var chunks := [Chunk(line, data)];
    assert Body(chunks[1..]) == [] && Chunks(chunks[1..]) == [];
    assert Chunks(chunks) == line + [13, 10] + (data + [13, 10]);
    assert [48] + CRLF + (Lines([]) + CRLF) == [48, 13, 10, 13, 10];
  }

  /** Section 7.1 octet by octet: size, CR LF, data, CR LF, "0", CR LF, CR LF. */
  lemma UsualEncoding(lim: Limits, data: Octets, rest: Octets)
    requires data != [] && |data| <= Min(lim.maxBody, 0xffff_ffff_ffff_ffff) && lim.maxHeader >= 2
    ensures var wire := Hexed(|data|) + [13, 10] + (data + [13, 10]) + [48, 13, 10, 13, 10] + rest;
            var r := Run(lim, StartChunked, wire);
            r.verdict.Complete? && r.state.body == data && r.rest == rest
  {
    hide Run, Hexed, Encoding, Chunks, Body, Borderline, Conforming, LastLine, TrailerLine;
    var line := Hexed(|data|);
    CanonicalChunk(data);
    ZeroLine();
    OneChunk(line, data);
    EncodingDecodes(lim, [Chunk(line, data)], [48], [], rest);
  }

  lemma ZeroLine()
    ensures LastLine([48]) && Lines([]) == []
  {
    SizeLines(0, 59, []);
    assert Hexed(0) == [48];
    hide SizeOf;
  }
}
