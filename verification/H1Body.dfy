/** Message bodies of HTTP/1.1 requests (src/h1.c): Content-Length and chunked framing, resumable. */
module H1Body {
  import opened Bytes

  const CR: Byte := 13
  const LF: Byte := 10
  const SEMICOLON: Byte := 59
  const CHUNK_LINE_MAX: nat := 4096
  const UINT64_MAX: nat := 0xffff_ffff_ffff_ffff

  datatype Limits = Limits(maxBody: nat, maxHeader: nat)

  datatype Stage = Length | Size | Data | Crlf | Trailer

  /** `left` counts octets of the body or of the current chunk that are still to come. */
  datatype State = State(stage: Stage, left: nat, headBytes: nat, body: Octets)

  function StartLength(n: nat): State {
    State(Length, n, 0, [])
  }

  const StartChunked: State := State(Size, 0, 0, [])

  // ------------------------------------------------------------ lines

  /** Position of the first LF, or the length. */
  function FindLf(s: Octets): (i: nat)
    ensures i <= |s| && (forall k | 0 <= k < i :: s[k] != LF) && (i < |s| ==> s[i] == LF)
  {
    if s == [] || s[0] == LF then 0 else 1 + FindLf(s[1..])
  }

  /** A line ends in CRLF; a bare LF is refused. */
  datatype Line = NoLine | BareLf | Line(text: Octets)

  function FirstLine(s: Octets): (r: Line)
    ensures r.Line? ==> |r.text| + 2 <= |s| && r.text == s[..|r.text|]
  {
    var i := FindLf(s);
    if i == |s| then NoLine
    else if i == 0 || s[i - 1] != CR then BareLf
    else Line(s[..i - 1])
  }

  // ------------------------------------------------------------ chunk sizes

  /** Number of leading hex digits. */
  function Digits(line: Octets): (n: nat)
    ensures n <= |line| && (n < |line| ==> HexValue(line[n]) < 0)
    ensures forall k | 0 <= k < n :: HexValue(line[k]) >= 0
  {
    if line == [] || HexValue(line[0]) < 0 then 0 else 1 + Digits(line[1..])
  }

  function Number(digits: Octets): nat {
    if digits == [] then 0
    else 16 * Number(digits[..|digits| - 1]) + if HexValue(digits[|digits| - 1]) < 0 then 0
      else HexValue(digits[|digits| - 1])
  }

  /** The size a chunk line states: hex digits within 64 bits, then nothing or an extension. */
  function SizeOf(line: Octets): Option<nat> {
    var n := Digits(line);
    if n == 0 || (n < |line| && line[n] != SEMICOLON) || Number(line[..n]) > UINT64_MAX then None
    else Some(Number(line[..n]))
  }

  // ------------------------------------------------------------ the machine

  /** One move on buffered input: wait, go on after consuming, finish, or refuse with a status. */
  datatype Move = Wait | Go(next: State, consumed: nat) | Finished(next: State, consumed: nat) | Broken(status: nat)

  function TakeData(st: State, input: Octets): (r: State)
    ensures r.left <= st.left
  {
    var n := if |input| < st.left then |input| else st.left;
    st.(body := st.body + input[..n], left := st.left - n)
  }

  function Move1(lim: Limits, st: State, input: Octets): (r: Move)
    ensures r.Go? || r.Finished? ==> r.consumed <= |input|
    ensures r.Go? ==> r.consumed > 0 || (st.stage.Data? && !r.next.stage.Data?)
  {
    match st.stage
    case Length =>
      if st.left == 0 then Finished(st, 0)
      else if input == [] then Wait
      else Go(TakeData(st, input), Min(|input|, st.left))
    case Size =>
      (match FirstLine(input)
       case NoLine => if |input| > CHUNK_LINE_MAX then Broken(400) else Wait
       case BareLf => Broken(400)
       case Line(text) =>
         if |text| > CHUNK_LINE_MAX || SizeOf(text).None? then Broken(400)
         else
           var size := SizeOf(text).value;
           if size == 0 then Go(st.(stage := Trailer), |text| + 2)
           else if size > lim.maxBody - |st.body| then Broken(413)
           else Go(st.(stage := Data, left := size), |text| + 2))
    case Data =>
      if st.left == 0 then Go(st.(stage := Crlf), 0)
      else if input == [] then Wait
      else
        var st1 := TakeData(st, input);
        Go(if st1.left == 0 then st1.(stage := Crlf) else st1, Min(|input|, st.left))
    case Crlf =>
      if |input| < 2 then Wait
      else if input[0] != CR || input[1] != LF then Broken(400)
      else Go(st.(stage := Size), 2)
    case Trailer =>
      (match FirstLine(input)
       case NoLine => if |input| > lim.maxHeader then Broken(431) else Wait
       case BareLf => Broken(400)
       case Line(text) =>
         var n := |text| + 2;
         if n > lim.maxHeader - st.headBytes then Broken(431)
         else
           var st1 := st.(headBytes := st.headBytes + n);
           if text == [] then Finished(st1, n) else Go(st1, n))
  }

  datatype Verdict = More | Complete | Refused(status: nat)

  /** State, unconsumed input and verdict. */
  datatype Progress = Progress(state: State, rest: Octets, verdict: Verdict)

  function Run(lim: Limits, st: State, input: Octets): Progress
    decreases |input| + if st.stage.Data? then 1 else 0
  {
    match Move1(lim, st, input)
    case Wait => Progress(st, input, More)
    case Go(next, n) => Run(lim, next, input[n..])
    case Finished(next, n) => Progress(next, input[n..], Complete)
    case Broken(status) => Progress(st, input, Refused(status))
  }

  /** Feeding further pieces: what was not consumed is kept and the next piece appended. */
  function FeedAll(lim: Limits, st: State, kept: Octets, pieces: seq<Octets>): Progress
    decreases |pieces|
  {
    if pieces == [] then Progress(st, kept, More)
    else
      var r := Run(lim, st, kept + pieces[0]);
      if r.verdict.More? then FeedAll(lim, r.state, r.rest, pieces[1..])
      else r.(rest := r.rest + Concat(pieces[1..]))
  }

  // ------------------------------------------------------------ the cap

  ghost predicate WithinCap(lim: Limits, st: State) {
    && (st.stage.Data? || st.stage.Length? ==> |st.body| + st.left <= lim.maxBody)
    && |st.body| <= lim.maxBody && st.headBytes <= lim.maxHeader
  }

  lemma MoveKeepsCap(lim: Limits, st: State, input: Octets)
    requires WithinCap(lim, st)
    ensures var r := Move1(lim, st, input); r.Go? || r.Finished? ==> WithinCap(lim, r.next)
  {
    hide FirstLine, SizeOf;
  }

  /** The body and what is still promised of it never exceed the limit. */
  lemma {:induction false} RunKeepsCap(lim: Limits, st: State, input: Octets)
    requires WithinCap(lim, st)
    ensures WithinCap(lim, Run(lim, st, input).state)
    decreases |input| + if st.stage.Data? then 1 else 0
  {
    MoveKeepsCap(lim, st, input);
    var r := Move1(lim, st, input);
    if r.Go? {
      hide Move1, WithinCap;
      RunKeepsCap(lim, r.next, input[r.consumed..]);
    }
  }

  // ------------------------------------------------------------ cutting the input

  /** The same outcome, or refused both times (perhaps with another status). */
  ghost predicate Agree(a: Progress, b: Progress) {
    a == b || (a.verdict.Refused? && b.verdict.Refused?)
  }

  /** Two pieces instead of one. */
  function Resumed(lim: Limits, st: State, a: Octets, b: Octets): Progress {
    var r := Run(lim, st, a);
    if r.verdict.More? then Run(lim, r.state, r.rest + b) else r.(rest := r.rest + b)
  }

  /** A chunk-size line of exactly 4096 octets is accepted on the way. */
  predicate Borderline(lim: Limits, st: State, input: Octets)
    decreases |input| + if st.stage.Data? then 1 else 0
  {
    match Move1(lim, st, input)
    case Go(next, n) => (st.stage.Size? && n == CHUNK_LINE_MAX + 2) || Borderline(lim, next, input[n..])
    case _ => false
  }

  lemma {:induction false} FindLfMore(a: Octets, b: Octets)
    ensures FindLf(a) < |a| ==> FindLf(a + b) == FindLf(a)
    ensures FindLf(a) == |a| ==> FindLf(a + b) == |a| + FindLf(b)
  {
    if a == [] {
      assert a + b == b;
    } else {
      assert (a + b)[1..] == a[1..] + b;
      FindLfMore(a[1..], b);
    }
  }

  lemma LineMore(a: Octets, b: Octets)
    ensures !FirstLine(a).NoLine? ==> FirstLine(a + b) == FirstLine(a)
    ensures FirstLine(a).NoLine? && FirstLine(a + b).Line? ==> |FirstLine(a + b).text| + 1 >= |a|
  {
    FindLfMore(a, b);
    var i := FindLf(a);
    if 0 < i < |a| {
      assert (a + b)[i - 1] == a[i - 1];
      assert (a + b)[..i - 1] == a[..i - 1];
    }
  }

  /** More input does not change a move that was made, nor a refusal except at the boundary. */
  lemma MoveStable(lim: Limits, st: State, a: Octets, b: Octets)
    requires WithinCap(lim, st)
    ensures var r, r' := Move1(lim, st, a), Move1(lim, st, a + b);
            && (r.Finished? ==> r' == r)
            && (r.Go? && r.next.stage != st.stage ==> r' == r)
            && (r.Go? && st.stage.Trailer? ==> r' == r)
            && (r.Broken? ==> r'.Broken? || (r'.Go? && st.stage.Size? && r'.consumed == CHUNK_LINE_MAX + 2))
  {
    LineMore(a, b);
    hide FirstLine, SizeOf;
    if (st.stage.Data? || st.stage.Length?) && st.left <= |a| {
      assert (a + b)[..st.left] == a[..st.left];
    }
  }

  /** Body octets cut in two are taken in two moves. */
  lemma DataCut(lim: Limits, st: State, a: Octets, b: Octets)
    requires (st.stage.Data? || st.stage.Length?) && a != []
    requires Move1(lim, st, a).Go? && Move1(lim, st, a).next.stage == st.stage
    ensures st.left <= |a| ==> Move1(lim, st, a + b) == Move1(lim, st, a)
    ensures st.left > |a| ==>
              var st1 := Move1(lim, st, a).next;
              && Move1(lim, st, a).consumed == |a| && st1.left > 0
              && (b != [] ==>
                    var r, r' := Move1(lim, st1, b), Move1(lim, st, a + b);
                    r.Go? && r' == Go(r.next, |a| + r.consumed))
  {
    if st.left <= |a| {
      assert (a + b)[..st.left] == a[..st.left];
    } else {
      assert a[..|a|] == a;
      var n := Min(|b|, st.left - |a|);
      assert (a + b)[..|a| + n] == a + b[..n];
      assert st.body + (a + b[..n]) == (st.body + a) + b[..n];
    }
  }

  /** One move is the same on longer input, or it took all of `a` as part of the body. */
  lemma GoCases(lim: Limits, st: State, a: Octets, b: Octets)
    requires WithinCap(lim, st) && Move1(lim, st, a).Go?
    ensures || Move1(lim, st, a + b) == Move1(lim, st, a)
            || ((st.stage.Data? || st.stage.Length?) && a != [] && st.left > |a|
                && Move1(lim, st, a).next.stage == st.stage)
  {
    MoveStable(lim, st, a, b);
    var r := Move1(lim, st, a);
    if (st.stage.Data? || st.stage.Length?) && a != [] && r.next.stage == st.stage {
      DataCut(lim, st, a, b);
    }
  }

  /** Body octets that end with the first piece. */
  lemma BodyCut(lim: Limits, st: State, a: Octets, b: Octets)
    requires (st.stage.Data? || st.stage.Length?) && a != [] && st.left > |a|
    requires Move1(lim, st, a).Go? && Move1(lim, st, a).next.stage == st.stage
    ensures Resumed(lim, st, a, b) == Run(lim, st, a + b)
    ensures Run(lim, st, a).verdict.More?
    ensures Borderline(lim, Run(lim, st, a).state, Run(lim, st, a).rest + b) ==> Borderline(lim, st, a + b)
  {
    hide Move1, Run, Borderline;
    DataCut(lim, st, a, b);
    BodyWaits(lim, st, a);
    var st1 := Move1(lim, st, a).next;
    assert [] + b == b;
    if b == [] {
      assert a + b == a && a[|a|..] == [];
      RunGo(lim, st, a);
    } else {
      var r := Move1(lim, st1, b);
      assert (a + b)[|a| + r.consumed..] == b[r.consumed..];
      RunGo(lim, st1, b);
      RunGo(lim, st, a + b);
    }
  }

  lemma BodyWaits(lim: Limits, st: State, a: Octets)
    requires (st.stage.Data? || st.stage.Length?) && a != [] && st.left > |a|
    requires Move1(lim, st, a).Go?
    ensures Run(lim, st, a) == Progress(Move1(lim, st, a).next, [], More)
  {
    assert a[|a|..] == [];
    assert Move1(lim, Move1(lim, st, a).next, []) == Wait;
  }

  lemma RunGo(lim: Limits, st: State, s: Octets)
    requires Move1(lim, st, s).Go?
    ensures var r := Move1(lim, st, s);
            && Run(lim, st, s) == Run(lim, r.next, s[r.consumed..])
            && Borderline(lim, st, s) ==
               ((st.stage.Size? && r.consumed == CHUNK_LINE_MAX + 2) || Borderline(lim, r.next, s[r.consumed..]))
  {
    hide Move1;
  }

  /**
    Cutting the input in two changes nothing but perhaps the status of a refusal, unless a
    chunk-size line of exactly 4096 octets is accepted when there is no cut.
   */
  lemma {:induction false} CutAgrees(lim: Limits, st: State, a: Octets, b: Octets)
    requires WithinCap(lim, st) && (!Borderline(lim, st, a + b) || Run(lim, st, a + b).verdict.Refused?)
    ensures Agree(Resumed(lim, st, a, b), Run(lim, st, a + b))
    ensures Run(lim, st, a).verdict.More? ==>
              (Borderline(lim, Run(lim, st, a).state, Run(lim, st, a).rest + b) ==> Borderline(lim, st, a + b))
    decreases |a| + if st.stage.Data? then 1 else 0
  {
    hide FirstLine, SizeOf;
    MoveStable(lim, st, a, b);
    MoveKeepsCap(lim, st, a);
    var r := Move1(lim, st, a);
    if r.Go? {
      GoCases(lim, st, a, b);
      var n := r.consumed;
      if Move1(lim, st, a + b) == r {
        assert (a + b)[n..] == a[n..] + b;
        assert n > 0 || (st.stage.Data? && !r.next.stage.Data?);
        hide Move1, WithinCap;
        CutAgrees(lim, r.next, a[n..], b);
      } else {
        hide Move1, WithinCap;
        BodyCut(lim, st, a, b);
      }
    } else if r.Finished? {
      assert (a + b)[r.consumed..] == a[r.consumed..] + b;
    }
  }

  /** A cut just before the LF of such a line has it refused. */
  lemma {:induction false} BorderlineCut(lim: Limits, st: State, s: Octets) returns (a: Octets, b: Octets)
    requires WithinCap(lim, st) && Borderline(lim, st, s)
    ensures a + b == s && Run(lim, st, a).verdict == Refused(400)
    decreases |s| + if st.stage.Data? then 1 else 0
  {
    hide Move1, Run, Borderline, WithinCap;
    BorderlineTurn(lim, st, s);
    MoveKeepsCap(lim, st, s);
    var r := Move1(lim, st, s);
    var n := r.consumed;
    if st.stage.Size? && n == CHUNK_LINE_MAX + 2 {
      a, b := s[..n - 1], s[n - 1..];
      RefusedBeforeLf(lim, st, s);
    } else {
      var a', b' := BorderlineCut(lim, r.next, s[n..]);
      a, b := s[..n] + a', b';
      Reassembled(s, n, a', b');
      BodyBeyond(lim, st, s);
      SameMove(lim, st, s, a);
      RunGo(lim, st, a);
    }
  }

  lemma BorderlineTurn(lim: Limits, st: State, s: Octets)
    requires Borderline(lim, st, s)
    ensures var r := Move1(lim, st, s);
            && r.Go? && r.consumed <= |s|
            && |s| - r.consumed + (if r.next.stage.Data? then 1 else 0) < |s| + (if st.stage.Data? then 1 else 0)
            && ((st.stage.Size? && r.consumed == CHUNK_LINE_MAX + 2) || Borderline(lim, r.next, s[r.consumed..]))
  {
    hide FirstLine, SizeOf;
  }

  lemma Reassembled(s: Octets, n: nat, a: Octets, b: Octets)
    requires n <= |s| && a + b == s[n..]
    ensures (s[..n] + a) + b == s && (s[..n] + a)[n..] == a && s[..n] + a <= s
  {
    assert (s[..n] + a) + b == s[..n] + (a + b);
  }

  lemma RefusedBeforeLf(lim: Limits, st: State, s: Octets)
    requires st.stage.Size? && Move1(lim, st, s).Go? && Move1(lim, st, s).consumed == CHUNK_LINE_MAX + 2
    ensures Run(lim, st, s[..CHUNK_LINE_MAX + 1]).verdict == Refused(400)
  {
    NoLineYet(s, CHUNK_LINE_MAX + 1);
  }

  lemma NoLineYet(s: Octets, n: nat)
    requires FirstLine(s).Line? && n == |FirstLine(s).text| + 1
    ensures n <= |s| && FirstLine(s[..n]).NoLine?
  {
    var i := FindLf(s);
    assert i == n;
    assert s == s[..n] + s[n..];
    FindLfMore(s[..n], s[n..]);
  }

  lemma LineWithin(s: Octets, a: Octets)
    requires FirstLine(s).Line? && |FirstLine(s).text| + 2 <= |a| && a <= s
    ensures FirstLine(a) == FirstLine(s)
  {
    var b := s[|a|..];
    assert a + b == s;
    FindLfMore(a, b);
    var i := FindLf(s);
    assert a[..i - 1] == s[..i - 1];
  }

  predicate InsideBody(st: State, s: Octets) {
    (st.stage.Data? || st.stage.Length?) && st.left > |s|
  }

  /** When the body takes all the input nothing is decided behind it. */
  lemma BodyBeyond(lim: Limits, st: State, s: Octets)
    requires Move1(lim, st, s).Go?
    ensures InsideBody(st, s) ==>
              var r := Move1(lim, st, s);
              !Borderline(lim, r.next, s[r.consumed..]) && !Ambiguous(lim, r.next, s[r.consumed..])
  {
    if InsideBody(st, s) {
      assert s[Move1(lim, st, s).consumed..] == [];
    }
  }

  /** A move needs no more input than it consumed, unless it waits for more right after. */
  lemma SameMove(lim: Limits, st: State, s: Octets, a: Octets)
    requires Move1(lim, st, s).Go? && Move1(lim, st, s).consumed <= |a| && a <= s && !InsideBody(st, s)
    ensures Move1(lim, st, a) == Move1(lim, st, s)
  {
    hide Move1;
    if st.stage.Data? || st.stage.Length? {
      SameBodyMove(lim, st, s, a);
    } else {
      SameLineMove(lim, st, s, a);
    }
  }

  lemma SameLineMove(lim: Limits, st: State, s: Octets, a: Octets)
    requires !st.stage.Data? && !st.stage.Length? && a <= s
    requires Move1(lim, st, s).Go? && Move1(lim, st, s).consumed <= |a|
    ensures Move1(lim, st, a) == Move1(lim, st, s)
  {
    hide FirstLine, SizeOf;
    if st.stage.Size? || st.stage.Trailer? {
      LineWithin(s, a);
    }
  }

  lemma SameBodyMove(lim: Limits, st: State, s: Octets, a: Octets)
    requires (st.stage.Data? || st.stage.Length?) && st.left <= |s| && a <= s
    requires Move1(lim, st, s).Go? && Move1(lim, st, s).consumed <= |a|
    ensures Move1(lim, st, a) == Move1(lim, st, s)
  {
    assert a[..st.left] == s[..st.left];
  }

  /**
    An input is treated the same under every cut, up to the status of a refusal, exactly when it is
    refused in one piece or accepts no chunk-size line of 4096 octets.
   */
  lemma CutIndependence(lim: Limits, st: State, s: Octets)
    requires WithinCap(lim, st)
    ensures (forall a, b | a + b == s :: Agree(Resumed(lim, st, a, b), Run(lim, st, s))) <==>
            Run(lim, st, s).verdict.Refused? || !Borderline(lim, st, s)
  {
    hide Run, WithinCap, Move1, Borderline;
    if Borderline(lim, st, s) && !Run(lim, st, s).verdict.Refused? {
      var a, b := BorderlineCut(lim, st, s);
      assert a + b == s && !Agree(Resumed(lim, st, a, b), Run(lim, st, s));
    } else {
      forall a, b | a + b == s
        ensures Agree(Resumed(lim, st, a, b), Run(lim, st, s))
      {
        CutAgrees(lim, st, a, b);
      }
    }
  }

  // ------------------------------------------------------------ the status of a refusal

  /**
    The line that is refused would have been refused with another status before its LF arrived: a size
    line of 4096 octets over the body limit, or a trailer line over the header limit that ends in a bare LF.
   */
  predicate Ambiguous(lim: Limits, st: State, input: Octets)
    decreases |input| + if st.stage.Data? then 1 else 0
  {
    match Move1(lim, st, input)
    case Go(next, n) => Ambiguous(lim, next, input[n..])
    case Broken(status) =>
      || (st.stage.Size? && status == 413 && FindLf(input) == CHUNK_LINE_MAX + 1)
      || (st.stage.Trailer? && status == 400 && FindLf(input) > lim.maxHeader)
    case _ => false
  }

  lemma AmbiguousGo(lim: Limits, st: State, s: Octets)
    requires Move1(lim, st, s).Go?
    ensures var r := Move1(lim, st, s); Ambiguous(lim, st, s) == Ambiguous(lim, r.next, s[r.consumed..])
  {
    hide Move1;
  }

  /** A refusal keeps its status on longer input, but for the lines above. */
  lemma StatusStable(lim: Limits, st: State, a: Octets, b: Octets)
    requires WithinCap(lim, st) && Move1(lim, st, a).Broken?
    ensures var r, r' := Move1(lim, st, a), Move1(lim, st, a + b);
            || r' == r || Ambiguous(lim, st, a + b)
            || (r == Broken(400) && r'.Go? && st.stage.Size? && r'.consumed == CHUNK_LINE_MAX + 2)
  {
    MoveStable(lim, st, a, b);
    LineMore(a, b);
    FindLfMore(a, b);
    var i := FindLf(a + b);
    assert FirstLine(a + b).Line? ==> |FirstLine(a + b).text| == i - 1;
    hide SizeOf;
  }

  lemma VerdictGo(lim: Limits, st: State, a: Octets, b: Octets, n: nat)
    requires Move1(lim, st, a).Go? && Move1(lim, st, a + b) == Move1(lim, st, a)
             && n == Move1(lim, st, a).consumed <= |a|
    ensures var next := Move1(lim, st, a).next;
            && a[n..] + b == (a + b)[n..]
            && Resumed(lim, st, a, b) == Resumed(lim, next, a[n..], b)
            && Run(lim, st, a + b) == Run(lim, next, a[n..] + b)
            && (Borderline(lim, next, a[n..] + b) ==> Borderline(lim, st, a + b))
            && (Ambiguous(lim, next, a[n..] + b) ==> Ambiguous(lim, st, a + b))
  {
    assert (a + b)[n..] == a[n..] + b;
    RunGo(lim, st, a);
    RunGo(lim, st, a + b);
    AmbiguousGo(lim, st, a + b);
    hide Move1, Run, Borderline, Ambiguous;
  }

  lemma RunStops(lim: Limits, st: State, a: Octets, b: Octets)
    requires !Move1(lim, st, a).Go?
    ensures var r := Move1(lim, st, a);
            Resumed(lim, st, a, b) ==
            if r.Wait? then Run(lim, st, a + b)
            else if r.Finished? then Progress(r.next, a[r.consumed..] + b, Complete)
            else Progress(st, a + b, Refused(r.status))
  {
    hide Move1;
  }

  /** The verdict under one cut. */
  lemma {:induction false} VerdictCut(lim: Limits, st: State, a: Octets, b: Octets)
    requires WithinCap(lim, st)
    ensures || Resumed(lim, st, a, b).verdict == Run(lim, st, a + b).verdict
            || (Resumed(lim, st, a, b).verdict == Refused(400) && Borderline(lim, st, a + b))
            || Ambiguous(lim, st, a + b)
    decreases |a| + if st.stage.Data? then 1 else 0
  {
    hide FirstLine, SizeOf, Ambiguous, Borderline;
    MoveStable(lim, st, a, b);
    MoveKeepsCap(lim, st, a);
    var r, r' := Move1(lim, st, a), Move1(lim, st, a + b);
    if r.Go? {
      GoCases(lim, st, a, b);
      assert r.consumed > 0 || (st.stage.Data? && !r.next.stage.Data?);
      hide Move1, Run, WithinCap;
      if r' == r {
        VerdictGo(lim, st, a, b, r.consumed);
        VerdictCut(lim, r.next, a[r.consumed..], b);
      } else {
        BodyCut(lim, st, a, b);
      }
    } else {
      RunStops(lim, st, a, b);
      if r.Broken? {
        StatusStable(lim, st, a, b);
        if r'.Go? {
          RunGo(lim, st, a + b);
        }
      }
      hide Resumed;
    }
  }

  lemma NoLfBefore(s: Octets, n: nat)
    requires n <= FindLf(s)
    ensures FirstLine(s[..n]).NoLine?
  {
    assert s == s[..n] + s[n..];
    FindLfMore(s[..n], s[n..]);
  }

  /** In front of the LF of an ambiguous line the status is another. */
  lemma AmbiguousLine(lim: Limits, st: State, s: Octets) returns (n: nat)
    requires Move1(lim, st, s).Broken? && Ambiguous(lim, st, s)
    ensures n <= |s| && Run(lim, st, s[..n]).verdict.Refused? && Run(lim, st, s[..n]).verdict != Run(lim, st, s).verdict
  {
    n := if st.stage.Size? then CHUNK_LINE_MAX + 1 else lim.maxHeader + 1;
    NoLfBefore(s, n);
    hide SizeOf;
  }

  /** A cut in front of the LF of an ambiguous line gives the other status. */
  lemma {:induction false} AmbiguousCut(lim: Limits, st: State, s: Octets) returns (a: Octets, b: Octets)
    requires WithinCap(lim, st) && Ambiguous(lim, st, s)
    ensures a + b == s && Run(lim, st, a).verdict.Refused? && Run(lim, st, a).verdict != Run(lim, st, s).verdict
    decreases |s| + if st.stage.Data? then 1 else 0
  {
    var r := Move1(lim, st, s);
    assert r.Go? || r.Broken?;
    assert r.Go? ==> r.consumed > 0 || (st.stage.Data? && !r.next.stage.Data?);
    hide Move1, Run, Ambiguous, Borderline, WithinCap, FirstLine, SizeOf;
    var n := 0;
    if r.Go? {
      n := r.consumed;
      MoveKeepsCap(lim, st, s);
      AmbiguousGo(lim, st, s);
      BodyBeyond(lim, st, s);
      var a', b' := AmbiguousCut(lim, r.next, s[n..]);
      a, b := s[..n] + a', b';
      Reassembled(s, n, a', b');
      SameMove(lim, st, s, a);
      RunGo(lim, st, a);
      RunGo(lim, st, s);
    } else {
      n := AmbiguousLine(lim, st, s);
      a, b := s[..n], s[n..];
      assert a + b == s;
    }
  }

  /**
    The verdict itself, its status included, does not depend on the cut exactly when no size line of 4096
    octets is accepted, unless in an input refused with 400, and the line refused is not ambiguous.
   */
  lemma VerdictIndependence(lim: Limits, st: State, s: Octets)
    requires WithinCap(lim, st)
    ensures (forall a, b | a + b == s :: Resumed(lim, st, a, b).verdict == Run(lim, st, s).verdict) <==>
            (Run(lim, st, s).verdict == Refused(400) || !Borderline(lim, st, s)) && !Ambiguous(lim, st, s)
  {
    hide Run, WithinCap, Move1, Borderline, Ambiguous;
    if Ambiguous(lim, st, s) {
      var a, b := AmbiguousCut(lim, st, s);
      assert a + b == s && Resumed(lim, st, a, b).verdict != Run(lim, st, s).verdict;
    } else if Borderline(lim, st, s) && Run(lim, st, s).verdict != Refused(400) {
      var a, b := BorderlineCut(lim, st, s);
      assert a + b == s && Resumed(lim, st, a, b).verdict != Run(lim, st, s).verdict;
    } else {
      forall a, b | a + b == s
        ensures Resumed(lim, st, a, b).verdict == Run(lim, st, s).verdict
      {
        VerdictCut(lim, st, a, b);
      }
    }
  }

  /** Any number of pieces. */
  lemma {:induction false} PiecesAgree(lim: Limits, st: State, kept: Octets, pieces: seq<Octets>)
    requires WithinCap(lim, st) && !Borderline(lim, st, kept + Concat(pieces)) && pieces != []
    ensures Agree(FeedAll(lim, st, kept, pieces), Run(lim, st, kept + Concat(pieces)))
    decreases |pieces|
  {
    var a, b := kept + pieces[0], Concat(pieces[1..]);
    assert a + b == kept + Concat(pieces);
    CutAgrees(lim, st, a, b);
    RunKeepsCap(lim, st, a);
    var r := Run(lim, st, a);
    hide Run, WithinCap, Move1, Borderline;
    if pieces[1..] == [] {
      assert a + b == a && r.rest + [] == r.rest;
      assert FeedAll(lim, r.state, r.rest, []) == Progress(r.state, r.rest, More);
    } else if r.verdict.More? {
      PiecesAgree(lim, r.state, r.rest, pieces[1..]);
    }
  }
}
