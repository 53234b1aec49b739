/** The resumable body reader of src/h1.c as an object, and its Content-Length parser. */
module H1Reader {
  import opened Bytes
  import opened H1Body
  import H1Codec

  // ------------------------------------------------------------ a line on the boundary

  function Fill(n: nat): (r: Octets)
    ensures |r| == n && forall k | 0 <= k < n :: r[k] == 120
  {
    if n == 0 then [] else Fill(n - 1) + [120]
  }

  /** Size 1 with an extension that makes the line exactly 4096 octets. */
  function BoundaryLine(): (r: Octets)
    ensures |r| == CHUNK_LINE_MAX
  {
    [49, SEMICOLON] + Fill(CHUNK_LINE_MAX - 2)
  }

  /** Such an input is accepted in one piece and refused when cut before the LF of the line. */
  lemma BoundaryInput(lim: Limits) returns (a: Octets, b: Octets)
    requires lim.maxBody >= 1
    ensures !Run(lim, StartChunked, a + b).verdict.Refused? && Resumed(lim, StartChunked, a, b).verdict.Refused?
  {
    var line := BoundaryLine();
    var s := line + H1Codec.CRLF + [];
    BoundarySize();
    H1Codec.LineReads(line, []);
    hide FirstLine, SizeOf, BoundaryLine;
    assert Move1(lim, StartChunked, s) == Go(StartChunked.(stage := Data, left := 1), |line| + 2);
    assert s[|line| + 2..] == [];
    assert Move1(lim, StartChunked.(stage := Data, left := 1), []) == Wait;
    hide Move1;
    a, b := BorderlineCut(lim, StartChunked, s);
  }

  lemma BoundarySize()
    ensures SizeOf(BoundaryLine()) == Some(1) && LF !in BoundaryLine()
  {
    hide Fill;
    var line := BoundaryLine();
    assert line[1..][0] == SEMICOLON;
    assert Digits(line[1..]) == 0;
    assert Digits(line) == 1;
    assert line[..1] == [49];
    assert Number([49]) == 1 by {
      assert [49][..0] == [];
    }
  }

  // ------------------------------------------------------------ numbers

  lemma {:induction false} DigitsAre(line: Octets, n: nat)
    requires n <= |line| && (forall k | 0 <= k < n :: HexValue(line[k]) >= 0) && (n < |line| ==> HexValue(line[n]) < 0)
    ensures Digits(line) == n
  {
    if n > 0 {
      DigitsAre(line[1..], n - 1);
    }
  }

  lemma NumberSnoc(digits: Octets, b: Byte)
    requires HexValue(b) >= 0
    ensures Number(digits + [b]) == 16 * Number(digits) + HexValue(b)
  {
    assert (digits + [b])[..|digits|] == digits;
  }

  /** More digits never make a number smaller. */
  lemma {:induction false} NumberGrows(digits: Octets, n: nat)
    requires n <= |digits|
    ensures Number(digits[..n]) <= Number(digits)
  {
    if n == |digits| {
      assert digits[..n] == digits;
    } else {
      assert digits[..|digits| - 1][..n] == digits[..n];
      NumberGrows(digits[..|digits| - 1], n);
    }
  }

  /** The size of a chunk line, refusing what does not fit 64 bits before it overflows. */
  method ParseSize(line: Octets) returns (r: Option<nat>)
    ensures r == SizeOf(line)
  {
    hide Number, Digits;
    var size, i := 0, 0;
    ghost var n := Digits(line);
    assert Number(line[..0]) == 0 by {
      NumberEmpty();
    }
    while i < |line| && HexValue(line[i]) >= 0
      invariant i <= n && size == Number(line[..i]) <= UINT64_MAX
      invariant forall k | 0 <= k < i :: HexValue(line[k]) >= 0
    {
      assert line[..i + 1] == line[..i] + [line[i]];
      NumberSnoc(line[..i], line[i]);
      assert line[..n][..i + 1] == line[..i + 1];
      NumberGrows(line[..n], i + 1);
      if size > UINT64_MAX / 16 {
        return None;
      }
      size := 16 * size + HexValue(line[i]);
      i := i + 1;
    }
    DigitsAre(line, i);
    if i == 0 || (i < |line| && line[i] != SEMICOLON) {
      return None;
    }
    return Some(size);
  }

  lemma NumberEmpty()
    ensures Number([]) == 0
  {
  }

  // ------------------------------------------------------------ Content-Length

  function Decimal(digits: Octets): nat {
    if digits == [] then 0
    else 10 * Decimal(digits[..|digits| - 1]) + if digits[|digits| - 1] >= 48 then digits[|digits| - 1] - 48 else 0
  }

  predicate IsDigit(b: Byte) {
    48 <= b <= 57
  }

  /** Largest value the overflow guard lets through: the last six values of 64 bits are refused. */
  const LENGTH_MAX: nat := 18446744073709551609

  lemma DecimalSnoc(digits: Octets, b: Byte)
    requires IsDigit(b)
    ensures Decimal(digits + [b]) == 10 * Decimal(digits) + (b - 48)
  {
    assert (digits + [b])[..|digits|] == digits;
  }

  lemma {:induction false} DecimalGrows(digits: Octets, n: nat)
    requires n <= |digits|
    ensures Decimal(digits[..n]) <= Decimal(digits)
  {
    if n == |digits| {
      assert digits[..n] == digits;
    } else {
      assert digits[..|digits| - 1][..n] == digits[..n];
      DecimalGrows(digits[..|digits| - 1], n);
    }
  }

  datatype LengthResult = Accepted(n: nat) | BadLength(status: nat)

  /**
    The Content-Length of a request from the values of all its occurrences. A length is accepted
    exactly when there is one occurrence, of digits only, whose value is within the body limit and
    below the guard's bound; a value of digits only that is too large is a 413.
   */
  method ContentLength(values: seq<Octets>, maxBody: nat) returns (r: LengthResult)
    ensures r.Accepted? <==>
            && |values| == 1 && values[0] != [] && (forall b | b in values[0] :: IsDigit(b))
            && Decimal(values[0]) <= Min(maxBody, LENGTH_MAX)
    ensures r.Accepted? ==> r.n == Decimal(values[0])
    ensures r.BadLength? ==>
              r.status == 400 || (r.status == 413 && |values| == 1 && Decimal(values[0]) > Min(maxBody, LENGTH_MAX))
    ensures |values| == 1 && values[0] != [] && (forall b | b in values[0] :: IsDigit(b)) && r.BadLength? ==>
            r.status == 413
  {
    hide Decimal;
    if |values| != 1 || values[0] == [] {
      return BadLength(400);
    }
    var s := values[0];
    var v := 0;
    assert Decimal(s[..0]) == 0 by {
      DecimalEmpty();
    }
    for i := 0 to |s|
      invariant v == Decimal(s[..i]) && forall k | 0 <= k < i :: IsDigit(s[k])
      invariant v <= LENGTH_MAX
    {
      if !IsDigit(s[i]) {
        assert s[i] in s;
        return BadLength(400);
      }
      assert s[..i + 1] == s[..i] + [s[i]];
      DecimalSnoc(s[..i], s[i]);
      DecimalGrows(s, i + 1);
      if v > (UINT64_MAX - 9) / 10 {
        return BadLength(413);
      }
      v := v * 10 + (s[i] - 48);
    }
    assert s[..|s|] == s;
    if v > maxBody {
      return BadLength(413);
    }
    return Accepted(v);
  }

  lemma DecimalEmpty()
    ensures Decimal([]) == 0
  {
  }

  // ------------------------------------------------------------ the reader

  lemma {:induction false} LfIsAt(s: Octets, i: nat)
    requires i <= |s| && (forall k | 0 <= k < i :: s[k] != LF) && (i < |s| ==> s[i] == LF)
    ensures FindLf(s) == i
  {
  }

  method FindLine(input: Octets) returns (r: Line)
    ensures r == FirstLine(input)
  {
    hide FindLf;
    var i := 0;
    while i < |input| && input[i] != LF
      invariant i <= |input| && forall k | 0 <= k < i :: input[k] != LF
    {
      i := i + 1;
    }
    LfIsAt(input, i);
    if i == |input| {
      return NoLine;
    }
    if i == 0 || input[i - 1] != CR {
      return BareLf;
    }
    return Line(input[..i - 1]);
  }

  lemma RunTurn(lim: Limits, st: State, input: Octets)
    ensures var m := Move1(lim, st, input);
            Run(lim, st, input) ==
            if m.Wait? then Progress(st, input, More)
            else if m.Go? then Run(lim, m.next, input[m.consumed..])
            else if m.Finished? then Progress(m.next, input[m.consumed..], Complete)
            else Progress(st, input, Refused(m.status))
  {
    hide Move1;
  }

  /** Every move brings the end nearer. */
  lemma Shrinks(lim: Limits, st: State, input: Octets)
    ensures var m := Move1(lim, st, input);
            m.Go? ==>
              |input| - m.consumed + (if m.next.stage.Data? then 1 else 0) < |input| + if st.stage.Data? then 1 else 0
  {
    hide FirstLine, SizeOf;
  }

  class Reader {
    const lim: Limits
    var stage: Stage
    var left: nat
    var headBytes: nat
    var body: Octets

    ghost function Snapshot(): State
      reads this
    {
      State(stage, left, headBytes, body)
    }

    constructor (lim: Limits, start: State)
      ensures this.lim == lim && Snapshot() == start
    {
      this.lim := lim;
      stage, left, headBytes, body := start.stage, start.left, start.headBytes, start.body;
    }

    /** Body octets from the front of the input. */
    method Take(input: Octets) returns (n: nat)
      modifies this`body, this`left
      ensures n == Min(|input|, old(left)) && Snapshot() == TakeData(old(Snapshot()), input)
    {
      n := if |input| < left then |input| else left;
      body := body + input[..n];
      left := left - n;
    }

    method ReadSize(input: Octets) returns (m: Move)
      requires stage.Size?
      modifies this`stage, this`left
      ensures m == Move1(lim, old(Snapshot()), input)
      ensures Snapshot() == if m.Go? then m.next else old(Snapshot())
    {
      hide FirstLine, SizeOf;
      var line := FindLine(input);
      if line.NoLine? {
        return if |input| > CHUNK_LINE_MAX then Broken(400) else Wait;
      }
      if line.BareLf? || |line.text| > CHUNK_LINE_MAX {
        return Broken(400);
      }
      var size := ParseSize(line.text);
      if size.None? {
        return Broken(400);
      }
      if size.value == 0 {
        stage := Trailer;
      } else if size.value > lim.maxBody - |body| {
        return Broken(413);
      } else {
        left := size.value;
        stage := Data;
      }
      return Go(State(stage, left, headBytes, body), |line.text| + 2);
    }

    method ReadTrailer(input: Octets) returns (m: Move)
      requires stage.Trailer?
      modifies this`headBytes
      ensures m == Move1(lim, old(Snapshot()), input)
      ensures Snapshot() == if m.Go? || m.Finished? then m.next else old(Snapshot())
    {
      hide FirstLine;
      var line := FindLine(input);
      if line.NoLine? {
        return if |input| > lim.maxHeader then Broken(431) else Wait;
      }
      if line.BareLf? {
        return Broken(400);
      }
      var n := |line.text| + 2;
      if n > lim.maxHeader - headBytes {
        return Broken(431);
      }
      headBytes := headBytes + n;
      var st := State(stage, left, headBytes, body);
      return if line.text == [] then Finished(st, n) else Go(st, n);
    }

    method Advance(input: Octets) returns (m: Move)
      modifies this
      ensures m == Move1(lim, old(Snapshot()), input)
      ensures Snapshot() == if m.Go? || m.Finished? then m.next else old(Snapshot())
    {
      hide FirstLine, SizeOf;
      match stage {
        case Length =>
          if left == 0 {
            return Finished(State(stage, left, headBytes, body), 0);
          } else if input == [] {
            return Wait;
          }
          var n := Take(input);
          return Go(State(stage, left, headBytes, body), n);
        case Size => m := ReadSize(input);
        case Data =>
          var n := 0;
          if left > 0 {
            if input == [] {
              return Wait;
            }
            n := Take(input);
          }
          if left == 0 {
            stage := Crlf;
          }
          return Go(State(stage, left, headBytes, body), n);
        case Crlf =>
          if |input| < 2 {
            return Wait;
          }
          if input[0] != CR || input[1] != LF {
            return Broken(400);
          }
          stage := Size;
          return Go(State(stage, left, headBytes, body), 2);
        case Trailer => m := ReadTrailer(input);
      }
    }

    /** Reads as much of the body as the input holds. */
    method Feed(input: Octets) returns (rest: Octets, verdict: Verdict)
      modifies this
      ensures Progress(Snapshot(), rest, verdict) == Run(lim, old(Snapshot()), input)
    {
      hide Move1, Run;
      ghost var goal := Run(lim, Snapshot(), input);
      rest := input;
      while true
        invariant goal == Run(lim, Snapshot(), rest)
        decreases |rest| + if stage.Data? then 1 else 0
      {
        RunTurn(lim, Snapshot(), rest);
        Shrinks(lim, Snapshot(), rest);
        var m := Advance(rest);
        match m {
          case Wait => return rest, More;
          case Go(_, n) => rest := rest[n..];
          case Finished(_, n) => return rest[n..], Complete;
          case Broken(status) => return rest, Refused(status);
        }
      }
    }
  }
}
