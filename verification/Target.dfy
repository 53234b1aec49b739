/** Request targets (zhs_decode_target_ of src/http_util.c): split, percent-decode, normalise. */
module Target {
  import opened Bytes
  import opened Path

  const PERCENT: Byte := 37
  const QUERY: Byte := 63
  const STAR: Byte := 42

  predicate Printable(b: Byte) {
    b >= 0x20 && b != 0x7f
  }

  predicate AllPrintable(s: Octets) {
    forall i | 0 <= i < |s| :: Printable(s[i])
  }

  /** The first octet of a percent-encoded string and how much of the string it takes. */
  function FirstOctet(s: Octets): (r: Option<(Byte, nat)>)
    requires s != []
    ensures r.Some? ==> 1 <= r.value.1 <= |s| && Printable(r.value.0)
  {
    if s[0] == PERCENT then
      if |s| < 3 || HexValue(s[1]) < 0 || HexValue(s[2]) < 0 then None
      else
        var b := 16 * HexValue(s[1]) + HexValue(s[2]);
        if Printable(b) then Some((b, 3)) else None
    else if Printable(s[0]) then Some((s[0], 1))
    else None
  }

  function PctDecode(s: Octets): (r: Option<Octets>)
    ensures r.Some? ==> |r.value| <= |s|
    decreases |s|
  {
    if s == [] then Some([])
    else
      var first := FirstOctet(s);
      if first.None? then None
      else
        var rest := PctDecode(s[first.value.1..]);
        if rest.None? then None else Some([first.value.0] + rest.value)
  }

  method PercentDecode(s: Octets) returns (r: Option<Octets>)
    ensures r == PctDecode(s)
  {
    hide PctDecode, FirstOctet;
    var out: Octets := [];
    var i := 0;
    ghost var goal := PctDecode(s);
    assert s[0..] == s && (goal.Some? ==> [] + goal.value == goal.value);
    while i < |s|
      invariant i <= |s|
      invariant goal == var rest := PctDecode(s[i..]); if rest.None? then None else Some(out + rest.value)
    {
      DecodeTurn(s, i, out);
      var first := FirstOctet(s[i..]);
      if first.None? {
        return None;
      }
      out := out + [first.value.0];
      i := i + first.value.1;
    }
    DecodeEnd();
    assert s[i..] == [] && out + [] == out;
    return Some(out);
  }

  lemma DecodeEnd()
    ensures PctDecode([]) == Some([])
  {
  }

  lemma DecodeTurn(s: Octets, i: nat, out: Octets)
    requires i < |s|
    ensures var first := FirstOctet(s[i..]);
            var rest := PctDecode(s[i..]);
            if first.None? then rest.None?
            else
              var tail := PctDecode(s[i + first.value.1..]);
              if tail.None? then rest.None?
              else rest.Some? && out + rest.value == (out + [first.value.0]) + tail.value
  {
    hide FirstOctet;
    var t := s[i..];
    var first := FirstOctet(t);
    if first.Some? {
      assert t[first.value.1..] == s[i + first.value.1..];
    }
  }

  // ------------------------------------------------------------ spelling

  function Digit(d: nat): Byte
    requires d < 16
  {
    if d < 10 then 48 + d else 55 + d
  }

  /** A string with some of its octets escaped. */
  function Spell(s: Octets, escaped: seq<bool>): Octets
    requires |escaped| == |s|
  {
    if s == [] then []
    else (if escaped[0] then [PERCENT, Digit(s[0] / 16), Digit(s[0] % 16)] else [s[0]]) + Spell(s[1..], escaped[1..])
  }

  /** Whatever is escaped, decoding gives the string back, unless it holds a control octet. */
  lemma {:induction false} SpellingDecodes(s: Octets, escaped: seq<bool>)
    requires |escaped| == |s| && forall i | 0 <= i < |s| && s[i] == PERCENT :: escaped[i]
    ensures PctDecode(Spell(s, escaped)) == if AllPrintable(s) then Some(s) else None
  {
    if s != [] {
      var w, rest := Spell(s, escaped), Spell(s[1..], escaped[1..]);
      SpellingDecodes(s[1..], escaped[1..]);
      assert s == [s[0]] + s[1..];
      assert AllPrintable(s) <==> Printable(s[0]) && AllPrintable(s[1..]);
      if escaped[0] {
        assert w[3..] == rest;
        assert 16 * (s[0] / 16) + s[0] % 16 == s[0];
      } else {
        assert w[1..] == rest;
      }
    }
  }

  lemma {:induction false} DecodedIsPrintable(s: Octets)
    requires PctDecode(s).Some?
    ensures AllPrintable(PctDecode(s).value)
    decreases |s|
  {
    if s != [] {
      hide FirstOctet;
      DecodedIsPrintable(s[FirstOctet(s).value.1..]);
    }
  }

  // ------------------------------------------------------------ the whole target

  function FindQuery(s: Octets, from: nat): (i: nat)
    requires from <= |s|
    ensures from <= i <= |s|
    decreases |s| - from
  {
    if from == |s| || s[from] == QUERY then from else FindQuery(s, from + 1)
  }

  /** A query may hold tabs but no other control octets. */
  predicate QueryOk(q: Octets) {
    forall i | 0 <= i < |q| :: Printable(q[i]) || q[i] == 9
  }

  datatype Decoded = Decoded(path: Octets, query: Option<Octets>)

  function DecodeTarget(raw: Octets, maxUrl: nat): Option<Decoded> {
    if raw == [] || |raw| > maxUrl then None
    else if raw == [STAR] then Some(Decoded([STAR], None))
    else if raw[0] != SLASH then None
    else
      var q := FindQuery(raw, 0);
      var path := PctDecode(raw[..q]);
      if path.None? || !Rooted(path.value) || Normalised(path.value).None? then None
      else if q == |raw| then Some(Decoded(Normalised(path.value).value, None))
      else if QueryOk(raw[q + 1..]) then Some(Decoded(Normalised(path.value).value, Some(raw[q + 1..])))
      else None
  }

  /** A target that starts with a slash decodes to a rooted path. */
  lemma SlashStays(s: Octets)
    requires s != [] && s[0] == SLASH && PctDecode(s).Some?
    ensures Rooted(PctDecode(s).value)
  {
  }

  lemma {:induction false} SegmentsPrintable(s: Octets)
    requires (s == [] || Rooted(s)) && AllPrintable(s)
    ensures forall k | 0 <= k < |Segments(s)| :: AllPrintable(Segments(s)[k])
    decreases |s|
  {
    if s != [] {
      SegmentsPrintable(s[SegmentEnd(s, 1)..]);
    }
  }

  lemma {:induction false} FoldPrintable(stack: seq<Octets>, segments: seq<Octets>)
    requires (forall k | 0 <= k < |stack| :: AllPrintable(stack[k])) && Fold(stack, segments).Some?
    requires forall k | 0 <= k < |segments| :: AllPrintable(segments[k])
    ensures forall k | 0 <= k < |Fold(stack, segments).value| :: AllPrintable(Fold(stack, segments).value[k])
    decreases |segments|
  {
    if segments != [] {
      FoldPrintable(Apply(stack, segments[0]).value, segments[1..]);
    }
  }

  lemma {:induction false} JoinPrintable(segments: seq<Octets>)
    requires forall k | 0 <= k < |segments| :: AllPrintable(segments[k])
    ensures AllPrintable(Join(segments))
  {
    if segments != [] {
      JoinPrintable(segments[..|segments| - 1]);
    }
  }

  /**
    Whatever octets a client sends as target, the path handed on is "*" or rooted, holds no
    control octet and no "." or ".." segment, however they were escaped, and is no longer than
    the target.
   */
  lemma TargetIsSafe(raw: Octets, maxUrl: nat)
    requires DecodeTarget(raw, maxUrl).Some?
    ensures var p := DecodeTarget(raw, maxUrl).value.path;
            || p == [STAR]
            || (Rooted(p) && AllPrintable(p) && AllClean(Segments(p)) && |p| <= |raw| <= maxUrl)
  {
    if raw != [STAR] {
      var s := PctDecode(raw[..FindQuery(raw, 0)]).value;
      DecodedIsPrintable(raw[..FindQuery(raw, 0)]);
      NormalisedIsClean(s);
      SegmentsPrintable(s);
      FoldPrintable([], Segments(s));
      JoinPrintable(Fold([], Segments(s)).value);
    }
  }

  method ReadTarget(raw: Octets, maxUrl: nat) returns (r: Option<Decoded>)
    ensures r == DecodeTarget(raw, maxUrl)
  {
    hide PctDecode, Normalised, FindQuery;
    if |raw| == 0 || |raw| > maxUrl {
      return None;
    }
    if |raw| == 1 && raw[0] == STAR {
      return Some(Decoded([STAR], None));
    }
    if raw[0] != SLASH {
      return None;
    }
    var q := 0;
    while q < |raw| && raw[q] != QUERY
      invariant q <= |raw| && FindQuery(raw, 0) == FindQuery(raw, q)
    {
      QueryTurn(raw, q);
      q := q + 1;
    }
    QueryTurn(raw, q);
    assert q > 0;
    var path := PercentDecode(raw[..q]);
    if path.None? {
      return None;
    }
    SlashStays(raw[..q]);
    var buffer := new Byte[|path.value|](i requires 0 <= i < |path.value| => path.value[i]);
    assert buffer[..] == path.value;
    var n := RemoveDotSegments(buffer);
    if n.None? {
      return None;
    }
    if q == |raw| {
      return Some(Decoded(buffer[..n.value], None));
    }
    var query := raw[q + 1..];
    for i := 0 to |query|
      invariant forall k | 0 <= k < i :: Printable(query[k]) || query[k] == 9
    {
      if !(Printable(query[i]) || query[i] == 9) {
        return None;
      }
    }
    return Some(Decoded(buffer[..n.value], Some(query)));
  }

  lemma QueryTurn(s: Octets, i: nat)
    requires i <= |s|
    ensures FindQuery(s, i) == if i == |s| || s[i] == QUERY then i else FindQuery(s, i + 1)
  {
  }

  // ------------------------------------------------------------ digits and query

  const LOWER_HEX: string := "0123456789abcdef"
  const UPPER_HEX: string := "0123456789ABCDEF"

  /** Hexadecimal digits in either case, and nothing else. */
  lemma HexDigits(b: Byte, d: nat)
    requires d < 16
    ensures HexValue(b) == d <==> b == LOWER_HEX[d] as int || b == UPPER_HEX[d] as int
    ensures HexValue(b) < 0 ==> forall k | 0 <= k < 16 :: b != LOWER_HEX[k] as int && b != UPPER_HEX[k] as int
  {
    assert forall k | 0 <= k < 16 :: LOWER_HEX[k] as int == if k < 10 then 48 + k else 87 + k;
    assert forall k | 0 <= k < 16 :: UPPER_HEX[k] as int == if k < 10 then 48 + k else 55 + k;
  }

  lemma {:induction false} QueryStands(s: Octets, path: Octets, query: Octets, i: nat)
    requires i <= |path| && QUERY !in path && s == path + [QUERY] + query
    ensures FindQuery(s, i) == |path|
    decreases |path| - i
  {
    if i < |path| {
      assert s[i] == path[i];
      QueryStands(s, path, query, i + 1);
    }
  }

  lemma {:induction false} NoQuery(s: Octets, i: nat)
    requires i <= |s| && QUERY !in s
    ensures FindQuery(s, i) == |s|
    decreases |s| - i
  {
    if i < |s| {
      NoQuery(s, i + 1);
    }
  }

  /**
    The first "?" ends the path, and the query is what follows it, unchanged; it may hold further question
    marks. A target without "?" has no query, and one with a control octet but tab in its query is refused.
   */
  lemma QueryKept(path: Octets, query: Octets, maxUrl: nat)
    requires path != [] && path[0] == SLASH && QUERY !in path && |path| + 1 + |query| <= maxUrl
    ensures var alone := DecodeTarget(path, maxUrl);
            && (alone.Some? ==> alone.value.query == None)
            && DecodeTarget(path + [QUERY] + query, maxUrl) ==
               if alone.None? || exists i | 0 <= i < |query| :: (query[i] < 32 && query[i] != 9) || query[i] == 127
                 then None
               else Some(Decoded(alone.value.path, Some(query)))
  {
    var raw := path + [QUERY] + query;
    QueryStands(raw, path, query, 0);
    NoQuery(path, 0);
    assert raw[..|path|] == path && raw[|path| + 1..] == query && path[..|path|] == path;
    hide PctDecode, Normalised, FindQuery;
  }
}
