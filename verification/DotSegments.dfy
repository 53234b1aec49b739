/**
  Section 5.2.4 of RFC 3986, octet by octet, and where the path normalisation of src/http_util.c
  departs from it.
 */
module DotSegments {
  import opened Bytes
  import opened Path

  /** Step 2C removes the last segment of the output and the slash before it, if any. */
  function DropSegment(output: Octets): Octets {
    if output == [] then []
    else if output[|output| - 1] == SLASH then output[..|output| - 1]
    else DropSegment(output[..|output| - 1])
  }

  /** The loop of section 5.2.4, steps 2A to 2E, for any input; an empty output is dropped from silently. */
  function RemoveDots(input: Octets, output: Octets): Octets
    decreases |input|
  {
    if input == [] then output
    else if DOTDOT + [SLASH] <= input then RemoveDots(input[3..], output)
    else if DOT + [SLASH] <= input then RemoveDots(input[2..], output)
    else if [SLASH] + DOT + [SLASH] <= input then RemoveDots(input[2..], output)
    else if input == [SLASH] + DOT then RemoveDots([SLASH], output)
    else if [SLASH] + DOTDOT + [SLASH] <= input then RemoveDots(input[3..], DropSegment(output))
    else if input == [SLASH] + DOTDOT then RemoveDots([SLASH], DropSegment(output))
    else if input == DOT || input == DOTDOT then output
    else var e := SegmentEnd(input, 1); RemoveDots(input[e..], output + input[..e])
  }

  function Pop(stack: seq<Octets>): seq<Octets> {
    if stack == [] then [] else stack[..|stack| - 1]
  }

  function Place(stack: seq<Octets>, segment: Octets): seq<Octets> {
    if segment == DOT then stack else if segment == DOTDOT then Pop(stack) else stack + [segment]
  }

  predicate IsDots(segment: Octets) {
    segment == DOT || segment == DOTDOT
  }

  /** The same on segments: a final dot segment leaves an empty one. */
  function Merge(stack: seq<Octets>, segments: seq<Octets>): seq<Octets>
    decreases |segments|
  {
    if segments == [] then stack
    else
      var stack' := Place(stack, segments[0]);
      if |segments| == 1 && IsDots(segments[0]) then stack' + [[]] else Merge(stack', segments[1..])
  }

  ghost predicate Plain(stack: seq<Octets>) {
    forall k | 0 <= k < |stack| :: SLASH !in stack[k]
  }

  lemma {:induction false} DropsTail(output: Octets, segment: Octets)
    requires SLASH !in segment
    ensures DropSegment(output + [SLASH] + segment) == output
    decreases |segment|
  {
    var all := output + [SLASH] + segment;
    if segment == [] {
      assert all[..|all| - 1] == output;
    } else {
      var init := segment[..|segment| - 1];
      assert all[..|all| - 1] == output + [SLASH] + init && all[|all| - 1] == segment[|segment| - 1];
      DropsTail(output, init);
    }
  }

  lemma DropsLast(stack: seq<Octets>)
    requires Plain(stack)
    ensures DropSegment(Join(stack)) == Join(Pop(stack)) && Plain(Pop(stack))
  {
    if stack != [] {
      DropsTail(Join(Pop(stack)), stack[|stack| - 1]);
    }
  }

  /** One step on a rooted input. */
  lemma DotsTurn(s: Octets, output: Octets)
    requires Rooted(s)
    ensures var e := SegmentEnd(s, 1);
            var segment := s[1..e];
            RemoveDots(s, output) ==
            if segment == DOT then RemoveDots(if e < |s| then s[e..] else [SLASH], output)
            else if segment == DOTDOT then RemoveDots(if e < |s| then s[e..] else [SLASH], DropSegment(output))
            else RemoveDots(s[e..], output + s[..e])
  {
    var e := SegmentEnd(s, 1);
    hide DropSegment;
    SegmentIs(s, 0, e);
    if [SLASH] + DOT + [SLASH] <= s || s == [SLASH] + DOT {
      EndIs(s, 1, 2);
    } else if [SLASH] + DOTDOT + [SLASH] <= s || s == [SLASH] + DOTDOT {
      EndIs(s, 1, 3);
    }
  }

  lemma DotsAtEnd(output: Octets)
    ensures RemoveDots([SLASH], output) == output + [SLASH] && RemoveDots([], output) == output
  {
    var s: Octets := [SLASH];
    assert s[..1] == s && s[1..] == [];
    DotsTurn(s, output);
  }

  /** One segment more or less on the output. */
  lemma Placed(stack: seq<Octets>, segment: Octets)
    requires Plain(stack) && SLASH !in segment
    ensures Plain(Place(stack, segment))
    ensures Join(Place(stack, segment)) ==
            if segment == DOT then Join(stack) else if segment == DOTDOT then DropSegment(Join(stack))
            else Join(stack) + ([SLASH] + segment)
  {
    hide DropSegment, Join;
    DropsLast(stack);
    JoinSnoc(stack, segment);
    assert Join(stack) + ([SLASH] + segment) == Join(stack) + [SLASH] + segment;
  }

  lemma MergeTurn(stack: seq<Octets>, segment: Octets, rest: seq<Octets>)
    ensures Merge(stack, [segment] + rest) ==
            if rest == [] && IsDots(segment) then Place(stack, segment) + [[]] else Merge(Place(stack, segment), rest)
  {
    assert ([segment] + rest)[1..] == rest;
  }

  lemma SegmentsStep(s: Octets)
    requires Rooted(s)
    ensures var e := SegmentEnd(s, 1);
            && Segments(s) == [s[1..e]] + Segments(s[e..]) && s[..e] == [SLASH] + s[1..e] && SLASH !in s[1..e]
            && (s[e..] == [] || Rooted(s[e..])) && (Segments(s[e..]) == [] <==> e == |s|)
  {
  }

  /** The loop on octets is the merge of segments. */
  lemma {:induction false} DotsAreMerge(s: Octets, stack: seq<Octets>)
    requires (s == [] || Rooted(s)) && Plain(stack)
    ensures RemoveDots(s, Join(stack)) == Join(Merge(stack, Segments(s)))
    decreases |s|
  {
    hide RemoveDots, DropSegment, Join, SegmentEnd, Segments, Plain, Place, Merge;
    NoSegments();
    if s == [] {
      DotsAtEnd(Join(stack));
      MergeNothing(stack);
    } else {
      var e := SegmentEnd(s, 1);
      var segment, rest := s[1..e], s[e..];
      var stack' := Place(stack, segment);
      SegmentsStep(s);
      DotsTurn(s, Join(stack));
      Placed(stack, segment);
      MergeTurn(stack, segment, Segments(rest));
      if e == |s| && IsDots(segment) {
        DotsAtEnd(Join(stack'));
        JoinSnoc(stack', []);
        assert Join(stack') + [SLASH] + [] == Join(stack') + [SLASH];
      } else {
        DotsAreMerge(rest, stack');
      }
    }
  }

  lemma MergeNothing(stack: seq<Octets>)
    ensures Merge(stack, []) == stack
  {
  }

  lemma NoSegments()
    ensures Segments([]) == []
  {
  }

  predicate DotEnd(segments: seq<Octets>) {
    segments != [] && IsDots(segments[|segments| - 1])
  }

  /** While nothing is popped from an empty stack, merging is folding, but for the final dot segment. */
  lemma {:induction false} MergeIsFold(stack: seq<Octets>, segments: seq<Octets>)
    requires Fold(stack, segments).Some?
    ensures Merge(stack, segments) == Fold(stack, segments).value + if DotEnd(segments) then [[]] else []
    decreases |segments|
  {
    if segments == [] {
      assert stack + [] == stack;
    } else {
      var stack' := Apply(stack, segments[0]).value;
      if |segments| == 1 {
        assert segments[1..] == [] && stack' + [] == stack';
      } else {
        assert segments[1..][|segments| - 2] == segments[|segments| - 1];
      }
      MergeIsFold(stack', segments[1..]);
    }
  }

  lemma OrdinaryEnd(g: seq<Octets>)
    requires g != [] && !DotEnd(g) && Fold([], g).Some?
    ensures Fold([], g).value != []
  {
    var init, last := g[..|g| - 1], g[|g| - 1];
    assert g == init + [last];
    FoldSnoc([], init, last);
  }

  /** Where the code normalises a path, section 5.2.4 has one more slash after a final dot segment below the root. */
  lemma AgainstRfc(s: Octets)
    requires Rooted(s) && Normalised(s).Some?
    ensures RemoveDots(s, []) ==
            if DotEnd(Segments(s)) && Depth(Segments(s)) > 0 then Normalised(s).value + [SLASH] else Normalised(s).value
  {
    var g := Segments(s);
    assert g != [];
    JoinNothing();
    hide RemoveDots, Depth, Segments, Join, Fold, Merge;
    var stack := Fold([], g).value;
    DotsAreMerge(s, []);
    MergeIsFold([], g);
    FailsAboveRoot(g);
    JoinSnoc(stack, []);
    if DotEnd(g) {
      assert Join(stack) + [SLASH] + [] == Join(stack) + [SLASH];
    } else {
      OrdinaryEnd(g);
      assert stack + [] == stack;
    }
  }

  /**
    The code computes what section 5.2.4 of RFC 3986 asks for if and only if the path never climbs
    above the root and does not end in a dot segment below it.
   */
  lemma AgreesWithRfc(s: Octets)
    requires Rooted(s)
    ensures var g := Segments(s);
            Normalised(s) == Some(RemoveDots(s, [])) <==>
            && (forall k | 0 <= k <= |g| :: Depth(g[..k]) >= 0)
            && (DotEnd(g) ==> Depth(g) == 0)
  {
    var g := Segments(s);
    FailsAboveRoot(g);
    assert g[..|g|] == g;
    assert Normalised(s).Some? == Fold([], g).Some?;
    hide RemoveDots, Depth, Segments, Join, Fold;
    if Normalised(s).Some? {
      AgainstRfc(s);
      assert Depth(g) >= 0;
    }
  }

  /** For "/a/." the code answers "/a" and section 5.2.4 "/a/". */
  lemma FinalDot()
    ensures var s: Octets := [SLASH, 97, SLASH, 46];
            Normalised(s) == Some([SLASH, 97]) && RemoveDots(s, []) == [SLASH, 97, SLASH]
  {
    var s: Octets := [SLASH, 97, SLASH, 46];
    var a: seq<Octets> := [[97]];
    EndIs(s, 1, 2);
    var t := s[2..];
    EndIs(t, 1, 2);
    assert t[2..] == [] && t[1..2] == DOT && s[1..2] == [97];
    assert Segments(t) == [DOT] + Segments([]) == [DOT];
    assert Segments(s) == [[97]] + Segments(t) == a + [DOT];
    FoldSnoc([], a, DOT);
    FoldClean([], a);
    assert [] + a == a;
    assert Fold([], Segments(s)) == Some(a);
    JoinSnoc([], [97]);
    assert [] + [[97]] == a;
    assert Join(a) == [SLASH, 97];
    FailsAboveRoot(Segments(s));
    hide RemoveDots;
    AgainstRfc(s);
  }
}
