/**
  Path normalisation of src/http_util.c: the in-place removal of dot segments is a fold over
  the segments of the path with a stack. DotSegments compares it with section 5.2.4 of RFC 3986.
 */
module Path {
  import opened Bytes

  const SLASH: Byte := 47
  const DOT: Octets := [46]
  const DOTDOT: Octets := [46, 46]

  /** End of the segment that starts at `from`: the next slash or the end of the path. */
  function SegmentEnd(s: Octets, from: nat): (e: nat)
    requires from <= |s|
    ensures from <= e <= |s|
    ensures (forall k | from <= k < e :: s[k] != SLASH) && (e < |s| ==> s[e] == SLASH)
    decreases |s| - from
  {
    if from == |s| || s[from] == SLASH then from else SegmentEnd(s, from + 1)
  }

  predicate Rooted(s: Octets) {
    s != [] && s[0] == SLASH
  }

  /** The segments of a path; each is led by a slash. */
  function Segments(s: Octets): seq<Octets>
    requires s == [] || Rooted(s)
    decreases |s|
  {
    if s == [] then []
    else var e := SegmentEnd(s, 1); [s[1..e]] + Segments(s[e..])
  }

  function Join(segments: seq<Octets>): Octets {
    if segments == [] then [] else Join(segments[..|segments| - 1]) + [SLASH] + segments[|segments| - 1]
  }

  /** One segment on the stack: skip, pop or push; popping an empty stack fails. */
  function Apply(stack: seq<Octets>, segment: Octets): Option<seq<Octets>> {
    if segment == DOT then Some(stack)
    else if segment == DOTDOT then if stack == [] then None else Some(stack[..|stack| - 1])
    else Some(stack + [segment])
  }

  function Fold(stack: seq<Octets>, segments: seq<Octets>): Option<seq<Octets>>
    decreases |segments|
  {
    if segments == [] then Some(stack)
    else
      match Apply(stack, segments[0])
      case None => None
      case Some(stack') => Fold(stack', segments[1..])
  }

  /** The normalised path; an empty stack is the root. */
  function Normalised(s: Octets): Option<Octets>
    requires Rooted(s)
  {
    match Fold([], Segments(s))
    case None => None
    case Some(stack) => Some(if stack == [] then [SLASH] else Join(stack))
  }

  // ------------------------------------------------------------ when it fails

  /** Ordinary segments minus ".." among the first segments: how deep the path has gone. */
  function Depth(segments: seq<Octets>): int {
    if segments == [] then 0
    else
      var last := segments[|segments| - 1];
      Depth(segments[..|segments| - 1]) + if last == DOT then 0 else if last == DOTDOT then -1 else 1
  }

  lemma {:induction false} FoldSnoc(stack: seq<Octets>, segments: seq<Octets>, last: Octets)
    ensures Fold(stack, segments + [last]) ==
            var r := Fold(stack, segments);
            if r.None? then None else Apply(r.value, last)
    decreases |segments|
  {
    if segments == [] {
      assert ([] + [last])[1..] == [];
    } else {
      assert (segments + [last])[1..] == segments[1..] + [last];
      var r := Apply(stack, segments[0]);
      if r.Some? {
        FoldSnoc(r.value, segments[1..], last);
      }
    }
  }

  /** Normalising fails exactly when some prefix of the path climbs above the root. */
  lemma {:induction false} FailsAboveRoot(segments: seq<Octets>)
    ensures Fold([], segments).None? <==> exists k | 0 <= k <= |segments| :: Depth(segments[..k]) < 0
    ensures Fold([], segments).Some? ==> |Fold([], segments).value| == Depth(segments)
    decreases |segments|
  {
    var n := |segments|;
    if n == 0 {
      forall k | 0 <= k <= n
        ensures Depth(segments[..k]) == 0
      {
      }
    } else {
      var init, last := segments[..n - 1], segments[n - 1];
      assert segments == init + [last];
      FailsAboveRoot(init);
      FoldSnoc([], init, last);
      forall k | 0 <= k <= n - 1
        ensures init[..k] == segments[..k]
      {
      }
      assert segments[..n] == segments;
      if Fold([], init).None? {
        var k :| 0 <= k <= |init| && Depth(init[..k]) < 0;
        assert Depth(segments[..k]) < 0;
      } else if Fold([], segments).None? {
        assert Depth(segments[..n]) < 0;
      } else {
        forall k | 0 <= k <= n
          ensures Depth(segments[..k]) >= 0
        {
          if k < n {
            assert init[..k] == segments[..k];
          }
        }
      }
    }
  }

  // ------------------------------------------------------------ what the result looks like

  predicate Clean(segment: Octets) {
    SLASH !in segment && segment != DOT && segment != DOTDOT
  }

  ghost predicate AllClean(stack: seq<Octets>) {
    forall i | 0 <= i < |stack| :: Clean(stack[i])
  }

  lemma {:induction false} SegmentsPlain(s: Octets)
    requires s == [] || Rooted(s)
    ensures forall i | 0 <= i < |Segments(s)| :: SLASH !in Segments(s)[i]
    ensures |Join(Segments(s))| == |s|
    decreases |s|
  {
    if s != [] {
      var e := SegmentEnd(s, 1);
      SegmentsPlain(s[e..]);
      JoinHead(s[1..e], Segments(s[e..]));
    }
  }

  lemma {:induction false} JoinHead(segment: Octets, segments: seq<Octets>)
    ensures Join([segment] + segments) == [SLASH] + segment + Join(segments)
    decreases |segments|
  {
    var all := [segment] + segments;
    if segments == [] {
      assert all[..0] == [] && all[0] == segment;
      assert Join(all) == Join([]) + [SLASH] + segment;
    } else {
      var n := |segments|;
      assert all[..n] == [segment] + segments[..n - 1] && all[n] == segments[n - 1];
      JoinHead(segment, segments[..n - 1]);
    }
  }

  /** Folding keeps the stack clean and never longer than what was read. */
  lemma {:induction false} FoldKeeps(stack: seq<Octets>, segments: seq<Octets>)
    requires AllClean(stack) && (forall i | 0 <= i < |segments| :: SLASH !in segments[i]) && Fold(stack, segments).Some?
    ensures AllClean(Fold(stack, segments).value)
    ensures |Join(Fold(stack, segments).value)| <= |Join(stack)| + |Join(segments)|
    decreases |segments|
  {
    if segments != [] {
      assert segments == [segments[0]] + segments[1..];
      JoinHead(segments[0], segments[1..]);
      var stack' := Apply(stack, segments[0]).value;
      assert |Join(stack')| <= |Join(stack)| + 1 + |segments[0]| by {
        if segments[0] != DOT && segments[0] != DOTDOT {
          assert stack'[..|stack|] == stack;
        }
      }
      FoldKeeps(stack', segments[1..]);
    }
  }

  /** Joining and splitting are inverse. */
  lemma {:induction false} SegmentsOfJoin(stack: seq<Octets>)
    requires forall i | 0 <= i < |stack| :: SLASH !in stack[i]
    ensures (stack == [] ==> Join(stack) == []) && (stack != [] ==> Rooted(Join(stack)))
    ensures Segments(Join(stack)) == stack
    decreases |stack|
  {
    if stack != [] {
      var head, tail := stack[0], stack[1..];
      assert stack == [head] + tail;
      JoinHead(head, tail);
      SegmentsOfJoin(tail);
      var s := Join(stack);
      assert s == [SLASH] + head + Join(tail);
      EndIs(s, 1, 1 + |head|);
      assert s[1..1 + |head|] == head && s[1 + |head|..] == Join(tail);
    }
  }

  lemma {:induction false} EndIs(s: Octets, from: nat, e: nat)
    requires from <= e <= |s| && (forall k | from <= k < e :: s[k] != SLASH) && (e < |s| ==> s[e] == SLASH)
    ensures SegmentEnd(s, from) == e
    decreases e - from
  {
    if from < e {
      EndIs(s, from + 1, e);
    }
  }

  lemma {:induction false} FoldClean(stack: seq<Octets>, segments: seq<Octets>)
    requires AllClean(segments)
    ensures Fold(stack, segments) == Some(stack + segments)
    decreases |segments|
  {
    if segments == [] {
      assert stack + segments == stack;
    } else {
      FoldClean(stack + [segments[0]], segments[1..]);
      assert stack + [segments[0]] + segments[1..] == stack + segments;
    }
  }

  /** A normalised path is rooted, has no dot segments and is no longer than the original. */
  lemma NormalisedIsClean(s: Octets)
    requires Rooted(s) && Normalised(s).Some?
    ensures var r := Normalised(s).value;
            Rooted(r) && |r| <= |s| && AllClean(Segments(r))
  {
    SegmentsPlain(s);
    FoldKeeps([], Segments(s));
    var stack := Fold([], Segments(s)).value;
    if stack == [] {
      RootSegments();
    } else {
      SegmentsOfJoin(stack);
    }
  }

  /** The root path has one empty segment. */
  const ROOT: seq<Octets> := [[]]

  lemma RootSegments()
    ensures Segments([SLASH]) == ROOT && Join(ROOT) == [SLASH]
  {
    JoinHead([], []);
    assert [[]] + [] == ROOT;
    var s: Octets := [SLASH];
    assert SegmentEnd(s, 1) == 1;
    assert s[1..1] == [] && s[1..] == [];
  }

  /** Normalising again changes nothing. */
  lemma Idempotent(s: Octets)
    requires Rooted(s) && Normalised(s).Some?
    ensures Rooted(Normalised(s).value) && Normalised(Normalised(s).value) == Normalised(s)
  {
    SegmentsPlain(s);
    FoldKeeps([], Segments(s));
    var stack := Fold([], Segments(s)).value;
    if stack == [] {
      RootSegments();
      FoldClean([], ROOT);
      assert [] + ROOT == ROOT;
    } else {
      SegmentsOfJoin(stack);
      FoldClean([], stack);
      assert [] + stack == stack;
    }
  }

  // ------------------------------------------------------------ in place

  lemma JoinSnoc(stack: seq<Octets>, segment: Octets)
    ensures Join(stack + [segment]) == Join(stack) + [SLASH] + segment
  {
    assert (stack + [segment])[..|stack|] == stack;
  }

  /** Drops the last segment of the output. */
  method PopSegment(path: array<Byte>, o: nat, ghost stack: seq<Octets>) returns (o': nat)
    requires o <= path.Length && stack != [] && path[..o] == Join(stack)
    requires SLASH !in stack[|stack| - 1]
    ensures o' <= o && path[..][..o'] == Join(stack[..|stack| - 1])
  {
    ghost var init, last := stack[..|stack| - 1], stack[|stack| - 1];
    ghost var at := |Join(init)|;
    assert Join(stack) == Join(init) + [SLASH] + last;
    assert path[at] == path[..o][at] == SLASH;
    forall j | at < j < o
      ensures path[j] != SLASH
    {
      assert path[j] == path[..o][j] == last[j - at - 1];
    }
    o' := o;
    while o' > 0 && path[o' - 1] != SLASH
      invariant at + 1 <= o' <= o
    {
      o' := o' - 1;
    }
    o' := o' - 1;
    assert path[..o'] == path[..o][..o'];
  }

  lemma SegmentsTurn(s: Octets, i: nat, e: nat)
    requires i < |s| && s[i] == SLASH && i < e <= |s| && e == SegmentEnd(s, i + 1)
    ensures (e == |s| || Rooted(s[e..])) && Segments(s[i..]) == [s[i + 1..e]] + Segments(s[e..])
  {
    var t := s[i..];
    EndIs(t, 1, e - i);
    assert t[1..e - i] == s[i + 1..e] && t[e - i..] == s[e..];
  }

  lemma FoldTurn(stack: seq<Octets>, segment: Octets, segments: seq<Octets>)
    ensures Fold(stack, [segment] + segments) ==
            if Apply(stack, segment).None? then None else Fold(Apply(stack, segment).value, segments)
  {
    assert ([segment] + segments)[1..] == segments;
  }

  /** Output written up to `o` holds the stack; input from `i` on is still as it was. */
  ghost predicate Cursors(a: Octets, s: Octets, o: nat, i: nat, stack: seq<Octets>) {
    && |a| == |s| && o <= i <= |s| && a[..o] == Join(stack) && a[i..] == s[i..]
    && (i == |s| || Rooted(s[i..])) && forall k | 0 <= k < |stack| :: SLASH !in stack[k]
  }

  lemma SameSegment(a: Octets, s: Octets, o: nat, i: nat, e: nat, stack: seq<Octets>)
    requires Cursors(a, s, o, i, stack) && i < |s| && e == SegmentEnd(a, i + 1)
    ensures e == SegmentEnd(s, i + 1) && a[i + 1..e] == s[i + 1..e] && a[e..] == s[e..] && s[i] == SLASH
  {
    SameEnd(a, s, i, e);
    assert a[i..][1..e - i] == s[i..][1..e - i];
    assert a[e..] == a[i..][e - i..] && s[e..] == s[i..][e - i..];
    assert s[i] == s[i..][0];
  }

  /** The segment at `i`: skipped, popped or pushed. */
  method OneSegment(path: array<Byte>, o: nat, i: nat, ghost s: Octets, ghost stack: seq<Octets>)
    returns (ok: bool, o': nat, e: nat, ghost stack': seq<Octets>)
    requires Cursors(path[..], s, o, i, stack) && i < path.Length
    modifies path
    ensures i < e <= |s| && e == SegmentEnd(s, i + 1)
    ensures ok == Apply(stack, s[i + 1..e]).Some?
    ensures ok ==> Apply(stack, s[i + 1..e]) == Some(stack') && Cursors(path[..], s, o', e, stack')
  {
    hide Join, Segments, SegmentEnd;
    e := FindEnd(path, i + 1);
    SameSegment(path[..], s, o, i, e, stack);
    SegmentsTurn(s, i, e);
    SegmentIs(path[..], i, e);
    var n := e - (i + 1);
    ghost var segment := s[i + 1..e];
    ok, o', stack' := true, o, stack;
    if n == 1 && path[i + 1] == 46 {
      Skips(path[..], s, o, i, e, stack);
    } else if n == 2 && path[i + 1] == 46 && path[i + 2] == 46 {
      if o == 0 {
        JoinEmpty(stack);
        ok := false;
        return;
      }
      NotEmpty(path[..], s, o, i, stack);
      o' := PopSegment(path, o, stack);
      stack' := stack[..|stack| - 1];
    } else {
      PushSegment(path, o, i + 1, n, stack, segment);
      o' := o + 1 + n;
      stack' := stack + [segment];
    }
  }

  /** Telling dot segments by their octets. */
  lemma SegmentIs(a: Octets, i: nat, e: nat)
    requires i < e <= |a|
    ensures a[i + 1..e] == DOT <==> e - i == 2 && a[i + 1] == 46
    ensures a[i + 1..e] == DOTDOT <==> e - i == 3 && a[i + 1] == 46 && a[i + 2] == 46
  {
    var t := a[i + 1..e];
    assert |t| >= 1 ==> t[0] == a[i + 1];
    assert |t| >= 2 ==> t[1] == a[i + 2];
  }

  lemma Skips(a: Octets, s: Octets, o: nat, i: nat, e: nat, stack: seq<Octets>)
    requires Cursors(a, s, o, i, stack) && i < e <= |s| && a[e..] == s[e..] && (e == |s| || Rooted(s[e..]))
    ensures Cursors(a, s, o, e, stack)
  {
  }

  lemma NotEmpty(a: Octets, s: Octets, o: nat, i: nat, stack: seq<Octets>)
    requires Cursors(a, s, o, i, stack) && o > 0
    ensures stack != [] && SLASH !in stack[|stack| - 1]
  {
  }

  /** A slash at the very end of the path is one more, empty, segment. */
  method LastSlash(path: array<Byte>, o: nat, i: nat, ghost s: Octets, ghost stack: seq<Octets>)
    requires Cursors(path[..], s, o, i, stack) && i + 1 == path.Length
    modifies path
    ensures path[..o + 1] == Join(stack + [[]])
    ensures Fold(stack, Segments(s[i..])) == Some(stack + [[]])
  {
    assert s[i..] == [SLASH];
    RootSegments();
    FoldClean(stack, ROOT);
    JoinSnoc(stack, []);
    ghost var a := path[..];
    path[o] := SLASH;
    assert path[..o + 1] == a[..o] + [SLASH];
  }

  /**
    Normalises a rooted path in its own buffer, reading and writing with two cursors. The result
    is the length of the normalised path, or None if the path climbs above the root.
   */
  method RemoveDotSegments(path: array<Byte>) returns (r: Option<nat>)
    requires Rooted(path[..])
    modifies path
    ensures var want := Normalised(old(path[..]));
            if want.None? then r.None? else r.Some? && r.value <= path.Length && path[..r.value] == want.value
  {
    ghost var s := path[..];
    ghost var goal := Fold([], Segments(s));
    ghost var stack: seq<Octets> := [];
    var o, i := 0, 0;
    assert s[0..] == s;
    hide Fold, Segments, Join;
    assert Join([]) == [] by {
      JoinNothing();
    }
    while i < path.Length
      invariant |s| == path.Length && i <= |s| && Cursors(path[..], s, o, i, stack)
      invariant goal == Fold(stack, Segments(s[i..]))
    {
      var ok, e;
      ghost var stack';
      ghost var i0, before := i, stack;
      ok, o, e, stack' := OneSegment(path, o, i, s, stack);
      SegmentsTurn(s, i0, e);
      FoldTurn(before, s[i0 + 1..e], Segments(s[e..]));
      if !ok {
        return None;
      }
      stack, i := stack', e;
      if i == path.Length - 1 && path[i] == SLASH {
        LastSlash(path, o, i, s, stack);
        return Some(o + 1);
      }
    }
    FoldEnds(stack, s[i..]);
    if o == 0 {
      JoinEmpty(stack);
      path[0] := SLASH;
      assert path[..1] == [SLASH];
      return Some(1);
    }
    assert stack != [];
    return Some(o);
  }

  lemma JoinNothing()
    ensures Join([]) == []
  {
  }

  lemma FoldEnds(stack: seq<Octets>, s: Octets)
    requires s == []
    ensures Fold(stack, Segments(s)) == Some(stack)
  {
  }

  lemma JoinEmpty(stack: seq<Octets>)
    requires Join(stack) == []
    ensures stack == []
  {
  }

  method FindEnd(path: array<Byte>, from: nat) returns (e: nat)
    requires from <= path.Length
    ensures e == SegmentEnd(path[..], from)
  {
    e := from;
    while e < path.Length && path[e] != SLASH
      invariant from <= e <= path.Length && forall k | from <= k < e :: path[k] != SLASH
    {
      e := e + 1;
    }
    EndIs(path[..], from, e);
  }

  lemma SameEnd(a: Octets, s: Octets, i: nat, e: nat)
    requires |a| == |s| && i < |s| && a[i..] == s[i..] && e == SegmentEnd(a, i + 1)
    ensures e == SegmentEnd(s, i + 1)
  {
    forall k | i <= k < |s|
      ensures a[k] == s[k]
    {
      assert a[k] == a[i..][k - i];
    }
    EndIs(s, i + 1, e);
  }

  /** Writes a slash and moves a segment down behind it. */
  method PushSegment(path: array<Byte>, o: nat, from: nat, n: nat, ghost stack: seq<Octets>, ghost segment: Octets)
    requires o < from && from + n <= path.Length && path[..o] == Join(stack) && path[from..from + n] == segment
    modifies path
    ensures path[..][..o + 1 + n] == Join(stack + [segment])
    ensures path[..][from + n..] == old(path[..])[from + n..]
  {
    ghost var s := path[..];
    path[o] := SLASH;
    assert path[..] == s[o := SLASH];
    ghost var t := path[..];
    MoveDown(path, o + 1, from, n);
    JoinSnoc(stack, segment);
    assert t[from..from + n] == s[from..from + n] == segment;
    assert t[..o + 1] == s[..o] + [SLASH];
    assert path[..][..o + 1 + n] == Join(stack) + [SLASH] + segment;
    assert path[..][from + n..] == t[from + n..] == s[from + n..];
  }
}
