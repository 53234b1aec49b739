/**
  A callback that stops inside a header block: the decoder leaves the rest of the block unread, and
  its table is the encoder's only if the unread lines enter nothing that stays.
 */
module HpackStop {
  import opened Bytes
  import opened HpackTable
  import opened HpackBlock
  import PrefixInt

  /** Lines read before the callback stops, or all of them. */
  ghost function StopAt(lines: seq<Line>, d: Dynamic, fields: seq<Field>, sink: Sink): (k: nat)
    ensures k <= |lines|
  {
    if lines == [] || !Conforms(lines[0], d) then 0
    else if lines[0].SizeUpdate? then 1 + StopAt(lines[1..], After(lines[0], d), fields, sink)
    else
      var f := Meaning(lines[0], d);
      if sink(fields + [f]) != 0 then 0 else 1 + StopAt(lines[1..], After(lines[0], d), fields + [f], sink)
  }

  /** The encoder's table after some of its lines. */
  ghost function TableAfter(lines: seq<Line>, d: Dynamic): Dynamic {
    if lines == [] || !Conforms(lines[0], d) then d else TableAfter(lines[1..], After(lines[0], d))
  }

  lemma {:induction false} MeantTable(lines: seq<Line>, d: Dynamic, seenField: bool)
    requires BlockMeaning(lines, d, seenField).Some?
    ensures TableAfter(lines, d) == BlockMeaning(lines, d, seenField).value.table
  {
    hide Conforms, After, Meaning;
    if lines != [] {
      MeantTable(lines[1..], After(lines[0], d), !lines[0].SizeUpdate?);
    }
  }

  /** The tables after the lines read and after the rest compose. */
  lemma {:induction false} TableSplits(lines: seq<Line>, d: Dynamic, seenField: bool, k: nat)
    requires BlockMeaning(lines, d, seenField).Some? && k <= |lines|
    ensures TableAfter(lines[k..], TableAfter(lines[..k], d)) == TableAfter(lines, d)
    decreases |lines|
  {
    hide Conforms, After, Meaning;
    if k == 0 {
      assert lines[0..] == lines && lines[..0] == [];
    } else {
      assert lines[1..][k - 1..] == lines[k..] && lines[..k][1..] == lines[1..][..k - 1] && lines[..k][0] == lines[0];
      TableSplits(lines[1..], After(lines[0], d), !lines[0].SizeUpdate?, k - 1);
    }
  }

  /** The line that is being read: it is accepted, or the decoder stops in front of its effect on the table. */
  lemma LineOrStop(line: Line, d: Dynamic, fields: seq<Field>, decoded: nat, seenField: bool, rest: Octets,
                   maxOut: nat, sink: Sink)
    requires Conforms(line, d) && (line.SizeUpdate? ==> !seenField)
    requires !line.SizeUpdate? ==> decoded + |Meaning(line, d).name| + |Meaning(line, d).value| <= maxOut
    ensures DecodeFrom(LineWire(line) + rest, d, fields, decoded, seenField, maxOut, sink) ==
            if line.SizeUpdate? then DecodeFrom(rest, After(line, d), fields, decoded, seenField, maxOut, sink)
            else
              var f := Meaning(line, d);
              var code := sink(fields + [f]);
              if code != 0 then BlockResult(Stopped(code), fields + [f], d)
              else DecodeFrom(rest, After(line, d), fields + [f], decoded + |f.name| + |f.value|, true, maxOut, sink)
  {
    hide LineWire, ReadLine, Conforms, Meaning;
    assert (LineWire(line) + rest)[|LineWire(line)|..] == rest;
    LineSync(line, d, seenField, rest, maxOut);
  }

  ghost predicate StoppedAs(r: BlockResult, lines: seq<Line>, d: Dynamic, fields: seq<Field>, sink: Sink, m: Meant) {
    var k := StopAt(lines, d, fields, sink);
    && r.table == TableAfter(lines[..k], d)
    && (if k == |lines| then r.outcome == Complete && r.fields == fields + m.fields else r.outcome.Stopped?)
  }

  /** A size update or an accepted field in front of what is known of the rest. */
  lemma StoppedLater(r: BlockResult, lines: seq<Line>, d: Dynamic, fields: seq<Field>, sink: Sink, m: Meant, m': Meant)
    requires lines != [] && Conforms(lines[0], d)
    requires if lines[0].SizeUpdate? then m' == m && StoppedAs(r, lines[1..], After(lines[0], d), fields, sink, m')
             else
               var f := Meaning(lines[0], d);
               && sink(fields + [f]) == 0 && m.fields == [f] + m'.fields
               && StoppedAs(r, lines[1..], After(lines[0], d), fields + [f], sink, m')
    ensures StoppedAs(r, lines, d, fields, sink, m)
  {
    hide Conforms, After, Meaning, TableAfter;
    var d' := After(lines[0], d);
    if lines[0].SizeUpdate? {
      StopLater(lines, d, StopAt(lines[1..], d', fields, sink));
    } else {
      var f := Meaning(lines[0], d);
      StopLater(lines, d, StopAt(lines[1..], d', fields + [f], sink));
      assert fields + [f] + m'.fields == fields + m.fields;
    }
  }

  lemma StoppedHere(lines: seq<Line>, d: Dynamic, fields: seq<Field>, sink: Sink, m: Meant)
    requires lines != [] && Conforms(lines[0], d) && !lines[0].SizeUpdate?
    requires sink(fields + [Meaning(lines[0], d)]) != 0
    ensures var f := Meaning(lines[0], d);
            StoppedAs(BlockResult(Stopped(sink(fields + [f])), fields + [f], d), lines, d, fields, sink, m)
  {
    hide Conforms, After, Meaning;
    assert lines[..0] == [];
  }

  lemma {:induction false} StopFrom(lines: seq<Line>, d: Dynamic, fields: seq<Field>, decoded: nat,
                                    seenField: bool, maxOut: nat, sink: Sink, m: Meant)
    requires BlockMeaning(lines, d, seenField) == Some(m) && decoded + ListSize(m.fields) <= maxOut
    ensures StoppedAs(DecodeFrom(BlockWire(lines), d, fields, decoded, seenField, maxOut, sink), lines, d, fields, sink,
                      m)
    decreases |lines|
  {
    hide LineWire, ReadLine, Conforms, Meaning, After, DecodeFrom, StoppedAs, BlockMeaning, ListSize, BlockWire;
    if lines == [] {
      StoppedAtEnd(d, fields, decoded, seenField, maxOut, sink, m);
    } else {
      var m' := MeaningTurn(lines, d, seenField, m);
      var line, rest, d' := lines[0], BlockWire(lines[1..]), After(lines[0], d);
      var r := DecodeFrom(BlockWire(lines), d, fields, decoded, seenField, maxOut, sink);
      LineOrStop(line, d, fields, decoded, seenField, rest, maxOut, sink);
      if line.SizeUpdate? {
        StopFrom(lines[1..], d', fields, decoded, false, maxOut, sink, m');
        StoppedLater(r, lines, d, fields, sink, m, m');
      } else if sink(fields + [Meaning(line, d)]) == 0 {
        var f := Meaning(line, d);
        StopFrom(lines[1..], d', fields + [f], decoded + |f.name| + |f.value|, true, maxOut, sink, m');
        StoppedLater(r, lines, d, fields, sink, m, m');
      } else {
        StoppedHere(lines, d, fields, sink, m);
      }
    }
  }

  lemma StoppedAtEnd(d: Dynamic, fields: seq<Field>, decoded: nat, seenField: bool, maxOut: nat, sink: Sink, m: Meant)
    requires BlockMeaning([], d, seenField) == Some(m)
    ensures StoppedAs(DecodeFrom(BlockWire([]), d, fields, decoded, seenField, maxOut, sink), [], d, fields, sink, m)
  {
    DecodeNothing(d, fields, decoded, seenField, maxOut, sink);
    hide DecodeFrom;
    var none: seq<Line> := [];
    assert none[..0] == [] && fields + m.fields == fields;
  }

  /** The first line of a conforming block, what it means, and the rest. */
  lemma MeaningTurn(lines: seq<Line>, d: Dynamic, seenField: bool, m: Meant) returns (m': Meant)
    requires BlockMeaning(lines, d, seenField) == Some(m) && lines != []
    ensures Conforms(lines[0], d) && BlockWire(lines) == LineWire(lines[0]) + BlockWire(lines[1..])
    ensures BlockMeaning(lines[1..], After(lines[0], d), !lines[0].SizeUpdate?) == Some(m')
    ensures if lines[0].SizeUpdate? then !seenField && m' == m
            else
              var f := Meaning(lines[0], d);
              m.fields == [f] + m'.fields && ListSize(m.fields) == |f.name| + |f.value| + ListSize(m'.fields)
  {
    hide LineWire, Conforms, Meaning, After;
    m' := BlockMeaning(lines[1..], After(lines[0], d), !lines[0].SizeUpdate?).value;
    if !lines[0].SizeUpdate? {
      assert m.fields[1..] == m'.fields;
    }
  }

  lemma StopLater(lines: seq<Line>, d: Dynamic, k: nat)
    requires lines != [] && Conforms(lines[0], d) && k <= |lines| - 1
    ensures TableAfter(lines[..k + 1], d) == TableAfter(lines[1..][..k], After(lines[0], d))
  {
    hide Conforms, After;
    assert lines[..k + 1][0] == lines[0] && lines[..k + 1][1..] == lines[1..][..k];
  }

  // ------------------------------------------------------------ what the unread lines would have added

  /** The fields that lines enter into the table, from a table `t` on. */
  ghost function Added(lines: seq<Line>, t: Dynamic): seq<Field> {
    if lines == [] || !Conforms(lines[0], t) then []
    else (if lines[0].Incremental? then [Meaning(lines[0], t)] else []) + Added(lines[1..], After(lines[0], t))
  }

  lemma {:induction false} SizeJoin(x: seq<Field>, y: seq<Field>)
    ensures Size(x + y) == Size(x) + Size(y)
  {
    if x == [] {
      assert x + y == y;
    } else {
      assert (x + y)[0] == x[0] && (x + y)[1..] == x[1..] + y;
      SizeJoin(x[1..], y);
    }
  }

  /** Entries evicted early would have been evicted later. */
  lemma {:induction false} FitTwice(x: seq<Field>, y: seq<Field>, max: nat)
    ensures Fit(Fit(x, max) + y, max) == Fit(x + y, max)
  {
    FitStep(x, max);
    if Size(x) > max {
      SizeJoin(x, y);
      FitStep(x + y, max);
      assert (x + y)[1..] == x[1..] + y;
      FitTwice(x[1..], y, max);
    }
  }

  lemma AfterValid(line: Line, d: Dynamic)
    requires d.Valid() && Conforms(line, d)
    ensures After(line, d).Valid()
  {
    hide Conforms, Meaning;
    if line.Incremental? {
      TableBound(d, Meaning(line, d), d.max);
    } else if line.SizeUpdate? {
      UpdateInRange(line, d);
    }
  }

  lemma UpdateInRange(line: Line, d: Dynamic)
    requires line.SizeUpdate? && Conforms(line, d)
    ensures line.newMax <= TABLE_MAX
  {
  }

  lemma {:induction false} TableAfterValid(lines: seq<Line>, d: Dynamic)
    requires d.Valid()
    ensures TableAfter(lines, d).Valid()
  {
    hide Conforms, After;
    if lines != [] && Conforms(lines[0], d) {
      AfterValid(lines[0], d);
      TableAfterValid(lines[1..], After(lines[0], d));
    }
  }

  lemma AfterField(line: Line, d: Dynamic)
    requires Conforms(line, d) && !line.SizeUpdate?
    ensures After(line, d) ==
            if line.Incremental? then Dynamic(Fit(d.entries + [Meaning(line, d)], d.max), d.max) else d
  {
    hide Conforms, Meaning, Fit;
  }

  lemma FieldTurn(lines: seq<Line>, d: Dynamic)
    requires BlockMeaning(lines, d, true).Some? && lines != []
    ensures var line := lines[0];
            && Conforms(line, d) && !line.SizeUpdate? && BlockMeaning(lines[1..], After(line, d), true).Some?
            && TableAfter(lines, d) == TableAfter(lines[1..], After(line, d))
            && Added(lines, d) == (if line.Incremental? then [Meaning(line, d)] else []) +
               Added(lines[1..], After(line, d))
  {
    hide Conforms, Meaning, After;
  }

  lemma OneMore(x: seq<Field>, f: Field, y: seq<Field>, max: nat)
    ensures Fit(Fit(x + [f], max) + y, max) == Fit(x + ([f] + y), max)
  {
    FitTwice(x + [f], y, max);
    assert x + [f] + y == x + ([f] + y);
  }

  /** Field lines move the table by what they enter, evicting once at the end. */
  lemma {:induction false} TableIsFit(lines: seq<Line>, d: Dynamic)
    requires d.Valid() && BlockMeaning(lines, d, true).Some?
    ensures TableAfter(lines, d) == Dynamic(Fit(d.entries + Added(lines, d), d.max), d.max)
  {
    if lines == [] {
      FitStep(d.entries, d.max);
      assert d.entries + [] == d.entries;
    } else {
      FieldTurn(lines, d);
      hide Conforms, Meaning, After, BlockMeaning, TableAfter, Added, Fit;
      var line := lines[0];
      var d' := After(line, d);
      var rest := Added(lines[1..], d');
      AfterField(line, d);
      AfterValid(line, d);
      TableIsFit(lines[1..], d');
      if line.Incremental? {
        OneMore(d.entries, Meaning(line, d), rest, d.max);
      } else {
        assert [] + rest == rest;
      }
    }
  }

  /** What is left unread begins with the refused field and holds no size update. */
  lemma {:induction false} UnreadFields(lines: seq<Line>, d: Dynamic, seenField: bool, fields: seq<Field>, sink: Sink)
    requires BlockMeaning(lines, d, seenField).Some?
    ensures var k := StopAt(lines, d, fields, sink); BlockMeaning(lines[k..], TableAfter(lines[..k], d), true).Some?
    decreases |lines|
  {
    var k := StopAt(lines, d, fields, sink);
    hide Conforms, After, Meaning;
    if k == 0 {
      assert lines[0..] == lines && lines[..0] == [];
    } else {
      var line := lines[0];
      StopLater(lines, d, k - 1);
      assert lines[1..][k - 1..] == lines[k..];
      UnreadFields(lines[1..], After(line, d), !line.SizeUpdate?,
                   if line.SizeUpdate? then fields else fields + [Meaning(line, d)], sink);
    }
  }

  lemma {:induction false} NothingAdded(lines: seq<Line>, t: Dynamic)
    requires forall line | line in lines :: !line.Incremental?
    ensures Added(lines, t) == []
  {
    hide Conforms, After, Meaning;
    if lines != [] && Conforms(lines[0], t) {
      NothingAdded(lines[1..], After(lines[0], t));
    }
  }

  /**
    Whatever the callback does with a conforming block, the decoder's table is the encoder's after
    the k lines that were read, and it is the encoder's after the block exactly when evicting from the
    table and what the unread lines enter gives the table back; so it is if they enter nothing.
   */
  lemma StopSync(lines: seq<Line>, d: Dynamic, maxOut: nat, sink: Sink, m: Meant)
    requires d.Valid() && BlockMeaning(lines, d, false) == Some(m) && ListSize(m.fields) <= maxOut
    ensures var r := DecodeBlock(BlockWire(lines), d, maxOut, sink);
            var k := StopAt(lines, d, [], sink);
            var t := TableAfter(lines[..k], d);
            && r.table == t
            && (if k == |lines| then r.outcome == Complete && r.fields == m.fields else r.outcome.Stopped?)
            && (r.table == m.table <==> Fit(t.entries + Added(lines[k..], t), t.max) == t.entries)
            && ((forall line | line in lines[k..] :: !line.Incremental?) ==> r.table == m.table)
  {
    var k := StopAt(lines, d, [], sink);
    var t, unread := TableAfter(lines[..k], d), lines[k..];
    StopFrom(lines, d, [], 0, false, maxOut, sink, m);
    assert [] + m.fields == m.fields;
    hide BlockMeaning, DecodeFrom, BlockWire, StopAt, TableAfter, Fit, Added;
    MeantTable(lines, d, false);
    TableSplits(lines, d, false, k);
    TableAfterValid(lines[..k], d);
    UnreadFields(lines, d, false, [], sink);
    TableIsFit(unread, t);
    assert Dynamic(t.entries, t.max) == t;
    if forall line | line in unread :: !line.Incremental? {
      NothingAdded(unread, t);
      FitStep(t.entries, t.max);
      assert t.entries + [] == t.entries;
    }
  }

  // ------------------------------------------------------------ losing synchronisation

  /** A field that enters the table. */
  function Entering(name: Octets, value: Octets): Line {
    Incremental(ByText(Raw(name)), Raw(value))
  }

  /**
    A callback that refuses the first field of a block leaves the decoder behind: the next block may
    refer to an entry the encoder has and the decoder lacks.
   */
  lemma RefusalDesynchronises(name: Octets, value: Octets, maxOut: nat, refuse: Sink, accept: Sink)
    requires |name| + |value| <= maxOut && |name| + |value| + 32 <= TABLE_MAX
    requires refuse([Field(name, value)]) != 0
    ensures var first := DecodeBlock(BlockWire([Entering(name, value)]), EMPTY, maxOut, refuse);
            && first.outcome.Stopped? && first.table == EMPTY
            && BlockMeaning([Entering(name, value)], EMPTY, false) ==
               Some(Meant([Field(name, value)], Dynamic([Field(name, value)], TABLE_MAX)))
            && BlockMeaning([Indexed(62)], Dynamic([Field(name, value)], TABLE_MAX), false)
               == Some(Meant([Field(name, value)], Dynamic([Field(name, value)], TABLE_MAX)))
            && DecodeBlock(BlockWire([Indexed(62)]), first.table, maxOut, accept).outcome == Malformed
  {
    var f, line := Field(name, value), Entering(name, value);
    var full := Dynamic([f], TABLE_MAX);
    Entered(f);
    assert [line][1..] == [] && [Indexed(62)][1..] == [];
    assert [f] + [] == [f];
    assert BlockMeaning([line], EMPTY, false) == Some(Meant([f], full));
    assert BlockMeaning([Indexed(62)], full, false) == Some(Meant([f], full));
    RefusedFirst(line, f, maxOut, refuse);
    UnknownIndex(maxOut, accept);
  }

  lemma Entered(f: Field)
    requires f.Cost() <= TABLE_MAX
    ensures EMPTY.Add(f) == Dynamic([f], TABLE_MAX) && Dynamic([f], TABLE_MAX).Lookup(62) == Some(f)
    ensures EMPTY.Lookup(62) == None
  {
    assert [f][1..] == [] && Size([]) == 0;
    assert Size([f]) == f.Cost();
    assert EMPTY.entries + [f] == [f];
  }

  lemma RefusedFirst(line: Line, f: Field, maxOut: nat, refuse: Sink)
    requires Conforms(line, EMPTY) && !line.SizeUpdate? && Meaning(line, EMPTY) == f && |f.name| + |f.value| <= maxOut
    requires refuse([f]) != 0
    ensures var r := DecodeBlock(BlockWire([line]), EMPTY, maxOut, refuse); r.outcome.Stopped? && r.table == EMPTY
  {
    hide LineWire, Conforms, Meaning, DecodeFrom;
    LineOrStop(line, EMPTY, [], 0, false, [], maxOut, refuse);
    assert [line][1..] == [] && BlockWire([]) == [];
    assert BlockWire([line]) == LineWire(line) + [];
    assert [] + [f] == [f];
  }

  lemma UnknownIndex(maxOut: nat, accept: Sink)
    ensures DecodeBlock(BlockWire([Indexed(62)]), EMPTY, maxOut, accept).outcome == Malformed
  {
    var p := BlockWire([Indexed(62)]);
    assert [Indexed(62)][1..] == [] && BlockWire([]) == [];
    PrefixInt.RoundTrip(7, 0x80, 62, []);
    var w := PrefixInt.Encode(7, 0x80, 62);
    hide PrefixInt.Encode, PrefixInt.Decode;
    assert p == w + [];
    assert EMPTY.Lookup(62) == None;
    assert ReadLine(p, EMPTY, false, maxOut) == LineErr;
  }
}
