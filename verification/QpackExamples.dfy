/**
  Field lines of section 4.5 of RFC 9204 in octets, what a decoder makes of them, and the lines that need a
  dynamic table.
 */
module QpackExamples {
  import opened Bytes
  import opened HpackTable
  import opened HpackBlock
  import opened QpackTable
  import opened Qpack
  import PrefixInt
  import HpackExamples

  /** Sections 4.5.2, 4.5.4 and 4.5.6: patterns 11, 0101, 0111, 0010 and 0011 for the static table and for text. */
  lemma LineOctets(i: nat, name: Octets, value: Octets)
    requires i < 15 && |name| < 7 && |value| < 127
    ensures ChoiceWire(StaticLine(i)) == [0xc0 + i]
    ensures ChoiceWire(NameRef(i, false, Raw(value))) == [0x50 + i] + ([|value|] + value)
    ensures ChoiceWire(NameRef(i, true, Raw(value))) == [0x70 + i] + ([|value|] + value)
    ensures ChoiceWire(Literal(false, Raw(name), Raw(value))) == [0x20 + |name|] + name + ([|value|] + value)
    ensures ChoiceWire(Literal(true, Raw(name), Raw(value))) == [0x30 + |name|] + name + ([|value|] + value)
  {
    Flags();
    Powers();
    HpackExamples.RawWire(value);
    HpackExamples.Small(6, 0xc0, i);
    HpackExamples.Small(4, 0x50, i);
    HpackExamples.Small(4, 0x70, i);
    HpackExamples.Small(3, 0x20, |name|);
    HpackExamples.Small(3, 0x30, |name|);
    hide PrefixInt.Encode, TextWire;
  }

  lemma Flags()
    ensures PrefixInt.FlagsFit(6, 0xc0) && PrefixInt.FlagsFit(4, 0x50) && PrefixInt.FlagsFit(4, 0x70)
    ensures PrefixInt.FlagsFit(3, 0x20) && PrefixInt.FlagsFit(3, 0x30)
  {
  }

  lemma Powers()
    ensures Pow2(3) == 8 && Pow2(4) == 16 && Pow2(6) == 64 && Pow2(7) == 128 && Pow2(8) == 256
  {
  }

  /** No dynamic table: two zero octets (section 4.5.1). */
  lemma PrefixOctets()
    ensures PrefixWire(false, 0) == [0, 0]
  {
    Powers();
    HpackExamples.Small(8, 0, 0);
    HpackExamples.Small(7, 0, 0);
    hide PrefixInt.Encode;
  }

  const INDEX_HTML: Octets := [47, 105, 110, 100, 101, 120, 46, 104, 116, 109, 108]

  /** One line behind the prefix, in octets. */
  lemma SectionOctets(value: Octets)
    requires |value| < 127
    ensures PrefixWire(false, 0) + ChoiceWire(NameRef(1, false, Raw(value))) == [0x00, 0x00, 0x51, |value|] + value
    ensures PrefixWire(false, 0) + ChoiceWire(StaticLine(1)) == [0x00, 0x00, 0xc1]
  {
    hide ChoiceWire, PrefixWire;
    LineOctets(1, [], value);
    PrefixOctets();
    TwoAndTwo(0, 0, 0x51, |value|, value);
    assert [0, 0] + [0xc1] == [0x00, 0x00, 0xc1];
  }

  /** Section B.1: a literal field line with a name of the static table; and an indexed line. */
  lemma ExampleB1(maxOut: nat, sink: Sink)
    requires maxOut >= 100 && AcceptsAll(sink)
    ensures DecodeSection([0x00, 0x00, 0x51, 0x0b] + INDEX_HTML, maxOut, sink) ==
            SectionResult(Complete, [Field(Ascii(":path"), Ascii("/index.html"))])
    ensures DecodeSection([0x00, 0x00, 0xc1], maxOut, sink) ==
            SectionResult(Complete, [Field(Ascii(":path"), Ascii("/"))])
  {
    HpackExamples.Spelled("/index.html", INDEX_HTML);
    assert |INDEX_HTML| == 11;
    hide Ascii, QStatic, INDEX_HTML, DecodeSection, ChoiceWire, PrefixWire, ChoiceFits, ChoiceField;
    PathEntry();
    SectionOctets(INDEX_HTML);
    Stands(INDEX_HTML);
    OneLine(NameRef(1, false, Raw(INDEX_HTML)), maxOut, sink);
    OneLine(StaticLine(1), maxOut, sink);
  }

  lemma TwoAndTwo(a: Byte, b: Byte, c: Byte, d: Byte, s: Octets)
    ensures [a, b] + ([c] + ([d] + s)) == [a, b, c, d] + s
  {
  }

  lemma Stands(value: Octets)
    requires |value| <= 100
    ensures ChoiceFits(NameRef(1, false, Raw(value))) && ChoiceFits(StaticLine(1))
    ensures ChoiceField(NameRef(1, false, Raw(value))) == Field(QStatic(1).name, value)
            && ChoiceField(StaticLine(1)) == QStatic(1)
  {
    hide QStatic;
  }

  lemma PathEntry()
    ensures QStatic(1) == Field(Ascii(":path"), Ascii("/")) && |Ascii(":path")| == 5 && |Ascii("/")| == 1
  {
    hide Ascii;
  }

  lemma OneLine(c: Choice, maxOut: nat, sink: Sink)
    requires AcceptsAll(sink) && ChoiceFits(c) && |ChoiceField(c).name| + |ChoiceField(c).value| <= maxOut
    ensures DecodeSection(PrefixWire(false, 0) + ChoiceWire(c), maxOut, sink) ==
            SectionResult(Complete, [ChoiceField(c)])
  {
    assert [c][1..] == [] && [ChoiceField(c)][1..] == [];
    assert LinesWire([c]) == ChoiceWire(c) + [] == ChoiceWire(c);
    assert ChoiceFields([c]) == [ChoiceField(c)] + [] == [ChoiceField(c)];
    assert ListSize([ChoiceField(c)]) == |ChoiceField(c).name| + |ChoiceField(c).value| + ListSize([]);
    hide DecodeSection, PrefixWire, ChoiceWire, ChoiceFits, ChoiceField, LinesWire, ChoiceFields, ListSize;
    SectionSync([c], false, 0, maxOut, sink);
  }

  /** References to a dynamic table are refused, before or after the base, and so is a required insert count. */
  lemma DynamicRefused(p: Octets, maxOut: nat, sink: Sink)
    requires p != []
    ensures 0x80 <= p[0] < 0xc0 || 0x40 <= p[0] < 0x50 || 0x60 <= p[0] < 0x70 || p[0] < 0x20 ==>
              ReadQLine(p, maxOut) == QErr
    ensures p[0] != 0 ==> DecodeSection(p, maxOut, sink) == SectionResult(Malformed, [])
  {
    hide PrefixInt.DecodeGroups, ReadName, QStatic;
  }
}
