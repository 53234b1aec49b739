/**
  The examples of Appendix C of RFC 7541 that concern a decoder without Huffman coding: what the octets
  say and what becomes of the table.
 */
module HpackExamples {
  import opened Bytes
  import opened HpackTable
  import opened HpackBlock
  import opened HpackEncoder
  import PrefixInt

  /** A literal, octet by octet. */
  lemma Spelled(s: string, o: Octets)
    requires |s| == |o| && forall k | 0 <= k < |s| :: o[k] == s[k] as int
    ensures Ascii(s) == o
  {
    forall k | 0 <= k < |s|
      ensures Ascii(s)[k] == o[k]
    {
      AsciiAt(s, k);
    }
  }

  const CUSTOM_KEY: Octets := [99, 117, 115, 116, 111, 109, 45, 107, 101, 121]
  const CUSTOM_HEADER: Octets := [99, 117, 115, 116, 111, 109, 45, 104, 101, 97, 100, 101, 114]
  const CUSTOM_VALUE: Octets := [99, 117, 115, 116, 111, 109, 45, 118, 97, 108, 117, 101]
  const SAMPLE_PATH: Octets := [47, 115, 97, 109, 112, 108, 101, 47, 112, 97, 116, 104]
  const PASSWORD: Octets := [112, 97, 115, 115, 119, 111, 114, 100]
  const SECRET: Octets := [115, 101, 99, 114, 101, 116]
  const EXAMPLE: Octets := [119, 119, 119, 46, 101, 120, 97, 109, 112, 108, 101, 46, 99, 111, 109]
  const NO_CACHE: Octets := [110, 111, 45, 99, 97, 99, 104, 101]

  lemma Words()
    ensures Ascii("custom-key") == CUSTOM_KEY
    ensures Ascii("custom-header") == CUSTOM_HEADER
    ensures Ascii("custom-value") == CUSTOM_VALUE
    ensures Ascii("/sample/path") == SAMPLE_PATH
    ensures Ascii("password") == PASSWORD
    ensures Ascii("secret") == SECRET
    ensures Ascii("www.example.com") == EXAMPLE
    ensures Ascii("no-cache") == NO_CACHE
  {
    hide Ascii;
    Spelled("custom-key", CUSTOM_KEY);
    Spelled("custom-header", CUSTOM_HEADER);
    Spelled("custom-value", CUSTOM_VALUE);
    Spelled("/sample/path", SAMPLE_PATH);
    Spelled("password", PASSWORD);
    Spelled("secret", SECRET);
    Spelled("www.example.com", EXAMPLE);
    Spelled("no-cache", NO_CACHE);
  }

  lemma Lengths()
    ensures |CUSTOM_KEY| == 10 && |CUSTOM_HEADER| == 13 && |CUSTOM_VALUE| == 12 && |SAMPLE_PATH| == 12
    ensures |PASSWORD| == 8 && |SECRET| == 6 && |EXAMPLE| == 15 && |NO_CACHE| == 8
  {
  }

  // ------------------------------------------------------------ the lines

  lemma Small(bits: nat, flags: Byte, v: nat)
    requires PrefixInt.FlagsFit(bits, flags) && v < Pow2(bits) - 1
    ensures PrefixInt.Encode(bits, flags, v) == [flags + v]
  {
    hide PrefixInt.Encode;
    PrefixInt.EncodingMeans(bits, flags, v);
  }

  lemma Powers()
    ensures Pow2(4) == 16 && Pow2(5) == 32 && Pow2(6) == 64 && Pow2(7) == 128
  {
  }

  lemma RawWire(s: Octets)
    requires |s| < 127
    ensures TextWire(Raw(s)) == [|s|] + s
  {
    Powers();
    Small(7, 0, |s|);
  }

  lemma IndexedWire(i: nat)
    requires i < 127
    ensures LineWire(Indexed(i)) == [128 + i]
  {
    Powers();
    Small(7, 0x80, i);
  }

  /** Section 6.2: the patterns 01, 0000 and 0001 in front of the index of the name, or 0 and the name. */
  lemma LiteralWires(name: Octets, value: Octets, i: nat)
    requires |name| < 127 && |value| < 127 && 0 < i < 15
    ensures LineWire(Incremental(ByIndex(i), Raw(value))) == [64 + i] + ([|value|] + value)
    ensures LineWire(Incremental(ByText(Raw(name)), Raw(value))) == [64] + ([|name|] + name) + ([|value|] + value)
    ensures LineWire(Plain(ByIndex(i), Raw(value), false)) == [i] + ([|value|] + value)
    ensures LineWire(Plain(ByText(Raw(name)), Raw(value), true)) == [16] + ([|name|] + name) + ([|value|] + value)
  {
    RawWire(name);
    RawWire(value);
    Powers();
    Small(6, 0x40, i);
    Small(6, 0x40, 0);
    Small(4, 0, i);
    Small(4, 0x10, 0);
    hide PrefixInt.Encode, TextWire;
  }

  /** Section C.2, a line of each kind, and size updates (section 6.3). */
  lemma ExamplesC2()
    ensures LineWire(Incremental(ByText(Raw(Ascii("custom-key"))), Raw(Ascii("custom-header")))) ==
            [0x40, 0x0a] + CUSTOM_KEY + [0x0d] + CUSTOM_HEADER
    ensures LineWire(Plain(ByIndex(4), Raw(Ascii("/sample/path")), false)) == [0x04, 0x0c] + SAMPLE_PATH
    ensures LineWire(Plain(ByText(Raw(Ascii("password"))), Raw(Ascii("secret")), true)) ==
            [0x10, 0x08] + PASSWORD + [0x06] + SECRET
    ensures LineWire(Indexed(2)) == [0x82]
    ensures LineWire(SizeUpdate(4096)) == [0x3f, 0xe1, 0x1f] && LineWire(SizeUpdate(0)) == [0x20]
  {
    Lengths();
    hide Ascii, LineWire, CUSTOM_KEY, CUSTOM_HEADER, SAMPLE_PATH, PASSWORD, SECRET;
    Words();
    LiteralWires(CUSTOM_KEY, CUSTOM_HEADER, 1);
    LiteralWires(SAMPLE_PATH, SAMPLE_PATH, 4);
    LiteralWires(PASSWORD, SECRET, 1);
    IndexedWire(2);
    Updates();
    Joined(0x40, 0x0a, CUSTOM_KEY, 0x0d, CUSTOM_HEADER);
    Joined(0x10, 0x08, PASSWORD, 0x06, SECRET);
    assert [4] + ([12] + SAMPLE_PATH) == [0x04, 0x0c] + SAMPLE_PATH;
  }

  lemma Joined(a: Byte, b: Byte, s: Octets, c: Byte, t: Octets)
    ensures [a] + ([b] + s) + ([c] + t) == [a, b] + s + [c] + t
  {
    assert [a] + ([b] + s) == [a, b] + s;
    assert [a, b] + s + ([c] + t) == [a, b] + s + [c] + t;
  }

  lemma Updates()
    ensures LineWire(SizeUpdate(4096)) == [0x3f, 0xe1, 0x1f] && LineWire(SizeUpdate(0)) == [0x20]
  {
    Powers();
    Small(5, 0x20, 0);
    assert PrefixInt.Groups(4065) == [0xe1] + PrefixInt.Groups(31);
  }

  // ------------------------------------------------------------ three requests on one connection

  const REQUEST1: Octets := [0x82, 0x86, 0x84, 0x41, 0x0f] + EXAMPLE
  const REQUEST2: Octets := [0x82, 0x86, 0x84, 0xbe, 0x58, 0x08] + NO_CACHE
  const REQUEST3: Octets := [0x82, 0x87, 0x85, 0xbf, 0x40, 0x0a] + CUSTOM_KEY + [0x0c] + CUSTOM_VALUE

  const LINES1: seq<Line> := [Indexed(2), Indexed(6), Indexed(4), Incremental(ByIndex(1), Raw(EXAMPLE))]
  const LINES2: seq<Line> := [Indexed(2), Indexed(6), Indexed(4), Indexed(62), Incremental(ByIndex(24), Raw(NO_CACHE))]
  const LINES3: seq<Line> :=
    [Indexed(2), Indexed(7), Indexed(5), Indexed(63), Incremental(ByText(Raw(CUSTOM_KEY)), Raw(CUSTOM_VALUE))]

  lemma {:induction false} WireCons(line: Line, rest: seq<Line>)
    ensures BlockWire([line] + rest) == LineWire(line) + BlockWire(rest) && BlockWire([]) == []
  {
    assert ([line] + rest)[1..] == rest;
    hide LineWire;
  }

  lemma FourLines(a: Line, b: Line, c: Line, d: Line)
    ensures BlockWire([a, b, c, d]) == LineWire(a) + (LineWire(b) + (LineWire(c) + LineWire(d)))
  {
    hide LineWire, BlockWire;
    WireCons(a, [b, c, d]);
    WireCons(b, [c, d]);
    WireCons(c, [d]);
    WireCons(d, []);
    assert [a] + [b, c, d] == [a, b, c, d] && [b] + [c, d] == [b, c, d] && [c] + [d] == [c, d] && [d] + [] == [d];
    assert LineWire(d) + [] == LineWire(d);
  }

  lemma FiveLines(a: Line, b: Line, c: Line, d: Line, e: Line)
    ensures BlockWire([a, b, c, d, e]) == LineWire(a) + (LineWire(b) + (LineWire(c) + (LineWire(d) + LineWire(e))))
  {
    hide LineWire, BlockWire;
    WireCons(a, [b, c, d, e]);
    FourLines(b, c, d, e);
    assert [a] + [b, c, d, e] == [a, b, c, d, e];
  }

  lemma Wire1()
    ensures BlockWire(LINES1) == REQUEST1
  {
    FourLines(Indexed(2), Indexed(6), Indexed(4), Incremental(ByIndex(1), Raw(EXAMPLE)));
    IndexedWire(2);
    IndexedWire(6);
    IndexedWire(4);
    LiteralWires([], EXAMPLE, 1);
    assert |EXAMPLE| == 15;
    hide LineWire, BlockWire, EXAMPLE;
    assert [0x82] + ([0x86] + ([0x84] + ([65] + ([15] + EXAMPLE)))) == REQUEST1;
  }

  lemma Wire24(value: Octets)
    requires |value| < 127
    ensures LineWire(Incremental(ByIndex(24), Raw(value))) == [0x58] + ([|value|] + value)
  {
    RawWire(value);
    Powers();
    Small(6, 0x40, 24);
    hide PrefixInt.Encode, TextWire;
  }

  lemma Wire2()
    ensures BlockWire(LINES2) == REQUEST2
  {
    FiveLines(Indexed(2), Indexed(6), Indexed(4), Indexed(62), Incremental(ByIndex(24), Raw(NO_CACHE)));
    IndexedWire(2);
    IndexedWire(6);
    IndexedWire(4);
    IndexedWire(62);
    Wire24(NO_CACHE);
    assert |NO_CACHE| == 8;
    hide LineWire, BlockWire, NO_CACHE;
    assert [0x82] + ([0x86] + ([0x84] + ([0xbe] + ([0x58] + ([8] + NO_CACHE))))) == REQUEST2;
  }

  lemma Wire3()
    ensures BlockWire(LINES3) == REQUEST3
  {
    FiveLines(Indexed(2), Indexed(7), Indexed(5), Indexed(63), Incremental(ByText(Raw(CUSTOM_KEY)), Raw(CUSTOM_VALUE)));
    IndexedWire(2);
    IndexedWire(7);
    IndexedWire(5);
    IndexedWire(63);
    LiteralWires(CUSTOM_KEY, CUSTOM_VALUE, 1);
    assert |CUSTOM_KEY| == 10 && |CUSTOM_VALUE| == 12;
    hide LineWire, BlockWire, CUSTOM_KEY, CUSTOM_VALUE;
    Joined(0x40, 0x0a, CUSTOM_KEY, 0x0c, CUSTOM_VALUE);
    InFront(0x82, 0x87, 0x85, 0xbf, [0x40, 0x0a] + CUSTOM_KEY + [0x0c] + CUSTOM_VALUE);
    Flatten(CUSTOM_KEY, CUSTOM_VALUE);
  }

  lemma InFront(a: Byte, b: Byte, c: Byte, d: Byte, s: Octets)
    ensures [a] + ([b] + ([c] + ([d] + s))) == [a, b, c, d] + s
  {
  }

  lemma Flatten(s: Octets, t: Octets)
    ensures [0x82, 0x87, 0x85, 0xbf] + ([0x40, 0x0a] + s + [0x0c] + t) ==
            [0x82, 0x87, 0x85, 0xbf, 0x40, 0x0a] + s + [0x0c] + t
  {
  }

  function Pair(name: string, value: string): Field {
    Field(Ascii(name), Ascii(value))
  }

  const FIELDS1: seq<Field> :=
    [Pair(":method", "GET"), Pair(":scheme", "http"), Pair(":path", "/"), Pair(":authority", "www.example.com")]
  const FIELDS2: seq<Field> :=
    [Pair(":method", "GET"), Pair(":scheme", "http"), Pair(":path", "/"), Pair(":authority", "www.example.com"),
     Pair("cache-control", "no-cache")]
  const FIELDS3: seq<Field> :=
    [Pair(":method", "GET"), Pair(":scheme", "https"), Pair(":path", "/index.html"),
     Pair(":authority", "www.example.com"), Pair("custom-key", "custom-value")]

  /** The tables after the requests, oldest entry first. */
  const TABLE1: Dynamic := Dynamic([Pair(":authority", "www.example.com")], TABLE_MAX)
  const TABLE2: Dynamic :=
    Dynamic([Pair(":authority", "www.example.com"), Pair("cache-control", "no-cache")], TABLE_MAX)
  const TABLE3: Dynamic :=
    Dynamic([Pair(":authority", "www.example.com"), Pair("cache-control", "no-cache"),
             Pair("custom-key", "custom-value")],
            TABLE_MAX)

  lemma {:induction false} SizeCons(f: Field, t: seq<Field>)
    ensures Size([f] + t) == f.Cost() + Size(t) && Size([]) == 0
  {
    assert ([f] + t)[1..] == t;
  }

  /** Sizes by section 4.1 of the RFC. */
  lemma Sizes()
    ensures Size(TABLE1.entries) == 57 && Size(TABLE2.entries) == 110 && Size(TABLE3.entries) == 164
  {
    hide Ascii, Size;
    var a, b, c := Pair(":authority", "www.example.com"), Pair("cache-control", "no-cache"),
      Pair("custom-key", "custom-value");
    assert |":authority"| == 10 && |"www.example.com"| == 15 && |"cache-control"| == 13 && |"no-cache"| == 8;
    assert |"custom-key"| == 10 && |"custom-value"| == 12;
    SizeCons(a, []);
    SizeCons(a, [b]);
    SizeCons(b, []);
    SizeCons(a, [b, c]);
    SizeCons(b, [c]);
    SizeCons(c, []);
    assert [a] + [] == [a] && [b] + [] == [b] && [c] + [] == [c] && [a] + [b] == [a, b] && [b] + [c] == [b, c]
           && [a] + [b, c] == [a, b, c];
  }

  lemma MeaningCons(line: Line, rest: seq<Line>, d: Dynamic, seenField: bool, m: Meant)
    requires Conforms(line, d) && !line.SizeUpdate? && BlockMeaning(rest, After(line, d), true) == Some(m)
    ensures BlockMeaning([line] + rest, d, seenField) == Some(Meant([Meaning(line, d)] + m.fields, m.table))
  {
    assert ([line] + rest)[1..] == rest;
    hide Conforms, Meaning, After;
  }

  lemma NoLines(d: Dynamic)
    ensures BlockMeaning([], d, true) == Some(Meant([], d))
  {
  }

  /** An entry by its index. */
  lemma IndexedMeans(i: nat, d: Dynamic, f: Field)
    requires i <= 100 && d.Lookup(i) == Some(f)
    ensures Conforms(Indexed(i), d) && Meaning(Indexed(i), d) == f && After(Indexed(i), d) == d
  {
    hide Dynamic.Lookup;
  }

  lemma Statics(d: Dynamic)
    ensures d.Lookup(2) == Some(Pair(":method", "GET")) && d.Lookup(4) == Some(Pair(":path", "/"))
    ensures d.Lookup(5) == Some(Pair(":path", "/index.html")) && d.Lookup(6) == Some(Pair(":scheme", "http"))
    ensures d.Lookup(7) == Some(Pair(":scheme", "https"))
    ensures d.Lookup(1).Some? && d.Lookup(1).value.name == Ascii(":authority")
    ensures d.Lookup(24).Some? && d.Lookup(24).value.name == Ascii("cache-control")
  {
    hide Ascii;
  }

  /** A field that enters the table. */
  lemma EnteringMeans(line: Line, d: Dynamic, f: Field, d': Dynamic)
    requires line.Incremental? && Conforms(line, d) && Meaning(line, d) == f
    requires d.max == d'.max == TABLE_MAX && d'.entries == d.entries + [f] && Size(d'.entries) <= TABLE_MAX
    ensures After(line, d) == d'
  {
    hide Conforms, Meaning, Size;
    FitStep(d'.entries, TABLE_MAX);
  }

  lemma Three(i: nat, j: nat, k: nat, tail: seq<Line>, d: Dynamic, m: Meant, f: Field, g: Field, h: Field)
    requires i <= 100 && j <= 100 && k <= 100 && d.Lookup(i) == Some(f) && d.Lookup(j) == Some(g)
             && d.Lookup(k) == Some(h)
    requires BlockMeaning(tail, d, true) == Some(m)
    ensures BlockMeaning([Indexed(i), Indexed(j), Indexed(k)] + tail, d, false) ==
            Some(Meant([f, g, h] + m.fields, m.table))
  {
    hide Dynamic.Lookup, BlockMeaning, Conforms, Meaning, After;
    IndexedMeans(i, d, f);
    IndexedMeans(j, d, g);
    IndexedMeans(k, d, h);
    MeaningCons(Indexed(k), tail, d, true, m);
    MeaningCons(Indexed(j), [Indexed(k)] + tail, d, true, Meant([h] + m.fields, m.table));
    MeaningCons(Indexed(i), [Indexed(j)] + ([Indexed(k)] + tail), d, false, Meant([g] + ([h] + m.fields), m.table));
    assert [Indexed(i)] + ([Indexed(j)] + ([Indexed(k)] + tail)) == [Indexed(i), Indexed(j), Indexed(k)] + tail;
    assert [f] + ([g] + ([h] + m.fields)) == [f, g, h] + m.fields;
  }

  /** The last line enters its field. */
  lemma LastEnters(line: Line, d: Dynamic, f: Field, d': Dynamic)
    requires line.Incremental? && Conforms(line, d) && Meaning(line, d) == f && After(line, d) == d'
    ensures BlockMeaning([line], d, true) == Some(Meant([f], d'))
  {
    hide Conforms, Meaning, After, BlockMeaning;
    NoLines(d');
    MeaningCons(line, [], d, true, Meant([], d'));
    assert [line] + [] == [line] && [f] + [] == [f];
  }

  lemma ByIndexConforms(i: nat, value: Octets, d: Dynamic, name: Octets)
    requires i <= 100 && d.Lookup(i).Some? && d.Lookup(i).value.name == name && |value| <= 100
    ensures var line := Incremental(ByIndex(i), Raw(value)); Conforms(line, d) && Meaning(line, d) == Field(name, value)
  {
    hide Dynamic.Lookup;
  }

  lemma Meaning1()
    ensures BlockMeaning(LINES1, EMPTY, false) == Some(Meant(FIELDS1, TABLE1))
  {
    Lengths();
    hide Ascii, Dynamic.Lookup, BlockMeaning, Conforms, Meaning, After, Size, EXAMPLE, NO_CACHE, CUSTOM_KEY,
         CUSTOM_VALUE;
    var line, f := Incremental(ByIndex(1), Raw(EXAMPLE)), Pair(":authority", "www.example.com");
    Words();
    Sizes();
    Statics(EMPTY);
    ByIndexConforms(1, EXAMPLE, EMPTY, Ascii(":authority"));
    assert EMPTY.entries + [f] == TABLE1.entries;
    EnteringMeans(line, EMPTY, f, TABLE1);
    LastEnters(line, EMPTY, f, TABLE1);
    Three(2, 6, 4, [line], EMPTY, Meant([f], TABLE1), Pair(":method", "GET"), Pair(":scheme", "http"),
          Pair(":path", "/"));
    assert [Indexed(2), Indexed(6), Indexed(4)] + [line] == LINES1;
    assert [Pair(":method", "GET"), Pair(":scheme", "http"), Pair(":path", "/")] + [f] == FIELDS1;
  }

  lemma Newest(d: Dynamic)
    requires |d.entries| > 0
    ensures d.Lookup(62) == Some(d.entries[|d.entries| - 1])
    ensures |d.entries| > 1 ==> d.Lookup(63) == Some(d.entries[|d.entries| - 2])
  {
  }

  /** One more indexed line and one that enters a field. */
  lemma TwoMore(i: nat, g: Field, line: Line, d: Dynamic, f: Field, d': Dynamic)
    requires i <= 100 && d.Lookup(i) == Some(g)
    requires line.Incremental? && Conforms(line, d) && Meaning(line, d) == f && After(line, d) == d'
    ensures BlockMeaning([Indexed(i)] + [line], d, true) == Some(Meant([g] + [f], d'))
  {
    hide Dynamic.Lookup, BlockMeaning, Conforms, Meaning, After;
    LastEnters(line, d, f, d');
    IndexedMeans(i, d, g);
    MeaningCons(Indexed(i), [line], d, true, Meant([f], d'));
  }

  lemma Meaning2()
    ensures BlockMeaning(LINES2, TABLE1, false) == Some(Meant(FIELDS2, TABLE2))
  {
    Lengths();
    hide Ascii, Dynamic.Lookup, BlockMeaning, Conforms, Meaning, After, Size, EXAMPLE, NO_CACHE, CUSTOM_KEY,
         CUSTOM_VALUE;
    var line, f, g := Incremental(ByIndex(24), Raw(NO_CACHE)), Pair("cache-control", "no-cache"),
      Pair(":authority", "www.example.com");
    Words();
    Sizes();
    Statics(TABLE1);
    Newest(TABLE1);
    ByIndexConforms(24, NO_CACHE, TABLE1, Ascii("cache-control"));
    assert TABLE1.entries + [f] == TABLE2.entries;
    EnteringMeans(line, TABLE1, f, TABLE2);
    TwoMore(62, g, line, TABLE1, f, TABLE2);
    Three(2, 6, 4, [Indexed(62)] + [line], TABLE1, Meant([g] + [f], TABLE2), Pair(":method", "GET"),
          Pair(":scheme", "http"), Pair(":path", "/"));
    assert [Indexed(2), Indexed(6), Indexed(4)] + ([Indexed(62)] + [line]) == LINES2;
    assert [Pair(":method", "GET"), Pair(":scheme", "http"), Pair(":path", "/")] + ([g] + [f]) == FIELDS2;
  }

  lemma TextConforms(name: Octets, value: Octets, d: Dynamic)
    requires |name| <= 100 && |value| <= 100
    ensures var line := Incremental(ByText(Raw(name)), Raw(value));
            Conforms(line, d) && Meaning(line, d) == Field(name, value)
  {
  }

  lemma Meaning3()
    ensures BlockMeaning(LINES3, TABLE2, false) == Some(Meant(FIELDS3, TABLE3))
  {
    Lengths();
    hide Ascii, Dynamic.Lookup, BlockMeaning, Conforms, Meaning, After, Size, EXAMPLE, NO_CACHE, CUSTOM_KEY,
         CUSTOM_VALUE;
    var line := Incremental(ByText(Raw(CUSTOM_KEY)), Raw(CUSTOM_VALUE));
    var f, g := Pair("custom-key", "custom-value"), Pair(":authority", "www.example.com");
    Words();
    Sizes();
    Statics(TABLE2);
    Newest(TABLE2);
    TextConforms(CUSTOM_KEY, CUSTOM_VALUE, TABLE2);
    assert TABLE2.entries + [f] == TABLE3.entries;
    EnteringMeans(line, TABLE2, f, TABLE3);
    TwoMore(63, g, line, TABLE2, f, TABLE3);
    Three(2, 7, 5, [Indexed(63)] + [line], TABLE2, Meant([g] + [f], TABLE3), Pair(":method", "GET"),
          Pair(":scheme", "https"), Pair(":path", "/index.html"));
    assert [Indexed(2), Indexed(7), Indexed(5)] + ([Indexed(63)] + [line]) == LINES3;
    assert [Pair(":method", "GET"), Pair(":scheme", "https"), Pair(":path", "/index.html")] + ([g] + [f]) == FIELDS3;
  }

  lemma {:induction false} ListSizeCons(f: Field, t: seq<Field>)
    ensures ListSize([f] + t) == |f.name| + |f.value| + ListSize(t) && ListSize([]) == 0
  {
    assert ([f] + t)[1..] == t;
  }

  lemma FiveSizes(a: Field, b: Field, c: Field, d: Field, e: Field)
    requires forall f | f in [a, b, c, d, e] :: |f.name| + |f.value| <= 30
    ensures ListSize([a, b, c, d]) <= 120 && ListSize([a, b, c, d, e]) <= 150
  {
    hide ListSize;
    assert a in [a, b, c, d, e] && b in [a, b, c, d, e] && c in [a, b, c, d, e] && d in [a, b, c, d, e]
           && e in [a, b, c, d, e];
    ListSizeCons(a, [b, c, d]);
    ListSizeCons(b, [c, d]);
    ListSizeCons(c, [d]);
    ListSizeCons(d, []);
    assert [a] + [b, c, d] == [a, b, c, d] && [b] + [c, d] == [b, c, d] && [c] + [d] == [c, d] && [d] + [] == [d];
    ListSizeCons(a, [b, c, d, e]);
    ListSizeCons(b, [c, d, e]);
    ListSizeCons(c, [d, e]);
    ListSizeCons(d, [e]);
    ListSizeCons(e, []);
    assert [a] + [b, c, d, e] == [a, b, c, d, e] && [b] + [c, d, e] == [b, c, d, e] && [c] + [d, e] == [c, d, e];
    assert [d] + [e] == [d, e] && [e] + [] == [e];
  }

  lemma ListsFit()
    ensures ListSize(FIELDS1) <= 150 && ListSize(FIELDS2) <= 150 && ListSize(FIELDS3) <= 150
  {
    hide Ascii, ListSize;
    var m, s, t, p, q := Pair(":method", "GET"), Pair(":scheme", "http"), Pair(":scheme", "https"), Pair(":path", "/"),
      Pair(":path", "/index.html");
    var a, c, k := Pair(":authority", "www.example.com"), Pair("cache-control", "no-cache"),
      Pair("custom-key", "custom-value");
    FiveSizes(m, s, p, a, c);
    FiveSizes(m, t, q, a, k);
  }

  /** Section C.3: the three requests, read one after the other, and the table after each. */
  lemma ExamplesC3(maxOut: nat, sink: Sink)
    requires maxOut >= 150 && AcceptsAll(sink)
    ensures var r1 := DecodeBlock(REQUEST1, EMPTY, maxOut, sink);
            var r2 := DecodeBlock(REQUEST2, r1.table, maxOut, sink);
            var r3 := DecodeBlock(REQUEST3, r2.table, maxOut, sink);
            && r1 == BlockResult(Complete, FIELDS1, TABLE1) && Size(r1.table.entries) == 57
            && r2 == BlockResult(Complete, FIELDS2, TABLE2) && Size(r2.table.entries) == 110
            && r3 == BlockResult(Complete, FIELDS3, TABLE3) && Size(r3.table.entries) == 164
  {
    Wire1();
    Wire2();
    Wire3();
    Meaning1();
    Meaning2();
    Meaning3();
    ListsFit();
    Sizes();
    hide DecodeBlock, BlockWire, BlockMeaning, ListSize, Size, Ascii;
    BlockSync(LINES1, EMPTY, maxOut, sink, Meant(FIELDS1, TABLE1));
    BlockSync(LINES2, TABLE1, maxOut, sink, Meant(FIELDS2, TABLE2));
    BlockSync(LINES3, TABLE2, maxOut, sink, Meant(FIELDS3, TABLE3));
  }
}
