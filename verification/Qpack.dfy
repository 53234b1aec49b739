/**
  Field sections of HTTP/3 (section 4.5 of RFC 9204) without a dynamic table: the decoder and the
  stateless encoder of src/qpack.c.
 */
module Qpack {
  import opened Bytes
  import opened HpackTable
  import opened HpackBlock
  import opened QpackTable
  import HpackEncoder
  import HpackDecoder
  import PrefixInt

  // ------------------------------------------------------------ reading

  /** A literal name: the Huffman bit and a 3-bit length prefix share its first octet. */
  ghost function ReadName(p: Octets, maxOut: nat): (r: TextResult)
    requires p != []
    ensures r.TextOk? ==> 1 <= r.used <= |p|
  {
    match PrefixInt.Decode(p, 3)
    case IntErr => TextErr
    case IntOk(n, c) =>
      if n > |p| - c then TextErr
      else if p[0] / 8 % 2 == 1 then
        match HuffmanDecode(p[c..c + n], maxOut)
        case Bad => TextErr
        case Ok(text) => TextOk(text, c + n)
      else if n > maxOut then TextErr
      else TextOk(p[c..c + n], c + n)
  }

  datatype QLine = QErr | QField(field: Field, used: nat)

  ghost function ReadQValue(p: Octets, at: nat, name: Octets, maxOut: nat): (r: QLine)
    requires at <= |p|
    ensures r.QField? ==> at < r.used <= |p|
  {
    match ReadText(p[at..], maxOut)
    case TextErr => QErr
    case TextOk(value, n) => QField(Field(name, value), at + n)
  }

  /** One field line; whatever needs a dynamic table is refused. */
  ghost function ReadQLine(p: Octets, maxOut: nat): (r: QLine)
    requires p != []
    ensures r.QField? ==> 1 <= r.used <= |p|
  {
    if p[0] >= 0x80 then
      if p[0] < 0xC0 then QErr
      else
        match PrefixInt.Decode(p, 6)
        case IntErr => QErr
        case IntOk(i, c) => if i >= QSTATIC_N then QErr else QField(QStatic(i), c)
    else if p[0] >= 0x40 then
      if p[0] / 16 % 2 == 0 then QErr
      else
        match PrefixInt.Decode(p, 4)
        case IntErr => QErr
        case IntOk(i, c) => if i >= QSTATIC_N then QErr else ReadQValue(p, c, QStatic(i).name, maxOut)
    else if p[0] >= 0x20 then
      match ReadName(p, maxOut)
      case TextErr => QErr
      case TextOk(name, n) => ReadQValue(p, n, name, maxOut)
    else QErr
  }

  datatype SectionResult = SectionResult(outcome: Outcome, fields: seq<Field>)

  ghost function DecodeLines(p: Octets, fields: seq<Field>, decoded: nat, maxOut: nat, sink: Sink): SectionResult
    decreases |p|
  {
    if p == [] then SectionResult(Complete, fields)
    else
      match ReadQLine(p, maxOut)
      case QErr => SectionResult(Malformed, fields)
      case QField(f, used) =>
        if decoded + |f.name| + |f.value| > maxOut then SectionResult(Malformed, fields)
        else
          var fields' := fields + [f];
          if sink(fields') != 0 then SectionResult(Stopped(sink(fields')), fields')
          else DecodeLines(p[used..], fields', decoded + |f.name| + |f.value|, maxOut, sink)
  }

  /** Length of the section prefix: insert count zero and a delta base, which is ignored. */
  ghost function ReadPrefix(p: Octets): (r: Option<nat>)
    ensures r.Some? ==> r.value <= |p|
  {
    match PrefixInt.Decode(p, 8)
    case IntErr => None
    case IntOk(count, c) =>
      if count != 0 || c >= |p| then None
      else
        match PrefixInt.Decode(p[c..], 7)
        case IntErr => None
        case IntOk(_, d) => Some(c + d)
  }

  ghost function DecodeSection(p: Octets, maxOut: nat, sink: Sink): SectionResult {
    match ReadPrefix(p)
    case None => SectionResult(Malformed, [])
    case Some(n) => DecodeLines(p[n..], [], 0, maxOut, sink)
  }

  // ------------------------------------------------------------ a conforming encoder

  /** The choices of an encoder that uses the static table only. */
  datatype Choice =
    | StaticLine(i: nat)
    | NameRef(i: nat, never: bool, value: Text)
    | Literal(never: bool, name: Text, value: Text)

  ghost function NameWire(never: bool, t: Text): (r: Octets)
    ensures |r| >= 1 && 0x20 <= r[0] < 0x40
  {
    match t
    case Raw(s) => PrefixInt.Encode(3, if never then 0x30 else 0x20, |s|) + s
    case Coded(s) => PrefixInt.Encode(3, if never then 0x38 else 0x28, |HuffmanEncode(s)|) + HuffmanEncode(s)
  }

  ghost function ChoiceWire(c: Choice): (r: Octets)
    ensures |r| >= 1
  {
    match c
    case StaticLine(i) => PrefixInt.Encode(6, 0xC0, i)
    case NameRef(i, never, value) => PrefixInt.Encode(4, if never then 0x70 else 0x50, i) + TextWire(value)
    case Literal(never, name, value) => NameWire(never, name) + TextWire(value)
  }

  ghost predicate ChoiceFits(c: Choice) {
    match c
    case StaticLine(i) => i < QSTATIC_N
    case NameRef(i, _, value) => i < QSTATIC_N && TextInRange(value)
    case Literal(_, name, value) => TextInRange(name) && TextInRange(value)
  }

  function ChoiceField(c: Choice): Field {
    match c
    case StaticLine(i) => QStatic(i)
    case NameRef(i, _, value) => Field(QStatic(i).name, value.s)
    case Literal(_, name, value) => Field(name.s, value.s)
  }

  function ChoiceFields(choices: seq<Choice>): seq<Field> {
    if choices == [] then [] else [ChoiceField(choices[0])] + ChoiceFields(choices[1..])
  }

  ghost function LinesWire(choices: seq<Choice>): Octets {
    if choices == [] then [] else ChoiceWire(choices[0]) + LinesWire(choices[1..])
  }

  // ------------------------------------------------------------ round trip

  lemma NameFlags(never: bool, coded: bool)
    ensures PrefixInt.FlagsFit(3, (if never then 0x30 else 0x20) + if coded then 8 else 0)
  {
  }

  lemma HuffmanBit(b: Byte, never: bool, coded: bool)
    requires var flags := (if never then 0x30 else 0x20) + (if coded then 8 else 0); flags <= b < flags + 8
    ensures b / 8 % 2 == 1 <==> coded
  {
  }

  lemma NameSync(never: bool, t: Text, rest: Octets, maxOut: nat)
    requires TextInRange(t) && |t.s| <= maxOut
    ensures ReadName(NameWire(never, t) + rest, maxOut) == TextOk(t.s, |NameWire(never, t)|)
  {
    var body := if t.Coded? then HuffmanEncode(t.s) else t.s;
    NameHead(never, t.Coded?, body, rest);
    hide HuffmanEncode, HuffmanDecode, PrefixInt.Encode, PrefixInt.Decode, PrefixInt.Low;
    HuffmanRoundTrip(t.s, maxOut);
  }

  /** The length prefix of a name and the octets it announces. */
  lemma NameHead(never: bool, coded: bool, body: Octets, rest: Octets)
    requires |body| <= PrefixInt.INT_MAX
    ensures var flags := (if never then 0x30 else 0x20) + if coded then 8 else 0;
            && PrefixInt.FlagsFit(3, flags)
            && var head := PrefixInt.Encode(3, flags, |body|);
            && var p := head + body + rest;
            && PrefixInt.Decode(p, 3) == PrefixInt.IntOk(|body|, |head|)
            && p[|head|..|head| + |body|] == body
            && (p[0] / 8 % 2 == 1 <==> coded)
  {
    var flags := (if never then 0x30 else 0x20) + if coded then 8 else 0;
    NameFlags(never, coded);
    hide PrefixInt.Encode, PrefixInt.Decode, PrefixInt.Low, PrefixInt.FlagsFit;
    var head := PrefixInt.Encode(3, flags, |body|);
    PrefixInt.RoundTrip(3, flags, |body|, body + rest);
    var p := head + body + rest;
    assert p == head + (body + rest);
    HuffmanBit(p[0], never, coded);
  }

  lemma QValueSync(p: Octets, at: nat, name: Octets, value: Text, rest: Octets, maxOut: nat)
    requires TextInRange(value) && |value.s| <= maxOut
    requires at <= |p| && p[at..] == TextWire(value) + rest
    ensures ReadQValue(p, at, name, maxOut) == QField(Field(name, value.s), at + |TextWire(value)|)
  {
    hide TextWire, ReadText, TextInRange;
    TextSync(value, rest, maxOut);
  }

  lemma IndexedSync(i: nat, rest: Octets, maxOut: nat)
    requires i < QSTATIC_N
    ensures ReadQLine(ChoiceWire(StaticLine(i)) + rest, maxOut) == QField(QStatic(i), |ChoiceWire(StaticLine(i))|)
  {
    hide PrefixInt.Encode, PrefixInt.Decode, QStatic;
    PrefixInt.RoundTrip(6, 0xC0, i, rest);
  }

  lemma NameRefSync(i: nat, never: bool, value: Text, rest: Octets, maxOut: nat)
    requires i < QSTATIC_N && TextInRange(value) && |value.s| <= maxOut
    ensures var c := NameRef(i, never, value);
            ReadQLine(ChoiceWire(c) + rest, maxOut) == QField(ChoiceField(c), |ChoiceWire(c)|)
  {
    hide PrefixInt.Encode, PrefixInt.Decode, QStatic, TextWire, ReadText, TextInRange, ReadQValue;
    var flags := if never then 0x70 else 0x50;
    var head := PrefixInt.Encode(4, flags, i);
    var p := head + TextWire(value) + rest;
    PrefixInt.RoundTrip(4, flags, i, TextWire(value) + rest);
    assert p == head + (TextWire(value) + rest);
    assert p[|head|..] == TextWire(value) + rest;
    assert p[0] / 16 % 2 == 1;
    QValueSync(p, |head|, QStatic(i).name, value, rest, maxOut);
  }

  lemma LiteralSync(never: bool, name: Text, value: Text, rest: Octets, maxOut: nat)
    requires TextInRange(name) && TextInRange(value) && |name.s| <= maxOut && |value.s| <= maxOut
    ensures var c := Literal(never, name, value);
            ReadQLine(ChoiceWire(c) + rest, maxOut) == QField(ChoiceField(c), |ChoiceWire(c)|)
  {
    hide TextWire, ReadText, TextInRange, ReadQValue, NameWire, ReadName;
    var head := NameWire(never, name);
    var p := head + TextWire(value) + rest;
    NameSync(never, name, TextWire(value) + rest, maxOut);
    assert p == head + (TextWire(value) + rest);
    assert p[|head|..] == TextWire(value) + rest;
    QValueSync(p, |head|, name.s, value, rest, maxOut);
  }

  lemma ChoiceSync(c: Choice, rest: Octets, maxOut: nat)
    requires ChoiceFits(c) && |ChoiceField(c).name| + |ChoiceField(c).value| <= maxOut
    ensures ReadQLine(ChoiceWire(c) + rest, maxOut) == QField(ChoiceField(c), |ChoiceWire(c)|)
  {
    hide ReadQLine, ChoiceWire, QStatic;
    match c
    case StaticLine(i) => IndexedSync(i, rest, maxOut);
    case NameRef(i, never, value) => NameRefSync(i, never, value, rest, maxOut);
    case Literal(never, name, value) => LiteralSync(never, name, value, rest, maxOut);
  }

  lemma {:induction false} LinesSync(choices: seq<Choice>, fields: seq<Field>, decoded: nat, maxOut: nat, sink: Sink)
    requires AcceptsAll(sink) && (forall c | c in choices :: ChoiceFits(c))
    requires decoded + ListSize(ChoiceFields(choices)) <= maxOut
    ensures DecodeLines(LinesWire(choices), fields, decoded, maxOut, sink) ==
            SectionResult(Complete, fields + ChoiceFields(choices))
    decreases |choices|
  {
    hide QStatic, ReadQLine, ChoiceWire, ChoiceField, ChoiceFits, DecodeLines, ReadText, TextWire;
    if choices == [] {
      assert fields + ChoiceFields(choices) == fields;
      LinesTurn(LinesWire(choices), fields, decoded, maxOut, sink);
    } else {
      var c, rest := choices[0], LinesWire(choices[1..]);
      var f := ChoiceField(c);
      assert ChoiceFields(choices)[1..] == ChoiceFields(choices[1..]);
      assert LinesWire(choices) == ChoiceWire(c) + rest;
      ChoiceStep(c, rest, fields, decoded, maxOut, sink);
      LinesSync(choices[1..], fields + [f], decoded + |f.name| + |f.value|, maxOut, sink);
      assert fields + [f] + ChoiceFields(choices[1..]) == fields + ChoiceFields(choices);
    }
  }

  lemma ChoiceStep(c: Choice, rest: Octets, fields: seq<Field>, decoded: nat, maxOut: nat, sink: Sink)
    requires AcceptsAll(sink) && ChoiceFits(c) && decoded + |ChoiceField(c).name| + |ChoiceField(c).value| <= maxOut
    ensures var f := ChoiceField(c);
            DecodeLines(ChoiceWire(c) + rest, fields, decoded, maxOut, sink) ==
            DecodeLines(rest, fields + [f], decoded + |f.name| + |f.value|, maxOut, sink)
  {
    hide QStatic, ReadQLine, ChoiceWire, ChoiceField, ChoiceFits, DecodeLines;
    ChoiceSync(c, rest, maxOut);
    LinesTurn(ChoiceWire(c) + rest, fields, decoded, maxOut, sink);
    assert (ChoiceWire(c) + rest)[|ChoiceWire(c)|..] == rest;
  }

  lemma ZeroCount(p: Octets)
    requires p != [] && p[0] == 0
    ensures PrefixInt.Decode(p, 8) == PrefixInt.IntOk(0, 1)
  {
  }

  /** Insert count zero and some delta base. */
  function PrefixWire(sign: bool, base: nat): Octets {
    [0] + PrefixInt.Encode(7, if sign then 0x80 else 0, base)
  }

  lemma PrefixSync(sign: bool, base: nat, rest: Octets)
    requires base <= PrefixInt.INT_MAX
    ensures ReadPrefix(PrefixWire(sign, base) + rest) == Some(|PrefixWire(sign, base)|)
  {
    var flags := if sign then 0x80 else 0;
    PrefixInt.RoundTrip(7, flags, base, rest);
    var head := PrefixInt.Encode(7, flags, base);
    hide PrefixInt.Encode, PrefixInt.Decode;
    var p := PrefixWire(sign, base) + rest;
    ZeroCount(p);
    assert p[1..] == head + rest;
  }

  /** Any encoding with the static table alone decodes to the fields it stands for, whatever the delta base. */
  lemma SectionSync(choices: seq<Choice>, sign: bool, base: nat, maxOut: nat, sink: Sink)
    requires AcceptsAll(sink) && (forall c | c in choices :: ChoiceFits(c)) && base <= PrefixInt.INT_MAX
    requires ListSize(ChoiceFields(choices)) <= maxOut
    ensures DecodeSection(PrefixWire(sign, base) + LinesWire(choices), maxOut, sink) ==
            SectionResult(Complete, ChoiceFields(choices))
  {
    hide QStatic, PrefixWire, ReadPrefix, DecodeLines, LinesWire, ChoiceFields, ChoiceFits, ListSize;
    var head, lines := PrefixWire(sign, base), LinesWire(choices);
    PrefixSync(sign, base, lines);
    assert (head + lines)[|head|..] == lines;
    LinesSync(choices, [], 0, maxOut, sink);
    assert [] + ChoiceFields(choices) == ChoiceFields(choices);
  }

  // ------------------------------------------------------------ the server's encoder

  /** First static entry of that name from `i` on, in any case. */
  function NameFrom(name: Octets, i: nat): (r: Option<nat>)
    requires i <= QSTATIC_N
    ensures r.Some? ==> i <= r.value < QSTATIC_N && HpackEncoder.SameName(QStatic(r.value).name, name)
    decreases QSTATIC_N - i
  {
    if i == QSTATIC_N then None
    else if HpackEncoder.SameName(QStatic(i).name, name) then Some(i)
    else NameFrom(name, i + 1)
  }

  function HeaderChoice(f: Field): Choice {
    match NameFrom(f.name, 0)
    case Some(i) => NameRef(i, false, Raw(f.value))
    case None => Literal(false, Raw(f.name), Raw(f.value))
  }

  const QSTATUS: nat := 24

  /** Statuses with an entry of their own. */
  function StatusIndex(status: int): (r: Option<nat>)
    ensures r.Some? ==> r.value < QSTATIC_N && 100 <= status < 1000
  {
    match status
    case 100 => Some(63) case 103 => Some(24) case 200 => Some(25) case 204 => Some(64) case 206 => Some(65)
    case 302 => Some(66) case 304 => Some(26) case 400 => Some(67) case 403 => Some(68) case 404 => Some(27)
    case 421 => Some(69) case 425 => Some(70) case 500 => Some(71) case 503 => Some(28)
    case _ => None
  }

  function StatusChoice(status: int): Choice {
    match StatusIndex(status)
    case Some(i) => StaticLine(i)
    case None => NameRef(QSTATUS, false, Raw(HpackEncoder.Decimal(status)))
  }

  function HeaderChoices(headers: seq<Field>): seq<Choice> {
    if headers == [] then [] else [HeaderChoice(headers[0])] + HeaderChoices(headers[1..])
  }

  method StaticNameIndex(name: Octets) returns (r: Option<nat>)
    ensures r == NameFrom(name, 0)
  {
    hide QStatic, HpackEncoder.SameName, NameFrom;
    for i := 0 to QSTATIC_N
      invariant NameFrom(name, 0) == NameFrom(name, i)
    {
      NameTurn(name, i);
      if HpackEncoder.SameName(QStatic(i).name, name) {
        return Some(i);
      }
    }
    NameTurn(name, QSTATIC_N);
    return None;
  }

  lemma NameTurn(name: Octets, i: nat)
    requires i <= QSTATIC_N
    ensures NameFrom(name, i) ==
            if i == QSTATIC_N then None
            else if HpackEncoder.SameName(QStatic(i).name, name) then Some(i)
            else NameFrom(name, i + 1)
  {
    hide QStatic, HpackEncoder.SameName;
  }

  method EncodePrefix(out: Octets) returns (r: Octets)
    ensures r == out + PrefixWire(false, 0)
  {
    PlainPrefix();
    r := out + [0] + [0];
    assert r == out + [0, 0];
  }

  lemma PlainPrefix()
    ensures PrefixWire(false, 0) == [0, 0]
  {
    assert PrefixInt.Encode(7, 0, 0) == [0];
  }

  method EncodeHeader(out: Octets, f: Field) returns (r: Octets)
    ensures r == out + ChoiceWire(HeaderChoice(f))
  {
    hide PrefixInt.Encode, NameFrom, QStatic, TextWire;
    var i := StaticNameIndex(f.name);
    if i.Some? {
      r := PrefixInt.EncodeInt(out, 4, 0x50, i.value);
    } else {
      r := PrefixInt.EncodeInt(out, 3, 0x20, |f.name|);
      r := r + f.name;
    }
    r := HpackEncoder.RawString(r, f.value);
  }

  method EncodeStatus(out: Octets, status: int) returns (r: Octets)
    ensures r == out + ChoiceWire(StatusChoice(status))
  {
    hide PrefixInt.Encode, HpackEncoder.Decimal, StatusIndex;
    var i := StatusIndex(status);
    if i.Some? {
      r := PrefixInt.EncodeInt(out, 6, 0xC0, i.value);
    } else {
      r := PrefixInt.EncodeInt(out, 4, 0x50, QSTATUS);
      r := HpackEncoder.RawString(r, HpackEncoder.Decimal(status));
    }
  }

  lemma ThreeDigits(status: int)
    requires 100 <= status < 1000
    ensures HpackEncoder.Decimal(status) == [48 + status / 100, 48 + status / 10 % 10, 48 + status % 10]
  {
    var t := status / 10;
    assert HpackEncoder.Decimal(t / 10) == [48 + t / 10];
    assert HpackEncoder.Decimal(t) == [48 + t / 10, 48 + t % 10];
    assert t / 10 == status / 100;
  }

  lemma AsciiThree(s: string)
    requires |s| == 3
    ensures Ascii(s) == [s[0] as int % 256, s[1] as int % 256, s[2] as int % 256]
  {
    HpackEncoder.AsciiAt(s, 0);
    HpackEncoder.AsciiAt(s, 1);
    HpackEncoder.AsciiAt(s, 2);
  }

  /** Each status has the entry that spells it. */
  lemma StatusSpelled(status: int)
    ensures ChoiceField(StatusChoice(status)) == Field(HpackEncoder.STATUS, HpackEncoder.Decimal(status))
  {
    var i := StatusIndex(status);
    if i.Some? {
      hide HpackEncoder.Decimal, Entry, StatusIndex, Ascii;
      StatusEntry(status);
      ThreeDigits(status);
      AsciiThree(Entry(i.value).1);
    } else {
      hide HpackEncoder.Decimal, StatusIndex, Ascii;
      assert Entry(QSTATUS).0 == ":status";
    }
  }

  lemma StatusEntry(status: int)
    requires StatusIndex(status).Some?
    ensures var e := Entry(StatusIndex(status).value);
            && e.0 == ":status" && |e.1| == 3
            && e.1[0] as int == 48 + status / 100 && e.1[1] as int == 48 + status / 10 % 10
            && e.1[2] as int == 48 + status % 10
  {
    match status
    case 100 => assert Entry(63) == (":status", "100");
    case 103 => assert Entry(24) == (":status", "103");
    case 200 => assert Entry(25) == (":status", "200");
    case 204 => assert Entry(64) == (":status", "204");
    case 206 => assert Entry(65) == (":status", "206");
    case 302 => assert Entry(66) == (":status", "302");
    case 304 => assert Entry(26) == (":status", "304");
    case 400 => assert Entry(67) == (":status", "400");
    case 403 => assert Entry(68) == (":status", "403");
    case 404 => assert Entry(27) == (":status", "404");
    case 421 => assert Entry(69) == (":status", "421");
    case 425 => assert Entry(70) == (":status", "425");
    case 500 => assert Entry(71) == (":status", "500");
    case _ => assert Entry(28) == (":status", "503");
  }

  /** What the peer reads for a header: the same name up to case, the same name if it was in lower case. */
  lemma HeaderRead(f: Field)
    ensures HpackEncoder.SameName(ChoiceField(HeaderChoice(f)).name, f.name)
            && ChoiceField(HeaderChoice(f)).value == f.value
    ensures HpackEncoder.IsLower(f.name) ==> ChoiceField(HeaderChoice(f)) == f
  {
    hide QStatic, NameFrom;
    var i := NameFrom(f.name, 0);
    if i.Some? {
      StaticNamesAreLower(i.value);
      if HpackEncoder.IsLower(f.name) {
        assert QStatic(i.value).name == f.name;
      }
    }
  }

  ghost predicate SameList(a: seq<Field>, b: seq<Field>) {
    |a| == |b| && forall k | 0 <= k < |a| :: HpackEncoder.SameName(a[k].name, b[k].name) && a[k].value == b[k].value
  }

  lemma {:induction false} HeadersRead(headers: seq<Field>)
    ensures SameList(ChoiceFields(HeaderChoices(headers)), headers)
  {
    hide HpackEncoder.SameName, HpackEncoder.IsLower, NameFrom, QStatic, HeaderChoice, ChoiceField;
    if headers != [] {
      HeaderRead(headers[0]);
      HeadersRead(headers[1..]);
      HeadersTurn(headers);
    }
  }

  lemma {:induction false} LowerRead(headers: seq<Field>)
    requires forall f | f in headers :: HpackEncoder.IsLower(f.name)
    ensures ChoiceFields(HeaderChoices(headers)) == headers
  {
    hide HpackEncoder.IsLower, NameFrom, QStatic, HeaderChoice, ChoiceField;
    if headers != [] {
      HeaderRead(headers[0]);
      LowerRead(headers[1..]);
      HeadersTurn(headers);
      assert headers == [headers[0]] + headers[1..];
    }
  }

  lemma HeadersTurn(headers: seq<Field>)
    requires headers != []
    ensures ChoiceFields(HeaderChoices(headers)) ==
            [ChoiceField(HeaderChoice(headers[0]))] + ChoiceFields(HeaderChoices(headers[1..]))
  {
    hide NameFrom, QStatic, HeaderChoice, ChoiceField;
    assert HeaderChoices(headers)[1..] == HeaderChoices(headers[1..]);
  }

  lemma {:induction false} HeadersFit(headers: seq<Field>)
    requires forall f | f in headers :: HpackEncoder.InRange(f)
    ensures forall c | c in HeaderChoices(headers) :: ChoiceFits(c)
  {
    hide HpackEncoder.InRange, HeaderChoice, ChoiceFits;
    if headers != [] {
      HeaderFits(headers[0]);
      HeadersFit(headers[1..]);
    }
  }

  lemma HeaderFits(f: Field)
    requires HpackEncoder.InRange(f)
    ensures ChoiceFits(HeaderChoice(f))
  {
    hide NameFrom;
  }

  /** A list as sent, up to the case of names and exactly if they were in lower case. */
  ghost predicate Faithful(fields: seq<Field>, status: int, headers: seq<Field>) {
    && |fields| == 1 + |headers|
    && fields[0] == Field(HpackEncoder.STATUS, HpackEncoder.Decimal(status))
    && SameList(fields[1..], headers)
    && ((forall f | f in headers :: HpackEncoder.IsLower(f.name)) ==> fields[1..] == headers)
  }

  function Choices(status: int, headers: seq<Field>): seq<Choice> {
    [StatusChoice(status)] + HeaderChoices(headers)
  }

  lemma ChoicesFaithful(status: int, headers: seq<Field>)
    ensures Faithful(ChoiceFields(Choices(status, headers)), status, headers)
  {
    hide QStatic, StatusChoice, HeaderChoice, ChoiceField, HpackEncoder.SameName, HpackEncoder.Decimal,
         HpackEncoder.IsLower;
    StatusSpelled(status);
    HeadersRead(headers);
    if forall f | f in headers :: HpackEncoder.IsLower(f.name) {
      LowerRead(headers);
    }
    var choices := Choices(status, headers);
    assert choices[0] == StatusChoice(status) && choices[1..] == HeaderChoices(headers);
    assert ChoiceFields(choices)[1..] == ChoiceFields(HeaderChoices(headers));
  }

  /**
    The stateless encoder: the octets of a response's field section decode to the status and the
    headers in order, names in the table's spelling, and unchanged if they were in lower case.
   */
  lemma SectionRoundTrip(status: int, headers: seq<Field>, maxOut: nat, sink: Sink)
    requires AcceptsAll(sink) && |HpackEncoder.Decimal(status)| <= PrefixInt.INT_MAX
    requires forall f | f in headers :: HpackEncoder.InRange(f)
    requires ListSize(ChoiceFields(Choices(status, headers))) <= maxOut
    ensures var r := DecodeSection(PrefixWire(false, 0) + LinesWire(Choices(status, headers)), maxOut, sink);
            r.outcome == Complete && Faithful(r.fields, status, headers)
  {
    hide QStatic, StatusChoice, HeaderChoice, DecodeSection, LinesWire, ChoiceFits, ChoiceField, Faithful, ListSize;
    hide HpackEncoder.Decimal, HpackEncoder.InRange, PrefixWire;
    StatusFits(status);
    HeadersFit(headers);
    ChoicesFaithful(status, headers);
    SectionSync(Choices(status, headers), false, 0, maxOut, sink);
  }

  lemma StatusFits(status: int)
    requires |HpackEncoder.Decimal(status)| <= PrefixInt.INT_MAX
    ensures ChoiceFits(StatusChoice(status))
  {
    hide HpackEncoder.Decimal;
  }

  /** Encodes the field section of a response. */
  method EncodeSection(status: int, headers: seq<Field>) returns (out: Octets)
    ensures out == PrefixWire(false, 0) + LinesWire(Choices(status, headers))
  {
    hide PrefixInt.Encode, ChoiceWire, HeaderChoice, StatusChoice;
    out := EncodePrefix([]);
    ghost var prefix := out;
    assert prefix == PrefixWire(false, 0);
    out := EncodeStatus(out, status);
    ghost var all := LinesWire(Choices(status, headers));
    assert Choices(status, headers)[1..] == HeaderChoices(headers);
    for k := 0 to |headers|
      invariant out + LinesWire(HeaderChoices(headers[k..])) == prefix + all
    {
      assert headers[k..][1..] == headers[k + 1..];
      assert HeaderChoices(headers[k..])[1..] == HeaderChoices(headers[k + 1..]);
      out := EncodeHeader(out, headers[k]);
    }
    assert headers[|headers|..] == [];
    assert out + [] == out;
  }

  // ------------------------------------------------------------ the decoder's loop

  /** A literal name of `block` at `pos`. */
  method NameLiteral(p: Octets, maxOut: nat) returns (r: TextResult)
    requires p != []
    ensures r == ReadName(p, maxOut)
  {
    hide PrefixInt.Decode, HuffmanDecode;
    var n := PrefixInt.DecodeInt(p, 3);
    if n.IntErr? || n.value > |p| - n.used {
      return TextErr;
    }
    var s := p[n.used..n.used + n.value];
    if p[0] / 8 % 2 == 1 {
      var d := HpackDecoder.CodedText(s, maxOut);
      r := if d.Bad? then TextErr else TextOk(d.text, n.used + n.value);
    } else {
      r := if n.value > maxOut then TextErr else TextOk(s, n.used + n.value);
    }
  }

  method ValueOf(p: Octets, at: nat, name: Octets, maxOut: nat) returns (r: QLine)
    requires at <= |p|
    ensures r == ReadQValue(p, at, name, maxOut)
  {
    hide ReadText;
    var t := HpackDecoder.StringLiteral(p, at, maxOut);
    r := if t.TextErr? then QErr else QField(Field(name, t.text), at + t.used);
  }

  method LineOf(p: Octets, maxOut: nat) returns (r: QLine)
    requires p != []
    ensures r == ReadQLine(p, maxOut)
  {
    hide PrefixInt.Decode, QStatic, ReadQValue, ReadName;
    var b := p[0];
    if b >= 0x80 {
      if b < 0xC0 {
        return QErr;
      }
      var i := PrefixInt.DecodeInt(p, 6);
      if i.IntErr? || i.value >= QSTATIC_N {
        return QErr;
      }
      return QField(QStatic(i.value), i.used);
    }
    if b >= 0x40 {
      if b / 16 % 2 == 0 {
        return QErr;
      }
      var i := PrefixInt.DecodeInt(p, 4);
      if i.IntErr? || i.value >= QSTATIC_N {
        return QErr;
      }
      r := ValueOf(p, i.used, QStatic(i.value).name, maxOut);
    } else if b >= 0x20 {
      var name := NameLiteral(p, maxOut);
      if name.TextErr? {
        return QErr;
      }
      r := ValueOf(p, name.used, name.text, maxOut);
    } else {
      return QErr;
    }
  }

  method Decode(block: Octets, maxOut: nat, sink: Sink) returns (r: SectionResult)
    ensures r == DecodeSection(block, maxOut, sink)
  {
    hide PrefixInt.Decode, ReadQLine, DecodeLines;
    var count := PrefixInt.DecodeInt(block, 8);
    if count.IntErr? || count.value != 0 || count.used >= |block| {
      return SectionResult(Malformed, []);
    }
    var base := PrefixInt.DecodeInt(block[count.used..], 7);
    if base.IntErr? {
      return SectionResult(Malformed, []);
    }
    var p := block[count.used + base.used..];
    var fields: seq<Field> := [];
    var decoded: nat := 0;
    ghost var goal := DecodeLines(p, [], 0, maxOut, sink);
    while p != []
      invariant decoded <= maxOut && goal == DecodeLines(p, fields, decoded, maxOut, sink)
      decreases |p|
    {
      LinesTurn(p, fields, decoded, maxOut, sink);
      var l := LineOf(p, maxOut);
      if l.QErr? || |l.field.name| > maxOut - decoded || |l.field.value| > maxOut - decoded - |l.field.name| {
        return SectionResult(Malformed, fields);
      }
      fields := fields + [l.field];
      if sink(fields) != 0 {
        return SectionResult(Stopped(sink(fields)), fields);
      }
      decoded := decoded + |l.field.name| + |l.field.value|;
      p := p[l.used..];
    }
    LinesTurn(p, fields, decoded, maxOut, sink);
    return SectionResult(Complete, fields);
  }

  lemma LinesTurn(p: Octets, fields: seq<Field>, decoded: nat, maxOut: nat, sink: Sink)
    ensures DecodeLines(p, fields, decoded, maxOut, sink) ==
            if p == [] then SectionResult(Complete, fields)
            else
              var l := ReadQLine(p, maxOut);
              if l.QErr? || decoded + |l.field.name| + |l.field.value| > maxOut then SectionResult(Malformed, fields)
              else
                var fields' := fields + [l.field];
                if sink(fields') != 0 then SectionResult(Stopped(sink(fields')), fields')
                else DecodeLines(p[l.used..], fields', decoded + |l.field.name| + |l.field.value|, maxOut, sink)
  {
    hide ReadQLine;
  }
}
