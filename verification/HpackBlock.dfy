/**
  Header blocks (section 6 of RFC 7541): what the decoder makes of any octet string, what a
  conforming encoder may send, and why the two sides' tables stay equal.
 */
module HpackBlock {
  import opened Bytes
  import opened HpackTable
  import PrefixInt
  import Huffman
  import HuffmanTable

  // ------------------------------------------------------------ string literals

  ghost function HuffmanDecode(input: Octets, maxOut: nat): Huffman.Decoded {
    HuffmanTable.TableIsComplete();
    Huffman.Decode(HuffmanTable.RFC7541, input, maxOut)
  }

  ghost function HuffmanEncode(s: Octets): Octets {
    HuffmanTable.TableIsComplete();
    Huffman.Encode(HuffmanTable.RFC7541, s)
  }

  lemma HuffmanRoundTrip(s: Octets, maxOut: nat)
    ensures HuffmanDecode(HuffmanEncode(s), maxOut) == if |s| <= maxOut then Huffman.Ok(s) else Huffman.Bad
  {
    hide Huffman.Decode, Huffman.Encode;
    HuffmanTable.TableIsComplete();
    Huffman.RoundTrip(HuffmanTable.RFC7541, s, maxOut);
  }

  datatype TextResult = TextOk(text: Octets, used: nat) | TextErr

  /** A length-prefixed string at the front of `p`; the top bit selects Huffman coding. */
  ghost function ReadText(p: Octets, maxOut: nat): (r: TextResult)
    ensures r.TextOk? ==> 1 <= r.used <= |p|
  {
    if p == [] then TextErr
    else
      match PrefixInt.Decode(p, 7)
      case IntErr => TextErr
      case IntOk(n, c) =>
        if n > |p| - c then TextErr
        else if p[0] >= 0x80 then
          match HuffmanDecode(p[c..c + n], maxOut)
          case Bad => TextErr
          case Ok(text) => TextOk(text, c + n)
        else if n > maxOut then TextErr
        else TextOk(p[c..c + n], c + n)
  }

  // ------------------------------------------------------------ one representation

  datatype LineResult = LineErr | Update(newMax: nat, used: nat) | Emit(field: Field, add: bool, used: nat)

  /** A literal field whose name reference has a prefix of `bits` bits. */
  ghost function ReadLiteral(p: Octets, d: Dynamic, bits: nat, maxOut: nat): (r: LineResult)
    requires 1 <= bits <= 8
    ensures r.LineErr? || (r.Emit? && r.add == (bits == 6) && 1 <= r.used <= |p|)
  {
    match PrefixInt.Decode(p, bits)
    case IntErr => LineErr
    case IntOk(0, c) =>
      (match ReadText(p[c..], maxOut)
       case TextErr => LineErr
       case TextOk(name, n) => ReadValue(p, c + n, name, bits == 6, maxOut))
    case IntOk(i, c) =>
      match d.Lookup(i)
      case None => LineErr
      case Some(f) => ReadValue(p, c, f.name, bits == 6, maxOut)
  }

  ghost function ReadValue(p: Octets, at: nat, name: Octets, add: bool, maxOut: nat): (r: LineResult)
    requires at <= |p|
    ensures r.LineErr? || (r.Emit? && r.add == add && at < r.used <= |p|)
  {
    match ReadText(p[at..], maxOut)
    case TextErr => LineErr
    case TextOk(value, n) => Emit(Field(name, value), add, at + n)
  }

  ghost function ReadLine(p: Octets, d: Dynamic, seenField: bool, maxOut: nat): (r: LineResult)
    requires p != []
    ensures r.Update? ==> 1 <= r.used <= |p| && r.newMax <= TABLE_MAX
    ensures r.Emit? ==> 1 <= r.used <= |p|
  {
    if p[0] >= 0x80 then
      match PrefixInt.Decode(p, 7)
      case IntErr => LineErr
      case IntOk(i, c) =>
        match d.Lookup(i)
        case None => LineErr
        case Some(f) => Emit(f, false, c)
    else if p[0] >= 0x40 then ReadLiteral(p, d, 6, maxOut)
    else if p[0] >= 0x20 then
      if seenField then LineErr
      else
        match PrefixInt.Decode(p, 5)
        case IntErr => LineErr
        case IntOk(n, c) => if n > TABLE_MAX then LineErr else Update(n, c)
    else ReadLiteral(p, d, 4, maxOut)
  }

  // ------------------------------------------------------------ a block

  /** The callback's verdict on the fields emitted so far: zero continues, anything else stops. */
  type Sink = seq<Field> -> int

  datatype Outcome = Complete | Malformed | Stopped(code: int)

  datatype BlockResult = BlockResult(outcome: Outcome, fields: seq<Field>, table: Dynamic)

  /** Decodes the rest `p` of a block after `fields` were emitted, `decoded` octets in all. */
  ghost function DecodeFrom(p: Octets, d: Dynamic, fields: seq<Field>, decoded: nat, seenField: bool,
                            maxOut: nat, sink: Sink): BlockResult
    decreases |p|
  {
    if p == [] then BlockResult(Complete, fields, d)
    else
      match ReadLine(p, d, seenField, maxOut)
      case LineErr => BlockResult(Malformed, fields, d)
      case Update(n, used) => DecodeFrom(p[used..], d.Resize(n), fields, decoded, seenField, maxOut, sink)
      case Emit(f, add, used) =>
        if decoded + |f.name| + |f.value| > maxOut then BlockResult(Malformed, fields, d)
        else
          var fields' := fields + [f];
          if sink(fields') != 0 then BlockResult(Stopped(sink(fields')), fields', d)
          else
            DecodeFrom(p[used..], if add then d.Add(f) else d, fields',
                       decoded + |f.name| + |f.value|, true, maxOut, sink)
  }

  ghost function DecodeBlock(p: Octets, d: Dynamic, maxOut: nat, sink: Sink): BlockResult {
    DecodeFrom(p, d, [], 0, false, maxOut, sink)
  }

  // ------------------------------------------------------------ a conforming encoder

  datatype Text = Raw(s: Octets) | Coded(s: Octets)

  datatype Name = ByIndex(i: nat) | ByText(text: Text)

  /** The choices an encoder has for one line of a block (sections 6.1 to 6.3). */
  datatype Line =
    | Indexed(i: nat)
    | Incremental(name: Name, value: Text)
    | Plain(name: Name, value: Text, never: bool)
    | SizeUpdate(newMax: nat)

  ghost function TextWire(t: Text): (r: Octets)
    ensures |r| >= 1
  {
    match t
    case Raw(s) => PrefixInt.Encode(7, 0, |s|) + s
    case Coded(s) => PrefixInt.Encode(7, 0x80, |HuffmanEncode(s)|) + HuffmanEncode(s)
  }

  ghost function LiteralWire(bits: nat, flags: Byte, name: Name, value: Text): (r: Octets)
    requires PrefixInt.FlagsFit(bits, flags)
    ensures |r| >= 1 && flags <= r[0] < flags + PrefixInt.Width(bits)
  {
    match name
    case ByIndex(i) => PrefixInt.Encode(bits, flags, i) + TextWire(value)
    case ByText(t) => PrefixInt.Encode(bits, flags, 0) + TextWire(t) + TextWire(value)
  }

  ghost function LineWire(line: Line): (r: Octets)
    ensures |r| >= 1
  {
    match line
    case Indexed(i) => PrefixInt.Encode(7, 0x80, i)
    case Incremental(name, value) => LiteralWire(6, 0x40, name, value)
    case Plain(name, value, never) => LiteralWire(4, if never then 0x10 else 0, name, value)
    case SizeUpdate(n) => PrefixInt.Encode(5, 0x20, n)
  }

  ghost function BlockWire(lines: seq<Line>): Octets {
    if lines == [] then [] else LineWire(lines[0]) + BlockWire(lines[1..])
  }

  ghost predicate TextInRange(t: Text) {
    match t
    case Raw(s) => |s| <= PrefixInt.INT_MAX
    case Coded(s) => |HuffmanEncode(s)| <= PrefixInt.INT_MAX
  }

  ghost predicate NameConforms(name: Name, d: Dynamic) {
    match name
    case ByIndex(i) => i <= PrefixInt.INT_MAX && d.Lookup(i).Some?
    case ByText(t) => TextInRange(t)
  }

  /** What an encoder whose table is `d` may send next. */
  ghost predicate Conforms(line: Line, d: Dynamic) {
    match line
    case Indexed(i) => i <= PrefixInt.INT_MAX && d.Lookup(i).Some?
    case Incremental(name, value) => NameConforms(name, d) && TextInRange(value)
    case Plain(name, value, _) => NameConforms(name, d) && TextInRange(value)
    case SizeUpdate(n) => n <= TABLE_MAX
  }

  ghost function NameText(name: Name, d: Dynamic): Octets
    requires NameConforms(name, d)
  {
    match name
    case ByIndex(i) => d.Lookup(i).value.name
    case ByText(t) => t.s
  }

  /** The field a line stands for, seen from a table `d`. */
  ghost function Meaning(line: Line, d: Dynamic): Field
    requires Conforms(line, d) && !line.SizeUpdate?
  {
    match line
    case Indexed(i) => d.Lookup(i).value
    case Incremental(name, value) => Field(NameText(name, d), value.s)
    case Plain(name, value, _) => Field(NameText(name, d), value.s)
  }

  /** The encoder's own table after the line. */
  ghost function After(line: Line, d: Dynamic): Dynamic
    requires Conforms(line, d)
  {
    match line
    case Incremental(_, _) => d.Add(Meaning(line, d))
    case SizeUpdate(n) => d.Resize(n)
    case _ => d
  }

  /** What an encoder means by a block: its fields in order, and its table afterwards. */
  datatype Meant = Meant(fields: seq<Field>, table: Dynamic)

  /** None unless every line conforms, with size updates only in front of the fields. */
  ghost function BlockMeaning(lines: seq<Line>, d: Dynamic, seenField: bool): Option<Meant> {
    if lines == [] then Some(Meant([], d))
    else if !Conforms(lines[0], d) || (lines[0].SizeUpdate? && seenField) then None
    else
      match BlockMeaning(lines[1..], After(lines[0], d), !lines[0].SizeUpdate?)
      case None => None
      case Some(m) =>
        Some(if lines[0].SizeUpdate? then m else m.(fields := [Meaning(lines[0], d)] + m.fields))
  }

  /** Octets of names and values, the measure of the header list limit. */
  function ListSize(fields: seq<Field>): nat {
    if fields == [] then 0 else |fields[0].name| + |fields[0].value| + ListSize(fields[1..])
  }

  // ------------------------------------------------------------ synchronisation

  lemma TextSync(t: Text, rest: Octets, maxOut: nat)
    requires TextInRange(t) && |t.s| <= maxOut
    ensures ReadText(TextWire(t) + rest, maxOut) == TextOk(t.s, |TextWire(t)|)
  {
    hide HuffmanEncode, HuffmanDecode, PrefixInt.Encode, PrefixInt.Decode;
    var p := TextWire(t) + rest;
    match t
    case Raw(s) =>
      PrefixInt.RoundTrip(7, 0, |s|, s + rest);
      var head := PrefixInt.Encode(7, 0, |s|);
      assert p == head + (s + rest);
      assert p[|head|..|head| + |s|] == s;
    case Coded(s) =>
      var w := HuffmanEncode(s);
      PrefixInt.RoundTrip(7, 0x80, |w|, w + rest);
      var head := PrefixInt.Encode(7, 0x80, |w|);
      assert p == head + (w + rest);
      assert p[|head|..|head| + |w|] == w;
      HuffmanRoundTrip(s, maxOut);
  }

  lemma ValueSync(p: Octets, at: nat, name: Octets, value: Text, rest: Octets, add: bool, maxOut: nat)
    requires TextInRange(value) && |value.s| <= maxOut
    requires at <= |p| && p[at..] == TextWire(value) + rest
    ensures ReadValue(p, at, name, add, maxOut) == Emit(Field(name, value.s), add, at + |TextWire(value)|)
  {
    hide TextWire, ReadText, TextInRange;
    TextSync(value, rest, maxOut);
  }

  lemma LiteralSync(bits: nat, flags: Byte, name: Name, value: Text, d: Dynamic, rest: Octets, maxOut: nat)
    requires PrefixInt.FlagsFit(bits, flags)
    requires NameConforms(name, d) && TextInRange(value)
    requires |NameText(name, d)| <= maxOut && |value.s| <= maxOut
    ensures ReadLiteral(LiteralWire(bits, flags, name, value) + rest, d, bits, maxOut) ==
            Emit(Field(NameText(name, d), value.s), bits == 6, |LiteralWire(bits, flags, name, value)|)
  {
    hide TextWire, ReadLiteral, LiteralWire, TextInRange, PrefixInt.FlagsFit;
    match name
    case ByIndex(i) => IndexedNameSync(bits, flags, i, value, d, rest, maxOut);
    case ByText(t) => TextNameSync(bits, flags, t, value, d, rest, maxOut);
  }

  lemma IndexedNameSync(bits: nat, flags: Byte, i: nat, value: Text, d: Dynamic, rest: Octets, maxOut: nat)
    requires PrefixInt.FlagsFit(bits, flags) && i <= PrefixInt.INT_MAX && d.Lookup(i).Some?
    requires TextInRange(value) && |value.s| <= maxOut
    ensures ReadLiteral(LiteralWire(bits, flags, ByIndex(i), value) + rest, d, bits, maxOut) ==
            Emit(Field(d.Lookup(i).value.name, value.s), bits == 6, |LiteralWire(bits, flags, ByIndex(i), value)|)
  {
    hide TextWire, ReadText, ReadValue, TextInRange, PrefixInt.Encode, PrefixInt.Decode, PrefixInt.FlagsFit;
    var p := LiteralWire(bits, flags, ByIndex(i), value) + rest;
    var head := PrefixInt.Encode(bits, flags, i);
    PrefixInt.RoundTrip(bits, flags, i, TextWire(value) + rest);
    assert p == head + (TextWire(value) + rest);
    ValueSync(p, |head|, d.Lookup(i).value.name, value, rest, bits == 6, maxOut);
  }

  lemma TextNameSync(bits: nat, flags: Byte, t: Text, value: Text, d: Dynamic, rest: Octets, maxOut: nat)
    requires PrefixInt.FlagsFit(bits, flags) && TextInRange(t) && |t.s| <= maxOut
    requires TextInRange(value) && |value.s| <= maxOut
    ensures ReadLiteral(LiteralWire(bits, flags, ByText(t), value) + rest, d, bits, maxOut) ==
            Emit(Field(t.s, value.s), bits == 6, |LiteralWire(bits, flags, ByText(t), value)|)
  {
    hide TextWire, ReadText, ReadValue, TextInRange, PrefixInt.Encode, PrefixInt.Decode, PrefixInt.FlagsFit;
    var p := LiteralWire(bits, flags, ByText(t), value) + rest;
    var head, tail := PrefixInt.Encode(bits, flags, 0), TextWire(value) + rest;
    PrefixInt.RoundTrip(bits, flags, 0, TextWire(t) + tail);
    assert p == head + (TextWire(t) + tail);
    assert p[|head|..] == TextWire(t) + tail;
    TextSync(t, tail, maxOut);
    assert p[|head| + |TextWire(t)|..] == tail;
    ValueSync(p, |head| + |TextWire(t)|, t.s, value, rest, bits == 6, maxOut);
  }

  /** The decoder reads each line back as the field the encoder meant. */
  lemma LineSync(line: Line, d: Dynamic, seenField: bool, rest: Octets, maxOut: nat)
    requires Conforms(line, d)
    requires line.SizeUpdate? ==> !seenField
    requires !line.SizeUpdate? ==> |Meaning(line, d).name| + |Meaning(line, d).value| <= maxOut
    ensures ReadLine(LineWire(line) + rest, d, seenField, maxOut) ==
            if line.SizeUpdate? then Update(line.newMax, |LineWire(line)|)
            else Emit(Meaning(line, d), line.Incremental?, |LineWire(line)|)
  {
    hide TextWire, ReadText, ReadValue, TextInRange, PrefixInt.Encode, PrefixInt.Decode;
    hide ReadLiteral, LiteralWire, NameConforms, NameText;
    var p := LineWire(line) + rest;
    match line
    case Indexed(i) => PrefixInt.RoundTrip(7, 0x80, i, rest);
    case Incremental(name, value) => LiteralSync(6, 0x40, name, value, d, rest, maxOut);
    case Plain(name, value, never) => LiteralSync(4, if never then 0x10 else 0, name, value, d, rest, maxOut);
    case SizeUpdate(n) => PrefixInt.RoundTrip(5, 0x20, n, rest);
  }

  ghost predicate AcceptsAll(sink: Sink) {
    forall fields :: sink(fields) == 0
  }

  /** One line of a conforming block moves both sides' tables alike. */
  lemma LineStep(line: Line, d: Dynamic, fields: seq<Field>, decoded: nat, seenField: bool, rest: Octets,
                 maxOut: nat, sink: Sink)
    requires Conforms(line, d) && AcceptsAll(sink)
    requires line.SizeUpdate? ==> !seenField
    requires !line.SizeUpdate? ==> decoded + |Meaning(line, d).name| + |Meaning(line, d).value| <= maxOut
    ensures DecodeFrom(LineWire(line) + rest, d, fields, decoded, seenField, maxOut, sink) ==
            if line.SizeUpdate? then DecodeFrom(rest, After(line, d), fields, decoded, seenField, maxOut, sink)
            else
              var f := Meaning(line, d);
              DecodeFrom(rest, After(line, d), fields + [f], decoded + |f.name| + |f.value|, true, maxOut, sink)
  {
    hide LineWire, ReadLine, Conforms, Meaning;
    assert (LineWire(line) + rest)[|LineWire(line)|..] == rest;
    LineSync(line, d, seenField, rest, maxOut);
  }

  lemma DecodeNothing(d: Dynamic, fields: seq<Field>, decoded: nat, seenField: bool, maxOut: nat, sink: Sink)
    ensures DecodeFrom([], d, fields, decoded, seenField, maxOut, sink) == BlockResult(Complete, fields, d)
  {
  }

  lemma {:induction false} BlockSyncFrom(lines: seq<Line>, d: Dynamic, fields: seq<Field>, decoded: nat,
                                         seenField: bool, maxOut: nat, sink: Sink, m: Meant)
    requires AcceptsAll(sink)
    requires BlockMeaning(lines, d, seenField) == Some(m) && decoded + ListSize(m.fields) <= maxOut
    ensures DecodeFrom(BlockWire(lines), d, fields, decoded, seenField, maxOut, sink) ==
            BlockResult(Complete, fields + m.fields, m.table)
  {
    DecodeNothing(d, fields, decoded, seenField, maxOut, sink);
    hide LineWire, ReadLine, Conforms, Meaning, After, DecodeFrom;
    if lines != [] {
      var line, rest, d' := lines[0], BlockWire(lines[1..]), After(lines[0], d);
      assert BlockWire(lines) == LineWire(line) + rest;
      var m' := BlockMeaning(lines[1..], d', !line.SizeUpdate?).value;
      if line.SizeUpdate? {
        LineStep(line, d, fields, decoded, seenField, rest, maxOut, sink);
        BlockSyncFrom(lines[1..], d', fields, decoded, false, maxOut, sink, m);
      } else {
        var f := Meaning(line, d);
        assert m.fields[1..] == m'.fields;
        LineStep(line, d, fields, decoded, seenField, rest, maxOut, sink);
        BlockSyncFrom(lines[1..], d', fields + [f], decoded + |f.name| + |f.value|, true, maxOut, sink, m');
        assert fields + [f] + m'.fields == fields + m.fields;
      }
    } else {
      assert fields + m.fields == fields;
    }
  }

  lemma BlockSync(lines: seq<Line>, d: Dynamic, maxOut: nat, sink: Sink, m: Meant)
    requires AcceptsAll(sink)
    requires BlockMeaning(lines, d, false) == Some(m) && ListSize(m.fields) <= maxOut
    ensures DecodeBlock(BlockWire(lines), d, maxOut, sink) == BlockResult(Complete, m.fields, m.table)
  {
    hide BlockMeaning, DecodeFrom, BlockWire;
    BlockSyncFrom(lines, d, [], 0, false, maxOut, sink, m);
    assert [] + m.fields == m.fields;
  }

  /** Blocks sent one after the other, each encoded against the table the last one left. */
  ghost function StreamMeaning(blocks: seq<seq<Line>>, d: Dynamic): Option<seq<Meant>> {
    if blocks == [] then Some([])
    else
      match BlockMeaning(blocks[0], d, false)
      case None => None
      case Some(m) =>
        match StreamMeaning(blocks[1..], m.table)
        case None => None
        case Some(ms) => Some([m] + ms)
  }

  /** The decoder's results for the octets of a series of blocks. */
  ghost function DecodeStream(wires: seq<Octets>, d: Dynamic, maxOut: nat, sink: Sink): seq<BlockResult> {
    if wires == [] then []
    else
      var r := DecodeBlock(wires[0], d, maxOut, sink);
      [r] + DecodeStream(wires[1..], r.table, maxOut, sink)
  }

  ghost function StreamWires(blocks: seq<seq<Line>>): (r: seq<Octets>)
    ensures |r| == |blocks|
  {
    if blocks == [] then [] else [BlockWire(blocks[0])] + StreamWires(blocks[1..])
  }

  /**
    Synchronisation: however many blocks a conforming encoder sends, the decoder emits exactly
    the fields it meant, in order, and the two dynamic tables are equal after every block.
   */
  lemma {:induction false} StreamSync(blocks: seq<seq<Line>>, d: Dynamic, maxOut: nat, sink: Sink, meant: seq<Meant>)
    requires AcceptsAll(sink) && StreamMeaning(blocks, d) == Some(meant)
    requires forall m | m in meant :: ListSize(m.fields) <= maxOut
    ensures var results := DecodeStream(StreamWires(blocks), d, maxOut, sink);
            && |results| == |meant| == |blocks|
            && forall k | 0 <= k < |meant| ::
                 results[k] == BlockResult(Complete, meant[k].fields, meant[k].table)
  {
    hide BlockMeaning, DecodeBlock, BlockWire;
    if blocks != [] {
      var m := BlockMeaning(blocks[0], d, false).value;
      assert meant[0] == m && meant[1..] == StreamMeaning(blocks[1..], m.table).value;
      assert m in meant;
      BlockSync(blocks[0], d, maxOut, sink, m);
      assert StreamWires(blocks)[1..] == StreamWires(blocks[1..]);
      StreamSync(blocks[1..], m.table, maxOut, sink, meant[1..]);
      var r := BlockResult(Complete, m.fields, m.table);
      assert DecodeStream(StreamWires(blocks), d, maxOut, sink) ==
             [r] + DecodeStream(StreamWires(blocks[1..]), m.table, maxOut, sink);
    }
  }

  // ------------------------------------------------------------ what is refused

  lemma {:induction false} ListSizeSnoc(fields: seq<Field>, f: Field)
    ensures ListSize(fields + [f]) == ListSize(fields) + |f.name| + |f.value|
  {
    if fields == [] {
      assert fields + [f] == [f] && [f][1..] == [];
    } else {
      assert (fields + [f])[1..] == fields[1..] + [f];
      ListSizeSnoc(fields[1..], f);
    }
  }

  lemma {:induction false} DecodedWithinFrom(p: Octets, d: Dynamic, fields: seq<Field>, decoded: nat, seenField: bool,
                                             maxOut: nat, sink: Sink)
    requires decoded == ListSize(fields) <= maxOut && d.Valid()
    ensures var r := DecodeFrom(p, d, fields, decoded, seenField, maxOut, sink);
            ListSize(r.fields) <= maxOut && r.table.Valid()
    decreases |p|
  {
    hide ReadLine, ListSize, Size, Fit;
    if p != [] {
      match ReadLine(p, d, seenField, maxOut)
      case LineErr =>
      case Update(n, used) =>
        TableBound(d, Field([], []), n);
        DecodedWithinFrom(p[used..], d.Resize(n), fields, decoded, seenField, maxOut, sink);
      case Emit(f, add, used) =>
        ListSizeSnoc(fields, f);
        TableBound(d, f, 0);
        if decoded + |f.name| + |f.value| <= maxOut && sink(fields + [f]) == 0 {
          DecodedWithinFrom(p[used..], if add then d.Add(f) else d, fields + [f],
                            decoded + |f.name| + |f.value|, true, maxOut, sink);
        }
    }
  }

  /** Whatever the octets, no more is emitted than the list limit allows, and the table stays in bounds. */
  lemma DecodedWithin(p: Octets, d: Dynamic, maxOut: nat, sink: Sink)
    requires d.Valid()
    ensures var r := DecodeBlock(p, d, maxOut, sink); ListSize(r.fields) <= maxOut && r.table.Valid()
  {
    hide DecodeFrom;
    DecodedWithinFrom(p, d, [], 0, false, maxOut, sink);
  }

  /** Sections 4.2, 6.1 and 6.3: a size update after a field or beyond the limit, and an index that names nothing. */
  lemma Refusals(p: Octets, d: Dynamic, maxOut: nat, n: nat, rest: Octets)
    ensures p != [] && 0x20 <= p[0] < 0x40 ==> ReadLine(p, d, true, maxOut) == LineErr
    ensures n > 4096 ==> forall seenField :: ReadLine(LineWire(SizeUpdate(n)) + rest, d, seenField, maxOut) == LineErr
    ensures n == 0 || n > 61 + |d.entries| ==>
              forall seenField :: ReadLine(LineWire(Indexed(n)) + rest, d, seenField, maxOut) == LineErr
  {
    PrefixInt.RoundTrip(5, 0x20, n, rest);
    PrefixInt.RoundTrip(7, 0x80, n, rest);
    hide PrefixInt.Encode, PrefixInt.Decode, ReadLiteral, StaticField;
  }
}
