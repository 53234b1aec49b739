/**
  The server's own header encoder (src/hpack.c and h2_encode_header of src/h2.c): literals
  without indexing, static name references, no Huffman coding and no state.
 */
module HpackEncoder {
  import opened Bytes
  import opened HpackTable
  import opened HpackBlock
  import PrefixInt

  function Lower(b: Byte): Byte {
    if 65 <= b <= 90 then b + 32 else b
  }

  /** ASCII case-insensitive equality. */
  predicate SameName(a: Octets, b: Octets) {
    |a| == |b| && forall i | 0 <= i < |a| :: Lower(a[i]) == Lower(b[i])
  }

  predicate IsLower(a: Octets) {
    forall i | 0 <= i < |a| :: Lower(a[i]) == a[i]
  }

  lemma {:induction false} AsciiAt(s: string, k: nat)
    requires k < |s|
    ensures Ascii(s)[k] == s[k] as int % 256
  {
    if k > 0 {
      AsciiAt(s[1..], k - 1);
    }
  }

  predicate LowerChars(s: string) {
    forall k | 0 <= k < |s| :: s[k] < 'A' || 'Z' < s[k] < 128 as char
  }

  lemma LowerLiteral(s: string)
    requires LowerChars(s)
    ensures IsLower(Ascii(s))
  {
    forall k | 0 <= k < |s|
      ensures Lower(Ascii(s)[k]) == Ascii(s)[k]
    {
      AsciiAt(s, k);
    }
  }

  lemma LowerNames1(i: nat)
    requires 1 <= i < 11
    ensures LowerChars(StaticEntry1(i).0)
  {
    match i
    case 1 => assert LowerChars(StaticEntry1(1).0);
    case 2 => assert LowerChars(StaticEntry1(2).0);
    case 3 => assert LowerChars(StaticEntry1(3).0);
    case 4 => assert LowerChars(StaticEntry1(4).0);
    case 5 => assert LowerChars(StaticEntry1(5).0);
    case 6 => assert LowerChars(StaticEntry1(6).0);
    case 7 => assert LowerChars(StaticEntry1(7).0);
    case 8 => assert LowerChars(StaticEntry1(8).0);
    case 9 => assert LowerChars(StaticEntry1(9).0);
    case _ => assert LowerChars(StaticEntry1(10).0);
  }

  lemma LowerNames11(i: nat)
    requires 11 <= i < 21
    ensures LowerChars(StaticEntry11(i).0)
  {
    match i
    case 11 => assert LowerChars(StaticEntry11(11).0);
    case 12 => assert LowerChars(StaticEntry11(12).0);
    case 13 => assert LowerChars(StaticEntry11(13).0);
    case 14 => assert LowerChars(StaticEntry11(14).0);
    case 15 => assert LowerChars(StaticEntry11(15).0);
    case 16 => assert LowerChars(StaticEntry11(16).0);
    case 17 => assert LowerChars(StaticEntry11(17).0);
    case 18 => assert LowerChars(StaticEntry11(18).0);
    case 19 => assert LowerChars(StaticEntry11(19).0);
    case _ => assert LowerChars(StaticEntry11(20).0);
  }

  lemma LowerNames21(i: nat)
    requires 21 <= i < 31
    ensures LowerChars(StaticEntry21(i).0)
  {
    match i
    case 21 => assert LowerChars(StaticEntry21(21).0);
    case 22 => assert LowerChars(StaticEntry21(22).0);
    case 23 => assert LowerChars(StaticEntry21(23).0);
    case 24 => assert LowerChars(StaticEntry21(24).0);
    case 25 => assert LowerChars(StaticEntry21(25).0);
    case 26 => assert LowerChars(StaticEntry21(26).0);
    case 27 => assert LowerChars(StaticEntry21(27).0);
    case 28 => assert LowerChars(StaticEntry21(28).0);
    case 29 => assert LowerChars(StaticEntry21(29).0);
    case _ => assert LowerChars(StaticEntry21(30).0);
  }

  lemma LowerNames31(i: nat)
    requires 31 <= i < 41
    ensures LowerChars(StaticEntry31(i).0)
  {
    match i
    case 31 => assert LowerChars(StaticEntry31(31).0);
    case 32 => assert LowerChars(StaticEntry31(32).0);
    case 33 => assert LowerChars(StaticEntry31(33).0);
    case 34 => assert LowerChars(StaticEntry31(34).0);
    case 35 => assert LowerChars(StaticEntry31(35).0);
    case 36 => assert LowerChars(StaticEntry31(36).0);
    case 37 => assert LowerChars(StaticEntry31(37).0);
    case 38 => assert LowerChars(StaticEntry31(38).0);
    case 39 => assert LowerChars(StaticEntry31(39).0);
    case _ => assert LowerChars(StaticEntry31(40).0);
  }

  lemma LowerNames41(i: nat)
    requires 41 <= i < 51
    ensures LowerChars(StaticEntry41(i).0)
  {
    match i
    case 41 => assert LowerChars(StaticEntry41(41).0);
    case 42 => assert LowerChars(StaticEntry41(42).0);
    case 43 => assert LowerChars(StaticEntry41(43).0);
    case 44 => assert LowerChars(StaticEntry41(44).0);
    case 45 => assert LowerChars(StaticEntry41(45).0);
    case 46 => assert LowerChars(StaticEntry41(46).0);
    case 47 => assert LowerChars(StaticEntry41(47).0);
    case 48 => assert LowerChars(StaticEntry41(48).0);
    case 49 => assert LowerChars(StaticEntry41(49).0);
    case _ => assert LowerChars(StaticEntry41(50).0);
  }

  lemma LowerNames51(i: nat)
    requires 51 <= i < 61
    ensures LowerChars(StaticEntry51(i).0)
  {
    match i
    case 51 => assert LowerChars(StaticEntry51(51).0);
    case 52 => assert LowerChars(StaticEntry51(52).0);
    case 53 => assert LowerChars(StaticEntry51(53).0);
    case 54 => assert LowerChars(StaticEntry51(54).0);
    case 55 => assert LowerChars(StaticEntry51(55).0);
    case 56 => assert LowerChars(StaticEntry51(56).0);
    case 57 => assert LowerChars(StaticEntry51(57).0);
    case 58 => assert LowerChars(StaticEntry51(58).0);
    case 59 => assert LowerChars(StaticEntry51(59).0);
    case _ => assert LowerChars(StaticEntry51(60).0);
  }

  lemma LowerNames61(i: nat)
    requires 61 <= i <= STATIC_N
    ensures LowerChars(StaticEntry61(i).0)
  {
  }

  lemma StaticNamesAreLower(i: nat)
    requires 1 <= i <= STATIC_N
    ensures IsLower(StaticField(i).name)
  {
    hide IsLower, LowerChars;
    hide StaticEntry1, StaticEntry11, StaticEntry21, StaticEntry31, StaticEntry41, StaticEntry51, StaticEntry61;
    if
    case 1 <= i < 11 => LowerNames1(i); LowerLiteral(StaticEntry1(i).0);
    case 11 <= i < 21 => LowerNames11(i); LowerLiteral(StaticEntry11(i).0);
    case 21 <= i < 31 => LowerNames21(i); LowerLiteral(StaticEntry21(i).0);
    case 31 <= i < 41 => LowerNames31(i); LowerLiteral(StaticEntry31(i).0);
    case 41 <= i < 51 => LowerNames41(i); LowerLiteral(StaticEntry41(i).0);
    case 51 <= i < 61 => LowerNames51(i); LowerLiteral(StaticEntry51(i).0);
    case 61 <= i < 71 => LowerNames61(i); LowerLiteral(StaticEntry61(i).0);
  }

  // ------------------------------------------------------------ one header

  /** The first static entry of that name, or 0. */
  method StaticNameIndex(name: Octets) returns (r: nat)
    ensures IsStaticNameIndex(name, r)
  {
    hide StaticField;
    for i := 1 to STATIC_N + 1
      invariant forall j | 1 <= j < i :: !SameName(StaticField(j).name, name)
    {
      if SameName(StaticField(i).name, name) {
        return i;
      }
    }
    r := 0;
  }

  ghost predicate IsStaticNameIndex(name: Octets, r: nat) {
    && r <= STATIC_N
    && (r > 0 ==> SameName(StaticField(r).name, name))
    && forall j | 1 <= j <= STATIC_N && (r == 0 || j < r) :: !SameName(StaticField(j).name, name)
  }

  /** The index is determined by the name. */
  ghost function NameIndex(name: Octets): (r: nat)
    ensures IsStaticNameIndex(name, r)
  {
    NameIndexExists(name);
    var r :| IsStaticNameIndex(name, r);
    r
  }

  lemma NameIndexExists(name: Octets)
    ensures exists r :: IsStaticNameIndex(name, r)
  {
    hide StaticField;
    var i := 1;
    while i <= STATIC_N && !SameName(StaticField(i).name, name)
      invariant 1 <= i <= STATIC_N + 1
      invariant forall j | 1 <= j < i :: !SameName(StaticField(j).name, name)
    {
      i := i + 1;
    }
    assert IsStaticNameIndex(name, if i <= STATIC_N then i else 0);
  }

  lemma NameIndexIsUnique(name: Octets, r: nat)
    requires IsStaticNameIndex(name, r)
    ensures r == NameIndex(name)
  {
    hide StaticField, SameName;
  }

  /** The representation the server chooses: never indexed into any table. */
  ghost function HeaderLine(name: Octets, value: Octets): Line {
    var i := NameIndex(name);
    Plain(if i > 0 then ByIndex(i) else ByText(Raw(name)), Raw(value), false)
  }

  method EncodeHeader(out: Octets, name: Octets, value: Octets) returns (r: Octets)
    ensures r == out + LineWire(HeaderLine(name, value))
  {
    hide PrefixInt.Encode, IsStaticNameIndex;
    var i := StaticNameIndex(name);
    NameIndexIsUnique(name, i);
    if i > 0 {
      r := PrefixInt.EncodeInt(out, 4, 0, i);
    } else {
      r := PrefixInt.EncodeInt(out, 4, 0, 0);
      r := RawString(r, name);
    }
    r := RawString(r, value);
    assert r == out + LineWire(HeaderLine(name, value));
  }

  method RawString(out: Octets, s: Octets) returns (r: Octets)
    ensures r == out + TextWire(Raw(s))
  {
    hide PrefixInt.Encode;
    r := PrefixInt.EncodeInt(out, 7, 0, |s|);
    r := r + s;
  }

  /** A decimal number as printf writes it. */
  function Decimal(n: int): (r: Octets)
    ensures 1 <= |r|
    decreases if n < 0 then 1 - n else n
  {
    if n < 0 then [45] + Decimal(-n)
    else if n < 10 then [48 + n]
    else Decimal(n / 10) + [48 + n % 10]
  }

  ghost function StatusLine(status: int): Line {
    Plain(ByIndex(8), Raw(Decimal(status)), false)
  }

  method EncodeStatus(out: Octets, status: int) returns (r: Octets)
    ensures r == out + LineWire(StatusLine(status))
  {
    hide PrefixInt.Encode;
    r := PrefixInt.EncodeInt(out, 4, 0, 8);
    r := RawString(r, Decimal(status));
    assert r == out + LineWire(StatusLine(status));
  }

  // ------------------------------------------------------------ a field block

  ghost function HeaderLines(headers: seq<Field>): seq<Line> {
    if headers == [] then [] else [HeaderLine(headers[0].name, headers[0].value)] + HeaderLines(headers[1..])
  }

  /** Lines of a response: the status and then the headers. */
  ghost function ResponseLines(status: int, headers: seq<Field>): seq<Line> {
    [StatusLine(status)] + HeaderLines(headers)
  }

  /** What a peer reads: static names in the spelling of the static table. */
  ghost function Received(f: Field): Field {
    var i := NameIndex(f.name);
    if i > 0 then Field(StaticField(i).name, f.value) else f
  }

  ghost function ReceivedAll(headers: seq<Field>): (r: seq<Field>)
    ensures |r| == |headers|
    ensures forall k | 0 <= k < |r| :: r[k] == Received(headers[k])
  {
    if headers == [] then [] else [Received(headers[0])] + ReceivedAll(headers[1..])
  }

  /** The same name up to case; exactly the same once names are lowercased. */
  lemma ReceivedName(f: Field)
    ensures SameName(Received(f).name, f.name) && Received(f).value == f.value
    ensures IsLower(f.name) ==> Received(f) == f
  {
    hide StaticField;
    var i := NameIndex(f.name);
    if i > 0 {
      StaticNamesAreLower(i);
      if IsLower(f.name) {
        assert StaticField(i).name == f.name;
      }
    }
  }

  ghost predicate InRange(f: Field) {
    |f.name| <= PrefixInt.INT_MAX && |f.value| <= PrefixInt.INT_MAX
  }

  lemma HeaderMeaning(f: Field, d: Dynamic)
    requires InRange(f)
    ensures HeaderLine(f.name, f.value).Plain? && Conforms(HeaderLine(f.name, f.value), d)
    ensures Meaning(HeaderLine(f.name, f.value), d) == Received(f)
    ensures After(HeaderLine(f.name, f.value), d) == d
  {
    hide StaticField;
  }

  lemma {:induction false} HeadersMeaning(headers: seq<Field>, d: Dynamic, seenField: bool)
    requires forall f | f in headers :: InRange(f)
    ensures BlockMeaning(HeaderLines(headers), d, seenField) == Some(Meant(ReceivedAll(headers), d))
  {
    hide HeaderLine, Conforms, Meaning, After, Received, InRange;
    if headers != [] {
      HeaderMeaning(headers[0], d);
      HeadersMeaning(headers[1..], d, true);
      assert HeaderLines(headers)[1..] == HeaderLines(headers[1..]);
    }
  }

  const STATUS: Octets := Ascii(":status")

  lemma StatusMeaning(status: int, d: Dynamic)
    requires |Decimal(status)| <= PrefixInt.INT_MAX
    ensures StatusLine(status).Plain? && Conforms(StatusLine(status), d) && After(StatusLine(status), d) == d
    ensures Meaning(StatusLine(status), d) == Field(STATUS, Decimal(status))
  {
    assert StaticEntry(8).0 == ":status";
  }

  /**
    No response can desynchronise a peer: its decoder, in whatever table state, reads back the
    status and the headers in order, and its dynamic table is untouched.
   */
  lemma ResponseRoundTrip(status: int, headers: seq<Field>, d: Dynamic, maxOut: nat, sink: Sink)
    requires AcceptsAll(sink)
    requires |Decimal(status)| <= PrefixInt.INT_MAX && forall f | f in headers :: InRange(f)
    requires ListSize([Field(STATUS, Decimal(status))] + ReceivedAll(headers)) <= maxOut
    ensures DecodeBlock(BlockWire(ResponseLines(status, headers)), d, maxOut, sink) ==
            BlockResult(Complete, [Field(STATUS, Decimal(status))] + ReceivedAll(headers), d)
  {
    hide StatusLine, Conforms, Meaning, After, DecodeBlock, BlockWire, HeaderLines, InRange, ListSize;
    StatusMeaning(status, d);
    HeadersMeaning(headers, d, true);
    var lines := ResponseLines(status, headers);
    assert lines[0] == StatusLine(status) && lines[1..] == HeaderLines(headers);
    assert BlockMeaning(lines, d, false) ==
           Some(Meant([Field(STATUS, Decimal(status))] + ReceivedAll(headers), d));
    BlockSync(lines, d, maxOut, sink, Meant([Field(STATUS, Decimal(status))] + ReceivedAll(headers), d));
  }
}
