/**
  Header lists of HTTP/2 requests and trailers (h2_emit and h2_finish_headers of src/h2.c): which
  lists the server collects, field by field, which of them are requests, and how the lists collected
  compare with those that sections 8.2 and 8.3 of RFC 9113 allow. The server reads names and their
  order, and of values only that of "te".
 */
module H2Fields {
  import opened Bytes
  import opened HpackTable
  import HpackBlock
  import H2Spec
  import Target

  const COLON: Byte := 58
  const SIZE_MAX: nat := 0xffff_ffff_ffff_ffff

  /** Limits on field lists and targets. */
  datatype Caps = Caps(maxHeaders: nat, maxHeaderBytes: nat, maxUrl: nat)

  // ------------------------------------------------------------ names

  /** The characters of a token (section 5.6.2 of RFC 9110). */
  predicate TokenChar(b: Byte) {
    || 97 <= b <= 122 || 65 <= b <= 90 || 48 <= b <= 57
    || b == 33 || 35 <= b <= 39 || b == 42 || b == 43 || b == 45 || b == 46 || 94 <= b <= 96 || b == 124 || b == 126
  }

  predicate Token(s: Octets) {
    s != [] && forall i | 0 <= i < |s| :: TokenChar(s[i])
  }

  /** A token without upper-case letters. */
  predicate LowerToken(s: Octets) {
    s != [] && forall i | 0 <= i < |s| :: TokenChar(s[i]) && !(65 <= s[i] <= 90)
  }

  /** Fields that belong to a connection (section 8.2.2 of RFC 9113). */
  predicate ConnectionSpecific(name: Octets) {
    || name == Ascii("connection") || name == Ascii("keep-alive") || name == Ascii("proxy-connection")
    || name == Ascii("transfer-encoding") || name == Ascii("upgrade")
  }

  predicate IsPseudo(name: Octets) {
    name != [] && name[0] == COLON
  }

  datatype Pseudo = Method | Scheme | Path | Authority

  function PseudoOf(name: Octets): Option<Pseudo> {
    if name == Ascii(":method") then Some(Method)
    else if name == Ascii(":scheme") then Some(Scheme)
    else if name == Ascii(":path") then Some(Path)
    else if name == Ascii(":authority") then Some(Authority)
    else None
  }

  lemma PseudoNamesDiffer(a: Octets, b: Octets)
    requires PseudoOf(a).Some? && PseudoOf(a) == PseudoOf(b)
    ensures a == b
  {
    hide Ascii;
  }

  // ------------------------------------------------------------ one field after the other

  /** What the callback has collected. */
  datatype Collected = Collected(pseudo: map<Pseudo, Octets>, seenRegular: bool, headers: seq<Field>, bytes: nat)

  const NOTHING: Collected := Collected(map[], false, [], 0)

  /** Budget of the header list, twice that of a header block. */
  function ListCap(caps: Caps): nat {
    if caps.maxHeaderBytes > SIZE_MAX / 2 then SIZE_MAX else 2 * caps.maxHeaderBytes
  }

  function AddHeader(caps: Caps, x: Collected, f: Field): Option<Collected> {
    if |x.headers| >= caps.maxHeaders then None
    else if |f.name| > caps.maxHeaderBytes || |f.value| > caps.maxHeaderBytes || f.Cost() > ListCap(caps) - x.bytes
      then None
    else Some(x.(headers := x.headers + [f], bytes := x.bytes + f.Cost()))
  }

  /** One call of the callback; None refuses the list. */
  function EmitField(caps: Caps, trailer: bool, x: Collected, f: Field): Option<Collected> {
    if IsPseudo(f.name) then
      var p := PseudoOf(f.name);
      if trailer || x.seenRegular || p.None? || p.value in x.pseudo then None
      else Some(x.(pseudo := x.pseudo[p.value := f.value]))
    else if !LowerToken(f.name) || ConnectionSpecific(f.name) then None
    else if f.name == Ascii("te") && f.value != Ascii("trailers") then None
    else if trailer then Some(x.(seenRegular := true))
    else AddHeader(caps, x.(seenRegular := true), f)
  }

  function Emitted(caps: Caps, trailer: bool, fields: seq<Field>): Option<Collected> {
    if fields == [] then Some(NOTHING)
    else
      match Emitted(caps, trailer, fields[..|fields| - 1])
      case None => None
      case Some(x) => EmitField(caps, trailer, x, fields[|fields| - 1])
  }

  // ------------------------------------------------------------ which lists are collected

  /** A field that is no pseudo-header field. */
  predicate RegularOk(f: Field) {
    LowerToken(f.name) && !ConnectionSpecific(f.name) && (f.name == Ascii("te") ==> f.value == Ascii("trailers"))
  }

  function Regular(fields: seq<Field>): seq<Field> {
    if fields == [] then []
    else
      var last := fields[|fields| - 1];
      Regular(fields[..|fields| - 1]) + if IsPseudo(last.name) then [] else [last]
  }

  /**
    Known pseudo-header fields, each once and all in front; then fields in lower case that may be sent.
    Values are left open, but for "te".
   */
  ghost predicate WellNamed(trailer: bool, fields: seq<Field>) {
    && (forall i | 0 <= i < |fields| && IsPseudo(fields[i].name) :: !trailer && PseudoOf(fields[i].name).Some?)
    && (forall i, j | 0 <= i < j < |fields| && IsPseudo(fields[j].name) ::
        IsPseudo(fields[i].name) && fields[i].name != fields[j].name)
    && (forall i | 0 <= i < |fields| && !IsPseudo(fields[i].name) :: RegularOk(fields[i]))
  }

  /** The regular fields of a request are within the limits. */
  ghost predicate WithinCaps(caps: Caps, headers: seq<Field>) {
    && |headers| <= caps.maxHeaders && Size(headers) <= ListCap(caps)
    && forall i | 0 <= i < |headers| ::
         |headers[i].name| <= caps.maxHeaderBytes && |headers[i].value| <= caps.maxHeaderBytes
  }

  ghost predicate Acceptable(caps: Caps, trailer: bool, fields: seq<Field>) {
    WellNamed(trailer, fields) && (!trailer ==> WithinCaps(caps, Regular(fields)))
  }

  /** The value of a pseudo-header field, if the list has it. */
  ghost predicate HasPseudo(fields: seq<Field>, p: Pseudo, value: Octets) {
    exists i | 0 <= i < |fields| :: IsPseudo(fields[i].name) && PseudoOf(fields[i].name) == Some(p)
      && fields[i].value == value
  }

  ghost predicate AnyRegular(fields: seq<Field>) {
    exists i | 0 <= i < |fields| :: !IsPseudo(fields[i].name)
  }

  ghost predicate OnRecord(pseudo: map<Pseudo, Octets>, fields: seq<Field>) {
    forall p, v :: p in pseudo && pseudo[p] == v <==> HasPseudo(fields, p, v)
  }

  /** What has been collected of a list. */
  ghost predicate Holds(x: Collected, trailer: bool, fields: seq<Field>) {
    && (x.seenRegular <==> AnyRegular(fields)) && OnRecord(x.pseudo, fields)
    && x.headers == (if trailer then [] else Regular(fields)) && x.bytes == Size(x.headers)
  }

  lemma PrefixFormed(trailer: bool, init: seq<Field>, last: Field)
    ensures WellNamed(trailer, init + [last]) <==>
            && WellNamed(trailer, init)
            && (if IsPseudo(last.name) then
                  && !trailer && PseudoOf(last.name).Some?
                  && forall i | 0 <= i < |init| :: IsPseudo(init[i].name) && init[i].name != last.name
                else RegularOk(last))
  {
    hide PseudoOf, RegularOk;
    var all := init + [last];
    assert forall i | 0 <= i < |init| :: all[i] == init[i];
    assert all[|init|] == last;
    if WellNamed(trailer, all) {
      assert WellNamed(trailer, init);
    }
  }

  lemma RegularSnoc(init: seq<Field>, last: Field)
    ensures Regular(init + [last]) == Regular(init) + if IsPseudo(last.name) then [] else [last]
  {
    assert (init + [last])[..|init|] == init;
  }

  lemma PrefixCapped(caps: Caps, headers: seq<Field>, last: Field)
    ensures WithinCaps(caps, headers + [last]) <==>
            && WithinCaps(caps, headers) && |headers| < caps.maxHeaders && Size(headers) + last.Cost() <= ListCap(caps)
            && |last.name| <= caps.maxHeaderBytes && |last.value| <= caps.maxHeaderBytes
  {
    SizeAppend(headers, last);
    hide Size, ListCap;
    var all := headers + [last];
    assert forall i | 0 <= i < |headers| :: all[i] == headers[i];
    assert all[|headers|] == last;
  }

  lemma HasSnoc(init: seq<Field>, last: Field, p: Pseudo, value: Octets)
    ensures HasPseudo(init + [last], p, value) <==>
            HasPseudo(init, p, value) || (IsPseudo(last.name) && PseudoOf(last.name) == Some(p) && last.value == value)
  {
    hide PseudoOf;
    var all := init + [last];
    assert forall i | 0 <= i < |init| :: all[i] == init[i];
    assert all[|init|] == last;
  }

  lemma RegularSeen(init: seq<Field>, last: Field)
    ensures AnyRegular(init + [last]) <==> AnyRegular(init) || !IsPseudo(last.name)
  {
    var all := init + [last];
    assert forall i | 0 <= i < |init| :: all[i] == init[i];
    assert all[|init|] == last;
  }

  lemma RecordSnoc(pseudo: map<Pseudo, Octets>, init: seq<Field>, last: Field)
    requires OnRecord(pseudo, init)
    ensures !IsPseudo(last.name) ==> OnRecord(pseudo, init + [last])
    ensures IsPseudo(last.name) && PseudoOf(last.name).Some? && PseudoOf(last.name).value !in pseudo ==>
              OnRecord(pseudo[PseudoOf(last.name).value := last.value], init + [last])
  {
    hide PseudoOf, HasPseudo;
    forall p, v
      ensures HasPseudo(init + [last], p, v) <==>
              HasPseudo(init, p, v) || (IsPseudo(last.name) && PseudoOf(last.name) == Some(p) && last.value == v)
    {
      HasSnoc(init, last, p, v);
    }
  }

  /** A pseudo-header field is refused if its name was seen. */
  lemma PseudoSeen(x: Collected, trailer: bool, init: seq<Field>, last: Field)
    requires Holds(x, trailer, init) && IsPseudo(last.name) && PseudoOf(last.name).Some?
    requires forall i | 0 <= i < |init| :: IsPseudo(init[i].name)
    ensures PseudoOf(last.name).value in x.pseudo <==> exists i | 0 <= i < |init| :: init[i].name == last.name
  {
    var p := PseudoOf(last.name).value;
    hide PseudoOf;
    if i :| 0 <= i < |init| && init[i].name == last.name {
      assert HasPseudo(init, p, init[i].value);
    }
    if p in x.pseudo {
      assert HasPseudo(init, p, x.pseudo[p]);
      var i :| 0 <= i < |init| && IsPseudo(init[i].name) && PseudoOf(init[i].name) == Some(p);
      PseudoNamesDiffer(init[i].name, last.name);
    }
  }

  lemma EmitPseudo(caps: Caps, trailer: bool, x: Collected, init: seq<Field>, last: Field)
    requires Holds(x, trailer, init) && IsPseudo(last.name)
    ensures EmitField(caps, trailer, x, last).Some? <==>
            && !trailer && PseudoOf(last.name).Some?
            && forall i | 0 <= i < |init| :: IsPseudo(init[i].name) && init[i].name != last.name
  {
    assert AnyRegular(init) <==> exists i | 0 <= i < |init| :: !IsPseudo(init[i].name);
    hide PseudoOf, OnRecord, Regular, Size;
    if PseudoOf(last.name).Some? && !x.seenRegular {
      PseudoSeen(x, trailer, init, last);
    }
  }

  lemma PseudoStep(caps: Caps, trailer: bool, x: Collected, init: seq<Field>, last: Field)
    requires Acceptable(caps, trailer, init) && Holds(x, trailer, init) && IsPseudo(last.name)
    ensures EmitField(caps, trailer, x, last).Some? <==> Acceptable(caps, trailer, init + [last])
    ensures EmitField(caps, trailer, x, last).Some? ==>
            Holds(EmitField(caps, trailer, x, last).value, trailer, init + [last])
  {
    hide PseudoOf, WellNamed, WithinCaps, Size, Regular, OnRecord, AnyRegular, RegularOk;
    EmitPseudo(caps, trailer, x, init, last);
    PrefixFormed(trailer, init, last);
    RegularSnoc(init, last);
    RegularSeen(init, last);
    RecordSnoc(x.pseudo, init, last);
    assert Regular(init) + [] == Regular(init);
  }

  lemma EmitRegular(caps: Caps, trailer: bool, x: Collected, f: Field)
    requires !IsPseudo(f.name)
    ensures EmitField(caps, trailer, x, f) ==
            if !RegularOk(f) then None
            else if trailer then Some(x.(seenRegular := true))
            else AddHeader(caps, x.(seenRegular := true), f)
  {
    hide LowerToken, ConnectionSpecific, Ascii, PseudoOf, AddHeader;
  }

  /** A regular field within the limits is appended. */
  lemma HeaderAdded(caps: Caps, x: Collected, init: seq<Field>, last: Field)
    requires WithinCaps(caps, Regular(init)) && Holds(x, false, init) && !IsPseudo(last.name)
    ensures var r := AddHeader(caps, x.(seenRegular := true), last);
            && (r.Some? <==> WithinCaps(caps, Regular(init + [last])))
            && (r.Some? ==> Holds(r.value, false, init + [last]))
  {
    RegularSnoc(init, last);
    RegularSeen(init, last);
    RecordSnoc(x.pseudo, init, last);
    PrefixCapped(caps, Regular(init), last);
    SizeAppend(Regular(init), last);
    hide WithinCaps, Size, Regular, ListCap, OnRecord, AnyRegular, PseudoOf;
  }

  /** A trailer is looked at and dropped. */
  lemma TrailerSeen(x: Collected, init: seq<Field>, last: Field)
    requires Holds(x, true, init) && !IsPseudo(last.name)
    ensures Holds(x.(seenRegular := true), true, init + [last])
  {
    RegularSeen(init, last);
    RecordSnoc(x.pseudo, init, last);
    hide Regular, Size, OnRecord, AnyRegular, PseudoOf;
  }

  lemma RegularStep(caps: Caps, trailer: bool, x: Collected, init: seq<Field>, last: Field)
    requires Acceptable(caps, trailer, init) && Holds(x, trailer, init) && !IsPseudo(last.name)
    ensures EmitField(caps, trailer, x, last).Some? <==> Acceptable(caps, trailer, init + [last])
    ensures EmitField(caps, trailer, x, last).Some? ==>
            Holds(EmitField(caps, trailer, x, last).value, trailer, init + [last])
  {
    hide WellNamed, WithinCaps, RegularOk, EmitField, PseudoOf, AddHeader, Holds, Regular;
    PrefixFormed(trailer, init, last);
    EmitRegular(caps, trailer, x, last);
    if trailer {
      TrailerSeen(x, init, last);
    } else {
      HeaderAdded(caps, x, init, last);
    }
  }

  /** What is acceptable stays so without its last field. */
  lemma AcceptableInit(caps: Caps, trailer: bool, init: seq<Field>, last: Field)
    requires Acceptable(caps, trailer, init + [last])
    ensures Acceptable(caps, trailer, init)
  {
    hide WellNamed, WithinCaps, Regular, PseudoOf, RegularOk;
    PrefixFormed(trailer, init, last);
    RegularSnoc(init, last);
    PrefixCapped(caps, Regular(init), last);
    assert Regular(init) + [] == Regular(init);
  }

  lemma NothingCollected(caps: Caps, trailer: bool)
    ensures Acceptable(caps, trailer, []) && Holds(NOTHING, trailer, [])
  {
  }

  /**
    The callback collects a list if and only if it is well formed by its names and within the limits,
    whatever the values, and then it has the pseudo-header fields by name and the others in order; of
    trailers it keeps nothing.
   */
  lemma {:induction false} ListsCollected(caps: Caps, trailer: bool, fields: seq<Field>)
    ensures var r := Emitted(caps, trailer, fields);
            (r.Some? <==> Acceptable(caps, trailer, fields)) && (r.Some? ==> Holds(r.value, trailer, fields))
  {
    hide EmitField, Acceptable, Holds;
    if fields == [] {
      NothingCollected(caps, trailer);
    } else {
      var init, last := fields[..|fields| - 1], fields[|fields| - 1];
      assert fields == init + [last];
      ListsCollected(caps, trailer, init);
      if Acceptable(caps, trailer, fields) {
        AcceptableInit(caps, trailer, init, last);
      }
      if Acceptable(caps, trailer, init) {
        var x := Emitted(caps, trailer, init).value;
        if IsPseudo(last.name) {
          PseudoStep(caps, trailer, x, init, last);
        } else {
          RegularStep(caps, trailer, x, init, last);
        }
      }
    }
  }

  // ------------------------------------------------------------ against RFC 9113

  predicate Blank(b: Byte) {
    b == 32 || b == 9
  }

  /** Field values by section 8.2.1 of RFC 9113: no NUL, LF or CR, no blank at either end. */
  predicate ValueOk(value: Octets) {
    && (forall i | 0 <= i < |value| :: value[i] != 0 && value[i] != 10 && value[i] != 13)
    && (value != [] ==> !Blank(value[0]) && !Blank(value[|value| - 1]))
  }

  ghost predicate ValuesOk(fields: seq<Field>) {
    forall i | 0 <= i < |fields| :: ValueOk(fields[i].value)
  }

  /** Lists that sections 8.2.1, 8.2.2 and 8.3 of RFC 9113 allow, with tokens for names. */
  ghost predicate Conforming(trailer: bool, fields: seq<Field>) {
    WellNamed(trailer, fields) && ValuesOk(fields)
  }

  ghost predicate InCaps(caps: Caps, trailer: bool, fields: seq<Field>) {
    !trailer ==> WithinCaps(caps, Regular(fields))
  }

  /**
    Every conforming list within the limits is collected. On a given list the callback does what RFC 9113
    asks, refusing exactly what does not conform, if and only if the list is refused for its names or size,
    or its values are free of what section 8.2.1 rules out.
   */
  lemma ConformanceExact(caps: Caps, trailer: bool, fields: seq<Field>)
    ensures Conforming(trailer, fields) && InCaps(caps, trailer, fields) ==> Emitted(caps, trailer, fields).Some?
    ensures (Emitted(caps, trailer, fields).Some? <==>
             Conforming(trailer, fields) && InCaps(caps, trailer, fields)) <==>
            (Acceptable(caps, trailer, fields) ==> ValuesOk(fields))
  {
    ListsCollected(caps, trailer, fields);
    hide Emitted, WellNamed, WithinCaps, ValuesOk;
  }

  lemma OneField(caps: Caps, f: Field)
    requires RegularOk(f) && !IsPseudo(f.name) && WithinCaps(caps, [f])
    ensures Emitted(caps, false, [f]).Some?
  {
    hide WithinCaps, RegularOk, PseudoOf, Emitted, Regular;
    ListsCollected(caps, false, [f]);
    NothingCollected(caps, false);
    PrefixFormed(false, [], f);
    RegularSnoc([], f);
    RegularNone();
    assert [] + [f] == [f];
  }

  lemma RegularNone()
    ensures Regular([]) == []
  {
  }

  const X: Octets := [120]

  lemma XMayBeSent(value: Octets)
    ensures RegularOk(Field(X, value)) && !IsPseudo(X)
  {
    hide Ascii;
    assert X != Ascii("te") && !ConnectionSpecific(X);
    assert LowerToken(X);
  }

  lemma OneWithin(caps: Caps, f: Field)
    requires caps.maxHeaders > 0 && f.Cost() <= ListCap(caps)
    requires |f.name| <= caps.maxHeaderBytes && |f.value| <= caps.maxHeaderBytes
    ensures WithinCaps(caps, [f])
  {
    hide ListCap;
    assert [f][1..] == [] && Size([]) == 0 && Size([f]) == f.Cost();
  }

  /** A list of one field "x" is collected whatever the value is; one blank would do to break section 8.2.1. */
  lemma ValueUnread(caps: Caps, value: Octets)
    requires |value| + 1 <= caps.maxHeaderBytes && |value| + 33 <= ListCap(caps) && caps.maxHeaders > 0
    ensures var fields := [Field(X, value)];
            && Emitted(caps, false, fields).Some?
            && (Conforming(false, fields) <==> ValueOk(value))
    ensures !ValueOk([32])
  {
    assert !ValueOk([32]);
    assert |X| == 1;
    hide Emitted, ValueOk, ListCap, RegularOk, WellNamed, WithinCaps, X, ValuesOk, IsPseudo, Regular;
    var f := Field(X, value);
    XMayBeSent(value);
    OneWithin(caps, f);
    OneField(caps, f);
    ListsCollected(caps, false, [f]);
    OneValue(f);
  }

  lemma OneValue(f: Field)
    ensures ValuesOk([f]) <==> ValueOk(f.value)
  {
    hide ValueOk;
    assert [f][0] == f;
  }

  // ------------------------------------------------------------ the callback as the decoder sees it

  /** The callback of the source: -1 refuses the field emitted last. */
  ghost function EmitSink(caps: Caps, trailer: bool): HpackBlock.Sink {
    (fields: seq<Field>) => if Emitted(caps, trailer, fields).Some? then 0 else -1
  }

  lemma {:induction false} RefusedStays(caps: Caps, trailer: bool, fields: seq<Field>, k: nat)
    requires Emitted(caps, trailer, fields).Some? && k <= |fields|
    ensures Emitted(caps, trailer, fields[..k]).Some?
    decreases |fields|
  {
    if k < |fields| {
      assert fields[..|fields| - 1][..k] == fields[..k];
      RefusedStays(caps, trailer, fields[..|fields| - 1], k);
    } else {
      assert fields[..k] == fields;
    }
  }

  /** The callback lets a list through to its end if and only if the list is acceptable. */
  lemma AcceptsPrefixes(caps: Caps, trailer: bool, fields: seq<Field>)
    ensures (forall k | 0 <= k <= |fields| :: EmitSink(caps, trailer)(fields[..k]) == 0) <==>
            Acceptable(caps, trailer, fields)
  {
    ListsCollected(caps, trailer, fields);
    hide Acceptable, Emitted;
    assert fields[..|fields|] == fields;
    if Acceptable(caps, trailer, fields) {
      forall k | 0 <= k <= |fields|
        ensures EmitSink(caps, trailer)(fields[..k]) == 0
      {
        RefusedStays(caps, trailer, fields, k);
      }
    } else {
      assert EmitSink(caps, trailer)(fields[..|fields|]) == -1;
    }
  }

  // ------------------------------------------------------------ requests

  /** A string as strlen reads it. */
  function CString(s: Octets): (r: Octets)
    ensures 0 !in r && r <= s && (0 !in s ==> r == s)
  {
    if s == [] || s[0] == 0 then [] else [s[0]] + CString(s[1..])
  }

  /** Method, scheme and path are there, the method is a token and the path a target (section 8.3.1). */
  ghost predicate RequestOk(caps: Caps, fields: seq<Field>) {
    && (exists v :: HasPseudo(fields, Scheme, v))
    && (exists v :: HasPseudo(fields, Method, v) && Token(CString(v)))
    && (exists v :: HasPseudo(fields, Path, v) && Target.DecodeTarget(CString(v), caps.maxUrl).Some?)
  }

  function IsRequest(caps: Caps, x: Collected): bool {
    && Method in x.pseudo && Scheme in x.pseudo && Path in x.pseudo
    && Token(CString(x.pseudo[Method])) && Target.DecodeTarget(CString(x.pseudo[Path]), caps.maxUrl).Some?
  }

  function IsHead(x: Collected): bool {
    Method in x.pseudo && CString(x.pseudo[Method]) == Ascii("HEAD")
  }

  /** What becomes of a block: a decoder that stopped by itself is a compression error. */
  function Judge(caps: Caps, trailer: bool, outcome: HpackBlock.Outcome, fields: seq<Field>): H2Spec.HeaderOutcome {
    match outcome
    case Malformed => H2Spec.CompressionError
    case Stopped(_) => H2Spec.MalformedList
    case Complete =>
      match Emitted(caps, trailer, fields)
      case None => H2Spec.MalformedList
      case Some(x) => H2Spec.FieldList(IsRequest(caps, x), IsHead(x))
  }

  /** A list is taken for a request if and only if it is one. */
  lemma RequestsJudged(caps: Caps, trailer: bool, fields: seq<Field>)
    requires Acceptable(caps, trailer, fields)
    ensures var j := Judge(caps, trailer, HpackBlock.Complete, fields);
            && j.FieldList? && (j.request <==> RequestOk(caps, fields))
            && (j.isHead <==> exists v :: HasPseudo(fields, Method, v) && CString(v) == Ascii("HEAD"))
  {
    ListsCollected(caps, trailer, fields);
    hide Acceptable, Emitted, Ascii, HasPseudo, CString, Token, Target.DecodeTarget;
    var x := Emitted(caps, trailer, fields).value;
    assert OnRecord(x.pseudo, fields);
    assert Method in x.pseudo ==> HasPseudo(fields, Method, x.pseudo[Method]);
    assert Scheme in x.pseudo ==> HasPseudo(fields, Scheme, x.pseudo[Scheme]);
    assert Path in x.pseudo ==> HasPseudo(fields, Path, x.pseudo[Path]);
  }

  // ------------------------------------------------------------ in place

  method LowerTokenOk(s: Octets) returns (ok: bool)
    ensures ok <==> LowerToken(s)
  {
    if |s| == 0 {
      return false;
    }
    for i := 0 to |s|
      invariant forall k | 0 <= k < i :: TokenChar(s[k]) && !(65 <= s[k] <= 90)
    {
      if 65 <= s[i] <= 90 || !TokenChar(s[i]) {
        return false;
      }
    }
    return true;
  }

  method TokenOk(s: Octets) returns (ok: bool)
    ensures ok <==> Token(s)
  {
    if |s| == 0 {
      return false;
    }
    for i := 0 to |s|
      invariant forall k | 0 <= k < i :: TokenChar(s[k])
    {
      if !TokenChar(s[i]) {
        return false;
      }
    }
    return true;
  }

  /** The context that the callback fills in while a block is decoded. */
  class Context {
    const caps: Caps
    const trailer: bool
    var pseudo: map<Pseudo, Octets>
    var seenRegular: bool
    var headers: seq<Field>
    var bytes: nat

    constructor (caps: Caps, trailer: bool)
      ensures this.caps == caps && this.trailer == trailer && Snapshot() == NOTHING
    {
      this.caps, this.trailer := caps, trailer;
      pseudo, seenRegular, headers, bytes := map[], false, [], 0;
    }

    function Snapshot(): Collected
      reads this
    {
      Collected(pseudo, seenRegular, headers, bytes)
    }

    /** Appends a header if the limits allow. */
    method Add(f: Field) returns (ok: bool)
      modifies this
      ensures var r := AddHeader(caps, old(Snapshot()), f);
              ok == r.Some? && Snapshot() == if ok then r.value else old(Snapshot())
    {
      var cap := ListCap(caps);
      if |headers| >= caps.maxHeaders
        || |f.name| > caps.maxHeaderBytes || |f.value| > caps.maxHeaderBytes || f.Cost() > cap - bytes {
        return false;
      }
      headers, bytes := headers + [f], bytes + f.Cost();
      return true;
    }

    /** The callback: 0 to go on, -1 to stop. A refused field is at most noted as regular. */
    method Emit(f: Field) returns (code: int)
      modifies this
      ensures var r := EmitField(caps, trailer, old(Snapshot()), f);
              && code == (if r.Some? then 0 else -1)
              && Snapshot() ==
                 if r.Some? then r.value
                 else old(Snapshot()).(seenRegular := old(seenRegular) || !IsPseudo(f.name))
    {
      hide Ascii, LowerToken, AddHeader;
      if |f.name| > 0 && f.name[0] == COLON {
        var p := PseudoOf(f.name);
        if trailer || seenRegular || p.None? || p.value in pseudo {
          return -1;
        }
        pseudo := pseudo[p.value := f.value];
        return 0;
      }
      seenRegular := true;
      var lower := LowerTokenOk(f.name);
      if !lower || ConnectionSpecific(f.name) || (f.name == Ascii("te") && f.value != Ascii("trailers")) {
        return -1;
      }
      if trailer {
        return 0;
      }
      var added := Add(f);
      return if added then 0 else -1;
    }

    /** Whether the list collected is a request; the path is decoded last. */
    method Complete() returns (ok: bool)
      ensures ok <==> IsRequest(caps, Snapshot())
    {
      hide Token, CString, Target.DecodeTarget;
      if Method !in pseudo || Scheme !in pseudo || Path !in pseudo {
        return false;
      }
      var token := TokenOk(CString(pseudo[Method]));
      if !token {
        return false;
      }
      var target := Target.ReadTarget(CString(pseudo[Path]), caps.maxUrl);
      return target.Some?;
    }
  }
}
