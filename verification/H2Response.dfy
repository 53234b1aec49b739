/**
  Responses as a peer reads them: whatever its decoder's table, the field block gives the status in
  decimal and the headers in order, names in lower case, and the rest of the stream is the body.
 */
module H2Response {
  import opened Bytes
  import opened HpackTable
  import opened HpackBlock
  import opened HpackEncoder
  import opened H2Trace
  import opened H2Spec
  import opened H2Runs
  import H2Grammar
  import PrefixInt

  // ------------------------------------------------------------ what the peer should get

  /** The number that decimal digits spell. */
  function DigitsValue(s: Octets): int {
    if s == [] then 0 else 10 * DigitsValue(s[..|s| - 1]) + (s[|s| - 1] as int - 48)
  }

  /** A status in decimal digits, without leading zeros. */
  ghost predicate SpellsStatus(s: Octets, status: int) {
    && s != [] && (forall i | 0 <= i < |s| :: 48 <= s[i] <= 57)
    && (|s| > 1 ==> s[0] != 48) && DigitsValue(s) == status
  }

  /** The same octets, but that A to Z are a to z (section 8.2.1 of RFC 9113). */
  ghost predicate SpellsLower(sent: Octets, name: Octets) {
    && |sent| == |name|
    && forall i | 0 <= i < |name| :: sent[i] == if 65 <= name[i] <= 90 then name[i] + 32 else name[i]
  }

  /** ":status", then the headers one by one. */
  ghost predicate Carries(fields: seq<Field>, r: Response) {
    && |fields| == |r.headers| + 1
    && fields[0].name == [58, 115, 116, 97, 116, 117, 115] && SpellsStatus(fields[0].value, r.status)
    && forall k | 0 <= k < |r.headers| ::
         SpellsLower(fields[k + 1].name, r.headers[k].name) && fields[k + 1].value == r.headers[k].value
  }

  /** The response is one an encoder can send and the peer's limit on header lists admits. */
  ghost predicate Sendable(r: Response, maxOut: nat) {
    && r.status >= 0 && |Decimal(r.status)| <= PrefixInt.INT_MAX
    && (forall f | f in r.headers :: InRange(f))
    && 7 + |Decimal(r.status)| + ListSize(r.headers) <= maxOut
  }

  // ------------------------------------------------------------ names and status

  lemma {:induction false} DecimalSpells(n: nat)
    ensures SpellsStatus(Decimal(n), n)
    decreases n
  {
    if n >= 10 {
      DecimalSpells(n / 10);
      var s := Decimal(n);
      assert s[..|s| - 1] == Decimal(n / 10);
      FirstDigit(n / 10);
    } else {
      assert Decimal(n) == [48 + n];
      assert DigitsValue([48 + n]) == n by {
        var s: Octets := [48 + n];
        assert s[..0] == [];
      }
    }
  }

  lemma {:induction false} FirstDigit(n: nat)
    requires n > 0
    ensures Decimal(n)[0] != 48
    decreases n
  {
    if n >= 10 {
      FirstDigit(n / 10);
    }
  }

  lemma LowerSpells(name: Octets)
    ensures SpellsLower(LowerName(name), name) && IsLower(LowerName(name))
  {
  }

  lemma StatusName()
    ensures STATUS == [58, 115, 116, 97, 116, 117, 115]
  {
    var s := ":status";
    assert |STATUS| == 7;
    AsciiAt(s, 0);
    AsciiAt(s, 1);
    AsciiAt(s, 2);
    AsciiAt(s, 3);
    AsciiAt(s, 4);
    AsciiAt(s, 5);
    AsciiAt(s, 6);
    hide Ascii;
  }

  lemma {:induction false} NamesLowered(headers: seq<Field>)
    ensures var low := LowerNames(headers);
            && |low| == |headers| && ListSize(low) == ListSize(headers)
            && forall k | 0 <= k < |headers| :: low[k] == Field(LowerName(headers[k].name), headers[k].value)
  {
    if headers != [] {
      NamesLowered(headers[1..]);
      var low := LowerNames(headers);
      assert low[1..] == LowerNames(headers[1..]);
      assert |LowerName(headers[0].name)| == |headers[0].name|;
      hide LowerName;
      forall k | 0 <= k < |headers|
        ensures low[k] == Field(LowerName(headers[k].name), headers[k].value)
      {
        if k > 0 {
          assert low[k] == LowerNames(headers[1..])[k - 1];
          assert headers[k] == headers[1..][k - 1];
        }
      }
    }
  }

  /** Lower-case names are received as they are. */
  lemma LoweredReceived(headers: seq<Field>)
    ensures ReceivedAll(LowerNames(headers)) == LowerNames(headers)
  {
    var low := LowerNames(headers);
    NamesLowered(headers);
    hide LowerName, LowerNames, ReceivedAll, Received;
    forall k | 0 <= k < |low|
      ensures Received(low[k]) == low[k]
    {
      LowerSpells(headers[k].name);
      ReceivedName(low[k]);
    }
  }

  /** What an encoder lowers stays in range. */
  lemma LoweredInRange(headers: seq<Field>)
    requires forall f | f in headers :: InRange(f)
    ensures forall f | f in LowerNames(headers) :: InRange(f)
  {
    NamesLowered(headers);
    hide LowerName, LowerNames;
    var low := LowerNames(headers);
    forall f | f in low
      ensures InRange(f)
    {
      var k :| 0 <= k < |low| && low[k] == f;
      assert headers[k] in headers;
      LowerSpells(headers[k].name);
    }
  }

  /**
    The field block of a response decodes from any table, leaves the table alone, and carries the
    response: a peer is told the status and every header, in order, by its name in lower case.
   */
  lemma FieldBlockCarries(r: Response, d: Dynamic, maxOut: nat, sink: Sink)
    requires AcceptsAll(sink) && Sendable(r, maxOut)
    ensures var b := DecodeBlock(FieldBlock(r), d, maxOut, sink);
            b.outcome == Complete && b.table == d && Carries(b.fields, r)
  {
    var low := LowerNames(r.headers);
    var fields := [Field(STATUS, Decimal(r.status))] + low;
    LoweredInRange(r.headers);
    LoweredReceived(r.headers);
    NamesLowered(r.headers);
    DecimalSpells(r.status);
    StatusName();
    hide DecodeBlock, BlockWire, ResponseLines, LowerNames, LowerName, ReceivedAll, Decimal, SpellsStatus, InRange,
         STATUS;
    assert ListSize(fields) == 7 + |Decimal(r.status)| + ListSize(low) by {
      assert fields[1..] == low;
    }
    ResponseRoundTrip(r.status, low, d, maxOut, sink);
    hide ListSize;
    forall k | 0 <= k < |r.headers|
      ensures SpellsLower(fields[k + 1].name, r.headers[k].name) && fields[k + 1].value == r.headers[k].value
    {
      LowerSpells(r.headers[k].name);
      assert fields[k + 1] == low[k];
    }
  }

  // ------------------------------------------------------------ every run

  /** Responses that have no body on the wire: empty ones, and those to HEAD, 1xx, 204 and 304. */
  predicate Bodyless(r: Response, isHead: bool) {
    r.body == [] || isHead || r.status < 200 || r.status == 204 || r.status == 304
  }

  /** A field block as far as it is complete, read by a peer with any table, and the body behind it. */
  ghost predicate ReadsAs(block: Octets, data: Octets, r: Response, d: Dynamic, maxOut: nat, sink: Sink) {
    var b := DecodeBlock(block, d, maxOut, sink);
    b.outcome == Complete && b.table == d && Carries(b.fields, r) && data <= r.body
  }

  /**
    In every run, as soon as the header block of a stream is complete a peer reads from it the status and
    headers that the application gave, and the DATA behind it is a beginning of the body; a stream that has
    ended has the whole body, or none exactly where a response has none on the wire.
   */
  lemma ResponseReceived(env: Env, actions: seq<Action>, sid: nat, d: Dynamic, maxOut: nat, sink: Sink)
    requires sid > 0 && AcceptsAll(sink) && Sendable(env.app(sid), maxOut)
    ensures var t := Run(env, actions).conn.trace;
            var r := env.app(sid);
            && (PhaseOf(t, sid).Body? ==>
                  && ReadsAs(PhaseOf(t, sid).block, PhaseOf(t, sid).data, r, d, maxOut, sink)
                  && !Bodyless(r, WasHead(t, sid)))
            && (PhaseOf(t, sid).Ended? ==>
                  && ReadsAs(PhaseOf(t, sid).block, PhaseOf(t, sid).data, r, d, maxOut, sink)
                  && PhaseOf(t, sid).data == (if Bodyless(r, WasHead(t, sid)) then [] else r.body)
                  && (PhaseOf(t, sid).bodyless <==> Bodyless(r, WasHead(t, sid))))
  {
    H2Grammar.ResponseGrammar(env, actions, sid);
    hide Run, FieldBlock, DecodeBlock, Carries, Sendable, PhaseOf, WasHead;
    FieldBlockCarries(env.app(sid), d, maxOut, sink);
  }
}
