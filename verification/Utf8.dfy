/** The table-driven UTF-8 validator of src/http_util.c against the grammar of RFC 3629. */
module Utf8 {
  import opened Bytes

  const ACCEPT: nat := 0
  const REJECT: nat := 12

  /** The first half of the table: octet to character class. */
  function Class(b: Byte): (c: nat)
    ensures c < 12
  {
    if b < 0x80 then 0
    else if b < 0x90 then 1
    else if b < 0xA0 then 9
    else if b < 0xC0 then 7
    else if b < 0xC2 then 8
    else if b < 0xE0 then 2
    else if b == 0xE0 then 10
    else if b == 0xED then 4
    else if b < 0xF0 then 3
    else if b == 0xF0 then 11
    else if b < 0xF4 then 6
    else if b == 0xF4 then 5
    else 8
  }

  /** The second half of the table, one row per state. */
  function Row(state: nat): (r: seq<nat>)
    ensures |r| == 12
  {
    match state
    case 0 => [0, 12, 24, 36, 60, 96, 84, 12, 12, 12, 48, 72]
    case 24 => [12, 0, 12, 12, 12, 12, 12, 0, 12, 0, 12, 12]
    case 36 => [12, 24, 12, 12, 12, 12, 12, 24, 12, 24, 12, 12]
    case 48 => [12, 12, 12, 12, 12, 12, 12, 24, 12, 12, 12, 12]
    case 60 => [12, 24, 12, 12, 12, 12, 12, 12, 12, 24, 12, 12]
    case 72 => [12, 12, 12, 12, 12, 12, 12, 36, 12, 36, 12, 12]
    case 84 => [12, 36, 12, 12, 12, 12, 12, 36, 12, 36, 12, 12]
    case 96 => [12, 36, 12, 12, 12, 12, 12, 12, 12, 12, 12, 12]
    case _ => [12, 12, 12, 12, 12, 12, 12, 12, 12, 12, 12, 12]
  }

  predicate IsState(state: nat) {
    state % 12 == 0 && state <= 96
  }

  function Step(state: nat, b: Byte): nat {
    Row(state)[Class(b)]
  }

  function Run(state: nat, s: Octets): nat
    decreases |s|
  {
    if s == [] then state else Run(Step(state, s[0]), s[1..])
  }

  // ------------------------------------------------------------ the grammar

  predicate Tail(b: Byte) {
    0x80 <= b <= 0xBF
  }

  /** UTF8-1 to UTF8-4 of section 4 of RFC 3629. */
  predicate IsChar(c: Octets) {
    || (|c| == 1 && c[0] <= 0x7F)
    || (|c| == 2 && 0xC2 <= c[0] <= 0xDF && Tail(c[1]))
    || (|c| == 3 && Tail(c[2])
        && ((c[0] == 0xE0 && 0xA0 <= c[1] <= 0xBF) || (0xE1 <= c[0] <= 0xEC && Tail(c[1]))
            || (c[0] == 0xED && 0x80 <= c[1] <= 0x9F) || (0xEE <= c[0] <= 0xEF && Tail(c[1]))))
    || (|c| == 4 && Tail(c[2]) && Tail(c[3])
        && ((c[0] == 0xF0 && 0x90 <= c[1] <= 0xBF) || (0xF1 <= c[0] <= 0xF3 && Tail(c[1]))
            || (c[0] == 0xF4 && 0x80 <= c[1] <= 0x8F)))
  }

  /** UTF8-octets: a string of characters. */
  ghost predicate WellFormed(s: Octets)
    decreases |s|
  {
    s == [] || exists n | 1 <= n <= |s| :: IsChar(s[..n]) && WellFormed(s[n..])
  }

  /** What may follow in each state of the automaton. */
  ghost predicate Completes(state: nat, s: Octets) {
    match state
    case 0 => WellFormed(s)
    case 24 => |s| >= 1 && Tail(s[0]) && WellFormed(s[1..])
    case 36 => |s| >= 2 && Tail(s[0]) && Tail(s[1]) && WellFormed(s[2..])
    case 48 => |s| >= 2 && 0xA0 <= s[0] <= 0xBF && Tail(s[1]) && WellFormed(s[2..])
    case 60 => |s| >= 2 && 0x80 <= s[0] <= 0x9F && Tail(s[1]) && WellFormed(s[2..])
    case 72 => |s| >= 3 && 0x90 <= s[0] <= 0xBF && Tail(s[1]) && Tail(s[2]) && WellFormed(s[3..])
    case 84 => |s| >= 3 && Tail(s[0]) && Tail(s[1]) && Tail(s[2]) && WellFormed(s[3..])
    case 96 => |s| >= 3 && 0x80 <= s[0] <= 0x8F && Tail(s[1]) && Tail(s[2]) && WellFormed(s[3..])
    case _ => false
  }

  /** The first octet decides how long a character is. */
  function CharLength(b: Byte): nat {
    if b < 0x80 then 1 else if b < 0xE0 then 2 else if b < 0xF0 then 3 else 4
  }

  lemma CharHead(c: Octets)
    requires IsChar(c)
    ensures |c| == CharLength(c[0])
  {
  }

  /** A character is its first octet and what the automaton then waits for. */
  lemma CharStep(c: Octets, t: Octets)
    requires c != [] && |c| <= |t| + 1 && forall k | 1 <= k < |c| :: c[k] == t[k - 1]
    requires |c| == CharLength(c[0])
    ensures IsChar(c) && WellFormed(t[|c| - 1..]) <==> Completes(Step(ACCEPT, c[0]), t)
  {
    hide WellFormed;
  }

  lemma TooShort(b: Byte, t: Octets)
    requires CharLength(b) > |t| + 1
    ensures !Completes(Step(ACCEPT, b), t)
  {
    hide WellFormed;
  }

  lemma WellFormedStep(s: Octets)
    requires s != []
    ensures WellFormed(s) <==> Completes(Step(ACCEPT, s[0]), s[1..])
  {
    var t, m := s[1..], CharLength(s[0]);
    if m > |s| {
      TooShort(s[0], t);
    } else {
      CharStep(s[..m], t);
      assert s[m..] == t[m - 1..];
    }
    hide Completes, Step, CharLength;
    if WellFormed(s) {
      var n :| 1 <= n <= |s| && IsChar(s[..n]) && WellFormed(s[n..]);
      assert s[..n][0] == s[0];
      CharHead(s[..n]);
      assert n == m;
    }
  }

  lemma CompletesStep(state: nat, s: Octets)
    requires IsState(state) && s != []
    ensures IsState(Step(state, s[0]))
    ensures Completes(state, s) <==> Completes(Step(state, s[0]), s[1..])
  {
    if state == ACCEPT {
      WellFormedStep(s);
    } else {
      hide WellFormed;
      var t := s[1..];
      assert |s| >= 2 ==> t[0] == s[1] && s[2..] == t[1..];
      assert |s| >= 3 ==> t[1] == s[2] && s[3..] == t[2..];
    }
  }

  /** The automaton ends in ACCEPT exactly on what completes the state it started in. */
  lemma {:induction false} RunAccepts(state: nat, s: Octets)
    requires IsState(state)
    ensures Run(state, s) == ACCEPT <==> Completes(state, s)
    decreases |s|
  {
    if s != [] {
      hide Completes, Step;
      CompletesStep(state, s);
      RunAccepts(Step(state, s[0]), s[1..]);
    }
  }

  /** Accepted strings are exactly the well-formed ones. */
  lemma AcceptsWellFormed(s: Octets)
    ensures Run(ACCEPT, s) == ACCEPT <==> WellFormed(s)
  {
    RunAccepts(ACCEPT, s);
  }

  lemma {:induction false} RejectAbsorbs(s: Octets)
    ensures Run(REJECT, s) == REJECT
  {
    if s != [] {
      RejectAbsorbs(s[1..]);
    }
  }

  /** Validating in pieces agrees with validating the whole. */
  lemma {:induction false} RunPieces(state: nat, a: Octets, b: Octets)
    ensures Run(Run(state, a), b) == Run(state, a + b)
    decreases |a|
  {
    if a == [] {
      assert a + b == b;
    } else {
      assert (a + b)[1..] == a[1..] + b;
      RunPieces(Step(state, a[0]), a[1..], b);
    }
  }

  method Validate(s: Octets) returns (ok: bool)
    ensures ok <==> WellFormed(s)
  {
    hide Step, WellFormed;
    var st := ACCEPT;
    AcceptsWellFormed(s);
    for i := 0 to |s|
      invariant Run(ACCEPT, s) == Run(st, s[i..])
    {
      assert s[i..][1..] == s[i + 1..];
      st := Step(st, s[i]);
      if st == REJECT {
        RejectAbsorbs(s[i + 1..]);
        return false;
      }
    }
    return st == ACCEPT;
  }
}
