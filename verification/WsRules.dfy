/**
  When a WebSocket session breaks off and with which code, and what a Close carries from one end to the
  other (sections 5, 7 and 8.1 of RFC 6455).
 */
module WsRules {
  import opened Bytes
  import opened WsFrame
  import opened WsSession
  import Utf8

  // ------------------------------------------------------------ the rules

  const VIOLATION: nat := 1002
  const INVALID: nat := 1007
  const TOO_BIG: nat := 1009

  /** What the first octets of a frame already give away; `left` is what the message may still grow by. */
  function HeadOffence(isServer: bool, left: int, input: Octets): Option<nat> {
    if |input| < 2 then None
    else if input[0] / 16 % 8 != 0 then Some(VIOLATION)                                   // extension bits
    else
      var opcode, l := input[0] % 16, input[1] % 128;
      if |input| < (if l == 126 then 4 else if l == 127 then 10 else 2) then None
      else
        var len := if l == 126 then FromBe(input[2..4]) else if l == 127 then FromBe(input[2..10]) else l;
        if l == 127 && input[2] >= 128 then Some(VIOLATION)                               // 63 bits
        else if (input[1] >= 128) != isServer then Some(VIOLATION)                        // clients mask
        else if opcode !in {0, 1, 2, 8, 9, 10} then Some(VIOLATION)
        else if opcode >= 8 && (input[0] < 128 || len > 125) then Some(VIOLATION)         // control frames
        else if opcode < 8 && len > left then Some(TOO_BIG)
        else None
  }

  /** Codes that may be on the wire, section 7.4. */
  predicate Registered(code: nat) {
    || code in {1000, 1001, 1002, 1003, 1007, 1008, 1009, 1010, 1011, 1012, 1013, 1014}
    || 3000 <= code < 5000
  }

  ghost function CloseOffence(payload: Octets): Option<nat> {
    if payload == [] then None
    else if |payload| == 1 || !Registered(256 * (payload[0] as int) + payload[1]) then Some(VIOLATION)
    else if !Utf8.WellFormed(payload[2..]) then Some(INVALID)
    else None
  }

  /** A whole frame: messages come one after the other, and text is UTF-8 when it is complete. */
  ghost function FrameOffence(s: Session, f: Frame): Option<nat> {
    if f.opcode == 8 then CloseOffence(f.payload)
    else if f.opcode > 8 then None
    else if s.fragActive != (f.opcode == 0) then Some(VIOLATION)
    else if f.fin && f.opcode == 0 && s.kind.Text? && !Utf8.WellFormed(s.frag + f.payload) then Some(INVALID)
    else if f.fin && f.opcode == 1 && !Utf8.WellFormed(f.payload) then Some(INVALID)
    else None
  }

  ghost function Offence(s: Session): Option<nat> {
    var head := HeadOffence(s.isServer, s.cap - |s.frag|, s.input);
    if head.Some? then head
    else
      match Parse(s.isServer, s.cap - |s.frag|, s.input)
      case Got(f, _, _) => FrameOffence(s, f)
      case _ => None
  }

  // ------------------------------------------------------------ they are what the session applies

  lemma FirstOctet(s: Octets)
    requires |s| == 8
    ensures FromBe(s) >= HIGH_BIT <==> s[0] >= 128
    ensures FromBe(s) < 0x1_0000_0000_0000_0000
  {
    assert s[..7][..6] == s[..6] && s[..6][..5] == s[..5] && s[..5][..4] == s[..4];
    assert s[..4][..3] == s[..3] && s[..3][..2] == s[..2] && s[..2][..1] == s[..1] && s[..1][..0] == [];
    assert FromBe(s[..1]) == s[0];
    assert FromBe(s[..2]) == 256 * FromBe(s[..1]) + s[1];
    assert FromBe(s[..3]) == 256 * FromBe(s[..2]) + s[2];
    assert FromBe(s[..4]) == 256 * FromBe(s[..3]) + s[3];
    assert FromBe(s[..5]) == 256 * FromBe(s[..4]) + s[4];
    assert FromBe(s[..6]) == 256 * FromBe(s[..5]) + s[5];
    assert FromBe(s[..7]) == 256 * FromBe(s[..6]) + s[6];
    assert FromBe(s) == 256 * FromBe(s[..7]) + s[7];
  }

  lemma ShortLength(s: Octets)
    requires |s| == 2
    ensures FromBe(s) < 0x1_0000
  {
    assert s[..1][..0] == [];
    assert FromBe(s[..1]) == s[0];
  }

  /** A frame is refused exactly for what its first octets give away. */
  lemma HeadJudged(isServer: bool, left: int, input: Octets)
    ensures match HeadOffence(isServer, left, input)
            case Some(code) => Parse(isServer, left, input) == Bad(code)
            case None => !Parse(isServer, left, input).Bad?
  {
    if |input| >= 4 {
      ShortLength(input[2..4]);
    }
    if |input| >= 10 {
      FirstOctet(input[2..10]);
    }
    hide FromBe, Mask;
  }

  /** A Close with the code, unless one was sent before, and then the end. */
  ghost function BrokenOff(log: Log, closeSent: bool, code: nat): Log {
    And(if closeSent then log else And(log, Sent(Frame(true, 8, [code / 256 % 256, code % 256]))), Failed)
  }

  lemma TwoOctets(code: nat)
    ensures Be(code, 2) == [code / 256 % 256, code % 256]
  {
    assert Be(code / 256, 1) == Be(code / 256 / 256, 0) + [code / 256 % 256];
  }

  lemma Fails(s: Session, code: nat)
    ensures var t := Fail(s, code); t.failed && t.log == BrokenOff(s.log, s.closeSent, code)
  {
    TwoOctets(code);
  }

  lemma CloseJudged(s: Session, payload: Octets)
    ensures var (t, o) := OnClose(s, payload);
            match CloseOffence(payload)
            case Some(code) => o.Error? && t.failed && t.log == BrokenOff(s.log, s.closeSent, code)
            case None => o.Closed? && t.failed == s.failed && t.closeRecv
  {
    Fails(s, 1002);
    Fails(s, 1007);
    hide Fail, BrokenOff;
    if |payload| >= 2 {
      assert CodeAllowed(256 * (payload[0] as int) + payload[1]) == Registered(256 * (payload[0] as int) + payload[1]);
      if |payload| == 2 {
        assert payload[2..] == [];
        assert Utf8.WellFormed([]);
      }
    }
  }

  lemma FrameJudged(s: Session, f: Frame)
    requires KnownOpcode(f.opcode) && !OutOfPlace(s, f)
    ensures var (t, o) := OnFrame(s, f);
            match FrameOffence(s, f)
            case Some(code) => o.Error? && t.failed && t.log == BrokenOff(s.log, s.closeSent, code)
            case None => !o.Error? && t.failed == s.failed
  {
    CloseJudged(s, f.payload);
    Fails(s, 1007);
    Fails(s.(fragActive := false, frag := []), 1007);
    hide Fail, BrokenOff, OnClose, CloseOffence;
  }

  /** What a step of the session notes before it judges: the frame, if there is a whole one. */
  ghost function Noted(s: Session): Log {
    match Parse(s.isServer, s.cap - |s.frag|, s.input)
    case Got(f, _, _) => And(s.log, Took(f))
    case _ => s.log
  }

  /** The step on a whole frame whose head is in order. */
  lemma WholeFrame(s: Session, f: Frame, off: nat, total: nat)
    requires Parse(s.isServer, s.cap - |s.frag|, s.input) == Got(f, off, total)
    ensures var (t, o) := Step(s);
            match FrameOffence(s, f)
            case Some(code) => o.Error? && t.failed && t.log == BrokenOff(And(s.log, Took(f)), s.closeSent, code)
            case None => !o.Error? && t.failed == s.failed
  {
    var r := Parse(s.isServer, s.cap - |s.frag|, s.input);
    var s1 := Note(s, Took(f));
    assert KnownOpcode(f.opcode);
    assert Got(f, off, total).off <= total <= |s.input|;
    Fails(s1.(input := Unmasked(s.input, r)), 1002);
    assert FrameOffence(s, f) == FrameOffence(s1.(input := s.input[total..]), f);
    hide Parse, OnFrame, Fail, BrokenOff, Unmasked, CloseOffence;
    if !OutOfPlace(s, f) {
      FrameJudged(s1.(input := s.input[total..]), f);
    } else {
      assert FrameOffence(s, f) == Some(VIOLATION);
    }
  }

  /** A step ends in an error exactly on an offence, and the peer is told the code of that offence. */
  lemma OffencesRefused(s: Session)
    ensures var (t, o) := Step(s);
            match Offence(s)
            case Some(code) => o.Error? && t.failed && t.log == BrokenOff(Noted(s), s.closeSent, code)
            case None => !o.Error? && t.failed == s.failed
  {
    var r := Parse(s.isServer, s.cap - |s.frag|, s.input);
    HeadJudged(s.isServer, s.cap - |s.frag|, s.input);
    hide Parse, HeadOffence, OnFrame, Fail, BrokenOff, FrameOffence;
    if r.Bad? {
      Fails(s, r.code);
    } else if r.Got? {
      WholeFrame(s, r.frame, r.off, r.total);
      hide Step;
    }
  }

  // ------------------------------------------------------------ what a Close carries

  function CloseFrame(code: nat, reason: Octets): (f: Frame)
    ensures f.fin && f.opcode == 8 && |f.payload| == 2 + |reason|
  {
    Frame(true, 8, [code / 256 % 256, code % 256] + reason)
  }

  /** The session after taking a Close, and what the step says. */
  ghost predicate Ends(s: Session, log: Log, code: nat, t: Session, o: Outcome) {
    if Registered(code) then
      && o.Closed? && t.closeRecv && t.closeCode == code && t.failed == s.failed
      && t.log == (if s.closeSent then And(log, PeerClosed) else And(And(log, PeerClosed), Sent(CloseFrame(code, []))))
    else o.Error? && t.failed && t.log == BrokenOff(log, s.closeSent, 1002)
  }

  lemma PayloadRead(code: nat, reason: Octets)
    requires code < 0x1_0000
    ensures var payload := CloseFrame(code, reason).payload;
            256 * (payload[0] as int) + payload[1] == code && payload[2..] == reason
    ensures CodeAllowed(code) == Registered(code) && Frame(true, OP_CLOSE, Be(code, 2)) == CloseFrame(code, [])
  {
    TwoOctets(code);
    assert [code / 256 % 256, code % 256] + [] == [code / 256 % 256, code % 256];
  }

  /** What is done with the payload of a Close. */
  lemma CloseRead(s: Session, code: nat, reason: Octets)
    requires code < 0x1_0000 && Utf8.WellFormed(reason)
    ensures Ends(s, s.log, code, OnClose(s, CloseFrame(code, reason).payload).0,
                 OnClose(s, CloseFrame(code, reason).payload).1)
  {
    PayloadRead(code, reason);
    Fails(s, 1002);
    hide Fail, BrokenOff, Utf8.WellFormed, CodeAllowed, Registered, Be;
  }

  lemma CloseStep(s: Session)
    requires var r := Parse(s.isServer, s.cap - |s.frag|, s.input); r.Got? && r.frame.opcode == 8
    ensures var r := Parse(s.isServer, s.cap - |s.frag|, s.input);
            Step(s) == OnClose(s.(log := And(s.log, Took(r.frame)), input := s.input[r.total..]), r.frame.payload)
  {
    var r := Parse(s.isServer, s.cap - |s.frag|, s.input);
    assert r.off <= r.total <= |s.input|;
    hide Parse, OnClose, Fail;
  }

  /** A Close frame at the front of the input of a session. */
  lemma CloseTaken(s: Session, key: Option<Key>, code: nat, reason: Octets, rest: Octets)
    requires s.isServer == key.Some? && s.input == FrameWire(key, CloseFrame(code, reason)) + rest
    requires code < 0x1_0000 && |reason| <= 123 && Utf8.WellFormed(reason)
    ensures Ends(s, And(s.log, Took(CloseFrame(code, reason))), code, Step(s).0, Step(s).1)
  {
    hide CloseFrame, FrameWire, Parse, Ends, Utf8.WellFormed, Step, Registered;
    InFront(s, key, CloseFrame(code, reason), rest);
    CloseSeen(s, code, reason);
  }

  lemma InFront(s: Session, key: Option<Key>, f: Frame, rest: Octets)
    requires s.isServer == key.Some? && s.input == FrameWire(key, f) + rest
    requires f.fin && f.opcode == 8 && |f.payload| <= 125
    ensures var r := Parse(s.isServer, s.cap - |s.frag|, s.input); r.Got? && r.frame == f
  {
    FrameRoundTrip(s.isServer, key, s.cap - |s.frag|, f, rest);
    hide Parse, FrameWire;
  }

  lemma CloseSeen(s: Session, code: nat, reason: Octets)
    requires var r := Parse(s.isServer, s.cap - |s.frag|, s.input); r.Got? && r.frame == CloseFrame(code, reason)
    requires code < 0x1_0000 && Utf8.WellFormed(reason)
    ensures Ends(s, And(s.log, Took(CloseFrame(code, reason))), code, Step(s).0, Step(s).1)
  {
    hide Parse, OnClose, Utf8.WellFormed, Registered, Step, CloseFrame;
    var r := Parse(s.isServer, s.cap - |s.frag|, s.input);
    CloseStep(s);
    CloseRead(s.(log := And(s.log, Took(r.frame)), input := s.input[r.total..]), code, reason);
  }

  /** The closing side sends its Close and takes the answer. */
  lemma CloseBegun(s: Session, code: nat, reason: Octets)
    requires !s.closeSent && !s.failed && !s.closeRecv && code < 0x1_0000 && |reason| <= 123 && Utf8.WellFormed(reason)
    ensures var s1 := s.(closeSent := true, log := And(s.log, Sent(CloseFrame(code, reason))));
            && SendClose(s, Be(code, 2) + reason) == s1
            && forall fills, rounds: nat ::
                 Close(s, code, reason, fills, rounds) == (AwaitClose(s1, fills, rounds), true)
  {
    TwoOctets(code);
    hide AwaitClose, Utf8.WellFormed;
  }

  /** One read, and the session is over. */
  lemma TakesAnswer(s: Session, wire: Octets)
    requires !s.closeRecv && s.input == [] && Pump(s.(input := wire)).1.Closed?
    ensures AwaitClose(s, [Chunk(wire)], 2) == Pump(s.(input := wire)).0
  {
    Waits(s);
    hide Pump;
    var s2, fills := s.(input := wire), [Chunk(wire)];
    assert s.input + wire == wire;
    assert AwaitClose(s, fills, 2) == AwaitClose(s2, fills[1..], 1);
  }

  lemma CloseEnded(s: Session, code: nat, answer: Option<Key>)
    requires !s.failed && !s.closeRecv && s.input == [] && s.isServer == answer.Some?
    requires code < 0x1_0000 && Registered(code)
    ensures var t := AwaitClose(s, [Chunk(FrameWire(answer, CloseFrame(code, [])))], 2);
            t.closeRecv && t.closeCode == code && !t.failed
  {
    assert Utf8.WellFormed([]);
    hide FrameWire, CloseFrame, Registered, Utf8.WellFormed, Step, BrokenOff, Pump, AwaitClose;
    var wire := FrameWire(answer, CloseFrame(code, []));
    assert wire + [] == wire;
    CloseTaken(s.(input := wire), answer, code, [], []);
    PumpsOnce(s.(input := wire));
    TakesAnswer(s, wire);
  }

  lemma Waits(s: Session)
    requires s.input == []
    ensures Pump(s) == (s, NeedMore)
  {
  }

  lemma PumpsOnce(s: Session)
    requires !Step(s).1.Again?
    ensures Pump(s) == Step(s)
  {
    hide Step;
  }

  /**
    A Close reaches the peer with its code and its reason, the peer answers with the code, and the answer
    ends the session that began; a code not fit for the wire makes the peer fail instead.
   */
  lemma CloseHandshake(s: Session, code: nat, reason: Octets, key: Option<Key>, answer: Option<Key>, peer: Session)
    requires !s.closeSent && !s.failed && !s.closeRecv && s.input == []
    requires code < 0x1_0000 && |reason| <= 123 && Utf8.WellFormed(reason)
    requires peer.isServer == key.Some? && s.isServer == answer.Some?
             && peer.input == FrameWire(key, CloseFrame(code, reason))
    ensures Close(s, code, reason, [], 0) ==
            (s.(closeSent := true, log := And(s.log, Sent(CloseFrame(code, reason)))), true)
    ensures Ends(peer, And(peer.log, Took(CloseFrame(code, reason))), code, Step(peer).0, Step(peer).1)
    ensures Registered(code) ==>
              var (t, ok) := Close(s, code, reason, [Chunk(FrameWire(answer, CloseFrame(code, [])))], 2);
              ok && t.closeRecv && t.closeCode == code && !t.failed
  {
    var s1 := s.(closeSent := true, log := And(s.log, Sent(CloseFrame(code, reason))));
    assert FrameWire(key, CloseFrame(code, reason)) + [] == peer.input;
    CloseTaken(peer, key, code, reason, []);
    CloseBegun(s, code, reason);
    assert AwaitClose(s1, [], 0) == s1;
    hide Step, FrameWire, Ends, BrokenOff, Utf8.WellFormed, Close, AwaitClose, CloseFrame;
    if Registered(code) {
      CloseEnded(s1, code, answer);
    }
  }
}
