/** Closing a WebSocket session (sections 5.5.1 and 7.1 of RFC 6455): what holds over every run of calls. */
module WsSafety {
  import opened Bytes
  import opened WsFrame
  import opened WsSession
  import Utf8

  datatype Call =
    | DoSend(message: Message)
    | DoPing(data: Octets)
    | DoRecv(fills: seq<Fill>, bounded: bool)
    | DoClose(code: nat, reason: Octets, fills: seq<Fill>, rounds: nat)
    | DoSetCap(cap: nat)

  ghost function Act(s: Session, a: Call): Session {
    match a
    case DoSend(m) => SendMessage(s, m).0
    case DoPing(d) => Ping(s, d).0
    case DoRecv(fills, bounded) => Recv(s, fills, bounded).0
    case DoClose(code, reason, fills, rounds) => Close(s, code, reason, fills, rounds).0
    case DoSetCap(cap) => SetCap(s, cap)
  }

  ghost function Run(isServer: bool, calls: seq<Call>): Session {
    if calls == [] then Fresh(isServer) else Act(Run(isServer, calls[..|calls| - 1]), calls[|calls| - 1])
  }

  // ------------------------------------------------------------ what a log may look like

  predicate SentClose(log: Log) {
    match log
    case Empty => false
    case And(p, Sent(f)) => f.opcode == OP_CLOSE || SentClose(p)
    case And(p, _) => SentClose(p)
  }

  function CloseCount(log: Log): nat {
    match log
    case Empty => 0
    case And(p, Sent(f)) => CloseCount(p) + if f.opcode == OP_CLOSE then 1 else 0
    case And(p, _) => CloseCount(p)
  }

  /** The peer closed, or the session failed. */
  predicate Ended(log: Log) {
    match log
    case Empty => false
    case And(_, Failed) => true
    case And(_, PeerClosed) => true
    case And(p, _) => Ended(p)
  }

  /**
    After our Close only Pongs are sent; once the session ended no frame is interpreted and no
    message handed out; messages are within the cap in force and text is UTF-8.
   */
  ghost predicate Safe(log: Log) {
    match log
    case Empty => true
    case And(p, Sent(f)) => Safe(p) && (SentClose(p) ==> f.opcode == OP_PONG)
    case And(p, Delivered(m, cap)) =>
      Safe(p) && !Ended(p) && |m.data| <= cap && (m.kind.Text? ==> Utf8.WellFormed(m.data))
    case And(p, _) => Safe(p) && !Ended(p)
  }

  lemma {:induction false} OneClose(log: Log)
    requires Safe(log)
    ensures CloseCount(log) == if SentClose(log) then 1 else 0
  {
    if log.And? {
      OneClose(log.before);
    }
  }

  // ------------------------------------------------------------ what every call keeps

  ghost predicate Inv(s: Session) {
    Safe(s.log) && s.closeSent == SentClose(s.log) && (s.failed || s.closeRecv) == Ended(s.log)
  }

  predicate Live(s: Session) {
    !s.failed && !s.closeRecv
  }

  lemma SendCloseKeeps(s: Session, payload: Octets)
    requires Inv(s)
    ensures Inv(SendClose(s, payload)) && Live(SendClose(s, payload)) == Live(s)
  {
  }

  /** The session ends, by failure or by the peer. */
  lemma EndKeeps(s: Session, code: nat)
    requires Inv(s) && Live(s)
    ensures Inv(Lose(s)) && Inv(Note(s, PeerClosed).(closeCode := code, closeRecv := true))
  {
  }

  lemma FailKeeps(s: Session, code: nat)
    requires Inv(s) && Live(s)
    ensures Inv(Fail(s, code)) && Fail(s, code).failed
  {
    hide Be, Inv, SendClose;
    SendCloseKeeps(s, Be(code, 2));
    EndKeeps(SendClose(s, Be(code, 2)), 0);
  }

  lemma OnCloseKeeps(s: Session, payload: Octets)
    requires Inv(s) && Live(s)
    ensures Inv(OnClose(s, payload).0) && !Live(OnClose(s, payload).0)
    ensures OnClose(s, payload).1.Closed? || OnClose(s, payload).1.Error?
    ensures OnClose(s, payload).1.Error? ==> OnClose(s, payload).0.failed
  {
    hide Be, Utf8.WellFormed, Inv, SendClose, Fail;
    FailKeeps(s, 1002);
    FailKeeps(s, 1007);
    var code := if |payload| >= 2 then 256 * (payload[0] as int) + payload[1] else 1005;
    EndKeeps(s, code);
    SendCloseKeeps(Note(s, PeerClosed).(closeCode := code, closeRecv := true),
                   if |payload| >= 2 then Be(code, 2) else []);
  }

  /** A message that may be handed out. */
  ghost predicate Fine(m: Message, cap: nat) {
    |m.data| <= cap && (m.kind.Text? ==> Utf8.WellFormed(m.data))
  }

  /** What a step or a call of the pump may come to. */
  ghost predicate Kept(s: Session, r: (Session, Outcome)) {
    && Inv(r.0) && r.0.cap == s.cap
    && (r.1.Again? || r.1.NeedMore? || r.1.Deliver? ==> Live(r.0))
    && (r.1.Deliver? ==> Fine(r.1.message, s.cap))
    && (r.1.Error? ==> r.0.failed)
  }

  lemma PongKeeps(s: Session, payload: Octets)
    requires Inv(s)
    ensures Inv(Note(s, Sent(Frame(true, OP_PONG, payload))))
  {
  }

  lemma OnFrameKeeps(s: Session, f: Frame)
    requires Inv(s) && Live(s) && KnownOpcode(f.opcode) && (!Control(f.opcode) ==> |s.frag| + |f.payload| <= s.cap)
    ensures Kept(s, OnFrame(s, f))
  {
    hide Utf8.WellFormed, Fail, OnClose;
    if f.opcode == OP_CLOSE {
      OnCloseKeeps(s, f.payload);
      OnCloseCap(s, f.payload);
    } else {
      PongKeeps(s, f.payload);
      var s1 := s.(fragActive := false, frag := []);
      FailKeeps(s, 1007);
      FailKeeps(s1, 1007);
      FailCap(s, 1007);
      FailCap(s1, 1007);
    }
  }

  lemma FailCap(s: Session, code: nat)
    ensures Fail(s, code).cap == s.cap
  {
  }

  lemma OnCloseCap(s: Session, payload: Octets)
    ensures OnClose(s, payload).0.cap == s.cap
  {
    hide Utf8.WellFormed;
  }

  lemma StepKeeps(s: Session)
    requires Inv(s) && Live(s)
    ensures Kept(s, Step(s))
  {
    hide Fail, OnFrame, ReadHead, Mask;
    var r := Parse(s.isServer, Room(s), s.input);
    match r
    case More =>
    case Bad(code) =>
      FailKeeps(s, code);
      FailCap(s, code);
    case Got(f, off, total) =>
      var s1 := Note(s, Took(f));
      var s2 := s1.(input := Unmasked(s.input, r));
      FailKeeps(s2, 1002);
      FailCap(s2, 1002);
      OnFrameKeeps(s1.(input := s.input[total..]), f);
  }

  lemma {:induction false} PumpKeeps(s: Session)
    requires Inv(s) && Live(s)
    ensures Kept(s, Pump(s))
    decreases |s.input|
  {
    StepKeeps(s);
    if Step(s).1.Again? {
      hide Inv;
      PumpKeeps(Step(s).0);
    }
  }

  lemma {:induction false} RecvLoopKeeps(s: Session, fills: seq<Fill>, bounded: bool)
    requires Inv(s) && Live(s)
    ensures Inv(RecvLoop(s, fills, bounded).0)
    decreases |fills|
  {
    hide Pump;
    PumpKeeps(s);
    var (s1, o) := Pump(s);
    if o.NeedMore? && fills != [] {
      if fills[0].Chunk? {
        RecvLoopKeeps(s1.(input := s1.input + fills[0].octets), fills[1..], bounded);
      } else if fills[0].Timeout? && !bounded {
        RecvLoopKeeps(s1, fills[1..], bounded);
      }
    }
  }

  lemma {:induction false} AwaitCloseKeeps(s: Session, fills: seq<Fill>, rounds: nat)
    requires Inv(s) && Live(s)
    ensures Inv(AwaitClose(s, fills, rounds))
    decreases rounds
  {
    hide Pump;
    if rounds > 0 {
      PumpKeeps(s);
      var (s1, o) := Pump(s);
      if o.Deliver? {
        AwaitCloseKeeps(s1, fills, rounds - 1);
      } else if o.NeedMore? && fills != [] {
        if fills[0].Chunk? {
          AwaitCloseKeeps(s1.(input := s1.input + fills[0].octets), fills[1..], rounds - 1);
        } else if fills[0].Timeout? {
          AwaitCloseKeeps(s1, fills[1..], rounds - 1);
        }
      }
    }
  }

  lemma ActKeeps(s: Session, a: Call)
    requires Inv(s)
    ensures Inv(Act(s, a))
  {
    hide RecvLoop, AwaitClose, Be, Utf8.WellFormed;
    match a
    case DoRecv(fills, bounded) =>
      if Live(s) {
        RecvLoopKeeps(s, fills, bounded);
      }
    case DoClose(code, reason, fills, rounds) =>
      if !s.failed {
        var s1 := SendClose(s, Be(code, 2) + reason);
        assert Inv(s1);
        if Live(s1) {
          AwaitCloseKeeps(s1, fills, rounds);
        }
      }
    case _ =>
  }

  lemma {:induction false} RunInv(isServer: bool, calls: seq<Call>)
    ensures Inv(Run(isServer, calls))
  {
    if calls != [] {
      hide Act, Inv;
      RunInv(isServer, calls[..|calls| - 1]);
      ActKeeps(Run(isServer, calls[..|calls| - 1]), calls[|calls| - 1]);
    }
  }

  /**
    Close safety: over every run of send, ping, receive, close and cap changes, on any input, at most
    one Close frame is sent and only Pongs follow it, every message handed out is within the cap in
    force and valid if text, and no frame is interpreted after a received Close or a failure.
   */
  lemma CloseSafety(isServer: bool, calls: seq<Call>)
    ensures Safe(Run(isServer, calls).log) && CloseCount(Run(isServer, calls).log) <= 1
  {
    RunInv(isServer, calls);
    OneClose(Run(isServer, calls).log);
  }
}
