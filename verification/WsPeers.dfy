/**
  Two sessions back to back: whatever one of them is made to do, the frames it sends are conforming, and
  a session of the other role that reads their octets returns the messages that were sent.
 */
module WsPeers {
  import opened Bytes
  import opened WsFrame
  import opened WsSession
  import opened WsSafety
  import opened WsDelivery
  import Utf8
  import WsConnection

  // ------------------------------------------------------------ what a run sends

  /** The messages whose sending succeeded, in order. */
  ghost function SentMessages(isServer: bool, calls: seq<Call>): seq<Message> {
    if calls == [] then []
    else
      var init, last := calls[..|calls| - 1], calls[|calls| - 1];
      SentMessages(isServer, init) +
      if last.DoSend? && SendMessage(WsSafety.Run(isServer, init), last.message).1 then [last.message] else []
  }

  /** Opcode 1 is text, 2 is binary (section 5.6 of RFC 6455). */
  function Meant(f: Frame): seq<Message> {
    if f.opcode == 1 then [Message(Text, f.payload)] else if f.opcode == 2 then [Message(Binary, f.payload)] else []
  }

  function MeantAll(frames: seq<Frame>): seq<Message> {
    if frames == [] then [] else MeantAll(frames[..|frames| - 1]) + Meant(frames[|frames| - 1])
  }

  /** Whole messages and control frames a peer may send: sections 5.4 to 5.6 of RFC 6455. */
  ghost predicate Conforming(f: Frame) {
    && f.fin && (f.opcode == 1 || f.opcode == 2 || f.opcode == 8 || f.opcode == 9 || f.opcode == 10)
    && (f.opcode >= 8 ==> |f.payload| <= 125)
    && (f.opcode == 1 ==> Utf8.WellFormed(f.payload))
  }

  ghost predicate AllConforming(frames: seq<Frame>) {
    forall i | 0 <= i < |frames| :: Conforming(frames[i])
  }

  /** What a stretch of log adds: conforming frames that mean `messages`. */
  ghost predicate Adds(log: Log, log': Log, messages: seq<Message>) {
    && (AllConforming(SentIn(log)) ==> AllConforming(SentIn(log')))
    && MeantAll(SentIn(log')) == MeantAll(SentIn(log)) + messages
  }

  lemma AddsNothing(log: Log)
    ensures Adds(log, log, [])
  {
    assert MeantAll(SentIn(log)) + [] == MeantAll(SentIn(log));
  }

  lemma AddsJoin(a: Log, b: Log, c: Log, m: seq<Message>, n: seq<Message>)
    requires Adds(a, b, m) && Adds(b, c, n)
    ensures Adds(a, c, m + n)
  {
    hide SentIn, MeantAll, AllConforming;
    assert MeantAll(SentIn(a)) + m + n == MeantAll(SentIn(a)) + (m + n);
  }

  /** An event that is no frame, or a conforming one. */
  lemma AddsEvent(log: Log, e: Event)
    requires e.Sent? ==> Conforming(e.frame)
    ensures Adds(log, And(log, e), if e.Sent? then Meant(e.frame) else [])
  {
    hide Conforming;
    if e.Sent? {
      var frames := SentIn(log);
      assert SentIn(And(log, e)) == frames + [e.frame];
      assert (frames + [e.frame])[..|frames|] == frames;
    } else {
      AddsNothing(log);
      assert SentIn(And(log, e)) == SentIn(log);
    }
  }

  // ------------------------------------------------------------ what receiving adds

  /** Control frames only. */
  ghost predicate Quiet(s: Session, s': Session) {
    Adds(s.log, s'.log, [])
  }

  lemma QuietJoin(a: Session, b: Session, c: Session)
    requires Quiet(a, b) && Quiet(b, c)
    ensures Quiet(a, c)
  {
    hide Adds;
    var none: seq<Message> := [];
    AddsJoin(a.log, b.log, c.log, none, none);
    assert none + none == none;
  }

  lemma SameLog(a: Session, b: Session)
    requires b.log == a.log
    ensures Quiet(a, b)
  {
    AddsNothing(a.log);
  }

  lemma NoteQuiet(s: Session, e: Event)
    requires e.Sent? ==> Conforming(e.frame) && e.frame.opcode >= 8
    ensures Quiet(s, Note(s, e))
  {
    hide Adds, Conforming;
    AddsEvent(s.log, e);
  }

  lemma SendCloseQuiet(s: Session, payload: Octets)
    requires s.closeSent || |payload| <= 125
    ensures Quiet(s, SendClose(s, payload))
  {
    hide Quiet;
    SameLog(s, s);
    if !s.closeSent {
      NoteQuiet(s, Sent(Frame(true, OP_CLOSE, payload)));
      LogOnly(s, Note(s, Sent(Frame(true, OP_CLOSE, payload))), SendClose(s, payload));
    }
  }

  lemma LogOnly(s: Session, a: Session, b: Session)
    requires Quiet(s, a) && b.log == a.log
    ensures Quiet(s, b)
  {
  }

  lemma FailQuiet(s: Session, code: nat)
    ensures Quiet(s, Fail(s, code))
  {
    hide Quiet, SendClose;
    var s1 := SendClose(s, Be(code, 2));
    SendCloseQuiet(s, Be(code, 2));
    NoteQuiet(s1, Failed);
    QuietJoin(s, s1, Note(s1, Failed));
    LogOnly(s, Note(s1, Failed), Fail(s, code));
  }

  lemma OnCloseQuiet(s: Session, payload: Octets)
    ensures Quiet(s, OnClose(s, payload).0)
  {
    hide Quiet, SendClose, Fail, Utf8.WellFormed;
    FailQuiet(s, 1002);
    FailQuiet(s, 1007);
    var n := |payload|;
    var code := if n >= 2 then 256 * (payload[0] as int) + payload[1] else 1005;
    var s1 := Note(s, PeerClosed);
    var s2 := s1.(closeCode := code, closeRecv := true);
    NoteQuiet(s, PeerClosed);
    LogOnly(s, s1, s2);
    var echo := if n >= 2 then Be(code, 2) else [];
    SendCloseQuiet(s2, echo);
    QuietJoin(s, s2, SendClose(s2, echo));
  }

  lemma OnFrameQuiet(s: Session, f: Frame)
    requires Control(f.opcode) ==> |f.payload| <= 125
    ensures Quiet(s, OnFrame(s, f).0)
  {
    hide Quiet, OnClose, Fail, Utf8.WellFormed;
    SameLog(s, s);
    NoteQuiet(s, Sent(Frame(true, OP_PONG, if f.opcode == OP_PING then f.payload else [])));
    OnCloseQuiet(s, f.payload);
    FailQuiet(s, 1007);
    var s1 := s.(fragActive := false, frag := []);
    SameLog(s, s1);
    FailQuiet(s1, 1007);
    QuietJoin(s, s1, Fail(s1, 1007));
    if f.opcode != OP_PING && f.opcode != OP_CLOSE && !OnFrame(s, f).1.Error? {
      SameLog(s, OnFrame(s, f).0);
    }
  }

  lemma ShortControl(isServer: bool, room: int, input: Octets)
    ensures var r := Parse(isServer, room, input); r.Got? && Control(r.frame.opcode) ==> |r.frame.payload| <= 125
  {
    hide ReadHead, Mask;
  }

  lemma StepQuiet(s: Session)
    ensures Quiet(s, Step(s).0)
  {
    ShortControl(s.isServer, Room(s), s.input);
    hide Quiet, OnFrame, Fail, Parse;
    SameLog(s, s);
    var r := Parse(s.isServer, Room(s), s.input);
    match r
    case More =>
    case Bad(code) => FailQuiet(s, code);
    case Got(f, off, total) =>
      var s1 := Note(s, Took(f));
      NoteQuiet(s, Took(f));
      var s2, s3 := s1.(input := Unmasked(s.input, r)), s1.(input := s.input[total..]);
      LogOnly(s, s1, s2);
      LogOnly(s, s1, s3);
      FailQuiet(s2, 1002);
      QuietJoin(s, s2, Fail(s2, 1002));
      OnFrameQuiet(s3, f);
      QuietJoin(s, s3, OnFrame(s3, f).0);
  }

  lemma {:induction false} PumpQuiet(s: Session)
    ensures Quiet(s, Pump(s).0)
    decreases |s.input|
  {
    PumpTurn(s);
    StepQuiet(s);
    assert Step(s).1.Again? ==> |Step(s).0.input| < |s.input|;
    hide Quiet, Step, Pump;
    if Step(s).1.Again? {
      PumpQuiet(Step(s).0);
      QuietJoin(s, Step(s).0, Pump(Step(s).0).0);
    }
  }

  lemma {:induction false} RecvLoopQuiet(s: Session, fills: seq<Fill>, bounded: bool)
    ensures Quiet(s, RecvLoop(s, fills, bounded).0)
    decreases |fills|
  {
    hide Quiet, Pump;
    PumpQuiet(s);
    var (s1, o) := Pump(s);
    var d := RecvLoop(s, fills, bounded).0;
    if o.Deliver? {
      NoteQuiet(s1, Delivered(o.message, s1.cap));
      QuietJoin(s, s1, d);
    } else if o.NeedMore? && fills != [] {
      match fills[0]
      case Chunk(octets) =>
        var s2 := s1.(input := s1.input + octets);
        LogOnly(s, s1, s2);
        RecvLoopQuiet(s2, fills[1..], bounded);
        QuietJoin(s, s2, d);
      case Timeout =>
        if !bounded {
          RecvLoopQuiet(s1, fills[1..], bounded);
          QuietJoin(s, s1, d);
        }
      case Eof => LoseQuiet(s, s1);
      case Broken =>
    }
  }

  lemma LoseQuiet(s: Session, s1: Session)
    requires Quiet(s, s1)
    ensures Quiet(s, Lose(s1))
  {
    hide Quiet;
    NoteQuiet(s1, Failed);
    QuietJoin(s, s1, Note(s1, Failed));
    LogOnly(s, Note(s1, Failed), Lose(s1));
  }

  lemma {:induction false} AwaitQuiet(s: Session, fills: seq<Fill>, rounds: nat)
    ensures Quiet(s, AwaitClose(s, fills, rounds))
    decreases rounds
  {
    hide Quiet, Pump;
    SameLog(s, s);
    if !s.closeRecv && rounds > 0 {
      PumpQuiet(s);
      var (s1, o) := Pump(s);
      var d := AwaitClose(s, fills, rounds);
      if o.Deliver? {
        AwaitQuiet(s1, fills, rounds - 1);
        QuietJoin(s, s1, d);
      } else if o.Error? {
        LogOnly(s, s1, d);
      } else if o.NeedMore? && fills != [] {
        match fills[0]
        case Chunk(octets) =>
          var s2 := s1.(input := s1.input + octets);
          LogOnly(s, s1, s2);
          AwaitQuiet(s2, fills[1..], rounds - 1);
          QuietJoin(s, s2, AwaitClose(s2, fills[1..], rounds - 1));
        case Timeout =>
          AwaitQuiet(s1, fills[1..], rounds - 1);
          QuietJoin(s, s1, d);
        case _ => LoseQuiet(s, s1);
      }
    }
  }

  // ------------------------------------------------------------ every run

  lemma CloseQuiet(s: Session, code: nat, reason: Octets, fills: seq<Fill>, rounds: nat)
    ensures Quiet(s, Close(s, code, reason, fills, rounds).0)
  {
    hide Quiet, AwaitClose, SendClose, Utf8.WellFormed;
    SameLog(s, s);
    if s.failed || s.closeSent || |reason| <= 123 {
      var s1 := if s.failed then s else SendClose(s, Be(code, 2) + reason);
      if !s.failed {
        SendCloseQuiet(s, Be(code, 2) + reason);
      }
      AwaitQuiet(s1, fills, rounds);
      QuietJoin(s, s1, AwaitClose(s1, fills, rounds));
    }
  }

  lemma CallAdds(s: Session, a: Call)
    ensures Adds(s.log, Act(s, a).log, if a.DoSend? && SendMessage(s, a.message).1 then [a.message] else [])
  {
    hide Adds, RecvLoop, Close, Utf8.WellFormed;
    AddsNothing(s.log);
    match a
    case DoSend(m) =>
      var f := Frame(true, if m.kind.Text? then OP_TEXT else OP_BIN, m.data);
      if SendMessage(s, m).1 {
        AddsEvent(s.log, Sent(f));
        assert Meant(f) == [m];
      }
    case DoPing(d) =>
      if Ping(s, d).1 {
        AddsEvent(s.log, Sent(Frame(true, OP_PING, d)));
      }
    case DoRecv(fills, bounded) => RecvLoopQuiet(s, fills, bounded);
    case DoClose(code, reason, fills, rounds) => CloseQuiet(s, code, reason, fills, rounds);
    case DoSetCap(_) =>
  }

  /** In every run the frames sent conform, and they mean the messages whose sending succeeded. */
  lemma {:induction false} RunSends(isServer: bool, calls: seq<Call>)
    ensures var frames := SentIn(WsSafety.Run(isServer, calls).log);
            AllConforming(frames) && MeantAll(frames) == SentMessages(isServer, calls)
  {
    if calls != [] {
      var init, last := calls[..|calls| - 1], calls[|calls| - 1];
      RunSends(isServer, init);
      CallAdds(WsSafety.Run(isServer, init), last);
      hide Act, SentIn, MeantAll, AllConforming;
    }
  }

  // ------------------------------------------------------------ what the other peer receives

  /** The frames in front of the Close, or all of them. */
  function BeforeClose(frames: seq<Frame>): seq<Frame> {
    if frames == [] || frames[0].opcode == OP_CLOSE then [] else [frames[0]] + BeforeClose(frames[1..])
  }

  /** The n-th frame of a client is masked with its n-th key. */
  function Keyed(isServer: bool, keys: nat -> Key, frames: seq<Frame>, n: nat): seq<Item> {
    if frames == [] then []
    else [Item(if isServer then None else Some(keys(n)), frames[0])] + Keyed(isServer, keys, frames[1..], n + 1)
  }

  function MeantFrom(frames: seq<Frame>): seq<Message> {
    if frames == [] then [] else Meant(frames[0]) + MeantFrom(frames[1..])
  }

  lemma {:induction false} MeantEither(frames: seq<Frame>)
    ensures MeantAll(frames) == MeantFrom(frames)
  {
    if frames != [] {
      var init, last := frames[..|frames| - 1], frames[|frames| - 1];
      MeantEither(init);
      MeantFromSnoc(init, last);
      assert frames == init + [last];
    }
  }

  lemma {:induction false} MeantFromSnoc(frames: seq<Frame>, last: Frame)
    ensures MeantFrom(frames + [last]) == MeantFrom(frames) + Meant(last)
  {
    hide Meant;
    if frames == [] {
      assert (frames + [last])[1..] == [] && frames + [last] == [last];
      assert Meant(last) + [] == Meant(last) && [] + Meant(last) == Meant(last);
    } else {
      assert (frames + [last])[1..] == frames[1..] + [last];
      MeantFromSnoc(frames[1..], last);
    }
  }

  ghost predicate WithinCap(messages: seq<Message>, cap: nat) {
    forall m | m in messages :: |m.data| <= cap && |m.data| < HIGH_BIT
  }

  /** Conforming frames in front of a Close carry what they mean. */
  lemma {:induction false} FramesCarry(isServer: bool, keys: nat -> Key, frames: seq<Frame>, n: nat, cap: nat)
    requires AllConforming(frames) && WithinCap(MeantFrom(frames), cap)
    ensures Carries(!isServer, cap, Keyed(isServer, keys, BeforeClose(frames), n), Nothing,
                    MeantFrom(BeforeClose(frames)))
  {
    if frames != [] && frames[0].opcode != OP_CLOSE {
      var f, rest := frames[0], frames[1..];
      assert Conforming(f);
      forall m | m in MeantFrom(rest)
        ensures |m.data| <= cap && |m.data| < HIGH_BIT
      {
        assert m in MeantFrom(frames);
      }
      assert forall i | 0 <= i < |rest| :: rest[i] == frames[i + 1];
      FramesCarry(isServer, keys, rest, n + 1, cap);
      if Meant(f) != [] {
        assert Meant(f)[0] in MeantFrom(frames);
      }
      OneCarried(isServer, keys, f, BeforeClose(rest), n, cap);
    }
  }

  lemma OneCarried(isServer: bool, keys: nat -> Key, f: Frame, rest: seq<Frame>, n: nat, cap: nat)
    requires Conforming(f) && f.opcode != OP_CLOSE && (Meant(f) != [] ==> |f.payload| <= cap && |f.payload| < HIGH_BIT)
    requires Carries(!isServer, cap, Keyed(isServer, keys, rest, n + 1), Nothing, MeantFrom(rest))
    ensures Carries(!isServer, cap, Keyed(isServer, keys, [f] + rest, n), Nothing, MeantFrom([f] + rest))
  {
    var items := Keyed(isServer, keys, [f] + rest, n);
    assert ([f] + rest)[1..] == rest;
    assert items[1..] == Keyed(isServer, keys, rest, n + 1);
    assert [] + f.payload == f.payload;
    assert Meant(f) == [] ==> MeantFrom([f] + rest) == MeantFrom(rest);
    assert Meant(f) != [] ==> MeantFrom([f] + rest)[1..] == MeantFrom(rest);
    hide Utf8.WellFormed, Keyed, MeantFrom;
  }

  /** All messages are in front of the Close. */
  lemma {:induction false} NothingAfterClose(log: Log)
    requires Safe(log)
    ensures MeantFrom(BeforeClose(SentIn(log))) == MeantFrom(SentIn(log))
    ensures SentClose(log) <==> exists i | 0 <= i < |SentIn(log)| :: SentIn(log)[i].opcode == OP_CLOSE
  {
    if log.And? {
      NothingAfterClose(log.before);
      if log.event.Sent? {
        var frames, f := SentIn(log.before), log.event.frame;
        assert SentIn(log) == frames + [f];
        assert (frames + [f])[|frames|] == f;
        assert forall i | 0 <= i < |frames| :: (frames + [f])[i] == frames[i];
        MeantFromSnoc(frames, f);
        BeforeSnoc(frames, f);
        if !SentClose(log.before) && f.opcode != OP_CLOSE {
          MeantFromSnoc(BeforeClose(frames), f);
        } else {
          assert Meant(f) == [];
          assert MeantFrom(frames) + [] == MeantFrom(frames);
        }
      }
    }
  }

  lemma {:induction false} BeforeSnoc(frames: seq<Frame>, f: Frame)
    ensures BeforeClose(frames + [f]) ==
            if f.opcode == OP_CLOSE || exists i | 0 <= i < |frames| :: frames[i].opcode == OP_CLOSE
              then BeforeClose(frames)
            else BeforeClose(frames) + [f]
  {
    var all := frames + [f];
    if frames == [] {
      assert all == [f] && all[1..] == [];
    } else {
      assert all[1..] == frames[1..] + [f] && all[0] == frames[0];
      BeforeSnoc(frames[1..], f);
      if exists i | 0 <= i < |frames| :: frames[i].opcode == OP_CLOSE {
        var i :| 0 <= i < |frames| && frames[i].opcode == OP_CLOSE;
        if i > 0 {
          assert frames[1..][i - 1] == frames[i];
        }
      }
    }
  }

  /**
    End to end: a session of either role is put through any calls on any input, and the octets of the
    frames it sends in front of its Close reach, in any pieces, a live session of the other role whose cap
    admits the messages. That session returns exactly the messages whose sending succeeded, in order and
    with their kinds, and answers every Ping.
   */
  lemma PeerReceives(isServer: bool, calls: seq<Call>, keys: nat -> Key, s: Session, pieces: seq<Octets>)
    requires s.isServer == !isServer && Matches(s, Nothing) && s.input == []
    requires WithinCap(SentMessages(isServer, calls), s.cap)
    requires var frames := BeforeClose(SentIn(WsSafety.Run(isServer, calls).log));
             Concat(pieces) == Wire(Keyed(isServer, keys, frames, 0))
    ensures var frames := BeforeClose(SentIn(WsSafety.Run(isServer, calls).log));
            var (s1, received) := Drive(s, pieces);
            && received == SentMessages(isServer, calls)
            && SentIn(s1.log) == SentIn(s.log) + Pongs(Keyed(isServer, keys, frames, 0))
            && s1.input == [] && !s1.fragActive && !s1.failed && !s1.closeRecv
  {
    var log := WsSafety.Run(isServer, calls).log;
    var all := SentIn(log);
    RunSends(isServer, calls);
    MeantEither(all);
    CloseSafety(isServer, calls);
    NothingAfterClose(log);
    hide WsSafety.Run, SentIn, MeantAll, MeantFrom, AllConforming, Keyed, BeforeClose, Drive, Carries, Wire, Pongs;
    hide SentMessages, Concat;
    FramesCarry(isServer, keys, all, 0, s.cap);
    var items := Keyed(isServer, keys, BeforeClose(all), 0);
    assert s.input + Concat(pieces) == Wire(items);
    DriveDelivers(s, pieces, items, Nothing, SentMessages(isServer, calls));
    assert Done(s, Drive(s, pieces), items, SentMessages(isServer, calls));
  }

  // ------------------------------------------------------------ the octets on the transport

  lemma {:induction false} KeyedSnoc(isServer: bool, keys: nat -> Key, frames: seq<Frame>, f: Frame, n: nat)
    ensures Wire(Keyed(isServer, keys, frames + [f], n)) ==
            Wire(Keyed(isServer, keys, frames, n)) + FrameWire(if isServer then None else Some(keys(n + |frames|)), f)
  {
    hide FrameWire;
    if frames == [] {
      assert (frames + [f])[1..] == [];
      assert frames + [f] == [f];
      assert Keyed(isServer, keys, [f], n) == [Item(if isServer then None else Some(keys(n)), f)] + [];
    } else {
      assert (frames + [f])[1..] == frames[1..] + [f];
      KeyedSnoc(isServer, keys, frames[1..], f, n + 1);
    }
  }

  /** What the object writes is the wire of the frames of its log, keys in turn. */
  lemma {:induction false} WireOfLog(isServer: bool, keys: nat -> Key, log: Log)
    ensures |SentIn(log)| == WsConnection.SentCount(log)
    ensures WsConnection.WireOut(isServer, keys, log) == Wire(Keyed(isServer, keys, SentIn(log), 0))
  {
    hide FrameWire;
    if log.And? {
      WireOfLog(isServer, keys, log.before);
      if log.event.Sent? {
        KeyedSnoc(isServer, keys, SentIn(log.before), log.event.frame, 0);
      }
    }
  }
}
