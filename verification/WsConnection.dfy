/**
  The WebSocket session as src/ws.c writes it: an object that unmasks frames in place, consumes
  its input buffer and appends frames to the transport. Every method is tied to the function of
  WsSession it implements, so the delivery and closing theorems hold of the object.
 */
module WsConnection {
  import opened Bytes
  import opened WsFrame
  import opened WsSession
  import Utf8

  function SentCount(log: Log): nat {
    match log
    case Empty => 0
    case And(p, Sent(_)) => SentCount(p) + 1
    case And(p, _) => SentCount(p)
  }

  /** The octets a log puts on the transport, a client's n-th frame masked with the n-th key. */
  ghost function WireOut(isServer: bool, keys: nat -> Key, log: Log): Octets {
    match log
    case Empty => []
    case And(p, Sent(f)) => WireOut(isServer, keys, p) +
      FrameWire(if isServer then None else Some(keys(SentCount(p))), f)
    case And(p, _) => WireOut(isServer, keys, p)
  }

  lemma {:induction false} FromBeSnoc(s: Octets, b: Byte)
    ensures FromBe(s + [b]) == 256 * FromBe(s) + b
  {
    assert (s + [b])[..|s|] == s;
  }

  /** Big-endian length, octet by octet. */
  method ReadBe(s: Octets) returns (n: nat)
    ensures n == FromBe(s)
  {
    n := 0;
    for i := 0 to |s|
      invariant n == FromBe(s[..i])
    {
      assert s[..i + 1] == s[..i] + [s[i]];
      FromBeSnoc(s[..i], s[i]);
      n := 256 * n + s[i];
    }
    assert s[..|s|] == s;
  }

  method ParseHead(input: Octets) returns (h: Head)
    ensures h == ReadHead(input)
  {
    if |input| < 2 {
      return NoHead;
    }
    if input[0] / 16 % 8 != 0 {
      return BadHead(1002);
    }
    var len: nat := input[1] % 128;
    var base := 2;
    if len == 126 {
      base := 4;
    } else if len == 127 {
      base := 10;
    }
    if |input| < base {
      return NoHead;
    }
    if base > 2 {
      var len7 := len;
      len := ReadBe(input[2..base]);
      if len7 == 127 && len >= HIGH_BIT {
        return BadHead(1002);
      }
    }
    return Head(input[0] >= 128, input[0] % 16, input[1] >= 128, len, base);
  }

  /** Masks a payload for the wire, a bounded chunk at a time. */
  method MaskInChunks(key: Key, data: Octets) returns (r: Octets)
    ensures r == Mask(key, data)
  {
    hide Xor;
    r := [];
    var off := 0;
    while off < |data|
      invariant off <= |data| && r == Mask(key, data)[..off]
    {
      var c := if |data| - off > 1024 then 1024 else |data| - off;
      var chunk: Octets := [];
      for i := 0 to c
        invariant chunk == Mask(key, data)[off..off + i]
      {
        chunk := chunk + [Xor(data[off + i], key[(off + i) % 4])];
      }
      r := r + chunk;
      off := off + c;
    }
  }

  class Ws {
    const isServer: bool
    const keys: nat -> Key
    var cap: nat
    var input: Octets
    var frag: Octets
    var kind: Kind
    var fragActive: bool
    var closeSent: bool
    var closeRecv: bool
    var failed: bool
    var closeCode: nat
    var out: Octets
    var framesSent: nat
    ghost var log: Log

    ghost function Snapshot(): Session
      reads this
    {
      Session(isServer, cap, input, frag, kind, fragActive, closeSent, closeRecv, failed, closeCode, log)
    }

    ghost predicate Valid()
      reads this
    {
      out == WireOut(isServer, keys, log) && framesSent == SentCount(log)
    }

    constructor (isServer: bool, keys: nat -> Key)
      ensures this.isServer == isServer && this.keys == keys && Valid() && Snapshot() == Fresh(isServer)
    {
      this.isServer, this.keys := isServer, keys;
      cap := DEFAULT_CAP;
      input, frag, kind, fragActive := [], [], Binary, false;
      closeSent, closeRecv, failed, closeCode := false, false, false, 0;
      out, framesSent := [], 0;
      log := Empty;
    }

    // -------------------------------------------------------- output

    method SendFrame(f: Frame)
      requires Valid() && f.opcode < 16
      modifies this`out, this`framesSent, this`log
      ensures Valid() && Snapshot() == Note(old(Snapshot()), Sent(f))
    {
      hide Mask;
      var n := |f.payload|;
      var mbit := if isServer then 0 else 128;
      var hdr: Octets := [(if f.fin then 128 else 0) + f.opcode % 16, mbit + Len7(n)] + LenExtension(n);
      if isServer {
        assert FrameWire(None, f) == hdr + f.payload;
        out := out + (hdr + f.payload);
      } else {
        var key := keys(framesSent);
        var body := MaskInChunks(key, f.payload);
        assert FrameWire(Some(key), f) == hdr + (key + body);
        out := out + (hdr + (key + body));
      }
      framesSent := framesSent + 1;
      log := And(log, Sent(f));
    }

    method ProtocolFail(code: nat)
      requires Valid()
      modifies this`out, this`framesSent, this`log, this`closeSent, this`failed
      ensures Valid() && Snapshot() == Fail(old(Snapshot()), code)
    {
      if !closeSent {
        SendFrame(Frame(true, OP_CLOSE, Be(code, 2)));
        closeSent := true;
      }
      failed := true;
      log := And(log, Failed);
    }

    // -------------------------------------------------------- input

    /** Applies the mask to `n` octets of the input, in place. */
    method UnmaskAt(base: nat, n: nat)
      requires base + 4 + n <= |input|
      modifies this`input
      ensures var i := old(input); var off := base + 4;
              input == i[..off] + Mask(i[base..off], i[off..off + n]) + i[off + n..]
    {
      hide Xor;
      ghost var i0 := input;
      var off := base + 4;
      for i := 0 to n
        invariant |input| == |i0| && input[..off] == i0[..off] && input[off + i..] == i0[off + i..]
        invariant input[off..off + i] == Mask(i0[base..off], i0[off..off + n])[..i]
      {
        assert input[base + i % 4] == i0[..off][base + i % 4];
        assert input[off + i] == i0[off + i..][0];
        ghost var before := input;
        input := input[off + i := Xor(input[off + i], input[base + i % 4])];
        assert input[..off] == before[..off] && input[off + i + 1..] == before[off + i..][1..];
        assert input[off..off + i + 1] == before[off..off + i] + [input[off + i]];
      }
      assert input == input[..off] + input[off..off + n] + input[off + n..];
    }

    /** The next complete frame, its payload unmasked in the buffer. */
    method NextFrame() returns (r: Parsed)
      requires Valid()
      modifies this`input
      ensures Valid()
      ensures r == Parse(isServer, Room(old(Snapshot())), old(input))
      ensures input == if r.Got? then Unmasked(old(input), r) else old(input)
    {
      hide ReadHead, Mask;
      var h := ParseHead(input);
      if h.NoHead? {
        return More;
      }
      if h.BadHead? {
        return Bad(h.code);
      }
      var error := HeadError(h, isServer, cap - |frag|);
      if error != 0 {
        return Bad(error);
      }
      var off := if h.masked then h.base + 4 else h.base;
      if |input| < off {
        return More;
      }
      if h.len > SIZE_MAX - off {
        return Bad(1009);
      }
      if |input| < off + h.len {
        return More;
      }
      var total := off + h.len;
      if h.masked {
        UnmaskAt(h.base, h.len);
        assert input[off..total] == Mask(old(input)[h.base..off], old(input)[off..total]);
      } else {
        assert input == input[..off] + input[off..total] + input[total..];
      }
      return Got(Frame(h.fin, h.opcode, input[off..total]), off, total);
    }

    method TakeClose(payload: Octets) returns (o: Outcome)
      requires Valid()
      modifies this`out, this`framesSent, this`log, this`closeSent, this`failed, this`closeCode, this`closeRecv
      ensures Valid() && (Snapshot(), o) == OnClose(old(Snapshot()), payload)
    {
      hide Utf8.WellFormed, Be;
      var code := 1005;
      if |payload| == 1 {
        ProtocolFail(1002);
        return Error;
      }
      if |payload| >= 2 {
        code := 256 * (payload[0] as int) + payload[1];
        if !CodeAllowed(code) {
          ProtocolFail(1002);
          return Error;
        }
        if |payload| > 2 {
          var ok := Utf8.Validate(payload[2..]);
          if !ok {
            ProtocolFail(1007);
            return Error;
          }
        }
      }
      closeCode := code;
      closeRecv := true;
      log := And(log, PeerClosed);
      if !closeSent {
        SendFrame(Frame(true, OP_CLOSE, if |payload| >= 2 then Be(code, 2) else []));
        closeSent := true;
      }
      return Closed;
    }

    /** A completed message, unless it is text that is not UTF-8. */
    method Complete(k: Kind, data: Octets) returns (o: Outcome)
      requires Valid()
      modifies this`out, this`framesSent, this`log, this`closeSent, this`failed
      ensures Valid()
      ensures (Snapshot(), o) == if k.Text? && !Utf8.WellFormed(data) then (Fail(old(Snapshot()), 1007), Error)
                                 else (old(Snapshot()), Deliver(Message(k, data)))
    {
      hide Utf8.WellFormed;
      if k.Text? {
        var ok := Utf8.Validate(data);
        if !ok {
          ProtocolFail(1007);
          return Error;
        }
      }
      return Deliver(Message(k, data));
    }

    method TakeFrame(f: Frame) returns (o: Outcome)
      requires Valid()
      modifies this
      ensures Valid() && (Snapshot(), o) == OnFrame(old(Snapshot()), f)
    {
      hide Utf8.WellFormed, Fail, OnClose;
      if f.opcode == OP_PING {
        SendFrame(Frame(true, OP_PONG, f.payload));
        return Again;
      } else if f.opcode == OP_PONG {
        return Again;
      } else if f.opcode == OP_CLOSE {
        o := TakeClose(f.payload);
      } else if f.opcode == OP_CONT {
        frag := frag + f.payload;
        if !f.fin {
          return Again;
        }
        var data := frag;
        fragActive := false;
        frag := [];
        o := Complete(kind, data);
      } else {
        var k := if f.opcode == OP_TEXT then Text else Binary;
        if !f.fin {
          fragActive, kind, frag := true, k, frag + f.payload;
          return Again;
        }
        o := Complete(k, f.payload);
      }
    }

    method StepInput() returns (o: Outcome)
      requires Valid()
      modifies this
      ensures Valid() && (Snapshot(), o) == Step(old(Snapshot()))
    {
      hide Parse, OnFrame, Fail, Mask;
      var r := NextFrame();
      match r {
        case More => return NeedMore;
        case Bad(code) =>
          ProtocolFail(code);
          return Error;
        case Got(f, off, total) =>
          log := And(log, Took(f));
          if !Control(f.opcode) && (if fragActive then f.opcode != OP_CONT else f.opcode == OP_CONT) {
            ProtocolFail(1002);
            return Error;
          }
          assert input[total..] == old(input)[total..];
          input := input[total..];
          o := TakeFrame(f);
      }
    }

    /** Parses buffered frames until a message, the end of the session or the end of the input. */
    method PumpInput() returns (o: Outcome)
      requires Valid()
      modifies this
      ensures Valid() && (Snapshot(), o) == Pump(old(Snapshot()))
    {
      hide Step, Pump;
      ghost var goal := Pump(Snapshot());
      o := Again;
      while o.Again?
        invariant Valid() && if o.Again? then goal == Pump(Snapshot()) else goal == (Snapshot(), o)
        decreases o.Again?, |input|
      {
        PumpUnfolds(Snapshot());
        o := StepInput();
      }
    }

    // -------------------------------------------------------- calls

    method SendMessageCall(m: Message) returns (ok: bool)
      requires Valid()
      modifies this`out, this`framesSent, this`log
      ensures Valid() && (Snapshot(), ok) == SendMessage(old(Snapshot()), m)
    {
      hide Utf8.WellFormed;
      if failed || closeSent {
        return false;
      }
      if m.kind.Text? {
        var valid := Utf8.Validate(m.data);
        if !valid {
          return false;
        }
      }
      SendFrame(Frame(true, if m.kind.Text? then OP_TEXT else OP_BIN, m.data));
      return true;
    }

    method PingCall(data: Octets) returns (ok: bool)
      requires Valid()
      modifies this`out, this`framesSent, this`log
      ensures Valid() && (Snapshot(), ok) == Ping(old(Snapshot()), data)
    {
      if failed || closeSent || |data| > 125 {
        return false;
      }
      SendFrame(Frame(true, OP_PING, data));
      return true;
    }

    method HandOut(m: Message)
      requires Valid()
      modifies this`log
      ensures Valid() && Snapshot() == Note(old(Snapshot()), Delivered(m, old(cap)))
    {
      log := And(log, Delivered(m, cap));
    }

    method LoseTransport()
      requires Valid()
      modifies this`failed, this`log
      ensures Valid() && Snapshot() == Lose(old(Snapshot()))
    {
      failed := true;
      log := And(log, Failed);
    }

    method RecvCall(fills: seq<Fill>, bounded: bool) returns (r: Result)
      requires Valid()
      modifies this
      ensures Valid() && (Snapshot(), r) == Recv(old(Snapshot()), fills, bounded)
    {
      hide Pump, RecvLoop, WireOut, SentCount;
      if closeRecv || failed {
        return Over;
      }
      ghost var goal := RecvLoop(Snapshot(), fills, bounded);
      var k := 0;
      assert fills[0..] == fills;
      while true
        invariant Valid() && k <= |fills| && goal == RecvLoop(Snapshot(), fills[k..], bounded)
        decreases |fills| - k
      {
        RecvUnfolds(Snapshot(), fills[k..], bounded);
        var o := PumpInput();
        if o.Deliver? {
          HandOut(o.message);
          return Received(o.message);
        } else if o.Closed? {
          return Over;
        } else if o.Error? {
          return ProtocolError;
        }
        if k == |fills| {
          return TimedOut;
        }
        assert fills[k..][1..] == fills[k + 1..];
        match fills[k] {
          case Chunk(octets) => input := input + octets;
          case Timeout =>
            if bounded {
              return TimedOut;
            }
          case Eof =>
            LoseTransport();
            return Over;
          case Broken => return TransportError;
        }
        k := k + 1;
      }
    }

    method CloseCall(code: nat, reason: Octets, fills: seq<Fill>, rounds: nat) returns (ok: bool)
      requires Valid()
      modifies this
      ensures Valid() && (Snapshot(), ok) == Close(old(Snapshot()), code, reason, fills, rounds)
    {
      hide Utf8.WellFormed, AwaitClose, Be;
      if !closeSent && !failed {
        if |reason| > 123 {
          return false;
        }
        var valid := Utf8.Validate(reason);
        if !valid {
          return false;
        }
        SendFrame(Frame(true, OP_CLOSE, Be(code, 2) + reason));
        closeSent := true;
      }
      if !closeRecv && !failed {
        Await(fills, rounds);
      }
      return true;
    }

    method Await(fills: seq<Fill>, rounds: nat)
      requires Valid()
      modifies this
      ensures Valid() && Snapshot() == AwaitClose(old(Snapshot()), fills, rounds)
    {
      hide Pump, AwaitClose, WireOut, SentCount;
      ghost var goal := AwaitClose(Snapshot(), fills, rounds);
      var left, k := rounds, 0;
      assert fills[0..] == fills;
      while !closeRecv && left > 0
        invariant Valid() && k <= |fills| && goal == AwaitClose(Snapshot(), fills[k..], left)
        decreases left
      {
        AwaitUnfolds(Snapshot(), fills[k..], left);
        left := left - 1;
        var o := PumpInput();
        if o.Closed? {
          return;
        } else if o.Error? {
          failed := true;
          return;
        } else if o.NeedMore? {
          if k == |fills| {
            return;
          }
          assert fills[k..][1..] == fills[k + 1..];
          match fills[k] {
            case Chunk(octets) => input := input + octets;
            case Timeout =>
            case _ =>
              LoseTransport();
              return;
          }
          k := k + 1;
        }
      }
      AwaitUnfolds(Snapshot(), fills[k..], left);
    }

    method SetMaxMessage(n: nat)
      requires Valid()
      modifies this`cap
      ensures Valid() && Snapshot() == SetCap(old(Snapshot()), n)
    {
      if n > 0 {
        cap := n;
      }
    }
  }

  lemma PumpUnfolds(s: Session)
    ensures Pump(s) == if Step(s).1.Again? then Pump(Step(s).0) else Step(s)
    ensures Step(s).1.Again? ==> |Step(s).0.input| < |s.input|
  {
  }

  lemma RecvUnfolds(s: Session, fills: seq<Fill>, bounded: bool)
    ensures RecvLoop(s, fills, bounded) ==
            var (s1, o) := Pump(s);
            if o.Deliver? then (Note(s1, Delivered(o.message, s1.cap)), Received(o.message))
            else if o.Closed? then (s1, Over)
            else if o.Error? then (s1, ProtocolError)
            else if fills == [] then (s1, TimedOut)
            else
              var next := fills[0];
              if next.Chunk? then RecvLoop(s1.(input := s1.input + next.octets), fills[1..], bounded)
              else if next.Timeout? then if bounded then (s1, TimedOut) else RecvLoop(s1, fills[1..], bounded)
              else if next.Eof? then (Lose(s1), Over)
              else (s1, TransportError)
  {
    hide Pump;
  }

  lemma AwaitUnfolds(s: Session, fills: seq<Fill>, rounds: nat)
    ensures AwaitClose(s, fills, rounds) ==
            if s.closeRecv || rounds == 0 then s
            else
              var (s1, o) := Pump(s);
              if o.Deliver? then AwaitClose(s1, fills, rounds - 1)
              else if o.Closed? then s1
              else if o.Error? then s1.(failed := true)
              else if fills == [] then s1
              else
                var next := fills[0];
                if next.Chunk? then AwaitClose(s1.(input := s1.input + next.octets), fills[1..], rounds - 1)
                else if next.Timeout? then AwaitClose(s1, fills[1..], rounds - 1)
                else Lose(s1)
    ensures !Pump(s).1.Again?
  {
    hide Pump;
  }
}
