/** Frames as octets in the output buffer (section 4.1 of RFC 9113). */
module H2Wire {
  import opened Bytes
  import opened H2Trace
  import opened H2Spec

  function FrameHeader(len: nat, kind: Byte, flags: Byte, sid: nat): (r: Octets)
    ensures |r| == FRAME_HDR
  {
    Be(len, 3) + [kind, flags] + Be(sid, 4)
  }

  const HEADER_TABLE_SIZE: nat := 4096
  const S_HEADER_TABLE_SIZE: nat := 1
  const S_MAX_CONCURRENT_STREAMS: nat := 3
  const S_MAX_HEADER_LIST_SIZE: nat := 6

  /** The parameters the server announces when a connection starts. */
  function SettingsPayload(lim: Limits): (r: Octets)
    ensures |r| == 30
  {
    Be(S_HEADER_TABLE_SIZE, 2) + Be(HEADER_TABLE_SIZE, 4)
    + Be(S_MAX_CONCURRENT_STREAMS, 2) + Be(lim.maxStreams, 4)
    + Be(S_INITIAL_WINDOW_SIZE, 2) + Be(INITIAL_WINDOW, 4)
    + Be(S_MAX_FRAME_SIZE, 2) + Be(OUR_MAX_FRAME, 4)
    + Be(S_MAX_HEADER_LIST_SIZE, 2) + Be(Min(lim.maxHeaderBytes, 0xffff_ffff), 4)
  }

  function Kind(f: OutFrame): Byte {
    match f
    case Headers(_, _, _, _) => FT_HEADERS
    case Continuation(_, _, _) => FT_CONTINUATION
    case Data(_, _, _) => FT_DATA
    case RstStream(_, _) => FT_RST_STREAM
    case WindowUpdate(_, _) => FT_WINDOW_UPDATE
    case Settings => FT_SETTINGS
    case SettingsAck => FT_SETTINGS
    case PingAck(_) => FT_PING
    case GoAway(_, _) => FT_GOAWAY
  }

  function Flags(f: OutFrame): Byte {
    match f
    case Headers(_, es, eh, _) => (if es then 1 else 0) + if eh then 4 else 0
    case Continuation(_, eh, _) => if eh then 4 else 0
    case Data(_, es, _) => if es then 1 else 0
    case SettingsAck => 1
    case PingAck(_) => 1
    case _ => 0
  }

  function Payload(lim: Limits, f: OutFrame): Octets {
    match f
    case Headers(_, _, _, b) => b
    case Continuation(_, _, b) => b
    case Data(_, _, d) => d
    case RstStream(_, code) => Be(code, 4)
    case WindowUpdate(_, n) => Be(n, 4)
    case Settings => SettingsPayload(lim)
    case SettingsAck => []
    case PingAck(p) => p
    case GoAway(last, code) => Be(last, 4) + Be(code, 4)
  }

  predicate WellSized(f: OutFrame) {
    f.PingAck? ==> |f.opaque8| == 8
  }

  function Wire(lim: Limits, f: OutFrame): (r: Octets)
    requires WellSized(f)
    ensures |r| == FRAME_HDR + f.Length()
  {
    FrameHeader(|Payload(lim, f)|, Kind(f), Flags(f), f.Stream()) + Payload(lim, f)
  }

  /** What the output buffer holds after a history: octets written and not yet drained. */
  ghost function Pending(lim: Limits, t: Trace): Octets {
    match t
    case Start => []
    case Then(p, Sent(f)) => Pending(lim, p) + if WellSized(f) then Wire(lim, f) else []
    case Then(p, Drained(n)) => if n <= |Pending(lim, p)| then Pending(lim, p)[n..] else []
    case Then(p, _) => Pending(lim, p)
  }

  // ------------------------------------------------------------ reading frames back

  lemma Split24(v: nat)
    requires v < 0x100_0000
    ensures 0x1_0000 * (v / 0x1_0000 % 0x100) + 0x100 * (v / 0x100 % 0x100) + v % 0x100 == v
  {
  }

  lemma Split31(v: nat)
    requires v < 0x8000_0000
    ensures v / 0x100_0000 % 0x100 % 128 == v / 0x100_0000
    ensures 0x100_0000 * (v / 0x100_0000) + 0x1_0000 * (v / 0x1_0000 % 0x100) + 0x100 * (v / 0x100 % 0x100) +
            v % 0x100 == v
  {
    var q1 := v / 0x100;
    var q2 := q1 / 0x100;
    var q3 := q2 / 0x100;
    assert q2 == v / 0x1_0000;
    assert q3 == v / 0x100_0000 && q3 < 128;
  }

  /** A frame of the client as it goes over the wire. */
  function InWire(f: InFrame): (r: Octets)
    ensures |r| == FRAME_HDR + |f.payload|
  {
    FrameHeader(|f.payload|, f.kind, f.flags, f.sid) + f.payload
  }

  /** The frame parser finds it, whatever follows. */
  lemma FrameRead(f: InFrame, rest: Octets)
    requires |f.payload| < 0x100_0000 && f.sid < 0x8000_0000
    ensures var s := InWire(f) + rest;
            Read24(s) == |f.payload| && FirstFrame(s) == Some(f) && s[FRAME_HDR + |f.payload|..] == rest
  {
    var p := f.payload;
    var input := InWire(f) + rest;
    HeaderReads(|p|, f.kind, f.flags, f.sid, p + rest);
    assert input == FrameHeader(|p|, f.kind, f.flags, f.sid) + (p + rest);
    hide FrameHeader, Read24, Read31;
    assert input[FRAME_HDR..FRAME_HDR + |p|] == p;
  }

  /**
    A reader with the server's own frame parser finds the frame it wrote, for every frame within
    the 24-bit length and 31-bit stream id fields and whatever follows it.
   */
  lemma FrameRoundTrip(lim: Limits, f: OutFrame, rest: Octets)
    requires WellSized(f) && f.Length() < 0x100_0000 && f.Stream() < 0x8000_0000
    ensures FirstFrame(Wire(lim, f) + rest) == Some(InFrame(Kind(f), Flags(f), f.Stream(), Payload(lim, f)))
    ensures (Wire(lim, f) + rest)[FRAME_HDR + f.Length()..] == rest
  {
    hide FrameHeader, FirstFrame;
    FrameRead(InFrame(Kind(f), Flags(f), f.Stream(), Payload(lim, f)), rest);
  }

  lemma BeDigits(v: nat)
    ensures Be(v, 3) == [v / 0x1_0000 % 0x100, v / 0x100 % 0x100, v % 0x100]
    ensures Be(v, 4) == [v / 0x100_0000 % 0x100, v / 0x1_0000 % 0x100, v / 0x100 % 0x100, v % 0x100]
  {
    var q := v / 0x100;
    assert q / 0x100 == v / 0x1_0000 && q / 0x1_0000 == v / 0x100_0000;
    assert Be(v / 0x100_0000, 1) == [v / 0x100_0000 % 0x100];
    assert Be(v / 0x1_0000, 2) == Be(v / 0x100_0000, 1) + [v / 0x1_0000 % 0x100];
    assert Be(v / 0x1_0000, 1) == [v / 0x1_0000 % 0x100];
    assert Be(q, 2) == Be(v / 0x1_0000, 1) + [q % 0x100];
    assert Be(q, 3) == Be(v / 0x1_0000, 2) + [q % 0x100];
  }

  lemma HeaderReads(len: nat, kind: Byte, flags: Byte, sid: nat, rest: Octets)
    requires len < 0x100_0000 && sid < 0x8000_0000
    ensures var s := FrameHeader(len, kind, flags, sid) + rest;
            Read24(s) == len && s[3] == kind && s[4] == flags && Read31(s[5..]) == sid
  {
    BeDigits(len);
    BeDigits(sid);
    Split24(len);
    Split31(sid);
    hide Be;
    var s := FrameHeader(len, kind, flags, sid) + rest;
    assert s[5] == sid / 0x100_0000 % 0x100 && s[6] == sid / 0x1_0000 % 0x100 && s[7] == sid / 0x100 % 0x100
           && s[8] == sid % 0x100;
  }
}
