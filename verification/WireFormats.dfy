/**
  Octet layouts, spelled out: the frame header and payloads of section 4 and 6 of RFC 9113, the settings the
  server announces as a peer reads them, and the frames of section 5.2 of RFC 6455 with its examples.
 */
module WireFormats {
  import opened Bytes
  import T = H2Trace
  import S = H2Spec
  import W = H2Wire
  import WsFrame

  // ------------------------------------------------------------ numbers

  /** Big-endian: the first octet counts most. */
  function Number(s: Octets): nat {
    if s == [] then 0 else 256 * Number(s[..|s| - 1]) + s[|s| - 1]
  }

  function Bound(k: nat): nat {
    if k == 0 then 1 else 256 * Bound(k - 1)
  }

  lemma {:induction false} BeReads(n: nat, k: nat)
    requires n < Bound(k)
    ensures Number(Be(n, k)) == n
  {
    if k > 0 {
      assert Be(n, k)[..k - 1] == Be(n / 256, k - 1);
      BeReads(n / 256, k - 1);
    }
  }

  // ------------------------------------------------------------ HTTP/2 frames

  /** Frame types of section 6 of RFC 9113. */
  function TypeOf(f: T.OutFrame): Byte {
    match f
    case Data(_, _, _) => 0
    case Headers(_, _, _, _) => 1
    case RstStream(_, _) => 3
    case Settings => 4
    case SettingsAck => 4
    case PingAck(_) => 6
    case GoAway(_, _) => 7
    case WindowUpdate(_, _) => 8
    case Continuation(_, _, _) => 9
  }

  /** END_STREAM and ACK are 0x1, END_HEADERS is 0x4. */
  function FlagsOf(f: T.OutFrame): Byte {
    match f
    case Data(_, true, _) => 1
    case Headers(_, false, true, _) => 4
    case Headers(_, true, true, _) => 5
    case Headers(_, true, false, _) => 1
    case SettingsAck => 1
    case PingAck(_) => 1
    case Continuation(_, true, _) => 4
    case _ => 0
  }

  /** What the payload says. */
  ghost predicate SaysPayload(f: T.OutFrame, p: Octets) {
    match f
    case Data(_, _, d) => p == d
    case Headers(_, _, _, b) => p == b
    case Continuation(_, _, b) => p == b
    case RstStream(_, code) => |p| == 4 && Number(p) == code
    case WindowUpdate(_, n) => |p| == 4 && Number(p) == n
    case SettingsAck => p == []
    case PingAck(o) => p == o
    case GoAway(last, code) => |p| == 8 && Number(p[..4]) == last && Number(p[4..]) == code
    case Settings => |p| == 30
  }

  /** Numbers fit their fields. */
  predicate Fits(f: T.OutFrame) {
    && f.Length() < 0x100_0000 && f.Stream() < 0x8000_0000
    && (f.RstStream? ==> f.code < 0x1_0000_0000) && (f.WindowUpdate? ==> f.increment < 0x8000_0000)
    && (f.GoAway? ==> f.last < 0x8000_0000 && f.code < 0x1_0000_0000)
  }

  lemma Bounds()
    ensures Bound(2) == 0x1_0000 && Bound(3) == 0x100_0000 && Bound(4) == 0x1_0000_0000
  {
  }

  /** Section 4.1: 24 bits of length, type, flags, 31 bits of stream identifier, and the payload. */
  lemma FrameLayout(lim: S.Limits, f: T.OutFrame)
    requires W.WellSized(f) && Fits(f)
    ensures var w := W.Wire(lim, f);
            && |w| == 9 + f.Length() && Number(w[..3]) == f.Length() && w[3] == TypeOf(f) && w[4] == FlagsOf(f)
            && Number(w[5..9]) == f.Stream() && SaysPayload(f, w[9..])
  {
    var w, p := W.Wire(lim, f), W.Payload(lim, f);
    var a, b := Be(|p|, 3), Be(f.Stream(), 4);
    Bounds();
    BeReads(|p|, 3);
    BeReads(f.Stream(), 4);
    PayloadSays(lim, f);
    assert w == a + [W.Kind(f), W.Flags(f)] + b + p;
    hide Be, Number, W.Payload, SaysPayload;
    assert w[..3] == a && w[5..9] == b && w[9..] == p;
  }

  lemma PayloadSays(lim: S.Limits, f: T.OutFrame)
    requires W.WellSized(f) && Fits(f)
    ensures SaysPayload(f, W.Payload(lim, f)) && |W.Payload(lim, f)| == f.Length()
  {
    Bounds();
    hide Be, Number, W.SettingsPayload;
    match f
    case RstStream(_, code) => BeReads(code, 4);
    case WindowUpdate(_, n) => BeReads(n, 4);
    case GoAway(last, code) =>
      BeReads(last, 4);
      BeReads(code, 4);
      assert (Be(last, 4) + Be(code, 4))[..4] == Be(last, 4) && (Be(last, 4) + Be(code, 4))[4..] == Be(code, 4);
    case _ =>
  }

  // ------------------------------------------------------------ settings

  lemma Entry(id: nat, v: nat, rest: Octets)
    requires id < 0x1_0000 && v < 0x1_0000_0000
    ensures var p := Be(id, 2) + Be(v, 4) + rest;
            |p| >= 6 && T.Read16(p) == id && T.Read32(p[2..]) == v && p[6..] == rest
  {
    var p := Be(id, 2) + Be(v, 4) + rest;
    W.BeDigits(v);
    assert Be(id, 2) == [id / 256 % 256, id % 256] by {
      assert Be(id / 256, 1) == [id / 256 % 256];
    }
    assert p[2..][..4] == Be(v, 4);
    hide Be;
    Split32(v);
  }

  lemma Split32(v: nat)
    requires v < 0x1_0000_0000
    ensures 0x100_0000 * (v / 0x100_0000 % 0x100) + 0x1_0000 * (v / 0x1_0000 % 0x100) + 0x100 * (v / 0x100 % 0x100)
            + v % 0x100 == v
  {
    var q1 := v / 0x100;
    var q2 := q1 / 0x100;
    var q3 := q2 / 0x100;
    assert q2 == v / 0x1_0000 && q3 == v / 0x100_0000 && q3 < 0x100;
  }

  lemma AfterEntry(id: nat, v: nat, rest: Octets, want: nat, current: nat)
    requires id < 0x1_0000 && v < 0x1_0000_0000
    ensures T.SettingAfter(Be(id, 2) + Be(v, 4) + rest, want, current) ==
            T.SettingAfter(rest, want, if id == want then v else current)
  {
    Entry(id, v, rest);
    hide Be, T.Read16, T.Read32;
  }

  /**
    What a peer takes from the server's SETTINGS (section 6.5.2): the size of the header table that the
    decoder keeps, the streams it admits, the window and frame size it enforces, and its list limit.
   */
  lemma SettingsAnnounced(lim: S.Limits, want: nat, default: nat)
    requires lim.maxStreams < 0x1_0000_0000
    ensures T.SettingAfter(W.SettingsPayload(lim), want, default) ==
            match want
            case 1 => 4096
            case 3 => lim.maxStreams
            case 4 => 65535
            case 5 => 16384
            case 6 => if lim.maxHeaderBytes < 0x1_0000_0000 then lim.maxHeaderBytes else 0xffff_ffff
            case _ => default
  {
    var e6 := Be(6, 2) + Be(Min(lim.maxHeaderBytes, 0xffff_ffff), 4) + [];
    var e5 := Be(5, 2) + Be(T.OUR_MAX_FRAME, 4) + e6;
    var e4 := Be(4, 2) + Be(T.INITIAL_WINDOW, 4) + e5;
    var e3 := Be(3, 2) + Be(lim.maxStreams, 4) + e4;
    var e1 := Be(1, 2) + Be(4096, 4) + e3;
    hide Be;
    Regroup(Be(1, 2), Be(4096, 4), Be(3, 2), Be(lim.maxStreams, 4), Be(4, 2), Be(T.INITIAL_WINDOW, 4),
            Be(5, 2), Be(T.OUR_MAX_FRAME, 4), Be(6, 2), Be(Min(lim.maxHeaderBytes, 0xffff_ffff), 4));
    assert W.SettingsPayload(lim) == e1;
    hide W.SettingsPayload, T.SettingAfter;
    AfterEntry(1, 4096, e3, want, default);
    var v1 := if want == 1 then 4096 else default;
    AfterEntry(3, lim.maxStreams, e4, want, v1);
    var v3 := if want == 3 then lim.maxStreams else v1;
    AfterEntry(4, T.INITIAL_WINDOW, e5, want, v3);
    var v4 := if want == 4 then T.INITIAL_WINDOW else v3;
    AfterEntry(5, T.OUR_MAX_FRAME, e6, want, v4);
    var v5 := if want == 5 then T.OUR_MAX_FRAME else v4;
    AfterEntry(6, Min(lim.maxHeaderBytes, 0xffff_ffff), [], want, v5);
    NoEntries(want, if want == 6 then Min(lim.maxHeaderBytes, 0xffff_ffff) else v5);
  }

  lemma Regroup(a: Octets, b: Octets, c: Octets, d: Octets, e: Octets, f: Octets, g: Octets, h: Octets, i: Octets,
                j: Octets)
    ensures a + b + c + d + e + f + g + h + i + j == a + b + (c + d + (e + f + (g + h + (i + j + []))))
  {
    assert i + j + [] == i + j;
    assert g + h + (i + j) == g + h + i + j;
    assert e + f + (g + h + i + j) == e + f + g + h + i + j;
    assert c + d + (e + f + g + h + i + j) == c + d + e + f + g + h + i + j;
    assert a + b + (c + d + e + f + g + h + i + j) == a + b + c + d + e + f + g + h + i + j;
  }

  lemma NoEntries(want: nat, current: nat)
    ensures T.SettingAfter([], want, current) == current
  {
  }

  // ------------------------------------------------------------ WebSocket frames

  /** The mask bit and the length field, in its shortest form. */
  ghost predicate SaysLength(w: Octets, masked: bool, n: nat) {
    var m: nat := if masked then 128 else 0;
    if n <= 125 then |w| >= 2 && w[1] == m + n
    else if n <= 65535 then |w| >= 4 && w[1] == m + 126 && Number(w[2..4]) == n
    else |w| >= 10 && w[1] == m + 127 && Number(w[2..10]) == n
  }

  function HeadSize(n: nat): nat {
    if n <= 125 then 2 else if n <= 65535 then 4 else 10
  }

  /** FIN and opcode, mask bit and length, the key of a client, and the payload under it. */
  lemma WsLayout(key: Option<WsFrame.Key>, f: WsFrame.Frame)
    requires f.opcode < 16 && |f.payload| < WsFrame.HIGH_BIT
    ensures var w := WsFrame.FrameWire(key, f);
            var h := HeadSize(|f.payload|);
            && |w| == h + (if key.Some? then 4 else 0) + |f.payload|
            && w[0] == (if f.fin then 128 else 0) + f.opcode && SaysLength(w, key.Some?, |f.payload|)
            && (key.None? ==> w[h..] == f.payload)
            && (key.Some? ==> w[h..h + 4] == key.value && w[h + 4..] == WsFrame.Mask(key.value, f.payload))
  {
    var n := |f.payload|;
    var w, ext := WsFrame.FrameWire(key, f), WsFrame.LenExtension(n);
    var tail := if key.None? then f.payload else key.value + WsFrame.Mask(key.value, f.payload);
    var two := [(if f.fin then 128 else 0) + f.opcode % 16, (if key.Some? then 128 else 0) + WsFrame.Len7(n)];
    assert w == two + ext + tail;
    assert two[0] == (if f.fin then 128 else 0) + f.opcode;
    hide WsFrame.FrameWire;
    LengthSays(two, ext, tail, key.Some?, n);
    hide WsFrame.LenExtension, WsFrame.Len7, SaysLength, WsFrame.Mask;
    Behind(two, ext, tail);
    if key.Some? {
      Behind(key.value, [], WsFrame.Mask(key.value, f.payload));
      assert key.value + [] + WsFrame.Mask(key.value, f.payload) == tail;
      assert w[HeadSize(n)..HeadSize(n) + 4] == tail[..4] && w[HeadSize(n) + 4..] == tail[4..];
    }
  }

  lemma Behind(a: Octets, b: Octets, c: Octets)
    ensures (a + b + c)[..|a|] == a && (a + b + c)[|a| + |b|..] == c
  {
  }

  lemma LengthSays(two: Octets, ext: Octets, tail: Octets, masked: bool, n: nat)
    requires n < WsFrame.HIGH_BIT && |two| == 2 && two[1] == (if masked then 128 else 0) + WsFrame.Len7(n)
    requires ext == WsFrame.LenExtension(n)
    ensures |ext| == HeadSize(n) - 2 && SaysLength(two + ext + tail, masked, n)
  {
    Bounds();
    EightBound();
    hide Number, Be, Bound;
    var w := two + ext + tail;
    if n > 125 {
      var k := if n <= 65535 then 2 else 8;
      BeReads(n, k);
      assert ext == Be(n, k) && w[2..2 + k] == ext;
    }
    assert w[1] == two[1];
  }

  lemma EightBound()
    ensures Bound(8) == 0x1_0000_0000_0000_0000
  {
    assert Bound(4) == 0x1_0000_0000;
  }

  /** Bit k of a number, the least significant first. */
  function Bit(v: nat, k: nat): nat {
    v / Pow2(k) % 2
  }

  lemma BitTail(v: nat, k: nat)
    ensures Bit(v, k) == if k == 0 then v % 2 else Bit(v / 2, k - 1)
  {
    if k > 0 {
      HalveFirst(v, Pow2(k - 1));
    } else {
      assert Pow2(0) == 1;
    }
  }

  lemma ParityOf(a: nat, b: nat)
    ensures (a + b) % 2 == (a % 2 + b % 2) % 2
  {
  }

  lemma XorParts(a: nat, b: nat, n: nat)
    requires n > 0
    ensures var x := WsFrame.XorBits(a, b, n); x % 2 == (a + b) % 2 && x / 2 == WsFrame.XorBits(a / 2, b / 2, n - 1)
  {
    WsFrame.XorStep(a, b, n);
    hide WsFrame.XorBits;
    WsFrame.Halves((a + b) % 2, WsFrame.XorBits(a / 2, b / 2, n - 1));
  }

  lemma LowBit(a: nat, b: nat, x: nat)
    requires x % 2 == (a + b) % 2
    ensures Bit(x, 0) == (Bit(a, 0) + Bit(b, 0)) % 2
  {
    BitTail(a, 0);
    BitTail(b, 0);
    BitTail(x, 0);
    hide Bit;
    ParityOf(a, b);
  }

  /** Exclusive or, bit by bit. */
  lemma {:induction false} XorBit(a: nat, b: nat, n: nat, k: nat)
    requires k < n
    ensures Bit(WsFrame.XorBits(a, b, n), k) == (Bit(a, k) + Bit(b, k)) % 2
  {
    hide WsFrame.XorBits, Bit;
    var x := WsFrame.XorBits(a, b, n);
    XorParts(a, b, n);
    if k == 0 {
      LowBit(a, b, x);
    } else {
      var a', b', x' := a / 2, b / 2, x / 2;
      BitTail(a, k);
      BitTail(b, k);
      BitTail(x, k);
      XorBit(a', b', n - 1, k - 1);
    }
  }

  /** Section 5.3: octet i of the payload is masked with octet i modulo 4 of the key, bit by bit. */
  lemma MaskedBits(key: WsFrame.Key, s: Octets, i: nat, k: nat)
    requires i < |s| && k < 8
    ensures Bit(WsFrame.Mask(key, s)[i], k) == (Bit(s[i], k) + Bit(key[i % 4], k)) % 2
  {
    XorBit(s[i], key[i % 4], 8, k);
    hide WsFrame.XorBits, Bit;
  }

  /** The first example of section 5.7: a text frame with "Hello". */
  lemma HelloFrame()
    ensures WsFrame.FrameWire(None, WsFrame.Frame(true, 1, [0x48, 0x65, 0x6c, 0x6c, 0x6f])) ==
            [0x81, 0x05, 0x48, 0x65, 0x6c, 0x6c, 0x6f]
  {
  }

  // ------------------------------------------------------------ frames of a client

  /** Flags of section 6.1 and 6.2 of RFC 9113: END_STREAM 0x1, END_HEADERS 0x4, PADDED 0x8, PRIORITY 0x20. */
  lemma ClientFlags(kind: Byte, sid: nat, payload: Octets, end: bool, headers: bool, padded: bool, priority: bool)
    ensures var flags := (if end then 0x1 else 0) + (if headers then 0x4 else 0) + (if padded then 0x8 else 0)
                         + (if priority then 0x20 else 0);
            var f := T.InFrame(kind, flags, sid, payload);
            f.EndStream() == end && f.EndHeaders() == headers && f.Padded() == padded && f.Priority() == priority
  {
  }

  /** A padded DATA frame: the pad length, the data, the padding. */
  lemma PaddedData(flags: Byte, sid: nat, data: Octets, pad: Octets)
    requires |pad| < 256
    ensures flags / 8 % 2 == 1 ==> T.DataPayload(T.InFrame(0, flags, sid, [|pad|] + data + pad)) == Some(data)
    ensures flags / 8 % 2 == 0 ==> T.DataPayload(T.InFrame(0, flags, sid, data)) == Some(data)
  {
    var p := [|pad|] + data + pad;
    assert p[1..] == data + pad;
    assert (data + pad)[..|data|] == data && data[..|data|] == data;
  }

  lemma Dropped(a: Octets, b: Octets)
    ensures (a + b)[|a|..] == b && (a == [] ==> a + b == b)
  {
  }

  lemma FragmentIs(f: T.InFrame, q: Octets, r: Octets, fragment: Octets, pad: Octets)
    requires |pad| < 256 && |r| == |fragment| + |pad| && r[..|fragment|] == fragment
    requires if f.Padded() then |f.payload| >= 1 && f.payload[0] == |pad| && f.payload[1..] == q
             else f.payload == q && pad == []
    requires if f.Priority() then |q| >= 5 && q[5..] == r else q == r
    ensures T.HeaderFragment(f) == Some(fragment)
  {
  }

  /** A HEADERS frame: the pad length, five octets of priority, the fragment, the padding, as the flags say. */
  lemma PaddedHeaders(flags: Byte, sid: nat, priority: Octets, fragment: Octets, pad: Octets)
    requires |pad| < 256 && |priority| == (if flags / 32 % 2 == 1 then 5 else 0)
    requires flags / 8 % 2 == 0 ==> pad == []
    ensures var head := if flags / 8 % 2 == 1 then [|pad|] else [];
            T.HeaderFragment(T.InFrame(1, flags, sid, head + priority + fragment + pad)) == Some(fragment)
  {
    hide T.HeaderFragment;
    var head := if flags / 8 % 2 == 1 then [|pad|] else [];
    var r := fragment + pad;
    var q := priority + r;
    assert head + priority + fragment + pad == head + q;
    Dropped(head, q);
    Dropped(priority, r);
    assert r[..|fragment|] == fragment;
    FragmentIs(T.InFrame(1, flags, sid, head + q), q, r, fragment, pad);
  }
}
