/** WebSocket frames on the wire (section 5.2 of RFC 6455), as src/ws.c writes and reads them. */
module WsFrame {
  import opened Bytes

  const OP_CONT: nat := 0
  const OP_TEXT: nat := 1
  const OP_BIN: nat := 2
  const OP_CLOSE: nat := 8
  const OP_PING: nat := 9
  const OP_PONG: nat := 10

  const SIZE_MAX: nat := 0xffff_ffff_ffff_ffff
  const HIGH_BIT: nat := 0x8000_0000_0000_0000

  datatype Frame = Frame(fin: bool, opcode: nat, payload: Octets)

  predicate KnownOpcode(op: nat) {
    op == OP_CONT || op == OP_TEXT || op == OP_BIN || op == OP_CLOSE || op == OP_PING || op == OP_PONG
  }

  predicate Control(op: nat) {
    op >= 8
  }

  // ------------------------------------------------------------ masking

  type Key = k: Octets | |k| == 4 witness [0, 0, 0, 0]

  /** Exclusive or of the low `n` bits. */
  function XorBits(a: nat, b: nat, n: nat): (r: nat) {
    if n == 0 then 0 else (a + b) % 2 + 2 * XorBits(a / 2, b / 2, n - 1)
  }

  lemma {:induction false} XorFits(a: nat, b: nat, n: nat)
    ensures XorBits(a, b, n) < Pow2(n)
  {
    if n > 0 {
      XorFits(a / 2, b / 2, n - 1);
    }
  }

  lemma Halves(d: nat, q: nat)
    requires d < 2
    ensures (d + 2 * q) / 2 == q && (d + 2 * q) % 2 == d
  {
  }

  lemma Parity(a: nat, b: nat, x: nat)
    requires x % 2 == (a + b) % 2
    ensures (x + b) % 2 == a % 2
  {
  }

  lemma XorStep(a: nat, b: nat, n: nat)
    requires n > 0
    ensures XorBits(a, b, n) == (a + b) % 2 + 2 * XorBits(a / 2, b / 2, n - 1)
  {
  }

  /** Applying the same key twice gives the octet back. */
  lemma {:induction false} XorTwice(a: nat, b: nat, n: nat)
    requires a < Pow2(n)
    ensures XorBits(XorBits(a, b, n), b, n) == a
  {
    if n > 0 {
      var q, d := XorBits(a / 2, b / 2, n - 1), (a + b) % 2;
      XorTwice(a / 2, b / 2, n - 1);
      assert XorBits(a, b, n) == d + 2 * q;
      hide XorBits;
      Halves(d, q);
      Parity(a, b, d + 2 * q);
      XorStep(d + 2 * q, b, n);
    }
  }

  function Xor(a: Byte, b: Byte): (r: Byte) {
    XorFits(a, b, 8);
    assert Pow2(8) == 256;
    XorBits(a, b, 8)
  }

  lemma XorInvolution(a: Byte, b: Byte)
    ensures Xor(Xor(a, b), b) == a
  {
    assert Pow2(8) == 256;
    XorTwice(a, b, 8);
  }

  function Mask(key: Key, s: Octets): (r: Octets)
    ensures |r| == |s|
    ensures forall i | 0 <= i < |s| :: r[i] == Xor(s[i], key[i % 4])
  {
    seq(|s|, i requires 0 <= i < |s| => Xor(s[i], key[i % 4]))
  }

  /** Unmasking is masking again. */
  lemma MaskTwice(key: Key, s: Octets)
    ensures Mask(key, Mask(key, s)) == s
  {
    hide Xor;
    var t := Mask(key, s);
    forall i | 0 <= i < |s|
      ensures Mask(key, t)[i] == s[i]
    {
      XorInvolution(s[i], key[i % 4]);
    }
  }

  // ------------------------------------------------------------ big-endian integers

  function FromBe(s: Octets): nat {
    if s == [] then 0 else 256 * FromBe(s[..|s| - 1]) + s[|s| - 1]
  }

  function Pow256(k: nat): nat {
    if k == 0 then 1 else 256 * Pow256(k - 1)
  }

  lemma {:induction false} BeRoundTrip(n: nat, k: nat)
    requires n < Pow256(k)
    ensures FromBe(Be(n, k)) == n
  {
    if k > 0 {
      assert Be(n, k)[..k - 1] == Be(n / 256, k - 1);
      BeRoundTrip(n / 256, k - 1);
    }
  }

  // ------------------------------------------------------------ writing

  /** Length field and its extension. */
  function Len7(n: nat): (r: nat)
    ensures r < 128
  {
    if n < 126 then n else if n <= 0xffff then 126 else 127
  }

  function LenExtension(n: nat): Octets {
    if n < 126 then [] else if n <= 0xffff then Be(n, 2) else Be(n, 8)
  }

  /** A frame as sent: masked with a key by a client, plain by a server. */
  function FrameWire(key: Option<Key>, f: Frame): Octets {
    var n := |f.payload|;
    [(if f.fin then 128 else 0) + f.opcode % 16, (if key.Some? then 128 else 0) + Len7(n)]
    + LenExtension(n)
    + match key {
        case None => f.payload
        case Some(k) => k + Mask(k, f.payload)
      }
  }

  // ------------------------------------------------------------ reading

  /** The fixed part of a frame. */
  datatype Head = NoHead | BadHead(code: nat) | Head(fin: bool, opcode: nat, masked: bool, len: nat, base: nat)

  function Base(len7: nat): nat {
    if len7 == 126 then 4 else if len7 == 127 then 10 else 2
  }

  function ReadHead(input: Octets): Head {
    if |input| < 2 then NoHead
    else if input[0] / 16 % 8 != 0 then BadHead(1002)
    else
      var len7 := input[1] % 128;
      var base := Base(len7);
      if |input| < base then NoHead
      else
        var len := if base == 2 then len7 else FromBe(input[2..base]);
        if len7 == 127 && len >= HIGH_BIT then BadHead(1002)
        else Head(input[0] >= 128, input[0] % 16, input[1] >= 128, len, base)
  }

  /** Checks on the fixed part; `room` is what the message may still grow by, negative if it is over. */
  function HeadError(h: Head, isServer: bool, room: int): nat
    requires h.Head?
  {
    if isServer != h.masked then 1002
    else if !KnownOpcode(h.opcode) then 1002
    else if Control(h.opcode) && (!h.fin || h.len > 125) then 1002
    else if !Control(h.opcode) && (room < 0 || h.len > room) then 1009
    else 0
  }

  datatype Parsed = More | Bad(code: nat) | Got(frame: Frame, off: nat, total: nat)

  function Parse(isServer: bool, room: int, input: Octets): (r: Parsed)
    ensures r.Got? ==> 2 <= r.off <= r.total <= |input| && |r.frame.payload| == r.total - r.off
  {
    var h := ReadHead(input);
    if h.NoHead? then More
    else if h.BadHead? then Bad(h.code)
    else if HeadError(h, isServer, room) != 0 then Bad(HeadError(h, isServer, room))
    else
      var off := if h.masked then h.base + 4 else h.base;
      if |input| < off then More
      else if h.len > SIZE_MAX - off then Bad(1009)
      else if |input| < off + h.len then More
      else
        var raw := input[off..off + h.len];
        var payload := if h.masked then Mask(input[h.base..h.base + 4], raw) else raw;
        Got(Frame(h.fin, h.opcode, payload), off, off + h.len)
  }

  // ------------------------------------------------------------ what reading depends on

  lemma HeadStable(a: Octets, b: Octets)
    requires !ReadHead(a).NoHead?
    ensures ReadHead(a + b) == ReadHead(a)
  {
    hide FromBe;
    var base := Base(a[1] % 128);
    assert |a| >= base ==> (a + b)[2..base] == a[2..base];
  }

  /** Once a verdict is reached, later octets do not change it. */
  lemma ParseStable(isServer: bool, room: int, a: Octets, b: Octets)
    requires !Parse(isServer, room, a).More?
    ensures Parse(isServer, room, a + b) == Parse(isServer, room, a)
  {
    hide ReadHead, Mask, HeadError, FromBe, Base;
    HeadStable(a, b);
    var h := ReadHead(a);
    if h.Head? {
      var off := if h.masked then h.base + 4 else h.base;
      if off <= |a| {
        SliceStable(a, b, h.base, off);
      }
      if off + h.len <= |a| {
        SliceStable(a, b, off, off + h.len);
      }
    }
  }

  lemma SliceStable(a: Octets, b: Octets, i: nat, j: nat)
    requires i <= j <= |a|
    ensures (a + b)[i..j] == a[i..j]
  {
  }

  /** Frames a conforming peer may send, the message in progress having `room` left. */
  predicate Sendable(f: Frame, room: int) {
    && KnownOpcode(f.opcode) && |f.payload| < HIGH_BIT
    && (Control(f.opcode) ==> f.fin && |f.payload| <= 125)
    && (!Control(f.opcode) ==> |f.payload| <= room)
  }

  lemma WireHead(key: Option<Key>, f: Frame, rest: Octets)
    requires KnownOpcode(f.opcode) && |f.payload| < HIGH_BIT
    ensures ReadHead(FrameWire(key, f) + rest) ==
            Head(f.fin, f.opcode, key.Some?, |f.payload|, Base(Len7(|f.payload|)))
  {
    var n := |f.payload|;
    var w := FrameWire(key, f) + rest;
    var ext := LenExtension(n);
    LengthReads(n);
    assert w[0] == (if f.fin then 128 else 0) + f.opcode && w[1] == (if key.Some? then 128 else 0) + Len7(n);
    assert |w| >= 2 + |ext| && w[2..2 + |ext|] == ext;
    hide FrameWire, LenExtension, Len7, FromBe;
    assert w[0] / 16 % 8 == 0;
    assert w[1] % 128 == Len7(n);
  }

  lemma LengthReads(n: nat)
    requires n < HIGH_BIT
    ensures |LenExtension(n)| == Base(Len7(n)) - 2
    ensures n == if Base(Len7(n)) == 2 then Len7(n) else FromBe(LenExtension(n))
  {
    var ext := LenExtension(n);
    assert Pow256(8) == 0x1_0000_0000_0000_0000;
    assert Pow256(2) == 0x1_0000;
    if n >= 126 {
      BeRoundTrip(n, |ext|);
    }
  }

  /** What a frame that is all there is read as. */
  lemma ParseOf(isServer: bool, room: int, input: Octets, h: Head)
    requires ReadHead(input) == h && h.Head? && HeadError(h, isServer, room) == 0 && h.len < HIGH_BIT && h.base <= 10
    requires |input| >= h.base + (if h.masked then 4 else 0) + h.len
    ensures var off := h.base + if h.masked then 4 else 0;
            var raw := input[off..off + h.len];
            Parse(isServer, room, input) ==
            Got(Frame(h.fin, h.opcode, if h.masked then Mask(input[h.base..h.base + 4], raw) else raw), off,
                off + h.len)
  {
    hide ReadHead, HeadError, Mask;
  }

  /** Reading what was written gives the frame back, whatever follows. */
  lemma FrameRoundTrip(isServer: bool, key: Option<Key>, room: int, f: Frame, rest: Octets)
    requires isServer == key.Some? && Sendable(f, room)
    ensures var w := FrameWire(key, f);
            var r := Parse(isServer, room, w + rest);
            r.Got? && r.frame == f && r.total == |w|
  {
    WireHead(key, f, rest);
    var n := |f.payload|;
    var w, ext := FrameWire(key, f), LenExtension(n);
    LengthReads(n);
    var base := 2 + |ext|;
    var head := Head(f.fin, f.opcode, key.Some?, n, base);
    assert HeadError(head, isServer, room) == 0;
    hide ReadHead, LenExtension, Len7, Mask, Base, Parse, HeadError, FromBe;
    var pre := w[..base];
    if key.Some? {
      MaskTwice(key.value, f.payload);
      assert w == pre + key.value + Mask(key.value, f.payload);
      Sliced(pre, key.value, Mask(key.value, f.payload), rest);
    } else {
      assert w == pre + [] + f.payload;
      Sliced(pre, [], f.payload, rest);
    }
    ParseOf(isServer, room, w + rest, head);
  }

  lemma Sliced(a: Octets, b: Octets, c: Octets, d: Octets)
    ensures var s := a + b + c + d;
            s[|a|..|a| + |b|] == b && s[|a| + |b|..|a| + |b| + |c|] == c
  {
    var s := a + b + c + d;
    assert s[|a|..|a| + |b|] == b;
    assert s[|a| + |b|..|a| + |b| + |c|] == c;
  }

  /** A frame cut short is not misread: more octets are asked for. */
  lemma CutFrame(isServer: bool, key: Option<Key>, room: int, f: Frame, a: Octets, b: Octets)
    requires isServer == key.Some? && Sendable(f, room) && a + b == FrameWire(key, f) && b != []
    ensures Parse(isServer, room, a) == More
  {
    hide Parse, FrameWire;
    FrameRoundTrip(isServer, key, room, f, []);
    assert FrameWire(key, f) + [] == a + b;
    if Parse(isServer, room, a) != More {
      ParseStable(isServer, room, a, b);
    }
  }
}
