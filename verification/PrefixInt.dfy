/**
  Prefixed integers of section 5.1 of RFC 7541, as src/hpack.c reads and writes them:
  minimal encoding on the way out, and on the way in a cap of 2^24 and at most four
  continuation octets.
 */
module PrefixInt {
  import opened Bytes

  const INT_MAX: nat := 0x100_0000

  datatype IntResult = IntOk(value: nat, used: nat) | IntErr {
    /** The same integer, read after `n` octets that were already consumed. */
    function After(n: nat): IntResult {
      match this
      case IntErr => IntErr
      case IntOk(value, used) => IntOk(value, used + n)
    }
  }

  /** 2^bits for the prefix widths of the two header codecs. */
  function Width(bits: nat): (w: nat)
    requires 1 <= bits <= 8
    ensures w >= 2
  {
    match bits
    case 1 => 2
    case 2 => 4
    case 3 => 8
    case 4 => 16
    case 5 => 32
    case 6 => 64
    case 7 => 128
    case _ => 256
  }

  /** The prefix bits of an octet. */
  function Low(b: Byte, bits: nat): (r: nat)
    requires 1 <= bits <= 8
    ensures r < Width(bits)
  {
    match bits
    case 1 => b % 2
    case 2 => b % 4
    case 3 => b % 8
    case 4 => b % 16
    case 5 => b % 32
    case 6 => b % 64
    case 7 => b % 128
    case _ => b
  }

  /** x shifted left by `group` groups of seven bits. */
  function Shift7(x: nat, group: nat): nat
    requires group < 4
  {
    match group
    case 0 => x
    case 1 => 0x80 * x
    case 2 => 0x4000 * x
    case _ => 0x20_0000 * x
  }

  /** The flag bits a caller may place above a prefix of the given width. */
  predicate FlagsFit(bits: nat, flags: Byte) {
    1 <= bits <= 8 && Low(flags, bits) == 0
  }

  lemma Multiple(q: nat, v: nat, w: nat)
    requires v < w
    ensures (w * q + v) % w == v
  {
    var x := w * q + v;
    var d := q - x / w;
    assert w * d == x % w - v;
    assert d > 0 ==> w * d >= w;
    assert d < 0 ==> w * d <= 0 - w;
  }

  lemma PrefixRoom(bits: nat, flags: Byte, v: nat)
    requires FlagsFit(bits, flags) && v < Width(bits)
    ensures flags + v < 256
    ensures Low(flags + v, bits) == v
  {
    match bits
    case 1 => Multiple(flags / 2, v, 2);
    case 2 => Multiple(flags / 4, v, 4);
    case 3 => Multiple(flags / 8, v, 8);
    case 4 => Multiple(flags / 16, v, 16);
    case 5 => Multiple(flags / 32, v, 32);
    case 6 => Multiple(flags / 64, v, 64);
    case 7 => Multiple(flags / 128, v, 128);
    case _ =>
  }

  // ------------------------------------------------------------ encoding

  /** Continuation octets: seven value bits each, least significant group first. */
  function Groups(w: nat): (r: Octets)
    ensures |r| >= 1
  {
    if w < 128 then [w] else [128 + w % 128] + Groups(w / 128)
  }

  function Encode(bits: nat, flags: Byte, v: nat): (r: Octets)
    requires FlagsFit(bits, flags)
    ensures |r| >= 1
    ensures flags <= r[0] < flags + Width(bits)
  {
    var prefixMax := Width(bits) - 1;
    PrefixRoom(bits, flags, Min(v, prefixMax));
    if v < prefixMax then [flags + v] else [flags + prefixMax] + Groups(v - prefixMax)
  }

  method EncodeInt(out: Octets, bits: nat, flags: Byte, v: nat) returns (r: Octets)
    requires FlagsFit(bits, flags)
    ensures r == out + Encode(bits, flags, v)
  {
    hide Low, Width, Groups;
    var prefixMax := Width(bits) - 1;
    PrefixRoom(bits, flags, Min(v, prefixMax));
    if v < prefixMax {
      return out + [flags + v];
    }
    r := out + [flags + prefixMax];
    var w: nat := v - prefixMax;
    ghost var goal := out + Encode(bits, flags, v);
    assert goal == r + Groups(w);
    while w >= 128
      invariant goal == r + Groups(w)
    {
      GroupsTurn(r, w);
      var b: Byte := 128 + w % 128;
      r := r + [b];
      w := w / 128;
    }
    GroupsTurn(r, w);
    r := r + [w];
  }

  lemma GroupsTurn(r: Octets, w: nat)
    ensures w < 128 ==> Groups(w) == [w]
    ensures w >= 128 ==> r + Groups(w) == r + [128 + w % 128] + Groups(w / 128)
  {
  }

  // ------------------------------------------------------------ decoding

  /** Adds continuation octets to `v`; `group` counts those already read. */
  function DecodeGroups(p: Octets, v: nat, group: nat): (r: IntResult)
    requires group < 4
    ensures r.IntOk? ==> 1 <= r.used <= |p| && v <= r.value <= INT_MAX
  {
    if p == [] then IntErr
    else
      var v' := v + Shift7(p[0] % 128, group);
      if v' > INT_MAX then IntErr
      else if p[0] < 128 then IntOk(v', 1)
      else if group == 3 then IntErr
      else DecodeGroups(p[1..], v', group + 1).After(1)
  }

  function Decode(p: Octets, bits: nat): (r: IntResult)
    requires 1 <= bits <= 8
    ensures r.IntOk? ==> 1 <= r.used <= |p| && r.value <= INT_MAX
  {
    if p == [] then IntErr
    else
      var v := Low(p[0], bits);
      if v < Width(bits) - 1 then IntOk(v, 1) else DecodeGroups(p[1..], v, 0).After(1)
  }

  method DecodeInt(p: Octets, bits: nat) returns (r: IntResult)
    requires 1 <= bits <= 8
    ensures r == Decode(p, bits)
  {
    hide Low, Width;
    if |p| == 0 {
      return IntErr;
    }
    var prefixMax := Width(bits) - 1;
    var v := Low(p[0], bits);
    if v < prefixMax {
      return IntOk(v, 1);
    }
    var i, shift := 1, 0;
    while true
      invariant 1 <= i <= |p| && 0 <= v
      invariant shift == 7 * (i - 1) < 28
      invariant Decode(p, bits) == DecodeGroups(p[i..], v, i - 1).After(i)
      decreases |p| - i
    {
      if i >= |p| {
        return IntErr;
      }
      var b := p[i];
      assert p[i..][0] == b && p[i..][1..] == p[i + 1..];
      v := v + Shift7(b % 128, shift / 7);
      i := i + 1;
      if v > INT_MAX {
        return IntErr;
      }
      if b < 128 {
        return IntOk(v, i);
      }
      shift := shift + 7;
      if shift >= 28 {
        return IntErr;
      }
    }
  }

  // ------------------------------------------------------------ round trip

  lemma {:induction false} GroupsRoundTrip(w: nat, v: nat, group: nat, rest: Octets)
    requires group < 4
    ensures DecodeGroups(Groups(w) + rest, v, group) ==
            if v + Shift7(w, group) <= INT_MAX
            then IntOk(v + Shift7(w, group), |Groups(w)|) else IntErr
    decreases w
  {
    var p := Groups(w) + rest;
    if w >= 128 {
      assert p[0] == 128 + w % 128 && p[1..] == Groups(w / 128) + rest;
      assert p[0] % 128 == w % 128;
      SplitShift(w, group);
      if group < 3 {
        GroupsRoundTrip(w / 128, v + Shift7(w % 128, group), group + 1, rest);
      }
    } else {
      assert p[0] == w;
    }
  }

  lemma SplitShift(w: nat, group: nat)
    requires group < 4
    ensures group < 3 ==> Shift7(w, group) == Shift7(w % 128, group) + Shift7(w / 128, group + 1)
    ensures Shift7(w % 128, group) <= Shift7(w, group)
    ensures group == 3 && w >= 128 ==> Shift7(w, group) > INT_MAX
  {
    assert w == 128 * (w / 128) + w % 128;
  }

  /**
    A peer's integer survives the trip exactly when it is within the cap, whatever the
    prefix width, the flag bits above it and the octets that follow.
   */
  lemma RoundTrip(bits: nat, flags: Byte, v: nat, rest: Octets)
    requires FlagsFit(bits, flags)
    ensures Decode(Encode(bits, flags, v) + rest, bits) ==
            if v <= INT_MAX then IntOk(v, |Encode(bits, flags, v)|) else IntErr
  {
    hide Low, Width;
    var prefixMax := Width(bits) - 1;
    PrefixRoom(bits, flags, Min(v, prefixMax));
    var p := Encode(bits, flags, v) + rest;
    if v >= prefixMax {
      assert p[1..] == Groups(v - prefixMax) + rest;
      GroupsRoundTrip(v - prefixMax, prefixMax, 0, rest);
    }
  }

  // ------------------------------------------------------------ what the octets mean

  /** The number in continuation octets: seven bits each, least significant group first. */
  function GroupsValue(g: Octets): nat {
    if g == [] then 0 else g[0] % 128 + 128 * GroupsValue(g[1..])
  }

  /** The top bit is set on every octet but the last. */
  predicate Chained(g: Octets) {
    g != [] && g[|g| - 1] < 128 && forall k | 0 <= k < |g| - 1 :: g[k] >= 128
  }

  lemma {:induction false} GroupsMean(w: nat)
    ensures Chained(Groups(w)) && GroupsValue(Groups(w)) == w && (|Groups(w)| > 1 ==> Groups(w)[|Groups(w)| - 1] != 0)
  {
    GroupsTurn([], w);
    hide Groups, Chained, GroupsValue;
    if w >= 128 {
      GroupsMean(w / 128);
      GroupsTurn([], w / 128);
      ChainedCons(128 + w % 128, Groups(w / 128));
      assert w / 128 > 0;
      assert [] + Groups(w) == Groups(w) && [] + [128 + w % 128] + Groups(w / 128) == [128 + w % 128] + Groups(w / 128);
    } else {
      ChainedOne(w);
    }
  }

  lemma ChainedCons(b: Byte, g: Octets)
    requires b >= 128 && Chained(g)
    ensures Chained([b] + g) && GroupsValue([b] + g) == b % 128 + 128 * GroupsValue(g)
  {
    assert ([b] + g)[1..] == g;
  }

  lemma ChainedOne(b: Byte)
    requires b < 128
    ensures Chained([b]) && GroupsValue([b]) == b
  {
    assert [b][1..] == [];
  }

  /**
    The encoding of section 5.1: a value below 2^bits - 1 in the prefix alone, any other as the full
    prefix and the rest in groups of seven bits, no group too many.
   */
  lemma EncodingMeans(bits: nat, flags: Byte, v: nat)
    requires FlagsFit(bits, flags)
    ensures var r := Encode(bits, flags, v);
            var full := Pow2(bits) - 1;
            if v < full then r == [flags + v]
            else
              && r[0] == flags + full && Chained(r[1..]) && GroupsValue(r[1..]) == v - full
              && (|r| > 2 ==> r[|r| - 1] != 0)
  {
    WidthIsPower(bits);
    hide Low, Width, Groups;
    var full := Width(bits) - 1;
    PrefixRoom(bits, flags, Min(v, full));
    if v >= full {
      GroupsMean(v - full);
      assert Encode(bits, flags, v)[1..] == Groups(v - full);
    }
  }

  lemma WidthIsPower(bits: nat)
    requires 1 <= bits <= 8
    ensures Width(bits) == Pow2(bits)
  {
    assert Pow2(4) == 16;
    assert Pow2(8) == 256;
  }

  /** The examples of section C.1 of RFC 7541: 10 and 1337 in five bits, 42 in eight. */
  lemma ExamplesC1()
    ensures Encode(5, 0, 10) == [10] && Encode(5, 0, 1337) == [31, 154, 10] && Encode(8, 0, 42) == [42]
  {
    assert Groups(1306) == [154] + Groups(10);
  }
}
