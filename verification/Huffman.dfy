/**
  Canonical Huffman decoding with count/symbol tables (src/hpack.c, section 5.2 of RFC 7541).

  The theory is stated for every complete table: count[len] is the number of codes of
  length len, and symbol lists all symbols by length and then by code.
 */
module Huffman {
  import opened Bytes

  type Bit = b: int | 0 <= b < 2

  const EOS: nat := 256

  datatype Table = Table(count: seq<nat>, symbol: seq<nat>) {
    function MaxBits(): int { |count| - 1 }

    /** Smallest code of length `len`. */
    function First(len: nat): nat
      requires len < |count|
    {
      if len == 0 then 0 else 2 * (First(len - 1) + count[len - 1])
    }

    /** Position in `symbol` of the smallest code of length `len`. */
    function Index(len: nat): nat
      requires len < |count|
    {
      if len == 0 then 0 else Index(len - 1) + count[len - 1]
    }

    /** One past the largest code of length `len`. */
    function Limit(len: nat): nat
      requires len < |count|
    {
      First(len) + count[len]
    }

    /** The codes fit the code space, so none is a prefix of another. */
    ghost predicate WellFormed() {
      && 8 <= MaxBits()
      && count[0] == 0
      && count[MaxBits()] > 0
      && Limit(MaxBits()) <= Pow2(MaxBits())
      && Index(MaxBits()) + count[MaxBits()] == |symbol|
      && (forall i | 0 <= i < |symbol| :: symbol[i] <= EOS)
    }

    /** The codes use up the code space, and every octet and the end mark has one code. */
    ghost predicate Complete() {
      && WellFormed()
      && Limit(MaxBits()) == Pow2(MaxBits())
      && (forall s | 0 <= s <= EOS :: s in symbol)
      && (forall i, j | 0 <= i < j < |symbol| :: symbol[i] != symbol[j])
    }
  }

  /** The number spelled by a bit string, most significant bit first. */
  function Value(bits: seq<Bit>): (v: nat)
    ensures v < Pow2(|bits|)
  {
    if bits == [] then 0 else 2 * Value(bits[..|bits| - 1]) + bits[|bits| - 1]
  }

  function ToBits(v: nat, len: nat): (bits: seq<Bit>)
    ensures |bits| == len
  {
    if len == 0 then [] else ToBits(v / 2, len - 1) + [v % 2]
  }

  // ------------------------------------------------------------ the code

  /** Length of the code at position `i` of the symbol list, searching from `len`. */
  ghost function CodeLength(t: Table, i: nat, len: nat): (n: nat)
    requires t.WellFormed() && len <= t.MaxBits()
    requires t.Index(len) <= i < |t.symbol|
    ensures len <= n <= t.MaxBits() && t.Index(n) <= i < t.Index(n) + t.count[n]
    decreases t.MaxBits() - len
  {
    if i < t.Index(len) + t.count[len] then len else CodeLength(t, i, len + 1)
  }

  /** The code word at position `i` of the symbol list. */
  ghost function Code(t: Table, i: nat): seq<Bit>
    requires t.WellFormed() && i < |t.symbol|
  {
    var n := CodeLength(t, i, 0);
    ToBits(t.First(n) + i - t.Index(n), n)
  }

  ghost function Rank(t: Table, s: nat): (i: nat)
    requires t.Complete() && s <= EOS
    ensures i < |t.symbol| && t.symbol[i] == s
  {
    assert s in t.symbol;
    var i :| 0 <= i < |t.symbol| && t.symbol[i] == s;
    i
  }

  /** Concatenated code words of an octet string. */
  ghost function EncodeBits(t: Table, s: Octets): seq<Bit>
    requires t.Complete()
  {
    if s == [] then [] else Code(t, Rank(t, s[0])) + EncodeBits(t, s[1..])
  }

  ghost predicate Padding(pad: seq<Bit>) {
    |pad| <= 7 && forall i | 0 <= i < |pad| :: pad[i] == 1
  }

  // ------------------------------------------------------------ decoding one symbol

  datatype Step = Symbol(symbol: nat, used: nat) | OutOfBits | NoCode

  /** No prefix shorter than `len` of `bits` is a code word. */
  ghost predicate Unmatched(t: Table, bits: seq<Bit>, len: nat)
    requires t.WellFormed() && len <= t.MaxBits() + 1
  {
    len <= 1 || (len - 1 <= |bits| && t.Limit(len - 1) <= Value(bits[..len - 1]))
  }

  lemma AboveFirst(t: Table, bits: seq<Bit>, len: nat)
    requires t.WellFormed() && 1 <= len <= t.MaxBits() && len <= |bits|
    requires Unmatched(t, bits, len)
    ensures t.First(len) <= Value(bits[..len])
  {
    assert bits[..len][..len - 1] == bits[..len - 1];
    if len == 1 {
      assert t.First(1) == 2 * (t.First(0) + t.count[0]);
    }
  }

  lemma {:induction false} Bounds(t: Table, len: nat)
    requires t.WellFormed() && len <= t.MaxBits()
    ensures t.Limit(len) <= Pow2(len)
    ensures t.Index(len) + t.count[len] <= |t.symbol|
    ensures len < t.MaxBits() ==> t.Limit(len) < Pow2(len)
    decreases t.MaxBits() - len
  {
    if len < t.MaxBits() {
      Bounds(t, len + 1);
    }
  }

  ghost function Walk(t: Table, bits: seq<Bit>, len: nat): (r: Step)
    requires t.WellFormed() && 1 <= len <= t.MaxBits() + 1
    requires Unmatched(t, bits, len)
    ensures r.Symbol? ==> len <= r.used <= |bits| && r.symbol <= EOS
    decreases t.MaxBits() + 1 - len
  {
    if len > t.MaxBits() then NoCode
    else if |bits| < len then OutOfBits
    else
      var code := Value(bits[..len]);
      AboveFirst(t, bits, len);
      if code < t.Limit(len) then
        Bounds(t, len);
        Symbol(t.symbol[t.Index(len) + (code - t.First(len))], len)
      else Walk(t, bits, len + 1)
  }

  /** A complete table never runs past its longest code. */
  lemma {:induction false} WalkFindsCode(t: Table, bits: seq<Bit>, len: nat)
    requires t.Complete() && 1 <= len <= t.MaxBits() + 1
    requires Unmatched(t, bits, len)
    ensures !Walk(t, bits, len).NoCode?
    decreases t.MaxBits() + 1 - len
  {
    if len == t.MaxBits() + 1 {
      assert |bits[..len - 1]| == len - 1;
      assert Value(bits[..len - 1]) < Pow2(len - 1);
      assert false;
    } else if len <= |bits| && t.Limit(len) <= Value(bits[..len]) {
      WalkFindsCode(t, bits, len + 1);
    }
  }

  lemma {:induction false} ValueOfBits(v: nat, len: nat)
    requires v < Pow2(len)
    ensures Value(ToBits(v, len)) == v
  {
    if len > 0 {
      ValueOfBits(v / 2, len - 1);
      assert ToBits(v, len)[..len - 1] == ToBits(v / 2, len - 1);
    }
  }

  lemma {:induction false} BitsOfValue(bits: seq<Bit>)
    ensures ToBits(Value(bits), |bits|) == bits
  {
    if bits != [] {
      BitsOfValue(bits[..|bits| - 1]);
    }
  }

  /** A bit string that starts with a code of length `n` has no shorter code in front. */
  lemma {:induction false} CodeIsPrefixFree(t: Table, bits: seq<Bit>, n: nat, len: nat)
    requires t.WellFormed() && 1 <= len <= n <= t.MaxBits() && n <= |bits|
    requires t.First(n) <= Value(bits[..n])
    ensures Unmatched(t, bits, len)
    ensures t.First(len) <= Value(bits[..len])
    decreases n - len
  {
    if len < n {
      CodeIsPrefixFree(t, bits, n, len + 1);
    }
    assert bits[..len][..len - 1] == bits[..len - 1];
  }

  lemma {:induction false} WalkReaches(t: Table, bits: seq<Bit>, n: nat, len: nat)
    requires t.WellFormed() && 1 <= len <= n <= t.MaxBits() && n <= |bits|
    requires t.First(n) <= Value(bits[..n]) < t.Limit(n)
    ensures Unmatched(t, bits, len)
    ensures t.Index(n) + t.count[n] <= |t.symbol|
    ensures Walk(t, bits, len) == Symbol(t.symbol[t.Index(n) + Value(bits[..n]) - t.First(n)], n)
    decreases n - len
  {
    Bounds(t, n);
    CodeIsPrefixFree(t, bits, n, len);
    if len < n {
      CodeIsPrefixFree(t, bits, n, len + 1);
      WalkReaches(t, bits, n, len + 1);
    }
  }

  lemma {:induction false} IndexGrows(t: Table, len: nat, n: nat)
    requires len < n < |t.count|
    ensures t.Index(len) + t.count[len] <= t.Index(n)
    decreases n - len
  {
    if len + 1 < n {
      IndexGrows(t, len + 1, n);
    }
  }

  lemma {:induction false} CodeLengthIs(t: Table, i: nat, len: nat, n: nat)
    requires t.WellFormed() && len <= n <= t.MaxBits()
    requires t.Index(n) <= i < t.Index(n) + t.count[n] <= |t.symbol|
    ensures t.Index(len) <= i && CodeLength(t, i, len) == n
    decreases n - len
  {
    if len < n {
      IndexGrows(t, len, n);
      CodeLengthIs(t, i, len + 1, n);
    }
  }

  /** The loop recognises every code word, whatever bits follow it. */
  lemma WalkOnCode(t: Table, i: nat, rest: seq<Bit>)
    requires t.WellFormed() && i < |t.symbol|
    ensures |Code(t, i)| >= 1
    ensures Walk(t, Code(t, i) + rest, 1) == Symbol(t.symbol[i], |Code(t, i)|)
  {
    hide Walk, Table.First, CodeLength, Pow2;
    var n := CodeLength(t, i, 0);
    var v := t.First(n) + i - t.Index(n);
    Bounds(t, n);
    ValueOfBits(v, n);
    var bits := Code(t, i) + rest;
    assert bits[..n] == Code(t, i);
    WalkReaches(t, bits, n, 1);
  }

  lemma {:induction false} WalkHit(t: Table, bits: seq<Bit>, len: nat)
    requires t.WellFormed() && 1 <= len <= t.MaxBits() + 1
    requires Unmatched(t, bits, len) && Walk(t, bits, len).Symbol?
    ensures var n := Walk(t, bits, len).used;
            && n <= t.MaxBits()
            && t.First(n) <= Value(bits[..n]) < t.Limit(n)
            && t.Index(n) + t.count[n] <= |t.symbol|
            && Walk(t, bits, len).symbol == t.symbol[t.Index(n) + Value(bits[..n]) - t.First(n)]
    decreases t.MaxBits() + 1 - len
  {
    hide Table.First, Table.Index, Value, Pow2;
    AboveFirst(t, bits, len);
    Bounds(t, len);
    if t.Limit(len) <= Value(bits[..len]) {
      WalkHit(t, bits, len + 1);
    }
  }

  lemma RankOfSymbol(t: Table, i: nat)
    requires t.Complete() && i < |t.symbol|
    ensures t.symbol[i] <= EOS && Rank(t, t.symbol[i]) == i
  {
    var j := Rank(t, t.symbol[i]);
    assert t.symbol[j] == t.symbol[i];
  }

  lemma CodeAt(t: Table, i: nat, n: nat)
    requires t.WellFormed() && n <= t.MaxBits()
    requires t.Index(n) <= i < t.Index(n) + t.count[n] <= |t.symbol|
    ensures Code(t, i) == ToBits(t.First(n) + i - t.Index(n), n)
  {
    CodeLengthIs(t, i, 0, n);
  }

  lemma HitIsCode(t: Table, bits: seq<Bit>, n: nat, i: nat)
    requires t.WellFormed() && n <= t.MaxBits() && n <= |bits| && i < |t.symbol|
    requires t.First(n) <= Value(bits[..n]) < t.Limit(n)
    requires i == t.Index(n) + Value(bits[..n]) - t.First(n)
    ensures bits[..n] == Code(t, i)
  {
    Bounds(t, n);
    CodeAt(t, i, n);
    BitsOfValue(bits[..n]);
  }

  /** Whatever the loop recognises is the code word of the symbol it reports. */
  lemma WalkIsCode(t: Table, bits: seq<Bit>)
    requires t.Complete() && Walk(t, bits, 1).Symbol?
    ensures var r := Walk(t, bits, 1);
            bits[..r.used] == Code(t, Rank(t, r.symbol))
  {
    WalkHit(t, bits, 1);
    var n := Walk(t, bits, 1).used;
    var i := t.Index(n) + Value(bits[..n]) - t.First(n);
    HitIsCode(t, bits, n, i);
    RankOfSymbol(t, i);
  }

  // ------------------------------------------------------------ decoding a string

  datatype Decoded = Ok(text: Octets) | Bad {
    function Cons(b: Byte): Decoded {
      match this
      case Bad => Bad
      case Ok(text) => Ok([b] + text)
    }
  }

  ghost function DecodeBits(t: Table, bits: seq<Bit>, maxOut: nat): (r: Decoded)
    requires t.WellFormed()
    decreases |bits|
  {
    if bits == [] then Ok([])
    else
      match Walk(t, bits, 1)
      case OutOfBits => if Padding(bits) then Ok([]) else Bad
      case NoCode => Bad
      case Symbol(s, used) =>
        if s == EOS || maxOut == 0 then Bad else DecodeBits(t, bits[used..], maxOut - 1).Cons(s)
  }

  /** All-ones strings shorter than the longest code are inside it, so they match nothing. */
  lemma {:induction false} OnesRunOut(t: Table, pad: seq<Bit>, len: nat)
    requires t.WellFormed() && Padding(pad)
    requires 1 <= len <= |pad| + 1
    ensures Unmatched(t, pad, len) && Walk(t, pad, len) == OutOfBits
    decreases |pad| + 1 - len
  {
    OnesValue(pad[..len - 1]);
    Bounds(t, len - 1);
    if len <= |pad| {
      OnesValue(pad[..len]);
      Bounds(t, len);
      OnesRunOut(t, pad, len + 1);
    }
  }

  lemma {:induction false} OnesValue(pad: seq<Bit>)
    requires forall i | 0 <= i < |pad| :: pad[i] == 1
    ensures Value(pad) == Pow2(|pad|) - 1
  {
    if pad != [] {
      OnesValue(pad[..|pad| - 1]);
    }
  }

  lemma {:induction false} DecodesItsEncoding(t: Table, s: Octets, pad: seq<Bit>, maxOut: nat)
    requires t.Complete() && Padding(pad)
    ensures DecodeBits(t, EncodeBits(t, s) + pad, maxOut) == if |s| <= maxOut then Ok(s) else Bad
  {
    var bits := EncodeBits(t, s) + pad;
    if s == [] {
      assert bits == pad;
      if pad != [] {
        OnesRunOut(t, pad, 1);
      }
    } else {
      var code := Code(t, Rank(t, s[0]));
      var rest := EncodeBits(t, s[1..]) + pad;
      assert bits == code + rest;
      WalkOnCode(t, Rank(t, s[0]), rest);
      assert bits[|code|..] == rest;
      if maxOut > 0 {
        DecodesItsEncoding(t, s[1..], pad, maxOut - 1);
        assert [s[0]] + s[1..] == s;
      }
    }
  }

  lemma {:induction false} AcceptsOnlyEncodings(t: Table, bits: seq<Bit>, maxOut: nat)
    requires t.Complete() && DecodeBits(t, bits, maxOut).Ok?
    ensures var s := DecodeBits(t, bits, maxOut).text;
            && |s| <= maxOut
            && EncodeBits(t, s) <= bits
            && Padding(bits[|EncodeBits(t, s)|..])
    decreases |bits|
  {
    if bits != [] && Walk(t, bits, 1).Symbol? {
      var r := Walk(t, bits, 1);
      WalkIsCode(t, bits);
      var rest := bits[r.used..];
      AcceptsOnlyEncodings(t, rest, maxOut - 1);
      var s' := DecodeBits(t, rest, maxOut - 1).text;
      var s := DecodeBits(t, bits, maxOut).text;
      assert s[1..] == s';
      assert EncodeBits(t, s) == bits[..r.used] + EncodeBits(t, s');
      assert bits[|EncodeBits(t, s)|..] == rest[|EncodeBits(t, s')|..];
    }
  }

  /**
    A bit string is accepted with text `s` exactly when it is the code words of `s` followed
    by at most seven one-bits, and `s` is within the output limit.
   */
  lemma DecodeExactly(t: Table, bits: seq<Bit>, maxOut: nat, s: Octets)
    requires t.Complete()
    ensures DecodeBits(t, bits, maxOut) == Ok(s) <==>
            |s| <= maxOut && EncodeBits(t, s) <= bits && Padding(bits[|EncodeBits(t, s)|..])
  {
    if DecodeBits(t, bits, maxOut) == Ok(s) {
      AcceptsOnlyEncodings(t, bits, maxOut);
    }
    if |s| <= maxOut && EncodeBits(t, s) <= bits && Padding(bits[|EncodeBits(t, s)|..]) {
      var pad := bits[|EncodeBits(t, s)|..];
      assert bits == EncodeBits(t, s) + pad;
      DecodesItsEncoding(t, s, pad, maxOut);
    }
  }

  // ------------------------------------------------------------ octets and bits

  /** Bits of an octet, most significant first. */
  function OctetBits(b: Byte): (bits: seq<Bit>)
    ensures |bits| == 8
  {
    ToBits(b, 8)
  }

  lemma {:induction false} BitOfNumber(v: nat, n: nat, k: nat)
    requires k < n
    ensures ToBits(v, n)[k] == v / Pow2(n - 1 - k) % 2
    decreases n
  {
    if k < n - 1 {
      BitOfNumber(v / 2, n - 1, k);
      var w := Pow2(n - 2 - k);
      assert ToBits(v, n)[k] == ToBits(v / 2, n - 1)[k];
      assert Pow2(n - 1 - k) == 2 * w;
      HalveFirst(v, w);
    }
  }

  /** Bit k of an octet counts from the most significant one. */
  lemma OctetBitAt(b: Byte, k: nat)
    requires k < 8
    ensures OctetBits(b)[k] == b / Pow2(7 - k) % 2
  {
    BitOfNumber(b, 8, k);
  }

  function OctetOf(bits: seq<Bit>): Byte
    requires |bits| == 8
  {
    assert Pow2(4) == 16 && Pow2(8) == 256;
    Value(bits)
  }

  lemma OctetRoundTrip(bits: seq<Bit>)
    requires |bits| == 8
    ensures OctetBits(OctetOf(bits)) == bits
  {
    BitsOfValue(bits);
  }

  function BitAt(input: Octets, pos: nat): Bit
    requires pos < 8 * |input|
  {
    OctetBits(input[pos / 8])[pos % 8]
  }

  ghost function Bits(input: Octets): (bits: seq<Bit>)
    ensures |bits| == 8 * |input|
  {
    seq(8 * |input|, pos requires 0 <= pos < 8 * |input| => BitAt(input, pos))
  }

  /** Octets whose bits are the given ones. */
  ghost function Pack(bits: seq<Bit>): (r: Octets)
    requires |bits| % 8 == 0
    ensures |r| == |bits| / 8
  {
    if bits == [] then [] else [OctetOf(bits[..8])] + Pack(bits[8..])
  }

  lemma {:induction false} PackRoundTrip(bits: seq<Bit>)
    requires |bits| % 8 == 0
    ensures Bits(Pack(bits)) == bits
  {
    if bits != [] {
      var tail := bits[8..];
      PackRoundTrip(tail);
      OctetRoundTrip(bits[..8]);
      forall pos | 0 <= pos < |bits|
        ensures BitAt(Pack(bits), pos) == bits[pos]
      {
        if pos >= 8 {
          assert pos / 8 == (pos - 8) / 8 + 1 && pos % 8 == (pos - 8) % 8;
          assert BitAt(Pack(bits), pos) == BitAt(Pack(tail), pos - 8) == Bits(Pack(tail))[pos - 8];
        }
      }
    }
  }

  /** Huffman decoding of an octet string, as section 5.2 of RFC 7541 has it. */
  ghost function Decode(t: Table, input: Octets, maxOut: nat): Decoded
    requires t.WellFormed()
  {
    DecodeBits(t, Bits(input), maxOut)
  }

  /** The octets a peer sends for `s`: its code words, filled up with one-bits. */
  ghost function Encode(t: Table, s: Octets): (r: Octets)
    requires t.Complete()
  {
    var bits := EncodeBits(t, s);
    var fill := (8 - |bits| % 8) % 8;
    Pack(bits + seq(fill, _ => 1))
  }

  lemma RoundTrip(t: Table, s: Octets, maxOut: nat)
    requires t.Complete()
    ensures Decode(t, Encode(t, s), maxOut) == if |s| <= maxOut then Ok(s) else Bad
  {
    var bits := EncodeBits(t, s);
    var pad: seq<Bit> := seq((8 - |bits| % 8) % 8, _ => 1);
    assert |bits + pad| % 8 == 0;
    PackRoundTrip(bits + pad);
    DecodesItsEncoding(t, s, pad, maxOut);
  }

  /** Acceptance of an octet string, in both directions. */
  lemma OctetsDecodeExactly(t: Table, input: Octets, maxOut: nat, s: Octets)
    requires t.Complete()
    ensures Decode(t, input, maxOut) == Ok(s) <==>
            |s| <= maxOut && exists pad | Padding(pad) :: Bits(input) == EncodeBits(t, s) + pad
  {
    var bits := Bits(input);
    DecodeExactly(t, bits, maxOut, s);
    if EncodeBits(t, s) <= bits && Padding(bits[|EncodeBits(t, s)|..]) {
      assert bits == EncodeBits(t, s) + bits[|EncodeBits(t, s)|..];
    }
    if pad :| Padding(pad) && bits == EncodeBits(t, s) + pad {
      assert bits[|EncodeBits(t, s)|..] == pad;
    }
  }

  // ------------------------------------------------------------ the loops

  method ReadBit(input: Octets, pos: nat) returns (b: Bit)
    requires pos < 8 * |input|
    ensures b == Bits(input)[pos]
  {
    b := BitAt(input, pos);
  }

  /** One symbol starting at bit `start`; `next` is the bit after the last one looked at. */
  method DecodeSymbol(t: Table, input: Octets, start: nat) returns (r: Step, next: nat)
    requires t.WellFormed() && start <= 8 * |input|
    ensures r == Walk(t, Bits(input)[start..], 1)
    ensures r.Symbol? ==> next == start + r.used <= 8 * |input|
  {
    hide Bits, Walk;
    var total := 8 * |input|;
    var code: nat, first: nat, index: nat, len: nat := 0, 0, 0, 1;
    ghost var bits := Bits(input)[start..];
    ghost var goal := Walk(t, bits, 1);
    next := start;
    FirstLength(t);
    while len <= t.MaxBits()
      invariant 1 <= len <= t.MaxBits() + 1
      invariant next == start + len - 1 <= total
      invariant Unmatched(t, bits, len) && code == Value(bits[..len - 1])
      invariant len <= t.MaxBits() ==> first == t.First(len) && index == t.Index(len)
      invariant goal == if len <= t.MaxBits() then Walk(t, bits, len) else NoCode
    {
      WalkStep(t, bits, len);
      if next >= total {
        return OutOfBits, next;
      }
      var b := ReadBit(input, next);
      code := 2 * code + b;
      next := next + 1;
      var cnt := t.count[len];
      if code < first + cnt {
        return Symbol(t.symbol[index + (code - first)], len), next;
      }
      index := index + cnt;
      first := 2 * (first + cnt);
      len := len + 1;
    }
    r := NoCode;
  }

  lemma FirstLength(t: Table)
    requires t.WellFormed()
    ensures t.First(1) == 0 && t.Index(1) == 0
  {
    assert t.First(1) == 2 * (t.First(0) + t.count[0]);
    assert t.Index(1) == t.Index(0) + t.count[0];
  }

  /** What one turn of the loop does to the walk. */
  lemma WalkStep(t: Table, bits: seq<Bit>, len: nat)
    requires t.WellFormed() && 1 <= len <= t.MaxBits() && Unmatched(t, bits, len)
    ensures |bits| < len ==> Walk(t, bits, len) == OutOfBits
    ensures len <= |bits| ==>
              && Value(bits[..len]) == 2 * Value(bits[..len - 1]) + bits[len - 1]
              && t.First(len) <= Value(bits[..len])
              && t.Index(len) + t.count[len] <= |t.symbol|
              && (if Value(bits[..len]) < t.Limit(len)
                  then Walk(t, bits, len) == Symbol(t.symbol[t.Index(len) + Value(bits[..len]) - t.First(len)], len)
                  else
                    && Unmatched(t, bits, len + 1)
                    && Walk(t, bits, len) == Walk(t, bits, len + 1)
                    && (len == t.MaxBits() ==> Walk(t, bits, len) == NoCode))
    ensures len < t.MaxBits() ==>
              && t.First(len + 1) == 2 * t.Limit(len)
              && t.Index(len + 1) == t.Index(len) + t.count[len]
  {
    if len <= |bits| {
      assert bits[..len][..len - 1] == bits[..len - 1];
      AboveFirst(t, bits, len);
      Bounds(t, len);
    }
  }

  method DecodeString(t: Table, input: Octets, maxOut: nat) returns (r: Decoded)
    requires t.WellFormed()
    ensures r == Decode(t, input, maxOut)
  {
    hide Bits, Walk;
    var total := 8 * |input|;
    var pos: nat, out: Octets := 0, [];
    ghost var goal := Decode(t, input, maxOut);
    assert Bits(input)[0..] == Bits(input);
    while pos < total
      invariant 0 <= pos <= total && |out| <= maxOut
      invariant goal == Prepend(out, DecodeBits(t, Bits(input)[pos..], maxOut - |out|))
    {
      var start := pos;
      var step, next := DecodeSymbol(t, input, start);
      DecodeTurn(t, Bits(input)[start..], maxOut - |out|, out);
      match step
      case OutOfBits =>
        var ok := OnlyPadding(input, start);
        return if ok then Ok(out) else Bad;
      case NoCode =>
        return Bad;
      case Symbol(s, used) =>
        if s == EOS || |out| >= maxOut {
          return Bad;
        }
        assert Bits(input)[start..][used..] == Bits(input)[next..];
        out := out + [s];
        pos := next;
    }
    r := Ok(out);
  }

  method OnlyPadding(input: Octets, start: nat) returns (ok: bool)
    requires start <= 8 * |input|
    ensures ok == Padding(Bits(input)[start..])
  {
    var total := 8 * |input|;
    if total - start > 7 {
      return false;
    }
    for k := start to total
      invariant forall j | start <= j < k :: Bits(input)[j] == 1
    {
      var b := ReadBit(input, k);
      if b != 1 {
        assert Bits(input)[start..][k - start] != 1;
        return false;
      }
    }
    ok := true;
  }

  ghost function Prepend(out: Octets, r: Decoded): Decoded {
    match r
    case Bad => Bad
    case Ok(text) => Ok(out + text)
  }

  /** What one turn of the loop does to the rest of the input. */
  lemma DecodeTurn(t: Table, bits: seq<Bit>, maxOut: nat, out: Octets)
    requires t.WellFormed() && bits != []
    ensures var rest := Prepend(out, DecodeBits(t, bits, maxOut));
            match Walk(t, bits, 1)
            case OutOfBits => rest == if Padding(bits) then Ok(out) else Bad
            case NoCode => rest == Bad
            case Symbol(s, used) =>
              if s == EOS || maxOut == 0 then rest == Bad
              else rest == Prepend(out + [s], DecodeBits(t, bits[used..], maxOut - 1))
  {
    match Walk(t, bits, 1)
    case Symbol(s, used) =>
      if s != EOS && maxOut > 0 {
        var tail := DecodeBits(t, bits[used..], maxOut - 1);
        if tail.Ok? {
          assert out + ([s] + tail.text) == out + [s] + tail.text;
        }
      }
    case _ =>
  }
}
