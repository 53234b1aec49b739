/**
  Streaming SHA-256 of src/crypto.c: whatever the cuts between updates, the digest is that of the
  padded message of section 5.1.1 of FIPS 180-4. The compression function is a parameter.
 */
module Sha256 {
  import opened Bytes

  /** Eight 32-bit words. */
  type Chain = h: seq<nat> | |h| == 8 witness [0, 0, 0, 0, 0, 0, 0, 0]

  type Compress = (Chain, Octets) -> Chain

  const INITIAL: Chain := [
    0x6a09e667, 0xbb67ae85, 0x3c6ef372, 0xa54ff53a,
    0x510e527f, 0x9b05688c, 0x1f83d9ab, 0x5be0cd19
  ]

  const TWO64: nat := 0x1_0000_0000_0000_0000

  function Wrap64(n: nat): nat {
    n % TWO64
  }

  /** The compression function over all whole blocks of a message. */
  function Blocks(f: Compress, h: Chain, msg: Octets): Chain
    decreases |msg|
  {
    if |msg| < 64 then h else Blocks(f, f(h, msg[..64]), msg[64..])
  }

  function Zeros(n: nat): (r: Octets)
    ensures |r| == n && forall k | 0 <= k < n :: r[k] == 0
  {
    if n == 0 then [] else Zeros(n - 1) + [0]
  }

  /** `k` zero octets bring the message and its end mark to 56 modulo 64. */
  predicate Fills(len: nat, k: nat) {
    k < 64 && (len + 1 + k) % 64 == 56
  }

  function ZeroCount(len: nat): (k: nat)
    ensures Fills(len, k)
  {
    (119 - len % 64) % 64
  }

  function Padded(msg: Octets): Octets {
    msg + [0x80] + Zeros(ZeroCount(|msg|)) + Be(Wrap64(8 * |msg|), 8)
  }

  function DigestOf(h: Chain): Octets {
    Be(h[0], 4) + Be(h[1], 4) + Be(h[2], 4) + Be(h[3], 4)
    + Be(h[4], 4) + Be(h[5], 4) + Be(h[6], 4) + Be(h[7], 4)
  }

  function Digest(f: Compress, msg: Octets): Octets {
    DigestOf(Blocks(f, INITIAL, Padded(msg)))
  }

  // ------------------------------------------------------------ facts about blocks

  lemma {:induction false} BlocksJoin(f: Compress, h: Chain, a: Octets, b: Octets)
    requires |a| % 64 == 0
    ensures Blocks(f, h, a + b) == Blocks(f, Blocks(f, h, a), b)
    decreases |a|
  {
    if a == [] {
      assert a + b == b;
    } else {
      assert (a + b)[..64] == a[..64] && (a + b)[64..] == a[64..] + b;
      BlocksJoin(f, f(h, a[..64]), a[64..], b);
    }
  }

  lemma OneBlock(f: Compress, h: Chain, block: Octets)
    requires |block| == 64
    ensures Blocks(f, h, block) == f(h, block)
  {
    assert block[..64] == block && block[64..] == [];
  }

  /** The padding is whole blocks, and the only amount of zeros that makes it so. */
  lemma PaddedIsWhole(msg: Octets, k: nat)
    ensures |Padded(msg)| % 64 == 0
    ensures Fills(|msg|, k) ==> k == ZeroCount(|msg|)
  {
    var z := ZeroCount(|msg|);
    var n := |msg| + 1 + z;
    hide ZeroCount, Be, Zeros, Wrap64;
    assert |Padded(msg)| == n + 8;
    assert n % 64 == 56;
    EightMore(n);
    if Fills(|msg|, k) {
      SameRemainder(|msg| + 1, z, k);
    }
  }

  lemma EightMore(n: nat)
    requires n % 64 == 56
    ensures (n + 8) % 64 == 0
  {
  }

  lemma SameRemainder(n: nat, a: nat, b: nat)
    requires a < 64 && b < 64 && (n + a) % 64 == (n + b) % 64
    ensures a == b
  {
  }

  // ------------------------------------------------------------ the context

  /** What a context holds after some octets: chaining value and partial block. */
  datatype Context = Context(state: Chain, tail: Octets)

  ghost predicate Holds(f: Compress, c: Context, msg: Octets) {
    && |c.tail| == |msg| % 64 && c.tail == msg[|msg| - |c.tail|..]
    && c.state == Blocks(f, INITIAL, msg[..|msg| - |c.tail|])
  }

  /** A stretch that stays inside the block. */
  lemma Extends(f: Compress, c: Context, msg: Octets, more: Octets)
    requires Holds(f, c, msg) && |c.tail| + |more| < 64
    ensures Holds(f, c.(tail := c.tail + more), msg + more)
  {
    var n := |msg| - |c.tail|;
    assert (msg + more)[..n] == msg[..n] && (msg + more)[n..] == msg[n..] + more;
  }

  /** A stretch that completes the block. */
  lemma Completes(f: Compress, c: Context, msg: Octets, more: Octets)
    requires Holds(f, c, msg) && |c.tail| + |more| == 64
    ensures Holds(f, c.(tail := [], state := f(c.state, c.tail + more)), msg + more)
  {
    var n := |msg| - |c.tail|;
    assert msg + more == msg[..n] + (c.tail + more);
    BlocksJoin(f, INITIAL, msg[..n], c.tail + more);
    OneBlock(f, c.state, c.tail + more);
    assert (msg + more)[..|msg + more|] == msg + more;
  }

  class Hasher {
    const compress: Compress
    const buf: array<Byte>
    var state: Chain
    var buflen: nat
    var bitlen: nat
    ghost var msg: Octets

    ghost function Abstract(): Context
      reads this, buf
      requires buflen <= buf.Length
    {
      Context(state, buf[..buflen])
    }

    /** State and buffer stand for the octets absorbed so far. */
    ghost predicate Holding()
      reads this, buf
    {
      buf.Length == 64 && buflen == |msg| % 64 && Holds(compress, Abstract(), msg)
    }

    ghost predicate Valid()
      reads this, buf
    {
      Holding() && bitlen == Wrap64(8 * |msg|)
    }

    constructor (compress: Compress)
      ensures Valid() && this.compress == compress && msg == [] && fresh(buf)
    {
      this.compress := compress;
      state := INITIAL;
      buf := new Byte[64](_ => 0);
      buflen, bitlen := 0, 0;
      msg := [];
      new;
      assert Blocks(compress, INITIAL, []) == INITIAL;
      assert buf[..0] == [];
    }

    /** Copies octets behind those already buffered. */
    method Append(data: Octets)
      requires buf.Length == 64 && buflen + |data| <= 64
      modifies this`buflen, buf
      ensures buflen == old(buflen) + |data| && buf[..buflen] == old(buf[..buflen]) + data
    {
      for k := 0 to |data|
        invariant buflen == old(buflen)
        invariant forall j | 0 <= j < buflen :: buf[j] == old(buf[j])
        invariant forall j | buflen <= j < buflen + k :: buf[j] == data[j - buflen]
      {
        buf[buflen + k] := data[k];
      }
      buflen := buflen + |data|;
      assert buf[..buflen] == old(buf[..buflen]) + data;
    }

    /** Octets that fit the block; a full block is compressed. */
    method Absorb(more: Octets)
      requires Holding() && buflen + |more| <= 64
      modifies this`state, this`buflen, this`msg, buf
      ensures Holding() && msg == old(msg) + more
    {
      hide Blocks;
      ghost var c := Abstract();
      Append(more);
      if buflen == 64 {
        Completes(compress, c, msg, more);
        assert buf[..] == buf[..64] == c.tail + more;
        state := compress(state, buf[..]);
        buflen := 0;
        assert buf[..0] == [];
      } else {
        Extends(compress, c, msg, more);
      }
      msg := msg + more;
    }

    method Update(data: Octets)
      requires Valid()
      modifies this`state, this`buflen, this`bitlen, this`msg, buf
      ensures Valid() && msg == old(msg) + data
    {
      hide Wrap64, Holds;
      BitsAdd(8 * |msg|, 8 * |data|);
      bitlen := Wrap64(bitlen + 8 * |data|);
      var done := 0;
      while done < |data|
        invariant done <= |data| && Holding() && msg == old(msg) + data[..done]
        invariant bitlen == Wrap64(old(bitlen) + 8 * |data|)
      {
        var take := if 64 - buflen > |data| - done then |data| - done else 64 - buflen;
        assert data[..done + take] == data[..done] + data[done..done + take];
        Absorb(data[done..done + take]);
        done := done + take;
      }
      assert data[..done] == data;
    }

    /** The padding: an end mark and zeros until the block has room for the length alone. */
    method PadToLength()
      requires Valid()
      modifies this`state, this`buflen, this`bitlen, this`msg, buf
      ensures Valid() && buflen == 56
      ensures msg == old(msg) + [0x80] + Zeros(ZeroCount(|old(msg)|))
    {
      hide Holds, Wrap64, ZeroCount, Zeros;
      NoZeros();
      Update([0x80]);
      ghost var k: nat := 0;
      while buflen != 56
        invariant Valid() && k <= ZeroCount(|old(msg)|) && msg == old(msg) + [0x80] + Zeros(k)
        decreases ZeroCount(|old(msg)|) - k
      {
        NotYet(|old(msg)|, k);
        Update([0]);
        MoreZeros(k);
        k := k + 1;
      }
      assert Fills(|old(msg)|, k);
      PaddedIsWhole(old(msg), k);
    }

    /** The digest of everything absorbed; the context is wiped. */
    method Final() returns (out: Octets)
      requires Valid()
      modifies this`state, this`buflen, this`bitlen, this`msg, buf
      ensures out == Digest(compress, old(msg))
    {
      var bits := bitlen;
      ghost var m := msg;
      PadToLength();
      ghost var c := Abstract();
      var len := Be(bits, 8);
      Append(len);
      Completes(compress, c, msg, len);
      assert buf[..] == buf[..64] == c.tail + len;
      state := compress(state, buf[..]);
      assert msg + len == Padded(m);
      assert (msg + len)[..|msg + len|] == msg + len;
      out := DigestOf(state);
      state, buflen, bitlen := [0, 0, 0, 0, 0, 0, 0, 0], 0, 0;
    }
  }

  /** Short of the right number of zeros the block is not at 56. */
  lemma NotYet(len: nat, k: nat)
    requires k <= ZeroCount(len) && (len + 1 + k) % 64 != 56
    ensures k < ZeroCount(len)
  {
  }

  lemma NoZeros()
    ensures Zeros(0) == []
  {
  }

  lemma MoreZeros(k: nat)
    ensures Zeros(k + 1) == Zeros(k) + [0]
  {
  }

  /** Counting bits modulo 2^64 update by update. */
  lemma BitsAdd(a: nat, b: nat)
    ensures Wrap64(Wrap64(a) + b) == Wrap64(a + b)
  {
  }

  /** However a message is cut into updates, the digest is that of the whole message. */
  method HashPieces(compress: Compress, pieces: seq<Octets>) returns (out: Octets)
    ensures out == Digest(compress, Concat(pieces))
  {
    hide Holds, Wrap64, Digest, Hasher.Abstract;
    var c := new Hasher(compress);
    assert pieces[..0] == [];
    for k := 0 to |pieces|
      invariant c.Valid() && fresh(c) && fresh(c.buf) && c.compress == compress
      invariant c.msg == Concat(pieces[..k])
    {
      ConcatSnoc(pieces[..k], pieces[k]);
      assert pieces[..k + 1] == pieces[..k] + [pieces[k]];
      c.Update(pieces[k]);
    }
    assert pieces[..|pieces|] == pieces;
    out := c.Final();
  }

  // ------------------------------------------------------------ constants and layout

  const PRIMES: seq<nat> := [2, 3, 5, 7, 11, 13, 17, 19]
  const ROOTS: seq<nat> := [1, 1, 2, 2, 3, 3, 4, 4]

  /** The first 32 bits of the fraction of a square root. */
  predicate FractionOfRoot(h: nat, p: nat, n: nat) {
    var x := n * 0x1_0000_0000 + h;
    h < 0x1_0000_0000 && x * x <= p * TWO64 < (x + 1) * (x + 1)
  }

  /** Section 5.3.3 of FIPS 180-4: the initial words come from the square roots of the first eight primes. */
  lemma InitialIsRoots()
    ensures forall i | 0 <= i < 8 :: FractionOfRoot(INITIAL[i], PRIMES[i], ROOTS[i])
  {
    assert FractionOfRoot(INITIAL[0], 2, 1);
    assert FractionOfRoot(INITIAL[1], 3, 1);
    assert FractionOfRoot(INITIAL[2], 5, 2);
    assert FractionOfRoot(INITIAL[3], 7, 2);
    assert FractionOfRoot(INITIAL[4], 11, 3);
    assert FractionOfRoot(INITIAL[5], 13, 3);
    assert FractionOfRoot(INITIAL[6], 17, 4);
    assert FractionOfRoot(INITIAL[7], 19, 4);
    hide FractionOfRoot;
  }

  /** A word in four octets, the first of which counts most. */
  predicate Word(s: Octets, w: nat) {
    |s| == 4 && 0x100_0000 * (s[0] as int) + 0x1_0000 * (s[1] as int) + 0x100 * (s[2] as int) + s[3] == w
  }

  lemma WordOf(w: nat)
    requires w < 0x1_0000_0000
    ensures Word(Be(w, 4), w)
  {
    var q1 := w / 0x100;
    var q2 := q1 / 0x100;
    var q3 := q2 / 0x100;
    assert Be(q3, 1) == [] + [q3 % 256] == [q3];
    assert Be(q2, 2) == [q3, q2 % 256];
    assert Be(q1, 3) == [q3, q2 % 256, q1 % 256];
    assert Be(w, 4) == [q3, q2 % 256, q1 % 256, w % 256];
  }

  /** The digest is the eight words in order. */
  lemma DigestSays(h: Chain, i: nat)
    requires i < 8 && h[i] < 0x1_0000_0000
    ensures |DigestOf(h)| == 32 && Word(DigestOf(h)[4 * i..4 * i + 4], h[i])
  {
    hide Be;
    WordOf(h[i]);
    var d := DigestOf(h);
    assert d[0..4] == Be(h[0], 4) && d[4..8] == Be(h[1], 4) && d[8..12] == Be(h[2], 4) && d[12..16] == Be(h[3], 4);
    assert d[16..20] == Be(h[4], 4) && d[20..24] == Be(h[5], 4) && d[24..28] == Be(h[6], 4) && d[28..32] == Be(h[7], 4);
  }

  /** Section 5.1.1: the message, a one bit, zero bits, and the length in bits in the last eight octets. */
  lemma PaddingSays(msg: Octets)
    ensures var p := Padded(msg);
            && msg <= p && |p| >= |msg| + 9 && p[|msg|] == 0x80
            && (forall k | |msg| < k < |p| - 8 :: p[k] == 0)
            && p[|p| - 8..] == Be(8 * |msg| % TWO64, 8)
  {
    hide ZeroCount, Be;
    var p, z := Padded(msg), Zeros(ZeroCount(|msg|));
    assert p == msg + [0x80] + z + Be(Wrap64(8 * |msg|), 8);
    forall k | |msg| < k < |p| - 8
      ensures p[k] == 0
    {
      assert p[k] == z[k - |msg| - 1];
    }
  }
}
