/** The bit packer of src/serial.c in buffer mode: bits fill octets from the low end. */
module Serial {
  import opened Bytes

  /** Shift right by `k` bits. */
  function Shift(b: nat, k: nat): nat {
    if k == 0 then b else Shift(b / 2, k - 1)
  }

  predicate BitAt(b: nat, k: nat) {
    Shift(b, k) % 2 == 1
  }

  /** The low `n` bits of a number, low end first. */
  function Low(b: nat, n: nat): (r: seq<bool>)
    ensures |r| == n
  {
    if n == 0 then [] else [b % 2 == 1] + Low(b / 2, n - 1)
  }

  /** The number some bits stand for. */
  function Value(bits: seq<bool>): nat {
    if bits == [] then 0 else (if bits[0] then 1 else 0) + 2 * Value(bits[1..])
  }

  function Bits(b: Byte): (r: seq<bool>)
    ensures |r| == 8
  {
    Low(b, 8)
  }

  lemma {:induction false} LowAt(b: nat, n: nat, k: nat)
    requires k < n
    ensures Low(b, n)[k] == BitAt(b, k)
  {
    if k > 0 {
      LowAt(b / 2, n - 1, k - 1);
    }
  }

  lemma {:induction false} ValueFits(bits: seq<bool>)
    ensures Value(bits) < Pow2(|bits|)
  {
    if bits != [] {
      ValueFits(bits[1..]);
    }
  }

  lemma Halves(b: nat, v: nat)
    requires b < 2
    ensures (b + 2 * v) % 2 == b && (b + 2 * v) / 2 == v
  {
  }

  lemma {:induction false} LowOfValue(bits: seq<bool>)
    ensures Low(Value(bits), |bits|) == bits
  {
    if bits != [] {
      var b, v := if bits[0] then 1 else 0, Value(bits[1..]);
      LowOfValue(bits[1..]);
      Halves(b, v);
      assert Low(b + 2 * v, |bits|) == [(b + 2 * v) % 2 == 1] + Low((b + 2 * v) / 2, |bits| - 1);
    }
  }

  lemma {:induction false} ValueOfLow(b: nat, n: nat)
    requires b < Pow2(n)
    ensures Value(Low(b, n)) == b
  {
    if n > 0 {
      ValueOfLow(b / 2, n - 1);
      assert Low(b, n)[1..] == Low(b / 2, n - 1);
    }
  }

  /** Setting the next bit: what `|= bit << n` does to `n` bits. */
  function Add(b: nat, n: nat, bit: bool): nat {
    if bit then b + Pow2(n) else b
  }

  lemma {:induction false} ValueSnoc(bits: seq<bool>, bit: bool)
    ensures Value(bits + [bit]) == Add(Value(bits), |bits|, bit)
  {
    if bits == [] {
      assert ([bit])[1..] == [] && bits + [bit] == [bit];
    } else {
      assert (bits + [bit])[1..] == bits[1..] + [bit];
      ValueSnoc(bits[1..], bit);
    }
  }

  lemma {:induction false} ValuePadded(bits: seq<bool>, n: nat)
    ensures Value(bits + Falses(n)) == Value(bits)
  {
    if n == 0 {
      assert bits + Falses(0) == bits;
    } else {
      ValuePadded(bits, n - 1);
      ValueSnoc(bits + Falses(n - 1), false);
      assert bits + Falses(n) == bits + Falses(n - 1) + [false];
    }
  }

  /** Eight bits make an octet with those bits. */
  lemma OctetOf(bits: seq<bool>)
    requires |bits| == 8
    ensures Value(bits) < 256 && Bits(Value(bits)) == bits
  {
    ValueFits(bits);
    assert Pow2(8) == 256;
    LowOfValue(bits);
  }

  /** An octet is determined by its bits. */
  lemma BitsInjective(a: Byte, b: Byte)
    requires Bits(a) == Bits(b)
    ensures a == b
  {
    assert Pow2(8) == 256;
    ValueOfLow(a, 8);
    ValueOfLow(b, 8);
  }

  /** The bits of a buffer. */
  function BitsOf(s: Octets): (r: seq<bool>)
    ensures |r| == 8 * |s|
  {
    if s == [] then [] else BitsOf(s[..|s| - 1]) + Bits(s[|s| - 1])
  }

  lemma BitsOfSnoc(s: Octets, b: Byte)
    ensures BitsOf(s + [b]) == BitsOf(s) + Bits(b)
  {
    assert (s + [b])[..|s|] == s;
  }

  lemma {:induction false} BitsOfAt(s: Octets, i: nat, k: nat)
    requires i < |s| && k < 8
    ensures BitsOf(s)[8 * i + k] == Bits(s[i])[k]
  {
    hide Bits;
    if i < |s| - 1 {
      BitsOfAt(s[..|s| - 1], i, k);
    }
  }

  function Falses(n: nat): (r: seq<bool>)
    ensures |r| == n && forall k | 0 <= k < n :: !r[k]
  {
    if n == 0 then [] else Falses(n - 1) + [false]
  }

  // ------------------------------------------------------------ items

  /** What one call writes or reads. */
  datatype Item = Bit(bit: bool) | Whole(octet: Byte)

  function ItemBits(it: Item): seq<bool> {
    match it
    case Bit(b) => [b]
    case Whole(b) => Bits(b)
  }

  function Flatten(items: seq<Item>): seq<bool> {
    if items == [] then [] else Flatten(items[..|items| - 1]) + ItemBits(items[|items| - 1])
  }

  lemma {:induction false} FlattenPrefix(items: seq<Item>, k: nat)
    requires k < |items|
    ensures Flatten(items[..k + 1]) == Flatten(items[..k]) + ItemBits(items[k])
    ensures Flatten(items[..k + 1]) <= Flatten(items)
    decreases |items|
  {
    assert items[..k + 1][..k] == items[..k];
    if k + 1 == |items| {
      assert items[..k + 1] == items;
    } else {
      var init := items[..|items| - 1];
      assert init[..k + 1] == items[..k + 1] && init[..k] == items[..k];
      FlattenPrefix(init, k);
    }
  }

  /** Bits up to the next octet boundary. */
  function PadLength(n: nat): (k: nat)
    ensures k < 8 && (n + k) % 8 == 0
  {
    (8 - n % 8) % 8
  }

  // ------------------------------------------------------------ the packer

  /** What the write cursors stand for; octets that do not fit the buffer are dropped. */
  ghost predicate Packs(stored: Octets, size: nat, current: nat, pending: nat, written: seq<bool>) {
    && pending == |written| % 8 && |stored| == Min(|written| / 8, size)
    && BitsOf(stored) == written[..8 * |stored|]
    && current == Value(written[|written| - pending..])
  }

  function StreamOctet(s: Octets, i: nat): Byte {
    if i < |s| then s[i] else 0
  }

  /** The k-th bit of the buffer; past its end reads give zeros. */
  function StreamBit(s: Octets, k: nat): bool {
    BitAt(StreamOctet(s, k / 8), k % 8)
  }

  ghost predicate Reads(s: Octets, pos: nat, current: Byte, used: nat, taken: nat) {
    && pos == Min((taken + 7) / 8, |s|) && used <= 8
    && (if taken % 8 == 0 then used == 0 || used == 8 else used == taken % 8 && current == StreamOctet(s, taken / 8))
  }

  lemma Pending(stored: Octets, size: nat, current: nat, pending: nat, written: seq<bool>)
    requires Packs(stored, size, current, pending, written)
    ensures pending < 8 && pending == |written| % 8 && current < Pow2(pending) <= 128
  {
    ValueFits(written[|written| - pending..]);
    assert Pow2(7) == 128;
    SmallPowers(pending);
  }

  lemma {:induction false} SmallPowers(k: nat)
    requires k < 8
    ensures Pow2(k) <= 128
  {
    PowersGrow(k, 7);
    assert Pow2(7) == 128;
  }

  lemma {:induction false} PowersGrow(a: nat, b: nat)
    requires a <= b
    ensures Pow2(a) <= Pow2(b)
  {
    if a < b {
      PowersGrow(a, b - 1);
    }
  }

  /** A whole octet goes to the buffer. */
  lemma Stores(stored: Octets, size: nat, written: seq<bool>, b: Byte, bits: seq<bool>)
    requires |stored| == Min(|written| / 8, size) && BitsOf(stored) == written[..8 * |stored|]
    requires var p := |written| % 8; |bits| + p == 8 && Bits(b) == written[|written| - p..] + bits
    ensures Packs(if |stored| < size then stored + [b] else stored, size, 0, 0, written + bits)
  {
    BitsOfSnoc(stored, b);
    var w, n := written + bits, |stored|;
    assert Value(w[|w|..]) == 0;
    hide BitsOf, Bits, Value;
    assert w[..8 * n] == written[..8 * n];
    WholeOctets(|written|, |bits|);
    if n < size {
      assert |w| == 8 * (n + 1) && w[..|w|] == w;
      assert w == written[..8 * n] + (written[8 * n..] + bits);
    }
  }

  lemma WholeOctets(n: nat, k: nat)
    requires k + n % 8 == 8
    ensures (n + k) % 8 == 0 && (n + k) / 8 == n / 8 + 1
  {
  }

  /** Inside an octet: the next bit is in the octet at hand. */
  lemma Using(s: Octets, pos: nat, current: Byte, used: nat, taken: nat)
    requires Reads(s, pos, current, used, taken)
    ensures used <= 8 && pos <= |s|
    ensures 0 < used < 8 ==>
              && StreamBit(s, taken) == BitAt(current, used)
              && Reads(s, pos, current, used + 1, taken + 1)
  {
    hide BitAt;
    if 0 < used < 8 {
      NextInOctet(taken);
    }
  }

  lemma NextInOctet(taken: nat)
    requires taken % 8 != 0
    ensures (taken + 1 + 7) / 8 == (taken + 7) / 8 == taken / 8 + 1
    ensures (taken + 1) % 8 == if taken % 8 == 7 then 0 else taken % 8 + 1
    ensures taken % 8 != 7 ==> (taken + 1) / 8 == taken / 8
  {
  }

  /** Between octets: a fresh one is taken from the buffer. */
  lemma Fresh(s: Octets, pos: nat, current: Byte, used: nat, taken: nat)
    requires Reads(s, pos, current, used, taken) && (used == 0 || used == 8)
    ensures taken % 8 == 0 && StreamOctet(s, pos) == StreamOctet(s, taken / 8)
    ensures StreamBit(s, taken) == BitAt(StreamOctet(s, pos), 0)
    ensures Reads(s, Min(pos + 1, |s|), StreamOctet(s, pos), 1, taken + 1)
    ensures Reads(s, Min(pos + 1, |s|), StreamOctet(s, pos), 0, taken + 8)
  {
    hide BitAt;
    Boundary(taken);
  }

  lemma Boundary(taken: nat)
    requires taken % 8 == 0
    ensures (taken + 7) / 8 == taken / 8 && (taken + 1 + 7) / 8 == taken / 8 + 1 && (taken + 8 + 7) / 8 == taken / 8 + 1
    ensures (taken + 1) % 8 == 1 && (taken + 1) / 8 == taken / 8 && (taken + 8) % 8 == 0
  {
  }

  lemma StoreCurrent(stored: Octets, size: nat, current: nat, written: seq<bool>, bit: bool)
    requires Packs(stored, size, current, 7, written)
    ensures var b := Add(current, 7, bit);
            b < 256 && Packs(if |stored| < size then stored + [b] else stored, size, 0, 0, written + [bit])
  {
    var tail := written[|written| - 7..];
    ValueSnoc(tail, bit);
    OctetOf(tail + [bit]);
    Stores(stored, size, written, Add(current, 7, bit), [bit]);
  }

  lemma KeepCurrent(stored: Octets, size: nat, current: nat, pending: nat, written: seq<bool>, bit: bool)
    requires Packs(stored, size, current, pending, written) && pending < 7
    ensures Packs(stored, size, Add(current, pending, bit), pending + 1, written + [bit])
  {
    var tail, w := written[|written| - pending..], written + [bit];
    ValueSnoc(tail, bit);
    hide BitsOf, Value, Add;
    assert w[..8 * |stored|] == written[..8 * |stored|];
    assert w[|w| - (pending + 1)..] == tail + [bit];
    assert |w| % 8 == pending + 1 && |w| / 8 == |written| / 8;
  }

  lemma StoreWhole(stored: Octets, size: nat, current: nat, written: seq<bool>, b: Byte)
    requires Packs(stored, size, current, 0, written)
    ensures Packs(if |stored| < size then stored + [b] else stored, size, 0, 0, written + Bits(b))
  {
    hide BitsOf, Bits, Value;
    assert written[|written|..] + Bits(b) == Bits(b);
    Stores(stored, size, written, b, Bits(b));
  }

  lemma PadIs(n: nat)
    requires n % 8 > 0
    ensures PadLength(n) == 8 - n % 8
  {
  }

  lemma StorePadded(stored: Octets, size: nat, current: nat, pending: nat, written: seq<bool>)
    requires Packs(stored, size, current, pending, written) && pending > 0
    ensures PadLength(|written|) == 8 - pending && current < 256
    ensures Packs(if |stored| < size then stored + [current] else stored, size, 0, 0, written + Falses(8 - pending))
  {
    var tail := written[|written| - pending..];
    PadIs(|written|);
    ValuePadded(tail, 8 - pending);
    OctetOf(tail + Falses(8 - pending));
    hide PadLength, BitsOf, Bits, Value, Falses;
    Stores(stored, size, written, current, Falses(8 - pending));
  }

  class Packer {
    const buf: array<Byte>
    var wpos: nat
    var curWrite: Byte
    var bitsWritten: nat
    var rpos: nat
    var curRead: Byte
    var bitsRead: nat
    var readEof: bool
    ghost var written: seq<bool>
    ghost var taken: nat

    ghost predicate ValidWrite()
      reads this, buf
    {
      wpos <= buf.Length && Packs(buf[..wpos], buf.Length, curWrite, bitsWritten, written)
    }

    ghost predicate ValidRead()
      reads this, buf
    {
      Reads(buf[..], rpos, curRead, bitsRead, taken)
    }

    constructor (size: nat)
      ensures ValidWrite() && ValidRead() && fresh(buf) && buf.Length == size && written == [] && taken == 0
      ensures rpos == 0 && bitsRead == 8
    {
      buf := new Byte[size](_ => 0);
      wpos, curWrite, bitsWritten := 0, 0, 0;
      rpos, curRead, bitsRead, readEof := 0, 0, 8, false;
      written, taken := [], 0;
      new;
      assert buf[..0] == [];
    }

    // -------------------------------------------------------- writing

    /** Stores an octet if it fits; the write cursors start a new one. */
    method StoreByte(b: Byte)
      requires wpos <= buf.Length
      modifies this`wpos, this`curWrite, this`bitsWritten, buf
      ensures wpos <= buf.Length && curWrite == 0 && bitsWritten == 0
      ensures buf[..wpos] == if old(wpos) < buf.Length then old(buf[..wpos]) + [b] else old(buf[..wpos])
    {
      if wpos < buf.Length {
        buf[wpos] := b;
        wpos := wpos + 1;
      }
      curWrite := 0;
      bitsWritten := 0;
    }

    method WriteBit(bit: bool)
      requires ValidWrite()
      modifies this`wpos, this`curWrite, this`bitsWritten, this`written, buf
      ensures ValidWrite() && written == old(written) + [bit]
    {
      hide Packs;
      ghost var stored := buf[..wpos];
      Pending(stored, buf.Length, curWrite, bitsWritten, written);
      if bitsWritten < 7 {
        KeepCurrent(stored, buf.Length, curWrite, bitsWritten, written, bit);
        curWrite := Add(curWrite, bitsWritten, bit);
        bitsWritten := bitsWritten + 1;
      } else {
        StoreCurrent(stored, buf.Length, curWrite, written, bit);
        StoreByte(Add(curWrite, 7, bit));
      }
      written := written + [bit];
    }

    method WriteByte(b: Byte)
      requires ValidWrite()
      modifies this`wpos, this`curWrite, this`bitsWritten, this`written, buf
      ensures ValidWrite() && written == old(written) + Bits(b)
    {
      hide Packs, Bits, BitAt;
      Pending(buf[..wpos], buf.Length, curWrite, bitsWritten, written);
      if bitsWritten > 0 {
        for e := 0 to 8
          invariant ValidWrite() && written == old(written) + Bits(b)[..e]
        {
          BitsAt(b, e);
          WriteBit(BitAt(b, e));
        }
      } else {
        StoreWhole(buf[..wpos], buf.Length, curWrite, written, b);
        StoreByte(b);
        written := written + Bits(b);
      }
    }

    method WriteBits(bits: seq<bool>)
      requires ValidWrite()
      modifies this`wpos, this`curWrite, this`bitsWritten, this`written, buf
      ensures ValidWrite() && written == old(written) + bits
    {
      hide Packs;
      for i := 0 to |bits|
        invariant ValidWrite() && written == old(written) + bits[..i]
      {
        WriteBit(bits[i]);
      }
    }

    /** Completes the current octet with zeros. */
    method Synchronize()
      requires ValidWrite()
      modifies this`wpos, this`curWrite, this`bitsWritten, this`written, buf
      ensures ValidWrite() && written == old(written) + Falses(PadLength(|old(written)|)) && bitsWritten == 0
    {
      hide Packs, Falses;
      Pending(buf[..wpos], buf.Length, curWrite, bitsWritten, written);
      if bitsWritten > 0 {
        StorePadded(buf[..wpos], buf.Length, curWrite, bitsWritten, written);
        StoreByte(curWrite);
      } else {
        NoFalses();
        assert written + Falses(0) == written;
      }
      written := written + Falses(PadLength(|written|));
    }

    // -------------------------------------------------------- reading

    /** The next octet of the buffer, or zero and the end-of-file flag. */
    method NextOctet() returns (b: Byte)
      modifies this`rpos, this`readEof
      requires rpos <= buf.Length
      ensures b == StreamOctet(buf[..], old(rpos)) && rpos == Min(old(rpos) + 1, buf.Length)
      ensures readEof == (old(readEof) || old(rpos) == buf.Length)
    {
      if rpos < buf.Length {
        b := buf[rpos];
        rpos := rpos + 1;
      } else {
        b := 0;
        readEof := true;
      }
    }

    method ReadBit() returns (bit: bool)
      requires ValidRead()
      modifies this`rpos, this`readEof, this`curRead, this`bitsRead, this`taken
      ensures ValidRead() && taken == old(taken) + 1 && bit == StreamBit(buf[..], old(taken))
    {
      hide BitAt, Reads;
      Using(buf[..], rpos, curRead, bitsRead, taken);
      if bitsRead == 0 || bitsRead == 8 {
        Fresh(buf[..], rpos, curRead, bitsRead, taken);
        curRead := NextOctet();
        bitsRead := 0;
      }
      bit := BitAt(curRead, bitsRead);
      bitsRead := bitsRead + 1;
      taken := taken + 1;
    }

    /** An octet that straddles two of the buffer's, bit by bit. */
    method GatherByte() returns (b: Byte)
      requires ValidRead()
      modifies this`rpos, this`readEof, this`curRead, this`bitsRead, this`taken
      ensures ValidRead() && taken == old(taken) + 8
      ensures forall k | 0 <= k < 8 :: Bits(b)[k] == StreamBit(buf[..], old(taken) + k)
    {
      hide Reads, StreamBit, BitAt;
      var n: nat := 0;
      ghost var bits: seq<bool> := [];
      for e := 0 to 8
        invariant ValidRead() && taken == old(taken) + e && |bits| == e && n == Value(bits)
        invariant forall k | 0 <= k < e :: bits[k] == StreamBit(buf[..], old(taken) + k)
      {
        var bit := ReadBit();
        ValueSnoc(bits, bit);
        n := Add(n, e, bit);
        bits := bits + [bit];
      }
      OctetOf(bits);
      return n;
    }

    method ReadByte() returns (b: Byte)
      requires ValidRead()
      modifies this`rpos, this`readEof, this`curRead, this`bitsRead, this`taken
      ensures ValidRead() && taken == old(taken) + 8
      ensures forall k | 0 <= k < 8 :: Bits(b)[k] == StreamBit(buf[..], old(taken) + k)
    {
      if 0 < bitsRead < 8 {
        b := GatherByte();
        return;
      }
      hide BitAt, Bits, Reads;
      Using(buf[..], rpos, curRead, bitsRead, taken);
      Fresh(buf[..], rpos, curRead, bitsRead, taken);
      b := NextOctet();
      curRead := b;
      bitsRead := 0;
      WholeOctet(buf[..], taken);
      OctetBits(b);
      taken := taken + 8;
    }

    method ReadBits(count: nat) returns (bits: seq<bool>)
      requires ValidRead()
      modifies this`rpos, this`readEof, this`curRead, this`bitsRead, this`taken
      ensures ValidRead() && taken == old(taken) + count && |bits| == count
      ensures forall k | 0 <= k < count :: bits[k] == StreamBit(buf[..], old(taken) + k)
    {
      bits := [];
      for i := 0 to count
        invariant ValidRead() && taken == old(taken) + i && |bits| == i
        invariant forall k | 0 <= k < i :: bits[k] == StreamBit(buf[..], old(taken) + k)
      {
        var bit := ReadBit();
        bits := bits + [bit];
      }
    }
  }

  lemma BitsAt(b: Byte, k: nat)
    requires k < 8
    ensures Bits(b)[k] == BitAt(b, k)
  {
    LowAt(b, 8, k);
  }

  lemma OctetBits(b: Byte)
    ensures forall k | 0 <= k < 8 :: Bits(b)[k] == BitAt(b, k)
  {
    forall k | 0 <= k < 8
      ensures Bits(b)[k] == BitAt(b, k)
    {
      BitsAt(b, k);
    }
  }

  lemma NoFalses()
    ensures Falses(0) == []
  {
  }

  lemma WholeOctet(s: Octets, taken: nat)
    requires taken % 8 == 0
    ensures forall k | 0 <= k < 8 :: StreamBit(s, taken + k) == BitAt(StreamOctet(s, taken / 8), k)
  {
    forall k | 0 <= k < 8
      ensures StreamBit(s, taken + k) == BitAt(StreamOctet(s, taken / 8), k)
    {
      assert (taken + k) / 8 == taken / 8 && (taken + k) % 8 == k;
    }
  }

  lemma StreamIs(s: Octets, k: nat)
    requires k < 8 * |s|
    ensures StreamBit(s, k) == BitsOf(s)[k]
  {
    BitsOfAt(s, k / 8, k % 8);
    BitsAt(s[k / 8], k % 8);
  }

  lemma StreamPrefix(s: Octets, n: nat, k: nat)
    requires n <= |s| && k < 8 * n
    ensures StreamBit(s, k) == StreamBit(s[..n], k)
  {
    assert k / 8 < n;
  }

  /** Where an item's bits are among all bits. */
  lemma FlattenAt(items: seq<Item>, i: nat, k: nat)
    requires i < |items| && k < |ItemBits(items[i])|
    ensures var x := |Flatten(items[..i])| + k; x < |Flatten(items)| && Flatten(items)[x] == ItemBits(items[i])[k]
  {
    FlattenPrefix(items, i);
    hide Flatten, ItemBits;
    var before, bits, upTo := Flatten(items[..i]), ItemBits(items[i]), Flatten(items[..i + 1]);
    var x := |before| + k;
    assert upTo == before + bits;
    Behind(before, bits, k);
    PrefixOf(upTo, Flatten(items), x);
  }

  lemma Behind(a: seq<bool>, b: seq<bool>, k: nat)
    requires k < |b|
    ensures |a| + k < |a + b| && (a + b)[|a| + k] == b[k]
  {
  }

  lemma PrefixOf(a: seq<bool>, b: seq<bool>, x: nat)
    requires a <= b && x < |a|
    ensures a[x] == b[x]
  {
  }

  /** A buffer that starts with the flattened items gives them back, bit by bit. */
  lemma StreamItem(s: Octets, n: nat, items: seq<Item>, i: nat, k: nat)
    requires n <= |s| && i < |items| && Flatten(items) <= BitsOf(s[..n])
    requires k < |ItemBits(items[i])|
    ensures StreamBit(s, |Flatten(items[..i])| + k) == ItemBits(items[i])[k]
  {
    hide StreamBit, BitsOf, Flatten, ItemBits;
    FlattenAt(items, i, k);
    var x, all, stored := |Flatten(items[..i])| + k, Flatten(items), BitsOf(s[..n]);
    assert all <= stored && |stored| == 8 * n && x < |all|;
    PrefixOf(all, stored, x);
    StreamIs(s[..n], x);
    StreamPrefix(s, n, x);
  }

  /**
    Any sequence of bit and octet writes that fits the buffer is stored as the packing of the
    flattened bits with zero padding, and the same sequence of reads returns what was written.
   */
  method RoundTrip(size: nat, items: seq<Item>) returns (stored: Octets, back: seq<Item>)
    requires |Flatten(items)| <= 8 * size
    ensures BitsOf(stored) == Flatten(items) + Falses(PadLength(|Flatten(items)|))
    ensures back == items
  {
    hide Packs, Reads, BitsOf, Flatten, Falses, PadLength;
    var p := new Packer(size);
    WriteAll(p, items);
    p.Synchronize();
    stored := p.buf[..p.wpos];
    AllStored(stored, size, p.curWrite, p.written, |Flatten(items)|);
    Untouched(p.buf[..], p.rpos, p.curRead, p.bitsRead);
    assert Flatten(items) <= BitsOf(stored) && stored == p.buf[..][..p.wpos];
    back := ReadAll(p, items, p.wpos);
  }

  /** Nothing was read yet: whatever the buffer holds, reading starts at its front. */
  lemma Untouched(s: Octets, pos: nat, current: Byte, used: nat)
    requires pos == 0 && used == 8
    ensures Reads(s, pos, current, used, 0)
  {
  }

  lemma AllStored(stored: Octets, size: nat, current: nat, written: seq<bool>, n: nat)
    requires Packs(stored, size, current, 0, written) && n <= 8 * size && |written| == n + PadLength(n)
    ensures BitsOf(stored) == written
  {
    assert |written| <= 8 * size;
    assert |stored| == |written| / 8;
    assert written[..8 * |stored|] == written;
  }

  method WriteAll(p: Packer, items: seq<Item>)
    requires p.ValidWrite() && p.written == []
    modifies p`wpos, p`curWrite, p`bitsWritten, p`written, p.buf
    ensures p.ValidWrite() && p.written == Flatten(items)
  {
    hide Packs, Reads, Bits;
    assert items[..0] == [];
    for i := 0 to |items|
      invariant p.ValidWrite() && p.written == Flatten(items[..i])
    {
      FlattenPrefix(items, i);
      match items[i] {
        case Bit(b) => p.WriteBit(b);
        case Whole(b) => p.WriteByte(b);
      }
    }
    assert items[..|items|] == items;
  }

  method ReadAll(p: Packer, items: seq<Item>, n: nat) returns (back: seq<Item>)
    requires p.ValidRead() && p.taken == 0 && n <= p.buf.Length
    requires Flatten(items) <= BitsOf(p.buf[..][..n])
    modifies p`rpos, p`readEof, p`curRead, p`bitsRead, p`taken
    ensures back == items
  {
    hide Reads, Bits, BitAt, BitsOf, StreamBit;
    back := [];
    assert items[..0] == [];
    for i := 0 to |items|
      invariant p.ValidRead() && p.taken == |Flatten(items[..i])| && back == items[..i]
    {
      FlattenPrefix(items, i);
      match items[i] {
        case Bit(b) =>
          var bit := p.ReadBit();
          StreamItem(p.buf[..], n, items, i, 0);
          assert bit == ItemBits(items[i])[0];
          back := back + [Bit(bit)];
        case Whole(b) =>
          var octet := p.ReadByte();
          forall k | 0 <= k < 8
            ensures Bits(octet)[k] == Bits(b)[k]
          {
            StreamItem(p.buf[..], n, items, i, k);
          }
          assert Bits(octet) == Bits(b);
          BitsInjective(octet, b);
          back := back + [Whole(octet)];
      }
    }
    assert items[..|items|] == items;
  }

  lemma {:induction false} ShiftIs(b: nat, k: nat)
    ensures Shift(b, k) == b / Pow2(k)
  {
    if k > 0 {
      ShiftIs(b / 2, k - 1);
      HalveFirst(b, Pow2(k - 1));
    } else {
      assert Pow2(0) == 1;
    }
  }

  /** Bit k of an octet is the one worth 2^k, and the octets follow one another. */
  lemma BitOrder(s: Octets, i: nat, k: nat)
    requires i < |s| && k < 8
    ensures BitsOf(s)[8 * i + k] <==> s[i] / Pow2(k) % 2 == 1
  {
    BitsOfAt(s, i, k);
    LowAt(s[i], 8, k);
    ShiftIs(s[i], k);
  }
}
