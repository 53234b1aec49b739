/**
  The decoder object of src/hpack.c: the dynamic table as an array deque that is compacted or
  doubled when its tail reaches the end, and the block loop that drives it.
 */
module HpackDecoder {
  import opened Bytes
  import opened HpackTable
  import opened HpackBlock
  import PrefixInt
  import Huffman
  import HuffmanTable

  method Copy(a: array<Field>, b: array<Field>)
    requires a.Length <= b.Length && a != b
    modifies b
    ensures b[..a.Length] == a[..]
  {
    for i := 0 to a.Length
      invariant b[..i] == a[..i]
    {
      b[i] := a[i];
    }
  }

  class Decoder {
    var max: nat
    var used: nat
    var e: array<Field>
    var head: nat
    var tail: nat

    /** Live entries, oldest first. */
    ghost function Live(): seq<Field>
      requires head <= tail <= e.Length
      reads this, e
    {
      e[head..tail]
    }

    ghost predicate Shape()
      reads this, e
    {
      && head <= tail <= e.Length
      && used == Size(Live())
      && (e.Length == 0 || e.Length == 16 || e.Length == 32 || e.Length == 64 || e.Length == 128)
      && max <= TABLE_MAX
    }

    ghost predicate Valid()
      reads this, e
    {
      Shape() && used <= max
    }

    /** The FIFO table of section 2.3 of RFC 7541 that the deque stands for. */
    ghost function Table(): Dynamic
      requires Shape()
      reads this, e
    {
      Dynamic(Live(), max)
    }

    constructor (maxTableBytes: nat)
      ensures Valid() && fresh(e)
      ensures Table() == Dynamic([], Min(maxTableBytes, TABLE_MAX))
    {
      max := if maxTableBytes > TABLE_MAX then TABLE_MAX else maxTableBytes;
      used, head, tail := 0, 0, 0;
      e := new Field[0];
    }

    /** Drops the oldest entry; an emptied deque restarts at the front of the array. */
    method Evict()
      requires Shape() && head < tail
      modifies this`head, this`tail, this`used
      ensures Shape()
      ensures Live() == old(Live())[1..]
      ensures used == old(used) - old(Live())[0].Cost()
    {
      ghost var was := Live();
      assert was[0] == e[head] && was[1..] == e[head + 1..tail];
      used := used - e[head].Cost();
      head := head + 1;
      if head == tail {
        head, tail := 0, 0;
        assert Live() == was[1..] == [];
      }
    }

    method SetMax(newMax: nat)
      requires Valid() && newMax <= TABLE_MAX
      modifies this`head, this`tail, this`used, this`max
      ensures Valid()
      ensures Table() == old(Table()).Resize(newMax)
    {
      hide Size, Fit;
      max := newMax;
      ghost var goal := Fit(Live(), newMax);
      while used > max && head < tail
        invariant Shape() && max == newMax
        invariant Fit(Live(), newMax) == goal
        decreases tail - head
      {
        FitStep(Live(), newMax);
        Evict();
      }
      FitStep(Live(), newMax);
    }

    /** Makes e[tail] writable: moves the live entries to the front, else doubles the array. */
    method Reserve()
      requires Shape() && tail - head < 128
      modifies this`head, this`tail, this`e, e
      ensures Shape() && tail < e.Length
      ensures e == old(e) || fresh(e)
      ensures Live() == old(Live())
    {
      if tail < e.Length {
        return;
      }
      ghost var was := Live();
      if head > 0 {
        MoveDown(e, 0, head, tail - head);
        assert e[..][..tail - head] == was;
        head, tail := 0, tail - head;
        assert Live() == was;
        if tail < e.Length {
          return;
        }
      }
      Grow();
    }

    method Grow()
      requires Shape() && head == 0 && tail == e.Length < 128
      modifies this`e
      ensures Shape() && tail < e.Length && fresh(e)
      ensures Live() == old(Live())
    {
      var bigger := new Field[if e.Length == 0 then 16 else 2 * e.Length];
      Copy(e, bigger);
      assert bigger[0..tail] == e[0..tail];
      e := bigger;
    }

    method MakeRoom(f: Field)
      requires Valid()
      modifies this`head, this`tail, this`used
      ensures Valid() && (used + f.Cost() <= max || (Live() == [] && used == 0))
      ensures Fit(Live() + [f], max) == Fit(old(Live()) + [f], max)
    {
      assert Size([]) == 0;
      hide Size, Fit;
      while used + f.Cost() > max && head < tail
        invariant Valid()
        invariant Fit(Live() + [f], max) == Fit(old(Live()) + [f], max)
        decreases tail - head
      {
        FitAddStep(Live(), f, max);
        Evict();
      }
      assert head == tail ==> Live() == [];
    }

    method Push(f: Field)
      requires Shape() && tail < e.Length
      modifies this`tail, this`used, e
      ensures Shape() && used == old(used) + f.Cost()
      ensures Live() == old(Live()) + [f]
    {
      hide Size;
      SizeAppend(Live(), f);
      ghost var was := Live();
      e[tail] := f;
      tail := tail + 1;
      assert Live() == was + [f];
      used := used + f.Cost();
    }

    /** Inserts the newest entry, after making room; an oversized one empties the table. */
    method Add(f: Field)
      requires Valid()
      modifies this, e
      ensures Valid() && (e == old(e) || fresh(e))
      ensures Table() == old(Table()).Add(f)
    {
      hide Size, Fit;
      MakeRoom(f);
      FitAddStep(Live(), f, max);
      if f.Cost() > max {
        return;
      }
      SizeBoundsLength(Live());
      Reserve();
      Push(f);
    }

    method Resolve(i: nat) returns (r: Option<Field>)
      requires Shape()
      ensures r == Table().Lookup(i)
    {
      if i == 0 {
        return None;
      }
      if i <= STATIC_N {
        return Some(StaticField(i));
      }
      var back := i - STATIC_N - 1;
      if back >= tail - head {
        return None;
      }
      assert Live()[|Live()| - (i - STATIC_N)] == e[tail - 1 - back];
      r := Some(e[tail - 1 - back]);
    }

    /** A name reference or literal name, then a literal value; `pos` is where it starts. */
    method Literal(block: Octets, pos: nat, bits: nat, maxOut: nat) returns (r: LineResult)
      requires Shape() && pos < |block| && (bits == 4 || bits == 6)
      ensures r == ReadLiteral(block[pos..], Table(), bits, maxOut)
    {
      hide PrefixInt.Decode, HpackBlock.ReadText, StaticField, Dynamic.Lookup;
      var p := block[pos..];
      var n := PrefixInt.DecodeInt(p, bits);
      if n.IntErr? {
        return LineErr;
      }
      var at, name := n.used, [];
      if n.value == 0 {
        var t := StringLiteral(p, at, maxOut);
        if t.TextErr? {
          return LineErr;
        }
        name := t.text;
        at := at + t.used;
      } else {
        var f := Resolve(n.value);
        if f.None? {
          return LineErr;
        }
        name := f.value.name;
      }
      var v := StringLiteral(p, at, maxOut);
      r := if v.TextErr? then LineErr else Emit(Field(name, v.text), bits == 6, at + v.used);
    }

    method Line(block: Octets, pos: nat, seenField: bool, maxOut: nat) returns (r: LineResult)
      requires Shape() && pos < |block|
      ensures r == ReadLine(block[pos..], Table(), seenField, maxOut)
    {
      hide PrefixInt.Decode, HpackBlock.ReadLiteral, StaticField, Dynamic.Lookup;
      var p := block[pos..];
      var b := block[pos];
      if b >= 0x80 {
        var n := PrefixInt.DecodeInt(p, 7);
        if n.IntErr? {
          return LineErr;
        }
        var f := Resolve(n.value);
        r := if f.None? then LineErr else Emit(f.value, false, n.used);
      } else if b >= 0x40 {
        r := Literal(block, pos, 6, maxOut);
      } else if b >= 0x20 {
        if seenField {
          return LineErr;
        }
        var n := PrefixInt.DecodeInt(p, 5);
        r := if n.IntErr? || n.value > TABLE_MAX then LineErr else Update(n.value, n.used);
      } else {
        r := Literal(block, pos, 4, maxOut);
      }
    }

    /**
      Decodes one complete header block. The fields handed to the callback are emitted before
      the table changes, so a field may reuse the entry that its own addition evicts.
     */
    method Decode(block: Octets, maxOut: nat, sink: Sink) returns (outcome: Outcome, fields: seq<Field>)
      requires Valid()
      modifies this, e
      ensures Valid() && (e == old(e) || fresh(e))
      ensures BlockResult(outcome, fields, Table()) == DecodeBlock(block, old(Table()), maxOut, sink)
    {
      hide ReadLine, Dynamic.Add, Dynamic.Resize;
      var pos: nat, decoded: nat, seenField := 0, 0, false;
      fields := [];
      ghost var goal := DecodeBlock(block, Table(), maxOut, sink);
      assert block[0..] == block;
      while pos < |block|
        invariant 0 <= pos <= |block| && decoded <= maxOut
        invariant Valid() && (e == old(e) || fresh(e))
        invariant goal == DecodeFrom(block[pos..], Table(), fields, decoded, seenField, maxOut, sink)
      {
        var line := Line(block, pos, seenField, maxOut);
        match line
        case LineErr =>
          return Malformed, fields;
        case Update(n, used) =>
          assert block[pos..][used..] == block[pos + used..];
          pos := pos + used;
          SetMax(n);
        case Emit(f, add, used) =>
          assert block[pos..][used..] == block[pos + used..];
          pos := pos + used;
          seenField := true;
          if |f.name| > maxOut - decoded || |f.value| > maxOut - decoded - |f.name| {
            return Malformed, fields;
          }
          decoded := decoded + |f.name| + |f.value|;
          fields := fields + [f];
          var code := sink(fields);
          if code != 0 {
            return Stopped(code), fields;
          }
          if add {
            Add(f);
          }
      }
      outcome := Complete;
    }
  }

  /** A connection's header blocks, one after the other, through one decoder. */
  method DecodeBlocks(d: Decoder, blocks: seq<Octets>, maxOut: nat,
                      sink: Sink) returns (results: seq<(Outcome, seq<Field>)>)
    requires d.Valid()
    modifies d, d.e
    ensures d.Valid() && |results| == |blocks|
    ensures var want := HpackBlock.DecodeStream(blocks, old(d.Table()), maxOut, sink);
            && |want| == |blocks|
            && (forall k | 0 <= k < |blocks| :: results[k] == (want[k].outcome, want[k].fields))
            && d.Table() == if blocks == [] then old(d.Table()) else want[|want| - 1].table
  {
    hide DecodeBlock, HpackBlock.DecodeStream, Decoder.Shape, Decoder.Table;
    results := [];
    ghost var want := HpackBlock.DecodeStream(blocks, d.Table(), maxOut, sink);
    ghost var done: seq<BlockResult> := [];
    assert blocks[0..] == blocks;
    for k := 0 to |blocks|
      invariant d.Valid() && (d.e == old(d.e) || fresh(d.e)) && |results| == |done| == k
      invariant want == done + HpackBlock.DecodeStream(blocks[k..], d.Table(), maxOut, sink)
      invariant forall j | 0 <= j < k :: results[j] == (done[j].outcome, done[j].fields)
      invariant d.Table() == if k == 0 then old(d.Table()) else done[k - 1].table
    {
      StreamTurn(blocks, k, d.Table(), maxOut, sink);
      ghost var r := DecodeBlock(blocks[k], d.Table(), maxOut, sink);
      var outcome, fields := d.Decode(blocks[k], maxOut, sink);
      AppendOne(done, r, HpackBlock.DecodeStream(blocks[k + 1..], r.table, maxOut, sink));
      results := results + [(outcome, fields)];
      done := done + [r];
    }
    StreamTurn(blocks, |blocks|, d.Table(), maxOut, sink);
    assert done + [] == done;
  }

  /**
    Synchronisation of the deque: through any number of blocks of a conforming encoder the decoder
    returns the fields the encoder meant, and its array ends as the encoder's table.
   */
  method DecodeConforming(d: Decoder, wires: seq<Octets>, maxOut: nat, sink: Sink,
                          ghost blocks: seq<seq<HpackBlock.Line>>, ghost meant: seq<HpackBlock.Meant>)
    returns (results: seq<(Outcome, seq<Field>)>)
    requires d.Valid() && HpackBlock.AcceptsAll(sink) && wires == HpackBlock.StreamWires(blocks)
    requires HpackBlock.StreamMeaning(blocks, d.Table()) == Some(meant)
    requires forall m | m in meant :: HpackBlock.ListSize(m.fields) <= maxOut
    modifies d, d.e
    ensures d.Valid() && |results| == |meant| == |blocks|
    ensures forall k | 0 <= k < |meant| :: results[k] == (Complete, meant[k].fields)
    ensures d.Table() == if meant == [] then old(d.Table()) else meant[|meant| - 1].table
  {
    HpackBlock.StreamSync(blocks, d.Table(), maxOut, sink, meant);
    hide HpackBlock.DecodeStream, HpackBlock.StreamMeaning, HpackBlock.StreamWires, Decoder.Shape, Decoder.Table;
    results := DecodeBlocks(d, wires, maxOut, sink);
  }

  lemma AppendOne(done: seq<BlockResult>, r: BlockResult, rest: seq<BlockResult>)
    ensures done + ([r] + rest) == done + [r] + rest
  {
  }

  /** The next block of a series. */
  lemma StreamTurn(blocks: seq<Octets>, k: nat, t: Dynamic, maxOut: nat, sink: Sink)
    requires k <= |blocks|
    ensures HpackBlock.DecodeStream(blocks[k..], t, maxOut, sink) ==
            if k == |blocks| then []
            else
              var r := DecodeBlock(blocks[k], t, maxOut, sink);
              [r] + HpackBlock.DecodeStream(blocks[k + 1..], r.table, maxOut, sink)
  {
    hide DecodeBlock;
    if k < |blocks| {
      assert blocks[k..][1..] == blocks[k + 1..];
    }
  }

  method CodedText(s: Octets, maxOut: nat) returns (d: Huffman.Decoded)
    ensures d == HuffmanDecode(s, maxOut)
  {
    hide Huffman.Decode;
    HuffmanTable.TableIsComplete();
    d := Huffman.DecodeString(HuffmanTable.RFC7541, s, maxOut);
  }

  /** A string literal of `block` at `pos`, raw or Huffman-coded. */
  method StringLiteral(block: Octets, pos: nat, maxOut: nat) returns (r: TextResult)
    requires pos <= |block|
    ensures r == HpackBlock.ReadText(block[pos..], maxOut)
  {
    hide PrefixInt.Decode, HuffmanDecode;
    if pos >= |block| {
      return TextErr;
    }
    var p := block[pos..];
    var huff := block[pos] >= 0x80;
    var n := PrefixInt.DecodeInt(p, 7);
    if n.IntErr? || n.value > |p| - n.used {
      return TextErr;
    }
    var s := p[n.used..n.used + n.value];
    if huff {
      var d := CodedText(s, maxOut);
      r := if d.Bad? then TextErr else TextOk(d.text, n.used + n.value);
    } else {
      r := if n.value > maxOut then TextErr else TextOk(s, n.used + n.value);
    }
  }
}
