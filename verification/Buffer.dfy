/** The growable byte buffer of src/http_util.c: append at the end, consume from the front. */
module Buffer {
  import opened Bytes

  const SIZE_MAX: nat := 0xffff_ffff_ffff_ffff
  const FIRST_CAPACITY: nat := 256
  const COMPACT_AT: nat := 4096

  /** The next capacity that holds `need` octets, doubling from the present one. */
  method Grown(cap: nat, need: nat) returns (r: nat)
    requires need <= SIZE_MAX
    ensures r >= need && r >= Min(cap, SIZE_MAX) && (cap <= SIZE_MAX ==> r <= SIZE_MAX)
  {
    r := if cap > 0 then cap else FIRST_CAPACITY;
    while r < need
      invariant r >= cap && r > 0 && (cap <= SIZE_MAX ==> r <= SIZE_MAX)
      decreases need - r
    {
      if r > SIZE_MAX / 2 {
        return need;
      }
      r := 2 * r;
    }
  }

  class Buf {
    var data: array<Byte>
    var off: nat
    var len: nat

    ghost predicate Valid()
      reads this, data
    {
      off <= len <= data.Length <= SIZE_MAX
    }

    ghost function Contents(): (s: Octets)
      reads this, data
      requires Valid()
    {
      data[off..len]
    }

    /** The dead prefix is short, or shorter than what is live. */
    ghost predicate Compact()
      reads this
    {
      off <= len && (off < COMPACT_AT || off < len - off)
    }

    constructor ()
      ensures Valid() && Contents() == [] && Compact() && fresh(data)
    {
      data := new Byte[0](_ => 0);
      off, len := 0, 0;
    }

    /** Room for `extra` more octets; fails when the size would overflow. */
    method Reserve(extra: nat) returns (ok: bool)
      requires Valid()
      modifies this`data
      ensures Valid() && Contents() == old(Contents()) && (data == old(data) || fresh(data))
      ensures ok == (extra <= SIZE_MAX - len) && (ok ==> len + extra <= data.Length)
    {
      if extra > SIZE_MAX - len {
        return false;
      }
      if len + extra > data.Length {
        var cap := Grown(data.Length, len + extra);
        var grown := new Byte[cap](_ => 0);
        for i := 0 to len
          invariant Valid() && data == old(data) && grown[..i] == data[..i]
        {
          grown[i] := data[i];
        }
        ghost var was := data[off..len];
        assert was == old(Contents());
        assert grown[off..len] == grown[..len][off..] == data[..len][off..] == was;
        data := grown;
        assert data[off..len] == was;
      }
      return true;
    }

    method Append(src: Octets) returns (ok: bool)
      requires Valid()
      modifies this, data
      ensures Valid() && (data == old(data) || fresh(data)) && off == old(off)
      ensures ok == (|src| == 0 || |src| <= SIZE_MAX - old(len))
      ensures Contents() == if ok then old(Contents()) + src else old(Contents())
    {
      if |src| == 0 {
        return true;
      }
      ok := Reserve(|src|);
      if ok {
        for i := 0 to |src|
          invariant Valid() && len + |src| <= data.Length
          invariant (data == old(data) || fresh(data)) && off == old(off) && len == old(len)
          invariant data[off..len] == old(Contents())
          invariant data[len..len + i] == src[..i]
        {
          data[len + i] := src[i];
        }
        assert data[off..len + |src|] == data[off..len] + data[len..len + |src|];
        len := len + |src|;
      }
    }

    /** Drops octets from the front; the rest moves down when the dead prefix dominates. */
    method Consume(n: nat)
      requires Valid()
      modifies this, data
      ensures Valid() && Compact() && data == old(data)
      ensures Contents() == old(Contents())[Min(n, old(len - off))..]
    {
      off := off + if n > len - off then len - off else n;
      ghost var rest := data[off..len];
      assert rest == old(Contents())[Min(n, old(len - off))..];
      if off == len {
        off, len := 0, 0;
      } else if off >= COMPACT_AT && off >= len - off {
        ghost var was := data[..];
        MoveDown(data, 0, off, len - off);
        assert rest == was[off..len] && data[..][..len - off] == rest;
        len := len - off;
        off := 0;
        assert data[0..len] == rest;
      }
    }

    method Clear()
      requires Valid()
      modifies this`off, this`len
      ensures Valid() && Contents() == [] && Compact()
    {
      off, len := 0, 0;
    }
  }
}
