/** Octets, octet strings and the small notions that the wire formats share. */
module Bytes {

  type Byte = b: int | 0 <= b < 256

  type Octets = seq<Byte>

  datatype Option<+T> = None | Some(value: T)

  /** The octets of an ASCII literal. */
  function Ascii(s: string): (r: Octets)
    ensures |r| == |s|
  {
    if s == "" then [] else [s[0] as int % 256] + Ascii(s[1..])
  }

  function Min(a: int, b: int): (m: int)
    ensures m <= a && m <= b && (m == a || m == b)
  {
    if a < b then a else b
  }

  function Pow2(n: nat): (p: nat)
    ensures p >= 1
  {
    if n == 0 then 1 else 2 * Pow2(n - 1)
  }

  /** Halving first makes no difference to a quotient. */
  lemma HalveFirst(v: nat, w: nat)
    requires w > 0
    ensures v / 2 / w == v / (2 * w)
  {
    var q := v / 2 / w;
    var r := v / 2 % w;
    assert v / 2 == q * w + r && v == 2 * (v / 2) + v % 2;
    assert v == q * (2 * w) + (2 * r + v % 2) && 2 * r + v % 2 < 2 * w;
    Quotient(v, q, 2 * w, 2 * r + v % 2);
  }

  lemma Quotient(v: nat, q: nat, m: nat, r: nat)
    requires v == q * m + r && r < m
    ensures v / m == q
  {
    var d := v / m - q;
    assert m * d == r - v % m;
    assert d > 0 ==> m * d >= m;
    assert d < 0 ==> m * d <= 0 - m;
  }

  /** The value of a hexadecimal digit, or -1. */
  function HexValue(b: Byte): (r: int)
    ensures -1 <= r < 16
  {
    if 48 <= b <= 57 then b - 48 else if 97 <= b <= 102 then b - 87 else if 65 <= b <= 70 then b - 55 else -1
  }

  /** A number in `k` octets, most significant first. */
  function Be(n: nat, k: nat): (r: Octets)
    ensures |r| == k
  {
    if k == 0 then [] else Be(n / 256, k - 1) + [n % 256]
  }

  // ------------------------------------------------------------ input in pieces

  function Concat(pieces: seq<Octets>): Octets {
    if pieces == [] then [] else pieces[0] + Concat(pieces[1..])
  }

  lemma {:induction false} ConcatSnoc(pieces: seq<Octets>, last: Octets)
    ensures Concat(pieces + [last]) == Concat(pieces) + last
  {
    if pieces == [] {
      assert (pieces + [last])[1..] == [];
    } else {
      assert (pieces + [last])[1..] == pieces[1..] + [last];
      ConcatSnoc(pieces[1..], last);
    }
  }

  // ------------------------------------------------------------ moving within an array

  /** Copies a stretch of an array towards its front; the two may overlap. */
  method MoveDown<T>(a: array<T>, to: nat, from: nat, n: nat)
    requires to <= from && from + n <= a.Length
    modifies a
    ensures a[..] == old(a[..])[..to] + old(a[..])[from..from + n] + old(a[..])[to + n..]
  {
    ghost var s := a[..];
    for k := 0 to n
      invariant forall j | 0 <= j < to :: a[j] == s[j]
      invariant forall j | to <= j < to + k :: a[j] == s[from - to + j]
      invariant forall j | to + k <= j < a.Length :: a[j] == s[j]
    {
      a[to + k] := a[from + k];
    }
    var r := s[..to] + s[from..from + n] + s[to + n..];
    forall j | 0 <= j < a.Length
      ensures a[j] == r[j]
    {
    }
    assert a[..] == r;
  }
}
