/**
  The index space of section 2.3 of RFC 7541: the static table of Appendix A and the dynamic
  table, here a sequence with the oldest entry first.
 */
module HpackTable {
  import opened Bytes

  /** SETTINGS_HEADER_TABLE_SIZE, the largest table a peer may ask for. */
  const TABLE_MAX: nat := 4096

  const STATIC_N: nat := 61

  datatype Field = Field(name: Octets, value: Octets) {
    function Cost(): nat { |name| + |value| + 32 }
  }

  /** Entries 1 to 61 of Appendix A of RFC 7541. */
  function StaticEntry(i: nat): (string, string) {
    if i < 11 then StaticEntry1(i)
    else if i < 21 then StaticEntry11(i)
    else if i < 31 then StaticEntry21(i)
    else if i < 41 then StaticEntry31(i)
    else if i < 51 then StaticEntry41(i)
    else if i < 61 then StaticEntry51(i)
    else StaticEntry61(i)
  }

  function StaticEntry1(i: nat): (string, string) {
    match i
    case 1 => (":authority", "") case 2 => (":method", "GET") case 3 => (":method", "POST")
    case 4 => (":path", "/") case 5 => (":path", "/index.html") case 6 => (":scheme", "http")
    case 7 => (":scheme", "https") case 8 => (":status", "200") case 9 => (":status", "204")
    case _ => (":status", "206")
  }

  function StaticEntry11(i: nat): (string, string) {
    match i
    case 11 => (":status", "304") case 12 => (":status", "400") case 13 => (":status", "404")
    case 14 => (":status", "500") case 15 => ("accept-charset", "")
    case 16 => ("accept-encoding", "gzip, deflate") case 17 => ("accept-language", "")
    case 18 => ("accept-ranges", "") case 19 => ("accept", "") case _ => ("access-control-allow-origin", "")
  }

  function StaticEntry21(i: nat): (string, string) {
    match i
    case 21 => ("age", "") case 22 => ("allow", "") case 23 => ("authorization", "")
    case 24 => ("cache-control", "") case 25 => ("content-disposition", "") case 26 => ("content-encoding", "")
    case 27 => ("content-language", "") case 28 => ("content-length", "") case 29 => ("content-location", "")
    case _ => ("content-range", "")
  }

  function StaticEntry31(i: nat): (string, string) {
    match i
    case 31 => ("content-type", "") case 32 => ("cookie", "") case 33 => ("date", "") case 34 => ("etag", "")
    case 35 => ("expect", "") case 36 => ("expires", "") case 37 => ("from", "") case 38 => ("host", "")
    case 39 => ("if-match", "") case _ => ("if-modified-since", "")
  }

  function StaticEntry41(i: nat): (string, string) {
    match i
    case 41 => ("if-none-match", "") case 42 => ("if-range", "") case 43 => ("if-unmodified-since", "")
    case 44 => ("last-modified", "") case 45 => ("link", "") case 46 => ("location", "")
    case 47 => ("max-forwards", "") case 48 => ("proxy-authenticate", "") case 49 => ("proxy-authorization", "")
    case _ => ("range", "")
  }

  function StaticEntry51(i: nat): (string, string) {
    match i
    case 51 => ("referer", "") case 52 => ("refresh", "") case 53 => ("retry-after", "")
    case 54 => ("server", "") case 55 => ("set-cookie", "") case 56 => ("strict-transport-security", "")
    case 57 => ("transfer-encoding", "") case 58 => ("user-agent", "") case 59 => ("vary", "")
    case _ => ("via", "")
  }

  function StaticEntry61(i: nat): (string, string) {
    match i
    case _ => ("www-authenticate", "")
  }

  function StaticField(i: nat): Field {
    Field(Ascii(StaticEntry(i).0), Ascii(StaticEntry(i).1))
  }

  // ------------------------------------------------------------ the dynamic table

  function Size(t: seq<Field>): nat {
    if t == [] then 0 else t[0].Cost() + Size(t[1..])
  }

  /** The longest run of newest entries whose accounted size is within `max`. */
  function Fit(t: seq<Field>, max: nat): (r: seq<Field>)
    ensures Size(r) <= max
  {
    if Size(t) <= max then t else Fit(t[1..], max)
  }

  lemma {:induction false} FitIsSuffix(t: seq<Field>, max: nat)
    ensures |Fit(t, max)| <= |t| && Fit(t, max) == t[|t| - |Fit(t, max)|..]
  {
    if Size(t) > max {
      FitIsSuffix(t[1..], max);
    }
  }

  lemma {:induction false} FitIsLongest(t: seq<Field>, max: nat, k: nat)
    requires k <= |t| && Size(t[k..]) <= max
    ensures |Fit(t, max)| >= |t| - k
  {
    assert t[0..] == t;
    if k > 0 && max < Size(t) {
      assert t[1..][k - 1..] == t[k..];
      FitIsLongest(t[1..], max, k - 1);
    }
  }

  lemma {:induction false} SizeAppend(t: seq<Field>, f: Field)
    ensures Size(t + [f]) == Size(t) + f.Cost()
  {
    if t == [] {
      assert t + [f] == [f];
    } else {
      assert (t + [f])[1..] == t[1..] + [f];
      SizeAppend(t[1..], f);
    }
  }

  /** Evicting the oldest entry of a table that is too large changes nothing in the end. */
  lemma FitStep(t: seq<Field>, max: nat)
    ensures Size(t) <= max ==> Fit(t, max) == t
    ensures Size(t) > max ==> t != [] && Fit(t, max) == Fit(t[1..], max)
  {
  }

  /** The same when room is made before the new entry goes in. */
  lemma FitAddStep(t: seq<Field>, f: Field, max: nat)
    ensures Size(t) + f.Cost() <= max ==> Fit(t + [f], max) == t + [f]
    ensures Size(t) + f.Cost() > max && t != [] ==> Fit(t + [f], max) == Fit(t[1..] + [f], max)
    ensures f.Cost() > max && t == [] ==> Fit(t + [f], max) == []
  {
    SizeAppend(t, f);
    FitStep(t + [f], max);
    if t == [] {
      assert (t + [f])[1..] == [];
      FitStep([], max);
    } else {
      assert (t + [f])[1..] == t[1..] + [f];
    }
  }

  lemma {:induction false} SizeBoundsLength(t: seq<Field>)
    ensures 32 * |t| <= Size(t)
  {
    if t != [] {
      SizeBoundsLength(t[1..]);
    }
  }

  /** Dynamic table of one side of a connection. */
  datatype Dynamic = Dynamic(entries: seq<Field>, max: nat) {

    ghost predicate Valid() {
      Size(entries) <= max <= TABLE_MAX
    }

    /** Section 4.4: a new entry pushes out the oldest ones, or everything if it is too large. */
    function Add(f: Field): Dynamic {
      Dynamic(Fit(entries + [f], max), max)
    }

    /** Section 4.3. */
    function Resize(newMax: nat): Dynamic {
      Dynamic(Fit(entries, newMax), newMax)
    }

    /** Section 2.3.3: static entries first, then dynamic entries from the newest. */
    function Lookup(i: nat): Option<Field> {
      if i == 0 then None
      else if i <= STATIC_N then Some(StaticField(i))
      else if i - STATIC_N <= |entries| then Some(entries[|entries| - (i - STATIC_N)])
      else None
    }
  }

  /** The table when a connection starts. */
  const EMPTY: Dynamic := Dynamic([], TABLE_MAX)

  /** Entry counts and sizes after any addition or size update. */
  lemma TableBound(d: Dynamic, f: Field, newMax: nat)
    requires d.Valid() && newMax <= TABLE_MAX
    ensures d.Add(f).Valid() && d.Resize(newMax).Valid()
    ensures |d.Add(f).entries| <= 128 && |d.Resize(newMax).entries| <= 128
    ensures d.max < f.Cost() ==> d.Add(f).entries == []
    ensures f.Cost() <= d.max ==> d.Add(f).Lookup(STATIC_N + 1) == Some(f)
  {
    SizeBoundsLength(d.Add(f).entries);
    SizeBoundsLength(d.Resize(newMax).entries);
    var kept := d.Add(f).entries;
    var all := d.entries + [f];
    FitIsSuffix(all, d.max);
    if kept != [] {
      assert kept[|kept| - 1] == f;
      assert kept == kept[..|kept| - 1] + [f];
      SizeAppend(kept[..|kept| - 1], f);
    } else {
      assert all[|d.entries|..] == [f];
      assert Size([f]) == f.Cost() + Size([f][1..]);
      if f.Cost() <= d.max {
        FitIsLongest(all, d.max, |d.entries|);
      }
    }
  }

  // ------------------------------------------------------------ which entry an index names

  /** What either side does to the table. */
  datatype Change = Enter(field: Field) | SetSize(newMax: nat)

  function Changed(d: Dynamic, change: Change): Dynamic {
    match change
    case Enter(f) => d.Add(f)
    case SetSize(n) => d.Resize(n)
  }

  /** The table after a series of changes from the start of a connection. */
  function TableAfterChanges(changes: seq<Change>): Dynamic {
    if changes == [] then EMPTY else Changed(TableAfterChanges(changes[..|changes| - 1]), changes[|changes| - 1])
  }

  /** Every field that was ever entered, newest first. */
  function Newest(changes: seq<Change>): seq<Field> {
    if changes == [] then []
    else
      var last := changes[|changes| - 1];
      (if last.Enter? then [last.field] else []) + Newest(changes[..|changes| - 1])
  }

  /** Counted from the newest, the entries are the fields entered last. */
  ghost predicate Fifo(entries: seq<Field>, newest: seq<Field>) {
    && |entries| <= |newest|
    && forall k | 0 <= k < |entries| :: entries[|entries| - 1 - k] == newest[k]
  }

  lemma FifoFit(entries: seq<Field>, newest: seq<Field>, max: nat)
    requires Fifo(entries, newest)
    ensures Fifo(Fit(entries, max), newest)
  {
    FitIsSuffix(entries, max);
    var kept := Fit(entries, max);
    hide Fit;
    forall k | 0 <= k < |kept|
      ensures kept[|kept| - 1 - k] == newest[k]
    {
      assert kept[|kept| - 1 - k] == entries[|entries| - 1 - k];
    }
  }

  lemma {:induction false} TableIsFifo(changes: seq<Change>)
    ensures Fifo(TableAfterChanges(changes).entries, Newest(changes))
  {
    hide Fit;
    if changes != [] {
      var init, last := changes[..|changes| - 1], changes[|changes| - 1];
      var entries, newest := TableAfterChanges(init).entries, Newest(init);
      TableIsFifo(init);
      match last
      case Enter(f) =>
        var all := entries + [f];
        assert Fifo(all, [f] + newest) by {
          forall k | 0 <= k < |all|
            ensures all[|all| - 1 - k] == ([f] + newest)[k]
          {
            if k > 0 {
              assert all[|all| - 1 - k] == entries[|entries| - 1 - (k - 1)];
            }
          }
        }
        FifoFit(all, [f] + newest, TableAfterChanges(init).max);
      case SetSize(n) =>
        assert [] + newest == newest;
        FifoFit(entries, newest, n);
    }
  }

  /**
    Section 2.3.3: after any series of additions and size updates index 62 + k names the field entered
    (k + 1)-th last, for as long as it lives, the static entries stand before it, and no other index
    names anything.
   */
  lemma IndexNames(changes: seq<Change>, i: nat)
    ensures var d := TableAfterChanges(changes);
            && |d.entries| <= |Newest(changes)|
            && d.Lookup(i) ==
               if i == 0 then None
               else if i < 62 then Some(StaticField(i))
               else if i - 62 < |d.entries| then Some(Newest(changes)[i - 62])
               else None
  {
    hide StaticField, Newest, TableAfterChanges;
    TableIsFifo(changes);
  }

  /** A new entry takes index 62 and moves the others up by one; a size update moves none. */
  lemma IndexMoves(d: Dynamic, f: Field, newMax: nat, k: nat)
    ensures k + 1 < |d.Add(f).entries| ==> d.Add(f).Lookup(63 + k) == d.Lookup(62 + k)
    ensures d.Add(f).entries != [] ==> d.Add(f).Lookup(62) == Some(f)
    ensures k < |d.Resize(newMax).entries| ==> d.Resize(newMax).Lookup(62 + k) == d.Lookup(62 + k)
  {
    FitIsSuffix(d.entries + [f], d.max);
    FitIsSuffix(d.entries, newMax);
    hide Fit, StaticField;
  }
}
