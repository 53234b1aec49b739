/** Cursor arithmetic of the ring buffer (src/ring.c): absolute positions and their slots. */
module RingSlots {

  lemma {:induction false} AtLeast(cap: nat, k: nat)
    requires k > 0
    ensures cap * k >= cap
  {
  }

  /** Quotient and remainder are unique. */
  lemma ModIs(a: int, q: int, r: int, cap: nat)
    requires cap > 0 && 0 <= r < cap && a == cap * q + r
    ensures a % cap == r
  {
    var d, m := a / cap, a % cap;
    var k := d - q;
    assert cap * k == r - m by {
      assert cap * k == cap * d - cap * q;
    }
    if k > 0 {
      AtLeast(cap, k);
    } else if k < 0 {
      assert cap * (0 - k) == 0 - cap * k;
      AtLeast(cap, 0 - k);
    }
  }

  /** Adding before or after wrapping is the same. */
  lemma Wraps(p: int, n: int, cap: nat)
    requires cap > 0
    ensures (p % cap + n) % cap == (p + n) % cap
  {
    var s := p % cap + n;
    assert p == cap * (p / cap) + p % cap;
    assert s == cap * (s / cap) + s % cap;
    assert p + n == cap * (p / cap + s / cap) + s % cap;
    ModIs(p + n, p / cap + s / cap, s % cap, cap);
  }

  /** The slot of an absolute position. */
  function Place(p: nat, cap: nat): (s: nat)
    requires cap > 0
    ensures s < cap
  {
    p % cap
  }

  /** Two positions less than a lap apart share a slot only if they are equal. */
  lemma SlotUnique(p: nat, q: nat, cap: nat)
    requires cap > 0 && p <= q < p + cap && Place(p, cap) == Place(q, cap)
    ensures p == q
  {
    Wraps(p, q - p, cap);
    var r := p % cap;
    if q > p {
      if r + (q - p) < cap {
        ModIs(r + (q - p), 0, r + (q - p), cap);
      } else {
        ModIs(r + (q - p), 1, r + (q - p) - cap, cap);
      }
    }
  }

  lemma Advance(p: nat, n: nat, cap: nat)
    requires cap > 0
    ensures (Place(p, cap) + n) % cap == Place(p + n, cap)
  {
    Wraps(p, n, cap);
  }

  /** What `available_read` computes from two wrapped cursors. */
  lemma Filled(h: nat, t: nat, cap: nat)
    requires cap > 0 && t <= h < t + cap
    ensures (Place(h, cap) + cap - Place(t, cap)) % cap == h - t
  {
    Wraps(t, h - t, cap);
    var r := t % cap;
    var n := h - t;
    if r + n < cap {
      ModIs(r + n, 0, r + n, cap);
      ModIs(n + cap, 1, n, cap);
      assert h % cap == r + n;
    } else {
      ModIs(r + n, 1, r + n - cap, cap);
      ModIs(n, 0, n, cap);
      assert h % cap == r + n - cap;
    }
  }

  /** What `available_write` computes from two wrapped cursors. */
  lemma Free(h: nat, t: nat, cap: nat)
    requires cap > 0 && t <= h < t + cap
    ensures (cap - 1 + Place(t, cap) - Place(h, cap)) % cap == cap - 1 - (h - t)
  {
    Wraps(t, h - t, cap);
    var r := t % cap;
    var n := h - t;
    if r + n < cap {
      ModIs(r + n, 0, r + n, cap);
      ModIs(cap - 1 - n, 0, cap - 1 - n, cap);
      assert h % cap == r + n;
    } else {
      ModIs(r + n, 1, r + n - cap, cap);
      ModIs(cap - 1 - n + cap, 1, cap - 1 - n, cap);
      assert h % cap == r + n - cap;
    }
  }

  /** Slot of the k-th octet of a copy that starts at slot `at`: two stretches around the end. */
  function Slot(at: nat, k: nat, cap: nat): (s: nat)
    requires at < cap && k < cap
    ensures s < cap
  {
    if k < cap - at then at + k else k - (cap - at)
  }

  lemma SlotIs(p: nat, k: nat, cap: nat)
    requires cap > 0 && k < cap
    ensures Slot(Place(p, cap), k, cap) == Place(p + k, cap)
  {
    Wraps(p, k, cap);
    var r := p % cap;
    if k < cap - r {
      ModIs(r + k, 0, r + k, cap);
    } else {
      ModIs(r + k, 1, r + k - cap, cap);
    }
  }
}

/**
  One producer and one consumer on a shared ring, step by step. Each may see an old value of
  the other's cursor, as acquire loads allow, but never one older than it saw before. Copies
  touch one slot per step, in any order. `sent` and `received` are the octets whose cursor
  advance has been published.
 */
module RingProtocol {
  import opened Bytes
  import opened RingSlots

  datatype Side =
    | Ready(seen: nat)
    | Copying(seen: nat, chunk: nat, done: set<nat>)

  datatype State = State(
    cells: Octets,
    heads: seq<nat>, tails: seq<nat>,        // every value each cursor has had
    producer: Side, pending: Octets,         // rest of the octets handed to write
    consumer: Side, want: nat, buffer: Octets,  // rest of the room handed to read
    sent: Octets, received: Octets)

  datatype Step =
    | CallWrite(src: Octets)
    | LoadTail(index: nat)
    | CopyIn(k: nat)
    | PublishHead
    | GiveUpWrite
    | CallRead(n: nat)
    | LoadHead(index: nat)
    | CopyOut(k: nat)
    | PublishTail
    | GiveUpRead

  function Last(s: seq<nat>): nat
    requires s != []
  {
    s[|s| - 1]
  }

  ghost predicate Start(s: State) {
    && |s.cells| > 0 && s.heads == [0] && s.tails == [0]
    && s.producer == Ready(0) && s.pending == [] && s.consumer == Ready(0) && s.want == 0 && s.buffer == []
    && s.sent == [] && s.received == []
  }

  /** Cursors are slots and the sides have seen some value of them. */
  ghost predicate Typed(s: State) {
    && |s.cells| > 0 && s.heads != [] && s.tails != []
    && (forall i | 0 <= i < |s.heads| :: s.heads[i] < |s.cells|)
    && (forall i | 0 <= i < |s.tails| :: s.tails[i] < |s.cells|)
    && s.producer.seen < |s.tails| && s.consumer.seen < |s.heads|
    && (s.producer.Copying? ==>
          s.producer.chunk < |s.cells| && s.producer.chunk <= |s.pending| && Within(s.producer.done, s.producer.chunk))
    && (s.consumer.Copying? ==>
          && s.consumer.chunk < |s.cells| && s.consumer.chunk == |s.buffer| && s.consumer.chunk <= s.want
          && Within(s.consumer.done, s.consumer.chunk))
  }

  predicate Within(done: set<nat>, n: nat) {
    forall k | k in done :: k < n
  }

  /** Every octet of the chunk is copied. */
  ghost predicate All(done: set<nat>, n: nat) {
    forall k: nat | k < n :: k in done
  }

  ghost predicate Enabled(s: State, a: Step)
    requires Typed(s)
  {
    match a
    case CallWrite(_) => s.producer.Ready? && s.pending == []
    case LoadTail(j) => s.producer.Ready? && s.pending != [] && s.producer.seen <= j < |s.tails|
    case CopyIn(k) => s.producer.Copying? && k < s.producer.chunk
    case PublishHead => s.producer.Copying? && All(s.producer.done, s.producer.chunk)
    case GiveUpWrite => s.producer.Ready?
    case CallRead(_) => s.consumer.Ready? && s.want == 0
    case LoadHead(j) => s.consumer.Ready? && s.want > 0 && s.consumer.seen <= j < |s.heads|
    case CopyOut(k) => s.consumer.Copying? && k < s.consumer.chunk
    case PublishTail => s.consumer.Copying? && All(s.consumer.done, s.consumer.chunk)
    case GiveUpRead => s.consumer.Ready?
  }

  ghost function Take(s: State, a: Step): State
    requires Typed(s) && Enabled(s, a)
  {
    var cap := |s.cells|;
    var head, tail := Last(s.heads), Last(s.tails);
    match a
    case CallWrite(src) => s.(pending := src)
    case LoadTail(j) =>
      var avail := (cap - 1 + s.tails[j] - head) % cap;
      if avail == 0 then s.(producer := Ready(j))
      else s.(producer := Copying(j, if avail < |s.pending| then avail else |s.pending|, {}))
    case CopyIn(k) =>
      s.(cells := s.cells[Slot(head, k, cap) := s.pending[k]], producer := s.producer.(done := s.producer.done + {k}))
    case PublishHead =>
      s.(heads := s.heads + [(head + s.producer.chunk) % cap], producer := Ready(s.producer.seen),
         sent := s.sent + s.pending[..s.producer.chunk], pending := s.pending[s.producer.chunk..])
    case GiveUpWrite => s.(pending := [])
    case CallRead(n) => s.(want := n)
    case LoadHead(j) =>
      var avail := (s.heads[j] + cap - tail) % cap;
      if avail == 0 then s.(consumer := Ready(j))
      else
        var chunk := if avail < s.want then avail else s.want;
        s.(consumer := Copying(j, chunk, {}), buffer := seq(chunk, _ => 0))
    case CopyOut(k) =>
      s.(buffer := s.buffer[k := s.cells[Slot(tail, k, cap)]], consumer := s.consumer.(done := s.consumer.done + {k}))
    case PublishTail =>
      s.(tails := s.tails + [(tail + s.consumer.chunk) % cap], consumer := Ready(s.consumer.seen),
         received := s.received + s.buffer, buffer := [], want := s.want - s.consumer.chunk)
    case GiveUpRead => s.(want := 0)
  }

  /** States of a run: each follows from the one before by an enabled step. */
  ghost predicate Follows(s: State, a: Step, s': State) {
    Typed(s) && Enabled(s, a) && s' == Take(s, a)
  }

  ghost predicate IsRun(states: seq<State>, steps: seq<Step>) {
    && |states| == |steps| + 1 && Start(states[0])
    && forall i | 0 <= i < |steps| :: Follows(states[i], steps[i], states[i + 1])
  }

  // ------------------------------------------------------------ what every run keeps

  /** Absolute positions `at` behind a cursor's values: they never decrease and wrap to the values. */
  ghost predicate Positions(values: seq<nat>, at: seq<nat>, cap: nat) {
    && cap > 0 && |at| == |values| > 0
    && (forall i | 0 <= i < |at| :: values[i] == Place(at[i], cap))
    && (forall i, j | 0 <= i <= j < |at| :: at[i] <= at[j])
  }

  /** Octets of the ring as the consumer will find them. */
  ghost predicate Holds(cells: Octets, sent: Octets, from: nat)
    requires |cells| > 0
  {
    forall p | from <= p < |sent| :: cells[Place(p, |cells|)] == sent[p]
  }

  ghost predicate CopiedIn(s: State)
    requires |s.cells| > 0
  {
    s.producer.Copying? ==>
      forall k | k in s.producer.done :: k < |s.pending| && s.cells[Place(|s.sent| + k, |s.cells|)] == s.pending[k]
  }

  ghost predicate CopiedOut(s: State) {
    s.consumer.Copying? ==>
      forall k | k in s.consumer.done ::
        k < |s.buffer| && |s.received| + k < |s.sent| && s.buffer[k] == s.sent[|s.received| + k]
  }

  function InHand(side: Side): nat {
    if side.Copying? then side.chunk else 0
  }

  /** The producer's chunk fits in the room left by the tail it saw; likewise for the consumer. */
  ghost predicate Bounds(s: State, hs: seq<nat>, ts: seq<nat>)
    requires s.producer.seen < |ts| && s.consumer.seen < |hs|
  {
    && |s.received| <= |s.sent| < |s.received| + |s.cells|
    && |s.sent| + InHand(s.producer) < ts[s.producer.seen] + |s.cells|
    && |s.received| + InHand(s.consumer) <= hs[s.consumer.seen]
  }

  ghost predicate Inv(s: State, hs: seq<nat>, ts: seq<nat>) {
    && Typed(s)
    && Positions(s.heads, hs, |s.cells|) && Positions(s.tails, ts, |s.cells|)
    && Last(hs) == |s.sent| && Last(ts) == |s.received|
    && Bounds(s, hs, ts)
    && s.received == s.sent[..|s.received|]
    && Holds(s.cells, s.sent, |s.received|)
    && CopiedIn(s) && CopiedOut(s)
  }

  ghost predicate Sound(s: State) {
    exists hs: seq<nat>, ts: seq<nat> :: Inv(s, hs, ts)
  }

  lemma SeenRoom(s: State, hs: seq<nat>, ts: seq<nat>, j: nat)
    requires Inv(s, hs, ts) && s.producer.seen <= j < |s.tails|
    ensures ts[j] <= |s.sent| < ts[j] + |s.cells|
    ensures (|s.cells| - 1 + s.tails[j] - Last(s.heads)) % |s.cells| == |s.cells| - 1 - (|s.sent| - ts[j])
  {
    hide Place;
    assert ts[j] <= Last(ts);
    Free(|s.sent|, ts[j], |s.cells|);
  }

  lemma SeenFill(s: State, hs: seq<nat>, ts: seq<nat>, j: nat)
    requires Inv(s, hs, ts) && s.consumer.seen <= j < |s.heads|
    ensures |s.received| <= hs[j] <= |s.sent|
    ensures (s.heads[j] + |s.cells| - Last(s.tails)) % |s.cells| == hs[j] - |s.received|
  {
    hide Place;
    assert hs[j] <= Last(hs);
    Filled(hs[j], |s.received|, |s.cells|);
  }

  lemma LoadTailKeeps(s: State, hs: seq<nat>, ts: seq<nat>, j: nat)
    requires Inv(s, hs, ts) && Enabled(s, LoadTail(j))
    ensures Inv(Take(s, LoadTail(j)), hs, ts)
  {
    hide Place;
    SeenRoom(s, hs, ts, j);
  }

  lemma LoadHeadKeeps(s: State, hs: seq<nat>, ts: seq<nat>, j: nat)
    requires Inv(s, hs, ts) && Enabled(s, LoadHead(j))
    ensures Inv(Take(s, LoadHead(j)), hs, ts)
  {
    hide Place;
    SeenFill(s, hs, ts, j);
  }

  /** The slots being written are not among those that hold octets to be read. */
  lemma CopyInKeeps(s: State, hs: seq<nat>, ts: seq<nat>, k: nat)
    requires Inv(s, hs, ts) && Enabled(s, CopyIn(k))
    ensures Inv(Take(s, CopyIn(k)), hs, ts)
  {
    hide Place;
    var d, cap := Take(s, CopyIn(k)), |s.cells|;
    var at := |s.sent| + k;
    assert ts[s.producer.seen] <= Last(ts);
    SlotIs(|s.sent|, k, cap);
    forall p | |s.received| <= p < |s.sent|
      ensures d.cells[Place(p, cap)] == s.sent[p]
    {
      if Place(p, cap) == Place(at, cap) {
        SlotUnique(p, at, cap);
      }
    }
    forall i | i in d.producer.done
      ensures i < |d.pending| && d.cells[Place(|s.sent| + i, cap)] == d.pending[i]
    {
      if i != k && Place(|s.sent| + i, cap) == Place(at, cap) {
        if i < k {
          SlotUnique(|s.sent| + i, at, cap);
        } else {
          SlotUnique(at, |s.sent| + i, cap);
        }
      }
    }
  }

  lemma CopyOutKeeps(s: State, hs: seq<nat>, ts: seq<nat>, k: nat)
    requires Inv(s, hs, ts) && Enabled(s, CopyOut(k))
    ensures Inv(Take(s, CopyOut(k)), hs, ts)
    ensures Take(s, CopyOut(k)).buffer[k] == s.sent[|s.received| + k]
  {
    hide Place;
    assert hs[s.consumer.seen] <= Last(hs);
    SlotIs(|s.received|, k, |s.cells|);
    assert s.cells[Place(|s.received| + k, |s.cells|)] == s.sent[|s.received| + k];
  }

  lemma Extend(values: seq<nat>, at: seq<nat>, cap: nat, n: nat)
    requires Positions(values, at, cap)
    ensures Positions(values + [(Last(values) + n) % cap], at + [Last(at) + n], cap)
  {
    hide Place;
    Advance(Last(at), n, cap);
  }

  lemma PublishHolds(s: State, hs: seq<nat>, ts: seq<nat>)
    requires Inv(s, hs, ts) && Enabled(s, PublishHead)
    ensures var d := Take(s, PublishHead); Holds(d.cells, d.sent, |d.received|)
  {
    hide Place;
    var d, n := Take(s, PublishHead), s.producer.chunk;
    forall p | |s.received| <= p < |d.sent|
      ensures d.cells[Place(p, |s.cells|)] == d.sent[p]
    {
      if p >= |s.sent| {
        var k := p - |s.sent|;
        assert k in s.producer.done;
      }
    }
  }

  lemma PublishHeadKeeps(s: State, hs: seq<nat>, ts: seq<nat>)
    requires Inv(s, hs, ts) && Enabled(s, PublishHead)
    ensures Sound(Take(s, PublishHead))
  {
    var d, n := Take(s, PublishHead), s.producer.chunk;
    PublishHolds(s, hs, ts);
    hide Place, Holds;
    var hs' := hs + [|s.sent| + n];
    Extend(s.heads, hs, |s.cells|, n);
    assert ts[s.producer.seen] <= Last(ts);
    assert Bounds(d, hs', ts) && Typed(d);
    hide Positions, Bounds, Typed;
    assert d.received == d.sent[..|d.received|];
    assert CopiedOut(d);
    hide CopiedIn, CopiedOut;
    assert Inv(d, hs', ts);
  }

  lemma PublishTailKeeps(s: State, hs: seq<nat>, ts: seq<nat>)
    requires Inv(s, hs, ts) && Enabled(s, PublishTail)
    ensures Sound(Take(s, PublishTail))
  {
    hide Place;
    var d, n := Take(s, PublishTail), s.consumer.chunk;
    Extend(s.tails, ts, |s.cells|, n);
    assert hs[s.consumer.seen] <= Last(hs);
    forall k | 0 <= k < n
      ensures s.buffer[k] == s.sent[|s.received| + k]
    {
      assert k in s.consumer.done;
    }
    assert d.received == s.sent[..|s.received| + n];
    assert Inv(d, hs, ts + [|s.received| + n]);
  }

  lemma CallKeeps(s: State, hs: seq<nat>, ts: seq<nat>, a: Step)
    requires Inv(s, hs, ts) && Enabled(s, a) && (a.CallWrite? || a.CallRead? || a.GiveUpWrite? || a.GiveUpRead?)
    ensures Inv(Take(s, a), hs, ts)
  {
    hide Place;
  }

  lemma StepKeeps(s: State, a: Step)
    requires Sound(s) && Typed(s) && Enabled(s, a)
    ensures Sound(Take(s, a))
  {
    hide Inv, Enabled, Take, Typed;
    var hs: seq<nat>, ts: seq<nat> :| Inv(s, hs, ts);
    match a
    case LoadTail(j) => LoadTailKeeps(s, hs, ts, j);
    case LoadHead(j) => LoadHeadKeeps(s, hs, ts, j);
    case CopyIn(k) => CopyInKeeps(s, hs, ts, k);
    case CopyOut(k) => CopyOutKeeps(s, hs, ts, k);
    case PublishHead => PublishHeadKeeps(s, hs, ts);
    case PublishTail => PublishTailKeeps(s, hs, ts);
    case _ => CallKeeps(s, hs, ts, a);
  }

  lemma StartSound(s: State)
    requires Start(s)
    ensures Sound(s)
  {
    assert Place(0, |s.cells|) == 0;
    assert Inv(s, [0], [0]);
  }

  lemma {:induction false} RunSound(states: seq<State>, steps: seq<Step>, n: nat)
    requires IsRun(states, steps) && n < |states|
    ensures Sound(states[n])
  {
    if n == 0 {
      StartSound(states[0]);
    } else {
      RunSound(states, steps, n - 1);
      assert Follows(states[n - 1], steps[n - 1], states[n]);
      StepKeeps(states[n - 1], steps[n - 1]);
    }
  }

  // ------------------------------------------------------------ the theorems

  ghost function Nth(at: nat, k: nat, cap: nat): nat
    requires cap > 0
  {
    Place(at + k, cap)
  }

  /** Slots that a side is copying. */
  ghost function Slots(at: nat, n: nat, cap: nat): set<nat>
    requires cap > 0
  {
    set k: nat | k < n :: Nth(at, k, cap)
  }

  lemma ApartModulo(a: nat, n: nat, b: nat, m: nat, cap: nat, x: nat)
    requires cap > 0 && b + m <= a && a + n <= b + cap
    ensures !(x in Slots(a, n, cap) && x in Slots(b, m, cap))
  {
    hide Place;
    if x in Slots(a, n, cap) && x in Slots(b, m, cap) {
      var i: nat :| i < n && x == Nth(a, i, cap);
      var k: nat :| k < m && x == Nth(b, k, cap);
      SlotUnique(b + k, a + i, cap);
    }
  }

  lemma DisjointCopies(s: State, hs: seq<nat>, ts: seq<nat>)
    requires Inv(s, hs, ts)
    ensures Slots(|s.sent|, InHand(s.producer), |s.cells|) !! Slots(|s.received|, InHand(s.consumer), |s.cells|)
  {
    hide Place;
    assert ts[s.producer.seen] <= Last(ts) && hs[s.consumer.seen] <= Last(hs);
    hide Slots;
    forall x: nat
      ensures !(x in Slots(|s.sent|, InHand(s.producer), |s.cells|)
                && x in Slots(|s.received|, InHand(s.consumer), |s.cells|))
    {
      ApartModulo(|s.sent|, InHand(s.producer), |s.received|, InHand(s.consumer), |s.cells|, x);
    }
  }

  /**
    Linearisability: in every interleaving, however stale the cursor loads, the octets received
    are a prefix of the octets sent, at most capacity - 1 octets are in flight, and the slots the
    producer is filling are disjoint from those the consumer is emptying.
   */
  lemma Linearisable(states: seq<State>, steps: seq<Step>, n: nat)
    requires IsRun(states, steps) && n < |states|
    ensures var s := states[n];
            && |s.cells| > 0
            && s.received <= s.sent && |s.sent| - |s.received| <= |s.cells| - 1
            && Slots(|s.sent|, InHand(s.producer), |s.cells|) !! Slots(|s.received|, InHand(s.consumer), |s.cells|)
  {
    hide Place;
    RunSound(states, steps, n);
    var s := states[n];
    var hs: seq<nat>, ts: seq<nat> :| Inv(s, hs, ts);
    DisjointCopies(s, hs, ts);
  }

  /**
    Every octet the consumer copies out had been published by the head value it loaded, and it is
    the right one; every slot the producer overwrites had been released by the tail value it loaded.
    So release and acquire order all accesses to a slot.
   */
  lemma CopiesAreOrdered(states: seq<State>, steps: seq<Step>, n: nat)
    requires IsRun(states, steps) && n < |steps|
    ensures var s, s' := states[n], states[n + 1];
            && (steps[n].CopyOut? ==>
                  var k := steps[n].k;
                  && k < |s'.buffer| && |s.received| + k < |s.sent| && s'.buffer[k] == s.sent[|s.received| + k]
                  && exists hs | Positions(s.heads, hs, |s.cells|) && Last(hs) == |s.sent| ::
                       s.consumer.seen < |hs| && |s.received| + k < hs[s.consumer.seen])
            && (steps[n].CopyIn? ==>
                  exists ts | Positions(s.tails, ts, |s.cells|) && Last(ts) == |s.received| ::
                    s.producer.seen < |ts| && |s.sent| + steps[n].k < ts[s.producer.seen] + |s.cells|)
  {
    hide Place;
    RunSound(states, steps, n);
    var s := states[n];
    var hs: seq<nat>, ts: seq<nat> :| Inv(s, hs, ts);
    assert Follows(s, steps[n], states[n + 1]);
    if steps[n].CopyOut? {
      CopyOutKeeps(s, hs, ts, steps[n].k);
      assert hs[s.consumer.seen] <= Last(hs);
      assert Positions(s.heads, hs, |s.cells|);
    } else if steps[n].CopyIn? {
      assert Positions(s.tails, ts, |s.cells|);
    }
  }

  lemma Latest(s: State, hs: seq<nat>, ts: seq<nat>)
    requires Inv(s, hs, ts)
    ensures Typed(s)
    ensures (Last(s.heads) + |s.cells| - Last(s.tails)) % |s.cells| == |s.sent| - |s.received|
    ensures (|s.cells| - 1 + Last(s.tails) - Last(s.heads)) % |s.cells| == |s.cells| - 1 - (|s.sent| - |s.received|)
  {
    hide Place, Holds, CopiedIn, CopiedOut;
    assert Last(s.heads) == Place(|s.sent|, |s.cells|) && Last(s.tails) == Place(|s.received|, |s.cells|);
    hide Positions, Typed;
    Free(|s.sent|, |s.received|, |s.cells|);
    Filled(|s.sent|, |s.received|, |s.cells|);
  }

  /** A side that sees the latest cursor computes exactly what is in flight and what is free. */
  lemma LatestLoads(states: seq<State>, steps: seq<Step>, n: nat)
    requires IsRun(states, steps) && n < |states|
    ensures var s := states[n];
            && Typed(s)
            && (Last(s.heads) + |s.cells| - Last(s.tails)) % |s.cells| == |s.sent| - |s.received|
            && (|s.cells| - 1 + Last(s.tails) - Last(s.heads)) % |s.cells| == |s.cells| - 1 - (|s.sent| - |s.received|)
  {
    hide Inv;
    RunSound(states, steps, n);
    var s := states[n];
    var hs: seq<nat>, ts: seq<nat> :| Inv(s, hs, ts);
    Latest(s, hs, ts);
  }
}

/**
  The ring as one object, for a caller that uses both ends from one thread without blocking:
  `write` appends and `read` takes from the front, whatever the cursors are.
 */
module RingBuffer {
  import opened Bytes
  import opened RingSlots

  /** The remainder of a sum of two cursors. */
  lemma Wrapped(a: nat, cap: nat)
    requires 0 < cap && a < 2 * cap
    ensures a % cap == if a < cap then a else a - cap
  {
    ModIs(a, if a < cap then 0 else 1, if a < cap then a else a - cap, cap);
  }

  class Ring {
    const capacity: nat
    const data: array<Byte>
    var head: nat
    var tail: nat
    ghost var contents: Octets

    ghost predicate Valid()
      reads this, data
    {
      && 0 < capacity == data.Length && tail < capacity
      && |contents| < capacity && head == Slot(tail, |contents|, capacity)
      && forall k | 0 <= k < |contents| :: data[Slot(tail, k, capacity)] == contents[k]
    }

    constructor (size: nat)
      ensures Valid() && fresh(data) && capacity == size + 1 && contents == []
    {
      capacity := size + 1;
      data := new Byte[size + 1](_ => 0);
      head, tail := 0, 0;
      contents := [];
    }

    method AvailableRead() returns (n: nat)
      requires Valid()
      ensures n == |contents|
    {
      n := (head + capacity - tail) % capacity;
      Wrapped(head + capacity - tail, capacity);
    }

    method AvailableWrite() returns (n: nat)
      requires Valid()
      ensures n == capacity - 1 - |contents|
    {
      n := (capacity - 1 + tail - head) % capacity;
      Wrapped(capacity - 1 + tail - head, capacity);
    }

    /** One pass of the write loop: as much as fits, in at most two stretches. */
    method Put(s: Octets)
      requires Valid() && 0 < |s| < capacity - |contents|
      modifies this`head, this`contents, data
      ensures Valid() && contents == old(contents) + s
    {
      ghost var n := |contents|;
      for k := 0 to |s|
        invariant 0 < capacity == data.Length && tail < capacity && head == Slot(tail, n, capacity)
                  && contents == old(contents)
        invariant forall i | 0 <= i < n :: data[Slot(tail, i, capacity)] == contents[i]
        invariant forall i | 0 <= i < k :: data[Slot(head, i, capacity)] == s[i]
      {
        data[Slot(head, k, capacity)] := s[k];
      }
      Wrapped(head + |s|, capacity);
      forall i | 0 <= i < |s|
        ensures Slot(tail, n + i, capacity) == Slot(head, i, capacity)
      {
      }
      head := (head + |s|) % capacity;
      contents := contents + s;
    }

    method Get(n: nat) returns (d: Octets)
      requires Valid() && 0 < n <= |contents|
      modifies this`tail, this`contents
      ensures Valid() && |d| == n && old(contents) == d + contents
    {
      d := [];
      for k := 0 to n
        invariant d == contents[..k] && Valid() && contents == old(contents) && tail == old(tail)
      {
        d := d + [data[Slot(tail, k, capacity)]];
      }
      Wrapped(tail + n, capacity);
      ghost var t := tail;
      tail := (tail + n) % capacity;
      contents := contents[n..];
      forall k | 0 <= k < |contents|
        ensures Slot(tail, k, capacity) == Slot(t, n + k, capacity)
      {
      }
    }

    /** Writes what fits; gives up once the ring is full. */
    method Write(src: Octets) returns (written: nat)
      requires Valid()
      modifies this`head, this`contents, data
      ensures written == Min(|src|, capacity - 1 - |old(contents)|)
      ensures Valid() && contents == old(contents) + src[..written]
    {
      written := 0;
      var spins := 0;
      while written < |src|
        invariant Valid() && written <= |src| && spins <= 101 && contents == old(contents) + src[..written]
        decreases |src| - written, 102 - spins
      {
        var avail := AvailableWrite();
        if avail == 0 {
          if written > 0 || spins > 100 {
            return;
          }
          spins := spins + 1;
        } else {
          var chunk := if avail < |src| - written then avail else |src| - written;
          assert src[..written + chunk] == src[..written] + src[written..written + chunk];
          Put(src[written..written + chunk]);
          written := written + chunk;
        }
      }
    }

    /** Reads what there is, up to `n` octets; gives up once the ring is empty. */
    method Read(n: nat) returns (dst: Octets)
      requires Valid()
      modifies this`tail, this`contents
      ensures Valid() && old(contents) == dst + contents
      ensures |dst| == Min(n, |old(contents)|)
    {
      dst := [];
      var spins := 0;
      while |dst| < n
        invariant Valid() && |dst| <= n && spins <= 1000001 && old(contents) == dst + contents
        decreases n - |dst|, 1000002 - spins
      {
        var avail := AvailableRead();
        if avail == 0 {
          if |dst| > 0 || spins > 1000000 {
            return;
          }
          spins := spins + 1;
        } else {
          var d := Get(if avail < n - |dst| then avail else n - |dst|);
          dst := dst + d;
        }
      }
    }
  }
}
