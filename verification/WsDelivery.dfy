/**
  Receiving does not depend on delivery: whatever fragments, control frames, masking keys and
  reads carry a list of messages, the session hands out that list.
 */
module WsDelivery {
  import opened Bytes
  import opened WsFrame
  import opened WsSession
  import Utf8

  /** A frame and the key it is masked with, if any. */
  datatype Item = Item(key: Option<Key>, frame: Frame)

  function Wire(items: seq<Item>): Octets {
    if items == [] then [] else FrameWire(items[0].key, items[0].frame) + Wire(items[1..])
  }

  /** A message whose last fragment is still to come. */
  datatype Open = Nothing | Part(kind: Kind, data: Octets)

  function DataOf(open: Open): Octets {
    if open.Part? then open.data else []
  }

  function KindOf(f: Frame, open: Open): Kind {
    if open.Part? then open.kind else if f.opcode == OP_TEXT then Text else Binary
  }

  /** A frame that a conforming peer may send next. */
  predicate Allowed(isServer: bool, cap: nat, it: Item, open: Open) {
    && it.key.Some? == isServer && it.frame.opcode != OP_CLOSE
    && Sendable(it.frame, cap - |DataOf(open)|)
    && (!Control(it.frame.opcode) ==> (it.frame.opcode == OP_CONT <==> open.Part?))
  }

  /** The frames carry exactly these messages, the first of them begun by `open`. */
  ghost predicate Carries(isServer: bool, cap: nat, items: seq<Item>, open: Open, messages: seq<Message>) {
    if items == [] then open.Nothing? && messages == []
    else
      var it, rest := items[0], items[1..];
      && Allowed(isServer, cap, it, open)
      && if Control(it.frame.opcode) then Carries(isServer, cap, rest, open, messages)
         else
           var data, kind := DataOf(open) + it.frame.payload, KindOf(it.frame, open);
           if it.frame.fin then
             && messages != [] && messages[0] == Message(kind, data)
             && (kind.Text? ==> Utf8.WellFormed(data))
             && Carries(isServer, cap, rest, Nothing, messages[1..])
           else Carries(isServer, cap, rest, Part(kind, data), messages)
  }

  /** The Pongs the Pings among the frames ask for. */
  function Pongs(items: seq<Item>): seq<Frame> {
    if items == [] then []
    else if items[0].frame.opcode == OP_PING then [Frame(true, OP_PONG, items[0].frame.payload)] + Pongs(items[1..])
    else Pongs(items[1..])
  }

  function SentIn(log: Log): seq<Frame> {
    match log
    case Empty => []
    case And(p, Sent(f)) => SentIn(p) + [f]
    case And(p, _) => SentIn(p)
  }

  /** Calls of the pump until the reads run out, with the messages they return. */
  ghost function Drive(s: Session, pieces: seq<Octets>): (Session, seq<Message>)
    decreases |pieces|, |s.input|
  {
    var (s1, o) := Pump(s);
    match o
    case Deliver(m) => var r := Drive(s1, pieces); (r.0, [m] + r.1)
    case NeedMore => if pieces == [] then (s1, []) else Drive(s1.(input := s1.input + pieces[0]), pieces[1..])
    case _ => (s1, [])
  }

  // ------------------------------------------------------------ one frame

  ghost predicate Matches(s: Session, open: Open) {
    && s.fragActive == open.Part? && s.frag == DataOf(open)
    && (open.Part? ==> s.kind == open.kind)
    && !s.closeRecv && !s.failed
  }

  /** Where a session stands between steps, `future` being what was not read yet. */
  ghost predicate Stands(s: Session, future: Octets, items: seq<Item>, open: Open, messages: seq<Message>) {
    && Matches(s, open) && s.input + future == Wire(items)
    && Carries(s.isServer, s.cap, items, open, messages)
  }

  /** What a frame does to the message in progress. */
  function After(it: Item, open: Open): Open {
    if Control(it.frame.opcode) then open
    else if it.frame.fin then Nothing
    else Part(KindOf(it.frame, open), DataOf(open) + it.frame.payload)
  }

  lemma TakeItem(s: Session, it: Item, open: Open, rest: Octets)
    requires Matches(s, open) && Allowed(s.isServer, s.cap, it, open) && s.input == FrameWire(it.key, it.frame) + rest
    requires !Control(it.frame.opcode) && it.frame.fin && KindOf(it.frame, open).Text? ==>
               Utf8.WellFormed(DataOf(open) + it.frame.payload)
    ensures var (s1, o) := Step(s);
            && Matches(s1, After(it, open)) && s1.input == rest && s1.isServer == s.isServer && s1.cap == s.cap
            && SentIn(s1.log) == SentIn(s.log) + Pongs([it])
            && o == if Control(it.frame.opcode) || !it.frame.fin then Again
                    else Deliver(Message(KindOf(it.frame, open), DataOf(open) + it.frame.payload))
  {
    FrameRoundTrip(s.isServer, it.key, Room(s), it.frame, rest);
    hide Parse, FrameWire, Utf8.WellFormed;
    var f := it.frame;
    var r := Parse(s.isServer, Room(s), s.input);
    assert s.input[r.total..] == rest;
    assert DataOf(open) + f.payload == s.frag + f.payload;
    assert open.Nothing? ==> DataOf(open) + f.payload == f.payload;
    assert Pongs([it][1..]) == [];
  }

  lemma CarriesHead(isServer: bool, cap: nat, items: seq<Item>, open: Open, messages: seq<Message>)
    requires Carries(isServer, cap, items, open, messages) && items != []
    ensures Allowed(isServer, cap, items[0], open)
    ensures var f := items[0].frame;
            && (!Control(f.opcode) && f.fin && KindOf(f, open).Text? ==> Utf8.WellFormed(DataOf(open) + f.payload))
            && if Control(f.opcode) || !f.fin then Carries(isServer, cap, items[1..], After(items[0], open), messages)
               else messages != [] && messages[0] == Message(KindOf(f, open), DataOf(open) + f.payload)
                    && Carries(isServer, cap, items[1..], Nothing, messages[1..])
  {
    hide Allowed, Utf8.WellFormed;
  }

  lemma PongsHead(items: seq<Item>)
    requires items != []
    ensures Pongs(items) == Pongs([items[0]]) + Pongs(items[1..])
  {
    var one := [items[0]];
    assert one[0] == items[0] && one[1..] == [];
    assert Pongs([]) == [];
    PongsTurn(one);
    PongsTurn(items);
    hide Pongs;
  }

  lemma PongsTurn(items: seq<Item>)
    requires items != []
    ensures var f := items[0].frame;
            Pongs(items) == (if f.opcode == OP_PING then [Frame(true, OP_PONG, f.payload)] else []) + Pongs(items[1..])
  {
  }

  // ------------------------------------------------------------ one call

  /** What one call of the pump leaves to do: a message was returned, or more octets are awaited. */
  ghost predicate Pumped(s: Session, future: Octets, items: seq<Item>, messages: seq<Message>,
                         r: (Session, Outcome), left: seq<Item>, open: Open) {
    && SentIn(r.0.log) + Pongs(left) == SentIn(s.log) + Pongs(items)
    && match r.1 {
         case Deliver(m) => messages != [] && m == messages[0] && Stands(r.0, future, left, open, messages[1..])
         case NeedMore => Stands(r.0, future, left, open, messages) && (future == [] ==> left == [])
         case _ => false
       }
  }

  /** A whole frame at the front of the input. */
  lemma ItemStep(s: Session, future: Octets, items: seq<Item>, open: Open, messages: seq<Message>)
    requires Stands(s, future, items, open, messages)
    requires items != [] && |s.input| >= |FrameWire(items[0].key, items[0].frame)|
    ensures Step(s).1.Again? || Step(s).1.Deliver?
    ensures Step(s).1.Again? ==> Stands(Step(s).0, future, items[1..], After(items[0], open), messages)
    ensures Step(s).1.Deliver? ==> Pumped(s, future, items, messages, Step(s), items[1..], Nothing)
    ensures SentIn(Step(s).0.log) + Pongs(items[1..]) == SentIn(s.log) + Pongs(items)
  {
    hide Step, Utf8.WellFormed, FrameWire;
    CarriesHead(s.isServer, s.cap, items, open, messages);
    var it := items[0];
    var w := FrameWire(it.key, it.frame);
    SplitAt(s.input, future, w, Wire(items[1..]));
    TakeItem(s, it, open, s.input[|w|..]);
    PongsAfter(SentIn(s.log), SentIn(Step(s).0.log), items);
    hide Carries, Wire, Pongs, SentIn;
  }

  lemma PongsAfter(sent: seq<Frame>, sent': seq<Frame>, items: seq<Item>)
    requires items != [] && sent' == sent + Pongs([items[0]])
    ensures sent' + Pongs(items[1..]) == sent + Pongs(items)
  {
    PongsHead(items);
  }

  /** One call of the pump: a message if the next one is all there, otherwise a wait for more. */
  lemma {:induction false} PumpDelivers(s: Session, future: Octets, items: seq<Item>, open: Open,
                                        messages: seq<Message>)
    returns (left: seq<Item>, open': Open)
    requires Stands(s, future, items, open, messages)
    ensures Pumped(s, future, items, messages, Pump(s), left, open')
    decreases |s.input|
  {
    PumpTurn(s);
    if items == [] || |s.input| < |FrameWire(items[0].key, items[0].frame)| {
      left, open' := items, open;
      Starved(s, future, items, open, messages);
    } else {
      assert Step(s).1.Again? ==> |Step(s).0.input| < |s.input|;
      hide Step, Stands, Pump, Pumped, FrameWire;
      ItemStep(s, future, items, open, messages);
      var (s1, o) := Step(s);
      if o.Again? {
        left, open' := PumpDelivers(s1, future, items[1..], After(items[0], open), messages);
        PumpedLater(s, s1, future, items, items[1..], messages, Pump(s1), left, open');
      } else {
        left, open' := items[1..], Nothing;
      }
    }
  }

  /** The input ends inside a frame, or with the last one. */
  lemma Starved(s: Session, future: Octets, items: seq<Item>, open: Open, messages: seq<Message>)
    requires Stands(s, future, items, open, messages)
    requires items == [] || |s.input| < |FrameWire(items[0].key, items[0].frame)|
    ensures Pumped(s, future, items, messages, Pump(s), items, open)
  {
    hide Step, Utf8.WellFormed, FrameWire, Pump;
    if items == [] {
      NoInput(s);
    } else {
      CarriesHead(s.isServer, s.cap, items, open, messages);
      CutItem(s, future, items[0], open, Wire(items[1..]));
    }
  }

  lemma PumpedLater(s: Session, s1: Session, future: Octets, items: seq<Item>, items': seq<Item>,
                    messages: seq<Message>,
                    r: (Session, Outcome), left: seq<Item>, open: Open)
    requires Pumped(s1, future, items', messages, r, left, open)
    requires SentIn(s1.log) + Pongs(items') == SentIn(s.log) + Pongs(items)
    ensures Pumped(s, future, items, messages, r, left, open)
  {
    hide Stands, SentIn, Pongs;
  }

  lemma PumpTurn(s: Session)
    ensures Pump(s) == if Step(s).1.Again? then Pump(Step(s).0) else Step(s)
  {
  }

  lemma SplitAt(a: Octets, b: Octets, w: Octets, rest: Octets)
    requires a + b == w + rest && |a| >= |w|
    ensures a[..|w|] == w && a[|w|..] + b == rest && a == w + a[|w|..]
  {
    assert (a + b)[..|w|] == a[..|w|] && (w + rest)[..|w|] == w;
    assert (a + b)[|w|..] == a[|w|..] + b && (w + rest)[|w|..] == rest;
  }

  lemma NoInput(s: Session)
    requires s.input == []
    ensures Step(s) == (s, NeedMore) && Pump(s) == (s, NeedMore)
  {
  }

  lemma CutItem(s: Session, future: Octets, it: Item, open: Open, rest: Octets)
    requires Matches(s, open) && Allowed(s.isServer, s.cap, it, open)
    requires s.input + future == FrameWire(it.key, it.frame) + rest && |s.input| < |FrameWire(it.key, it.frame)|
    ensures Step(s) == (s, NeedMore) && Pump(s) == (s, NeedMore) && future != []
  {
    hide Parse, FrameWire;
    var w := FrameWire(it.key, it.frame);
    var b := w[|s.input|..];
    assert (s.input + future)[..|w|] == w;
    assert s.input + b == w by {
      assert w[..|s.input|] == (s.input + future)[..|s.input|] == s.input;
    }
    CutFrame(s.isServer, it.key, Room(s), it.frame, s.input, b);
  }

  // ------------------------------------------------------------ every delivery

  /** Everything was handed out and every Ping answered, with nothing left over. */
  ghost predicate Done(s: Session, r: (Session, seq<Message>), items: seq<Item>, messages: seq<Message>) {
    && r.1 == messages && SentIn(r.0.log) == SentIn(s.log) + Pongs(items)
    && r.0.input == [] && !r.0.fragActive && !r.0.failed && !r.0.closeRecv
  }

  lemma DoneLater(s: Session, s1: Session, r: (Session, seq<Message>), items: seq<Item>, left: seq<Item>,
                  first: seq<Message>, messages: seq<Message>)
    requires Done(s1, r, left, messages)
    requires SentIn(s1.log) + Pongs(left) == SentIn(s.log) + Pongs(items)
    ensures Done(s, (r.0, first + r.1), items, first + messages)
  {
  }

  lemma ReadNext(s: Session, pieces: seq<Octets>, items: seq<Item>, open: Open, messages: seq<Message>)
    requires Stands(s, Concat(pieces), items, open, messages) && pieces != []
    ensures Stands(s.(input := s.input + pieces[0]), Concat(pieces[1..]), items, open, messages)
  {
    assert s.input + pieces[0] + Concat(pieces[1..]) == s.input + Concat(pieces);
    hide Carries, Wire, Concat;
  }

  /** A turn that returned a message. */
  lemma DeliverTurn(s: Session, pieces: seq<Octets>, items: seq<Item>, messages: seq<Message>, left: seq<Item>,
                    open: Open)
    requires Pumped(s, Concat(pieces), items, messages, Pump(s), left, open) && Pump(s).1.Deliver?
    requires Done(Pump(s).0, Drive(Pump(s).0, pieces), left, messages[1..])
    ensures Done(s, Drive(s, pieces), items, messages)
  {
    DriveTurn(s, pieces);
    hide Drive, Pump, Done, Stands, Concat, Pongs, SentIn;
    DoneLater(s, Pump(s).0, Drive(Pump(s).0, pieces), items, left, [messages[0]], messages[1..]);
    assert messages == [messages[0]] + messages[1..];
  }

  /** A turn that read the next piece. */
  lemma ReadTurn(s: Session, pieces: seq<Octets>, items: seq<Item>, messages: seq<Message>, left: seq<Item>, open: Open)
    requires Pumped(s, Concat(pieces), items, messages, Pump(s), left, open) && Pump(s).1.NeedMore? && pieces != []
    requires var s2 := Pump(s).0.(input := Pump(s).0.input + pieces[0]);
             Done(s2, Drive(s2, pieces[1..]), left, messages)
    ensures Done(s, Drive(s, pieces), items, messages)
  {
    DriveTurn(s, pieces);
    hide Drive, Pump, Done, Stands, Concat, Pongs, SentIn;
    var s2 := Pump(s).0.(input := Pump(s).0.input + pieces[0]);
    DoneLater(s, s2, Drive(s2, pieces[1..]), items, left, [], messages);
    assert [] + messages == messages && [] + Drive(s2, pieces[1..]).1 == Drive(s2, pieces[1..]).1;
  }

  /** The last turn. */
  lemma LastTurn(s: Session, items: seq<Item>, messages: seq<Message>, left: seq<Item>, open: Open)
    requires Pumped(s, Concat([]), items, messages, Pump(s), left, open) && Pump(s).1.NeedMore?
    ensures Done(s, Drive(s, []), items, messages)
  {
    DriveTurn(s, []);
    assert Concat([]) == [];
    hide Drive, Pump, Done, Stands, Concat, Pongs, SentIn;
    EndOfItems(Pump(s).0, left, open, messages);
    EndsDone(s, Pump(s).0, items, left);
  }

  lemma {:induction false} DriveDelivers(s: Session, pieces: seq<Octets>, items: seq<Item>, open: Open,
                                         messages: seq<Message>)
    requires Stands(s, Concat(pieces), items, open, messages)
    ensures Done(s, Drive(s, pieces), items, messages)
    decreases |pieces|, |s.input|
  {
    var left, open' := PumpDelivers(s, Concat(pieces), items, open, messages);
    var s1, o := Pump(s).0, Pump(s).1;
    assert o.Deliver? ==> |s1.input| < |s.input|;
    hide Drive, Pump, Done, Stands, Concat, Pongs, SentIn;
    if o.Deliver? {
      DriveDelivers(s1, pieces, left, open', messages[1..]);
      DeliverTurn(s, pieces, items, messages, left, open');
    } else if pieces != [] {
      ReadNext(s1, pieces, left, open', messages);
      DriveDelivers(s1.(input := s1.input + pieces[0]), pieces[1..], left, open', messages);
      ReadTurn(s, pieces, items, messages, left, open');
    } else {
      LastTurn(s, items, messages, left, open');
    }
  }

  lemma EndsDone(s: Session, s1: Session, items: seq<Item>, left: seq<Item>)
    requires s1.input == [] && !s1.fragActive && !s1.failed && !s1.closeRecv && left == []
    requires SentIn(s1.log) + Pongs(left) == SentIn(s.log) + Pongs(items)
    ensures Done(s, (s1, []), items, [])
  {
  }

  lemma DriveTurn(s: Session, pieces: seq<Octets>)
    ensures var (s1, o) := Pump(s);
            Drive(s, pieces) ==
            match o {
              case Deliver(m) => (Drive(s1, pieces).0, [m] + Drive(s1, pieces).1)
              case NeedMore =>
                if pieces == [] then (s1, []) else Drive(s1.(input := s1.input + pieces[0]), pieces[1..])
              case _ => (s1, [])
            }
  {
    hide Pump;
  }

  lemma EndOfItems(s: Session, left: seq<Item>, open: Open, messages: seq<Message>)
    requires Stands(s, [], left, open, messages) && left == []
    ensures messages == [] && s.input == [] && !s.fragActive && !s.failed && !s.closeRecv && Pongs(left) == []
  {
    assert s.input + [] == s.input;
  }

  /**
    For every list of messages within the cap, however it is cut into fragments, interleaved with
    Pings and Pongs, masked as the peer's role demands and split into reads, the session returns
    exactly those messages in order, answers each Ping with a Pong of equal payload, and has nothing
    left over.
   */
  lemma DeliveryIndependence(isServer: bool, cap: nat, items: seq<Item>, messages: seq<Message>, pieces: seq<Octets>)
    requires Carries(isServer, cap, items, Nothing, messages) && Concat(pieces) == Wire(items)
    ensures var (s1, ms) := Drive(Fresh(isServer).(cap := cap), pieces);
            && ms == messages && SentIn(s1.log) == Pongs(items)
            && s1.input == [] && !s1.fragActive && !s1.failed && !s1.closeRecv
  {
    hide Carries;
    var s := Fresh(isServer).(cap := cap);
    assert s.input + Concat(pieces) == Wire(items);
    DriveDelivers(s, pieces, items, Nothing, messages);
    assert Done(s, Drive(s, pieces), items, messages);
    assert SentIn(s.log) == [];
  }
}
