/**
 The data feed: the market's callbacks stamp, build and send one message each, and a reader of
 the feed rebuilds the events from the messages.
 */
module Feed {
  import opened DayTime
  import opened CachedClock
  import opened Wire

  /** What the callbacks read of an order. The id the feed sees is the printed `number`. */
  datatype Order = Order(number: nat, buy: bool, qty: int, symbol: string, price: int)

  datatype Event =
    | Accept(order: Order)
    | Fill(order: Order, matched: Order, qty: int, cost: int)
    | Cancel(order: Order)
    | Replace(order: Order, delta: int, newPrice: int)
    | Trade(symbol: string, qty: int, cost: int)
    | Reject(order: Order)
    | CancelReject(order: Order)
    | ReplaceReject(order: Order)
    | BookChange
    | BboChange
    | DepthChange

  datatype Body =
    | AddOrder(reference: int, side: string, shares: int, stock: string, price: int)
    | OrderExecuted(reference: int, executedShares: int, printable: string, executionPrice: int)
    | OrderCancel
    | OrderReplace
    | TradeReport(shares: int, stock: string, price: int)

  /** Cancels and replaces go out with no field set, the timestamp included. */
  datatype Message =
    | Stamped(timestamp: nat, body: Body)
    | Blank(body: Body)

  datatype FeedState = FeedState(epoch: nat, pos: nat, log: seq<Message>)

  /** A callback still waiting for the clock when the recorded readings end has sent nothing. */
  datatype Delivery = Delivered(st: FeedState) | Stuck(st: FeedState)

  // ---------------------------------------------------------------------------
  // What the callbacks send
  // ---------------------------------------------------------------------------

  /** The message body of an event; the listener methods not named here only write to the debug log. */
  function Bodies(ev: Event): seq<Body> {
    match ev
    case Accept(o) => [AddOrder(Reference(o.number), if o.buy then "B" else "S", o.qty, o.symbol, ToItchPrice(o.price))]
    case Fill(o, _, qty, cost) => [OrderExecuted(Reference(o.number), qty, "Y", ToItchPrice(cost))]
    case Cancel(_) => [OrderCancel]
    case Replace(_, _, _) => [OrderReplace]
    case Trade(symbol, qty, cost) => [TradeReport(qty, symbol, ToItchPrice(cost))]
    case _ => []
  }

  predicate IsStamped(ev: Event) {
    ev.Accept? || ev.Fill? || ev.Trade?
  }

  function Deliver(clock: seq<nat>, st: FeedState, ev: Event): Delivery {
    if IsStamped(ev) then
      match Call(clock, st.pos, st.epoch)
      case Returned(at, ns, e) => Delivered(FeedState(e, at + 1, st.log + [Stamped(ns, Bodies(ev)[0])]))
      case Waiting(e) => Stuck(FeedState(e, |clock|, st.log))
    else if ev.Cancel? || ev.Replace? then
      Delivered(st.(log := st.log + [Blank(Bodies(ev)[0])]))
    else
      Delivered(st)
  }

  datatype Session = Session(st: FeedState, delivered: nat)

  /** A sequence of callbacks, up to the first that gets stuck. */
  function DeliverAll(clock: seq<nat>, st: FeedState, evs: seq<Event>): Session
    decreases |evs|
  {
    if evs == [] then Session(st, 0)
    else match Deliver(clock, st, evs[0])
      case Stuck(st') => Session(st', 0)
      case Delivered(st') =>
        var rest := DeliverAll(clock, st', evs[1..]);
        rest.(delivered := rest.delivered + 1)
  }

  // ---------------------------------------------------------------------------
  // The feed object
  // ---------------------------------------------------------------------------

  class DataFeed {
    const clock: seq<nat>          // the readings the system clock will give
    var pos: nat                   // how many of them have been taken
    var epochAtMidnightSec: nat
    var sent: seq<Message>

    ghost predicate Valid()
      reads this
    {
      pos <= |clock| && InHorizon(clock) && IsMidnight(epochAtMidnightSec)
    }

    ghost function State(): FeedState
      reads this
    {
      FeedState(epochAtMidnightSec, pos, sent)
    }

    constructor (clock: seq<nat>)
      requires InHorizon(clock)
      ensures Valid() && this.clock == clock && State() == FeedState(0, 0, [])
    {
      this.clock := clock;
      pos, epochAtMidnightSec, sent := 0, 0, [];
    }

    /** Takes one clock reading, refreshes the cached midnight and retries when it is stale; not returned if
        the readings end first. */
    method NsSinceMidnight() returns (ns: nat, returned: bool)
      requires Valid()
      modifies this`pos, this`epochAtMidnightSec
      ensures Valid()
      ensures match Call(clock, old(pos), old(epochAtMidnightSec))
        case Returned(at, r, e) => returned && ns == r && pos == at + 1 && epochAtMidnightSec == e
        case Waiting(e) => !returned && pos == |clock| && epochAtMidnightSec == e
      ensures returned ==> 0 < pos && IsStampOf(ns, clock[pos - 1])
      decreases |clock| - pos
    {
      if pos == |clock| {
        return 0, false;
      }
      var t := clock[pos];
      pos := pos + 1;
      ns := ((t / NS_PER_SEC - epochAtMidnightSec) % WORD * NS_PER_SEC % WORD + t % NS_PER_SEC) % WORD;
      FreshIsExact(t, epochAtMidnightSec);
      if ns > DAY {
        if pos == |clock| {
          return 0, false;
        }
        var now := clock[pos];
        pos := pos + 1;
        RefreshIsMidnight(now);
        epochAtMidnightSec := now / DAY * SEC_PER_DAY;
        ns, returned := NsSinceMidnight();
      } else {
        returned := true;
      }
    }

    method Send(msg: Message)
      requires Valid()
      modifies this`sent
      ensures Valid() && sent == old(sent) + [msg]
    {
      sent := sent + [msg];
    }

    method OnAccept(order: Order) returns (ok: bool)
      requires Valid()
      modifies this
      ensures Valid()
      ensures Deliver(clock, old(State()), Accept(order)) == if ok then Delivered(State()) else Stuck(State())
    {
      var price := ToItchPrice(order.price);
      var ns;
      ns, ok := NsSinceMidnight();
      if ok {
        var side := if order.buy then "B" else "S";
        Send(Stamped(ns, AddOrder(Strtol(Decimal(order.number)), side, order.qty, order.symbol, price)));
      }
    }

    method OnFill(order: Order, matched: Order, qty: int, cost: int) returns (ok: bool)
      requires Valid()
      modifies this
      ensures Valid()
      ensures Deliver(clock, old(State()), Fill(order, matched, qty, cost)) ==
              if ok then Delivered(State()) else Stuck(State())
    {
      var ns;
      ns, ok := NsSinceMidnight();
      if ok {
        Send(Stamped(ns, OrderExecuted(Strtol(Decimal(order.number)), qty, "Y", ToItchPrice(cost))));
      }
    }

    method OnTrade(symbol: string, qty: int, cost: int) returns (ok: bool)
      requires Valid()
      modifies this
      ensures Valid()
      ensures Deliver(clock, old(State()), Trade(symbol, qty, cost)) ==
              if ok then Delivered(State()) else Stuck(State())
    {
      var ns;
      ns, ok := NsSinceMidnight();
      if ok {
        Send(Stamped(ns, TradeReport(qty, symbol, ToItchPrice(cost))));
      }
    }

    method OnCancel(order: Order)
      requires Valid()
      modifies this`sent
      ensures Valid() && Deliver(clock, old(State()), Cancel(order)) == Delivered(State())
    {
      Send(Blank(OrderCancel));
    }

    method OnReplace(order: Order, delta: int, newPrice: int)
      requires Valid()
      modifies this`sent
      ensures Valid() && Deliver(clock, old(State()), Replace(order, delta, newPrice)) == Delivered(State())
    {
      Send(Blank(OrderReplace));
    }
  }

  // ---------------------------------------------------------------------------
  // The log against the history
  // ---------------------------------------------------------------------------

  function BodiesOf(evs: seq<Event>): seq<Body>
    decreases |evs|
  {
    if evs == [] then [] else Bodies(evs[0]) + BodiesOf(evs[1..])
  }

  function LogBodies(log: seq<Message>): seq<Body> {
    seq(|log|, i requires 0 <= i < |log| => log[i].body)
  }

  /** The timestamps in a log, in order. */
  function LogStamps(log: seq<Message>): seq<nat> {
    if log == [] then []
    else
      var m := log[|log| - 1];
      LogStamps(log[..|log| - 1]) + if m.Stamped? then [m.timestamp] else []
  }

  function StampedCount(evs: seq<Event>): nat
    decreases |evs|
  {
    if evs == [] then 0 else (if IsStamped(evs[0]) then 1 else 0) + StampedCount(evs[1..])
  }

  /** Nothing lost, nothing added, nothing out of order: the log holds one message for each event delivered
      that has one. */
  lemma {:induction false} LogHoldsEveryEvent(clock: seq<nat>, st: FeedState, evs: seq<Event>)
    ensures
      var r := DeliverAll(clock, st, evs);
      r.delivered <= |evs| && LogBodies(r.st.log) == LogBodies(st.log) + BodiesOf(evs[..r.delivered])
    decreases |evs|
  {
    if evs == [] {
    } else if Deliver(clock, st, evs[0]).Delivered? {
      var st' := Deliver(clock, st, evs[0]).st;
      assert LogBodies(st'.log) == LogBodies(st.log) + Bodies(evs[0]);
      LogHoldsEveryEvent(clock, st', evs[1..]);
      var n := DeliverAll(clock, st', evs[1..]).delivered;
      assert evs[..n + 1][0] == evs[0] && evs[..n + 1][1..] == evs[1..][..n];
    }
  }

  lemma LogStampsSnoc(log: seq<Message>, m: Message)
    ensures LogStamps(log + [m]) == LogStamps(log) + if m.Stamped? then [m.timestamp] else []
  {
    assert (log + [m])[..|log|] == log;
  }

  lemma TimestampsCons(s: Stamp, ss: seq<Stamp>)
    ensures Timestamps([s] + ss) == [s.ns] + Timestamps(ss)
  {
  }

  /** One callback adds its call's timestamp, if it makes a call, and leaves the clock to the next one. */
  lemma StepStamps(clock: seq<nat>, st: FeedState, ev: Event, k: nat)
    requires Deliver(clock, st, ev).Delivered?
    ensures
      var st' := Deliver(clock, st, ev).st;
      LogStamps(st'.log) + Timestamps(Calls(clock, st'.pos, st'.epoch, k)) ==
      LogStamps(st.log) + Timestamps(Calls(clock, st.pos, st.epoch, (if IsStamped(ev) then 1 else 0) + k))
  {
    if IsStamped(ev) {
      var r := Call(clock, st.pos, st.epoch);
      LogStampsSnoc(st.log, Stamped(r.ns, Bodies(ev)[0]));
      TimestampsCons(Stamp(r.at, r.ns, r.epoch), Calls(clock, r.at + 1, r.epoch, k));
    } else if ev.Cancel? || ev.Replace? {
      LogStampsSnoc(st.log, Blank(Bodies(ev)[0]));
    }
  }

  /** The log's timestamps are those of a plain run of calls; events that send no timestamp leave the clock alone. */
  lemma {:induction false} LogStampsAreCalls(clock: seq<nat>, st: FeedState, evs: seq<Event>)
    ensures
      var r := DeliverAll(clock, st, evs);
      LogStamps(r.st.log) == LogStamps(st.log) + Timestamps(Calls(clock, st.pos, st.epoch, StampedCount(evs)))
    decreases |evs|
  {
    if evs == [] {
    } else if Deliver(clock, st, evs[0]).Delivered? {
      LogStampsAreCalls(clock, Deliver(clock, st, evs[0]).st, evs[1..]);
      StepStamps(clock, st, evs[0], StampedCount(evs[1..]));
    }
  }

  lemma {:induction false} DeliveredIfCallsReturn(clock: seq<nat>, st: FeedState, evs: seq<Event>)
    requires |Calls(clock, st.pos, st.epoch, StampedCount(evs))| == StampedCount(evs)
    ensures DeliverAll(clock, st, evs).delivered == |evs|
    decreases |evs|
  {
    if evs == [] {
    } else {
      DeliveredIfCallsReturn(clock, Deliver(clock, st, evs[0]).st, evs[1..]);
    }
  }

  /** Liveness: on a clock that never goes back every callback gets through, given a reading for each
      stamped message and two for each day the readings span. */
  lemma EverythingIsDelivered(clock: seq<nat>, evs: seq<Event>)
    requires InHorizon(clock) && NonDecreasing(clock) && 0 < |clock|
    requires |clock| >= StampedCount(evs) + 2 * (1 + Day(clock[|clock| - 1]) - Day(clock[0]))
    ensures DeliverAll(clock, FeedState(0, 0, []), evs).delivered == |evs|
  {
    RunReturns(clock, 0, 0, StampedCount(evs));
    DeliveredIfCallsReturn(clock, FeedState(0, 0, []), evs);
  }

  lemma LogStampsFromStart(clock: seq<nat>, evs: seq<Event>)
    ensures LogStamps(DeliverAll(clock, FeedState(0, 0, []), evs).st.log) ==
            Timestamps(Calls(clock, 0, 0, StampedCount(evs)))
  {
    LogStampsAreCalls(clock, FeedState(0, 0, []), evs);
    assert LogStamps([]) == [];
  }

  /** On any clock the i-th timestamp of the log is the time of day of a reading, each message's reading later
      in the clock's sequence than the one before. */
  lemma FeedStampsAreTimesOfDay(clock: seq<nat>, evs: seq<Event>, i: nat)
    requires InHorizon(clock) && i < |LogStamps(DeliverAll(clock, FeedState(0, 0, []), evs).st.log)|
    ensures
      var ss := Calls(clock, 0, 0, StampedCount(evs));
      && i < |ss| && ss[i].at < |clock| && (i > 0 ==> ss[i - 1].at < ss[i].at)
      && IsStampOf(LogStamps(DeliverAll(clock, FeedState(0, 0, []), evs).st.log)[i], clock[ss[i].at])
  {
    LogStampsFromStart(clock, evs);
    var n := StampedCount(evs);
    var ss := Calls(clock, 0, 0, n);
    CallsRefineModDay(clock, 0, 0, n, i);
    if i > 0 {
      CallsRefineModDay(clock, 0, 0, n, i - 1);
      CallsFollow(clock, 0, 0, n, i);
      var j := CallShape(clock, ss[i - 1].at + 1, ss[i - 1].epoch);
    }
  }

  /** Reading time off the feed: for callbacks on one thread and a clock that never goes back, the reader's
      clock is exact between any two stamped messages if and only if every gap between them is readable. */
  lemma FeedTimeUnwraps(clock: seq<nat>, evs: seq<Event>)
    requires InHorizon(clock) && NonDecreasing(clock)
    ensures
      var ss := Calls(clock, 0, 0, StampedCount(evs));
      && LogStamps(DeliverAll(clock, FeedState(0, 0, []), evs).st.log) == Timestamps(ss)
      && AllStampsAt(clock, ss)
      && (ReaderIsExact(Times(clock, ss), Timestamps(ss)) <==> GapsReadable(Times(clock, ss), Timestamps(ss)))
  {
    LogStampsFromStart(clock, evs);
    UnwrapIsExact(clock, 0, 0, StampedCount(evs));
  }

  // ---------------------------------------------------------------------------
  // Reading the events back
  // ---------------------------------------------------------------------------

  /** What a reader can know of an event. */
  datatype Seen =
    | SeenAdd(id: string, buy: bool, shares: int, stock: string, price: int)
    | SeenFill(id: string, shares: int, printable: bool, price: int)
    | SeenTrade(shares: int, stock: string, price: int)
    | SeenCancel
    | SeenReplace
    | Unreadable

  function Shown(price: int, priced: bool): int {
    if priced then price else 0
  }

  /** The part of an event that its message can carry, with its price or, unless `priced`, without: the matched
      order of a fill is not in it, and of a cancel or a replace only that it happened. */
  function Truth(ev: Event, priced: bool): seq<Seen> {
    match ev
    case Accept(o) => [SeenAdd(Decimal(o.number), o.buy, o.qty, o.symbol, Shown(o.price, priced))]
    case Fill(o, _, qty, cost) => [SeenFill(Decimal(o.number), qty, true, Shown(cost, priced))]
    case Cancel(_) => [SeenCancel]
    case Replace(_, _, _) => [SeenReplace]
    case Trade(symbol, qty, cost) => [SeenTrade(qty, symbol, Shown(cost, priced))]
    case _ => []
  }

  function Truths(evs: seq<Event>, priced: bool): seq<Seen>
    decreases |evs|
  {
    if evs == [] then [] else Truth(evs[0], priced) + Truths(evs[1..], priced)
  }

  function Id(reference: int): string {
    if reference < 0 then "-" + Decimal(-reference) else Decimal(reference)
  }

  /** A reader of the wire format: a side is "B" or "S", a printable flag "Y" or "N". */
  function Decode(b: Body, priced: bool): Seen {
    match b
    case AddOrder(r, side, shares, stock, price) =>
      if side == "B" || side == "S" then SeenAdd(Id(r), side == "B", shares, stock, Shown(price * 100, priced))
      else Unreadable
    case OrderExecuted(r, shares, printable, price) =>
      if printable == "Y" || printable == "N" then SeenFill(Id(r), shares, printable == "Y", Shown(price * 100, priced))
      else Unreadable
    case TradeReport(shares, stock, price) => SeenTrade(shares, stock, Shown(price * 100, priced))
    case OrderCancel => SeenCancel
    case OrderReplace => SeenReplace
  }

  function DecodeAll(bs: seq<Body>, priced: bool): seq<Seen> {
    seq(|bs|, i requires 0 <= i < |bs| => Decode(bs[i], priced))
  }

  predicate SendablePrice(price: int) {
    FitsInt32(price) && price % 100 == 0
  }

  /** The events the wire format of this feed can carry, prices included or not. */
  predicate Sendable(ev: Event, priced: bool) {
    match ev
    case Accept(o) => o.number <= LONG_MAX && (priced ==> SendablePrice(o.price))
    case Fill(o, _, _, cost) => o.number <= LONG_MAX && (priced ==> SendablePrice(cost))
    case Trade(_, _, cost) => priced ==> SendablePrice(cost)
    case _ => true
  }

  /** The reader's id is the order id that `strtol` takes to the reference, for every 64-bit reference. */
  lemma IdOfReference(reference: int)
    requires LONG_MIN <= reference <= LONG_MAX
    ensures Strtol(Id(reference)) == reference
  {
    var sign, n := if reference < 0 then "-" else "", if reference < 0 then -reference else reference;
    StrtolReads("", sign, n, "");
    assert "" + (sign + (Decimal(n) + "")) == Id(reference);
  }

  lemma IdRoundTrip(n: nat)
    ensures Id(Reference(n)) == Decimal(n) <==> n <= LONG_MAX
  {
    ReferenceRoundTrip(n);
    DecimalReadsBack(n);
    if n > LONG_MAX {
      DecimalReadsBack(LONG_MAX);
    }
  }

  lemma PriceRoundTrip(price: int)
    ensures ToItchPrice(price) * 100 == price <==> SendablePrice(price)
  {
    PriceSurvives(price);
  }

  /** What a reader can know of one event is read back if and only if the event is sendable. */
  lemma EventRoundTrip(ev: Event, priced: bool)
    ensures |Bodies(ev)| == |Truth(ev, priced)| <= 1
    ensures DecodeAll(Bodies(ev), priced) == Truth(ev, priced) <==> Sendable(ev, priced)
  {
    if Bodies(ev) != [] {
      assert DecodeAll(Bodies(ev), priced) == [Decode(Bodies(ev)[0], priced)];
      match ev
      case Accept(o) =>
        IdRoundTrip(o.number);
        PriceRoundTrip(o.price);
      case Fill(o, _, _, cost) =>
        IdRoundTrip(o.number);
        PriceRoundTrip(cost);
      case Trade(_, _, cost) =>
        PriceRoundTrip(cost);
      case _ =>
    }
  }

  ghost predicate AllSendable(evs: seq<Event>, priced: bool) {
    forall i :: 0 <= i < |evs| ==> Sendable(evs[i], priced)
  }

  lemma AllSendableCons(ev: Event, rest: seq<Event>, priced: bool)
    ensures AllSendable([ev] + rest, priced) <==> Sendable(ev, priced) && AllSendable(rest, priced)
  {
    if AllSendable([ev] + rest, priced) {
      assert Sendable(([ev] + rest)[0], priced);
      forall i | 0 <= i < |rest|
        ensures Sendable(rest[i], priced)
      {
        assert Sendable(([ev] + rest)[i + 1], priced);
      }
    }
  }

  lemma DecodeConcat(a: seq<Body>, b: seq<Body>, priced: bool)
    ensures DecodeAll(a + b, priced) == DecodeAll(a, priced) + DecodeAll(b, priced)
  {
  }

  lemma {:induction false} HistoryRoundTrip(evs: seq<Event>, priced: bool)
    ensures |BodiesOf(evs)| == |Truths(evs, priced)|
    ensures DecodeAll(BodiesOf(evs), priced) == Truths(evs, priced) <==> AllSendable(evs, priced)
    decreases |evs|
  {
    if evs == [] {
    } else {
      var ev, rest := evs[0], evs[1..];
      EventRoundTrip(ev, priced);
      HistoryRoundTrip(rest, priced);
      DecodeConcat(Bodies(ev), BodiesOf(rest), priced);
      var front, back := DecodeAll(Bodies(ev), priced), DecodeAll(BodiesOf(rest), priced);
      SamePieces(front, back, Truth(ev, priced), Truths(rest, priced));
      AllSendableCons(ev, rest, priced);
      assert [ev] + rest == evs;
    }
  }

  lemma SamePieces<T>(a: seq<T>, b: seq<T>, c: seq<T>, d: seq<T>)
    requires |a| == |c|
    ensures a + b == c + d <==> a == c && b == d
  {
    if a + b == c + d {
      assert a == (a + b)[..|a|] && b == (a + b)[|a|..];
      assert c == (c + d)[..|c|] && d == (c + d)[|c|..];
    }
  }

  /** Feed round trip: reading a sequential feed back gives, in order, every accept, every fill with its first
      order, every trade, and that a cancel or a replace happened, of the history delivered, if and only if every
      event of it is sendable; with prices left aside, if and only if the order numbers fit. */
  lemma FeedRoundTrip(clock: seq<nat>, evs: seq<Event>, priced: bool)
    ensures
      var r := DeliverAll(clock, FeedState(0, 0, []), evs);
      r.delivered <= |evs| &&
      (DecodeAll(LogBodies(r.st.log), priced) == Truths(evs[..r.delivered], priced) <==>
       AllSendable(evs[..r.delivered], priced))
  {
    LogHoldsEveryEvent(clock, FeedState(0, 0, []), evs);
    var r := DeliverAll(clock, FeedState(0, 0, []), evs);
    assert LogBodies(r.st.log) == BodiesOf(evs[..r.delivered]);
    HistoryRoundTrip(evs[..r.delivered], priced);
  }
}
