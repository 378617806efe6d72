/**
 The market's fan-out of one matching event to the orders it touches and to the data feed, and
 what a reader of the feed can tell about an order's open quantity.
 */
module Market {
  import opened Wire
  import opened Feed

  // ---------------------------------------------------------------------------
  // One order's open quantity
  // ---------------------------------------------------------------------------

  /** Quantity left on order `n` after the order's own handlers have run for `ev`. A fill is applied to both
      orders; a replacement's change of size passes through a 32-bit parameter. */
  function LeavesStep(n: nat, leaves: int, ev: Event): int {
    match ev
    case Fill(o, m, qty, _) => leaves - (if o.number == n then qty else 0) - (if m.number == n then qty else 0)
    case Cancel(o) => if o.number == n then 0 else leaves
    case Reject(o) => if o.number == n then 0 else leaves
    case Replace(o, delta, _) => if o.number == n then leaves + ToInt32(delta) else leaves
    case _ => leaves
  }

  function Leaves(n: nat, leaves: int, evs: seq<Event>): int
    decreases |evs|
  {
    if evs == [] then leaves else Leaves(n, LeavesStep(n, leaves, evs[0]), evs[1..])
  }

  // ---------------------------------------------------------------------------
  // The same quantity, kept by a reader of the feed
  // ---------------------------------------------------------------------------

  function OpenChange(b: Body, reference: int): int {
    match b
    case AddOrder(r, _, shares, _, _) => if r == reference then shares else 0
    case OrderExecuted(r, shares, _, _) => if r == reference then -shares else 0
    case _ => 0
  }

  /** Shares added less shares executed under a reference. */
  function Open(bs: seq<Body>, reference: int): int
    decreases |bs|
  {
    if bs == [] then 0 else OpenChange(bs[0], reference) + Open(bs[1..], reference)
  }

  /** Shares reported executed under a reference. */
  function Executed(bs: seq<Body>, reference: int): int
    decreases |bs|
  {
    if bs == [] then 0
    else
      (if bs[0].OrderExecuted? && bs[0].reference == reference then bs[0].executedShares else 0) +
      Executed(bs[1..], reference)
  }

  /** Quantity filled on order `n` as the first order of a fill. */
  function FilledFirst(n: nat, evs: seq<Event>): int
    decreases |evs|
  {
    if evs == [] then 0
    else (if evs[0].Fill? && evs[0].order.number == n then evs[0].qty else 0) + FilledFirst(n, evs[1..])
  }

  lemma OneBody(ev: Event, rest: seq<Event>, reference: int)
    ensures
      BodiesOf([ev] + rest) == Bodies(ev) + BodiesOf(rest) &&
      Open(BodiesOf([ev] + rest), reference) ==
        (if Bodies(ev) == [] then 0 else OpenChange(Bodies(ev)[0], reference)) + Open(BodiesOf(rest), reference)
    ensures
      Executed(BodiesOf([ev] + rest), reference) ==
        (if Bodies(ev) != [] && Bodies(ev)[0].OrderExecuted? && Bodies(ev)[0].reference == reference
         then Bodies(ev)[0].executedShares else 0) + Executed(BodiesOf(rest), reference)
  {
    assert ([ev] + rest)[1..] == rest;
    if Bodies(ev) != [] {
      assert Bodies(ev) == [Bodies(ev)[0]];
      assert ([Bodies(ev)[0]] + BodiesOf(rest))[1..] == BodiesOf(rest);
    } else {
      assert Bodies(ev) + BodiesOf(rest) == BodiesOf(rest);
    }
  }

  /** Conservation: the shares the feed reports executed under an order's reference are the shares filled on
      it as first order, for every order whose reference is its own. */
  lemma {:induction false} ExecutedIsFilled(n: nat, evs: seq<Event>)
    requires n < LONG_MAX
    ensures Executed(BodiesOf(evs), Reference(n)) == FilledFirst(n, evs)
    decreases |evs|
  {
    if evs == [] {
    } else {
      OneBody(evs[0], evs[1..], Reference(n));
      assert [evs[0]] + evs[1..] == evs;
      ExecutedIsFilled(n, evs[1..]);
      if evs[0].Fill? {
        ReferencesCollide(evs[0].order.number, n);
      }
    }
  }

  // ---------------------------------------------------------------------------
  // How far the two can drift apart
  // ---------------------------------------------------------------------------

  /** Quantity that leaves order `n` in `ev` with no word of it on the feed. */
  function UnreportedStep(n: nat, leaves: int, ev: Event): int {
    match ev
    case Fill(_, m, qty, _) => if m.number == n then qty else 0
    case Cancel(o) => if o.number == n then leaves else 0
    case Reject(o) => if o.number == n then leaves else 0
    case Replace(o, delta, _) => if o.number == n then -ToInt32(delta) else 0
    case _ => 0
  }

  function Unreported(n: nat, leaves: int, evs: seq<Event>): int
    decreases |evs|
  {
    if evs == [] then 0
    else UnreportedStep(n, leaves, evs[0]) + Unreported(n, LeavesStep(n, leaves, evs[0]), evs[1..])
  }

  /** Quantity announced for order `n` by accepts. */
  function Announced(n: nat, evs: seq<Event>): int
    decreases |evs|
  {
    if evs == [] then 0
    else (if evs[0].Accept? && evs[0].order.number == n then evs[0].order.qty else 0) + Announced(n, evs[1..])
  }

  /** Bookkeeping for the result below: event by event, what the reader's figure and the order's drift apart by. */
  lemma {:induction false} ReaderBalance(n: nat, leaves: int, evs: seq<Event>)
    requires n < LONG_MAX
    ensures Open(BodiesOf(evs), Reference(n)) - Leaves(n, leaves, evs) ==
            Announced(n, evs) - leaves + Unreported(n, leaves, evs)
    decreases |evs|
  {
    if evs == [] {
    } else {
      var ev := evs[0];
      OneBody(ev, evs[1..], Reference(n));
      assert [ev] + evs[1..] == evs;
      ReaderBalance(n, LeavesStep(n, leaves, ev), evs[1..]);
      if ev.Accept? || ev.Fill? {
        ReferencesCollide(ev.order.number, n);
      }
    }
  }

  /** `ev` does not replace order `n`, and does not fill it by less than nothing or more than its `leaves`. */
  predicate Plain(n: nat, leaves: int, ev: Event) {
    && !(ev.Replace? && ev.order.number == n)
    && (ev.Fill? && (ev.order.number == n || ev.matched.number == n) ==> ev.qty >= 0)
    && LeavesStep(n, leaves, ev) >= 0
  }

  /** `ev` takes nothing from order `n`, with `leaves` left, that the feed does not report: it is no fill that names
      the order as the matched one, and no cancel or reject of an order with quantity left. */
  predicate Told(n: nat, leaves: int, ev: Event) {
    match ev
    case Fill(_, m, qty, _) => m.number == n ==> qty == 0
    case Cancel(o) => o.number == n ==> leaves == 0
    case Reject(o) => o.number == n ==> leaves == 0
    case _ => true
  }

  ghost predicate AllPlain(n: nat, leaves: int, evs: seq<Event>) {
    forall i :: 0 <= i < |evs| ==> Plain(n, Leaves(n, leaves, evs[..i]), evs[i])
  }

  ghost predicate AllTold(n: nat, leaves: int, evs: seq<Event>) {
    forall i :: 0 <= i < |evs| ==> Told(n, Leaves(n, leaves, evs[..i]), evs[i])
  }

  lemma LeavesAfterFirst(n: nat, leaves: int, evs: seq<Event>, i: nat)
    requires i < |evs|
    ensures Leaves(n, leaves, evs[..i + 1]) == Leaves(n, LeavesStep(n, leaves, evs[0]), evs[1..][..i])
  {
    assert evs[..i + 1][1..] == evs[1..][..i];
  }

  lemma AllPlainTail(n: nat, leaves: int, evs: seq<Event>)
    requires evs != [] && AllPlain(n, leaves, evs)
    ensures Plain(n, leaves, evs[0]) && AllPlain(n, LeavesStep(n, leaves, evs[0]), evs[1..])
  {
    assert Plain(n, Leaves(n, leaves, evs[..0]), evs[0]);
    forall i | 0 <= i < |evs[1..]|
      ensures Plain(n, Leaves(n, LeavesStep(n, leaves, evs[0]), evs[1..][..i]), evs[1..][i])
    {
      LeavesAfterFirst(n, leaves, evs, i);
      assert Plain(n, Leaves(n, leaves, evs[..i + 1]), evs[i + 1]);
    }
  }

  lemma AllToldSplit(n: nat, leaves: int, evs: seq<Event>)
    requires evs != []
    ensures AllTold(n, leaves, evs) <==>
            Told(n, leaves, evs[0]) && AllTold(n, LeavesStep(n, leaves, evs[0]), evs[1..])
  {
    var leaves' := LeavesStep(n, leaves, evs[0]);
    assert Leaves(n, leaves, evs[..0]) == leaves;
    forall i | 0 <= i < |evs[1..]|
      ensures Told(n, Leaves(n, leaves', evs[1..][..i]), evs[1..][i]) <==>
              Told(n, Leaves(n, leaves, evs[..i + 1]), evs[i + 1])
    {
      LeavesAfterFirst(n, leaves, evs, i);
    }
    if Told(n, leaves, evs[0]) && AllTold(n, leaves', evs[1..]) {
      forall i | 0 <= i < |evs|
        ensures Told(n, Leaves(n, leaves, evs[..i]), evs[i])
      {
        if i > 0 {
          assert Told(n, Leaves(n, leaves', evs[1..][..i - 1]), evs[1..][i - 1]);
        }
      }
    }
    if AllTold(n, leaves, evs) {
      assert Told(n, Leaves(n, leaves, evs[..0]), evs[0]);
      forall i | 0 <= i < |evs[1..]|
        ensures Told(n, Leaves(n, leaves', evs[1..][..i]), evs[1..][i])
      {
        assert Told(n, Leaves(n, leaves, evs[..i + 1]), evs[i + 1]);
      }
    }
  }

  lemma {:induction false} UnreportedIsUntold(n: nat, leaves: int, evs: seq<Event>)
    requires leaves >= 0 && AllPlain(n, leaves, evs)
    ensures Unreported(n, leaves, evs) >= 0
    ensures Unreported(n, leaves, evs) == 0 <==> AllTold(n, leaves, evs)
    decreases |evs|
  {
    if evs == [] {
    } else {
      AllPlainTail(n, leaves, evs);
      UnreportedIsUntold(n, LeavesStep(n, leaves, evs[0]), evs[1..]);
      AllToldSplit(n, leaves, evs);
    }
  }

  /** Order `n`, announced with its quantity, is never replaced and never overfilled. */
  ghost predicate Tracked(n: nat, qty: int, evs: seq<Event>) {
    n < LONG_MAX && qty >= 0 && Announced(n, evs) == qty && AllPlain(n, qty, evs)
  }

  /** "Keeping track of ALL transactions" from the feed, for an order announced with its quantity, never replaced and
      never overfilled: the reader's open quantity is right if and only if no fill named the order as the matched
      one and nothing was left of it at any cancel or reject; otherwise it is too high. */
  lemma ReaderTracksReportedOnly(n: nat, qty: int, evs: seq<Event>)
    requires Tracked(n, qty, evs)
    ensures Open(BodiesOf(evs), Reference(n)) >= Leaves(n, qty, evs)
    ensures Open(BodiesOf(evs), Reference(n)) == Leaves(n, qty, evs) <==> AllTold(n, qty, evs)
  {
    ReaderBalance(n, qty, evs);
    UnreportedIsUntold(n, qty, evs);
  }

  /** The reader goes wrong on the plainest history: an order rests and is then hit by another. */
  lemma RestingOrderIsMisread(resting: Order, other: Order)
    requires resting.number < LONG_MAX && resting.number != other.number && resting.qty > 0
    ensures
      var n := resting.number;
      var evs := [Accept(resting), Accept(other), Fill(other, resting, resting.qty, resting.price)];
      && Open(BodiesOf(evs), Reference(n)) == resting.qty
      && Leaves(n, resting.qty, evs) == 0
  {
    var n := resting.number;
    var rests, hits, fill := Accept(resting), Accept(other), Fill(other, resting, resting.qty, resting.price);
    ReferencesCollide(other.number, n);
    OneBody(fill, [], Reference(n));
    OneBody(hits, [fill], Reference(n));
    OneBody(rests, [hits, fill], Reference(n));
    assert [fill] + [] == [fill] && [hits] + [fill] == [hits, fill] && [rests] + [hits, fill] == [rests, hits, fill];
    assert [rests, hits, fill][1..] == [hits, fill] && [hits, fill][1..] == [fill] && [fill][1..] == [];
    assert Leaves(n, 0, []) == 0 && Leaves(n, resting.qty, [fill]) == 0;
  }

  // ---------------------------------------------------------------------------
  // The objects
  // ---------------------------------------------------------------------------

  class LiveOrder {
    const order: Order
    var leavesQty: int

    constructor (order: Order)
      ensures this.order == order && leavesQty == order.qty
    {
      this.order := order;
      leavesQty := order.qty;
    }

    method OnFilled(fillQty: int)
      modifies this
      ensures leavesQty == old(leavesQty) - fillQty
    {
      leavesQty := leavesQty - fillQty;
    }

    method OnCancelled()
      modifies this
      ensures leavesQty == 0
    {
      leavesQty := 0;
    }

    method OnRejected()
      modifies this
      ensures leavesQty == 0
    {
      leavesQty := 0;
    }

    method OnReplaced(sizeDelta: int)
      requires FitsInt32(sizeDelta)
      modifies this
      ensures leavesQty == old(leavesQty) + sizeDelta
    {
      leavesQty := leavesQty + sizeDelta;
    }
  }

  /** Different objects are different orders. */
  predicate Distinct(a: LiveOrder, b: LiveOrder) {
    a != b ==> a.order.number != b.order.number
  }

  /** The live orders, by number. */
  type Orders = map<nat, LiveOrder>

  predicate ByNumber(orders: Orders) {
    forall n :: n in orders ==> orders[n].order.number == n
  }

  /** The event's orders are live ones. */
  predicate About(ev: Event, orders: Orders) {
    match ev
    case Accept(o) => IsLive(o, orders)
    case Fill(o, m, _, _) => IsLive(o, orders) && IsLive(m, orders)
    case Cancel(o) => IsLive(o, orders)
    case Replace(o, _, _) => IsLive(o, orders)
    case Reject(o) => IsLive(o, orders)
    case _ => true
  }

  predicate IsLive(o: Order, orders: Orders) {
    o.number in orders && orders[o.number].order == o
  }

  /** The events the market has passed to the orders: those delivered, and the one the feed got stuck on. */
  function Handled(evs: seq<Event>, delivered: nat): seq<Event> {
    if delivered < |evs| then evs[..delivered + 1] else evs
  }

  lemma HandledCons(ev: Event, rest: seq<Event>, delivered: nat)
    requires delivered <= |rest|
    ensures Handled([ev] + rest, delivered + 1) == [ev] + Handled(rest, delivered)
  {
  }

  class Market {
    const dataFeed: DataFeed

    constructor (dataFeed: DataFeed)
      ensures this.dataFeed == dataFeed
    {
      this.dataFeed := dataFeed;
    }

    method OnAccept(o: LiveOrder) returns (ok: bool)
      requires dataFeed.Valid()
      modifies dataFeed
      ensures dataFeed.Valid()
      ensures Deliver(dataFeed.clock, old(dataFeed.State()), Accept(o.order)) ==
              if ok then Delivered(dataFeed.State()) else Stuck(dataFeed.State())
    {
      ok := dataFeed.OnAccept(o.order);
    }

    /** Both orders are filled, even if they are one object; the feed hears of it once. */
    method OnFill(o: LiveOrder, matched: LiveOrder, qty: int, cost: int) returns (ok: bool)
      requires dataFeed.Valid() && Distinct(o, matched)
      modifies dataFeed, o, matched
      ensures dataFeed.Valid()
      ensures
        var ev := Fill(o.order, matched.order, qty, cost);
        && o.leavesQty == LeavesStep(o.order.number, old(o.leavesQty), ev)
        && matched.leavesQty == LeavesStep(matched.order.number, old(matched.leavesQty), ev)
        && Deliver(dataFeed.clock, old(dataFeed.State()), ev) ==
           if ok then Delivered(dataFeed.State()) else Stuck(dataFeed.State())
    {
      o.OnFilled(qty);
      matched.OnFilled(qty);
      ok := dataFeed.OnFill(o.order, matched.order, qty, cost);
    }

    method OnCancel(o: LiveOrder)
      requires dataFeed.Valid()
      modifies dataFeed, o
      ensures dataFeed.Valid() && o.leavesQty == LeavesStep(o.order.number, old(o.leavesQty), Cancel(o.order))
      ensures Deliver(dataFeed.clock, old(dataFeed.State()), Cancel(o.order)) == Delivered(dataFeed.State())
    {
      o.OnCancelled();
      dataFeed.OnCancel(o.order);
    }

    method OnReject(o: LiveOrder)
      requires dataFeed.Valid()
      modifies o
      ensures dataFeed.Valid() && o.leavesQty == LeavesStep(o.order.number, old(o.leavesQty), Reject(o.order))
      ensures Deliver(dataFeed.clock, old(dataFeed.State()), Reject(o.order)) == Delivered(dataFeed.State())
    {
      o.OnRejected();
    }

    method OnReplace(o: LiveOrder, sizeDelta: int, newPrice: int)
      requires dataFeed.Valid()
      modifies dataFeed, o
      ensures dataFeed.Valid()
      ensures o.leavesQty == LeavesStep(o.order.number, old(o.leavesQty), Replace(o.order, sizeDelta, newPrice))
      ensures Deliver(dataFeed.clock, old(dataFeed.State()), Replace(o.order, sizeDelta, newPrice)) ==
              Delivered(dataFeed.State())
    {
      o.OnReplaced(ToInt32(sizeDelta));
      dataFeed.OnReplace(o.order, sizeDelta, newPrice);
    }

    /** One event of the matching engine reaches its orders and the feed, and no other order. */
    method OnEvent(ev: Event, orders: Orders) returns (ok: bool)
      requires dataFeed.Valid() && ByNumber(orders) && About(ev, orders)
      modifies dataFeed, orders.Values
      ensures dataFeed.Valid()
      ensures forall n :: n in orders ==> orders[n].leavesQty == LeavesStep(n, old(orders[n].leavesQty), ev)
      ensures Deliver(dataFeed.clock, old(dataFeed.State()), ev) ==
              if ok then Delivered(dataFeed.State()) else Stuck(dataFeed.State())
    {
      ok := true;
      match ev {
        case Accept(o) =>
          ok := OnAccept(orders[o.number]);
        case Fill(o, m, qty, cost) =>
          ok := OnFill(orders[o.number], orders[m.number], qty, cost);
        case Cancel(o) =>
          OnCancel(orders[o.number]);
        case Replace(o, delta, newPrice) =>
          OnReplace(orders[o.number], delta, newPrice);
        case Trade(symbol, qty, cost) =>
          ok := dataFeed.OnTrade(symbol, qty, cost);
        case Reject(o) =>
          OnReject(orders[o.number]);
        case _ =>
      }
    }

    /** A whole history through the market, up to an event the feed gets stuck on: the feed's state and every
        order's open quantity are those of the history. */
    method Play(evs: seq<Event>, orders: Orders) returns (delivered: nat)
      requires dataFeed.Valid() && ByNumber(orders)
      requires forall i :: 0 <= i < |evs| ==> About(evs[i], orders)
      modifies dataFeed, orders.Values
      ensures dataFeed.Valid() && delivered <= |evs|
      ensures DeliverAll(dataFeed.clock, old(dataFeed.State()), evs) == Session(dataFeed.State(), delivered)
      ensures forall n :: n in orders ==>
        orders[n].leavesQty == Leaves(n, old(orders[n].leavesQty), Handled(evs, delivered))
      decreases |evs|
    {
      if evs == [] {
        return 0;
      }
      ghost var rest := evs[1..];
      assert evs == [evs[0]] + rest;
      var ok := OnEvent(evs[0], orders);
      if ok {
        delivered := Play(evs[1..], orders);
        HandledCons(evs[0], rest, delivered);
        delivered := delivered + 1;
      } else {
        delivered := 0;
        assert Handled(evs, 0) == [evs[0]];
      }
    }

    /** A whole history from an empty feed and orders not yet filled. What was sent reads back as the history
        exactly when all its events fit the wire format. Once all of it is delivered, a reader's open quantity of
        any order is the object's own plus what was taken from the order without word of it, less what was never
        announced; of an order announced once, never replaced and never overfilled it is the object's own
        exactly when all was told. */
    method PlayFromOpening(evs: seq<Event>, orders: Orders, ghost priced: bool) returns (delivered: nat)
      requires dataFeed.Valid() && dataFeed.State() == FeedState(0, 0, []) && ByNumber(orders)
      requires forall n :: n in orders ==> orders[n].leavesQty == orders[n].order.qty
      requires forall i :: 0 <= i < |evs| ==> About(evs[i], orders)
      modifies dataFeed, orders.Values
      ensures delivered <= |evs|
      ensures DecodeAll(LogBodies(dataFeed.sent), priced) == Truths(evs[..delivered], priced) <==>
              AllSendable(evs[..delivered], priced)
      ensures delivered == |evs| ==>
        forall n :: n in orders && n < LONG_MAX ==>
          && Open(LogBodies(dataFeed.sent), Reference(n)) - orders[n].leavesQty ==
             Announced(n, evs) - orders[n].order.qty + Unreported(n, orders[n].order.qty, evs)
          && (Tracked(n, orders[n].order.qty, evs) ==>
                (Open(LogBodies(dataFeed.sent), Reference(n)) == orders[n].leavesQty <==>
                 AllTold(n, orders[n].order.qty, evs)))
    {
      delivered := Play(evs, orders);
      FeedRoundTrip(dataFeed.clock, evs, priced);
      LogHoldsEveryEvent(dataFeed.clock, FeedState(0, 0, []), evs);
      if delivered == |evs| {
        assert evs[..delivered] == evs;
        assert LogBodies(dataFeed.sent) == BodiesOf(evs);
        forall n | n in orders && n < LONG_MAX
          ensures Open(LogBodies(dataFeed.sent), Reference(n)) - orders[n].leavesQty ==
                  Announced(n, evs) - orders[n].order.qty + Unreported(n, orders[n].order.qty, evs)
          ensures Tracked(n, orders[n].order.qty, evs) ==>
                    (Open(LogBodies(dataFeed.sent), Reference(n)) == orders[n].leavesQty <==>
                     AllTold(n, orders[n].order.qty, evs))
        {
          ReaderBalance(n, orders[n].order.qty, evs);
          if Tracked(n, orders[n].order.qty, evs) {
            ReaderTracksReportedOnly(n, orders[n].order.qty, evs);
          }
        }
      }
    }
  }
}
