/** The simulated broker: orders rest, fill, expire or are cancelled, and fills move the ledger. */
module Broker {
  import opened Costs
  import opened Options
  import opened Ledger
  import opened FillEngine

  datatype Status = Resting | Complete | Partial | Expired | Cancelled

  datatype Entry = Entry(order: Order, status: Status, fills: seq<FillResult>, placedAt: int)

  /** A fill, the candle index that was current when it was made, and the order as it then stood. */
  datatype Executed = Executed(fill: Fill, at: int, order: Order)

  /** `log` is the history of fills: nothing in the broker reads it. */
  datatype State = State(
    cfg: Config, candles: seq<Candle>, rng: Rng, cursor: nat, index: int,
    orders: map<nat, Entry>, counter: nat, account: Account, last: Prices, log: seq<Executed>)

  function ExitLabel(order: Order): string {
    if order.reason != "" then order.reason
    else if order.kind in {SL, SLM} then "stop"
    else if order.kind == Limit then "target"
    else "signal"
  }

  function EntryLabel(order: Order): string {
    if order.reason != "" then order.reason else "signal"
  }

  function CostOfValue(cfg: Config, order: Order, tradedValue: real): CostEstimate {
    EstimateCost(order.side, tradedValue, SegmentFor(order.instrument, order.product),
                 Percent(tradedValue, cfg.slippagePct), cfg.cost)
  }

  function CostOf(cfg: Config, order: Order, price: real, qty: int): CostEstimate {
    CostOfValue(cfg, order, qty as real * price)
  }

  /** An order is charged for its own side and segment, on price times quantity, with the configured
      share of that as slippage. */
  lemma CostIsOfItsSegment(cfg: Config, order: Order, price: real, qty: int, value: real, seg: CostSegment,
      slippage: real)
    requires value == qty as real * price && slippage == value * cfg.slippagePct / 100.0
    requires seg == SegmentFor(order.instrument, order.product)
    ensures CostOf(cfg, order, price, qty) == EstimateCost(order.side, value, seg, slippage, cfg.cost)
  {
    assert Percent(value, cfg.slippagePct) == slippage;
  }

  lemma CostGrowsWithValue(cfg: Config, order: Order, small: real, large: real)
    requires NonNegativeRates(cfg.cost) && 0.0 <= small <= large
    ensures CostOfValue(cfg, order, small).total <= CostOfValue(cfg, order, large).total
  {
    ShareGrows(small, large, cfg.slippagePct);
    TotalIsMonotone(order.side, small, large, SegmentFor(order.instrument, order.product),
                    Percent(small, cfg.slippagePct), Percent(large, cfg.slippagePct), cfg.cost);
  }

  /** What a fill is charged grows with its traded value, slippage included. */
  lemma ChargeGrowsWithValue(cfg: Config, order: Order, price: real, qty: int, higher: real, more: int)
    requires NonNegativeRates(cfg.cost) && 0.0 <= qty as real * price <= more as real * higher
    ensures CostOf(cfg, order, price, qty).total <= CostOf(cfg, order, higher, more).total
  {
    CostGrowsWithValue(cfg, order, qty as real * price, more as real * higher);
  }

  function MakeFill(order: Order, price: real, qty: int, cost: CostEstimate, id: nat): Fill {
    Fill(id, order.symbol, order.side, qty, price, cost.total, cost.slippage, EntryLabel(order), ExitLabel(order))
  }

  /** Books a fill and its order's new entry. */
  function Apply(s: State, f: Fill, e: Entry): State {
    s.(account := Post(s.account, f), last := s.last[f.symbol := f.price],
       log := s.log + [Executed(f, s.index, e.order)], orders := s.orders[f.orderId := e])
  }

  function DoneStatus(partial: bool): Status {
    if partial then Partial else Complete
  }

  /** What the fill engine makes of an order now, and what that would cost. */
  datatype Try = Try(attempt: Attempt, cost: CostEstimate)

  function TryNow(s: State, order: Order): Try {
    var attempt := SimulateFill(s.cfg, s.candles, s.index, order, s.rng, s.cursor);
    match attempt.result
    case Filled(price, qty, _) => Try(attempt, CostOf(s.cfg, order, price, qty))
    case _ => Try(attempt, CostEstimate(0.0, 0.0, 0.0, 0.0, 0.0, 0.0, 0.0, 0.0))
  }

  /** Books an order under the next id, given what the fill engine made of it. */
  function PlaceWith(s: State, order: Order, try: Try): State {
    var id := s.counter + 1;
    var t := s.(counter := id, cursor := try.attempt.cursor);
    match try.attempt.result
    case Rejected => t
    case Pending => t.(orders := t.orders[id := Entry(order, Resting, [], s.index)])
    case Filled(price, qty, partial) =>
      Apply(t, MakeFill(order, price, qty, try.cost, id),
            Entry(order, DoneStatus(partial), [try.attempt.result], s.index))
  }

  function Place(s: State, order: Order): State {
    PlaceWith(s, order, TryNow(s, order))
  }

  predicate Waiting(s: State, id: nat) {
    id in s.orders && s.orders[id].status == Resting
  }

  predicate TimedOut(s: State, id: nat)
    requires id in s.orders
  {
    s.index - s.orders[id].placedAt > s.cfg.fillTimeout
  }

  function Expire(s: State, id: nat): State
    requires id in s.orders
  {
    s.(orders := s.orders[id := s.orders[id].(status := Expired)])
  }

  function RetryWith(s: State, id: nat, try: Try): State
    requires id in s.orders
  {
    var e := s.orders[id];
    var t := s.(cursor := try.attempt.cursor);
    match try.attempt.result
    case Filled(price, qty, partial) =>
      Apply(t, MakeFill(e.order, price, qty, try.cost, id),
            e.(status := DoneStatus(partial), fills := e.fills + [try.attempt.result]))
    case _ => t
  }

  /** One turn of the retry loop. */
  function Retry(s: State, id: nat): State {
    if !Waiting(s, id) then s
    else if TimedOut(s, id) then Expire(s, id)
    else RetryWith(s, id, TryNow(s, s.orders[id].order))
  }

  /** Orders are retried in the order they were placed. */
  function Sweep(s: State, upTo: nat): State {
    if upTo == 0 then s else Retry(Sweep(s, upTo - 1), upTo)
  }

  function Mark(s: State): State {
    if 0 <= s.index < |s.candles|
    then s.(last := s.last[s.candles[s.index].symbol := s.candles[s.index].close])
    else s
  }

  function OnCandle(s: State, index: int): State {
    Mark(Sweep(s.(index := index), s.counter))
  }

  datatype Changes = Changes(qty: Option<int>, price: Option<real>, trigger: Option<real>)

  function Amend(order: Order, c: Changes): Order {
    order.(qty := c.qty.GetOr(order.qty), price := c.price.GetOr(order.price),
           trigger := if c.trigger.Some? then c.trigger else order.trigger)
  }

  function Modify(s: State, id: nat, c: Changes): State {
    if id !in s.orders then s
    else s.(orders := s.orders[id := s.orders[id].(order := Amend(s.orders[id].order, c))])
  }

  function Cancel(s: State, id: nat): State {
    if id !in s.orders then s else s.(orders := s.orders[id := s.orders[id].(status := Cancelled)])
  }

  function Started(cfg: Config, candles: seq<Candle>, rng: Rng): State {
    State(cfg, candles, rng, 0, -1, map[], 0, Opened(cfg.initialCapital), map[], [])
  }

  // ----- runs

  datatype Event =
    | PlaceOrder(order: Order) | ModifyOrder(id: nat, changes: Changes) | CancelOrder(id: nat) | CandleAt(index: int)

  function Step(s: State, e: Event): State {
    match e
    case PlaceOrder(order) => Place(s, order)
    case ModifyOrder(id, changes) => Modify(s, id, changes)
    case CancelOrder(id) => Cancel(s, id)
    case CandleAt(index) => OnCandle(s, index)
  }

  function Run(s: State, events: seq<Event>): State {
    if events == [] then s else Step(Run(s, events[..|events|-1]), events[|events|-1])
  }

  function Fills(log: seq<Executed>): (fills: seq<Fill>)
    ensures |fills| == |log| && forall k :: 0 <= k < |log| ==> fills[k] == log[k].fill
  {
    seq(|log|, k requires 0 <= k < |log| => log[k].fill)
  }

  type Orders = map<nat, Entry>

  /** Each log entry is the one fill of one order, and each fill of an order is in the log. */
  ghost predicate History(orders: Orders, counter: nat, log: seq<Executed>) {
    && (forall id :: id in orders ==> 1 <= id <= counter && Accounted(orders, log, id))
    && (forall i, j :: 0 <= i < j < |log| ==> log[i].fill.orderId != log[j].fill.orderId)
    && (forall k :: 0 <= k < |log| ==> Explained(orders, log[k]))
  }

  ghost predicate Explained(orders: Orders, x: Executed) {
    var id := x.fill.orderId;
    && id in orders && orders[id].status in {Complete, Partial, Cancelled}
    && |orders[id].fills| == 1 && orders[id].fills[0].Filled?
    && (orders[id].status == Partial ==> orders[id].fills[0].partial)
    && (orders[id].status == Complete ==> !orders[id].fills[0].partial)
    && orders[id].fills[0].price == x.fill.price && orders[id].fills[0].qty == x.fill.qty
    && orders[id].order.symbol == x.fill.symbol && orders[id].order.side == x.fill.side
  }

  ghost predicate Accounted(orders: Orders, log: seq<Executed>, id: nat)
    requires id in orders
  {
    && (orders[id].status in {Resting, Expired} ==> orders[id].fills == [])
    && (orders[id].status in {Complete, Partial} ==> orders[id].fills != [])
    && (orders[id].fills != [] ==> exists k :: 0 <= k < |log| && log[k].fill.orderId == id)
  }

  /** The log explains the orders and the ledger. */
  ghost predicate Logged(s: State) {
    && History(s.orders, s.counter, s.log)
    && s.account == Replay(s.cfg.initialCapital, Fills(s.log))
  }

  predicate FilledBy(e: Entry, f: Fill) {
    && |e.fills| == 1 && e.fills[0].Filled? && e.fills[0].price == f.price && e.fills[0].qty == f.qty
    && e.status == (if e.fills[0].partial then Partial else Complete)
    && e.order.symbol == f.symbol && e.order.side == f.side
  }

  lemma FillKeepsHistory(orders: Orders, counter: nat, log: seq<Executed>, e: Entry, x: Executed)
    requires History(orders, counter, log) && 1 <= x.fill.orderId <= counter && FilledBy(e, x.fill)
    requires x.fill.orderId in orders ==> orders[x.fill.orderId].status == Resting
    ensures History(orders[x.fill.orderId := e], counter, log + [x])
  {
    var id := x.fill.orderId;
    var orders', log' := orders[id := e], log + [x];
    forall k | 0 <= k < |log| ensures log[k].fill.orderId != id && Explained(orders', log'[k]) {
      assert Explained(orders, log[k]);
    }
    forall i | i in orders' ensures 1 <= i <= counter && Accounted(orders', log', i) {
      if i == id {
        assert log'[|log|].fill.orderId == id;
      } else {
        OthersStayAccounted(orders, log, e, x, i);
      }
    }
  }

  lemma OthersStayAccounted(orders: Orders, log: seq<Executed>, e: Entry, x: Executed, i: nat)
    requires i in orders && Accounted(orders, log, i) && i != x.fill.orderId
    ensures Accounted(orders[x.fill.orderId := e], log + [x], i)
  {
    if orders[i].fills != [] {
      var k :| 0 <= k < |log| && log[k].fill.orderId == i;
      assert (log + [x])[k] == log[k];
    }
  }

  /** Changing an entry without filling it. */
  lemma EditKeepsHistory(orders: Orders, counter: nat, log: seq<Executed>, id: nat, e: Entry)
    requires History(orders, counter, log) && 1 <= id <= counter
    requires if id in orders
             then e.fills == orders[id].fills && e.order.symbol == orders[id].order.symbol
                  && e.order.side == orders[id].order.side
                  && (e.status == orders[id].status || e.status == Cancelled
                      || (orders[id].status == Resting && e.status == Expired))
             else e.fills == [] && e.status == Resting
    ensures History(orders[id := e], counter, log)
  {
    var orders' := orders[id := e];
    forall k | 0 <= k < |log| ensures Explained(orders', log[k]) {
      assert Explained(orders, log[k]);
    }
    forall i | i in orders' ensures 1 <= i <= counter && Accounted(orders', log, i) {
      if i in orders {
        assert Accounted(orders, log, i);
      }
    }
  }

  lemma ApplyKeepsLogged(s: State, f: Fill, e: Entry)
    requires Logged(s) && 1 <= f.orderId <= s.counter
             && (f.orderId in s.orders ==> s.orders[f.orderId].status == Resting)
    requires FilledBy(e, f)
    ensures Logged(Apply(s, f, e))
  {
    var x := Executed(f, s.index, e.order);
    FillKeepsHistory(s.orders, s.counter, s.log, e, x);
    assert Fills(s.log + [x])[..|s.log|] == Fills(s.log);
  }

  lemma NextIdKeepsLogged(s: State, cursor: nat)
    requires Logged(s)
    ensures Logged(s.(counter := s.counter + 1, cursor := cursor)) && s.counter + 1 !in s.orders
  {
  }

  lemma RestingKeepsLogged(t: State, e: Entry)
    requires Logged(t) && t.counter >= 1 && t.counter !in t.orders && e.fills == [] && e.status == Resting
    ensures Logged(t.(orders := t.orders[t.counter := e]))
  {
    EditKeepsHistory(t.orders, t.counter, t.log, t.counter, e);
  }

  lemma ParkKeepsLogged(s: State, order: Order, try: Try)
    requires Logged(s) && try.attempt.result.Pending?
    ensures Logged(PlaceWith(s, order, try))
  {
    NextIdKeepsLogged(s, try.attempt.cursor);
    RestingKeepsLogged(s.(counter := s.counter + 1, cursor := try.attempt.cursor), Entry(order, Resting, [], s.index));
  }

  lemma RejectKeepsLogged(s: State, order: Order, try: Try)
    requires Logged(s) && try.attempt.result.Rejected?
    ensures Logged(PlaceWith(s, order, try))
  {
    NextIdKeepsLogged(s, try.attempt.cursor);
  }

  lemma FillNowKeepsLogged(s: State, order: Order, try: Try)
    requires Logged(s) && try.attempt.result.Filled?
    ensures Logged(PlaceWith(s, order, try))
  {
    NextIdKeepsLogged(s, try.attempt.cursor);
    var t, r := s.(counter := s.counter + 1, cursor := try.attempt.cursor), try.attempt.result;
    ApplyKeepsLogged(t, MakeFill(order, r.price, r.qty, try.cost, t.counter),
                     Entry(order, DoneStatus(r.partial), [r], s.index));
  }

  lemma PlaceKeepsLogged(s: State, order: Order, try: Try)
    requires Logged(s)
    ensures Logged(PlaceWith(s, order, try))
  {
    if try.attempt.result.Filled? {
      FillNowKeepsLogged(s, order, try);
    } else if try.attempt.result.Pending? {
      ParkKeepsLogged(s, order, try);
    } else {
      RejectKeepsLogged(s, order, try);
    }
  }

  lemma RetryKeepsLogged(s: State, id: nat, try: Try)
    requires Logged(s) && Waiting(s, id)
    ensures Logged(RetryWith(s, id, try)) && Logged(Expire(s, id))
  {
    var e, r := s.orders[id], try.attempt.result;
    assert Accounted(s.orders, s.log, id);
    EditKeepsHistory(s.orders, s.counter, s.log, id, e.(status := Expired));
    if r.Filled? {
      assert e.fills + [r] == [r];
      ApplyKeepsLogged(s.(cursor := try.attempt.cursor), MakeFill(e.order, r.price, r.qty, try.cost, id),
                       e.(status := DoneStatus(r.partial), fills := e.fills + [r]));
    }
  }

  lemma {:induction false} SweepKeepsLogged(s: State, upTo: nat)
    requires Logged(s)
    ensures Logged(Sweep(s, upTo))
  {
    if upTo > 0 {
      SweepKeepsLogged(s, upTo - 1);
      var t := Sweep(s, upTo - 1);
      if Waiting(t, upTo) {
        RetryKeepsLogged(t, upTo, TryNow(t, t.orders[upTo].order));
      }
    }
  }

  lemma StepKeepsLogged(s: State, e: Event)
    requires Logged(s)
    ensures Logged(Step(s, e))
  {
    match e
    case PlaceOrder(order) => PlaceKeepsLogged(s, order, TryNow(s, order));
    case ModifyOrder(id, changes) =>
      if id in s.orders {
        EditKeepsHistory(s.orders, s.counter, s.log, id, s.orders[id].(order := Amend(s.orders[id].order, changes)));
      }
    case CancelOrder(id) =>
      if id in s.orders {
        EditKeepsHistory(s.orders, s.counter, s.log, id, s.orders[id].(status := Cancelled));
      }
    case CandleAt(index) => SweepKeepsLogged(s.(index := index), s.counter);
  }

  /** In every run whatever, each order is filled at most once and the ledger is the replay of
      the fills: no order moves the account twice, and nothing else moves it at all. */
  lemma {:induction false} RunIsLogged(cfg: Config, candles: seq<Candle>, rng: Rng, events: seq<Event>)
    ensures Logged(Run(Started(cfg, candles, rng), events))
  {
    if events != [] {
      RunIsLogged(cfg, candles, rng, events[..|events|-1]);
      StepKeepsLogged(Run(Started(cfg, candles, rng), events[..|events|-1]), events[|events|-1]);
    }
  }
}
