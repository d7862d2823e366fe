/** What holds of the broker over whole runs: when orders fill, at what prices, and what that
    does to the account. */
module BrokerLifecycle {
  import opened Costs
  import opened Options
  import opened Ledger
  import opened FillEngine
  import opened Broker
  import FifoLots

  /** What an order gets in a candle that trades through its levels: the price they name, inside
      the candle if that is well-formed, after slippage; and the whole quantity or a drawn part.
      Only a resting kind of order can ask for less than a unit, and gets just what it asks. */
  ghost predicate FairFill(cfg: Config, order: Order, c: Candle, price: real, qty: int) {
    && (qty != order.qty ==> PartOf(cfg, order, qty)) && (order.kind == OrderType.Market ==> qty >= 1)
    && FairPrice(cfg, order, c, price)
    && (c.NotNegative() && cfg.slippagePct <= 100.0 ==> price >= 0.0)
  }

  ghost predicate FairPrice(cfg: Config, order: Order, c: Candle, price: real) {
    exists level: real, base: real :: IsTrigger(order, level) && TradesAt(order, level, c, base)
      && TradesThrough(order, level, c) && (c.WellFormed() ==> c.low <= base <= c.high)
      && Slips(cfg, order, base, price)
  }

  /** No order is placed in the future. */
  ghost predicate Live(s: State) {
    forall id :: id in s.orders ==> s.orders[id].placedAt <= s.index
  }

  /** A fill was made at once or within the window, for its order as it then stood, and fairly in
      exactly the candle `latency` after the one current at the time.  Later amendments have
      changed no more of the order than its quantity, price and trigger. */
  ghost predicate Faithful(s: State, x: Executed) {
    && x.fill.orderId in s.orders
    && x.fill.symbol == x.order.symbol && x.fill.side == x.order.side
    && var e := s.orders[x.fill.orderId];
       && SameTerms(e.order, x.order)
       && e.placedAt <= x.at <= s.index
       && (x.at == e.placedAt || x.at - e.placedAt <= s.cfg.fillTimeout)
       && 0 <= Target(s.cfg, x.at) < |s.candles|
       && FairFill(s.cfg, x.order, s.candles[Target(s.cfg, x.at)], x.fill.price, x.fill.qty)
       && Charged(s.cfg, x.order, x.fill) && Labelled(x.order, x.fill)
  }

  /** The fill is charged what the order's segment costs at its value. */
  predicate Charged(cfg: Config, order: Order, f: Fill) {
    var cost := CostOf(cfg, order, f.price, f.qty);
    f.charge == cost.total && f.slippage == cost.slippage
  }

  /** A trade is labelled with the reason of the order that opened it and of the one that closed
      it; without one, a closing order is labelled by its kind. */
  predicate Labelled(order: Order, f: Fill) {
    if order.reason != "" then f.entryLabel == f.exitLabel == order.reason
    else
      && f.entryLabel == "signal"
      && f.exitLabel == match order.kind
                        case Market => "signal"
                        case Limit => "target"
                        case _ => "stop"
  }

  /** Equal but for what an amendment can change. */
  predicate SameTerms(a: Order, b: Order) {
    a.(qty := 0, price := 0.0, trigger := None) == b.(qty := 0, price := 0.0, trigger := None)
  }

  ghost predicate AllFaithful(s: State) {
    forall k :: 0 <= k < |s.log| ==> Faithful(s, s.log[k])
  }

  ghost predicate Proper(s: State) {
    UnitInterval(s.rng) && Live(s) && AllFaithful(s)
  }

  /** What the fill engine can answer, and what that costs. */
  ghost predicate Plausible(s: State, order: Order, try: Try) {
    var r := try.attempt.result;
    r.Filled? ==>
      && try.cost == CostOf(s.cfg, order, r.price, r.qty)
      && 0 <= Target(s.cfg, s.index) < |s.candles|
      && FairFill(s.cfg, order, s.candles[Target(s.cfg, s.index)], r.price, r.qty)
  }

  lemma BaseIsFair(cfg: Config, order: Order, c: Candle)
    requires BasePrice(order, c).Some?
    ensures var price := FinalPrice(cfg, order, BasePrice(order, c).value);
      FairPrice(cfg, order, c, price) && (c.NotNegative() && cfg.slippagePct <= 100.0 ==> price >= 0.0)
  {
    LevelsSettleThePrice(order, TriggerOf(order), c);
    FinalPriceSlips(cfg, order, BasePrice(order, c).value);
    if c.WellFormed() {
      PriceLiesInCandle(order, c);
    }
    if c.NotNegative() && cfg.slippagePct <= 100.0 {
      BaseIsNotNegative(order, c);
      FinalPriceIsNotNegative(cfg, order, BasePrice(order, c).value);
    }
  }

  lemma TryIsPlausible(s: State, order: Order)
    requires UnitInterval(s.rng)
    ensures Plausible(s, order, TryNow(s, order))
  {
    var r := SimulateFill(s.cfg, s.candles, s.index, order, s.rng, s.cursor).result;
    FillQuantityInRange(s.cfg, s.candles, s.index, order, s.rng, s.cursor);
    if r.Filled? {
      BaseIsFair(s.cfg, order, s.candles[Target(s.cfg, s.index)]);
    }
  }

  predicate SameEntry(a: Entry, b: Entry) {
    a.placedAt == b.placedAt && SameTerms(a.order, b.order)
  }

  /** t follows s: the same market, a later or equal clock, the same orders on the same terms,
      perhaps some more. */
  ghost predicate Follows(s: State, t: State) {
    && t.cfg == s.cfg && t.candles == s.candles && t.rng == s.rng && s.index <= t.index
    && (forall id :: id in s.orders ==> id in t.orders && SameEntry(s.orders[id], t.orders[id]))
  }

  lemma OldFillsStayFaithful(s: State, t: State)
    requires AllFaithful(s) && Follows(s, t) && s.log == t.log
    ensures AllFaithful(t)
  {
    forall k | 0 <= k < |t.log| ensures Faithful(t, t.log[k]) {
      assert Faithful(s, s.log[k]);
    }
  }

  lemma NewFillIsFaithful(s: State, t: State, x: Executed)
    requires AllFaithful(s) && Follows(s, t) && t.log == s.log + [x] && Faithful(t, x)
    ensures AllFaithful(t)
  {
    forall k | 0 <= k < |t.log| ensures Faithful(t, t.log[k]) {
      if k < |s.log| {
        assert t.log[k] == s.log[k] && Faithful(s, s.log[k]);
        }
    }
  }

  lemma PlaceKeepsProper(s: State, order: Order, try: Try)
    requires Proper(s) && Plausible(s, order, try) && s.counter + 1 !in s.orders
    ensures Proper(PlaceWith(s, order, try))
  {
    var t := PlaceWith(s, order, try);
    assert Follows(s, t);
    if try.attempt.result.Filled? {
      var x := t.log[|s.log|];
      assert Faithful(t, x);
      NewFillIsFaithful(s, t, x);
    } else {
      OldFillsStayFaithful(s, t);
    }
  }

  lemma RetryKeepsProper(s: State, id: nat, try: Try)
    requires Proper(s) && Waiting(s, id) && !TimedOut(s, id) && Plausible(s, s.orders[id].order, try)
    ensures Proper(RetryWith(s, id, try)) && Follows(s, RetryWith(s, id, try))
  {
    var t := RetryWith(s, id, try);
    assert Follows(s, t);
    if try.attempt.result.Filled? {
      var x := t.log[|s.log|];
      assert Faithful(t, x);
      NewFillIsFaithful(s, t, x);
    } else {
      OldFillsStayFaithful(s, t);
    }
  }

  lemma EditKeepsProper(s: State, id: nat, e: Entry)
    requires Proper(s) && id in s.orders && SameEntry(s.orders[id], e)
    ensures Proper(s.(orders := s.orders[id := e]))
  {
    OldFillsStayFaithful(s, s.(orders := s.orders[id := e]));
  }

  lemma RetryOneKeepsProper(s: State, id: nat)
    requires Proper(s)
    ensures Proper(Retry(s, id))
  {
    if Waiting(s, id) {
      if TimedOut(s, id) {
        EditKeepsProper(s, id, s.orders[id].(status := Expired));
      } else {
        TryIsPlausible(s, s.orders[id].order);
        RetryKeepsProper(s, id, TryNow(s, s.orders[id].order));
      }
    }
  }

  lemma {:induction false} SweepKeepsProper(s: State, upTo: nat)
    requires Proper(s)
    ensures Proper(Sweep(s, upTo))
  {
    if upTo > 0 {
      SweepKeepsProper(s, upTo - 1);
      RetryOneKeepsProper(Sweep(s, upTo - 1), upTo);
    }
  }

  /** Candles come in order. */
  ghost predicate Allowed(s: State, e: Event) {
    e.CandleAt? ==> s.index <= e.index
  }

  ghost predicate Admissible(s: State, events: seq<Event>) {
    events != [] ==>
      && Admissible(s, events[..|events|-1])
      && Allowed(Run(s, events[..|events|-1]), events[|events|-1])
  }

  lemma StepKeepsProper(s: State, e: Event)
    requires Proper(s) && Logged(s) && Allowed(s, e)
    ensures Proper(Step(s, e))
  {
    match e
    case PlaceOrder(order) =>
      TryIsPlausible(s, order);
      PlaceKeepsProper(s, order, TryNow(s, order));
    case ModifyOrder(id, changes) =>
      if id in s.orders {
        EditKeepsProper(s, id, s.orders[id].(order := Amend(s.orders[id].order, changes)));
      }
    case CancelOrder(id) =>
      if id in s.orders {
        EditKeepsProper(s, id, s.orders[id].(status := Cancelled));
      }
    case CandleAt(index) => CandleKeepsProper(s, index);
  }

  lemma CandleKeepsProper(s: State, index: int)
    requires Proper(s) && s.index <= index
    ensures Proper(OnCandle(s, index))
  {
    OldFillsStayFaithful(s, s.(index := index));
    SweepKeepsProper(s.(index := index), s.counter);
    var swept := Sweep(s.(index := index), s.counter);
    OldFillsStayFaithful(swept, Mark(swept));
  }

  /** Every fill of every run over candles in order is faithful, whatever is asked and whatever
      the candles hold: made at once or within the window, from exactly the candle `latency`
      later, for at most the quantity then asked, at a price that before slippage respects the
      limit and the stop and lies in that candle if it is well-formed. */
  lemma {:induction false} RunIsProper(s: State, events: seq<Event>)
    requires Proper(s) && Logged(s) && Admissible(s, events)
    ensures Proper(Run(s, events)) && Logged(Run(s, events))
  {
    if events != [] {
      var t := Run(s, events[..|events|-1]);
      RunIsProper(s, events[..|events|-1]);
      StepKeepsLogged(t, events[|events|-1]);
      StepKeepsProper(t, events[|events|-1]);
    }
  }

  // ----- the resting window

  lemma {:induction false} SweepFrame(s: State, upTo: nat)
    ensures var t := Sweep(s, upTo);
      && t.index == s.index && t.cfg == s.cfg && t.candles == s.candles && t.rng == s.rng && t.counter == s.counter
      && t.orders.Keys == s.orders.Keys
      && forall id :: id in s.orders ==>
          t.orders[id].placedAt == s.orders[id].placedAt && (id > upTo ==> t.orders[id] == s.orders[id])
  {
    if upTo > 0 {
      SweepFrame(s, upTo - 1);
    }
  }

  lemma {:induction false} SweepExpires(s: State, upTo: nat, id: nat)
    requires 1 <= id <= upTo && Waiting(Sweep(s, upTo), id)
    ensures s.index - Sweep(s, upTo).orders[id].placedAt <= s.cfg.fillTimeout
  {
    SweepFrame(s, upTo);
    SweepFrame(s, upTo - 1);
    if id < upTo {
      assert Waiting(Sweep(s, upTo - 1), id);
      SweepExpires(s, upTo - 1, id);
    }
  }

  /** Once a candle has been processed no order is left resting beyond the window. */
  lemma NothingRestsBeyondTheWindow(s: State, index: int, id: nat)
    requires Logged(s) && Waiting(OnCandle(s, index), id)
    ensures index - OnCandle(s, index).orders[id].placedAt <= s.cfg.fillTimeout
  {
    var t := s.(index := index);
    SweepKeepsLogged(t, s.counter);
    SweepFrame(t, s.counter);
    SweepExpires(t, s.counter, id);
  }

  // ----- the account

  lemma {:induction false} RunKeepsMarket(s: State, events: seq<Event>)
    ensures var t := Run(s, events); t.cfg == s.cfg && t.candles == s.candles && t.rng == s.rng
  {
    if events != [] {
      var t := Run(s, events[..|events|-1]);
      RunKeepsMarket(s, events[..|events|-1]);
      if events[|events|-1].CandleAt? {
        SweepFrame(t.(index := events[|events|-1].index), t.counter);
      }
    }
  }

  /** No order or amendment asks for a negative quantity. */
  predicate AsksForUnits(e: Event) {
    match e
    case PlaceOrder(order) => order.qty >= 0
    case ModifyOrder(_, changes) => changes.qty.Some? ==> changes.qty.value >= 0
    case _ => true
  }

  ghost predicate AllAsk(events: seq<Event>) {
    forall e :: e in events ==> AsksForUnits(e)
  }

  /** No order of the book, nor any that was filled, asks for a negative quantity. */
  ghost predicate AsksAreUnits(s: State) {
    && (forall id :: id in s.orders ==> s.orders[id].order.qty >= 0)
    && (forall k :: 0 <= k < |s.log| ==> s.log[k].order.qty >= 0)
  }

  lemma {:induction false} SweepKeepsUnits(s: State, upTo: nat)
    requires AsksAreUnits(s)
    ensures AsksAreUnits(Sweep(s, upTo))
  {
    if upTo > 0 {
      SweepKeepsUnits(s, upTo - 1);
    }
  }

  lemma StepKeepsUnits(s: State, e: Event)
    requires AsksAreUnits(s) && AsksForUnits(e)
    ensures AsksAreUnits(Step(s, e))
  {
    if e.CandleAt? {
      SweepKeepsUnits(s.(index := e.index), s.counter);
    }
  }

  lemma {:induction false} RunKeepsUnits(s: State, events: seq<Event>)
    requires AsksAreUnits(s) && AllAsk(events)
    ensures AsksAreUnits(Run(s, events))
  {
    if events != [] {
      assert events[|events|-1] in events;
      RunKeepsUnits(s, events[..|events|-1]);
      StepKeepsUnits(Run(s, events[..|events|-1]), events[|events|-1]);
    }
  }

  /** No negative prices, and no slippage that would make one. */
  ghost predicate GoodPrices(cfg: Config, candles: seq<Candle>) {
    cfg.slippagePct <= 100.0 && forall k :: 0 <= k < |candles| ==> candles[k].NotNegative()
  }

  lemma ProperFillsAreRegular(s: State)
    requires Proper(s) && AsksAreUnits(s) && GoodPrices(s.cfg, s.candles)
    ensures AllRegular(Fills(s.log))
  {
    forall f | f in Fills(s.log) ensures Regular(f) {
      var k :| 0 <= k < |s.log| && Fills(s.log)[k] == f;
      assert Faithful(s, s.log[k]);
    }
  }

  /** The state is one that a run of the broker leaves, with a ledger that regular fills explain. */
  ghost predicate Kept(s: State) {
    Proper(s) && Logged(s) && AsksAreUnits(s) && GoodPrices(s.cfg, s.candles)
  }

  lemma RunIsKept(cfg: Config, candles: seq<Candle>, rng: Rng, events: seq<Event>)
    requires UnitInterval(rng) && GoodPrices(cfg, candles)
    requires Admissible(Started(cfg, candles, rng), events) && AllAsk(events)
    ensures Kept(Run(Started(cfg, candles, rng), events))
  {
    RunIsProper(Started(cfg, candles, rng), events);
    RunKeepsMarket(Started(cfg, candles, rng), events);
    RunKeepsUnits(Started(cfg, candles, rng), events);
  }

  /** The account has paid for all fills, and what it holds of a symbol stands against that
      symbol's own fills: it conserves units and cash, agrees with first-in-first-out matching,
      and averages the opening prices. */
  ghost predicate AccountedFor(s: State, symbol: string) {
    var mine, pos := Of(Fills(s.log), symbol), s.account.PositionOf(symbol);
    && Totals(s.cfg.initialCapital, Fills(s.log), s.account)
    && Conserved(mine, Holding(pos, TradesOf(s.account.trades, symbol)))
    && FifoLots.Agrees(pos, FifoLots.MatchAll(mine))
    && AveragesOpenings(pos, mine)
  }

  lemma KeptIsAccountedFor(s: State, symbol: string)
    requires Kept(s)
    ensures Balanced(s.cfg.initialCapital, s.account) && AccountedFor(s, symbol)
  {
    ProperFillsAreRegular(s);
    var fills := Fills(s.log);
    ReplayIsBalanced(s.cfg.initialCapital, fills);
    SymbolsAreIndependent(s.cfg.initialCapital, fills, symbol);
    OfKeepsRegular(fills, symbol);
    ReplayTotals(s.cfg.initialCapital, fills);
    HoldConserves(Of(fills, symbol));
    HeldAveragesOpenings(Of(fills, symbol));
    FifoLots.AverageCostAgainstFifo(Of(fills, symbol));
  }

  /** In every state that a run reaches, over candles in order and without negative prices or
      quantities, the books balance and every symbol is accounted for. */
  lemma ReachableStatesConserve(cfg: Config, candles: seq<Candle>, rng: Rng, events: seq<Event>, symbol: string)
    requires UnitInterval(rng) && GoodPrices(cfg, candles)
    requires Admissible(Started(cfg, candles, rng), events) && AllAsk(events)
    ensures var s := Run(Started(cfg, candles, rng), events);
      Balanced(cfg.initialCapital, s.account) && AccountedFor(s, symbol)
  {
    RunIsKept(cfg, candles, rng, events);
    RunKeepsMarket(Started(cfg, candles, rng), events);
    KeptIsAccountedFor(Run(Started(cfg, candles, rng), events), symbol);
  }
}
