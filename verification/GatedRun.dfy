/** A run: the broker, the risk gate in front of it, and everything a strategy may do to them. */
module GatedRun {
  import opened Collections
  import opened Costs
  import opened Options
  import opened Ledger
  import opened FillEngine
  import opened Broker
  import opened RiskGate

  datatype Session = Session(broker: State, gate: Option<Gate>)

  /** Places an order through the gate, if there is one. */
  function Submit(x: Session, order: Order): Session {
    if x.gate.None? then x.(broker := Place(x.broker, order))
    else
      var c := Check(x.gate.value, x.broker.account, x.broker.last, order);
      match c.verdict
      case RejectedBy(_) => x.(gate := Some(c.gate))
      case Approved(adjusted) =>
        Session(Place(x.broker, if adjusted.Some? then order.(qty := adjusted.value) else order), Some(c.gate))
  }

  // ----- closing what is open at the end

  function CloseOrder(symbol: string, qty: int, instrument: Option<InstrumentType>): Order {
    Order(symbol, if qty > 0 then Sell else Buy, OrderType.Market, AbsInt(qty), 0.0, None,
          instrument.GetOr(EQ), Intraday, "close_on_end")
  }

  function CloseOne(s: State, symbol: string, instrument: Option<InstrumentType>): State {
    var qty := s.account.PositionOf(symbol).qty;
    if qty == 0 then s else Place(s, CloseOrder(symbol, qty, instrument))
  }

  function CloseEach(s: State, symbols: seq<string>, instrument: Option<InstrumentType>): State {
    if symbols == [] then s
    else CloseOne(CloseEach(s, symbols[..|symbols|-1], instrument), symbols[|symbols|-1], instrument)
  }

  function CloseOpenPositions(s: State, instrument: Option<InstrumentType>): State {
    CloseEach(s, s.account.symbols, instrument)
  }

  // ----- actions

  datatype Action = Bar(index: int) | Signal(order: Order) | Snap | CloseOut(instrument: Option<InstrumentType>)

  function Act(x: Session, a: Action): Session {
    match a
    case Bar(index) => x.(broker := OnCandle(x.broker, index))
    case Signal(order) => Submit(x, order)
    case Snap => if x.gate.None? then x else x.(gate := Some(Snapshot(x.gate.value, x.broker.account, x.broker.last)))
    case CloseOut(instrument) => x.(broker := CloseOpenPositions(x.broker, instrument))
  }

  function Play(x: Session, actions: seq<Action>): Session {
    if actions == [] then x else Act(Play(x, actions[..|actions|-1]), actions[|actions|-1])
  }

  // ----- placing a market order with the candle at hand

  predicate CandleAtHand(s: State) {
    0 <= Target(s.cfg, s.index) < |s.candles|
  }

  predicate NothingResting(s: State) {
    forall id :: id in s.orders ==> s.orders[id].status != Resting
  }

  lemma MarketTryIsImmediate(s: State, order: Order)
    requires order.kind == OrderType.Market && CandleAtHand(s)
    ensures !TryNow(s, order).attempt.result.Pending?
  {
  }

  /** A placed order moves its own symbol's position at most. */
  lemma PlaceTouchesOneSymbol(s: State, order: Order, try: Try)
    ensures var t := PlaceWith(s, order, try);
      && (forall symbol :: symbol != order.symbol ==> t.account.PositionOf(symbol) == s.account.PositionOf(symbol))
      && (!try.attempt.result.Filled? ==> t.account == s.account)
      && t.cfg == s.cfg && t.candles == s.candles && t.index == s.index && t.rng == s.rng
      && (NothingResting(s) && !try.attempt.result.Pending? ==> NothingResting(t))
  {
  }

  lemma OpenSymbolsAfterPlace(s: State, order: Order, try: Try)
    ensures OpenSymbols(PlaceWith(s, order, try).account) <= OpenSymbols(s.account) + {order.symbol}
  {
    PlaceTouchesOneSymbol(s, order, try);
    var t := PlaceWith(s, order, try);
    forall symbol | symbol in OpenSymbols(t.account) ensures symbol in OpenSymbols(s.account) + {order.symbol} {
      if symbol != order.symbol {
        assert t.account.PositionOf(symbol) == s.account.PositionOf(symbol);
      }
    }
  }

  // ----- the position cap

  ghost predicate UnderCap(x: Session, cap: int) {
    && x.gate.Some? && x.gate.value.cfg.maxOpenPositions == cap > 0 && x.gate.value.cfg.maxRiskPerTradePct <= 0.0
    && CandleAtHand(x.broker) && x.broker.cfg.latency == 0 && NothingResting(x.broker)
    && |OpenSymbols(x.broker.account)| <= cap
  }

  /** Market orders only, and candles of the series. */
  predicate Usual(x: Session, a: Action) {
    match a
    case Bar(index) => 0 <= index < |x.broker.candles|
    case Signal(order) => order.kind == OrderType.Market
    case _ => true
  }

  lemma {:induction false} SweepOfNothing(s: State, upTo: nat)
    requires NothingResting(s)
    ensures Sweep(s, upTo) == s
  {
    if upTo > 0 {
      SweepOfNothing(s, upTo - 1);
    }
  }

  lemma PlaceStaysUnderCap(x: Session, order: Order, cap: int)
    requires UnderCap(x, cap) && order.kind == OrderType.Market
    requires order.symbol in OpenSymbols(x.broker.account) || |OpenSymbols(x.broker.account)| < cap
    ensures UnderCap(x.(broker := Place(x.broker, order)), cap)
  {
    var s, try := x.broker, TryNow(x.broker, order);
    MarketTryIsImmediate(s, order);
    PlaceTouchesOneSymbol(s, order, try);
    OpenSymbolsAfterPlace(s, order, try);
    SubsetCardinality(OpenSymbols(PlaceWith(s, order, try).account), OpenSymbols(s.account) + {order.symbol});
    if order.symbol in OpenSymbols(s.account) {
      assert OpenSymbols(s.account) + {order.symbol} == OpenSymbols(s.account);
    }
  }

  lemma SubmitStaysUnderCap(x: Session, order: Order, cap: int)
    requires UnderCap(x, cap) && order.kind == OrderType.Market
    ensures UnderCap(Submit(x, order), cap)
  {
    var g, a := x.gate.value, x.broker.account;
    var c := Check(g, a, x.broker.last, order);
    if c.verdict.Approved? {
      assert c.verdict == Approved(None);
      if !IsReducer(a, order) {
        FullApprovalRespectsLimits(g, a, x.broker.last, order);
      }
      PlaceStaysUnderCap(x, order, cap);
    }
  }

  lemma {:induction false} CloseEachStaysUnderCap(x: Session, symbols: seq<string>,
      instrument: Option<InstrumentType>, cap: int)
    requires UnderCap(x, cap)
    ensures UnderCap(x.(broker := CloseEach(x.broker, symbols, instrument)), cap)
  {
    if symbols != [] {
      CloseEachStaysUnderCap(x, symbols[..|symbols|-1], instrument, cap);
      var y := x.(broker := CloseEach(x.broker, symbols[..|symbols|-1], instrument));
      var symbol := symbols[|symbols|-1];
      if y.broker.account.PositionOf(symbol).qty != 0 {
        PlaceStaysUnderCap(y, CloseOrder(symbol, y.broker.account.PositionOf(symbol).qty, instrument), cap);
      }
    }
  }

  lemma ActStaysUnderCap(x: Session, a: Action, cap: int)
    requires UnderCap(x, cap) && Usual(x, a)
    ensures UnderCap(Act(x, a), cap) && Act(x, a).broker.candles == x.broker.candles
  {
    match a
    case Bar(index) => SweepOfNothing(x.broker.(index := index), x.broker.counter);
    case Signal(order) =>
      SubmitStaysUnderCap(x, order, cap);
      SubmitKeepsCandles(x, order);
    case Snap =>
    case CloseOut(instrument) =>
      CloseEachStaysUnderCap(x, x.broker.account.symbols, instrument, cap);
      CloseEachKeepsMarket(x.broker, x.broker.account.symbols, instrument);
  }

  lemma SubmitKeepsCandles(x: Session, order: Order)
    ensures Submit(x, order).broker.candles == x.broker.candles
  {
  }

  lemma {:induction false} CloseEachKeepsMarket(s: State, symbols: seq<string>, instrument: Option<InstrumentType>)
    ensures var t := CloseEach(s, symbols, instrument);
      t.cfg == s.cfg && t.candles == s.candles && t.index == s.index && t.rng == s.rng
  {
    if symbols != [] {
      CloseEachKeepsMarket(s, symbols[..|symbols|-1], instrument);
    }
  }

  ghost predicate AllUsual(x: Session, actions: seq<Action>) {
    forall a :: a in actions ==> Usual(x, a)
  }

  /** A new broker, before its first candle, behind a gate without position sizing. */
  ghost predicate AboutToStart(x: Session, cap: int) {
    && x.gate.Some? && x.gate.value.cfg.maxOpenPositions == cap > 0 && x.gate.value.cfg.maxRiskPerTradePct <= 0.0
    && x.broker == Started(x.broker.cfg, x.broker.candles, x.broker.rng) && x.broker.cfg.latency == 0
  }

  /** A run begins with a candle. */
  predicate StartsWithCandle(actions: seq<Action>) {
    actions != [] ==> actions[0].Bar?
  }

  lemma FirstCandleIsUnderCap(x: Session, index: int, cap: int)
    requires AboutToStart(x, cap) && 0 <= index < |x.broker.candles|
    ensures UnderCap(Act(x, Bar(index)), cap)
  {
    SweepOfNothing(x.broker.(index := index), 0);
    assert OpenSymbols(x.broker.account) == {};
  }

  /** With market orders, no latency and no position sizing, no run that starts with a new broker
      ever holds more open positions than the limit: not through reducers that flip, nor at the
      end-of-run close. */
  lemma {:induction false} PositionCapHolds(x: Session, actions: seq<Action>, cap: int)
    requires AboutToStart(x, cap) && AllUsual(x, actions) && StartsWithCandle(actions)
    ensures Play(x, actions).broker.candles == x.broker.candles
    ensures actions != [] ==> UnderCap(Play(x, actions), cap)
    ensures |OpenSymbols(Play(x, actions).broker.account)| <= cap
  {
    if actions == [] {
      assert OpenSymbols(x.broker.account) == {};
    } else {
      var init, last := actions[..|actions|-1], actions[|actions|-1];
      PositionCapHolds(x, init, cap);
      assert Usual(x, last);
      if init == [] {
        FirstCandleIsUnderCap(x, last.index, cap);
        SweepOfNothing(x.broker.(index := last.index), 0);
      } else {
        ActStaysUnderCap(Play(x, init), last, cap);
      }
    }
  }

  // ----- with everything switched off

  /** Nothing has ever been placed. */
  ghost predicate Untouched(x: Session) {
    x.broker.counter == 0 && x.broker.account == Opened(x.broker.cfg.initialCapital)
  }

  predicate SwitchedOff(x: Session) {
    x.gate.Some? && (x.gate.value.cfg.killSwitch || x.gate.value.cfg.emergencyStop)
  }

  /** Behind a kill switch or an emergency stop nothing is ever placed. */
  lemma {:induction false} NothingPlacedWhenSwitchedOff(x: Session, actions: seq<Action>)
    requires SwitchedOff(x) && Untouched(x)
    ensures SwitchedOff(Play(x, actions)) && Untouched(Play(x, actions))
  {
    if actions != [] {
      NothingPlacedWhenSwitchedOff(x, actions[..|actions|-1]);
    }
  }

  // ----- after a halt

  predicate NoCloseOut(actions: seq<Action>) {
    forall a :: a in actions ==> !a.CloseOut?
  }

  lemma {:induction false} SweepKeepsCounter(s: State, upTo: nat)
    ensures Sweep(s, upTo).counter == s.counter
  {
    if upTo > 0 {
      SweepKeepsCounter(s, upTo - 1);
    }
  }

  /** After the breaker has engaged no order is ever placed again, so every fill in the log,
      then or later, is of an order accepted before the halt; only the end-of-run close, which
      bypasses the gate, places more. */
  lemma {:induction false} NothingPlacedAfterHalt(x: Session, actions: seq<Action>)
    requires x.gate.Some? && x.gate.value.Halted() && Logged(x.broker) && NoCloseOut(actions)
    ensures var y := Play(x, actions);
      && HaltedAt(y, x.gate.value.accepted, x.broker.counter)
      && forall k :: 0 <= k < |y.broker.log| ==> y.broker.log[k].fill.orderId <= x.broker.counter
  {
    if actions != [] {
      assert actions[|actions|-1] in actions;
      NothingPlacedAfterHalt(x, actions[..|actions|-1]);
      ActAfterHalt(Play(x, actions[..|actions|-1]), actions[|actions|-1]);
    }
    LogIdsAreIssued(Play(x, actions).broker);
  }

  ghost predicate HaltedAt(x: Session, accepted: nat, counter: nat) {
    && x.gate.Some? && x.gate.value.Halted() && x.gate.value.accepted == accepted
    && Logged(x.broker) && x.broker.counter == counter
  }

  lemma ActAfterHalt(x: Session, a: Action)
    requires x.gate.Some? && HaltedAt(x, x.gate.value.accepted, x.broker.counter) && !a.CloseOut?
    ensures HaltedAt(Act(x, a), x.gate.value.accepted, x.broker.counter)
  {
    if a.Bar? {
      StepKeepsLogged(x.broker, CandleAt(a.index));
      SweepKeepsCounter(x.broker.(index := a.index), x.broker.counter);
    }
  }

  lemma LogIdsAreIssued(s: State)
    requires Logged(s)
    ensures forall k :: 0 <= k < |s.log| ==> s.log[k].fill.orderId <= s.counter
  {
    forall k | 0 <= k < |s.log| ensures s.log[k].fill.orderId <= s.counter {
      assert Explained(s.orders, s.log[k]);
    }
  }

  // ----- the end-of-run close

  /** Every symbol listed is flat; every other is as it was. */
  ghost predicate Flattened(s: State, t: State, symbols: seq<string>) {
    && t.account.positions.Keys == s.account.positions.Keys && t.account.symbols == s.account.symbols
    && forall symbol :: symbol in s.account.positions ==>
         if symbol in symbols then t.account.positions[symbol].qty == 0
         else t.account.positions[symbol] == s.account.positions[symbol]
  }

  lemma CloseFillsWhole(s: State, symbol: string, instrument: Option<InstrumentType>)
    requires s.cfg.partialProbability <= 0.0 && s.account.PositionOf(symbol).qty != 0
    ensures var order := CloseOrder(symbol, s.account.PositionOf(symbol).qty, instrument);
            var r := TryNow(s, order).attempt.result;
      if CandleAtHand(s) then r.Filled? && r.qty == order.qty else r.Pending?
  {
  }

  lemma CloseOneFlattens(s: State, symbol: string, instrument: Option<InstrumentType>, try: Try)
    requires symbol in s.account.positions && s.account.positions[symbol].qty != 0
    requires try.attempt.result.Filled? && try.attempt.result.qty == AbsInt(s.account.positions[symbol].qty)
    ensures Flattened(s, PlaceWith(s, CloseOrder(symbol, s.account.positions[symbol].qty, instrument), try), [symbol])
  {
  }

  lemma FlattenedFurther(s: State, t: State, u: State, symbols: seq<string>, symbol: string)
    requires Flattened(s, t, symbols) && Flattened(t, u, [symbol])
    ensures Flattened(s, u, symbols + [symbol])
  {
  }

  lemma {:induction false} CloseEachFlattens(s: State, symbols: seq<string>, instrument: Option<InstrumentType>)
    requires s.cfg.partialProbability <= 0.0 && CandleAtHand(s)
    requires forall symbol :: symbol in symbols ==> symbol in s.account.positions
    ensures Flattened(s, CloseEach(s, symbols, instrument), symbols)
  {
    if symbols != [] {
      var init, symbol := symbols[..|symbols|-1], symbols[|symbols|-1];
      assert symbol in symbols && forall other :: other in init ==> other in symbols;
      CloseEachFlattens(s, init, instrument);
      CloseEachKeepsMarket(s, init, instrument);
      var t := CloseEach(s, init, instrument);
      if t.account.positions[symbol].qty != 0 {
        CloseFillsWhole(t, symbol, instrument);
        CloseOneFlattens(t, symbol, instrument,
                         TryNow(t, CloseOrder(symbol, t.account.positions[symbol].qty, instrument)));
      }
      FlattenedFurther(s, t, CloseEach(s, symbols, instrument), init, symbol);
      assert init + [symbol] == symbols;
    }
  }

  lemma {:induction false} CloseWithoutCandleDoesNothing(s: State, symbols: seq<string>,
      instrument: Option<InstrumentType>)
    requires s.cfg.partialProbability <= 0.0 && !CandleAtHand(s)
    ensures CloseEach(s, symbols, instrument).account == s.account
  {
    if symbols != [] {
      var init, symbol := symbols[..|symbols|-1], symbols[|symbols|-1];
      CloseWithoutCandleDoesNothing(s, init, instrument);
      CloseEachKeepsMarket(s, init, instrument);
      var t := CloseEach(s, init, instrument);
      if t.account.PositionOf(symbol).qty != 0 {
        CloseFillsWhole(t, symbol, instrument);
        var order := CloseOrder(symbol, t.account.PositionOf(symbol).qty, instrument);
        PlaceTouchesOneSymbol(t, order, TryNow(t, order));
      }
    }
  }

  /** Without partial fills, the end-of-run close leaves the account flat exactly when it was
      flat already or the candle its orders are evaluated on exists. */
  lemma CloseReachesFlat(s: State, instrument: Option<InstrumentType>)
    requires s.account.Valid() && s.cfg.partialProbability <= 0.0
    ensures IsFlat(CloseOpenPositions(s, instrument).account) <==> IsFlat(s.account) || CandleAtHand(s)
  {
    if CandleAtHand(s) {
      CloseEachFlattens(s, s.account.symbols, instrument);
    } else {
      CloseWithoutCandleDoesNothing(s, s.account.symbols, instrument);
    }
  }

  /** So at the last candle, with something open, the close works exactly when there is no
      latency: with any, its orders wait for a candle that never comes. */
  lemma CloseAtLastCandleNeedsZeroLatency(s: State, instrument: Option<InstrumentType>)
    requires s.account.Valid() && s.cfg.partialProbability <= 0.0 && s.cfg.latency >= 0
    requires s.candles != [] && s.index == |s.candles| - 1 && !IsFlat(s.account)
    ensures IsFlat(CloseOpenPositions(s, instrument).account) <==> s.cfg.latency == 0
  {
    CloseReachesFlat(s, instrument);
  }
}
