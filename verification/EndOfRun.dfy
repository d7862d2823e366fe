/** What a finished run reports: the account after the end-of-run close. */
module EndOfRun {
  import opened Costs
  import opened Options
  import opened Ledger
  import opened FillEngine
  import opened Broker
  import opened BrokerLifecycle
  import opened GatedRun

  lemma {:induction false} CloseEachIsKept(s: State, symbols: seq<string>, instrument: Option<InstrumentType>)
    requires Kept(s)
    ensures Kept(CloseEach(s, symbols, instrument))
  {
    if symbols != [] {
      var init, symbol := symbols[..|symbols|-1], symbols[|symbols|-1];
      CloseEachIsKept(s, init, instrument);
      var t := CloseEach(s, init, instrument);
      var qty := t.account.PositionOf(symbol).qty;
      if qty != 0 {
        PlacingIsKept(t, CloseOrder(symbol, qty, instrument));
      }
    }
  }

  lemma PlacingIsKept(s: State, order: Order)
    requires Kept(s) && order.qty >= 0
    ensures Kept(Place(s, order))
  {
    StepKeepsProper(s, PlaceOrder(order));
    StepKeepsLogged(s, PlaceOrder(order));
    StepKeepsUnits(s, PlaceOrder(order));
    RunKeepsMarket(s, [PlaceOrder(order)]);
    assert [PlaceOrder(order)][..0] == [];
  }

  /** What a run reports: the books balance, and the equity is capital plus the profit of the
      closed trades less the costs, but for the value of what is still open; so it is the cash
      when nothing is. */
  ghost predicate Reports(capital: real, a: Account, last: Prices) {
    var equity, settled := Equity(a, last), capital + PnlOf(a.trades) - a.totalCosts;
    && Balanced(capital, a)
    && equity == settled + MarketValue(a, last) - 2.0 * BookValue(a)
    && (IsFlat(a) ==> equity == a.cash == settled)
  }

  lemma BalancedReports(capital: real, a: Account, last: Prices)
    requires Balanced(capital, a)
    ensures Reports(capital, a, last)
  {
    EquityAccounts(capital, a, last);
  }

  lemma KeptCloses(before: State, instrument: Option<InstrumentType>, s: State)
    requires Kept(before) && s == CloseOpenPositions(before, instrument)
    ensures Kept(s) && s.cfg == before.cfg
  {
    CloseEachIsKept(before, before.account.symbols, instrument);
    CloseEachKeepsMarket(before, before.account.symbols, instrument);
  }

  /** Without partial fills nothing is left open exactly when nothing was open before or the close
      finds its candle. */
  ghost predicate ClosedExactly(before: State, s: State) {
    before.cfg.partialProbability <= 0.0 ==> (IsFlat(s.account) <==> IsFlat(before.account) || CandleAtHand(before))
  }

  lemma KeptIsClosedExactly(before: State, instrument: Option<InstrumentType>, s: State)
    requires before.account.Valid() && s == CloseOpenPositions(before, instrument)
    ensures ClosedExactly(before, s)
  {
    if before.cfg.partialProbability <= 0.0 {
      CloseReachesFlat(before, instrument);
    }
  }

  /** What any run reports after its end-of-run close, and when that has closed everything. */
  lemma FinalEquity(cfg: Config, candles: seq<Candle>, rng: Rng, events: seq<Event>, instrument: Option<InstrumentType>,
      symbol: string)
    requires UnitInterval(rng) && GoodPrices(cfg, candles)
    requires Admissible(Started(cfg, candles, rng), events) && AllAsk(events)
    ensures var before := Run(Started(cfg, candles, rng), events);
            var s := CloseOpenPositions(before, instrument);
      Reports(cfg.initialCapital, s.account, s.last) && AccountedFor(s, symbol) && ClosedExactly(before, s)
  {
    var before := Run(Started(cfg, candles, rng), events);
    RunIsKept(cfg, candles, rng, events);
    RunKeepsMarket(Started(cfg, candles, rng), events);
    KeptIsReported(before, instrument, CloseOpenPositions(before, instrument), symbol);
  }

  lemma KeptIsReported(before: State, instrument: Option<InstrumentType>, s: State, symbol: string)
    requires Kept(before) && s == CloseOpenPositions(before, instrument)
    ensures Reports(before.cfg.initialCapital, s.account, s.last) && AccountedFor(s, symbol) && ClosedExactly(before, s)
  {
    KeptCloses(before, instrument, s);
    KeptIsAccountedFor(s, symbol);
    BalancedReports(s.cfg.initialCapital, s.account, s.last);
    KeptIsAccountedFor(before, symbol);
    KeptIsClosedExactly(before, instrument, s);
  }
}
