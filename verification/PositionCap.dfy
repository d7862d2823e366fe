/** The position cap holds in every run exactly when position sizing is off: a clamped order is
    approved before any limit is looked at. */
module PositionCap {
  import opened Collections
  import opened Costs
  import opened Options
  import opened Ledger
  import opened FillEngine
  import opened Broker
  import opened RiskGate
  import opened GatedRun

  /** A new gate before a new broker that has candles to play and no latency. */
  ghost predicate Fresh(x: Session, cfg: RiskConfig) {
    && x.gate == Some(NewGate(x.broker.cfg.initialCapital, cfg))
    && x.broker == Started(x.broker.cfg, x.broker.candles, x.broker.rng)
    && x.broker.cfg.latency == 0 && x.broker.candles != []
  }

  ghost predicate CapAlwaysHolds(cfg: RiskConfig) {
    forall x, actions :: Fresh(x, cfg) && AllUsual(x, actions) && StartsWithCandle(actions)
      ==> |OpenSymbols(Play(x, actions).broker.account)| <= cfg.maxOpenPositions
  }

  /** Every run keeps to the cap exactly when sizing is off, or all trading is. */
  lemma CapHoldsExactlyWithoutSizing(cfg: RiskConfig)
    requires cfg.maxOpenPositions > 0
    ensures CapAlwaysHolds(cfg) <==> cfg.maxRiskPerTradePct <= 0.0 || cfg.killSwitch || cfg.emergencyStop
  {
    if cfg.maxRiskPerTradePct <= 0.0 || cfg.killSwitch || cfg.emergencyStop {
      forall x, actions | Fresh(x, cfg) && AllUsual(x, actions) && StartsWithCandle(actions)
        ensures |OpenSymbols(Play(x, actions).broker.account)| <= cfg.maxOpenPositions
      {
        CapHolds(x, cfg, actions);
      }
    } else {
      var x := AtParity(cfg);
      var actions := OpenMany(x, cfg, cfg.maxOpenPositions + 1);
      assert Fresh(x, cfg) && AllUsual(x, actions) && StartsWithCandle(actions);
      assert |OpenSymbols(Play(x, actions).broker.account)| > cfg.maxOpenPositions;
    }
  }

  lemma CapHolds(x: Session, cfg: RiskConfig, actions: seq<Action>)
    requires Fresh(x, cfg) && AllUsual(x, actions) && StartsWithCandle(actions) && cfg.maxOpenPositions > 0
    requires cfg.maxRiskPerTradePct <= 0.0 || cfg.killSwitch || cfg.emergencyStop
    ensures |OpenSymbols(Play(x, actions).broker.account)| <= cfg.maxOpenPositions
  {
    if cfg.maxRiskPerTradePct <= 0.0 {
      PositionCapHolds(x, actions, cfg.maxOpenPositions);
    } else {
      NothingPlacedWhenSwitchedOff(x, actions);
      assert OpenSymbols(Play(x, actions).broker.account) == {};
    }
  }

  /** A market that always trades at one, without slippage or partial fills. */
  function AtParity(cfg: RiskConfig): (x: Session)
    ensures Fresh(x, cfg) && ParityMarket(x)
  {
    var candle := Candle("X", 1.0, 1.0, 1.0, 1.0);
    Session(Started(Config(100000.0, 0.0, 0, 5, 0.0, DEFAULT_CONFIG), [candle], n => 0.0), Some(NewGate(100000.0, cfg)))
  }

  predicate ParityMarket(x: Session) {
    && x.broker.cfg.slippagePct == 0.0 && x.broker.cfg.partialProbability == 0.0 && x.broker.cfg.latency == 0
    && |x.broker.candles| == 1 && x.broker.candles[0].close == 1.0
  }

  ghost predicate Parity(x: Session, cfg: RiskConfig) {
    && x.gate.Some? && x.gate.value.cfg == cfg && !x.gate.value.Halted()
    && ParityMarket(x) && x.broker.index == 0
  }

  function Ticker(k: nat): string {
    seq(k, _ => 'X')
  }

  /** Exactly the first n tickers have positions, all of them long. */
  ghost predicate HoldsFirst(x: Session, n: nat) {
    && (forall k :: 0 <= k < n ==> Ticker(k) in x.broker.account.positions)
    && (forall k :: 0 <= k < n ==> x.broker.account.positions[Ticker(k)].qty > 0)
    && (forall symbol :: symbol in x.broker.account.positions ==> |symbol| < n)
  }

  /** An order big enough to be clamped. */
  function Oversized(x: Session, k: nat): Order
    requires x.gate.Some?
  {
    var budget := Equity(x.broker.account, x.broker.last) * x.gate.value.cfg.maxRiskPerTradePct / 100.0;
    Order(Ticker(k), Buy, OrderType.Market, if budget.Floor + 1 < 2 then 2 else budget.Floor + 1,
          1.0, None, EQ, Intraday, "")
  }

  lemma OversizedIsClamped(x: Session, cfg: RiskConfig, n: nat)
    requires Parity(x, cfg) && HoldsFirst(x, n) && cfg.maxRiskPerTradePct > 0.0 && !cfg.killSwitch && !cfg.emergencyStop
    ensures var g, a := x.gate.value, x.broker.account;
            var c := Check(g, a, x.broker.last, Oversized(x, n));
      c.verdict.Approved? && c.verdict.adjusted.Some? && c.verdict.adjusted.value >= 1
      && c.gate.cfg == g.cfg && c.gate.haltRule == g.haltRule
  {
    var g, a, order := x.gate.value, x.broker.account, Oversized(x, n);
    assert |Ticker(n)| == n && a.PositionOf(Ticker(n)) == FLAT;
    var m, r := Measure(g, a, x.broker.last), RequestOf(a, x.broker.last, order);
    var budget := m.equity * cfg.maxRiskPerTradePct / 100.0;
    assert r.price == 1.0 && !r.reducer && r.qty == order.qty;
    assert r.Value() == order.qty as real > budget;
    assert budget / r.price == budget;
    assert ClampTo(cfg, m.equity, r).Some?;
    ClampFitsBudget(cfg, m, r);
  }

  lemma BuyingOpens(x: Session, cfg: RiskConfig, n: nat, order: Order)
    requires Parity(x, cfg) && HoldsFirst(x, n)
    requires order.kind == OrderType.Market && order.side == Buy && order.qty >= 1 && order.symbol == Ticker(n)
    ensures var y := x.(broker := Place(x.broker, order)); Parity(y, cfg) && HoldsFirst(y, n + 1)
  {
    var try := TryNow(x.broker, order);
    var t := PlaceWith(x.broker, order, try);
    assert |Ticker(n)| == n && Ticker(n) !in x.broker.account.positions;
    MarketBuyFills(x.broker, order);
    NewPositionIsLong(x.broker, order, try);
    forall k | 0 <= k < n ensures Ticker(k) in t.account.positions && t.account.positions[Ticker(k)].qty > 0 {
      assert |Ticker(k)| == k;
    }
  }

  lemma MarketBuyFills(s: State, order: Order)
    requires CandleAtHand(s) && s.cfg.partialProbability == 0.0 && order.kind == OrderType.Market && order.qty >= 1
    ensures var r := TryNow(s, order).attempt.result; r.Filled? && r.qty == order.qty
  {
  }

  lemma NewPositionIsLong(s: State, order: Order, try: Try)
    requires order.symbol !in s.account.positions && order.side == Buy
    requires try.attempt.result.Filled? && try.attempt.result.qty >= 1
    ensures var t := PlaceWith(s, order, try).account;
      && t.positions.Keys == s.account.positions.Keys + {order.symbol}
      && t.positions[order.symbol].qty >= 1
      && forall symbol :: symbol in s.account.positions ==> t.positions[symbol] == s.account.positions[symbol]
  {
  }

  /** As many positions as one likes, past any cap. */
  lemma {:induction false} OpenMany(x: Session, cfg: RiskConfig, n: nat) returns (actions: seq<Action>)
    requires Fresh(x, cfg) && ParityMarket(x)
    requires cfg.maxRiskPerTradePct > 0.0 && !cfg.killSwitch && !cfg.emergencyStop
    ensures AllUsual(x, actions) && actions != [] && StartsWithCandle(actions)
    ensures Parity(Play(x, actions), cfg) && HoldsFirst(Play(x, actions), n)
    ensures |OpenSymbols(Play(x, actions).broker.account)| >= n
  {
    if n == 0 {
      actions := [Bar(0)];
      FirstCandleOpensNothing(x, cfg);
    } else {
      var init := OpenMany(x, cfg, n - 1);
      var order := OpenOneMore(Play(x, init), cfg, n - 1);
      actions := init + [Signal(order)];
      assert actions[..|actions|-1] == init;
    }
    ManyAreOpen(Play(x, actions), n);
  }

  lemma OpenOneMore(y: Session, cfg: RiskConfig, n: nat) returns (order: Order)
    requires Parity(y, cfg) && HoldsFirst(y, n) && cfg.maxRiskPerTradePct > 0.0 && !cfg.killSwitch && !cfg.emergencyStop
    ensures order.kind == OrderType.Market
    ensures Parity(Submit(y, order), cfg) && HoldsFirst(Submit(y, order), n + 1)
  {
    order := Oversized(y, n);
    OversizedIsClamped(y, cfg, n);
    var c := Check(y.gate.value, y.broker.account, y.broker.last, order);
    BuyingOpens(y, cfg, n, order.(qty := c.verdict.adjusted.value));
  }

  lemma FirstCandleOpensNothing(x: Session, cfg: RiskConfig)
    requires Fresh(x, cfg) && ParityMarket(x)
    ensures Parity(Play(x, [Bar(0)]), cfg) && HoldsFirst(Play(x, [Bar(0)]), 0)
  {
    assert [Bar(0)][..0] == [];
    SweepOfNothing(x.broker.(index := 0), 0);
  }

  lemma {:induction false} ManyAreOpen(x: Session, n: nat)
    requires HoldsFirst(x, n)
    ensures |OpenSymbols(x.broker.account)| >= n
  {
    var tickers := set k | 0 <= k < n :: Ticker(k);
    TickersDiffer(n);
    SubsetCardinality(tickers, OpenSymbols(x.broker.account));
  }

  lemma {:induction false} TickersDiffer(n: nat)
    ensures |set k | 0 <= k < n :: Ticker(k)| == n
  {
    var tickers := set k | 0 <= k < n :: Ticker(k);
    if n == 0 {
      assert tickers == {};
    } else {
      var fewer := set k | 0 <= k < n - 1 :: Ticker(k);
      TickersDiffer(n - 1);
      assert tickers == fewer + {Ticker(n - 1)};
      assert Ticker(n - 1) !in fewer by {
        assert forall k :: 0 <= k < n ==> |Ticker(k)| == k;
      }
    }
  }
}
