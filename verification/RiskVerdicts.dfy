/** What the gate decides, stated of the account and the configuration: which orders are cut to
    which size, and otherwise which rule is the first to stand in the way. */
module RiskVerdicts {
  import opened Costs
  import opened Options
  import opened Ledger
  import opened FillEngine
  import opened RiskGate

  /** The price an order is checked at: its own, or for want of one the last price seen. */
  predicate IsCheckedPrice(order: Order, last: Prices, price: real) {
    if order.price > 0.0 then price == order.price
    else if order.symbol in last then price == last[order.symbol]
    else price == 0.0
  }

  /** The order is on the other side of an open position. */
  predicate Reduces(a: Account, order: Order) {
    && order.symbol in a.positions
    && if order.side == Buy then a.positions[order.symbol].qty < 0 else a.positions[order.symbol].qty > 0
  }

  predicate MayTrade(g: Gate) {
    !g.Halted() && !g.cfg.killSwitch && !g.cfg.emergencyStop
  }

  // ----- sizing

  /** An order that may open or add is worth more than its share of the equity, and for two units
      at least. */
  predicate IsOversized(g: Gate, a: Account, last: Prices, order: Order, price: real) {
    && !Reduces(a, order) && g.cfg.maxRiskPerTradePct > 0.0 && price > 0.0 && AbsInt(order.qty) >= 2
    && AbsInt(order.qty) as real * price > Equity(a, last) * g.cfg.maxRiskPerTradePct / 100.0
  }

  lemma UnitsBelow(budget: real, r: Request)
    requires r.price > 0.0 && r.Value() > budget
    ensures (budget / r.price).Floor < r.qty
  {
    BudgetBelowValue(budget, r.qty, r.price);
  }

  lemma ClampsOversized(g: Gate, a: Account, last: Prices, order: Order, price: real)
    requires IsCheckedPrice(order, last, price)
    ensures ClampTo(g.cfg, Equity(a, last), RequestOf(a, last, order)).Some? <==> IsOversized(g, a, last, order, price)
  {
    var r, budget := RequestOf(a, last, order), RiskBudget(g.cfg, Equity(a, last));
    if !r.reducer && g.cfg.maxRiskPerTradePct > 0.0 && r.price > 0.0 && r.Value() > budget {
      UnitsBelow(budget, r);
    }
  }

  /** While trading is allowed, exactly the oversized orders are cut: to the greatest quantity that
      their share of the equity pays for, or to one unit if it pays for none. */
  lemma CutExactlyTheOversized(g: Gate, a: Account, last: Prices, order: Order, price: real)
    requires IsCheckedPrice(order, last, price)
    ensures var v, budget := Check(g, a, last, order).verdict, Equity(a, last) * g.cfg.maxRiskPerTradePct / 100.0;
      && (v.Approved? && v.adjusted.Some? <==> MayTrade(g) && IsOversized(g, a, last, order, price))
      && (v.Approved? && v.adjusted.Some? ==>
            var qty := v.adjusted.value;
            1 <= qty < AbsInt(order.qty) && FitsBudget(qty, price, budget))
  {
    var m, r := Measure(g, a, last), RequestOf(a, last, order);
    ClampsOversized(g, a, last, order, price);
    if ClampTo(g.cfg, m.equity, r).Some? {
      ClampFitsBudget(g.cfg, m, r);
    }
  }

  // ----- the rules

  /** The order in which the rules are looked at; orders are sized after the first three. */
  function Rank(rule: Rule): nat {
    match rule
    case CircuitBreaker => 0
    case KillSwitch => 1
    case EmergencyStop => 2
    case DailyLossLimit => 3
    case MaxTradesPerDay => 4
    case MaxOpenPositions => 5
    case MaxQuantity => 6
    case MaxCapital => 7
    case MaxExposure => 8
    case MaxSymbolExposure => 9
    case MaxDrawdown => 10
  }

  /** The fall from the highest equity, this one included, is at least the limit, in per cent of it. */
  predicate FallsTooFar(limit: real, peak: real, equity: real) {
    equity < peak && peak > 0.0 && (peak - equity) * 100.0 >= limit * peak
  }

  /** The rule stands in the way of an order of this value. */
  predicate Breaks(g: Gate, a: Account, equity: real, order: Order, value: real, rule: Rule) {
    match rule
    case CircuitBreaker => g.Halted()
    case KillSwitch => g.cfg.killSwitch
    case EmergencyStop => g.cfg.emergencyStop
    case DailyLossLimit => 0.0 < g.cfg.dailyLossLimit <= g.initialCapital - equity
    case MaxTradesPerDay => 0 < g.cfg.maxTradesPerDay <= |a.trades|
    case MaxDrawdown => g.cfg.maxDrawdownPct > 0.0 && FallsTooFar(g.cfg.maxDrawdownPct, g.peakEquity, equity)
    case _ => !Reduces(a, order) && Overfills(g.cfg, a, order, value, rule)
  }

  /** The rules on size, which an order that reduces a position is exempt from. */
  predicate Overfills(cfg: RiskConfig, a: Account, order: Order, value: real, rule: Rule) {
    match rule
    case MaxOpenPositions => 0 < cfg.maxOpenPositions <= |OpenSymbols(a)|
    case MaxQuantity => 0 < cfg.maxQuantity < AbsInt(order.qty)
    case MaxCapital => 0.0 < cfg.maxCapital < Exposure(a) + value
    case MaxExposure => 0.0 < cfg.maxExposure < Exposure(a) + value
    case MaxSymbolExposure => 0.0 < cfg.maxSymbolExposure < NotionalOf(a.PositionOf(order.symbol)) + value
    case _ => false
  }

  ghost predicate BreaksNone(g: Gate, a: Account, equity: real, order: Order, value: real, before: nat) {
    forall rule {:trigger Rank(rule)} :: Rank(rule) < before ==> !Breaks(g, a, equity, order, value, rule)
  }

  ghost predicate BreaksFirst(g: Gate, a: Account, equity: real, order: Order, value: real, rule: Rule) {
    Breaks(g, a, equity, order, value, rule) && BreaksNone(g, a, equity, order, value, Rank(rule))
  }

  lemma FallIsMeasured(g: Gate, a: Account, last: Prices)
    requires g.cfg.maxDrawdownPct > 0.0
    ensures Measure(g, a, last).drawdownPct >= g.cfg.maxDrawdownPct
            <==> FallsTooFar(g.cfg.maxDrawdownPct, g.peakEquity, Equity(a, last))
  {
    FallByProduct(g.cfg.maxDrawdownPct, g.peakEquity, Equity(a, last));
  }

  lemma FallByProduct(limit: real, highest: real, equity: real)
    requires limit > 0.0
    ensures var peak := MaxReal(highest, equity);
            var fall := if peak > 0.0 then (peak - equity) / peak * 100.0 else 0.0;
      MaxReal(fall, 0.0) >= limit <==> FallsTooFar(limit, highest, equity)
  {
    var peak := MaxReal(highest, equity);
    if peak > 0.0 {
      var share := (peak - equity) / peak;
      assert share * peak == peak - equity;
      if share * 100.0 >= limit {
        assert (share * 100.0 - limit) * peak >= 0.0;
      } else {
        assert (limit - share * 100.0) * peak > 0.0;
      }
    }
  }

  /** What the decision reads, as it stands in the account. */
  ghost predicate Reads(g: Gate, a: Account, order: Order, value: real, m: Measures, r: Request) {
    && m.pnl == m.equity - g.initialCapital && m.tradeCount == |a.trades| && m.openPositions == |OpenSymbols(a)|
    && m.exposure == Exposure(a) && r.symbolExposure == NotionalOf(a.PositionOf(order.symbol))
    && r.qty == AbsInt(order.qty) && r.Value() == value && r.reducer == Reduces(a, order)
    && (g.cfg.maxDrawdownPct > 0.0 ==>
          (m.drawdownPct >= g.cfg.maxDrawdownPct <==> FallsTooFar(g.cfg.maxDrawdownPct, g.peakEquity, m.equity)))
  }

  lemma DecisionBreaksFirst(g: Gate, a: Account, order: Order, value: real, m: Measures, r: Request, d: Decision)
    requires Reads(g, a, order, value, m, r) && d == Decide(g, m, r)
    ensures d.Object? ==> BreaksFirst(g, a, m.equity, order, value, d.rule)
    ensures d.Object? && Rank(d.rule) >= 3 ==> ClampTo(g.cfg, m.equity, r).None?
    ensures d.Clamp? ==> ClampTo(g.cfg, m.equity, r).Some? && BreaksNone(g, a, m.equity, order, value, 3)
    ensures d == Approve ==> ClampTo(g.cfg, m.equity, r).None? && BreaksNone(g, a, m.equity, order, value, 11)
  {
  }

  lemma AccountIsRead(g: Gate, a: Account, last: Prices, order: Order, price: real)
    requires IsCheckedPrice(order, last, price)
    ensures Reads(g, a, order, AbsInt(order.qty) as real * price, Measure(g, a, last), RequestOf(a, last, order))
  {
    if g.cfg.maxDrawdownPct > 0.0 {
      FallIsMeasured(g, a, last);
    }
  }

  /** An order is rejected by a rule exactly if that is the first it breaks, and it is not cut
      before; it is approved as it stands exactly if it breaks none and is not cut. */
  lemma VerdictIsFirstBroken(g: Gate, a: Account, last: Prices, order: Order, price: real, rule: Rule)
    requires IsCheckedPrice(order, last, price)
    ensures var v, equity := Check(g, a, last, order).verdict, Equity(a, last);
            var value, cut := AbsInt(order.qty) as real * price, IsOversized(g, a, last, order, price);
      && (v == RejectedBy(rule) <==> BreaksFirst(g, a, equity, order, value, rule) && (Rank(rule) >= 3 ==> !cut))
      && (v == Approved(None) <==> BreaksNone(g, a, equity, order, value, 11) && !cut)
  {
    var m, r, value := Measure(g, a, last), RequestOf(a, last, order), AbsInt(order.qty) as real * price;
    AccountIsRead(g, a, last, order, price);
    ClampsOversized(g, a, last, order, price);
    DecisionIsDecided(g, a, order, value, m, r, Decide(g, m, r), rule);
  }

  lemma DecisionIsDecided(g: Gate, a: Account, order: Order, value: real, m: Measures, r: Request, d: Decision,
      rule: Rule)
    requires Reads(g, a, order, value, m, r) && d == Decide(g, m, r)
    ensures var cut := ClampTo(g.cfg, m.equity, r).Some?;
      && (d == Object(rule) <==> BreaksFirst(g, a, m.equity, order, value, rule) && (Rank(rule) >= 3 ==> !cut))
      && (d == Approve <==> BreaksNone(g, a, m.equity, order, value, 11) && !cut)
  {
    DecisionBreaksFirst(g, a, order, value, m, r, d);
    if d.Object? {
      OneFirst(g, a, m.equity, order, value, d.rule, rule);
    }
  }

  lemma SwitchesComeFirst(g: Gate, a: Account, equity: real, order: Order, value: real)
    ensures BreaksNone(g, a, equity, order, value, 3) <==> MayTrade(g)
  {
    assert Rank(CircuitBreaker) < 3 && Rank(KillSwitch) < 3 && Rank(EmergencyStop) < 3;
  }

  lemma OneFirst(g: Gate, a: Account, equity: real, order: Order, value: real, rule: Rule, other: Rule)
    requires BreaksFirst(g, a, equity, order, value, rule)
    ensures BreaksFirst(g, a, equity, order, value, other) ==> other == rule
    ensures !BreaksNone(g, a, equity, order, value, 11)
  {
    assert Rank(rule) < 11 && (Rank(rule) == Rank(other) ==> rule == other);
  }

  /** The order is rejected, by whatever rule. */
  ghost predicate IsTurnedAway(g: Gate, a: Account, last: Prices, order: Order, price: real) {
    var equity, value := Equity(a, last), AbsInt(order.qty) as real * price;
    if IsOversized(g, a, last, order, price) then !MayTrade(g) else !BreaksNone(g, a, equity, order, value, 11)
  }

  lemma TurnedAwayIsRejected(g: Gate, a: Account, last: Prices, order: Order, price: real)
    requires IsCheckedPrice(order, last, price)
    ensures IsTurnedAway(g, a, last, order, price) <==> Check(g, a, last, order).verdict.RejectedBy?
  {
    var m, r, value := Measure(g, a, last), RequestOf(a, last, order), AbsInt(order.qty) as real * price;
    AccountIsRead(g, a, last, order, price);
    ClampsOversized(g, a, last, order, price);
    DecisionTurnsAway(g, a, order, value, m, r, Decide(g, m, r));
    RejectedByDecision(g, a, last, order, Decide(g, m, r));
    TurnedAwayBy(g, a, last, order, price, m.equity, value, Decide(g, m, r), ClampTo(g.cfg, m.equity, r).Some?);
  }

  lemma RejectedByDecision(g: Gate, a: Account, last: Prices, order: Order, d: Decision)
    requires d == Decide(g, Measure(g, a, last), RequestOf(a, last, order))
    ensures Check(g, a, last, order).verdict.RejectedBy? <==> d.Object?
  {
  }

  lemma TurnedAwayBy(g: Gate, a: Account, last: Prices, order: Order, price: real, equity: real, value: real,
      d: Decision, cut: bool)
    requires equity == Equity(a, last) && value == AbsInt(order.qty) as real * price
    requires cut <==> IsOversized(g, a, last, order, price)
    requires d.Object? <==> if cut then !MayTrade(g) else !BreaksNone(g, a, equity, order, value, 11)
    ensures IsTurnedAway(g, a, last, order, price) <==> d.Object?
  {
  }

  lemma DecisionTurnsAway(g: Gate, a: Account, order: Order, value: real, m: Measures, r: Request, d: Decision)
    requires Reads(g, a, order, value, m, r) && d == Decide(g, m, r)
    ensures d.Object? <==> if ClampTo(g.cfg, m.equity, r).Some? then !MayTrade(g)
                           else !BreaksNone(g, a, m.equity, order, value, 11)
  {
    DecisionBreaksFirst(g, a, order, value, m, r, d);
    SwitchesComeFirst(g, a, m.equity, order, value);
    if d.Object? {
      OneFirst(g, a, m.equity, order, value, d.rule, d.rule);
    }
  }

  // ----- the peak and the warnings

  /** The peak is the highest equity that any check has seen, or the initial capital. */
  ghost predicate IsHighest(capital: real, asked: seq<Asked>, peak: real) {
    && capital <= peak && (forall k :: 0 <= k < |asked| ==> EquityAt(asked[k]) <= peak)
    && (peak == capital || exists k :: 0 <= k < |asked| && peak == EquityAt(asked[k]))
  }

  function EquityAt(q: Asked): real {
    Equity(q.account, q.last)
  }

  lemma {:induction false} PeakIsHighest(capital: real, cfg: RiskConfig, asked: seq<Asked>)
    ensures IsHighest(capital, asked, CheckAll(NewGate(capital, cfg), asked).gate.peakEquity)
  {
    if asked != [] {
      var init, q := asked[..|asked|-1], asked[|asked|-1];
      PeakIsHighest(capital, cfg, init);
      var g := CheckAll(NewGate(capital, cfg), init).gate;
      CheckMovesPeak(g, q, Check(g, q.account, q.last, q.order));
      HighestOfMore(capital, asked, g.peakEquity);
    }
  }

  lemma CheckMovesPeak(g: Gate, q: Asked, c: Checked)
    requires c == Check(g, q.account, q.last, q.order)
    ensures c.gate.peakEquity == MaxReal(g.peakEquity, EquityAt(q))
  {
  }

  lemma HighestOfMore(capital: real, asked: seq<Asked>, peak: real)
    requires asked != [] && IsHighest(capital, asked[..|asked|-1], peak)
    ensures IsHighest(capital, asked, MaxReal(peak, EquityAt(asked[|asked|-1])))
  {
    var init := asked[..|asked|-1];
    assert forall k :: 0 <= k < |init| ==> asked[k] == init[k];
  }

  /** A check warns exactly if the profit target is reached and the order got as far as that: past
      the first three rules, the sizing and the loss limit. */
  lemma WarnsExactly(g: Gate, a: Account, last: Prices, order: Order, price: real)
    requires IsCheckedPrice(order, last, price)
    ensures var equity, value := Equity(a, last), AbsInt(order.qty) as real * price;
            var asFar := BreaksNone(g, a, equity, order, value, 4) && !IsOversized(g, a, last, order, price);
            var reached := 0.0 < g.cfg.dailyProfitTarget <= equity - g.initialCapital;
      Check(g, a, last, order).gate.warnings == g.warnings + if reached && asFar then 1 else 0
  {
    var m, r, value := Measure(g, a, last), RequestOf(a, last, order), AbsInt(order.qty) as real * price;
    AccountIsRead(g, a, last, order, price);
    ClampsOversized(g, a, last, order, price);
    DecisionBreaksFirst(g, a, order, value, m, r, Decide(g, m, r));
    FarEnough(g, a, order, value, m, r, Decide(g, m, r));
  }

  lemma FarEnough(g: Gate, a: Account, order: Order, value: real, m: Measures, r: Request, d: Decision)
    requires Reads(g, a, order, value, m, r) && d == Decide(g, m, r)
    ensures BreaksNone(g, a, m.equity, order, value, 4) && ClampTo(g.cfg, m.equity, r).None?
            <==> !d.Clamp? && (d.Object? ==> Rank(d.rule) >= 4)
  {
    DecisionBreaksFirst(g, a, order, value, m, r, d);
    if d.Object? {
      OneFirst(g, a, m.equity, order, value, d.rule, d.rule);
    }
  }
}
