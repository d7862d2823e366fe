/** The simulated risk engine that stands in front of the broker. */
module RiskGate {
  import opened Costs
  import opened Options
  import opened Ledger
  import opened FillEngine

  datatype Rule =
    | CircuitBreaker | KillSwitch | EmergencyStop | DailyLossLimit | MaxTradesPerDay | MaxOpenPositions
    | MaxQuantity | MaxCapital | MaxExposure | MaxSymbolExposure | MaxDrawdown

  /** Zero or false turns a rule off. */
  datatype RiskConfig = RiskConfig(
    dailyLossLimit: real, dailyProfitTarget: real, maxTradesPerDay: int, maxOpenPositions: int, maxQuantity: int,
    maxCapital: real, maxExposure: real, maxSymbolExposure: real, maxDrawdownPct: real,
    killSwitch: bool, emergencyStop: bool, maxRiskPerTradePct: real, circuitBreaker: bool)

  function DefaultConfig(capital: real): RiskConfig {
    RiskConfig(capital * 0.10, 0.0, 0, 10, 0, 0.0, capital * 5.0, 0.0, 25.0, false, false, 0.0, true)
  }

  datatype Rejection = Rejection(rule: Rule, symbol: string, side: Side, qty: nat, price: real)

  datatype Gate = Gate(
    cfg: RiskConfig, initialCapital: real, peakEquity: real, haltRule: Option<Rule>,
    accepted: nat, rejected: seq<Rejection>, counts: map<Rule, nat>, warnings: nat)
  {
    predicate Halted() {
      haltRule.Some?
    }
  }

  function NewGate(capital: real, cfg: RiskConfig): Gate {
    Gate(cfg, capital, capital, None, 0, [], map[], 0)
  }

  datatype Verdict = Approved(adjusted: Option<nat>) | RejectedBy(rule: Rule)

  // ----- the simulated account, measured

  function NotionalOf(p: Position): real {
    AbsInt(p.qty) as real * p.avg
  }

  function Notional(): Weight {
    (s: string, p: Position) => NotionalOf(p)
  }

  function Exposure(a: Account): real {
    Sum(a.symbols, a.positions, Notional())
  }

  function OpenSymbols(a: Account): set<string> {
    set s | s in a.positions && a.positions[s].qty != 0
  }

  /** What a check reads of the account. */
  datatype Measures = Measures(
    equity: real, peak: real, pnl: real, tradeCount: nat, exposure: real, openPositions: nat, drawdownPct: real)

  function Measure(g: Gate, a: Account, last: Prices): Measures {
    var equity := Equity(a, last);
    var peak := MaxReal(g.peakEquity, equity);
    var drawdown := if peak > 0.0 then (peak - equity) / peak * 100.0 else 0.0;
    Measures(equity, peak, equity - g.initialCapital, |a.trades|, Exposure(a), |OpenSymbols(a)|, MaxReal(drawdown, 0.0))
  }

  /** What a check reads of the order. */
  datatype Request = Request(symbol: string, qty: nat, price: real, symbolExposure: real, reducer: bool) {
    function Value(): real {
      qty as real * price
    }
  }

  /** An order on the other side of an open position, however large. */
  predicate IsReducer(a: Account, order: Order) {
    var qty := a.PositionOf(order.symbol).qty;
    (qty < 0 && order.side == Buy) || (qty > 0 && order.side == Sell)
  }

  function PriceFor(order: Order, last: Prices): real {
    if order.price > 0.0 then order.price else if order.symbol in last then last[order.symbol] else 0.0
  }

  function RequestOf(a: Account, last: Prices, order: Order): Request {
    Request(order.symbol, AbsInt(order.qty), PriceFor(order, last),
            Notional()(order.symbol, a.PositionOf(order.symbol)), IsReducer(a, order))
  }

  // ----- the decision

  datatype Decision = Approve | Clamp(qty: nat) | Object(rule: Rule)

  /** What one trade may put at risk. */
  function RiskBudget(cfg: RiskConfig, equity: real): real {
    equity * cfg.maxRiskPerTradePct / 100.0
  }

  /** The units that a budget pays for, but one at least. */
  function UnitsFor(budget: real, price: real): nat
    requires price > 0.0
  {
    if (budget / price).Floor < 1 then 1 else (budget / price).Floor
  }

  /** The quantity an opening order is cut to by the per-trade risk budget, if it is cut. */
  function ClampTo(cfg: RiskConfig, equity: real, r: Request): Option<nat> {
    if r.reducer || cfg.maxRiskPerTradePct <= 0.0 || r.price <= 0.0 || r.Value() <= RiskBudget(cfg, equity) then None
    else
      var clamped := UnitsFor(RiskBudget(cfg, equity), r.price);
      if clamped < r.qty then Some(clamped) else None
  }

  function CapacityObjection(cfg: RiskConfig, m: Measures, r: Request): Option<Rule> {
    if r.reducer then None
    else if cfg.maxOpenPositions > 0 && m.openPositions >= cfg.maxOpenPositions then Some(MaxOpenPositions)
    else if cfg.maxQuantity > 0 && r.qty > cfg.maxQuantity then Some(MaxQuantity)
    else if cfg.maxCapital > 0.0 && m.exposure + r.Value() > cfg.maxCapital then Some(MaxCapital)
    else if cfg.maxExposure > 0.0 && m.exposure + r.Value() > cfg.maxExposure then Some(MaxExposure)
    else if cfg.maxSymbolExposure > 0.0 && r.symbolExposure + r.Value() > cfg.maxSymbolExposure
         then Some(MaxSymbolExposure)
    else None
  }

  function Decide(g: Gate, m: Measures, r: Request): Decision {
    var cfg := g.cfg;
    if g.Halted() then Object(CircuitBreaker)
    else if cfg.killSwitch then Object(KillSwitch)
    else if cfg.emergencyStop then Object(EmergencyStop)
    else if ClampTo(cfg, m.equity, r).Some? then Clamp(ClampTo(cfg, m.equity, r).value)
    else if cfg.dailyLossLimit > 0.0 && m.pnl <= -cfg.dailyLossLimit then Object(DailyLossLimit)
    else if cfg.maxTradesPerDay > 0 && m.tradeCount >= cfg.maxTradesPerDay then Object(MaxTradesPerDay)
    else if CapacityObjection(cfg, m, r).Some? then Object(CapacityObjection(cfg, m, r).value)
    else if cfg.maxDrawdownPct > 0.0 && m.drawdownPct >= cfg.maxDrawdownPct then Object(MaxDrawdown)
    else Approve
  }

  /** The profit target only warns, and only orders that got past the loss limit. */
  predicate Warns(g: Gate, m: Measures, d: Decision) {
    && d != Object(CircuitBreaker) && d != Object(KillSwitch) && d != Object(EmergencyStop) && !d.Clamp?
    && d != Object(DailyLossLimit)
    && g.cfg.dailyProfitTarget > 0.0 && m.pnl >= g.cfg.dailyProfitTarget
  }

  function CountOf(counts: map<Rule, nat>, rule: Rule): nat {
    if rule in counts then counts[rule] else 0
  }

  datatype Checked = Checked(gate: Gate, verdict: Verdict)

  function Settled(g: Gate, order: Order, d: Decision): Checked {
    match d
    case Approve => Checked(g.(accepted := g.accepted + 1), Approved(None))
    case Clamp(qty) => Checked(g.(accepted := g.accepted + 1), Approved(Some(qty)))
    case Object(rule) =>
      var halts := g.cfg.circuitBreaker && rule in {DailyLossLimit, MaxDrawdown};
      Checked(g.(haltRule := if halts then Some(rule) else g.haltRule,
                 rejected := g.rejected + [Rejection(rule, order.symbol, order.side, AbsInt(order.qty), order.price)],
                 counts := g.counts[rule := CountOf(g.counts, rule) + 1]),
              RejectedBy(rule))
  }

  function Check(g: Gate, a: Account, last: Prices, order: Order): Checked {
    var m := Measure(g, a, last);
    var d := Decide(g, m, RequestOf(a, last, order));
    Settled(g.(peakEquity := m.peak, warnings := g.warnings + if Warns(g, m, d) then 1 else 0), order, d)
  }

  /** Moving the peak does not change what is decided about the same measures. */
  lemma PeakDoesNotDecide(g: Gate, peak: real, m: Measures, r: Request)
    ensures Decide(g.(peakEquity := peak), m, r) == Decide(g, m, r)
    ensures Warns(g.(peakEquity := peak), m, Decide(g, m, r)) == Warns(g, m, Decide(g, m, r))
  {
  }

  /** The per-candle snapshot touches nothing but the running peak. */
  function Snapshot(g: Gate, a: Account, last: Prices): Gate {
    g.(peakEquity := Measure(g, a, last).peak)
  }

  // ----- every check of a run

  datatype Asked = Asked(account: Account, last: Prices, order: Order)

  datatype Tally = Tally(gate: Gate, verdicts: seq<Verdict>)

  function CheckAll(g: Gate, asked: seq<Asked>): Tally {
    if asked == [] then Tally(g, [])
    else
      var before := CheckAll(g, asked[..|asked|-1]);
      var q := asked[|asked|-1];
      var c := Check(before.gate, q.account, q.last, q.order);
      Tally(c.gate, before.verdicts + [c.verdict])
  }

  function RejectionsBy(rejected: seq<Rejection>, rule: Rule): nat {
    if rejected == [] then 0
    else RejectionsBy(rejected[..|rejected|-1], rule) + if rejected[|rejected|-1].rule == rule then 1 else 0
  }

  ghost predicate Consistent(g: Gate) {
    forall rule :: CountOf(g.counts, rule) == RejectionsBy(g.rejected, rule)
  }

  /** One check is counted exactly once: as an acceptance, or as a rejection under its rule. */
  lemma CheckIsCounted(g: Gate, a: Account, last: Prices, order: Order)
    ensures Counted(g, Check(g, a, last, order), order)
  {
    var m := Measure(g, a, last);
    var d := Decide(g, m, RequestOf(a, last, order));
    var h := g.(peakEquity := m.peak, warnings := g.warnings + if Warns(g, m, d) then 1 else 0);
    SettledIsCounted(h, order, d);
    CountedFrom(g, h, Settled(h, order, d), order);
  }

  ghost predicate Counted(g: Gate, c: Checked, order: Order) {
    && c.gate.accepted + |c.gate.rejected| == g.accepted + |g.rejected| + 1
    && (c.verdict.Approved? <==> c.gate.accepted == g.accepted + 1)
    && (Consistent(g) ==> Consistent(c.gate))
    && c.gate.cfg == g.cfg
    && (c.verdict.RejectedBy? ==>
          var r := Rejection(c.verdict.rule, order.symbol, order.side, AbsInt(order.qty), order.price);
          c.gate.rejected == g.rejected + [r])
  }

  lemma CountedFrom(g: Gate, h: Gate, c: Checked, order: Order)
    requires h == g.(peakEquity := h.peakEquity, warnings := h.warnings) && Counted(h, c, order)
    ensures Counted(g, c, order)
  {
    if Consistent(g) {
      assert forall rule :: CountOf(h.counts, rule) == CountOf(g.counts, rule);
    }
  }

  lemma SettledIsCounted(g: Gate, order: Order, d: Decision)
    ensures Counted(g, Settled(g, order, d), order)
  {
    if d.Object? && Consistent(g) {
      var c := Settled(g, order, d).gate;
      assert c.rejected[..|c.rejected|-1] == g.rejected;
      forall rule ensures CountOf(c.counts, rule) == RejectionsBy(c.rejected, rule) {
        assert CountOf(g.counts, rule) == RejectionsBy(g.rejected, rule);
      }
    }
  }

  /** Over any checks, acceptances and rejections add up to the checks made, and each rule's
      count is the number of rejections recorded under it. */
  lemma {:induction false} ChecksAddUp(capital: real, cfg: RiskConfig, asked: seq<Asked>)
    ensures var g := CheckAll(NewGate(capital, cfg), asked).gate;
      g.accepted + |g.rejected| == |asked| && Consistent(g)
  {
    if asked != [] {
      ChecksAddUp(capital, cfg, asked[..|asked|-1]);
      var q := asked[|asked|-1];
      CheckIsCounted(CheckAll(NewGate(capital, cfg), asked[..|asked|-1]).gate, q.account, q.last, q.order);
    }
  }

  /** Once halted, always halted: every later check, of any order in any account, is rejected
      by the circuit breaker. */
  lemma {:induction false} HaltIsAbsorbing(g: Gate, asked: seq<Asked>)
    requires g.Halted()
    ensures var t := CheckAll(g, asked);
      && t.gate.haltRule == g.haltRule && t.gate.accepted == g.accepted
      && |t.verdicts| == |asked| && forall k :: 0 <= k < |asked| ==> t.verdicts[k] == RejectedBy(CircuitBreaker)
  {
    if asked != [] {
      HaltIsAbsorbing(g, asked[..|asked|-1]);
    }
  }

  /** The breaker engages exactly at a hard-limit rejection, and only when it is configured. */
  lemma CheckHaltsExactlyOnHardLimits(g: Gate, a: Account, last: Prices, order: Order)
    requires !g.Halted()
    ensures var c := Check(g, a, last, order);
      c.gate.Halted() <==> g.cfg.circuitBreaker && c.verdict in {RejectedBy(DailyLossLimit), RejectedBy(MaxDrawdown)}
  {
  }

  /** An unclamped opening order is within its risk budget, or is for a single unit. */
  ghost predicate WithinBudget(cfg: RiskConfig, m: Measures, r: Request) {
    cfg.maxRiskPerTradePct > 0.0 && r.price > 0.0 ==>
      r.qty <= 1 || r.Value() <= m.equity * cfg.maxRiskPerTradePct / 100.0
  }

  lemma UnclampedIsWithinBudget(cfg: RiskConfig, m: Measures, r: Request)
    requires !r.reducer && ClampTo(cfg, m.equity, r).None?
    ensures WithinBudget(cfg, m, r)
  {
    var budget := m.equity * cfg.maxRiskPerTradePct / 100.0;
    if cfg.maxRiskPerTradePct > 0.0 && r.price > 0.0 && r.Value() > budget {
      BudgetBelowValue(budget, r.qty, r.price);
    }
  }

  /** The greatest quantity that the budget pays for, or one unit if it pays for none. */
  predicate FitsBudget(qty: int, price: real, budget: real) {
    (qty == 1 || qty as real * price <= budget) && budget < (qty + 1) as real * price
  }

  /** A clamped order is cut below what was asked: to the greatest quantity that its budget
      allows, or to one unit if it allows none. */
  lemma ClampFitsBudget(cfg: RiskConfig, m: Measures, r: Request)
    requires ClampTo(cfg, m.equity, r).Some?
    ensures var qty := ClampTo(cfg, m.equity, r).value;
      1 <= qty < r.qty && FitsBudget(qty, r.price, RiskBudget(cfg, m.equity))
  {
    UnitsFit(RiskBudget(cfg, m.equity), r.price);
  }

  lemma UnitsFit(budget: real, price: real)
    requires price > 0.0
    ensures FitsBudget(UnitsFor(budget, price), price, budget)
  {
    QuotientFits(budget, price, budget / price, UnitsFor(budget, price));
  }

  lemma QuotientFits(budget: real, price: real, share: real, qty: nat)
    requires price > 0.0 && share * price == budget && qty == if share.Floor < 1 then 1 else share.Floor
    ensures FitsBudget(qty, price, budget)
  {
    ProductsInOrder(share, (qty + 1) as real, price);
    if qty > 1 {
      ProductsInOrder(qty as real, share, price);
    }
  }

  lemma ProductsInOrder(x: real, y: real, price: real)
    requires price > 0.0
    ensures x <= y ==> x * price <= y * price
    ensures x < y ==> x * price < y * price
  {
    if x <= y {
      assert (y - x) * price >= 0.0;
    }
    if x < y {
      assert (y - x) * price > 0.0;
    }
  }

  lemma BudgetBelowValue(budget: real, qty: nat, price: real)
    requires price > 0.0 && qty as real * price > budget
    ensures (budget / price).Floor < qty
  {
    var units := budget / price;
    assert units * price == budget;
    if units >= qty as real {
      assert units * price >= qty as real * price;
    }
  }

  /** An order approved at its own size, if it may open or add, leaves every configured limit
      unbroken at the price it was checked at; a reducer or a clamped order need not. */
  lemma FullApprovalRespectsLimits(g: Gate, a: Account, last: Prices, order: Order)
    requires Check(g, a, last, order).verdict == Approved(None) && !IsReducer(a, order)
    ensures var cfg, value := g.cfg, RequestOf(a, last, order).Value();
      && !g.Halted() && !cfg.killSwitch && !cfg.emergencyStop
      && (cfg.maxOpenPositions > 0 ==> |OpenSymbols(a)| + 1 <= cfg.maxOpenPositions)
      && (cfg.maxQuantity > 0 ==> AbsInt(order.qty) <= cfg.maxQuantity)
      && (cfg.maxCapital > 0.0 ==> Exposure(a) + value <= cfg.maxCapital)
      && (cfg.maxExposure > 0.0 ==> Exposure(a) + value <= cfg.maxExposure)
      && (cfg.maxSymbolExposure > 0.0 ==> RequestOf(a, last, order).symbolExposure + value <= cfg.maxSymbolExposure)
      && (cfg.maxDrawdownPct > 0.0 ==> Measure(g, a, last).drawdownPct < cfg.maxDrawdownPct)
      && (cfg.dailyLossLimit > 0.0 ==> Equity(a, last) - g.initialCapital > -cfg.dailyLossLimit)
      && (cfg.maxTradesPerDay > 0 ==> |a.trades| < cfg.maxTradesPerDay)
      && WithinBudget(cfg, Measure(g, a, last), RequestOf(a, last, order))
  {
    UnclampedIsWithinBudget(g.cfg, Measure(g, a, last), RequestOf(a, last, order));
  }
}
