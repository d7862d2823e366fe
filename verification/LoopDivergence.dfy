/** Where the two loops part: with a drawdown limit that a peak can sway.  The MAX loop's snapshot
    sees the equity right after a candle's orders, the replay's only that of the next candle. */
module LoopDivergence {
  import opened Costs
  import opened Options
  import opened Ledger
  import opened FillEngine
  import opened Broker
  import opened RiskGate
  import opened GatedRun
  import opened RunLoops
  import opened LoopAgreement
  import opened LoopRuns

  ghost predicate AgreeOn(risk: RiskConfig, cfg: Config, candles: seq<Candle>, rng: Rng, step: Strategy<nat>, n: nat)
    requires n <= |candles|
  {
    var p := Opening(cfg, candles, rng, Some(risk), 0);
    SameProgress(Candles(p, step, n, REPLAY_STYLE), Candles(p, step, n, MAX_STYLE))
  }

  /** The two loops agree for every strategy on every series, from any positive capital. */
  ghost predicate AlwaysAgree(risk: RiskConfig) {
    forall cfg: Config, candles: seq<Candle>, rng: Rng, step: Strategy<nat>, n: nat ::
      cfg.initialCapital > 0.0 && n <= |candles| ==> AgreeOn(risk, cfg, candles, rng, step, n)
  }

  /** Whether trading can go on until a drawdown is measured against a peak that matters. */
  predicate PeakMatters(risk: RiskConfig) {
    risk.maxDrawdownPct > 0.0 && risk.maxDrawdownPct != 100.0 && !risk.killSwitch && !risk.emergencyStop
  }

  /** Whatever the other rules, the loops always agree exactly when drawdown is not limited, or
      limited at 100%, or all trading is switched off. */
  lemma LoopsAgreeExactly(risk: RiskConfig)
    ensures AlwaysAgree(risk)
            <==> risk.maxDrawdownPct <= 0.0 || risk.maxDrawdownPct == 100.0 || risk.killSwitch || risk.emergencyStop
  {
    if PeakMatters(risk) {
      ShortSellerDiverges(risk);
    } else {
      forall cfg: Config, candles: seq<Candle>, rng: Rng, step: Strategy<nat>, n: nat
        | cfg.initialCapital > 0.0 && n <= |candles| ensures AgreeOn(risk, cfg, candles, rng, step, n)
      {
        LoopsAgree(Opening(cfg, candles, rng, Some(risk), 0), step, n);
      }
    }
  }

  // ----- the diverging run

  const FREE := CostConfig(0.0, 0.0, 0.0, false, false, false, false, false, 0.0, 0.0, None, None, None)
  const ZERO: Rng := n => 0.0
  const SELL := Order("X", Sell, OrderType.Market, 1, 0.0, None, EQ, Intraday, "")
  const BUY := SELL.(side := Buy)

  function Market(capital: real): Config {
    Config(capital, 0.0, 0, 5, 0.0, FREE)
  }

  /** Sells one unit short, and buys it back. */
  function ShortSeller(): Strategy<nat> {
    (k: nat, c: Candle) => Decided(k + 1, StrategySignal([if k == 0 then SELL else BUY], ""))
  }

  function At(price: real): Candle {
    Candle("X", price, price, price, price)
  }

  /** The price starts at the whole capital and rises against the seller. */
  function Prices2(capital: real, rise: real): seq<Candle> {
    [At(capital), At(capital + rise)]
  }

  /** How far the price rises, in parts of a hundred of the capital. */
  function Rise(d: real): real {
    if d < 100.0 then 2.0 * d else d + 100.0
  }

  /** The capital and the rise are so small that no other rule stands in the seller's way. */
  ghost predicate Fits(risk: RiskConfig, capital: real, rise: real) {
    && PeakMatters(risk) && capital > 0.0
    && (risk.maxCapital > 0.0 ==> capital <= risk.maxCapital)
    && (risk.maxExposure > 0.0 ==> capital <= risk.maxExposure)
    && (risk.maxSymbolExposure > 0.0 ==> capital <= risk.maxSymbolExposure)
    && (risk.dailyLossLimit > 0.0 ==> rise <= risk.dailyLossLimit)
  }

  function AtMost(limit: real, x: real): real {
    if 0.0 < limit < x then limit else x
  }

  /** A capital whose rise is within the limit, if there is one. */
  lemma Affordable(limit: real, parts: real, most: real) returns (capital: real)
    requires parts > 0.0 && most > 0.0
    ensures 0.0 < capital <= most && (limit > 0.0 ==> parts * capital / 100.0 <= limit)
  {
    var affordable := limit * 100.0 / parts;
    assert affordable * parts == limit * 100.0;
    capital := AtMost(affordable, most);
    if limit > 0.0 {
      assert parts * (affordable - capital) >= 0.0;
    }
  }

  lemma SmallCapital(risk: RiskConfig) returns (capital: real, rise: real)
    requires PeakMatters(risk)
    ensures Fits(risk, capital, rise) && rise == Rise(risk.maxDrawdownPct) * capital / 100.0
  {
    var most := AtMost(risk.maxCapital, AtMost(risk.maxExposure, AtMost(risk.maxSymbolExposure, 1.0)));
    capital := Affordable(risk.dailyLossLimit, Rise(risk.maxDrawdownPct), most);
    rise := Rise(risk.maxDrawdownPct) * capital / 100.0;
  }

  /** Where each loop stands after the sale: short one unit at the price of the whole capital. */
  ghost predicate Short(x: Session, risk: RiskConfig, c: real, r: real, peak: real) {
    && x.gate == Some(NewGate(c, risk).(accepted := 1, peakEquity := peak))
    && x.broker.counter == 1 && x.broker.cfg == Market(c) && x.broker.candles == Prices2(c, r)
    && IsShort(x.broker, c)
  }

  ghost predicate IsShort(s: State, c: real) {
    && s.orders.Keys == {1} && s.orders[1].status != Resting
    && s.account.cash == 2.0 * c && s.account.symbols == ["X"] && s.account.positions.Keys == {"X"}
    && s.account.positions["X"].qty == -1 && s.account.positions["X"].avg == c && s.account.trades == []
  }

  lemma NothingIsCharged(side: Side, value: real, seg: CostSegment)
    ensures EstimateCost(side, value, seg, 0.0, FREE).total == 0.0
  {
    var raw := ChargesFor(side, value, seg, 0.0, FREE);
    assert raw == Charges(0.0, 0.0, 0.0, 0.0, 0.0, 0.0);
    Round2OfPaise(0);
    assert Rupees(0) == 0.0;
  }

  lemma SellFillsAtClose(s: State, c: real)
    requires s.cfg == Market(c) && 0 <= s.index < |s.candles|
    ensures var t := TryNow(s, SELL);
      t.attempt.result == Filled(s.candles[s.index].close, 1, false) && t.cost.total == 0.0
  {
    var close := s.candles[s.index].close;
    assert 1 as real * close * Market(c).slippagePct / 100.0 == 0.0;
    NothingIsCharged(Sell, 1 as real * close, SegmentFor(EQ, Intraday));
  }

  /** Selling one unit out of nothing. */
  lemma OpeningSale(s: State, c: real, try: Try, t: State)
    requires s.account == Opened(c) && s.orders == map[] && s.counter == 0
    requires try.attempt.result == Filled(c, 1, false) && try.cost.total == 0.0 && t == PlaceWith(s, SELL, try)
    ensures IsShort(t, c) && t.counter == 1
    ensures t.cfg == s.cfg && t.candles == s.candles && t.index == s.index && t.last == s.last["X" := c]
  {
    OpeningAverage(0.0, c, 1);
  }

  lemma EquityOfShort(s: State, c: real)
    requires IsShort(s, c) && "X" in s.last
    ensures Equity(s.account, s.last) == 3.0 * c - s.last["X"]
  {
    assert s.account.symbols[..0] == [];
    assert Sum([], s.account.positions, Unrealised(s.last)) == 0.0;
  }

  lemma EquityOfNothing(c: real, last: Prices)
    ensures Equity(Opened(c), last) == c && Exposure(Opened(c)) == 0.0
  {
  }

  lemma FirstSaleIsApproved(risk: RiskConfig, c: real, r: real, last: Prices)
    requires Fits(risk, c, r) && last == map["X" := c]
    ensures var g := NewGate(c, risk);
      Check(g, Opened(c), last, SELL) == Checked(g.(accepted := 1), Approved(None))
  {
    assert OpenSymbols(Opened(c)) == {};
    EquityOfNothing(c, last);
    var m := Measure(NewGate(c, risk), Opened(c), last);
    assert m == Measures(c, c, 0.0, 0, 0.0, 0, 0.0) by {
      assert 0.0 / c == 0.0;
    }
    var q := RequestOf(Opened(c), last, SELL);
    assert q == Request("X", 1, c, 0.0, false) by {
      assert Notional()("X", Opened(c).PositionOf("X")) == 0.0;
    }
    assert q.Value() == c;
    assert ClampTo(risk, c, q).None? && CapacityObjection(risk, m, q).None?;
  }

  lemma ApprovedIsPlaced(x: Session, order: Order, g: Gate, y: Session)
    requires x.gate.Some? && Check(x.gate.value, x.broker.account, x.broker.last, order) == Checked(g, Approved(None))
    requires y == Submit(x, order)
    ensures y == Session(Place(x.broker, order), Some(g))
  {
  }

  lemma FirstSale(risk: RiskConfig, c: real, r: real, x: Session, y: Session)
    requires Fits(risk, c, r) && x.gate == Some(NewGate(c, risk))
    requires x.broker.cfg == Market(c) && x.broker.candles == Prices2(c, r) && x.broker.index == 0
    requires x.broker.orders == map[] && x.broker.counter == 0 && x.broker.account == Opened(c)
    requires x.broker.last == map["X" := c] && y == Submit(x, SELL)
    ensures Short(y, risk, c, r, c) && y.broker.last == map["X" := c]
  {
    FirstSaleIsApproved(risk, c, r, x.broker.last);
    ApprovedIsPlaced(x, SELL, NewGate(c, risk).(accepted := 1), y);
    SellFillsAtClose(x.broker, c);
    OpeningSale(x.broker, c, TryNow(x.broker, SELL), y.broker);
  }

  lemma OneIsSubmitted(x: Session, order: Order, style: Style)
    requires style.relabel(order, "") == order
    ensures SubmitEach(x, [order], "", style.relabel) == Submit(x, order)
  {
    assert [order][..0] == [];
  }

  lemma FirstIsFed(risk: RiskConfig, c: real, r: real, snap: bool, p: Progress<nat>, x: Session)
    requires Fits(risk, c, r) && p == Opening(Market(c), Prices2(c, r), ZERO, Some(risk), 0)
    requires x == SnapIf(Act(p.session, Bar(0)), snap)
    ensures x == Session(p.session.broker.(index := 0, last := map["X" := c]), p.session.gate)
  {
    SweepOfNothing(p.session.broker.(index := 0), 0);
    EquityOfNothing(c, map["X" := c]);
  }

  lemma SnapAfterSale(risk: RiskConfig, c: real, r: real, x: Session, snap: bool)
    requires Fits(risk, c, r) && Short(x, risk, c, r, c) && x.broker.last == map["X" := c]
    ensures Short(SnapIf(x, snap), risk, c, r, if snap then 2.0 * c else c)
  {
    EquityOfShort(x.broker, c);
  }

  /** The first candle: the seller sells, and the snapshot comes before or after. */
  lemma FirstCandle(risk: RiskConfig, c: real, r: real, style: Style, p: Progress<nat>, q: Progress<nat>)
    requires Fits(risk, c, r) && style.relabel(SELL, "") == SELL
    requires p == Opening(Market(c), Prices2(c, r), ZERO, Some(risk), 0) && q == OneCandle(p, ShortSeller(), 0, style)
    ensures Short(q.session, risk, c, r, if style.snapFirst then c else 2.0 * c) && q.strategy == 1
  {
    var x := SnapIf(Act(p.session, Bar(0)), style.snapFirst);
    FirstIsFed(risk, c, r, style.snapFirst, p, x);
    var y := Submit(x, SELL);
    FirstSale(risk, c, r, x, y);
    OneIsSubmitted(x, SELL, style);
    SnapAfterSale(risk, c, r, y, !style.snapFirst);
  }

  /** Whether the limit is reached by what is left after the rise, seen from the higher of a peak
      and that. */
  predicate Trips(d: real, peak: real, left: real)
    requires peak > 0.0
  {
    var top := MaxReal(peak, left);
    (top - left) / top * 100.0 >= d
  }

  lemma PlaceCounts(s: State, order: Order)
    ensures Place(s, order).counter == s.counter + 1
  {
  }

  /** What the gate makes of the purchase: no rule but the drawdown's can stop it. */
  lemma PurchaseIsDecided(g: Gate, m: Measures, q: Request)
    requires PeakMatters(g.cfg) && !g.Halted() && q.reducer && m.tradeCount == 0
    requires g.cfg.dailyLossLimit > 0.0 ==> m.pnl > -g.cfg.dailyLossLimit
    ensures Decide(g, m, q) == if m.drawdownPct >= g.cfg.maxDrawdownPct then Object(MaxDrawdown) else Approve
  {
  }

  lemma SecondOrder(risk: RiskConfig, c: real, r: real, x: Session, peak: real, left: real, y: Session)
    requires Fits(risk, c, r) && Short(x, risk, c, r, peak) && peak > 0.0
    requires "X" in x.broker.last && x.broker.last["X"] == c + r && left == 2.0 * c - r && y == Submit(x, BUY)
    ensures y.broker.counter == if Trips(risk.maxDrawdownPct, peak, left) then 1 else 2
  {
    EquityOfShort(x.broker, c);
    PlaceCounts(x.broker, BUY);
    var g, a, last := x.gate.value, x.broker.account, x.broker.last;
    var m, q := Measure(g, a, last), RequestOf(a, last, BUY);
    PurchaseIsDecided(g, m, q);
    assert m.drawdownPct >= risk.maxDrawdownPct <==> Trips(risk.maxDrawdownPct, peak, left);
  }

  /** The short, fed the second candle. */
  lemma ShortIsFed(risk: RiskConfig, c: real, r: real, x: Session, peak: real, snap: bool, y: Session)
    requires Fits(risk, c, r) && Short(x, risk, c, r, peak) && peak > 0.0 && y == SnapIf(Act(x, Bar(1)), snap)
    ensures Short(y, risk, c, r, if snap then MaxReal(peak, 2.0 * c - r) else peak)
    ensures "X" in y.broker.last && y.broker.last["X"] == c + r
  {
    SweepOfNothing(x.broker.(index := 1), 1);
    EquityOfShort(y.broker, c);
  }

  lemma PeakAlreadySeen(d: real, peak: real, left: real)
    requires peak > 0.0
    ensures Trips(d, MaxReal(peak, left), left) == Trips(d, peak, left)
  {
    assert MaxReal(MaxReal(peak, left), left) == MaxReal(peak, left);
  }

  /** The second candle: what the gate makes of the order does not depend on a snapshot taken just
      before it. */
  lemma SecondCandle(risk: RiskConfig, c: real, r: real, p: Progress<nat>, style: Style, peak: real, q: Progress<nat>)
    requires Fits(risk, c, r) && Short(p.session, risk, c, r, peak) && peak > 0.0 && p.strategy == 1
    requires style.relabel(BUY, "") == BUY && q == OneCandle(p, ShortSeller(), 1, style)
    ensures q.session.broker.counter == if Trips(risk.maxDrawdownPct, peak, 2.0 * c - r) then 1 else 2
  {
    var left, snap := 2.0 * c - r, style.snapFirst;
    var x := SnapIf(Act(p.session, Bar(1)), snap);
    ShortIsFed(risk, c, r, p.session, peak, snap, x);
    SecondOrder(risk, c, r, x, if snap then MaxReal(peak, left) else peak, left, Submit(x, BUY));
    PeakAlreadySeen(risk.maxDrawdownPct, peak, left);
    OneIsSubmitted(x, BUY, style);
  }

  lemma TripsByProduct(d: real, peak: real, left: real)
    requires peak > 0.0
    ensures var top := MaxReal(peak, left); Trips(d, peak, left) <==> (top - left) * 100.0 >= d * top
  {
    var top := MaxReal(peak, left);
    var share := (top - left) / top;
    assert share * top == top - left;
    ScaleCompare(share * 100.0, d, top);
  }

  lemma ScaleCompare(x: real, y: real, k: real)
    requires k > 0.0
    ensures x >= y <==> x * k >= y * k
  {
    if x < y {
      assert (y - x) * k > 0.0;
    } else {
      assert (x - y) * k >= 0.0;
    }
  }

  lemma PartBelow(d: real, c: real, part: real)
    requires c > 0.0 && part == d * c
    ensures d < 100.0 <==> part < 100.0 * c
  {
    if d < 100.0 {
      assert (100.0 - d) * c > 0.0;
    } else {
      assert (d - 100.0) * c >= 0.0;
    }
  }

  /** The rise trips the limit from one peak and not from the other. */
  lemma PeaksDisagree(d: real, c: real, r: real)
    requires d > 0.0 && d != 100.0 && c > 0.0 && r == Rise(d) * c / 100.0
    ensures Trips(d, c, 2.0 * c - r) != Trips(d, 2.0 * c, 2.0 * c - r)
  {
    var left := 2.0 * c - r;
    var part := d * c;
    assert part > 0.0 && d * (2.0 * c) == 2.0 * part;
    TripsByProduct(d, c, left);
    TripsByProduct(d, 2.0 * c, left);
    PartBelow(d, c, part);
    if d < 100.0 {
      assert r * 100.0 == 2.0 * part;
      assert d * left > 0.0 || left <= c;
    } else {
      assert r * 100.0 == part + 100.0 * c;
    }
  }

  lemma LoopsKeepLabels()
    ensures REPLAY_STYLE.relabel(SELL, "") == SELL == MAX_STYLE.relabel(SELL, "")
    ensures REPLAY_STYLE.relabel(BUY, "") == BUY == MAX_STYLE.relabel(BUY, "")
  {
  }

  /** The orders placed in the two candles, by style. */
  ghost predicate Places(d: real, c: real, r: real, style: Style, n: nat)
    requires c > 0.0
  {
    n == if Trips(d, if style.snapFirst then c else 2.0 * c, 2.0 * c - r) then 1 else 2
  }

  /** What the gate makes of the rise hangs on the peak. */
  ghost predicate Swayed(d: real, c: real, r: real) {
    c > 0.0 && Trips(d, c, 2.0 * c - r) != Trips(d, 2.0 * c, 2.0 * c - r)
  }

  lemma PlacesDiffer(d: real, c: real, r: real, early: Style, late: Style, m: nat, n: nat)
    requires Swayed(d, c, r)
    requires early.snapFirst && Places(d, c, r, early, m) && !late.snapFirst && Places(d, c, r, late, n)
    ensures m != n
  {
  }

  /** Two candles in which the loops place different numbers of orders. */
  lemma CountersDiffer(risk: RiskConfig, c: real, r: real, p: Progress<nat>, n: nat, early: Style, late: Style,
      q: Progress<nat>, t: Progress<nat>)
    requires Fits(risk, c, r) && Swayed(risk.maxDrawdownPct, c, r)
    requires p == Opening(Market(c), Prices2(c, r), ZERO, Some(risk), 0) && n == 2 == |p.session.broker.candles|
    requires early.snapFirst && early.relabel(SELL, "") == SELL && early.relabel(BUY, "") == BUY
    requires !late.snapFirst && late.relabel(SELL, "") == SELL && late.relabel(BUY, "") == BUY
    requires q == Candles(p, ShortSeller(), n, early) && t == Candles(p, ShortSeller(), n, late)
    ensures q.session.broker.counter != t.session.broker.counter
  {
    TwoCandles(risk, c, r, early, p, n, q);
    TwoCandles(risk, c, r, late, p, n, t);
    PlacesDiffer(risk.maxDrawdownPct, c, r, early, late, q.session.broker.counter, t.session.broker.counter);
  }

  lemma ShortSellerDiverges(risk: RiskConfig)
    requires PeakMatters(risk)
    ensures !AlwaysAgree(risk)
  {
    var c, r := SmallCapital(risk);
    PeaksDisagree(risk.maxDrawdownPct, c, r);
    var p := Opening(Market(c), Prices2(c, r), ZERO, Some(risk), 0);
    var q, t := Candles(p, ShortSeller(), 2, REPLAY_STYLE), Candles(p, ShortSeller(), 2, MAX_STYLE);
    LoopsKeepLabels();
    CountersDiffer(risk, c, r, p, 2, REPLAY_STYLE, MAX_STYLE, q, t);
    assert SameProgress(q, t) ==> q.session.broker.counter == t.session.broker.counter;
    assert !AgreeOn(risk, Market(c), Prices2(c, r), ZERO, ShortSeller(), 2);
  }

  lemma TwoCandles(risk: RiskConfig, c: real, r: real, style: Style, p: Progress<nat>, n: nat, q: Progress<nat>)
    requires Fits(risk, c, r) && style.relabel(SELL, "") == SELL && style.relabel(BUY, "") == BUY
    requires p == Opening(Market(c), Prices2(c, r), ZERO, Some(risk), 0)
    requires n == 2 == |p.session.broker.candles| && q == Candles(p, ShortSeller(), n, style)
    ensures Places(risk.maxDrawdownPct, c, r, style, q.session.broker.counter)
  {
    var first := OneCandle(p, ShortSeller(), 0, style);
    CandlesOfTwo(p, ShortSeller(), style, first);
    FirstCandle(risk, c, r, style, p, first);
    SecondCandle(risk, c, r, first, style, if style.snapFirst then c else 2.0 * c, q);
  }

  lemma CandlesOfTwo(p: Progress<nat>, step: Strategy<nat>, style: Style, first: Progress<nat>)
    requires |p.session.broker.candles| == 2 && first == OneCandle(p, step, 0, style)
    ensures |first.session.broker.candles| == 2
    ensures Candles(p, step, 2, style) == OneCandle(first, step, 1, style)
  {
    OneCandleKeepsCandles(p, step, 0, style);
    LastCandle(p, step, 1, style);
    LastCandle(p, step, 2, style);
  }
}
