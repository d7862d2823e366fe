/** Candle-based fill simulation: at what price and in what quantity an order executes. */
module FillEngine {
  import opened Costs
  import opened Options

  datatype OrderType = Market | Limit | SL | SLM

  datatype Order = Order(
    symbol: string, side: Side, kind: OrderType, qty: int, price: real, trigger: Option<real>,
    instrument: InstrumentType, product: ProductType, reason: string)

  datatype Candle = Candle(symbol: string, open: real, high: real, low: real, close: real) {
    predicate WellFormed() {
      NotNegative() && low <= open <= high && low <= close <= high
    }

    predicate NotNegative() {
      0.0 <= open && 0.0 <= low && 0.0 <= close
    }
  }

  datatype Config = Config(
    initialCapital: real, slippagePct: real, latency: int, fillTimeout: int, partialProbability: real, cost: CostConfig)

  datatype FillResult = Pending | Rejected | Filled(price: real, qty: int, partial: bool)

  /** The seeded generator: the n-th number it yields, in [0, 1). */
  type Rng = nat -> real

  ghost predicate UnitInterval(rng: Rng) {
    forall n :: 0.0 <= rng(n) < 1.0
  }

  function MinReal(x: real, y: real): real {
    if x <= y then x else y
  }

  function MaxReal(x: real, y: real): real {
    if x >= y then x else y
  }

  function Slip(cfg: Config, price: real, side: Side): real {
    var pct := cfg.slippagePct / 100.0;
    if pct <= 0.0 then price else if side == Buy then price * (1.0 + pct) else price * (1.0 - pct)
  }

  datatype Quantity = Quantity(qty: int, partial: bool, cursor: nat)

  /** Draws once to decide whether the fill is partial and once more for its share, 30 to 100%. */
  function MaybePartial(cfg: Config, order: Order, rng: Rng, cursor: nat): Quantity {
    if cfg.partialProbability <= 0.0 || order.qty <= 1 then Quantity(order.qty, false, cursor)
    else if rng(cursor) < cfg.partialProbability then
      var share := order.qty as real * (0.3 + 0.7 * rng(cursor + 1));
      Quantity(if share.Floor < 1 then 1 else share.Floor, true, cursor + 2)
    else Quantity(order.qty, false, cursor + 1)
  }

  /** The price at which a limit order trades in a candle, before any slippage; none when the
      candle does not trade through the limit. */
  function LimitPrice(order: Order, c: Candle): Option<real> {
    if order.side == Buy then
      if c.low > order.price then None else Some(MinReal(order.price, c.open))
    else
      if c.high < order.price then None else Some(MaxReal(order.price, c.open))
  }

  /** A missing or zero trigger falls back to the price. */
  function TriggerOf(order: Order): real {
    if order.trigger.None? || order.trigger.value == 0.0 then order.price else order.trigger.value
  }

  function StopPrice(order: Order, c: Candle): Option<real> {
    var trigger := TriggerOf(order);
    if order.side == Buy then
      if c.high < trigger then None
      else
        var base := MaxReal(trigger, c.open);
        if order.kind != SL then Some(base)
        else if c.low > order.price then None else Some(MinReal(base, order.price))
    else
      if c.low > trigger then None
      else
        var base := MinReal(trigger, c.open);
        if order.kind != SL then Some(base)
        else if c.high < order.price then None else Some(MaxReal(base, order.price))
  }

  /** The candle an order placed or retried at `index` is evaluated on. */
  function Target(cfg: Config, index: int): int {
    index + cfg.latency
  }

  function BasePrice(order: Order, c: Candle): Option<real> {
    match order.kind
    case Market => Some(c.close)
    case Limit => LimitPrice(order, c)
    case SL => StopPrice(order, c)
    case SLM => StopPrice(order, c)
  }

  function FinalPrice(cfg: Config, order: Order, base: real): real {
    if order.kind == Limit then base else Slip(cfg, base, order.side)
  }

  datatype Attempt = Attempt(result: FillResult, cursor: nat)

  function SimulateFill(cfg: Config, candles: seq<Candle>, index: int, order: Order, rng: Rng, cursor: nat): Attempt {
    var target := Target(cfg, index);
    if !(0 <= target < |candles|) then Attempt(Pending, cursor)
    else
      match BasePrice(order, candles[target])
      case None => Attempt(Pending, cursor)
      case Some(base) =>
        var q := MaybePartial(cfg, order, rng, cursor);
        if order.kind == Market && q.qty <= 0 then Attempt(Rejected, q.cursor)
        else Attempt(Filled(FinalPrice(cfg, order, base), q.qty, q.partial), q.cursor)
  }

  // ----- at what price an order trades

  /** The stop level: the trigger, or the price where no trigger is given. */
  predicate IsTrigger(order: Order, level: real) {
    if order.trigger in {None, Some(0.0)} then level == order.price else order.trigger == Some(level)
  }

  predicate KeepsLimit(order: Order, price: real) {
    if order.side == Buy then price <= order.price else price >= order.price
  }

  /** The candle's range comes to the limit, from the side that suits the order. */
  predicate ReachesLimit(order: Order, c: Candle) {
    if order.side == Buy then c.low <= order.price else order.price <= c.high
  }

  predicate ReachesStop(order: Order, level: real, c: Candle) {
    if order.side == Buy then level <= c.high else c.low <= level
  }

  /** The candle opens at the stop or beyond it. */
  predicate OpensBeyond(order: Order, level: real, c: Candle) {
    if order.side == Buy then level <= c.open else c.open <= level
  }

  /** The candle trades through the order's levels. */
  predicate TradesThrough(order: Order, level: real, c: Candle) {
    && (order.kind in {Limit, SL} ==> ReachesLimit(order, c))
    && (order.kind in {SL, SLM} ==> ReachesStop(order, level, c))
  }

  /** A market order trades at the close; a limit order at the open if that is within the limit,
      and otherwise at the limit; a stop at its level, or at the open if that is beyond it, which
      for a stop-limit is held to the limit. */
  predicate TradesAt(order: Order, level: real, c: Candle, base: real) {
    var stopped := if OpensBeyond(order, level, c) then c.open else level;
    match order.kind
    case Market => base == c.close
    case Limit => base == if KeepsLimit(order, c.open) then c.open else order.price
    case SLM => base == stopped
    case SL => base == if KeepsLimit(order, stopped) then stopped else order.price
  }

  /** Whether an order fills and at what price is settled by its levels, the candle's range and
      its open: a candle's close matters to market orders only. */
  lemma LevelsSettleThePrice(order: Order, level: real, c: Candle)
    requires IsTrigger(order, level)
    ensures BasePrice(order, c).Some? <==> TradesThrough(order, level, c)
    ensures BasePrice(order, c).Some? ==> TradesAt(order, level, c, BasePrice(order, c).value)
    ensures forall close :: order.kind != Market ==> BasePrice(order, c.(close := close)) == BasePrice(order, c)
  {
  }

  /** Slippage goes against the trader, by its percentage of the price; a limit order has none. */
  predicate Slips(cfg: Config, order: Order, base: real, price: real) {
    if order.kind == Limit || cfg.slippagePct <= 0.0 then price == base
    else (if order.side == Buy then price - base else base - price) * 100.0 == base * cfg.slippagePct
  }

  lemma FinalPriceSlips(cfg: Config, order: Order, base: real)
    ensures Slips(cfg, order, base, FinalPrice(cfg, order, base))
  {
    SlipParts(base, cfg.slippagePct / 100.0);
  }

  lemma SlipParts(base: real, pct: real)
    ensures base * (1.0 + pct) - base == base * pct == base - base * (1.0 - pct)
  {
  }

  /** In a well-formed candle the price before slippage lies inside the candle; a limit is
      respected, a stop is not bettered. */
  lemma PriceLiesInCandle(order: Order, c: Candle)
    requires c.WellFormed()
    ensures BasePrice(order, c).Some? ==> c.low <= BasePrice(order, c).value <= c.high
    ensures BasePrice(order, c).Some? && order.kind in {Limit, SL} ==> KeepsLimit(order, BasePrice(order, c).value)
    ensures BasePrice(order, c).Some? && order.kind == SLM ==>
      if order.side == Buy then BasePrice(order, c).value >= TriggerOf(order)
      else BasePrice(order, c).value <= TriggerOf(order)
  {
  }

  /** From a candle without negative prices, however ill-formed, no price is negative. */
  lemma BaseIsNotNegative(order: Order, c: Candle)
    requires c.NotNegative() && BasePrice(order, c).Some?
    ensures BasePrice(order, c).value >= 0.0
  {
  }

  /** A price that no slippage of up to 100% can make negative. */
  lemma FinalPriceIsNotNegative(cfg: Config, order: Order, base: real)
    requires base >= 0.0 && cfg.slippagePct <= 100.0
    ensures FinalPrice(cfg, order, base) >= 0.0
  {
    var pct := cfg.slippagePct / 100.0;
    if pct > 0.0 {
      assert 1.0 - pct >= 0.0;
      assert base * (1.0 - pct) >= 0.0 && base * (1.0 + pct) >= 0.0;
    }
  }

  ghost predicate KeepsPricesNotNegative(cfg: Config) {
    forall order: Order, c: Candle :: c.NotNegative() && BasePrice(order, c).Some?
      ==> FinalPrice(cfg, order, BasePrice(order, c).value) >= 0.0
  }

  /** Fill prices are never negative, in any candle without negative prices, exactly when slippage
      is at most 100%: beyond that, a sale is booked at a negative price. */
  lemma PricesNotNegativeExactly(cfg: Config)
    ensures KeepsPricesNotNegative(cfg) <==> cfg.slippagePct <= 100.0
  {
    if cfg.slippagePct <= 100.0 {
      forall order: Order, c: Candle | c.NotNegative() && BasePrice(order, c).Some?
        ensures FinalPrice(cfg, order, BasePrice(order, c).value) >= 0.0
      {
        BaseIsNotNegative(order, c);
        FinalPriceIsNotNegative(cfg, order, BasePrice(order, c).value);
      }
    } else {
      var order := Order("X", Sell, OrderType.Market, 1, 0.0, None, EQ, Intraday, "");
      var c := Candle("X", 1.0, 1.0, 1.0, 1.0);
      assert BasePrice(order, c) == Some(1.0);
      assert FinalPrice(cfg, order, 1.0) < 0.0;
    }
  }

  /** Slippage is applied after a stop-limit's limit: fills keep to the limit in every candle
      exactly when there is no slippage. */
  lemma StopLimitKeepsLimitOnlyWithoutSlippage(cfg: Config)
    ensures (forall order: Order, c: Candle ::
              order.kind == SL && c.WellFormed() && BasePrice(order, c).Some?
              ==> KeepsLimit(order, FinalPrice(cfg, order, BasePrice(order, c).value)))
            <==> cfg.slippagePct <= 0.0
  {
    if cfg.slippagePct <= 0.0 {
      forall order: Order, c: Candle | order.kind == SL && c.WellFormed() && BasePrice(order, c).Some?
        ensures KeepsLimit(order, FinalPrice(cfg, order, BasePrice(order, c).value))
      {
        PriceLiesInCandle(order, c);
      }
    } else {
      var order := Order("X", Buy, SL, 1, 100.0, Some(100.0), EQ, Intraday, "");
      var c := Candle("X", 100.0, 100.0, 100.0, 100.0);
      assert BasePrice(order, c) == Some(100.0);
      assert FinalPrice(cfg, order, 100.0) > 100.0;
    }
  }

  /** A share of 30 to 100% of the quantity, in whole units. */
  predicate IsShare(qty: int, u: real, units: int) {
    var share := qty as real * (0.3 + 0.7 * u);
    if share < 1.0 then units == 1 else units as real <= share < (units + 1) as real
  }

  lemma ShareIsInRange(qty: int, u: real, units: int)
    requires qty >= 2 && 0.0 <= u < 1.0 && IsShare(qty, u, units)
    ensures 1 <= units <= qty && 3 * qty < 10 * (units + 1)
  {
    ShareBetween(qty as real, u, qty as real * (0.3 + 0.7 * u));
    WholeUnitsBetween(qty, qty as real * (0.3 + 0.7 * u), units);
  }

  lemma ShareBetween(q: real, u: real, share: real)
    requires q >= 2.0 && 0.0 <= u < 1.0 && share == q * (0.3 + 0.7 * u)
    ensures 3.0 * q <= 10.0 * share && share <= q
  {
    ShareParts(q, u);
    assert q * u >= 0.0;
    assert q * (1.0 - u) >= 0.0;
  }

  lemma ShareParts(q: real, u: real)
    ensures q * (0.3 + 0.7 * u) == 0.3 * q + 0.7 * (q * u) && q * (1.0 - u) == q - q * u
  {
  }

  lemma WholeUnitsBetween(qty: int, share: real, units: int)
    requires qty >= 2 && 3.0 * qty as real <= 10.0 * share && share <= qty as real
    requires if share < 1.0 then units == 1 else units as real <= share < (units + 1) as real
    ensures 1 <= units <= qty && 3 * qty < 10 * (units + 1)
  {
  }

  /** Some of the units, where fills may be partial and there is more than one to take: 30% at
      the least, rounded down. */
  predicate PartOf(cfg: Config, order: Order, qty: int) {
    && cfg.partialProbability > 0.0 && order.qty >= 2
    && 1 <= qty <= order.qty && 3 * order.qty < 10 * (qty + 1)
  }

  /** What is drawn for a fill: one number to say whether it is partial, and if it is, one more
      for its share.  Orders for one unit or fewer are never cut: a limit or stop order for none,
      or fewer, is filled as it stands. */
  lemma FillQuantityIsDrawn(cfg: Config, candles: seq<Candle>, index: int, order: Order, rng: Rng, cursor: nat)
    requires UnitInterval(rng)
    ensures var a := SimulateFill(cfg, candles, index, order, rng, cursor);
            var r, draws := a.result, cfg.partialProbability > 0.0 && order.qty >= 2;
      && (r.Filled? ==> (r.partial <==> draws && rng(cursor) < cfg.partialProbability))
      && (r.Filled? && r.partial ==> IsShare(order.qty, rng(cursor + 1), r.qty) && PartOf(cfg, order, r.qty))
      && (r.Filled? && !r.partial ==> r.qty == order.qty && (order.kind == Market ==> r.qty >= 1))
      && a.cursor == cursor + if !r.Filled? || !draws then 0 else if r.partial then 2 else 1
  {
    if cfg.partialProbability > 0.0 && order.qty >= 2 {
      var q := MaybePartial(cfg, order, rng, cursor);
      if q.partial {
        ShareIsInRange(order.qty, rng(cursor + 1), q.qty);
      }
    }
  }

  /** A fill takes between one unit and the whole quantity exactly when the order asks for at
      least one unit. */
  lemma FillQuantityInRange(cfg: Config, candles: seq<Candle>, index: int, order: Order, rng: Rng, cursor: nat)
    requires UnitInterval(rng)
    ensures var r := SimulateFill(cfg, candles, index, order, rng, cursor).result;
      && (r.Filled? ==> (1 <= r.qty <= order.qty <==> order.qty >= 1))
      && (r.Filled? && order.qty < 1 ==> r.qty == order.qty && order.kind != Market)
      && (r.Filled? && r.qty != order.qty ==> PartOf(cfg, order, r.qty))
  {
    FillQuantityIsDrawn(cfg, candles, index, order, rng, cursor);
  }
}
