/** The Indian market cost model: seven charges on one fill, each rounded to paise. */
module Costs {
  import opened Options

  datatype Side = Buy | Sell

  datatype CostSegment = EquityDelivery | EquityIntraday | Futures | Options

  datatype InstrumentType = EQ | FUT | OPT

  datatype ProductType = Delivery | Intraday | MIS | NRML

  function SegmentFor(instrument: InstrumentType, product: ProductType): CostSegment {
    match instrument
    case FUT => Futures
    case OPT => CostSegment.Options
    case EQ => if product == Delivery then EquityDelivery else EquityIntraday
  }

  /** All percentages are per unit of traded value. */
  datatype CostConfig = CostConfig(
    commissionPct: real, commissionMin: real, brokerageFlatOptions: real,
    sttEnabled: bool, exchangeChargesEnabled: bool, stampDutyEnabled: bool, gstEnabled: bool, sebiFeesEnabled: bool,
    gstRate: real, sebiFeesPerCrore: real,
    sttPctOverride: Option<real>, exchangeTcPctOverride: Option<real>, stampDutyPctOverride: Option<real>)

  const DEFAULT_CONFIG := CostConfig(0.03, 20.0, 20.0, true, true, true, true, true, 18.0, 10.0, None, None, None)

  function ExchangeTcRate(seg: CostSegment): real {
    match seg
    case EquityDelivery => 0.00297
    case EquityIntraday => 0.00297
    case Futures => 0.00173
    case Options => 0.03503
  }

  function SttTableRate(seg: CostSegment): real {
    match seg
    case EquityDelivery => 0.1
    case EquityIntraday => 0.025
    case Futures => 0.0125
    case Options => 0.1
  }

  function StampDutyRate(seg: CostSegment): real {
    match seg
    case EquityDelivery => 0.015
    case EquityIntraday => 0.003
    case Futures => 0.002
    case Options => 0.003
  }

  /** The divisor in the code.  One crore is 10 000 000. */
  const CRORE := 100_000_000.0
  const ONE_CRORE := 10_000_000.0

  // ----- rounding

  /** To the nearest integer, ties to the even one. */
  function RoundHalfEven(x: real): int {
    var below := x.Floor;
    var part := x - below as real;
    if part < 0.5 || (part == 0.5 && below % 2 == 0) then below else below + 1
  }

  function Paise(x: real): int {
    RoundHalfEven(x * 100.0)
  }

  function Round2(x: real): real {
    Rupees(Paise(x))
  }

  function Rupees(paise: int): real {
    paise as real / 100.0
  }

  function Abs(x: real): (r: real) {
    if x < 0.0 then -x else x
  }

  function Max(x: real, y: real): real {
    if x >= y then x else y
  }

  predicate Within(x: real, y: real, bound: real) {
    y - bound <= x <= y + bound
  }

  /** Rounding moves an amount by half a paisa at most, keeps the order of amounts and leaves
      whole paise alone. */
  lemma Round2IsClose(x: real)
    ensures Within(Round2(x), x, 0.005)
  {
  }

  /** A tie goes to the even neighbour. */
  lemma TiesGoToEven(n: int)
    ensures RoundHalfEven(n as real + 0.5) == if n % 2 == 0 then n else n + 1
  {
    assert (n as real + 0.5).Floor == n;
  }

  lemma PaiseMonotone(x: real, y: real)
    requires x <= y
    ensures Paise(x) <= Paise(y) && Round2(x) <= Round2(y)
  {
    assert (x * 100.0).Floor <= (y * 100.0).Floor;
  }

  lemma Round2OfPaise(n: int)
    ensures Round2(Rupees(n)) == Rupees(n)
  {
    assert Rupees(n) * 100.0 == n as real;
  }

  // ----- one fill

  datatype CostEstimate = CostEstimate(
    slippage: real, brokerage: real, exchangeTc: real, stt: real, stampDuty: real, gst: real, sebi: real, total: real)

  function SttRate(side: Side, seg: CostSegment, cfg: CostConfig): real {
    var rate := cfg.sttPctOverride.GetOr(SttTableRate(seg));
    if seg == EquityDelivery && side == Buy then 0.0
    else if seg == Futures && side == Buy then 0.0
    else if seg == CostSegment.Options && side == Buy then 0.0
    else if cfg.sttPctOverride.Some? && seg != EquityIntraday && side == Buy then 0.0
    else rate
  }

  /** The charges before rounding; GST is charged on the other two later. */
  datatype Charges = Charges(slippage: real, brokerage: real, exchangeTc: real, stt: real, stampDuty: real, sebi: real)

  function Percent(value: real, rate: real): real {
    value * rate / 100.0
  }

  function SebiFee(tradedValue: real, perCrore: real): real {
    tradedValue / CRORE * perCrore
  }

  function ChargesFor(side: Side, tradedValue: real, seg: CostSegment, slippageValue: real, cfg: CostConfig): Charges {
    Charges(
      Abs(slippageValue),
      if seg == CostSegment.Options then cfg.brokerageFlatOptions
      else Max(Percent(tradedValue, cfg.commissionPct), cfg.commissionMin),
      if cfg.exchangeChargesEnabled
      then Percent(tradedValue, cfg.exchangeTcPctOverride.GetOr(ExchangeTcRate(seg))) else 0.0,
      if cfg.sttEnabled then Percent(tradedValue, SttRate(side, seg, cfg)) else 0.0,
      if cfg.stampDutyEnabled && side == Buy
      then Percent(tradedValue, cfg.stampDutyPctOverride.GetOr(StampDutyRate(seg))) else 0.0,
      if cfg.sebiFeesEnabled && tradedValue > 0.0 then SebiFee(tradedValue, cfg.sebiFeesPerCrore) else 0.0)
  }

  function Gst(base: real, cfg: CostConfig): real {
    if cfg.gstEnabled then Percent(base, cfg.gstRate) else 0.0
  }

  /** Rounds every charge and levies GST on the rounded brokerage and exchange charges. */
  function Bill(raw: Charges, cfg: CostConfig): CostEstimate {
    var slippage, brokerage, exchangeTc := Round2(raw.slippage), Round2(raw.brokerage), Round2(raw.exchangeTc);
    var stt, stampDuty, sebi := Round2(raw.stt), Round2(raw.stampDuty), Round2(raw.sebi);
    var gst := Round2(Gst(brokerage + exchangeTc, cfg));
    CostEstimate(slippage, brokerage, exchangeTc, stt, stampDuty, gst, sebi,
                 Round2(slippage + brokerage + exchangeTc + stt + stampDuty + gst + sebi))
  }

  function EstimateCost(side: Side, tradedValue: real, seg: CostSegment, slippageValue: real,
      cfg: CostConfig): CostEstimate {
    Bill(ChargesFor(side, tradedValue, seg, slippageValue, cfg), cfg)
  }

  /** The charges with no rounding anywhere: what the rates say. */
  function ExactCost(side: Side, tradedValue: real, seg: CostSegment, slippageValue: real, cfg: CostConfig): real {
    Exact(ChargesFor(side, tradedValue, seg, slippageValue, cfg), cfg)
  }

  function Exact(raw: Charges, cfg: CostConfig): real {
    raw.slippage + raw.brokerage + raw.exchangeTc + raw.stt + raw.stampDuty
    + Gst(raw.brokerage + raw.exchangeTc, cfg) + raw.sebi
  }

  ghost predicate NonNegativeRates(cfg: CostConfig) {
    && cfg.commissionPct >= 0.0 && cfg.gstRate >= 0.0 && cfg.sebiFeesPerCrore >= 0.0
    && cfg.sttPctOverride.GetOr(0.0) >= 0.0 && cfg.exchangeTcPctOverride.GetOr(0.0) >= 0.0
    && cfg.stampDutyPctOverride.GetOr(0.0) >= 0.0
  }

  ghost function RoundingBound(cfg: CostConfig): real {
    0.035 + 0.01 * cfg.gstRate / 100.0
  }

  lemma SumOfSeven(a: int, b: int, c: int, d: int, e: int, f: int, g: int)
    ensures var sum := Rupees(a) + Rupees(b) + Rupees(c) + Rupees(d) + Rupees(e) + Rupees(f) + Rupees(g);
      Round2(sum) == sum == Rupees(a + b + c + d + e + f + g)
  {
    Round2OfPaise(a + b + c + d + e + f + g);
  }

  /** The final rounding changes nothing: a sum of whole paise is whole paise. */
  lemma TotalIsTheSum(raw: Charges, cfg: CostConfig)
    ensures var c := Bill(raw, cfg);
      && c.total == c.slippage + c.brokerage + c.exchangeTc + c.stt + c.stampDuty + c.gst + c.sebi
      && c.total == Rupees(Paise(raw.slippage) + Paise(raw.brokerage) + Paise(raw.exchangeTc) + Paise(raw.stt)
                           + Paise(raw.stampDuty) + Paise(Gst(c.brokerage + c.exchangeTc, cfg)) + Paise(raw.sebi))
  {
    var c := Bill(raw, cfg);
    SumOfSeven(Paise(raw.slippage), Paise(raw.brokerage), Paise(raw.exchangeTc), Paise(raw.stt), Paise(raw.stampDuty),
               Paise(Gst(c.brokerage + c.exchangeTc, cfg)), Paise(raw.sebi));
  }

  // ----- who pays what

  /** The amount is the rate, in per cent of the value, to the nearest paisa. */
  ghost predicate Levied(amount: real, value: real, rate: real) {
    Within(amount, value * rate / 100.0, 0.005) && exists paise: int :: amount == Rupees(paise)
  }

  lemma RoundedIsLevied(value: real, rate: real)
    ensures Levied(Round2(Percent(value, rate)), value, rate)
  {
    Round2IsClose(Percent(value, rate));
    assert Round2(Percent(value, rate)) == Rupees(Paise(Percent(value, rate)));
  }

  /** STT falls on sales, and on intraday equity purchases too; stamp duty on purchases only. */
  lemma DutiesBySide(side: Side, value: real, seg: CostSegment, slippageValue: real, cfg: CostConfig)
    ensures var c := EstimateCost(side, value, seg, slippageValue, cfg);
      && (if cfg.sttEnabled && (side == Sell || seg == EquityIntraday)
          then Levied(c.stt, value, cfg.sttPctOverride.GetOr(SttTableRate(seg))) else c.stt == 0.0)
      && (if cfg.stampDutyEnabled && side == Buy
          then Levied(c.stampDuty, value, cfg.stampDutyPctOverride.GetOr(StampDutyRate(seg))) else c.stampDuty == 0.0)
  {
    RoundedIsLevied(value, cfg.sttPctOverride.GetOr(SttTableRate(seg)));
    RoundedIsLevied(value, cfg.stampDutyPctOverride.GetOr(StampDutyRate(seg)));
    Round2OfPaise(0);
    assert Rupees(0) == 0.0 && Percent(value, 0.0) == 0.0;
  }

  /** Options pay a flat brokerage and all others the commission, but a minimum at least; exchange
      charges go by the segment; GST falls on these two, and on nothing else. */
  lemma FeesBySegment(side: Side, value: real, seg: CostSegment, slippageValue: real, cfg: CostConfig)
    ensures FeesAreDue(EstimateCost(side, value, seg, slippageValue, cfg), value, seg, slippageValue, cfg)
  {
    var c := EstimateCost(side, value, seg, slippageValue, cfg);
    BrokerageIsDue(side, value, seg, slippageValue, cfg);
    ExchangeChargeIsDue(side, value, seg, slippageValue, cfg);
    GstIsDue(ChargesFor(side, value, seg, slippageValue, cfg), cfg);
    Round2IsClose(Abs(slippageValue));
    Round2OfPaise(0);
    assert Rupees(0) == 0.0;
  }

  lemma BrokerageIsDue(side: Side, value: real, seg: CostSegment, slippageValue: real, cfg: CostConfig)
    ensures Within(EstimateCost(side, value, seg, slippageValue, cfg).brokerage, Brokerage(value, seg, cfg), 0.005)
  {
    var raw := ChargesFor(side, value, seg, slippageValue, cfg).brokerage;
    assert raw == Brokerage(value, seg, cfg);
    Round2IsClose(raw);
  }

  ghost predicate ExchangeIsDue(amount: real, value: real, seg: CostSegment, cfg: CostConfig) {
    if cfg.exchangeChargesEnabled then Levied(amount, value, cfg.exchangeTcPctOverride.GetOr(ExchangeTcRate(seg)))
    else amount == 0.0
  }

  lemma ExchangeChargeIsDue(side: Side, value: real, seg: CostSegment, slippageValue: real, cfg: CostConfig)
    ensures ExchangeIsDue(EstimateCost(side, value, seg, slippageValue, cfg).exchangeTc, value, seg, cfg)
  {
    RoundedIsLevied(value, cfg.exchangeTcPctOverride.GetOr(ExchangeTcRate(seg)));
    Round2OfPaise(0);
  }

  ghost predicate GstDue(c: CostEstimate, cfg: CostConfig) {
    if cfg.gstEnabled then Levied(c.gst, c.brokerage + c.exchangeTc, cfg.gstRate) else c.gst == 0.0
  }

  lemma GstIsDue(raw: Charges, cfg: CostConfig)
    ensures GstDue(Bill(raw, cfg), cfg)
  {
    RoundedIsLevied(Bill(raw, cfg).brokerage + Bill(raw, cfg).exchangeTc, cfg.gstRate);
    Round2OfPaise(0);
  }

  ghost predicate FeesAreDue(c: CostEstimate, value: real, seg: CostSegment, slippageValue: real, cfg: CostConfig) {
    && Within(c.brokerage, Brokerage(value, seg, cfg), 0.005)
    && ExchangeIsDue(c.exchangeTc, value, seg, cfg) && GstDue(c, cfg)
    && (!cfg.sebiFeesEnabled || value <= 0.0 ==> c.sebi == 0.0)
    && Within(c.slippage, if slippageValue < 0.0 then -slippageValue else slippageValue, 0.005)
  }

  function Brokerage(value: real, seg: CostSegment, cfg: CostConfig): real {
    if seg == CostSegment.Options then cfg.brokerageFlatOptions
    else if value * cfg.commissionPct / 100.0 < cfg.commissionMin then cfg.commissionMin
    else value * cfg.commissionPct / 100.0
  }

  predicate RoundsTo(x: real, paise: int) {
    paise as real - 0.5 < x * 100.0 < paise as real + 0.5
  }

  lemma Round2At(x: real, paise: int)
    requires RoundsTo(x, paise)
    ensures Round2(x) == Rupees(paise)
  {
    RoundHalfEvenAt(x * 100.0, paise);
  }

  lemma RoundHalfEvenAt(x: real, n: int)
    requires n as real - 0.5 < x < n as real + 0.5
    ensures RoundHalfEven(x) == n
  {
    assert x.Floor == if x < n as real then n - 1 else n;
  }

  /** A bill without slippage, in paise. */
  function BillOfPaise(brokerage: int, exchangeTc: int, stt: int, stampDuty: int, gst: int, sebi: int): CostEstimate {
    CostEstimate(0.0, Rupees(brokerage), Rupees(exchangeTc), Rupees(stt), Rupees(stampDuty), Rupees(gst), Rupees(sebi),
                 Rupees(brokerage + exchangeTc + stt + stampDuty + gst + sebi))
  }

  lemma BillRoundsTo(raw: Charges, cfg: CostConfig, brokerage: int, exchangeTc: int, stt: int, stampDuty: int, gst: int,
      sebi: int)
    requires raw.slippage == 0.0 && RoundsTo(raw.brokerage, brokerage) && RoundsTo(raw.exchangeTc, exchangeTc)
    requires RoundsTo(raw.stt, stt) && RoundsTo(raw.stampDuty, stampDuty) && RoundsTo(raw.sebi, sebi)
    requires RoundsTo(Gst(Rupees(brokerage) + Rupees(exchangeTc), cfg), gst)
    ensures Bill(raw, cfg) == BillOfPaise(brokerage, exchangeTc, stt, stampDuty, gst, sebi)
  {
    Round2At(raw.slippage, 0);
    Round2At(raw.brokerage, brokerage);
    Round2At(raw.exchangeTc, exchangeTc);
    Round2At(raw.stt, stt);
    Round2At(raw.stampDuty, stampDuty);
    Round2At(raw.sebi, sebi);
    Round2At(Gst(Rupees(brokerage) + Rupees(exchangeTc), cfg), gst);
    SumOfSeven(0, brokerage, exchangeTc, stt, stampDuty, gst, sebi);
  }

  const LAKH := 100_000.0

  /** What a trade of a lakh costs under the default rates, by side and segment, in paise. */
  lemma BillForALakh(side: Side, seg: CostSegment)
    ensures EstimateCost(side, LAKH, seg, 0.0, DEFAULT_CONFIG) ==
      match seg
      case EquityDelivery => if side == Buy then BillOfPaise(3000, 297, 0, 1500, 593, 1)
                             else BillOfPaise(3000, 297, 10000, 0, 593, 1)
      case EquityIntraday => if side == Buy then BillOfPaise(3000, 297, 2500, 300, 593, 1)
                             else BillOfPaise(3000, 297, 2500, 0, 593, 1)
      case Futures => if side == Buy then BillOfPaise(3000, 173, 0, 200, 571, 1)
                      else BillOfPaise(3000, 173, 1250, 0, 571, 1)
      case Options => if side == Buy then BillOfPaise(2000, 3503, 0, 300, 991, 1)
                      else BillOfPaise(2000, 3503, 10000, 0, 991, 1)
  {
    var raw, cfg, buying := ChargesFor(side, LAKH, seg, 0.0, DEFAULT_CONFIG), DEFAULT_CONFIG, side == Buy;
    match seg
    case EquityDelivery =>
      BillRoundsTo(raw, cfg, 3000, 297, if buying then 0 else 10000, if buying then 1500 else 0, 593, 1);
    case EquityIntraday => BillRoundsTo(raw, cfg, 3000, 297, 2500, if buying then 300 else 0, 593, 1);
    case Futures => BillRoundsTo(raw, cfg, 3000, 173, if buying then 0 else 1250, if buying then 200 else 0, 571, 1);
    case Options => BillRoundsTo(raw, cfg, 2000, 3503, if buying then 0 else 10000, if buying then 300 else 0, 991, 1);
  }

  /** Of equities only those bought for delivery are delivered; futures and options are segments of
      their own, whatever the product. */
  lemma SegmentsByInstrument(instrument: InstrumentType, product: ProductType)
    ensures SegmentFor(instrument, product) == EquityDelivery <==> instrument == EQ && product == Delivery
    ensures SegmentFor(instrument, product) == EquityIntraday <==> instrument == EQ && product != Delivery
    ensures SegmentFor(instrument, product) == Futures <==> instrument == FUT
  {
  }

  lemma PercentMonotone(a: real, b: real, rate: real)
    requires a <= b && rate >= 0.0
    ensures Percent(a, rate) <= Percent(b, rate)
    ensures SebiFee(a, rate) <= SebiFee(b, rate)
  {
    assert a * rate <= b * rate;
    assert a / CRORE * rate == a * rate / CRORE && b / CRORE * rate == b * rate / CRORE;
  }

  lemma PercentOfSum(a: real, b: real, rate: real)
    ensures Percent(a + b, rate) == Percent(a, rate) + Percent(b, rate)
  {
  }

  lemma GstError(rounded: real, exact: real, cfg: CostConfig)
    requires Within(rounded, exact, 0.01) && cfg.gstRate >= 0.0
    ensures Within(Gst(rounded, cfg), Gst(exact, cfg), 0.01 * cfg.gstRate / 100.0)
  {
    PercentMonotone(rounded, exact + 0.01, cfg.gstRate);
    PercentMonotone(exact - 0.01, rounded, cfg.gstRate);
    PercentOfSum(exact, 0.01, cfg.gstRate);
    PercentOfSum(exact, -0.01, cfg.gstRate);
  }

  ghost predicate PartsAreClose(c: CostEstimate, raw: Charges, base: real) {
    && Within(c.slippage, raw.slippage, 0.005) && Within(c.brokerage, raw.brokerage, 0.005)
    && Within(c.exchangeTc, raw.exchangeTc, 0.005) && Within(c.stt, raw.stt, 0.005)
    && Within(c.stampDuty, raw.stampDuty, 0.005) && Within(c.sebi, raw.sebi, 0.005)
    && Within(c.gst, base, 0.005)
  }

  lemma EachPartIsClose(raw: Charges, cfg: CostConfig)
    ensures var c := Bill(raw, cfg); PartsAreClose(c, raw, Gst(c.brokerage + c.exchangeTc, cfg))
  {
    var c := Bill(raw, cfg);
    Round2IsClose(raw.slippage);
    Round2IsClose(raw.brokerage);
    Round2IsClose(raw.exchangeTc);
    Round2IsClose(raw.stt);
    Round2IsClose(raw.stampDuty);
    Round2IsClose(raw.sebi);
    Round2IsClose(Gst(c.brokerage + c.exchangeTc, cfg));
  }

  /** Seven half-paisa errors, and the GST on two of them. */
  lemma AddErrors(c: CostEstimate, raw: Charges, cfg: CostConfig)
    requires PartsAreClose(c, raw, Gst(c.brokerage + c.exchangeTc, cfg)) && cfg.gstRate >= 0.0
    requires c.total == c.slippage + c.brokerage + c.exchangeTc + c.stt + c.stampDuty + c.gst + c.sebi
    ensures Within(c.total, Exact(raw, cfg), RoundingBound(cfg))
  {
    GstError(c.brokerage + c.exchangeTc, raw.brokerage + raw.exchangeTc, cfg);
  }

  lemma BillIsClose(raw: Charges, cfg: CostConfig)
    requires cfg.gstRate >= 0.0
    ensures Within(Bill(raw, cfg).total, Exact(raw, cfg), RoundingBound(cfg))
  {
    TotalIsTheSum(raw, cfg);
    EachPartIsClose(raw, cfg);
    AddErrors(Bill(raw, cfg), raw, cfg);
  }

  /** Rounding each charge to paise moves the total by at most 3.5 paise and the GST on one paisa. */
  lemma RoundingIsBounded(side: Side, tradedValue: real, seg: CostSegment, slippageValue: real, cfg: CostConfig)
    requires cfg.gstRate >= 0.0
    ensures Within(EstimateCost(side, tradedValue, seg, slippageValue, cfg).total,
                   ExactCost(side, tradedValue, seg, slippageValue, cfg), RoundingBound(cfg))
  {
    BillIsClose(ChargesFor(side, tradedValue, seg, slippageValue, cfg), cfg);
  }

  ghost predicate NoLess(a: Charges, b: Charges) {
    && a.slippage <= b.slippage && a.brokerage <= b.brokerage && a.exchangeTc <= b.exchangeTc
    && a.stt <= b.stt && a.stampDuty <= b.stampDuty && a.sebi <= b.sebi
  }

  ghost predicate PartsInOrder(x: CostEstimate, y: CostEstimate) {
    && x.slippage <= y.slippage && x.brokerage <= y.brokerage && x.exchangeTc <= y.exchangeTc && x.stt <= y.stt
    && x.stampDuty <= y.stampDuty && x.gst <= y.gst && x.sebi <= y.sebi
  }

  lemma BillPartsInOrder(a: Charges, b: Charges, cfg: CostConfig)
    requires NoLess(a, b) && cfg.gstRate >= 0.0
    ensures PartsInOrder(Bill(a, cfg), Bill(b, cfg))
  {
    PaiseMonotone(a.slippage, b.slippage);
    PaiseMonotone(a.brokerage, b.brokerage);
    PaiseMonotone(a.exchangeTc, b.exchangeTc);
    PaiseMonotone(a.stt, b.stt);
    PaiseMonotone(a.stampDuty, b.stampDuty);
    PaiseMonotone(a.sebi, b.sebi);
    GstMonotone(Round2(a.brokerage) + Round2(a.exchangeTc), Round2(b.brokerage) + Round2(b.exchangeTc), cfg);
  }

  lemma BillIsMonotone(a: Charges, b: Charges, cfg: CostConfig)
    requires NoLess(a, b) && cfg.gstRate >= 0.0
    ensures Bill(a, cfg).total <= Bill(b, cfg).total
  {
    BillPartsInOrder(a, b, cfg);
    TotalIsTheSum(a, cfg);
    TotalIsTheSum(b, cfg);
    AddInOrder(Bill(a, cfg), Bill(b, cfg));
  }

  lemma GstMonotone(a: real, b: real, cfg: CostConfig)
    requires a <= b && cfg.gstRate >= 0.0
    ensures Round2(Gst(a, cfg)) <= Round2(Gst(b, cfg))
  {
    PercentMonotone(a, b, cfg.gstRate);
    PaiseMonotone(Gst(a, cfg), Gst(b, cfg));
  }

  lemma AddInOrder(x: CostEstimate, y: CostEstimate)
    requires PartsInOrder(x, y)
    requires x.total == x.slippage + x.brokerage + x.exchangeTc + x.stt + x.stampDuty + x.gst + x.sebi
    requires y.total == y.slippage + y.brokerage + y.exchangeTc + y.stt + y.stampDuty + y.gst + y.sebi
    ensures x.total <= y.total
  {
  }

  lemma ChargesAreMonotone(side: Side, small: real, large: real, seg: CostSegment, less: real, more: real,
      cfg: CostConfig)
    requires NonNegativeRates(cfg) && small <= large && Abs(less) <= Abs(more)
    ensures NoLess(ChargesFor(side, small, seg, less, cfg), ChargesFor(side, large, seg, more, cfg))
  {
    PercentMonotone(small, large, cfg.commissionPct);
    PercentMonotone(small, large, cfg.exchangeTcPctOverride.GetOr(ExchangeTcRate(seg)));
    PercentMonotone(small, large, SttRate(side, seg, cfg));
    PercentMonotone(small, large, cfg.stampDutyPctOverride.GetOr(StampDutyRate(seg)));
    PercentMonotone(small, large, cfg.sebiFeesPerCrore);
    if large > 0.0 {
      PercentMonotone(0.0, large, cfg.sebiFeesPerCrore);
      assert SebiFee(0.0, cfg.sebiFeesPerCrore) == 0.0;
    }
  }

  /** A larger trade on the same side, in the same segment and with no less slippage, never costs
      less. */
  lemma TotalIsMonotone(side: Side, small: real, large: real, seg: CostSegment, less: real, more: real, cfg: CostConfig)
    requires NonNegativeRates(cfg) && small <= large && Abs(less) <= Abs(more)
    ensures EstimateCost(side, small, seg, less, cfg).total <= EstimateCost(side, large, seg, more, cfg).total
  {
    ChargesAreMonotone(side, small, large, seg, less, more, cfg);
    BillIsMonotone(ChargesFor(side, small, seg, less, cfg), ChargesFor(side, large, seg, more, cfg), cfg);
  }

  /** A share of a value has the greater magnitude the greater the value. */
  lemma ShareGrows(small: real, large: real, pct: real)
    requires 0.0 <= small <= large
    ensures Abs(Percent(small, pct)) <= Abs(Percent(large, pct))
  {
    if pct >= 0.0 {
      PercentMonotone(small, large, pct);
      PercentMonotone(0.0, small, pct);
    } else {
      PercentMonotone(small, large, -pct);
      PercentMonotone(0.0, small, -pct);
      assert small * pct == -(small * -pct) && large * pct == -(large * -pct);
    }
  }

  /** With the rate quoted per crore, the code charges exactly a tenth of it, whatever the trade. */
  lemma SebiFeeIsATenth(tradedValue: real, perCrore: real)
    ensures 10.0 * SebiFee(tradedValue, perCrore) == tradedValue / ONE_CRORE * perCrore
    ensures EstimateCost(Buy, ONE_CRORE, EquityIntraday, 0.0, DEFAULT_CONFIG).sebi == 1.0
  {
    assert 10.0 * (tradedValue / CRORE) == tradedValue / ONE_CRORE;
    assert SebiFee(ONE_CRORE, 10.0) == Rupees(100);
    Round2OfPaise(100);
  }

  /** So the fee is the quoted one only where there is nothing to charge. */
  lemma SebiFeeIsRightOnlyForNothing(tradedValue: real, perCrore: real)
    ensures SebiFee(tradedValue, perCrore) == tradedValue / ONE_CRORE * perCrore <==> tradedValue * perCrore == 0.0
  {
    var quoted := tradedValue / ONE_CRORE * perCrore;
    TenTimesTheFee(tradedValue, perCrore);
    ShareOfCrore(tradedValue, tradedValue / ONE_CRORE, perCrore);
    TenthIsWhole(SebiFee(tradedValue, perCrore), quoted, tradedValue * perCrore);
  }

  lemma TenTimesTheFee(tradedValue: real, perCrore: real)
    ensures 10.0 * SebiFee(tradedValue, perCrore) == tradedValue / ONE_CRORE * perCrore
  {
  }

  lemma TenthIsWhole(fee: real, quoted: real, product: real)
    requires 10.0 * fee == quoted && product == quoted * ONE_CRORE
    ensures fee == quoted <==> product == 0.0
  {
  }

  lemma ShareOfCrore(tradedValue: real, crores: real, perCrore: real)
    requires tradedValue == crores * ONE_CRORE
    ensures tradedValue * perCrore == crores * perCrore * ONE_CRORE
  {
  }

  // ----- both legs

  function Opposite(side: Side): Side {
    if side == Buy then Sell else Buy
  }

  function BothLegs(entry: CostEstimate, exit: CostEstimate): CostEstimate {
    CostEstimate(
      Round2(entry.slippage + exit.slippage), Round2(entry.brokerage + exit.brokerage),
      Round2(entry.exchangeTc + exit.exchangeTc), Round2(entry.stt + exit.stt),
      Round2(entry.stampDuty + exit.stampDuty), Round2(entry.gst + exit.gst),
      Round2(entry.sebi + exit.sebi), Round2(entry.total + exit.total))
  }

  function EstimateRoundTrip(side: Side, entryValue: real, exitValue: real, seg: CostSegment,
                             slippageEntry: real, slippageExit: real, cfg: CostConfig): CostEstimate {
    BothLegs(EstimateCost(side, entryValue, seg, slippageEntry, cfg),
             EstimateCost(Opposite(side), exitValue, seg, slippageExit, cfg))
  }

  /** A round trip costs its two legs, to the paisa, and is within twice the one-leg bound of
      the unrounded charges. */
  lemma RoundTripIsBothLegs(side: Side, entryValue: real, exitValue: real, seg: CostSegment,
                            slippageEntry: real, slippageExit: real, cfg: CostConfig)
    requires cfg.gstRate >= 0.0
    ensures EstimateRoundTrip(side, entryValue, exitValue, seg, slippageEntry, slippageExit, cfg).total
            == EstimateCost(side, entryValue, seg, slippageEntry, cfg).total
               + EstimateCost(Opposite(side), exitValue, seg, slippageExit, cfg).total
    ensures Within(EstimateRoundTrip(side, entryValue, exitValue, seg, slippageEntry, slippageExit, cfg).total,
                   ExactCost(side, entryValue, seg, slippageEntry, cfg)
                   + ExactCost(Opposite(side), exitValue, seg, slippageExit, cfg), 2.0 * RoundingBound(cfg))
  {
    TwoBills(ChargesFor(side, entryValue, seg, slippageEntry, cfg),
             ChargesFor(Opposite(side), exitValue, seg, slippageExit, cfg), cfg);
  }

  /** So does every charge of it. */
  lemma PartsAreBothLegs(side: Side, entryValue: real, exitValue: real, seg: CostSegment,
                         slippageEntry: real, slippageExit: real, cfg: CostConfig)
    ensures var c, a, b := EstimateRoundTrip(side, entryValue, exitValue, seg, slippageEntry, slippageExit, cfg),
                           EstimateCost(side, entryValue, seg, slippageEntry, cfg),
                           EstimateCost(Opposite(side), exitValue, seg, slippageExit, cfg);
      && c.slippage == a.slippage + b.slippage && c.brokerage == a.brokerage + b.brokerage
      && c.exchangeTc == a.exchangeTc + b.exchangeTc && c.stt == a.stt + b.stt
      && c.stampDuty == a.stampDuty + b.stampDuty && c.gst == a.gst + b.gst && c.sebi == a.sebi + b.sebi
  {
    BillIsInPaise(ChargesFor(side, entryValue, seg, slippageEntry, cfg), cfg);
    BillIsInPaise(ChargesFor(Opposite(side), exitValue, seg, slippageExit, cfg), cfg);
    PaiseLegsAdd(EstimateCost(side, entryValue, seg, slippageEntry, cfg),
                 EstimateCost(Opposite(side), exitValue, seg, slippageExit, cfg));
  }

  predicate WholePaise(x: real) {
    Round2(x) == x
  }

  predicate InPaise(c: CostEstimate) {
    && WholePaise(c.slippage) && WholePaise(c.brokerage) && WholePaise(c.exchangeTc) && WholePaise(c.stt)
    && WholePaise(c.stampDuty) && WholePaise(c.gst) && WholePaise(c.sebi)
  }

  lemma RoundedIsWhole(x: real)
    ensures WholePaise(Round2(x))
  {
    Round2OfPaise(Paise(x));
  }

  lemma BillIsInPaise(raw: Charges, cfg: CostConfig)
    ensures InPaise(Bill(raw, cfg))
  {
    RoundedIsWhole(raw.slippage);
    RoundedIsWhole(raw.brokerage);
    RoundedIsWhole(raw.exchangeTc);
    RoundedIsWhole(raw.stt);
    RoundedIsWhole(raw.stampDuty);
    RoundedIsWhole(raw.sebi);
    RoundedIsWhole(Gst(Round2(raw.brokerage) + Round2(raw.exchangeTc), cfg));
  }

  lemma WholeSum(x: real, y: real)
    requires WholePaise(x) && WholePaise(y)
    ensures Round2(x + y) == x + y
  {
    Round2OfPaise(Paise(x) + Paise(y));
    assert x + y == Rupees(Paise(x) + Paise(y));
  }

  lemma PaiseLegsAdd(a: CostEstimate, b: CostEstimate)
    requires InPaise(a) && InPaise(b)
    ensures var c := BothLegs(a, b);
      && c.slippage == a.slippage + b.slippage && c.brokerage == a.brokerage + b.brokerage
      && c.exchangeTc == a.exchangeTc + b.exchangeTc && c.stt == a.stt + b.stt
      && c.stampDuty == a.stampDuty + b.stampDuty && c.gst == a.gst + b.gst && c.sebi == a.sebi + b.sebi
  {
    WholeSum(a.slippage, b.slippage);
    WholeSum(a.brokerage, b.brokerage);
    WholeSum(a.exchangeTc, b.exchangeTc);
    WholeSum(a.stt, b.stt);
    WholeSum(a.stampDuty, b.stampDuty);
    WholeSum(a.gst, b.gst);
    WholeSum(a.sebi, b.sebi);
  }

  lemma TwoBills(a: Charges, b: Charges, cfg: CostConfig)
    requires cfg.gstRate >= 0.0
    ensures BothLegs(Bill(a, cfg), Bill(b, cfg)).total == Bill(a, cfg).total + Bill(b, cfg).total
    ensures Within(BothLegs(Bill(a, cfg), Bill(b, cfg)).total, Exact(a, cfg) + Exact(b, cfg), 2.0 * RoundingBound(cfg))
  {
    TotalsAdd(a, b, cfg);
    BillIsClose(a, cfg);
    BillIsClose(b, cfg);
    AddBounds(BothLegs(Bill(a, cfg), Bill(b, cfg)).total, Bill(a, cfg).total, Exact(a, cfg),
              Bill(b, cfg).total, Exact(b, cfg), RoundingBound(cfg));
  }

  /** Buying first and selling first cost the same. */
  lemma RoundTripIsSymmetric(side: Side, entryValue: real, exitValue: real, seg: CostSegment,
                             slippageEntry: real, slippageExit: real, cfg: CostConfig)
    ensures EstimateRoundTrip(side, entryValue, exitValue, seg, slippageEntry, slippageExit, cfg)
            == EstimateRoundTrip(Opposite(side), exitValue, entryValue, seg, slippageExit, slippageEntry, cfg)
  {
    LegsCommute(EstimateCost(side, entryValue, seg, slippageEntry, cfg),
                EstimateCost(Opposite(side), exitValue, seg, slippageExit, cfg));
    assert Opposite(Opposite(side)) == side;
  }

  lemma LegsCommute(a: CostEstimate, b: CostEstimate)
    ensures BothLegs(a, b) == BothLegs(b, a)
  {
  }

  lemma AddBounds(sum: real, a: real, x: real, b: real, y: real, bound: real)
    requires sum == a + b && Within(a, x, bound) && Within(b, y, bound)
    ensures Within(sum, x + y, 2.0 * bound)
  {
  }

  lemma TotalsAdd(a: Charges, b: Charges, cfg: CostConfig)
    ensures BothLegs(Bill(a, cfg), Bill(b, cfg)).total == Bill(a, cfg).total + Bill(b, cfg).total
  {
    TotalIsRupees(a, cfg);
    TotalIsRupees(b, cfg);
    var m :| Bill(a, cfg).total == Rupees(m);
    var n :| Bill(b, cfg).total == Rupees(n);
    LegTotals(Bill(a, cfg), m, Bill(b, cfg), n);
  }

  lemma LegTotals(x: CostEstimate, m: int, y: CostEstimate, n: int)
    requires x.total == Rupees(m) && y.total == Rupees(n)
    ensures BothLegs(x, y).total == x.total + y.total
  {
    Round2OfPaise(m + n);
    assert x.total + y.total == Rupees(m + n);
  }

  lemma TotalIsRupees(raw: Charges, cfg: CostConfig)
    ensures exists n :: Bill(raw, cfg).total == Rupees(n)
  {
    TotalIsTheSum(raw, cfg);
  }
}
