/** What becomes of an order that is submitted: checked by the gate, cut, turned away or booked. */
module GatedOrders {
  import opened Options
  import opened Ledger
  import opened FillEngine
  import opened Broker
  import opened CandleFills
  import opened RiskGate
  import opened RiskVerdicts
  import opened GatedRun

  /** The order is booked once, under the next id, and filled at once if it can be. */
  ghost predicate IsBooked(s: State, order: Order, t: State) {
    MeetsPlacing(s, order, Fillable(s.cfg, s.candles, s.index, order), t)
  }

  /** Some cut of the order is booked: the greatest its share of the equity pays for. */
  ghost predicate IsBookedCut(s: State, order: Order, price: real, budget: real, t: State) {
    exists qty: nat ::
      IsBooked(s, order.(qty := qty), t) && 1 <= qty < AbsInt(order.qty) && FitsBudget(qty, price, budget)
  }

  /** Through the gate, an oversized order is booked cut to its share of the equity while trading is
      allowed, any other is booked as it stands if it breaks no rule, and nothing else happens. */
  lemma SubmittedIsBookedOrNot(x: Session, order: Order, price: real)
    requires x.gate.Some? && Logged(x.broker) && IsCheckedPrice(order, x.broker.last, price)
    ensures Obeys(x, order, price, Submit(x, order).broker)
  {
    var v := Check(x.gate.value, x.broker.account, x.broker.last, order).verdict;
    VerdictIsObeyed(x, order, v);
    ObeyedIsAsTold(x, order, price, v, Submit(x, order).broker);
  }

  lemma ObeyedIsAsTold(x: Session, order: Order, price: real, v: Verdict, t: State)
    requires x.gate.Some? && IsCheckedPrice(order, x.broker.last, price) && IsObeyed(x.broker, order, v, t)
    requires v == Check(x.gate.value, x.broker.account, x.broker.last, order).verdict
    ensures Obeys(x, order, price, t)
  {
    var g, s := x.gate.value, x.broker;
    CutExactlyTheOversized(g, s.account, s.last, order, price);
    TurnedAwayIsRejected(g, s.account, s.last, order, price);
    VerdictIsTold(x, order, price, v, Equity(s.account, s.last) * g.cfg.maxRiskPerTradePct / 100.0, t);
  }

  ghost predicate Obeys(x: Session, order: Order, price: real, t: State)
    requires x.gate.Some?
  {
    var g, s := x.gate.value, x.broker;
    if IsTurnedAway(g, s.account, s.last, order, price) then t == s
    else if IsOversized(g, s.account, s.last, order, price)
    then IsBookedCut(s, order, price, Equity(s.account, s.last) * g.cfg.maxRiskPerTradePct / 100.0, t)
    else IsBooked(s, order, t)
  }

  lemma VerdictIsTold(x: Session, order: Order, price: real, v: Verdict, budget: real, t: State)
    requires x.gate.Some?
    requires budget == Equity(x.broker.account, x.broker.last) * x.gate.value.cfg.maxRiskPerTradePct / 100.0
    requires v.RejectedBy? <==> IsTurnedAway(x.gate.value, x.broker.account, x.broker.last, order, price)
    requires v.Approved? && v.adjusted.Some?
             <==> MayTrade(x.gate.value) && IsOversized(x.gate.value, x.broker.account, x.broker.last, order, price)
    requires v.Approved? && v.adjusted.Some? ==>
      1 <= v.adjusted.value < AbsInt(order.qty) && FitsBudget(v.adjusted.value, price, budget)
    requires IsObeyed(x.broker, order, v, t)
    ensures Obeys(x, order, price, t)
  {
  }

  ghost predicate IsObeyed(s: State, order: Order, v: Verdict, t: State) {
    match v
    case RejectedBy(_) => t == s
    case Approved(None) => IsBooked(s, order, t)
    case Approved(Some(qty)) => IsBooked(s, order.(qty := qty), t)
  }

  /** What is submitted follows the verdict. */
  lemma VerdictIsObeyed(x: Session, order: Order, v: Verdict)
    requires x.gate.Some? && Logged(x.broker)
    requires v == Check(x.gate.value, x.broker.account, x.broker.last, order).verdict
    ensures IsObeyed(x.broker, order, v, Submit(x, order).broker)
  {
    if v.Approved? {
      PlacingFillsWhatTrades(x.broker, if v.adjusted.Some? then order.(qty := v.adjusted.value) else order);
    }
  }
}
