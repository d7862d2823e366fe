/** The candle loops of a backtest: the MAX-speed loop and the optimizer's fast loop. */
module RunLoops {
  import opened Costs
  import opened Options
  import opened Ledger
  import opened FillEngine
  import opened Broker
  import opened BacktestBroker
  import opened RiskSimulator
  import opened GatedRun

  /** A signal without orders stands for no signal as well. */
  datatype StrategySignal = StrategySignal(orders: seq<Order>, reason: string)

  datatype Decided<S> = Decided(state: S, signal: StrategySignal)

  /** A strategy sees candles only, and never the broker. */
  type Strategy<!S> = (S, Candle) -> Decided<S>

  /** How a loop labels an order with its signal's reason. */
  type Relabel = (Order, string) -> Order

  /** A signal's reason overrides an order's own. */
  function WithReason(order: Order, reason: string): Order {
    if reason != "" then order.(reason := reason) else order
  }

  /** A signal's reason fills in for an order that has none. */
  function FillReason(order: Order, reason: string): Order {
    if order.reason == "" then order.(reason := reason) else order
  }

  /** What a trade is labelled that an order of a signal closes: in the one loop the signal's reason
      comes first and the order's own second, in the other the other way round, and the order's
      kind last. */
  lemma LabelsByLoop(order: Order, reason: string)
    ensures ExitLabel(WithReason(order, reason)) == FirstOf(reason, FirstOf(order.reason, KindLabel(order.kind)))
    ensures ExitLabel(FillReason(order, reason)) == FirstOf(order.reason, FirstOf(reason, KindLabel(order.kind)))
    ensures WithReason(order, reason).(reason := "") == FillReason(order, reason).(reason := "") == order.(reason := "")
  {
  }

  function FirstOf(text: string, other: string): string {
    if text == "" then other else text
  }

  function KindLabel(kind: OrderType): string {
    match kind
    case Market => "signal"
    case Limit => "target"
    case _ => "stop"
  }

  /** In what two loops differ: the labels, and whether the risk snapshot of a candle is taken
      before the strategy's orders or after them. */
  datatype Style = Style(relabel: Relabel, snapFirst: bool)

  const MAX_STYLE := Style(WithReason, false)
  const REPLAY_STYLE := Style(FillReason, true)

  datatype Progress<S> = Progress(session: Session, strategy: S)

  function SubmitEach(x: Session, orders: seq<Order>, reason: string, relabel: Relabel): Session {
    if orders == [] then x
    else Submit(SubmitEach(x, orders[..|orders|-1], reason, relabel), relabel(orders[|orders|-1], reason))
  }

  function SnapIf(x: Session, now: bool): Session {
    if now then Act(x, Snap) else x
  }

  /** One candle: fills first, then the strategy's orders, with the risk snapshot before or after. */
  function OneCandle<S>(p: Progress<S>, step: Strategy<S>, i: nat, style: Style): Progress<S>
    requires i < |p.session.broker.candles|
  {
    var fed := SnapIf(Act(p.session, Bar(i)), style.snapFirst);
    var d := step(p.strategy, p.session.broker.candles[i]);
    Progress(SnapIf(SubmitEach(fed, d.signal.orders, d.signal.reason, style.relabel), !style.snapFirst), d.state)
  }

  /** A loop's body: what it makes of its progress at candle i. */
  type Body<!S> = (Progress<S>, nat) -> Progress<S>

  function BodyOf<S>(step: Strategy<S>, style: Style): Body<S> {
    (q: Progress<S>, i: nat) => if i < |q.session.broker.candles| then OneCandle(q, step, i, style) else q
  }

  function Iterate<S>(body: Body<S>, p: Progress<S>, n: nat): Progress<S> {
    if n == 0 then p else body(Iterate(body, p, n - 1), n - 1)
  }

  /** The first n candles. */
  function Candles<S>(p: Progress<S>, step: Strategy<S>, n: nat, style: Style): (q: Progress<S>)
    requires n <= |p.session.broker.candles|
    ensures q.session.broker.candles == p.session.broker.candles
  {
    IterateKeepsCandles(p, step, n, style);
    Iterate(BodyOf(step, style), p, n)
  }

  lemma {:induction false} IterateKeeps<S>(body: Body<S>, p: Progress<S>, n: nat)
    requires forall q: Progress<S>, i: nat {:trigger body(q, i)} ::
      body(q, i).session.broker.candles == q.session.broker.candles
    ensures Iterate(body, p, n).session.broker.candles == p.session.broker.candles
  {
    if n > 0 {
      IterateKeeps(body, p, n - 1);
    }
  }

  lemma IterateKeepsCandles<S>(p: Progress<S>, step: Strategy<S>, n: nat, style: Style)
    ensures Iterate(BodyOf(step, style), p, n).session.broker.candles == p.session.broker.candles
  {
    var body := BodyOf(step, style);
    forall q: Progress<S>, i: nat ensures body(q, i).session.broker.candles == q.session.broker.candles {
      BodyKeepsCandles(q, step, i, style, body(q, i));
    }
    IterateKeeps(body, p, n);
  }

  lemma BodyKeepsCandles<S>(q: Progress<S>, step: Strategy<S>, i: nat, style: Style, r: Progress<S>)
    requires r == BodyOf(step, style)(q, i)
    ensures r.session.broker.candles == q.session.broker.candles
  {
    if i < |q.session.broker.candles| {
      OneCandleKeepsCandles(q, step, i, style);
    }
  }

  lemma {:induction false} SubmitEachKeepsCandles(x: Session, orders: seq<Order>, reason: string, relabel: Relabel)
    ensures SubmitEach(x, orders, reason, relabel).broker.candles == x.broker.candles
  {
    if orders != [] {
      SubmitEachKeepsCandles(x, orders[..|orders|-1], reason, relabel);
      SubmitKeepsCandles(SubmitEach(x, orders[..|orders|-1], reason, relabel), relabel(orders[|orders|-1], reason));
    }
  }

  lemma {:induction false} SweepKeepsCandles(s: State, upTo: nat)
    ensures Sweep(s, upTo).candles == s.candles
  {
    if upTo > 0 {
      SweepKeepsCandles(s, upTo - 1);
    }
  }

  lemma OneCandleKeepsCandles<S>(p: Progress<S>, step: Strategy<S>, i: nat, style: Style)
    requires i < |p.session.broker.candles|
    ensures OneCandle(p, step, i, style).session.broker.candles == p.session.broker.candles
  {
    var s := p.session.broker;
    SweepKeepsCandles(s.(index := i), s.counter);
    var d := step(p.strategy, s.candles[i]);
    SubmitEachKeepsCandles(SnapIf(Act(p.session, Bar(i)), style.snapFirst),
                           d.signal.orders, d.signal.reason, style.relabel);
  }

  lemma LastCandle<S>(p: Progress<S>, step: Strategy<S>, n: nat, style: Style)
    requires 0 < n <= |p.session.broker.candles|
    ensures Candles(p, step, n, style) == OneCandle(Candles(p, step, n - 1, style), step, n - 1, style)
  {
  }

  function EquityAfter<S>(p: Progress<S>, step: Strategy<S>, n: nat, style: Style): real
    requires n <= |p.session.broker.candles|
  {
    EquityOf(Candles(p, step, n, style))
  }

  function EquityOf<S>(p: Progress<S>): real {
    Equity(p.session.broker.account, p.session.broker.last)
  }

  /** The equity recorded after each of n candles. */
  ghost predicate IsCurve<S>(p: Progress<S>, step: Strategy<S>, n: nat, style: Style, curve: seq<real>) {
    && |curve| == n <= |p.session.broker.candles|
    && forall k :: 1 <= k <= n ==> curve[k-1] == EquityAfter(p, step, k, style)
  }

  lemma CurveGrows<S>(p: Progress<S>, step: Strategy<S>, n: nat, style: Style, curve: seq<real>)
    requires IsCurve(p, step, n, style, curve) && n < |p.session.broker.candles|
    ensures IsCurve(p, step, n + 1, style, curve + [EquityAfter(p, step, n + 1, style)])
  {
  }

  // ----- the loops themselves

  lemma {:induction false} ReplayIsValid(capital: real, fills: seq<Fill>)
    ensures Replay(capital, fills).Valid()
  {
    if fills != [] {
      var a, f := Replay(capital, fills[..|fills|-1]), fills[|fills|-1];
      ReplayIsValid(capital, fills[..|fills|-1]);
      RecordKeepsValid(a, f, Settle(a.PositionOf(f.symbol), f));
    }
  }

  ghost function SessionOf(broker: SimulatedBroker, sim: Simulator?): Session
    reads broker, sim
  {
    Session(broker.Now(), if sim == null then None else Some(sim.Now()))
  }

  method PlaceViaBroker(broker: SimulatedBroker, sim: Simulator?, order: Order, reason: string)
    requires Logged(broker.Now())
    modifies broker, sim
    ensures SessionOf(broker, sim) == Submit(old(SessionOf(broker, sim)), WithReason(order, reason))
    ensures Logged(broker.Now())
  {
    var labelled := order;
    if reason != "" {
      labelled := labelled.(reason := reason);
    }
    if sim != null {
      ReplayIsValid(broker.config.initialCapital, Fills(broker.log));
      var verdict := sim.CheckOrder(broker, labelled);
      if verdict.RejectedBy? {
        return;
      }
      if verdict.adjusted.Some? {
        labelled := labelled.(qty := verdict.adjusted.value);
      }
    }
    PlaceKeepsLogged(broker.Now(), labelled, TryNow(broker.Now(), labelled));
    var _, _ := broker.PlaceOrder(labelled);
  }

  method PlaceSignals(broker: SimulatedBroker, sim: Simulator?, signal: StrategySignal)
    requires Logged(broker.Now())
    modifies broker, sim
    ensures SessionOf(broker, sim) == SubmitEach(old(SessionOf(broker, sim)), signal.orders, signal.reason, WithReason)
    ensures Logged(broker.Now())
  {
    var orders := signal.orders;
    ghost var start := SessionOf(broker, sim);
    for k := 0 to |orders|
      invariant SessionOf(broker, sim) == SubmitEach(start, orders[..k], signal.reason, WithReason)
      invariant Logged(broker.Now())
    {
      SubmitOneMore(start, orders, k, signal.reason, WithReason);
      PlaceViaBroker(broker, sim, orders[k], signal.reason);
    }
    assert orders[..|orders|] == orders;
  }

  lemma SubmitOneMore(x: Session, orders: seq<Order>, k: nat, reason: string, relabel: Relabel)
    requires k < |orders|
    ensures SubmitEach(x, orders[..k+1], reason, relabel)
            == Submit(SubmitEach(x, orders[..k], reason, relabel), relabel(orders[k], reason))
  {
    assert orders[..k+1][..k] == orders[..k];
  }

  /** The body of the loop: a candle, the strategy's orders, the snapshot. */
  method ProcessOne<S>(broker: SimulatedBroker, sim: Simulator?, step: Strategy<S>, state: S, i: nat)
    returns (next: S, equity: real)
    requires i < |broker.candles| && Logged(broker.Now())
    modifies broker, sim
    ensures Progress(SessionOf(broker, sim), next)
            == OneCandle(Progress(old(SessionOf(broker, sim)), state), step, i, MAX_STYLE)
    ensures Logged(broker.Now()) && equity == Equity(broker.Books(), broker.lastPrices)
  {
    StepKeepsLogged(broker.Now(), CandleAt(i));
    broker.ProcessCandle(i);
    var decided := step(state, broker.candles[i]);
    next := decided.state;
    PlaceSignals(broker, sim, decided.signal);
    if sim != null {
      ReplayIsValid(broker.config.initialCapital, Fills(broker.log));
      sim.TakeSnapshot(broker);
    }
    equity := broker.CurrentEquity();
  }

  /** Where a loop is after i candles. */
  ghost predicate Reached<S>(start: Progress<S>, step: Strategy<S>, i: nat, x: Session, state: S,
      snapshots: seq<real>) {
    && i <= |start.session.broker.candles|
    && Progress(x, state) == Candles(start, step, i, MAX_STYLE)
    && IsCurve(start, step, i, MAX_STYLE, snapshots)
  }

  lemma ReachOneMore<S>(start: Progress<S>, step: Strategy<S>, i: nat, x: Session, state: S, snapshots: seq<real>,
      y: Session, next: S)
    requires Reached(start, step, i, x, state, snapshots) && i < |start.session.broker.candles|
    requires i < |x.broker.candles| && Progress(y, next) == OneCandle(Progress(x, state), step, i, MAX_STYLE)
    ensures Reached(start, step, i + 1, y, next, snapshots + [Equity(y.broker.account, y.broker.last)])
  {
    LastCandle(start, step, i + 1, MAX_STYLE);
    assert EquityOf(Progress(y, next)) == EquityAfter(start, step, i + 1, MAX_STYLE);
    CurveGrows(start, step, i, MAX_STYLE, snapshots);
  }

  method MaxRun<S>(broker: SimulatedBroker, sim: Simulator?, step: Strategy<S>, init: S)
    returns (state: S, snapshots: seq<real>)
    requires Logged(broker.Now())
    modifies broker, sim
    ensures Progress(SessionOf(broker, sim), state)
            == Candles(Progress(old(SessionOf(broker, sim)), init), step, |broker.candles|, MAX_STYLE)
    ensures IsCurve(Progress(old(SessionOf(broker, sim)), init), step, |broker.candles|, MAX_STYLE, snapshots)
    ensures Logged(broker.Now())
  {
    ghost var start := Progress(SessionOf(broker, sim), init);
    state, snapshots := init, [];
    for i := 0 to |broker.candles|
      invariant Reached(start, step, i, SessionOf(broker, sim), state, snapshots)
      invariant Logged(broker.Now())
    {
      var equity;
      ghost var before, was := SessionOf(broker, sim), state;
      state, equity := ProcessOne(broker, sim, step, state, i);
      ReachOneMore(start, step, i, before, was, snapshots, SessionOf(broker, sim), state);
      snapshots := snapshots + [equity];
    }
  }

  /** The optimizer's loop, which is the same over the slice of the series it was given. */
  method FastRun<S>(config: Config, series: seq<Candle>, slice: Option<(nat, nat)>, rng: Rng, sim: Simulator?,
      step: Strategy<S>, init: S)
    returns (broker: SimulatedBroker, state: S, snapshots: seq<real>)
    modifies sim
    ensures fresh(broker) && broker.candles == Sliced(series, slice) && Logged(broker.Now())
    ensures var start := Progress(Session(Started(config, Sliced(series, slice), rng),
                                        if sim == null then None else Some(old(sim.Now()))), init);
      && Progress(SessionOf(broker, sim), state) == Candles(start, step, |broker.candles|, MAX_STYLE)
      && IsCurve(start, step, |broker.candles|, MAX_STYLE, snapshots)
  {
    broker := new SimulatedBroker(config, Sliced(series, slice), rng);
    state, snapshots := MaxRun(broker, sim, step, init);
  }

  lemma CloseOneMore(s: State, symbols: seq<string>, k: nat, instrument: Option<InstrumentType>)
    requires k < |symbols|
    ensures CloseEach(s, symbols[..k+1], instrument)
            == CloseOne(CloseEach(s, symbols[..k], instrument), symbols[k], instrument)
  {
    assert symbols[..k+1][..k] == symbols[..k];
  }

  /** Closes each open position with a market order, in the order they were first opened. */
  method ClosePositions(broker: SimulatedBroker, instrument: Option<InstrumentType>)
    requires Logged(broker.Now())
    modifies broker
    ensures broker.Now() == CloseOpenPositions(old(broker.Now()), instrument)
    ensures Logged(broker.Now())
  {
    ghost var start := broker.Now();
    var symbols := broker.symbols;
    for k := 0 to |symbols|
      invariant broker.Now() == CloseEach(start, symbols[..k], instrument)
      invariant Logged(broker.Now())
    {
      CloseOneMore(start, symbols, k, instrument);
      var pos := if symbols[k] in broker.positions then broker.positions[symbols[k]] else FLAT;
      if pos.qty != 0 {
        var order := CloseOrder(symbols[k], pos.qty, instrument);
        PlaceKeepsLogged(broker.Now(), order, TryNow(broker.Now(), order));
        var _, _ := broker.PlaceOrder(order);
      }
    }
    assert symbols[..|symbols|] == symbols;
  }

  /** A slice's bounds are cut to the series, as slicing does. */
  function Sliced(series: seq<Candle>, slice: Option<(nat, nat)>): seq<Candle> {
    if slice.None? then series
    else
      var hi := Min(slice.value.1, |series|);
      var lo := Min(slice.value.0, hi);
      series[lo..hi]
  }
}
