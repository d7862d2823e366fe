/** What holds of the candle loops, started as the backtester starts them: a new broker, a new
    gate and a strategy.  Each is a play of the gated session, and its broker a run of the broker,
    so that whatever holds of all plays and runs holds of the loops. */
module LoopRuns {
  import opened Costs
  import opened Options
  import opened Ledger
  import opened FillEngine
  import opened Broker
  import opened BrokerLifecycle
  import opened RiskGate
  import opened GatedRun
  import opened EndOfRun
  import opened RunLoops

  // ----- what strategies ask for

  type Kind = Order -> bool

  /** Every order the strategy ever gives is of this kind. */
  ghost predicate Emits<S(!new)>(step: Strategy<S>, ok: Kind) {
    forall state: S, c: Candle, o: Order :: o in step(state, c).signal.orders ==> ok(o)
  }

  /** Labels do not change an order's kind. */
  ghost predicate LabelBlind(relabel: Relabel, ok: Kind) {
    forall o: Order, reason: string :: ok(o) ==> ok(relabel(o, reason))
  }

  predicate IsMarket(o: Order) {
    o.kind == OrderType.Market
  }

  predicate IsForUnits(o: Order) {
    o.qty >= 0
  }

  predicate IsAny(o: Order) {
    true
  }

  // ----- the loops are plays

  predicate LoopAction(a: Action, n: nat, ok: Kind) {
    match a
    case Bar(index) => 0 <= index < n
    case Signal(order) => ok(order)
    case Snap => true
    case CloseOut(_) => false
  }

  ghost predicate OfKind(actions: seq<Action>, n: nat, ok: Kind) {
    forall a :: a in actions ==> LoopAction(a, n, ok)
  }

  /** Candles come in order. */
  ghost predicate InOrder(x: Session, actions: seq<Action>) {
    actions != [] ==>
      && InOrder(x, actions[..|actions|-1])
      && (actions[|actions|-1].Bar? ==> Play(x, actions[..|actions|-1]).broker.index <= actions[|actions|-1].index)
  }

  lemma {:induction false} PlayAppend(x: Session, before: seq<Action>, after: seq<Action>)
    ensures Play(x, before + after) == Play(Play(x, before), after)
    ensures InOrder(x, before) && InOrder(Play(x, before), after) ==> InOrder(x, before + after)
    decreases |after|
  {
    if after == [] {
      assert before + after == before;
    } else {
      PlayAppend(x, before, after[..|after|-1]);
      assert (before + after)[..|before + after|-1] == before + after[..|after|-1];
    }
  }

  function SignalEach(orders: seq<Order>, reason: string, relabel: Relabel): (r: seq<Action>)
    ensures |r| == |orders| && forall k :: 0 <= k < |orders| ==> r[k] == Signal(relabel(orders[k], reason))
  {
    seq(|orders|, k requires 0 <= k < |orders| => Signal(relabel(orders[k], reason)))
  }

  function SnapOr(now: bool): seq<Action> {
    if now then [Snap] else []
  }

  /** What a loop does in one candle. */
  function CandleActions(signal: StrategySignal, i: nat, style: Style): seq<Action> {
    ([Bar(i)] + SnapOr(style.snapFirst))
    + (SignalEach(signal.orders, signal.reason, style.relabel) + SnapOr(!style.snapFirst))
  }

  /** The actions of a loop's body at candle i. */
  type Script<!S> = (Progress<S>, nat) -> seq<Action>

  function ScriptOf<S>(step: Strategy<S>, style: Style): Script<S> {
    (q: Progress<S>, i: nat) =>
      if i < |q.session.broker.candles|
      then CandleActions(step(q.strategy, q.session.broker.candles[i]).signal, i, style) else []
  }

  /** What a loop does in its first n candles. */
  function LoopActions<S>(body: Body<S>, script: Script<S>, p: Progress<S>, n: nat): seq<Action> {
    if n == 0 then [] else LoopActions(body, script, p, n - 1) + script(Iterate(body, p, n - 1), n - 1)
  }

  lemma {:induction false} SignalsArePlayed(x: Session, orders: seq<Order>, reason: string, relabel: Relabel)
    ensures Play(x, SignalEach(orders, reason, relabel)) == SubmitEach(x, orders, reason, relabel)
    ensures InOrder(x, SignalEach(orders, reason, relabel))
    ensures SubmitEach(x, orders, reason, relabel).broker.index == x.broker.index
  {
    if orders == [] {
      assert SignalEach(orders, reason, relabel) == [];
    } else {
      var init, last := orders[..|orders|-1], relabel(orders[|orders|-1], reason);
      SignalsArePlayed(x, init, reason, relabel);
      assert SignalEach(orders, reason, relabel) == SignalEach(init, reason, relabel) + [Signal(last)];
      OneIsPlayed(SubmitEach(x, init, reason, relabel), Signal(last));
      PlayAppend(x, SignalEach(init, reason, relabel), [Signal(last)]);
    }
  }

  lemma OneIsPlayed(x: Session, a: Action)
    ensures Play(x, [a]) == Act(x, a)
    ensures (a.Bar? ==> x.broker.index <= a.index) ==> InOrder(x, [a])
    ensures a.Signal? ==> Act(x, a).broker.index == x.broker.index
  {
    assert [a][..0] == [];
  }

  lemma SnapIsPlayed(x: Session, now: bool)
    ensures Play(x, SnapOr(now)) == SnapIf(x, now) && InOrder(x, SnapOr(now)) && SnapIf(x, now).broker == x.broker
  {
    OneIsPlayed(x, Snap);
  }

  lemma BarAndSnapArePlayed(x: Session, i: nat, now: bool)
    ensures Play(x, [Bar(i)] + SnapOr(now)) == SnapIf(Act(x, Bar(i)), now)
    ensures x.broker.index <= i ==> InOrder(x, [Bar(i)] + SnapOr(now))
    ensures SnapIf(Act(x, Bar(i)), now).broker.index == i
  {
    OneIsPlayed(x, Bar(i));
    SnapIsPlayed(Act(x, Bar(i)), now);
    PlayAppend(x, [Bar(i)], SnapOr(now));
    SweepFrame(x.broker.(index := i), x.broker.counter);
  }

  lemma SignalsAndSnapArePlayed(x: Session, signal: StrategySignal, relabel: Relabel, now: bool)
    ensures var asked := SubmitEach(x, signal.orders, signal.reason, relabel);
            var actions := SignalEach(signal.orders, signal.reason, relabel) + SnapOr(now);
      Play(x, actions) == SnapIf(asked, now) && InOrder(x, actions) && SnapIf(asked, now).broker.index == x.broker.index
  {
    SignalsArePlayed(x, signal.orders, signal.reason, relabel);
    SnapIsPlayed(SubmitEach(x, signal.orders, signal.reason, relabel), now);
    PlayAppend(x, SignalEach(signal.orders, signal.reason, relabel), SnapOr(now));
  }

  lemma OneCandleIsPlayed<S>(q: Progress<S>, step: Strategy<S>, i: nat, style: Style)
    requires i < |q.session.broker.candles|
    ensures var actions := CandleActions(step(q.strategy, q.session.broker.candles[i]).signal, i, style);
      && Play(q.session, actions) == OneCandle(q, step, i, style).session
      && (q.session.broker.index <= i ==> InOrder(q.session, actions))
    ensures OneCandle(q, step, i, style).session.broker.index == i
  {
    var signal, fed := step(q.strategy, q.session.broker.candles[i]).signal,
                       SnapIf(Act(q.session, Bar(i)), style.snapFirst);
    BarAndSnapArePlayed(q.session, i, style.snapFirst);
    SignalsAndSnapArePlayed(fed, signal, style.relabel, !style.snapFirst);
    PlayAppend(q.session, [Bar(i)] + SnapOr(style.snapFirst),
               SignalEach(signal.orders, signal.reason, style.relabel) + SnapOr(!style.snapFirst));
  }

  /** The script is what the body does, for a series of m candles. */
  ghost predicate Scripted<S(!new)>(body: Body<S>, script: Script<S>, m: nat) {
    forall q: Progress<S>, i: nat {:trigger body(q, i)} :: |q.session.broker.candles| == m && i < m ==>
      && |body(q, i).session.broker.candles| == m && body(q, i).session.broker.index == i
      && Play(q.session, script(q, i)) == body(q, i).session
      && (q.session.broker.index <= i ==> InOrder(q.session, script(q, i)))
  }

  lemma LoopsAreScripted<S(!new)>(step: Strategy<S>, style: Style, m: nat)
    ensures Scripted(BodyOf(step, style), ScriptOf(step, style), m)
  {
    forall q: Progress<S>, i: nat | |q.session.broker.candles| == m && i < m
      ensures var body, script := BodyOf(step, style), ScriptOf(step, style);
        && |body(q, i).session.broker.candles| == m && body(q, i).session.broker.index == i
        && Play(q.session, script(q, i)) == body(q, i).session
        && (q.session.broker.index <= i ==> InOrder(q.session, script(q, i)))
    {
      BodyKeepsCandles(q, step, i, style, BodyOf(step, style)(q, i));
      OneCandleIsPlayed(q, step, i, style);
    }
  }

  /** A loop over n candles is the play of its actions, takes the candles in order and is left at
      the last of them. */
  lemma {:induction false} LoopIsPlayed<S(!new)>(body: Body<S>, script: Script<S>, p: Progress<S>, n: nat)
    requires Scripted(body, script, |p.session.broker.candles|)
    requires n <= |p.session.broker.candles| && p.session.broker.index <= 0
    ensures |Iterate(body, p, n).session.broker.candles| == |p.session.broker.candles|
    ensures n > 0 ==> Iterate(body, p, n).session.broker.index == n - 1
    ensures Play(p.session, LoopActions(body, script, p, n)) == Iterate(body, p, n).session
    ensures InOrder(p.session, LoopActions(body, script, p, n))
  {
    if n > 0 {
      LoopIsPlayed(body, script, p, n - 1);
      PlayAppend(p.session, LoopActions(body, script, p, n - 1), script(Iterate(body, p, n - 1), n - 1));
    }
  }

  ghost predicate ScriptOfKind<S(!new)>(script: Script<S>, ok: Kind) {
    forall q: Progress<S>, i: nat {:trigger script(q, i)} ::
      OfKind(script(q, i), i + 1, ok) && (script(q, i) != [] ==> script(q, i)[0].Bar?)
  }

  lemma LoopsAreOfKind<S(!new)>(step: Strategy<S>, style: Style, ok: Kind)
    requires Emits(step, ok) && LabelBlind(style.relabel, ok)
    ensures ScriptOfKind(ScriptOf(step, style), ok)
  {
    forall q: Progress<S>, i: nat
      ensures OfKind(ScriptOf(step, style)(q, i), i + 1, ok)
      ensures ScriptOf(step, style)(q, i) != [] ==> ScriptOf(step, style)(q, i)[0].Bar?
    {
      if i < |q.session.broker.candles| {
        var signal := step(q.strategy, q.session.broker.candles[i]).signal;
        SignalIsOfKind(step, q.strategy, q.session.broker.candles[i], ok, signal);
        CandleActionsAreOfKind(signal, i, style, ok);
      }
    }
  }

  /** The actions start with a candle, play candles of the series, and submit orders of the
      script's kind only. */
  lemma {:induction false} LoopActionsAreOfKind<S(!new)>(body: Body<S>, script: Script<S>, p: Progress<S>, n: nat,
      ok: Kind)
    requires ScriptOfKind(script, ok)
    ensures OfKind(LoopActions(body, script, p, n), n, ok) && StartsWithCandle(LoopActions(body, script, p, n))
  {
    if n > 0 {
      LoopActionsAreOfKind(body, script, p, n - 1, ok);
      KindsJoin(LoopActions(body, script, p, n - 1), script(Iterate(body, p, n - 1), n - 1), n, ok);
    }
  }

  /** So a loop's session is reached by a play that starts with a candle, takes the candles in
      order and submits orders of the strategy's kind only. */
  lemma CandlesArePlayed<S(!new)>(p: Progress<S>, step: Strategy<S>, n: nat, style: Style, ok: Kind)
    returns (actions: seq<Action>)
    requires n <= |p.session.broker.candles| && p.session.broker.index <= 0
    requires Emits(step, ok) && LabelBlind(style.relabel, ok)
    ensures var x := Candles(p, step, n, style).session;
      Play(p.session, actions) == x && (n > 0 ==> x.broker.index == n - 1)
    ensures InOrder(p.session, actions) && OfKind(actions, n, ok) && StartsWithCandle(actions)
  {
    LoopsAreScripted(step, style, |p.session.broker.candles|);
    LoopsAreOfKind(step, style, ok);
    actions := LoopActions(BodyOf(step, style), ScriptOf(step, style), p, n);
    LoopIsPlayed(BodyOf(step, style), ScriptOf(step, style), p, n);
    LoopActionsAreOfKind(BodyOf(step, style), ScriptOf(step, style), p, n, ok);
  }

  lemma SignalIsOfKind<S(!new)>(step: Strategy<S>, state: S, c: Candle, ok: Kind, signal: StrategySignal)
    requires Emits(step, ok) && signal == step(state, c).signal
    ensures forall o :: o in signal.orders ==> ok(o)
  {
  }

  lemma CandleActionsAreOfKind(signal: StrategySignal, i: nat, style: Style, ok: Kind)
    requires LabelBlind(style.relabel, ok) && forall o :: o in signal.orders ==> ok(o)
    ensures OfKind(CandleActions(signal, i, style), i + 1, ok)
  {
    forall a | a in SignalEach(signal.orders, signal.reason, style.relabel) ensures a.Signal? && ok(a.order) {
      var k :| 0 <= k < |signal.orders| && a == Signal(style.relabel(signal.orders[k], signal.reason));
      assert signal.orders[k] in signal.orders;
    }
  }

  lemma KindsJoin(before: seq<Action>, after: seq<Action>, n: nat, ok: Kind)
    requires n > 0 && OfKind(before, n - 1, ok) && OfKind(after, n, ok)
             && StartsWithCandle(before) && StartsWithCandle(after)
    ensures OfKind(before + after, n, ok) && StartsWithCandle(before + after)
  {
    forall a | a in before + after ensures LoopAction(a, n, ok) {
      assert a in before ==> LoopAction(a, n - 1, ok);
    }
  }

  // ----- plays are runs of the broker

  lemma RunOneMore(s: State, events: seq<Event>, e: Event)
    requires Admissible(s, events) && Allowed(Run(s, events), e)
    ensures Run(s, events + [e]) == Step(Run(s, events), e) && Admissible(s, events + [e])
    ensures AllAsk(events) && AsksForUnits(e) ==> AllAsk(events + [e])
  {
    assert (events + [e])[..|events|] == events;
  }

  ghost predicate NeverCloses(actions: seq<Action>) {
    forall a :: a in actions ==> !a.CloseOut?
  }

  predicate AskedFor(a: Action) {
    a.Signal? ==> IsForUnits(a.order)
  }

  ghost predicate AllAskedFor(actions: seq<Action>) {
    forall a :: a in actions ==> AskedFor(a)
  }

  /** The gate only drops orders or cuts them to no less than one unit, so that the broker behind
      it goes through a run. */
  lemma {:induction false} PlayIsRun(x: Session, actions: seq<Action>) returns (events: seq<Event>)
    requires InOrder(x, actions) && NeverCloses(actions)
    ensures Admissible(x.broker, events) && Play(x, actions).broker == Run(x.broker, events)
    ensures AllAskedFor(actions) ==> AllAsk(events)
  {
    if actions == [] {
      events := [];
    } else {
      var init, last := actions[..|actions|-1], actions[|actions|-1];
      assert last in actions;
      events := PlayIsRun(x, init);
      var e := ActIsStep(Play(x, init), last);
      if e.Some? {
        RunOneMore(x.broker, events, e.value);
        events := events + [e.value];
      }
    }
  }

  lemma ActIsStep(x: Session, a: Action) returns (e: Option<Event>)
    requires !a.CloseOut? && (a.Bar? ==> x.broker.index <= a.index)
    ensures e.None? ==> Act(x, a).broker == x.broker
    ensures e.Some? ==> Allowed(x.broker, e.value) && Act(x, a).broker == Step(x.broker, e.value)
    ensures e.Some? && AskedFor(a) ==> AsksForUnits(e.value)
  {
    e := None;
    if a.Bar? {
      e := Some(CandleAt(a.index));
    } else if a.Signal? {
      e := SubmitIsStep(x, a.order);
    }
  }

  lemma SubmitIsStep(x: Session, order: Order) returns (e: Option<Event>)
    ensures e.None? ==> Submit(x, order).broker == x.broker
    ensures e.Some? ==> Allowed(x.broker, e.value) && Submit(x, order).broker == Step(x.broker, e.value)
    ensures e.Some? && IsForUnits(order) ==> AsksForUnits(e.value)
  {
    if x.gate.None? {
      e := Some(PlaceOrder(order));
    } else {
      var v := Check(x.gate.value, x.broker.account, x.broker.last, order).verdict;
      if v.RejectedBy? {
        e := None;
      } else {
        e := Some(PlaceOrder(if v.adjusted.Some? then order.(qty := v.adjusted.value) else order));
      }
    }
  }

  // ----- the loops as they are started

  function Opening<S>(cfg: Config, candles: seq<Candle>, rng: Rng, risk: Option<RiskConfig>, init: S): Progress<S> {
    Progress(Session(Started(cfg, candles, rng),
                     if risk.None? then None else Some(NewGate(cfg.initialCapital, risk.value))), init)
  }

  lemma LoopsAreLabelBlind(style: Style)
    requires style.relabel == WithReason || style.relabel == FillReason
    ensures LabelBlind(style.relabel, IsMarket) && LabelBlind(style.relabel, IsForUnits)
    ensures LabelBlind(style.relabel, IsAny)
  {
  }

  /** With market orders, no latency and no position sizing, no loop ever holds more open
      positions than the limit, whatever the strategy and the candles, nor does its closing. */
  lemma LoopKeepsPositionCap<S(!new)>(cfg: Config, candles: seq<Candle>, rng: Rng, risk: RiskConfig, init: S,
      step: Strategy<S>, n: nat, style: Style, instrument: Option<InstrumentType>)
    requires style.relabel == WithReason || style.relabel == FillReason
    requires n <= |candles| && cfg.latency == 0 && Emits(step, IsMarket)
    requires risk.maxOpenPositions > 0 && risk.maxRiskPerTradePct <= 0.0
    ensures var x := Candles(Opening(cfg, candles, rng, Some(risk), init), step, n, style).session;
      && |OpenSymbols(x.broker.account)| <= risk.maxOpenPositions
      && (n > 0 ==> UnderCap(x, risk.maxOpenPositions)
                    && UnderCap(x.(broker := CloseOpenPositions(x.broker, instrument)), risk.maxOpenPositions))
  {
    var p := Opening(cfg, candles, rng, Some(risk), init);
    LoopsAreLabelBlind(style);
    var actions := CandlesArePlayed(p, step, n, style, IsMarket);
    ActionsAreUsual(p.session, actions, n);
    PositionCapHolds(p.session, actions, risk.maxOpenPositions);
    if n > 0 {
      var x := Candles(p, step, n, style).session;
      CloseEachStaysUnderCap(x, x.broker.account.symbols, instrument, risk.maxOpenPositions);
    }
  }

  lemma ActionsAreUsual(x: Session, actions: seq<Action>, n: nat)
    requires OfKind(actions, n, IsMarket) && n <= |x.broker.candles|
    ensures AllUsual(x, actions)
  {
    forall a | a in actions ensures Usual(x, a) {
      assert LoopAction(a, n, IsMarket);
    }
  }

  /** With the default risk configuration: never more than ten. */
  lemma DefaultRunsHoldTenAtMost<S(!new)>(cfg: Config, candles: seq<Candle>, rng: Rng, init: S, step: Strategy<S>,
      n: nat, style: Style)
    requires style.relabel == WithReason || style.relabel == FillReason
    requires n <= |candles| && cfg.latency == 0 && Emits(step, IsMarket)
    ensures var p := Opening(cfg, candles, rng, Some(DefaultConfig(cfg.initialCapital)), init);
      |OpenSymbols(Candles(p, step, n, style).session.broker.account)| <= 10
  {
    LoopKeepsPositionCap(cfg, candles, rng, DefaultConfig(cfg.initialCapital), init, step, n, style, None);
  }

  /** The broker of a loop is at the last candle it played, and in a state some run reaches. */
  lemma LoopIsRun<S(!new)>(cfg: Config, candles: seq<Candle>, rng: Rng, risk: Option<RiskConfig>, init: S,
      step: Strategy<S>, n: nat, style: Style) returns (events: seq<Event>)
    requires style.relabel == WithReason || style.relabel == FillReason
    requires n <= |candles|
    ensures var s := Candles(Opening(cfg, candles, rng, risk, init), step, n, style).session.broker;
      && s == Run(Started(cfg, candles, rng), events) && Admissible(Started(cfg, candles, rng), events)
      && (n > 0 ==> s.index == n - 1)
    ensures Emits(step, IsForUnits) ==> AllAsk(events)
  {
    var p := Opening(cfg, candles, rng, risk, init);
    LoopsAreLabelBlind(style);
    var kind: Kind := if Emits(step, IsForUnits) then IsForUnits else IsAny;
    var actions := CandlesArePlayed(p, step, n, style, kind);
    forall a | a in actions ensures !a.CloseOut? && (Emits(step, IsForUnits) ==> AskedFor(a)) {
      assert LoopAction(a, n, kind);
    }
    events := PlayIsRun(p.session, actions);
  }

  /** After every candle of a loop, with or without the gate, the books balance and every symbol
      is accounted for. */
  lemma LoopConserves<S(!new)>(cfg: Config, candles: seq<Candle>, rng: Rng, risk: Option<RiskConfig>, init: S,
      step: Strategy<S>, n: nat, style: Style, symbol: string)
    requires style.relabel == WithReason || style.relabel == FillReason
    requires UnitInterval(rng) && GoodPrices(cfg, candles) && n <= |candles| && Emits(step, IsForUnits)
    ensures var s := Candles(Opening(cfg, candles, rng, risk, init), step, n, style).session.broker;
      Balanced(cfg.initialCapital, s.account) && AccountedFor(s, symbol)
  {
    var events := LoopIsRun(cfg, candles, rng, risk, init, step, n, style);
    ReachableStatesConserve(cfg, candles, rng, events, symbol);
  }

  /** What a loop played to its end reports after it is closed out; and, where partial fills and
      latency are not simulated, that nothing is left open. */
  lemma LoopReportsFinalEquity<S(!new)>(cfg: Config, candles: seq<Candle>, rng: Rng, risk: Option<RiskConfig>, init: S,
      step: Strategy<S>, style: Style, instrument: Option<InstrumentType>, symbol: string)
    requires style.relabel == WithReason || style.relabel == FillReason
    requires UnitInterval(rng) && GoodPrices(cfg, candles) && candles != [] && Emits(step, IsForUnits)
    ensures var before := Candles(Opening(cfg, candles, rng, risk, init), step, |candles|, style).session.broker;
            var s := CloseOpenPositions(before, instrument);
      && Reports(cfg.initialCapital, s.account, s.last) && AccountedFor(s, symbol)
      && (cfg.partialProbability <= 0.0 && cfg.latency >= 0
          ==> (IsFlat(s.account) <==> IsFlat(before.account) || cfg.latency == 0))
  {
    var events := LoopIsRun(cfg, candles, rng, risk, init, step, |candles|, style);
    var before := Candles(Opening(cfg, candles, rng, risk, init), step, |candles|, style).session.broker;
    var s := CloseOpenPositions(before, instrument);
    RunReports(cfg, candles, rng, events, instrument, symbol, before, s);
    ClosedAtTheEnd(before, s);
  }

  lemma RunReports(cfg: Config, candles: seq<Candle>, rng: Rng, events: seq<Event>, instrument: Option<InstrumentType>,
      symbol: string, before: State, s: State)
    requires UnitInterval(rng) && GoodPrices(cfg, candles)
    requires Admissible(Started(cfg, candles, rng), events) && AllAsk(events)
    requires before == Run(Started(cfg, candles, rng), events) && s == CloseOpenPositions(before, instrument)
    ensures Reports(cfg.initialCapital, s.account, s.last) && AccountedFor(s, symbol) && ClosedExactly(before, s)
    ensures before.cfg == cfg && before.candles == candles
  {
    RunKeepsMarket(Started(cfg, candles, rng), events);
    FinalEquity(cfg, candles, rng, events, instrument, symbol);
  }

  /** At the last candle the close finds its candle exactly when there is no latency. */
  lemma ClosedAtTheEnd(before: State, s: State)
    requires ClosedExactly(before, s) && before.candles != [] && before.index == |before.candles| - 1
    ensures before.cfg.partialProbability <= 0.0 && before.cfg.latency >= 0
            ==> (IsFlat(s.account) <==> IsFlat(before.account) || before.cfg.latency == 0)
  {
  }
}
