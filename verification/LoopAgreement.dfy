/** When the paced replay and the MAX loop agree.  They label orders differently, and they take a
    candle's risk snapshot at different moments, so that the gate's running peak may differ. */
module LoopAgreement {
  import opened Costs
  import opened Options
  import opened Ledger
  import opened FillEngine
  import opened Broker
  import opened RiskGate
  import opened GatedRun
  import opened RunLoops
  import opened Labels

  // ----- gates that differ in the peak

  ghost predicate SameButPeak(g: Gate, h: Gate) {
    g.(peakEquity := 0.0) == h.(peakEquity := 0.0)
  }

  /** No decision of this gate, now or later, depends on how high its peak is: drawdown is not
      limited, or limited at 100% of a positive peak, or all trading is switched off. */
  predicate PeakFree(g: Gate) {
    || g.cfg.maxDrawdownPct <= 0.0 || g.cfg.killSwitch || g.cfg.emergencyStop
    || (g.cfg.maxDrawdownPct == 100.0 && g.peakEquity > 0.0)
  }

  /** The gate, if there is one, decides the same whenever its snapshots are taken. */
  predicate Steady(x: Session) {
    x.gate.Some? ==> PeakFree(x.gate.value)
  }

  /** The same session, but for reason labels and the peak. */
  ghost predicate Agrees(x: Session, y: Session) {
    && SameState(x.broker, y.broker)
    && (x.gate.Some? <==> y.gate.Some?)
    && (x.gate.Some? ==> SameButPeak(x.gate.value, y.gate.value))
  }

  /** Sessions that agree, and that go on agreeing. */
  ghost predicate InLockstep(x: Session, y: Session) {
    Agrees(x, y) && Steady(x) && Steady(y)
  }

  // ----- measures and decisions

  ghost predicate SameButDrawdown(m: Measures, n: Measures) {
    m.(peak := 0.0, drawdownPct := 0.0) == n.(peak := 0.0, drawdownPct := 0.0)
  }

  lemma MeasureSame(s: State, t: State, g: Gate, h: Gate)
    requires SameState(s, t) && SameButPeak(g, h)
    ensures SameButDrawdown(Measure(g, s.account, s.last), Measure(h, t.account, t.last))
  {
    EquitySame(s, t);
    SumSame(s.account.symbols, s.account, t.account, Notional());
    assert OpenSymbols(s.account) == OpenSymbols(t.account);
  }

  predicate DrawdownTrips(g: Gate, m: Measures) {
    g.cfg.maxDrawdownPct > 0.0 && m.drawdownPct >= g.cfg.maxDrawdownPct
  }

  lemma DecideSame(g: Gate, h: Gate, m: Measures, n: Measures, r: Request)
    requires SameButPeak(g, h) && SameButDrawdown(m, n)
    requires g.cfg.killSwitch || g.cfg.emergencyStop || (DrawdownTrips(g, m) <==> DrawdownTrips(h, n))
    ensures Decide(g, m, r) == Decide(h, n, r)
    ensures Warns(g, m, Decide(g, m, r)) == Warns(h, n, Decide(h, n, r))
  {
    assert ClampTo(g.cfg, m.equity, r) == ClampTo(h.cfg, n.equity, r);
    assert CapacityObjection(g.cfg, m, r) == CapacityObjection(h.cfg, n, r);
  }

  /** A fall of 100% from a positive peak is a fall to nothing, whatever the peak. */
  lemma WholeFallIsNothingLeft(peak: real, equity: real)
    requires peak > 0.0
    ensures (peak - equity) / peak * 100.0 >= 100.0 <==> equity <= 0.0
  {
    var share := (peak - equity) / peak;
    assert share * peak == peak - equity;
    if share < 1.0 {
      assert (1.0 - share) * peak > 0.0;
    } else {
      assert (share - 1.0) * peak >= 0.0;
    }
  }

  lemma PeakFreeDrawdown(g: Gate, a: Account, last: Prices)
    requires g.cfg.maxDrawdownPct == 100.0 && g.peakEquity > 0.0
    ensures DrawdownTrips(g, Measure(g, a, last)) <==> Equity(a, last) <= 0.0
  {
    WholeFallIsNothingLeft(MaxReal(g.peakEquity, Equity(a, last)), Equity(a, last));
  }

  lemma DrawdownSame(s: State, t: State, g: Gate, h: Gate)
    requires SameState(s, t) && SameButPeak(g, h) && PeakFree(g) && PeakFree(h)
    ensures g.cfg.killSwitch || g.cfg.emergencyStop
            || (DrawdownTrips(g, Measure(g, s.account, s.last)) <==> DrawdownTrips(h, Measure(h, t.account, t.last)))
  {
    EquitySame(s, t);
    if g.cfg.maxDrawdownPct == 100.0 && g.peakEquity > 0.0 && h.peakEquity > 0.0 {
      PeakFreeDrawdown(g, s.account, s.last);
      PeakFreeDrawdown(h, t.account, t.last);
    }
  }

  lemma RequestSame(s: State, t: State, o: Order, p: Order)
    requires SameState(s, t) && SameOrder(o, p)
    ensures RequestOf(s.account, s.last, o) == RequestOf(t.account, t.last, p)
  {
    var a, b := s.account.PositionOf(o.symbol), t.account.PositionOf(p.symbol);
    assert SamePosition(a, b);
    assert Notional()(o.symbol, a) == Notional()(p.symbol, b);
  }

  lemma SettledSame(g: Gate, h: Gate, o: Order, p: Order, d: Decision)
    requires SameButPeak(g, h) && SameOrder(o, p)
    ensures SameButPeak(Settled(g, o, d).gate, Settled(h, p, d).gate)
    ensures Settled(g, o, d).verdict == Settled(h, p, d).verdict
  {
  }

  lemma CheckKeepsPeakFree(g: Gate, a: Account, last: Prices, order: Order)
    requires PeakFree(g)
    ensures PeakFree(Check(g, a, last, order).gate)
  {
  }

  lemma CheckSame(s: State, t: State, g: Gate, h: Gate, o: Order, p: Order)
    requires SameState(s, t) && SameButPeak(g, h) && PeakFree(g) && PeakFree(h) && SameOrder(o, p)
    ensures var c, d := Check(g, s.account, s.last, o), Check(h, t.account, t.last, p);
      c.verdict == d.verdict && SameButPeak(c.gate, d.gate)
  {
    var m, n, r := Measure(g, s.account, s.last), Measure(h, t.account, t.last), RequestOf(s.account, s.last, o);
    MeasureSame(s, t, g, h);
    DrawdownSame(s, t, g, h);
    RequestSame(s, t, o, p);
    DecideSame(g, h, m, n, r);
    MeasuredSame(g, h, m, n, r, o, p);
  }

  /** The rest of a check, once the account is measured and the decision known to be the same. */
  lemma MeasuredSame(g: Gate, h: Gate, m: Measures, n: Measures, r: Request, o: Order, p: Order)
    requires SameButPeak(g, h) && SameOrder(o, p) && Decide(g, m, r) == Decide(h, n, r)
    requires Warns(g, m, Decide(g, m, r)) == Warns(h, n, Decide(h, n, r))
    ensures var d := Decide(g, m, r);
            var w := if Warns(g, m, d) then 1 else 0;
            var c, e := Settled(g.(peakEquity := m.peak, warnings := g.warnings + w), o, d),
                        Settled(h.(peakEquity := n.peak, warnings := h.warnings + w), p, d);
      c.verdict == e.verdict && SameButPeak(c.gate, e.gate)
  {
    var d := Decide(g, m, r);
    var w := if Warns(g, m, d) then 1 else 0;
    SettledSame(g.(peakEquity := m.peak, warnings := g.warnings + w),
                h.(peakEquity := n.peak, warnings := h.warnings + w), o, p, d);
  }

  // ----- actions

  lemma SubmitSame(x: Session, y: Session, o: Order, p: Order)
    requires InLockstep(x, y) && SameOrder(o, p)
    ensures InLockstep(Submit(x, o), Submit(y, p))
  {
    if x.gate.None? {
      PlaceSame(x.broker, y.broker, o, p);
    } else {
      CheckSame(x.broker, y.broker, x.gate.value, y.gate.value, o, p);
      CheckKeepsPeakFree(x.gate.value, x.broker.account, x.broker.last, o);
      CheckKeepsPeakFree(y.gate.value, y.broker.account, y.broker.last, p);
      var v := Check(x.gate.value, x.broker.account, x.broker.last, o).verdict;
      if v.Approved? {
        PlaceSame(x.broker, y.broker, if v.adjusted.Some? then o.(qty := v.adjusted.value) else o,
                  if v.adjusted.Some? then p.(qty := v.adjusted.value) else p);
      }
    }
  }

  lemma {:induction false} SubmitEachSame(x: Session, y: Session, orders: seq<Order>, reason: string)
    requires InLockstep(x, y)
    ensures InLockstep(SubmitEach(x, orders, reason, FillReason), SubmitEach(y, orders, reason, WithReason))
  {
    if orders != [] {
      var init, last := orders[..|orders|-1], orders[|orders|-1];
      SubmitEachSame(x, y, init, reason);
      SubmitSame(SubmitEach(x, init, reason, FillReason), SubmitEach(y, init, reason, WithReason),
                 FillReason(last, reason), WithReason(last, reason));
    }
  }

  lemma SnapSame(x: Session, y: Session, now: bool, later: bool)
    requires InLockstep(x, y)
    ensures InLockstep(SnapIf(x, now), SnapIf(y, later))
  {
  }

  lemma BarSame(x: Session, y: Session, index: int)
    requires InLockstep(x, y)
    ensures InLockstep(Act(x, Bar(index)), Act(y, Bar(index)))
  {
    CandleSame(x.broker, y.broker, index);
  }

  // ----- whole loops

  ghost predicate SameProgress<S>(p: Progress<S>, q: Progress<S>) {
    p.strategy == q.strategy && Agrees(p.session, q.session) && EquityOf(p) == EquityOf(q)
  }

  lemma AgreementIsProgress<S>(p: Progress<S>, q: Progress<S>)
    requires p.strategy == q.strategy && Agrees(p.session, q.session)
    ensures SameProgress(p, q)
  {
    EquitySame(p.session.broker, q.session.broker);
  }

  ghost predicate KeepPace<S>(p: Progress<S>, q: Progress<S>) {
    p.strategy == q.strategy && InLockstep(p.session, q.session)
  }

  lemma OneCandleSame<S>(p: Progress<S>, q: Progress<S>, step: Strategy<S>, i: nat)
    requires KeepPace(p, q) && i < |p.session.broker.candles|
    ensures KeepPace(OneCandle(p, step, i, REPLAY_STYLE), OneCandle(q, step, i, MAX_STYLE))
  {
    var d := step(p.strategy, p.session.broker.candles[i]);
    var x, y := Act(p.session, Bar(i)), Act(q.session, Bar(i));
    BarSame(p.session, q.session, i);
    SnapSame(x, y, true, false);
    SubmitEachSame(SnapIf(x, true), SnapIf(y, false), d.signal.orders, d.signal.reason);
    SnapSame(SubmitEach(SnapIf(x, true), d.signal.orders, d.signal.reason, FillReason),
             SubmitEach(SnapIf(y, false), d.signal.orders, d.signal.reason, WithReason), false, true);
  }

  /** The two bodies keep pace on a series of m candles. */
  ghost predicate BodiesKeepPace<S(!new)>(f: Body<S>, g: Body<S>, m: nat) {
    forall p: Progress<S>, q: Progress<S>, i: nat {:trigger f(p, i), g(q, i)} ::
      KeepPace(p, q) && |p.session.broker.candles| == m && i < m ==>
        KeepPace(f(p, i), g(q, i)) && |f(p, i).session.broker.candles| == m
  }

  lemma LoopBodiesKeepPace<S(!new)>(step: Strategy<S>, m: nat)
    ensures BodiesKeepPace(BodyOf(step, REPLAY_STYLE), BodyOf(step, MAX_STYLE), m)
  {
    var f, g := BodyOf(step, REPLAY_STYLE), BodyOf(step, MAX_STYLE);
    forall p: Progress<S>, q: Progress<S>, i: nat | KeepPace(p, q) && |p.session.broker.candles| == m && i < m
      ensures KeepPace(f(p, i), g(q, i)) && |f(p, i).session.broker.candles| == m
    {
      BodyKeepsCandles(p, step, i, REPLAY_STYLE, f(p, i));
      OneCandleSame(p, q, step, i);
    }
  }

  lemma {:induction false} IteratesKeepPace<S(!new)>(f: Body<S>, g: Body<S>, p: Progress<S>, n: nat)
    requires BodiesKeepPace(f, g, |p.session.broker.candles|) && n <= |p.session.broker.candles| && Steady(p.session)
    ensures KeepPace(Iterate(f, p, n), Iterate(g, p, n))
    ensures |Iterate(f, p, n).session.broker.candles| == |p.session.broker.candles|
  {
    if n > 0 {
      IteratesKeepPace(f, g, p, n - 1);
    }
  }

  /** Candle by candle the replay and the MAX loop go through the same strategy states and, but
      for labels and peaks, the same broker and gate, without a gate or with one whose decisions
      no peak can sway. */
  lemma LoopsAgree<S(!new)>(p: Progress<S>, step: Strategy<S>, n: nat)
    requires n <= |p.session.broker.candles| && Steady(p.session)
    ensures SameProgress(Candles(p, step, n, REPLAY_STYLE), Candles(p, step, n, MAX_STYLE))
  {
    LoopBodiesKeepPace(step, |p.session.broker.candles|);
    IteratesKeepPace(BodyOf(step, REPLAY_STYLE), BodyOf(step, MAX_STYLE), p, n);
    AgreementIsProgress(Candles(p, step, n, REPLAY_STYLE), Candles(p, step, n, MAX_STYLE));
  }

  lemma PointsAgree<S(!new)>(p: Progress<S>, step: Strategy<S>, n: nat)
    requires n <= |p.session.broker.candles| && Steady(p.session)
    ensures EquityAfter(p, step, n, REPLAY_STYLE) == EquityAfter(p, step, n, MAX_STYLE)
  {
    LoopsAgree(p, step, n);
  }

  lemma CurvesAgree<S(!new)>(p: Progress<S>, step: Strategy<S>, n: nat, curve: seq<real>)
    requires IsCurve(p, step, n, REPLAY_STYLE, curve) && Steady(p.session)
    ensures IsCurve(p, step, n, MAX_STYLE, curve)
  {
    forall k | 1 <= k <= n ensures EquityAfter(p, step, k, REPLAY_STYLE) == EquityAfter(p, step, k, MAX_STYLE) {
      PointsAgree(p, step, k);
    }
  }

  lemma {:induction false} CloseEachSame(s: State, t: State, symbols: seq<string>, instrument: Option<InstrumentType>)
    requires SameState(s, t)
    ensures SameState(CloseEach(s, symbols, instrument), CloseEach(t, symbols, instrument))
  {
    if symbols != [] {
      var init, symbol := symbols[..|symbols|-1], symbols[|symbols|-1];
      CloseEachSame(s, t, init, instrument);
      CloseOneSame(CloseEach(s, init, instrument), CloseEach(t, init, instrument), symbol, instrument);
    }
  }

  lemma CloseOneSame(s: State, t: State, symbol: string, instrument: Option<InstrumentType>)
    requires SameState(s, t)
    ensures SameState(CloseOne(s, symbol, instrument), CloseOne(t, symbol, instrument))
  {
    assert s.account.PositionOf(symbol).qty == t.account.PositionOf(symbol).qty;
    var order := CloseOrder(symbol, s.account.PositionOf(symbol).qty, instrument);
    PlaceSame(s, t, order, order);
  }
}
