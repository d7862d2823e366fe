/** A backtest sees no candle before its time: what it has done by a candle is the same whatever
    comes after the candle that orders are filled on. */
module NoLookAhead {
  import opened Options
  import opened Ledger
  import opened FillEngine
  import opened Broker
  import opened RiskGate
  import opened GatedRun
  import opened RunLoops

  /** Two series of at least m candles that agree on the first m. */
  ghost predicate AgreeUpTo(a: seq<Candle>, b: seq<Candle>, m: nat) {
    m <= |a| && m <= |b| && a[..m] == b[..m]
  }

  /** The candle current now, and the one that orders are filled on, are among the first m. */
  ghost predicate Within(s: State, b: seq<Candle>, m: nat) {
    AgreeUpTo(s.candles, b, m) && s.index < m && s.index + s.cfg.latency < m
  }

  /** The same state over another series. */
  function Over(s: State, b: seq<Candle>): State {
    s.(candles := b)
  }

  function OverIn(x: Session, b: seq<Candle>): Session {
    x.(broker := Over(x.broker, b))
  }

  ghost predicate SameClock(s: State, t: State) {
    t.index == s.index && t.cfg == s.cfg && t.candles == s.candles
  }

  lemma TryIsBlind(s: State, b: seq<Candle>, m: nat, order: Order)
    requires Within(s, b, m)
    ensures TryNow(Over(s, b), order) == TryNow(s, order)
  {
    var target := Target(s.cfg, s.index);
    assert 0 <= target ==> s.candles[..m][target] == b[..m][target];
  }

  lemma PlaceIsBlind(s: State, b: seq<Candle>, m: nat, order: Order)
    requires Within(s, b, m)
    ensures Place(Over(s, b), order) == Over(Place(s, order), b) && SameClock(s, Place(s, order))
  {
    TryIsBlind(s, b, m, order);
  }

  lemma RetryIsBlind(s: State, b: seq<Candle>, m: nat, id: nat)
    requires Within(s, b, m)
    ensures Retry(Over(s, b), id) == Over(Retry(s, id), b) && SameClock(s, Retry(s, id))
  {
    if Waiting(s, id) {
      TryIsBlind(s, b, m, s.orders[id].order);
    }
  }

  lemma {:induction false} SweepIsBlind(s: State, b: seq<Candle>, m: nat, upTo: nat)
    requires Within(s, b, m)
    ensures Sweep(Over(s, b), upTo) == Over(Sweep(s, upTo), b) && SameClock(s, Sweep(s, upTo))
  {
    if upTo > 0 {
      SweepIsBlind(s, b, m, upTo - 1);
      RetryIsBlind(Sweep(s, upTo - 1), b, m, upTo);
    }
  }

  lemma BarIsBlind(x: Session, b: seq<Candle>, m: nat, i: nat)
    requires AgreeUpTo(x.broker.candles, b, m) && i < m && i + x.broker.cfg.latency < m
    ensures Act(OverIn(x, b), Bar(i)) == OverIn(Act(x, Bar(i)), b)
    ensures SameClock(x.broker.(index := i), Act(x, Bar(i)).broker)
  {
    var s := x.broker.(index := i);
    SweepIsBlind(s, b, m, s.counter);
    assert s.candles[..m][i] == b[..m][i];
  }

  lemma SubmitIsBlind(x: Session, b: seq<Candle>, m: nat, order: Order)
    requires Within(x.broker, b, m)
    ensures Submit(OverIn(x, b), order) == OverIn(Submit(x, order), b) && SameClock(x.broker, Submit(x, order).broker)
  {
    if x.gate.None? {
      PlaceIsBlind(x.broker, b, m, order);
    } else {
      var v := Check(x.gate.value, x.broker.account, x.broker.last, order).verdict;
      if v.Approved? {
        PlaceIsBlind(x.broker, b, m, if v.adjusted.Some? then order.(qty := v.adjusted.value) else order);
      }
    }
  }

  lemma {:induction false} SubmitEachIsBlind(x: Session, b: seq<Candle>, m: nat, orders: seq<Order>, reason: string,
      relabel: Relabel)
    requires Within(x.broker, b, m)
    ensures SubmitEach(OverIn(x, b), orders, reason, relabel) == OverIn(SubmitEach(x, orders, reason, relabel), b)
    ensures SameClock(x.broker, SubmitEach(x, orders, reason, relabel).broker)
  {
    if orders != [] {
      var init, last := orders[..|orders|-1], relabel(orders[|orders|-1], reason);
      SubmitEachIsBlind(x, b, m, init, reason, relabel);
      SubmitIsBlind(SubmitEach(x, init, reason, relabel), b, m, last);
    }
  }

  lemma SnapIsBlind(x: Session, b: seq<Candle>, now: bool)
    ensures SnapIf(OverIn(x, b), now) == OverIn(SnapIf(x, now), b) && SnapIf(x, now).broker == x.broker
  {
  }

  /** The same progress, over another series. */
  ghost predicate Alike<S>(p: Progress<S>, q: Progress<S>, b: seq<Candle>) {
    q == p.(session := OverIn(p.session, b))
  }

  lemma CandleIsBlind<S>(p: Progress<S>, q: Progress<S>, b: seq<Candle>, m: nat, step: Strategy<S>, i: nat,
      style: Style)
    requires AgreeUpTo(p.session.broker.candles, b, m) && Alike(p, q, b)
    requires i < m && i + p.session.broker.cfg.latency < m
    ensures Alike(OneCandle(p, step, i, style), OneCandle(q, step, i, style), b)
    ensures OneCandle(p, step, i, style).session.broker.cfg == p.session.broker.cfg
  {
    var x, c := p.session, p.session.broker.candles[i];
    assert x.broker.candles[..m][i] == b[..m][i];
    var d := step(p.strategy, c);
    BarIsBlind(x, b, m, i);
    SnapIsBlind(Act(x, Bar(i)), b, style.snapFirst);
    var fed := SnapIf(Act(x, Bar(i)), style.snapFirst);
    SubmitEachIsBlind(fed, b, m, d.signal.orders, d.signal.reason, style.relabel);
    SnapIsBlind(SubmitEach(fed, d.signal.orders, d.signal.reason, style.relabel), b, !style.snapFirst);
  }

  /** What the body does at candle i is the same over both series, if both reach as far. */
  ghost predicate IsBlind<S(!new)>(body: Body<S>, b: seq<Candle>, m: nat) {
    forall p: Progress<S>, q: Progress<S>, i: nat {:trigger body(p, i), body(q, i)} ::
      Alike(p, q, b) && AgreeUpTo(p.session.broker.candles, b, m) && i < m && i + p.session.broker.cfg.latency < m ==>
        && Alike(body(p, i), body(q, i), b)
        && body(p, i).session.broker.cfg == p.session.broker.cfg
        && body(p, i).session.broker.candles == p.session.broker.candles
  }

  lemma BodiesAreBlind<S(!new)>(step: Strategy<S>, style: Style, b: seq<Candle>, m: nat)
    ensures IsBlind(BodyOf(step, style), b, m)
  {
    var body := BodyOf(step, style);
    forall p: Progress<S>, q: Progress<S>, i: nat
      | Alike(p, q, b) && AgreeUpTo(p.session.broker.candles, b, m) && i < m && i + p.session.broker.cfg.latency < m
      ensures Alike(body(p, i), body(q, i), b)
      ensures body(p, i).session.broker.cfg == p.session.broker.cfg
      ensures body(p, i).session.broker.candles == p.session.broker.candles
    {
      BodyKeepsCandles(p, step, i, style, body(p, i));
      CandleIsBlind(p, q, b, m, step, i, style);
    }
  }

  lemma {:induction false} IteratesAreAlike<S(!new)>(body: Body<S>, p: Progress<S>, q: Progress<S>, b: seq<Candle>,
      m: nat, n: nat)
    requires IsBlind(body, b, m) && Alike(p, q, b) && AgreeUpTo(p.session.broker.candles, b, m)
    requires n <= m && n + p.session.broker.cfg.latency <= m
    ensures Alike(Iterate(body, p, n), Iterate(body, q, n), b)
    ensures Iterate(body, p, n).session.broker.cfg == p.session.broker.cfg
    ensures Iterate(body, p, n).session.broker.candles == p.session.broker.candles
  {
    if n > 0 {
      IteratesAreAlike(body, p, q, b, m, n - 1);
    }
  }

  /** By the end of candle n - 1, a loop over one series and a loop over another that agrees with it
      up to the candle on which orders are then filled have done the same: the same strategy
      states, orders, fills, account and gate. */
  lemma LoopSeesNoFuture<S(!new)>(p: Progress<S>, q: Progress<S>, b: seq<Candle>, m: nat, step: Strategy<S>, n: nat,
      style: Style)
    requires AgreeUpTo(p.session.broker.candles, b, m) && Alike(p, q, b)
    requires n <= m && n + p.session.broker.cfg.latency <= m
    ensures Alike(Candles(p, step, n, style), Candles(q, step, n, style), b)
  {
    BodiesAreBlind(step, style, b, m);
    IteratesAreAlike(BodyOf(step, style), p, q, b, m, n);
  }

  /** So the equity recorded after a candle is the same. */
  lemma EquitySeesNoFuture<S(!new)>(p: Progress<S>, q: Progress<S>, b: seq<Candle>, m: nat, step: Strategy<S>, n: nat,
      style: Style)
    requires AgreeUpTo(p.session.broker.candles, b, m) && Alike(p, q, b)
    requires n <= m && n + p.session.broker.cfg.latency <= m
    ensures EquityAfter(p, step, n, style) == EquityAfter(q, step, n, style)
  {
    LoopSeesNoFuture(p, q, b, m, step, n, style);
  }

  // ----- what the strategy sees

  /** A strategy on its own, shown the candles one by one. */
  function Shown<S>(step: Strategy<S>, init: S, candles: seq<Candle>): S {
    if candles == [] then init
    else step(Shown(step, init, candles[..|candles|-1]), candles[|candles|-1]).state
  }

  /** Whatever the broker and the gate make of its orders, the strategy of a loop has been shown
      each candle so far once, in order. */
  lemma {:induction false} StrategyIsShownEachCandle<S>(p: Progress<S>, step: Strategy<S>, n: nat, style: Style)
    requires n <= |p.session.broker.candles|
    ensures Candles(p, step, n, style).strategy == Shown(step, p.strategy, p.session.broker.candles[..n])
  {
    if n > 0 {
      var seen := p.session.broker.candles[..n];
      assert seen[..n-1] == p.session.broker.candles[..n-1];
      StrategyIsShownEachCandle(p, step, n - 1, style);
      LastCandle(p, step, n, style);
    }
  }
}
