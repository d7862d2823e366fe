/** Reason labels ride along with orders, positions and trades, and never move money. */
module Labels {
  import opened Ledger
  import opened FillEngine
  import opened Broker

  /** Equal but for the labels. */
  ghost predicate SameOrder(a: Order, b: Order) {
    a.(reason := "") == b.(reason := "")
  }

  ghost predicate SamePosition(a: Position, b: Position) {
    a.qty == b.qty && a.avg == b.avg && a.realized == b.realized
  }

  ghost predicate SameTrade(a: Trade, b: Trade) {
    a.(entryReason := "", exitReason := "") == b.(entryReason := "", exitReason := "")
  }

  ghost predicate SameFill(a: Fill, b: Fill) {
    a.(entryLabel := "", exitLabel := "") == b.(entryLabel := "", exitLabel := "")
  }

  ghost predicate SameEntry(a: Entry, b: Entry) {
    a.status == b.status && a.fills == b.fills && a.placedAt == b.placedAt && SameOrder(a.order, b.order)
  }

  ghost predicate SameAccount(a: Account, b: Account) {
    && a.cash == b.cash && a.totalCosts == b.totalCosts
    && a.totalSlippage == b.totalSlippage && a.realized == b.realized
    && a.symbols == b.symbols && a.positions.Keys == b.positions.Keys
    && (forall s :: s in a.positions ==> SamePosition(a.positions[s], b.positions[s]))
    && |a.trades| == |b.trades| && forall k :: 0 <= k < |a.trades| ==> SameTrade(a.trades[k], b.trades[k])
  }

  ghost predicate SameOrders(a: Orders, b: Orders) {
    a.Keys == b.Keys && forall id :: id in a ==> SameEntry(a[id], b[id])
  }

  ghost predicate SameState(s: State, t: State) {
    && s.cfg == t.cfg && s.candles == t.candles && s.rng == t.rng && s.cursor == t.cursor
    && s.index == t.index && s.counter == t.counter && s.last == t.last
    && SameOrders(s.orders, t.orders) && SameAccount(s.account, t.account)
  }

  ghost predicate SameOutcome(a: Outcome, b: Outcome) {
    && SamePosition(a.pos, b.pos)
    && (a.trade.Some? <==> b.trade.Some?)
    && (a.trade.Some? ==> SameTrade(a.trade.value, b.trade.value))
  }

  lemma SettleSame(p: Position, q: Position, f: Fill, g: Fill)
    requires SamePosition(p, q) && SameFill(f, g)
    ensures SameOutcome(Settle(p, f), Settle(q, g))
  {
    assert MoveOf(p.qty, p.avg, f.side, f.qty, f.price) == MoveOf(q.qty, q.avg, g.side, g.qty, g.price);
  }

  lemma RecordSame(a: Account, b: Account, f: Fill, g: Fill, o: Outcome, p: Outcome)
    requires SameAccount(a, b) && SameFill(f, g) && SameOutcome(o, p)
    ensures SameAccount(Record(a, f, o), Record(b, g, p))
  {
  }

  lemma PostSame(a: Account, b: Account, f: Fill, g: Fill)
    requires SameAccount(a, b) && SameFill(f, g)
    ensures SameAccount(Post(a, f), Post(b, g))
  {
    SettleSame(a.PositionOf(f.symbol), b.PositionOf(g.symbol), f, g);
    RecordSame(a, b, f, g, Settle(a.PositionOf(f.symbol), f), Settle(b.PositionOf(g.symbol), g));
  }

  lemma ApplySame(s: State, t: State, f: Fill, g: Fill, d: Entry, e: Entry)
    requires SameState(s, t) && SameFill(f, g) && SameEntry(d, e)
    ensures SameState(Apply(s, f, d), Apply(t, g, e))
  {
    PostSame(s.account, t.account, f, g);
  }

  /** The fill engine and the cost model do not read the reason. */
  lemma TrySame(s: State, t: State, o: Order, p: Order)
    requires SameState(s, t) && SameOrder(o, p)
    ensures TryNow(s, o) == TryNow(t, p)
  {
    assert p == o.(reason := p.reason);
    FillSame(s.cfg, s.candles, s.index, o, p.reason, s.rng, s.cursor);
    assert forall price, qty :: CostOf(s.cfg, o, price, qty) == CostOf(t.cfg, p, price, qty);
  }

  lemma FillSame(cfg: Config, candles: seq<Candle>, index: int, o: Order, reason: string, rng: Rng, cursor: nat)
    ensures SimulateFill(cfg, candles, index, o, rng, cursor)
            == SimulateFill(cfg, candles, index, o.(reason := reason), rng, cursor)
  {
    var p := o.(reason := reason);
    assert MaybePartial(cfg, o, rng, cursor) == MaybePartial(cfg, p, rng, cursor);
    if 0 <= Target(cfg, index) < |candles| {
      assert BasePrice(o, candles[Target(cfg, index)]) == BasePrice(p, candles[Target(cfg, index)]);
    }
  }

  lemma PlaceWithSame(s: State, t: State, o: Order, p: Order, try: Try)
    requires SameState(s, t) && SameOrder(o, p)
    ensures SameState(PlaceWith(s, o, try), PlaceWith(t, p, try))
  {
    var r, id := try.attempt.result, s.counter + 1;
    if r.Filled? {
      var s', t' := s.(counter := id, cursor := try.attempt.cursor), t.(counter := id, cursor := try.attempt.cursor);
      ApplySame(s', t', MakeFill(o, r.price, r.qty, try.cost, id), MakeFill(p, r.price, r.qty, try.cost, id),
                Entry(o, DoneStatus(r.partial), [r], s.index), Entry(p, DoneStatus(r.partial), [r], t.index));
    }
  }

  /** However two orders are labelled, they do the same to the broker. */
  lemma PlaceSame(s: State, t: State, o: Order, p: Order)
    requires SameState(s, t) && SameOrder(o, p)
    ensures SameState(Place(s, o), Place(t, p))
  {
    TrySame(s, t, o, p);
    PlaceWithSame(s, t, o, p, TryNow(s, o));
  }

  lemma RetryWithSame(s: State, t: State, id: nat, try: Try)
    requires SameState(s, t) && id in s.orders
    ensures SameState(RetryWith(s, id, try), RetryWith(t, id, try))
  {
    var d, e, r := s.orders[id], t.orders[id], try.attempt.result;
    if r.Filled? {
      ApplySame(s.(cursor := try.attempt.cursor), t.(cursor := try.attempt.cursor),
                MakeFill(d.order, r.price, r.qty, try.cost, id), MakeFill(e.order, r.price, r.qty, try.cost, id),
                d.(status := DoneStatus(r.partial), fills := d.fills + [r]),
                e.(status := DoneStatus(r.partial), fills := e.fills + [r]));
    }
  }

  lemma RetrySame(s: State, t: State, id: nat)
    requires SameState(s, t)
    ensures SameState(Retry(s, id), Retry(t, id))
  {
    if Waiting(s, id) && !TimedOut(s, id) {
      TrySame(s, t, s.orders[id].order, t.orders[id].order);
      RetryWithSame(s, t, id, TryNow(s, s.orders[id].order));
    }
  }

  lemma {:induction false} SweepSame(s: State, t: State, upTo: nat)
    requires SameState(s, t)
    ensures SameState(Sweep(s, upTo), Sweep(t, upTo))
  {
    if upTo > 0 {
      SweepSame(s, t, upTo - 1);
      RetrySame(Sweep(s, upTo - 1), Sweep(t, upTo - 1), upTo);
    }
  }

  lemma CandleSame(s: State, t: State, index: int)
    requires SameState(s, t)
    ensures SameState(OnCandle(s, index), OnCandle(t, index))
  {
    SweepSame(s.(index := index), t.(index := index), s.counter);
  }

  /** A weight that does not read labels. */
  ghost predicate WeighsSame(a: Account, b: Account, w: Weight) {
    forall s :: s in a.positions && s in b.positions ==> w(s, a.positions[s]) == w(s, b.positions[s])
  }

  lemma {:induction false} SumSame(symbols: seq<string>, a: Account, b: Account, w: Weight)
    requires SameAccount(a, b) && WeighsSame(a, b, w)
    ensures Sum(symbols, a.positions, w) == Sum(symbols, b.positions, w)
  {
    if symbols != [] {
      SumSame(symbols[..|symbols|-1], a, b, w);
    }
  }

  lemma EquitySame(s: State, t: State)
    requires SameState(s, t)
    ensures Equity(s.account, s.last) == Equity(t.account, t.last)
  {
    SumSame(s.account.symbols, s.account, t.account, Unrealised(s.last));
  }
}
