/** Which orders fill, and when: what placing an order and processing a candle do to it. */
module CandleFills {
  import opened Costs
  import opened Options
  import opened Ledger
  import opened FillEngine
  import opened Broker

  /** Some candle stands `latency` after the index and trades through the order's levels, and a
      market order asks for a unit at least. */
  ghost predicate Fillable(cfg: Config, candles: seq<Candle>, index: int, order: Order) {
    && 0 <= index + cfg.latency < |candles|
    && (forall level: real :: IsTrigger(order, level) ==> TradesThrough(order, level, candles[index + cfg.latency]))
    && (order.kind == OrderType.Market ==> order.qty >= 1)
  }

  lemma NothingDrawnOfNothing(cfg: Config, order: Order, rng: Rng, cursor: nat)
    ensures MaybePartial(cfg, order, rng, cursor).qty <= 0 <==> order.qty < 1
  {
  }

  lemma TryFillsWhatIsFillable(s: State, order: Order)
    ensures TryNow(s, order).attempt.result.Filled? <==> Fillable(s.cfg, s.candles, s.index, order)
    ensures TryNow(s, order).attempt.result.Rejected? <==>
      0 <= s.index + s.cfg.latency < |s.candles| && order.kind == OrderType.Market && order.qty < 1
  {
    var target := s.index + s.cfg.latency;
    if 0 <= target < |s.candles| {
      assert IsTrigger(order, TriggerOf(order));
      LevelsSettleThePrice(order, TriggerOf(order), s.candles[target]);
      NothingDrawnOfNothing(s.cfg, order, s.rng, s.cursor);
      assert forall level: real :: IsTrigger(order, level) ==> level == TriggerOf(order);
    }
  }

  /** How many fills of an order the log holds. */
  function FillsOf(log: seq<Executed>, id: nat): nat {
    if log == [] then 0 else FillsOf(log[..|log|-1], id) + if log[|log|-1].fill.orderId == id then 1 else 0
  }

  lemma OneMoreFill(log: seq<Executed>, x: Executed, id: nat)
    ensures FillsOf(log + [x], id) == FillsOf(log, id) + if x.fill.orderId == id then 1 else 0
  {
    assert (log + [x])[..|log|] == log;
  }

  /** What one candle makes of a waiting order. */
  datatype Fate = Expires | Fills | Waits

  ghost function FateOf(s: State, index: int, id: nat): Fate
    requires id in s.orders
  {
    if index - s.orders[id].placedAt > s.cfg.fillTimeout then Expires
    else if Fillable(s.cfg, s.candles, index, s.orders[id].order) then Fills
    else Waits
  }

  ghost predicate Meets(s: State, id: nat, fate: Fate, t: State)
    requires id in s.orders
  {
    && id in t.orders
    && FillsOf(t.log, id) == FillsOf(s.log, id) + (if fate.Fills? then 1 else 0)
    && t.orders[id].order == s.orders[id].order && t.orders[id].placedAt == s.orders[id].placedAt
    && match fate
       case Expires => t.orders[id].status == Expired
       case Fills => t.orders[id].status in {Complete, Partial}
       case Waits => t.orders[id] == s.orders[id]
  }

  ghost predicate SameMarket(s: State, t: State) {
    t.cfg == s.cfg && t.candles == s.candles && t.index == s.index && s.log <= t.log && t.counter == s.counter
  }

  lemma RetryTouchesOne(s: State, other: nat, id: nat)
    requires id in s.orders && id != other
    ensures SameMarket(s, Retry(s, other)) && Meets(s, id, Waits, Retry(s, other))
  {
    var t := Retry(s, other);
    if |t.log| > |s.log| {
      OneMoreFill(s.log, t.log[|s.log|], id);
    }
  }

  lemma RetryMeetsFate(s: State, id: nat)
    requires Waiting(s, id)
    ensures SameMarket(s, Retry(s, id)) && Meets(s, id, FateOf(s, s.index, id), Retry(s, id))
  {
    TryFillsWhatIsFillable(s, s.orders[id].order);
    var t := Retry(s, id);
    if |t.log| > |s.log| {
      OneMoreFill(s.log, t.log[|s.log|], id);
    }
  }

  lemma RetryLeavesDone(s: State, id: nat)
    requires id in s.orders && !Waiting(s, id)
    ensures Retry(s, id) == s
  {
  }

  lemma {:induction false} SweepMeetsFate(s: State, upTo: nat, id: nat)
    requires Waiting(s, id) && id >= 1
    ensures SameMarket(s, Sweep(s, upTo))
    ensures Meets(s, id, if id <= upTo then FateOf(s, s.index, id) else Waits, Sweep(s, upTo))
  {
    if upTo > 0 {
      SweepMeetsFate(s, upTo - 1, id);
      if id == upTo {
        RetryMeetsFate(Sweep(s, upTo - 1), id);
      } else {
        RetryTouchesOne(Sweep(s, upTo - 1), upTo, id);
      }
    }
  }

  lemma {:induction false} SweepLeavesDone(s: State, upTo: nat, id: nat)
    requires id in s.orders && !Waiting(s, id)
    ensures SameMarket(s, Sweep(s, upTo)) && Meets(s, id, Waits, Sweep(s, upTo))
  {
    if upTo > 0 {
      SweepLeavesDone(s, upTo - 1, id);
      if id == upTo {
        RetryLeavesDone(Sweep(s, upTo - 1), id);
      } else {
        RetryTouchesOne(Sweep(s, upTo - 1), upTo, id);
      }
    }
  }

  /** A candle fills, exactly once, every waiting order within its window for which the candle
      `latency` later exists and trades through the order's levels, and no other; it expires the
      waiting orders beyond their window; and it leaves all others as they are. */
  lemma CandleMeetsFate(s: State, index: int, id: nat)
    requires Logged(s) && id in s.orders
    ensures Meets(s, id, if Waiting(s, id) then FateOf(s, index, id) else Waits, OnCandle(s, index))
  {
    var t := s.(index := index);
    if Waiting(s, id) {
      SweepMeetsFate(t, t.counter, id);
    } else {
      SweepLeavesDone(t, t.counter, id);
    }
  }

  /** So it still waits exactly when it is within its window and cannot be filled. */
  lemma StillWaitsExactly(s: State, index: int, id: nat)
    requires Logged(s) && Waiting(s, id) && index - s.orders[id].placedAt <= s.cfg.fillTimeout
    ensures var t, order := OnCandle(s, index), s.orders[id].order;
      && id in t.orders && (Waiting(t, id) <==> !Fillable(s.cfg, s.candles, index, order))
      && (!Waiting(t, id) ==>
            t.orders[id].status in {Complete, Partial} && FillsOf(t.log, id) == FillsOf(s.log, id) + 1)
  {
    CandleMeetsFate(s, index, id);
  }

  /** The fills made since come in the order in which their orders were placed. */
  ghost predicate FillsAscend(before: seq<Executed>, after: seq<Executed>, upTo: nat) {
    && |before| <= |after|
    && (forall k :: |before| <= k < |after| ==> after[k].fill.orderId <= upTo)
    && (forall i, k :: |before| <= i < k < |after| ==> after[i].fill.orderId < after[k].fill.orderId)
  }

  lemma {:induction false} SweepFillsAscend(s: State, upTo: nat)
    ensures FillsAscend(s.log, Sweep(s, upTo).log, upTo)
  {
    if upTo > 0 {
      SweepFillsAscend(s, upTo - 1);
    }
  }

  lemma CandleFillsAscend(s: State, index: int)
    ensures FillsAscend(s.log, OnCandle(s, index).log, s.counter)
  {
    SweepFillsAscend(s.(index := index), s.counter);
  }

  /** Afterwards the candle's symbol is marked at its close. */
  lemma CandleIsMarked(s: State, index: int)
    requires 0 <= index < |s.candles|
    ensures var t, c := OnCandle(s, index), s.candles[index];
      c.symbol in t.last && t.last[c.symbol] == c.close && t.index == index
  {
    SweepKeepsMarket(s.(index := index), s.counter);
  }

  lemma {:induction false} SweepKeepsMarket(s: State, upTo: nat)
    ensures SameMarket(s, Sweep(s, upTo))
  {
    if upTo > 0 {
      SweepKeepsMarket(s, upTo - 1);
    }
  }

  /** An order that waits no more, filled, expired or cancelled, is never filled again, nor waits
      again, whatever happens. */
  lemma {:induction false} DoneStaysDone(s: State, events: seq<Event>, id: nat)
    requires Logged(s) && id in s.orders && !Waiting(s, id)
    ensures var t := Run(s, events);
      Logged(t) && id in t.orders && !Waiting(t, id) && FillsOf(t.log, id) == FillsOf(s.log, id)
  {
    if events != [] {
      DoneStaysDone(s, events[..|events|-1], id);
      StepKeepsLogged(Run(s, events[..|events|-1]), events[|events|-1]);
      StepLeavesDone(Run(s, events[..|events|-1]), events[|events|-1], id);
    }
  }

  lemma StepLeavesDone(s: State, e: Event, id: nat)
    requires Logged(s) && id in s.orders && !Waiting(s, id)
    ensures var t := Step(s, e); id in t.orders && !Waiting(t, id) && FillsOf(t.log, id) == FillsOf(s.log, id)
  {
    match e
    case CandleAt(index) => CandleMeetsFate(s, index, id);
    case PlaceOrder(order) => NewFillsAreItsOwn(s, order, TryNow(s, order), id);
    case _ =>
  }

  lemma NewFillsAreItsOwn(s: State, order: Order, try: Try, id: nat)
    requires id in s.orders && s.counter + 1 !in s.orders
    ensures var t := PlaceWith(s, order, try);
      id in t.orders && t.orders[id] == s.orders[id] && FillsOf(t.log, id) == FillsOf(s.log, id)
  {
    var t := PlaceWith(s, order, try);
    if |t.log| > |s.log| {
      OneMoreFill(s.log, t.log[|s.log|], id);
    }
  }

  /** Amending replaces what is given of quantity, price and trigger, and no more. */
  lemma AmendedAsAsked(s: State, id: nat, c: Changes)
    requires id in s.orders
    ensures var t, order := Modify(s, id, c), s.orders[id].order;
      && t == s.(orders := t.orders) && t.orders.Keys == s.orders.Keys
      && (forall other :: other in s.orders && other != id ==> t.orders[other] == s.orders[other])
      && t.orders[id] == s.orders[id].(order := t.orders[id].order)
      && var amended := t.orders[id].order;
         && amended.qty == (match c.qty case Some(qty) => qty case None => order.qty)
         && amended.price == (match c.price case Some(price) => price case None => order.price)
         && amended.trigger == (match c.trigger case Some(trigger) => Some(trigger) case None => order.trigger)
         && amended == order.(qty := amended.qty, price := amended.price, trigger := amended.trigger)
  {
  }

  /** A market order for less than a unit, with a candle to trade on. */
  predicate IsRefused(s: State, order: Order) {
    0 <= s.index + s.cfg.latency < |s.candles| && order.kind == OrderType.Market && order.qty < 1
  }

  /** An order placed is refused, or filled at once, exactly once, or left waiting. */
  ghost predicate MeetsPlacing(s: State, order: Order, fills: bool, t: State) {
    var id := s.counter + 1;
    && t.counter == id && s.log <= t.log && (forall i :: i in s.orders ==> i in t.orders && t.orders[i] == s.orders[i])
    && FillsOf(t.log, id) == FillsOf(s.log, id) + (if fills then 1 else 0)
    && (IsRefused(s, order) ==> t.orders == s.orders)
    && (!IsRefused(s, order) ==> id in t.orders && t.orders[id].order == order && t.orders[id].placedAt == s.index)
    && (!IsRefused(s, order) ==> (Waiting(t, id) <==> !fills))
  }

  lemma TriedMeetsPlacing(s: State, order: Order, try: Try)
    requires s.counter + 1 !in s.orders && (try.attempt.result.Rejected? <==> IsRefused(s, order))
    ensures MeetsPlacing(s, order, try.attempt.result.Filled?, PlaceWith(s, order, try))
  {
    var t := PlaceWith(s, order, try);
    if |t.log| > |s.log| {
      OneMoreFill(s.log, t.log[|s.log|], s.counter + 1);
    }
  }

  /** It is filled at once exactly when the candle `latency` later exists and trades through its
      levels. */
  lemma PlacingFillsWhatTrades(s: State, order: Order)
    requires Logged(s)
    ensures MeetsPlacing(s, order, Fillable(s.cfg, s.candles, s.index, order), Place(s, order))
  {
    TryFillsWhatIsFillable(s, order);
    TriedMeetsPlacing(s, order, TryNow(s, order));
  }
}
