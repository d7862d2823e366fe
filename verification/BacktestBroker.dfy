/** The broker as an object: its fields change in place, and each method does to them what the
    corresponding step does to the broker's state. */
module BacktestBroker {
  import opened Costs
  import opened Options
  import opened Ledger
  import opened FillEngine
  import opened Broker

  class SimulatedBroker {
    const config: Config
    const candles: seq<Candle>
    const rng: Rng
    var cursor: nat
    var index: int
    var orders: map<nat, Entry>
    var orderCounter: nat
    var cash: real
    var totalCosts: real
    var totalSlippage: real
    var realized: real
    var symbols: seq<string>
    var positions: map<string, Position>
    var lastPrices: Prices
    var trades: seq<Trade>
    ghost var log: seq<Executed>

    ghost function Books(): Account
      reads this
    {
      Account(cash, totalCosts, totalSlippage, realized, symbols, positions, trades)
    }

    ghost function Now(): State
      reads this
    {
      State(config, candles, rng, cursor, index, orders, orderCounter, Books(), lastPrices, log)
    }

    constructor (config: Config, candles: seq<Candle>, rng: Rng)
      ensures Now() == Started(config, candles, rng)
    {
      this.config, this.candles, this.rng := config, candles, rng;
      cursor, index, orders, orderCounter := 0, -1, map[], 0;
      cash, totalCosts, totalSlippage, realized := config.initialCapital, 0.0, 0.0, 0.0;
      symbols, positions, lastPrices, trades, log := [], map[], map[], [], [];
    }

    method RecordTrade(pos: Position, f: Fill, side: Side, closed: int, pnl: real)
      modifies this`trades
      ensures trades == old(trades) +
              [Trade(f.symbol, side, pos.avg, f.price, closed, pnl, Label(pos.entryReason), f.exitLabel)]
    {
      trades := trades + [Trade(f.symbol, side, pos.avg, f.price, closed, pnl, Label(pos.entryReason), f.exitLabel)];
    }

    /** The buying side: opens or adds, or buys back and perhaps flips. */
    method SettleBuy(pos: Position, f: Fill) returns (after: Position)
      requires f.side == Buy
      modifies this`realized, this`trades
      ensures var out := Settle(pos, f);
        && after == out.pos && realized == old(realized) + out.Pnl()
        && trades == if out.trade.Some? then old(trades) + [out.trade.value] else old(trades)
    {
      after := pos;
      if pos.qty >= 0 {
        after := after.(qty := pos.qty + f.qty);
        after := after.(avg := Mean(pos.avg, pos.qty, f.price, f.qty));
        after := after.(entryReason := Some(pos.entryReason.GetOr(f.entryLabel)));
      } else {
        var closed := Min(f.qty, -pos.qty);
        var pnl := (pos.avg - f.price) * closed as real;
        realized := realized + pnl;
        RecordTrade(pos, f, Sell, closed, pnl);
        after := after.(realized := pos.realized + pnl, qty := pos.qty + closed);
        if f.qty > closed {
          after := after.(qty := f.qty - closed, avg := f.price, entryReason := Some(f.entryLabel));
        } else {
          after := after.(entryReason := None);
        }
      }
    }

    /** The selling side: opens or adds, or sells off and perhaps flips. */
    method SettleSell(pos: Position, f: Fill) returns (after: Position)
      requires f.side == Sell
      modifies this`realized, this`trades
      ensures var out := Settle(pos, f);
        && after == out.pos && realized == old(realized) + out.Pnl()
        && trades == if out.trade.Some? then old(trades) + [out.trade.value] else old(trades)
    {
      after := pos;
      if pos.qty <= 0 {
        var held := AbsInt(pos.qty);
        after := after.(qty := pos.qty - f.qty);
        after := after.(avg := Mean(Abs(pos.avg), held, f.price, f.qty));
        after := after.(entryReason := Some(pos.entryReason.GetOr(f.entryLabel)));
      } else {
        var closed := Min(f.qty, pos.qty);
        var pnl := (f.price - pos.avg) * closed as real;
        realized := realized + pnl;
        RecordTrade(pos, f, Buy, closed, pnl);
        after := after.(realized := pos.realized + pnl, qty := pos.qty - closed);
        if f.qty > closed {
          after := after.(qty := -(f.qty - closed), avg := f.price, entryReason := Some(f.entryLabel));
        } else {
          after := after.(entryReason := None);
        }
      }
    }

    method MovePosition(f: Fill)
      modifies this`realized, this`symbols, this`positions, this`trades
      ensures var before := old(Books());
        var out := Settle(before.PositionOf(f.symbol), f);
        && realized == before.realized + out.Pnl()
        && symbols == (if f.symbol in before.positions then before.symbols else before.symbols + [f.symbol])
        && positions == before.positions[f.symbol := out.pos]
        && trades == if out.trade.Some? then before.trades + [out.trade.value] else before.trades
    {
      var pos := FLAT;
      if f.symbol in positions {
        pos := positions[f.symbol];
      } else {
        symbols := symbols + [f.symbol];
      }
      if f.side == Buy {
        pos := SettleBuy(pos, f);
      } else {
        pos := SettleSell(pos, f);
      }
      positions := positions[f.symbol := pos];
    }

    method MoveCash(f: Fill)
      modifies this`cash
      ensures cash == old(cash) + CashFlow(f) - f.charge
    {
      var tradedValue := f.qty as real * f.price;
      if f.side == Buy {
        cash := cash - (tradedValue + f.charge);
      } else {
        cash := cash + (tradedValue - f.charge);
      }
    }

    /** Debits the charge, moves the position and cash, and marks the symbol at the fill's price. */
    method ApplyFill(f: Fill, ghost order: Order)
      modifies this`cash, this`totalCosts, this`totalSlippage, this`realized, this`symbols,
               this`positions, this`lastPrices,
               this`trades, this`log
      ensures Books() == Post(old(Books()), f)
      ensures lastPrices == old(lastPrices)[f.symbol := f.price] && log == old(log) + [Executed(f, index, order)]
    {
      ghost var before := Books();
      ghost var out := Settle(before.PositionOf(f.symbol), f);
      totalCosts := totalCosts + f.charge;
      totalSlippage := totalSlippage + f.slippage;
      MovePosition(f);
      MoveCash(f);
      assert Books() == Record(before, f, out);
      lastPrices := lastPrices[f.symbol := f.price];
      log := log + [Executed(f, index, order)];
    }

    /** Applies a fill and gives its order the entry that says so. */
    method Execute(f: Fill, e: Entry)
      modifies this
      ensures Now() == Apply(old(Now()), f, e)
    {
      ApplyFill(f, e.order);
      orders := orders[f.orderId := e];
    }

    /** Enters an order under the next id, given what the fill engine made of it. */
    method Enter(order: Order, attempt: Attempt, ghost try: Try) returns (id: nat, status: Option<Status>)
      requires try.attempt == attempt
      requires attempt.result.Filled? ==> try.cost == CostOf(config, order, attempt.result.price, attempt.result.qty)
      modifies this
      ensures Now() == PlaceWith(old(Now()), order, try)
      ensures id == old(orderCounter) + 1
      ensures status.Some? ==> id in orders && orders[id].status == status.value
      ensures status.None? ==> orders == old(orders) && Books() == old(Books())
    {
      orderCounter := orderCounter + 1;
      id := orderCounter;
      cursor := attempt.cursor;
      match attempt.result {
        case Rejected =>
          status := None;
        case Pending =>
          orders := orders[id := Entry(order, Resting, [], index)];
          status := Some(Resting);
        case Filled(price, qty, partial) =>
          Execute(MakeFill(order, price, qty, CostOf(config, order, price, qty), id),
                  Entry(order, DoneStatus(partial), [attempt.result], index));
          status := Some(DoneStatus(partial));
      }
    }

    /** Returns the order's id and, unless the order was rejected, its status. */
    method PlaceOrder(order: Order) returns (id: nat, status: Option<Status>)
      modifies this
      ensures Now() == Place(old(Now()), order)
      ensures id == old(orderCounter) + 1
      ensures status.Some? ==> id in orders && orders[id].status == status.value
      ensures status.None? ==> orders == old(orders) && Books() == old(Books())
    {
      var attempt := SimulateFill(config, candles, index, order, rng, cursor);
      id, status := Enter(order, attempt, TryNow(Now(), order));
    }

    method ModifyOrder(id: nat, changes: Changes) returns (found: bool)
      modifies this`orders
      ensures Now() == Modify(old(Now()), id, changes)
      ensures found <==> id in old(orders)
    {
      found := id in orders;
      if !found {
        return;
      }
      var order := orders[id].order;
      if changes.qty.Some? {
        order := order.(qty := changes.qty.value);
      }
      if changes.price.Some? {
        order := order.(price := changes.price.value);
      }
      if changes.trigger.Some? {
        order := order.(trigger := changes.trigger);
      }
      orders := orders[id := orders[id].(order := order)];
    }

    method CancelOrder(id: nat) returns (found: bool)
      modifies this`orders
      ensures Now() == Cancel(old(Now()), id)
      ensures found <==> id in old(orders)
    {
      found := id in orders;
      if found {
        orders := orders[id := orders[id].(status := Cancelled)];
      }
    }

    method RetryOrder(id: nat)
      modifies this
      ensures Now() == Retry(old(Now()), id)
    {
      if id !in orders || orders[id].status != Resting {
        return;
      }
      var entry := orders[id];
      if index - entry.placedAt > config.fillTimeout {
        orders := orders[id := entry.(status := Expired)];
        return;
      }
      var attempt := SimulateFill(config, candles, index, entry.order, rng, cursor);
      cursor := attempt.cursor;
      if attempt.result.Filled? {
        var r := attempt.result;
        Execute(MakeFill(entry.order, r.price, r.qty, CostOf(config, entry.order, r.price, r.qty), id),
                entry.(status := DoneStatus(r.partial), fills := entry.fills + [r]));
      }
    }

    /** Advances the clock, retries the resting orders in the order they were placed, and marks
        the candle's symbol at its close. */
    method ProcessCandle(i: int)
      modifies this
      ensures Now() == OnCandle(old(Now()), i)
    {
      index := i;
      ghost var start := Now();
      var last := orderCounter;
      for id := 0 to last
        invariant Now() == Sweep(start, id)
      {
        RetryOrder(id + 1);
      }
      if 0 <= index < |candles| {
        var candle := candles[index];
        lastPrices := lastPrices[candle.symbol := candle.close];
      }
    }

    method CurrentEquity() returns (equity: real)
      ensures equity == Equity(Books(), lastPrices)
    {
      var unrealised := 0.0;
      for k := 0 to |symbols|
        invariant unrealised == Sum(symbols[..k], positions, Unrealised(lastPrices))
      {
        assert symbols[..k+1][..k] == symbols[..k];
        if symbols[k] in positions {
          var p := positions[symbols[k]];
          if p.qty != 0 {
            unrealised := unrealised + (LastOr(lastPrices, symbols[k], p) - p.avg) * p.qty as real;
          }
        }
      }
      assert symbols[..|symbols|] == symbols;
      equity := cash + unrealised;
    }
  }
}
