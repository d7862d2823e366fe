/** The risk engine as an object that reads the broker and keeps its own counters. */
module RiskSimulator {
  import opened Costs
  import opened Options
  import opened Ledger
  import opened FillEngine
  import opened BacktestBroker
  import opened RiskGate

  ghost function OpenAmong(a: Account, symbols: seq<string>): set<string> {
    set s | s in symbols && s in a.positions && a.positions[s].qty != 0
  }

  ghost predicate Walked(a: Account, k: nat, exposure: real, open: nat) {
    k <= |a.symbols| && exposure == Sum(a.symbols[..k], a.positions, Notional())
    && open == |OpenAmong(a, a.symbols[..k])|
  }

  lemma WalkStart(a: Account)
    ensures Walked(a, 0, 0.0, 0)
  {
    assert OpenAmong(a, a.symbols[..0]) == {};
  }

  lemma WalkOne(a: Account, k: nat, exposure: real, open: nat)
    requires a.Valid() && k < |a.symbols| && Walked(a, k, exposure, open)
    ensures a.symbols[k] in a.positions
    ensures var p := a.positions[a.symbols[k]];
      Walked(a, k + 1, exposure + NotionalOf(p), if p.qty != 0 then open + 1 else open)
  {
    assert a.symbols[k] in a.symbols;
    WalkSum(a, k);
    WalkOpen(a, k);
  }

  lemma WalkSum(a: Account, k: nat)
    requires k < |a.symbols| && a.symbols[k] in a.positions
    ensures Sum(a.symbols[..k+1], a.positions, Notional())
            == Sum(a.symbols[..k], a.positions, Notional()) + NotionalOf(a.positions[a.symbols[k]])
  {
    assert a.symbols[..k+1][..k] == a.symbols[..k];
  }

  lemma WalkOpen(a: Account, k: nat)
    requires a.Valid() && k < |a.symbols| && a.symbols[k] in a.positions
    ensures |OpenAmong(a, a.symbols[..k+1])|
            == |OpenAmong(a, a.symbols[..k])| + if a.positions[a.symbols[k]].qty != 0 then 1 else 0
  {
    var s := a.symbols[k];
    assert a.symbols[..k+1] == a.symbols[..k] + [s] && s !in a.symbols[..k];
    if a.positions[s].qty != 0 {
      assert OpenAmong(a, a.symbols[..k+1]) == OpenAmong(a, a.symbols[..k]) + {s};
    } else {
      assert OpenAmong(a, a.symbols[..k+1]) == OpenAmong(a, a.symbols[..k]);
    }
  }

  lemma WalkedAll(a: Account, exposure: real, open: nat)
    requires a.Valid() && Walked(a, |a.symbols|, exposure, open)
    ensures exposure == Exposure(a) && open == |OpenSymbols(a)|
  {
    assert a.symbols[..|a.symbols|] == a.symbols;
    assert OpenAmong(a, a.symbols) == OpenSymbols(a);
  }

  class Simulator {
    const config: RiskConfig
    const initialCapital: real
    var peakEquity: real
    var haltRule: Option<Rule>
    var accepted: nat
    var rejected: seq<Rejection>
    var rejectionCounts: map<Rule, nat>
    var warnings: nat

    ghost function Now(): Gate
      reads this
    {
      Gate(config, initialCapital, peakEquity, haltRule, accepted, rejected, rejectionCounts, warnings)
    }

    constructor (capital: real, config: RiskConfig)
      ensures Now() == NewGate(capital, config)
    {
      this.config, initialCapital := config, capital;
      peakEquity, haltRule, accepted, rejected, rejectionCounts, warnings := capital, None, 0, [], map[], 0;
    }

    /** Walks the positions once, and moves the running peak. */
    method AccountState(broker: SimulatedBroker) returns (m: Measures)
      requires broker.Books().Valid()
      modifies this`peakEquity
      ensures m == Measure(old(Now()), broker.Books(), broker.lastPrices)
      ensures Now() == old(Now()).(peakEquity := m.peak)
    {
      var equity := broker.CurrentEquity();
      peakEquity := MaxReal(peakEquity, equity);
      var exposure, open := Walk(broker);
      var drawdown := if peakEquity > 0.0 then (peakEquity - equity) / peakEquity * 100.0 else 0.0;
      m := Measures(equity, peakEquity, equity - initialCapital, |broker.trades|,
                    exposure, open, MaxReal(drawdown, 0.0));
    }

    method Walk(broker: SimulatedBroker) returns (exposure: real, open: nat)
      requires broker.Books().Valid()
      ensures exposure == Exposure(broker.Books()) && open == |OpenSymbols(broker.Books())|
    {
      exposure, open := 0.0, 0;
      ghost var a := broker.Books();
      var symbols, positions := broker.symbols, broker.positions;
      WalkStart(a);
      for k := 0 to |symbols|
        invariant Walked(a, k, exposure, open)
      {
        WalkOne(a, k, exposure, open);
        var p := positions[symbols[k]];
        exposure := exposure + NotionalOf(p);
        open := if p.qty != 0 then open + 1 else open;
      }
      WalkedAll(a, exposure, open);
    }

    method Reject(order: Order, rule: Rule) returns (v: Verdict)
      modifies this`rejected, this`rejectionCounts
      ensures v == RejectedBy(rule)
      ensures rejected == old(rejected) + [Rejection(rule, order.symbol, order.side, AbsInt(order.qty), order.price)]
      ensures rejectionCounts == old(rejectionCounts)[rule := CountOf(old(rejectionCounts), rule) + 1]
    {
      rejected := rejected + [Rejection(rule, order.symbol, order.side, AbsInt(order.qty), order.price)];
      rejectionCounts := rejectionCounts[rule := CountOf(rejectionCounts, rule) + 1];
      v := RejectedBy(rule);
    }

    /** Engages the breaker at a hard limit, and rejects. */
    method HaltAndReject(order: Order, rule: Rule) returns (v: Verdict)
      requires rule in {DailyLossLimit, MaxDrawdown}
      modifies this`haltRule, this`rejected, this`rejectionCounts
      ensures Checked(Now(), v) == Settled(old(Now()), order, Object(rule))
    {
      if config.circuitBreaker {
        haltRule := Some(rule);
      }
      v := Reject(order, rule);
    }

    /** The rules after the kill switches and the clamp, in the order they are tried. */
    method ApplyLimits(m: Measures, r: Request, order: Order) returns (v: Verdict)
      requires !Now().Halted() && !config.killSwitch && !config.emergencyStop && ClampTo(config, m.equity, r).None?
      modifies this`haltRule, this`rejected, this`rejectionCounts, this`accepted, this`warnings
      ensures var d := Decide(old(Now()), m, r);
              var warned := if Warns(old(Now()), m, d) then 1 else 0;
        Checked(Now(), v) == Settled(old(Now()).(warnings := old(warnings) + warned), order, d)
    {
      if config.dailyLossLimit > 0.0 && m.pnl <= -config.dailyLossLimit {
        v := HaltAndReject(order, DailyLossLimit);
        return;
      }
      if config.dailyProfitTarget > 0.0 && m.pnl >= config.dailyProfitTarget {
        warnings := warnings + 1;
      }
      if config.maxTradesPerDay > 0 && m.tradeCount >= config.maxTradesPerDay {
        v := Reject(order, MaxTradesPerDay);
        return;
      }
      var objection := CapacityObjection(config, m, r);
      if objection.Some? {
        v := Reject(order, objection.value);
        return;
      }
      if config.maxDrawdownPct > 0.0 && m.drawdownPct >= config.maxDrawdownPct {
        v := HaltAndReject(order, MaxDrawdown);
        return;
      }
      accepted := accepted + 1;
      v := Approved(None);
    }

    method Judge(m: Measures, r: Request, order: Order) returns (v: Verdict)
      modifies this`haltRule, this`rejected, this`rejectionCounts, this`accepted, this`warnings
      ensures var d := Decide(old(Now()), m, r);
              var warned := if Warns(old(Now()), m, d) then 1 else 0;
        Checked(Now(), v) == Settled(old(Now()).(warnings := old(warnings) + warned), order, d)
    {
      if haltRule.Some? {
        v := Reject(order, CircuitBreaker);
        return;
      }
      if config.killSwitch {
        v := Reject(order, KillSwitch);
        return;
      }
      if config.emergencyStop {
        v := Reject(order, EmergencyStop);
        return;
      }
      var clamped := ClampTo(config, m.equity, r);
      if clamped.Some? {
        accepted := accepted + 1;
        v := Approved(clamped);
        return;
      }
      v := ApplyLimits(m, r, order);
    }

    method CheckOrder(broker: SimulatedBroker, order: Order) returns (v: Verdict)
      requires broker.Books().Valid()
      modifies this
      ensures Checked(Now(), v) == Check(old(Now()), broker.Books(), broker.lastPrices, order)
    {
      var m := AccountState(broker);
      var pos := if order.symbol in broker.positions then broker.positions[order.symbol] else FLAT;
      var reducer := (pos.qty < 0 && order.side == Buy) || (pos.qty > 0 && order.side == Sell);
      var r := Request(order.symbol, AbsInt(order.qty), PriceFor(order, broker.lastPrices), NotionalOf(pos), reducer);
      assert r == RequestOf(broker.Books(), broker.lastPrices, order);
      PeakDoesNotDecide(old(Now()), m.peak, m, r);
      v := Judge(m, r, order);
    }

    method TakeSnapshot(broker: SimulatedBroker)
      requires broker.Books().Valid()
      modifies this`peakEquity
      ensures Now() == Snapshot(old(Now()), broker.Books(), broker.lastPrices)
    {
      var _ := AccountState(broker);
    }
  }
}
