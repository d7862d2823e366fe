/** The simulated broker's ledger: cash, average-cost positions and closed trades. */
module Ledger {
  import opened Costs
  import opened Options
  import opened RealArithmetic

  /** One executed order, with the charge debited for it and the labels its trade would carry. */
  datatype Fill = Fill(
    orderId: nat, symbol: string, side: Side, qty: int, price: real,
    charge: real, slippage: real, entryLabel: string, exitLabel: string)

  datatype Position = Position(qty: int, avg: real, realized: real, entryReason: Option<string>)

  /** `side` is the side that opened the position being closed. */
  datatype Trade = Trade(
    symbol: string, side: Side, entry: real, exit: real, qty: int, pnl: real, entryReason: string, exitReason: string)

  datatype Outcome = Outcome(pos: Position, trade: Option<Trade>) {
    function Pnl(): real {
      if trade.Some? then trade.value.pnl else 0.0
    }
  }

  const FLAT := Position(0, 0.0, 0.0, None)

  function Min(x: int, y: int): int {
    if x <= y then x else y
  }

  function AtLeastOne(n: int): int {
    if n < 1 then 1 else n
  }

  function AbsInt(n: int): nat {
    if n < 0 then -n else n
  }

  function Label(reason: Option<string>): string {
    if reason.None? || reason.value == "" then "signal" else reason.value
  }

  /** What a fill does to a position: widens it, narrows or closes it, or flips it. */
  datatype Move =
    | Widen(qty: int, avg: real) | Narrow(qty: int, closed: int, pnl: real) | Flip(qty: int, closed: int, pnl: real)

  /** The average of a position widened by `n` units. */
  function Mean(avg: real, held: int, price: real, n: int): real {
    (avg * held as real + price * n as real) / AtLeastOne(held + n) as real
  }

  /** The six cases of a fill: open, add, reduce or close, and flip, for either side. */
  function MoveOf(qty: int, avg: real, side: Side, n: int, price: real): Move {
    if side == Buy then
      if qty >= 0 then Widen(qty + n, Mean(avg, qty, price, n))
      else
        var closed := Min(n, -qty);
        var pnl := (avg - price) * closed as real;
        if n > closed then Flip(n - closed, closed, pnl) else Narrow(qty + closed, closed, pnl)
    else
      if qty <= 0 then Widen(qty - n, Mean(Abs(avg), AbsInt(qty), price, n))
      else
        var closed := Min(n, qty);
        var pnl := (price - avg) * closed as real;
        if n > closed then Flip(-(n - closed), closed, pnl) else Narrow(qty - closed, closed, pnl)
  }

  /** The position and the trade that a move leaves. */
  function OutcomeOf(pos: Position, f: Fill, m: Move): Outcome {
    var held := if f.side == Buy then Sell else Buy;
    match m
    case Widen(qty, avg) =>
      Outcome(Position(qty, avg, pos.realized, Some(pos.entryReason.GetOr(f.entryLabel))), None)
    case Narrow(qty, closed, pnl) =>
      Outcome(Position(qty, pos.avg, pos.realized + pnl, None),
              Some(Trade(f.symbol, held, pos.avg, f.price, closed, pnl, Label(pos.entryReason), f.exitLabel)))
    case Flip(qty, closed, pnl) =>
      Outcome(Position(qty, f.price, pos.realized + pnl, Some(f.entryLabel)),
              Some(Trade(f.symbol, held, pos.avg, f.price, closed, pnl, Label(pos.entryReason), f.exitLabel)))
  }

  function Settle(pos: Position, f: Fill): Outcome {
    OutcomeOf(pos, f, MoveOf(pos.qty, pos.avg, f.side, f.qty, f.price))
  }

  /** `symbols` lists the positions in the order they were first opened. */
  datatype Account = Account(
    cash: real, totalCosts: real, totalSlippage: real, realized: real,
    symbols: seq<string>, positions: map<string, Position>, trades: seq<Trade>)
  {
    function PositionOf(symbol: string): Position {
      if symbol in positions then positions[symbol] else FLAT
    }

    ghost predicate Valid() {
      && (forall i, j :: 0 <= i < j < |symbols| ==> symbols[i] != symbols[j])
      && (forall s :: s in positions <==> s in symbols)
    }
  }

  function Opened(capital: real): Account {
    Account(capital, 0.0, 0.0, 0.0, [], map[], [])
  }

  function CashFlow(f: Fill): real {
    if f.side == Buy then -(f.qty as real * f.price) else f.qty as real * f.price
  }

  /** Books a fill whose effect on its symbol's position is `out`. */
  function Record(a: Account, f: Fill, out: Outcome): Account {
    Account(
      a.cash + CashFlow(f) - f.charge,
      a.totalCosts + f.charge,
      a.totalSlippage + f.slippage,
      a.realized + out.Pnl(),
      if f.symbol in a.positions then a.symbols else a.symbols + [f.symbol],
      a.positions[f.symbol := out.pos],
      if out.trade.Some? then a.trades + [out.trade.value] else a.trades)
  }

  function Post(a: Account, f: Fill): Account {
    Record(a, f, Settle(a.PositionOf(f.symbol), f))
  }

  function Replay(capital: real, fills: seq<Fill>): Account {
    if fills == [] then Opened(capital) else Post(Replay(capital, fills[..|fills|-1]), fills[|fills|-1])
  }

  // ----- sums over the positions

  type Weight = (string, Position) -> real

  function Sum(symbols: seq<string>, positions: map<string, Position>, w: Weight): real {
    if symbols == [] then 0.0
    else
      var s := symbols[|symbols|-1];
      Sum(symbols[..|symbols|-1], positions, w) + if s in positions then w(s, positions[s]) else 0.0
  }

  lemma {:induction false} SumFrame(symbols: seq<string>, positions: map<string, Position>, w: Weight, s: string,
      p: Position)
    requires s !in symbols
    ensures Sum(symbols, positions[s := p], w) == Sum(symbols, positions, w)
  {
    if symbols != [] {
      SumFrame(symbols[..|symbols|-1], positions, w, s, p);
    }
  }

  lemma {:induction false} SumUpdate(symbols: seq<string>, positions: map<string, Position>, w: Weight, s: string,
      p: Position)
    requires forall i, j :: 0 <= i < j < |symbols| ==> symbols[i] != symbols[j]
    requires s in symbols && s in positions
    ensures Sum(symbols, positions[s := p], w) == Sum(symbols, positions, w) - w(s, positions[s]) + w(s, p)
  {
    var init := symbols[..|symbols|-1];
    if s in init {
      SumUpdate(init, positions, w, s, p);
    } else {
      SumFrame(init, positions, w, s, p);
    }
  }

  function ValueOf(pos: Position): real {
    pos.qty as real * pos.avg
  }

  function Book(): Weight {
    (s: string, p: Position) => ValueOf(p)
  }

  function BookValue(a: Account): real {
    Sum(a.symbols, a.positions, Book())
  }

  // ----- one fill

  /** Neither the quantity nor the price is negative. */
  predicate Regular(f: Fill) {
    f.qty >= 0 && f.price >= 0.0
  }

  /** Realised profit less book value moves by the cash that changed hands. */
  ghost predicate Balances(pos: Position, f: Fill, out: Outcome) {
    out.Pnl() - ValueOf(out.pos) == CashFlow(f) - ValueOf(pos)
  }

  /** The cash a move pays out, in the same terms. */
  ghost predicate MoveBalances(qty: int, avg: real, side: Side, n: int, price: real, m: Move) {
    var flow := if side == Buy then -(n as real * price) else n as real * price;
    match m
    case Widen(q, a) => -(q as real * a) == flow - qty as real * avg && a >= 0.0
    case Narrow(q, _, pnl) => pnl - q as real * avg == flow - qty as real * avg
    case Flip(q, _, pnl) => pnl - q as real * price == flow - qty as real * avg
  }

  lemma EveryMoveBalances(qty: int, avg: real, side: Side, n: int, price: real)
    requires avg >= 0.0 && price >= 0.0 && n >= 0
    ensures MoveBalances(qty, avg, side, n, price, MoveOf(qty, avg, side, n, price))
  {
    if side == Buy {
      BuyBalances(qty, avg, n, price, MoveOf(qty, avg, side, n, price));
    } else {
      SellBalances(qty, avg, n, price, MoveOf(qty, avg, side, n, price));
    }
  }

  lemma BuyBalances(qty: int, avg: real, n: int, price: real, m: Move)
    requires avg >= 0.0 && price >= 0.0 && n >= 0
    requires m == if qty >= 0 then Widen(qty + n, Mean(avg, qty, price, n))
                  else if n <= -qty then Narrow(qty + n, n, (avg - price) * n as real)
                  else Flip(n + qty, -qty, (avg - price) * (-qty) as real)
    ensures MoveBalances(qty, avg, Buy, n, price, m)
  {
    if qty >= 0 { BuyWidens(qty, avg, n, price); } else { BuyCloses(qty, avg, n, price); }
  }

  lemma SellBalances(qty: int, avg: real, n: int, price: real, m: Move)
    requires avg >= 0.0 && price >= 0.0 && n >= 0
    requires m == if qty <= 0 then Widen(qty - n, Mean(avg, -qty, price, n))
                  else if n <= qty then Narrow(qty - n, n, (price - avg) * n as real)
                  else Flip(qty - n, qty, (price - avg) * qty as real)
    ensures MoveBalances(qty, avg, Sell, n, price, m)
  {
    if qty <= 0 { SellWidens(qty, avg, n, price); } else { SellCloses(qty, avg, n, price); }
  }

  lemma BuyWidens(qty: int, avg: real, n: int, price: real)
    requires avg >= 0.0 && price >= 0.0 && n >= 0 && qty >= 0
    ensures MoveBalances(qty, avg, Buy, n, price, Widen(qty + n, Mean(avg, qty, price, n)))
  {
    MeanTimesUnits(avg, qty, price, n);
  }

  lemma SellWidens(qty: int, avg: real, n: int, price: real)
    requires avg >= 0.0 && price >= 0.0 && n >= 0 && qty <= 0
    ensures MoveBalances(qty, avg, Sell, n, price, Widen(qty - n, Mean(avg, -qty, price, n)))
  {
    MeanTimesUnits(avg, -qty, price, n);
    NegateProduct(-qty + n, Mean(avg, -qty, price, n));
    NegateProduct(-qty, avg);
    assert -(-qty + n) == qty - n && -(-qty) == qty;
  }

  lemma BuyCloses(qty: int, avg: real, n: int, price: real)
    requires n >= 0 && qty < 0
    ensures n <= -qty ==> MoveBalances(qty, avg, Buy, n, price, Narrow(qty + n, n, (avg - price) * n as real))
    ensures n > -qty ==> MoveBalances(qty, avg, Buy, n, price, Flip(n + qty, -qty, (avg - price) * (-qty) as real))
  {
    ShortNarrows(qty as real, avg, n as real, price);
    ShortFlips(qty as real, avg, n as real, price);
    assert (-qty) as real == -(qty as real);
  }

  lemma SellCloses(qty: int, avg: real, n: int, price: real)
    requires n >= 0 && qty > 0
    ensures n <= qty ==> MoveBalances(qty, avg, Sell, n, price, Narrow(qty - n, n, (price - avg) * n as real))
    ensures n > qty ==> MoveBalances(qty, avg, Sell, n, price, Flip(qty - n, qty, (price - avg) * qty as real))
  {
    LongNarrows(qty as real, avg, n as real, price);
    LongFlips(qty as real, avg, n as real, price);
  }

  lemma NegateProduct(n: int, x: real)
    ensures (-n) as real * x == -(n as real * x)
  {
  }

  lemma ShortNarrows(q: real, avg: real, n: real, price: real)
    ensures (avg - price) * n - (q + n) * avg == -(n * price) - q * avg
  {
  }

  lemma ShortFlips(q: real, avg: real, n: real, price: real)
    ensures (avg - price) * -q - (n + q) * price == -(n * price) - q * avg
  {
  }

  lemma LongNarrows(q: real, avg: real, n: real, price: real)
    ensures (price - avg) * n - (q - n) * avg == n * price - q * avg
  {
  }

  lemma LongFlips(q: real, avg: real, n: real, price: real)
    ensures (price - avg) * q - (q - n) * price == n * price - q * avg
  {
  }

  lemma MeanTimesUnits(avg: real, held: int, price: real, n: int)
    requires held >= 0 && n >= 0 && avg >= 0.0 && price >= 0.0
    ensures Mean(avg, held, price, n) >= 0.0
    ensures (held + n) as real * Mean(avg, held, price, n) == held as real * avg + n as real * price
  {
    var value, units := avg * held as real + price * n as real, AtLeastOne(held + n) as real;
    ProductNotNegative(avg, held as real);
    ProductNotNegative(price, n as real);
    QuotientTimes(value, units);
    QuotientWithin(value, units, 0.0, value / units);
  }

  lemma SettleBalances(pos: Position, f: Fill)
    requires pos.avg >= 0.0 && f.price >= 0.0 && f.qty >= 0
    ensures Balances(pos, f, Settle(pos, f))
    ensures Settle(pos, f).pos.avg >= 0.0
  {
    EveryMoveBalances(pos.qty, pos.avg, f.side, f.qty, f.price);
    MoveMakesOutcome(pos, f, MoveOf(pos.qty, pos.avg, f.side, f.qty, f.price));
  }

  lemma MoveMakesOutcome(pos: Position, f: Fill, m: Move)
    requires MoveBalances(pos.qty, pos.avg, f.side, f.qty, f.price, m)
    requires pos.avg >= 0.0 && f.price >= 0.0
    ensures Balances(pos, f, OutcomeOf(pos, f, m)) && OutcomeOf(pos, f, m).pos.avg >= 0.0
  {
  }

  ghost predicate KeepsTheBooks(qty: int) {
    forall pos: Position, f: Fill ::
      pos.avg >= 0.0 && f.price >= 0.0 && f.qty == qty ==> Balances(pos, f, Settle(pos, f))
  }

  /** The books are kept from every position, whatever the price, exactly when the quantity is
      not negative.  (A resting order with a negative quantity is filled as it stands.) */
  lemma BooksNeedNonNegativeQuantity(qty: int)
    ensures KeepsTheBooks(qty) <==> qty >= 0
  {
    if qty >= 0 {
      forall pos: Position, f: Fill | pos.avg >= 0.0 && f.price >= 0.0 && f.qty == qty
        ensures Balances(pos, f, Settle(pos, f))
      {
        SettleBalances(pos, f);
      }
    } else {
      var f := Fill(1, "X", Buy, qty, 1.0, 0.0, 0.0, "signal", "signal");
      var out := Settle(FLAT, f);
      assert MoveOf(0, 0.0, Buy, qty, 1.0) == Widen(qty, qty as real) by {
        assert 0.0 * 0 as real + 1.0 * qty as real == qty as real;
      }
      assert out.pos.qty == qty && out.pos.avg == qty as real;
      assert ValueOf(out.pos) > 0.0;
      assert !Balances(FLAT, f, out);
    }
  }

  // ----- the whole account

  ghost predicate AllRegular(fills: seq<Fill>) {
    forall f :: f in fills ==> Regular(f)
  }

  ghost predicate NonNegativeAverages(a: Account) {
    forall s :: s in a.positions ==> a.positions[s].avg >= 0.0
  }

  lemma RecordKeepsValid(a: Account, f: Fill, out: Outcome)
    requires a.Valid()
    ensures Record(a, f, out).Valid()
  {
  }

  lemma RecordMovesSum(a: Account, f: Fill, out: Outcome, w: Weight)
    requires a.Valid() && w(f.symbol, FLAT) == 0.0
    ensures var b := Record(a, f, out);
      Sum(b.symbols, b.positions, w)
      == Sum(a.symbols, a.positions, w) - w(f.symbol, a.PositionOf(f.symbol)) + w(f.symbol, out.pos)
  {
    var b := Record(a, f, out);
    if f.symbol in a.positions {
      SumUpdate(a.symbols, a.positions, w, f.symbol, out.pos);
    } else {
      SumFrame(a.symbols, a.positions, w, f.symbol, out.pos);
      assert b.symbols[..|b.symbols|-1] == a.symbols;
    }
  }

  ghost predicate Balanced(capital: real, a: Account) {
    && a.Valid() && NonNegativeAverages(a)
    && a.cash + BookValue(a) == capital + a.realized - a.totalCosts
    && a.realized == PnlOf(a.trades)
  }

  lemma RecordKeepsBalance(capital: real, a: Account, f: Fill, out: Outcome)
    requires Balanced(capital, a)
    requires Balances(a.PositionOf(f.symbol), f, out) && out.pos.avg >= 0.0
    ensures Balanced(capital, Record(a, f, out))
  {
    BookMoves(a, f, out);
    RecordKeepsValid(a, f, out);
    RecordKeepsPnl(a, f, out);
  }

  lemma RecordKeepsPnl(a: Account, f: Fill, out: Outcome)
    requires a.realized == PnlOf(a.trades)
    ensures Record(a, f, out).realized == PnlOf(Record(a, f, out).trades)
  {
    if out.trade.Some? {
      assert (a.trades + [out.trade.value])[..|a.trades|] == a.trades;
    }
  }

  lemma BookMoves(a: Account, f: Fill, out: Outcome)
    requires a.Valid()
    ensures BookValue(Record(a, f, out)) == BookValue(a) - ValueOf(a.PositionOf(f.symbol)) + ValueOf(out.pos)
  {
    assert Book()(f.symbol, FLAT) == 0.0;
    RecordMovesSum(a, f, out, Book());
  }

  lemma PostKeepsBalance(capital: real, a: Account, f: Fill)
    requires Balanced(capital, a) && Regular(f)
    ensures Balanced(capital, Post(a, f))
  {
    SettleBalances(a.PositionOf(f.symbol), f);
    RecordKeepsBalance(capital, a, f, Settle(a.PositionOf(f.symbol), f));
  }

  /** The accounting identity: cash and the book value of the positions are the capital put
      in, plus realised profit (that of the closed trades), less the costs paid. */
  lemma {:induction false} ReplayIsBalanced(capital: real, fills: seq<Fill>)
    requires AllRegular(fills)
    ensures Balanced(capital, Replay(capital, fills))
  {
    if fills != [] {
      ReplayIsBalanced(capital, fills[..|fills|-1]);
      PostKeepsBalance(capital, Replay(capital, fills[..|fills|-1]), fills[|fills|-1]);
    }
  }

  // ----- equity

  type Prices = map<string, real>

  function LastOr(last: Prices, s: string, p: Position): real {
    if s in last then last[s] else p.avg
  }

  function Unrealised(last: Prices): Weight {
    (s: string, p: Position) => if p.qty == 0 then 0.0 else (LastOr(last, s, p) - p.avg) * p.qty as real
  }

  function Market(last: Prices): Weight {
    (s: string, p: Position) => p.qty as real * LastOr(last, s, p)
  }

  function MarketValue(a: Account, last: Prices): real {
    Sum(a.symbols, a.positions, Market(last))
  }

  function Equity(a: Account, last: Prices): real {
    a.cash + Sum(a.symbols, a.positions, Unrealised(last))
  }

  predicate IsFlat(a: Account) {
    forall s :: s in a.positions ==> a.positions[s].qty == 0
  }

  lemma UnrealisedOne(last: Prices, s: string, p: Position)
    ensures Unrealised(last)(s, p) == Market(last)(s, p) - Book()(s, p)
  {
    var price, n := LastOr(last, s, p), p.qty as real;
    assert (price - p.avg) * n == n * price - n * p.avg;
    if p.qty == 0 {
      assert n * price == 0.0 && n * p.avg == 0.0;
    }
  }

  lemma {:induction false} UnrealisedIsMarketLessBook(a: Account, last: Prices, symbols: seq<string>)
    ensures Sum(symbols, a.positions, Unrealised(last))
            == Sum(symbols, a.positions, Market(last)) - Sum(symbols, a.positions, Book())
  {
    if symbols != [] {
      UnrealisedIsMarketLessBook(a, last, symbols[..|symbols|-1]);
      var s := symbols[|symbols|-1];
      if s in a.positions {
        UnrealisedOne(last, s, a.positions[s]);
      }
    }
  }

  /** Equity falls short of cash plus market value by exactly the book value, because the cash
      has already paid for the positions; it is right when nothing is open. */
  lemma EquityAccounts(capital: real, a: Account, last: Prices)
    requires Balanced(capital, a)
    ensures Equity(a, last) == a.cash + MarketValue(a, last) - BookValue(a)
    ensures Equity(a, last) == capital + a.realized - a.totalCosts + MarketValue(a, last) - 2.0 * BookValue(a)
    ensures IsFlat(a) ==> Equity(a, last) == a.cash == capital + a.realized - a.totalCosts
  {
    UnrealisedIsMarketLessBook(a, last, a.symbols);
    if IsFlat(a) {
      FlatSums(a, last, a.symbols);
    }
  }

  lemma {:induction false} FlatSums(a: Account, last: Prices, symbols: seq<string>)
    requires IsFlat(a)
    ensures Sum(symbols, a.positions, Market(last)) == 0.0 && Sum(symbols, a.positions, Book()) == 0.0
  {
    if symbols != [] {
      FlatSums(a, last, symbols[..|symbols|-1]);
    }
  }

  // ----- one symbol at a time

  /** The fills of one symbol, in order. */
  function Of(fills: seq<Fill>, symbol: string): seq<Fill> {
    if fills == [] then []
    else
      var rest := Of(fills[..|fills|-1], symbol);
      if fills[|fills|-1].symbol == symbol then rest + [fills[|fills|-1]] else rest
  }

  function TradesOf(trades: seq<Trade>, symbol: string): seq<Trade> {
    if trades == [] then []
    else
      var rest := TradesOf(trades[..|trades|-1], symbol);
      if trades[|trades|-1].symbol == symbol then rest + [trades[|trades|-1]] else rest
  }

  /** One symbol's position and closed trades. */
  datatype Holding = Holding(pos: Position, trades: seq<Trade>)

  function Extend(h: Holding, out: Outcome): Holding {
    Holding(out.pos, if out.trade.Some? then h.trades + [out.trade.value] else h.trades)
  }

  function Hold(fills: seq<Fill>): Holding {
    if fills == [] then Holding(FLAT, [])
    else
      var before := Hold(fills[..|fills|-1]);
      Extend(before, Settle(before.pos, fills[|fills|-1]))
  }

  /** Symbols do not interfere: the account's view of a symbol is that symbol's own history. */
  lemma {:induction false} SymbolsAreIndependent(capital: real, fills: seq<Fill>, symbol: string)
    ensures Replay(capital, fills).PositionOf(symbol) == Hold(Of(fills, symbol)).pos
    ensures TradesOf(Replay(capital, fills).trades, symbol) == Hold(Of(fills, symbol)).trades
  {
    if fills != [] {
      var init, f := fills[..|fills|-1], fills[|fills|-1];
      SymbolsAreIndependent(capital, init, symbol);
      var before, out := Replay(capital, init), Settle(Replay(capital, init).PositionOf(f.symbol), f);
      var mine := Of(init, symbol);
      assert (mine + [f])[..|mine|] == mine;
      if out.trade.Some? {
        assert out.trade.value.symbol == f.symbol;
        assert (before.trades + [out.trade.value])[..|before.trades|] == before.trades;
      }
    }
  }

  lemma {:induction false} OfKeepsRegular(fills: seq<Fill>, symbol: string)
    requires AllRegular(fills)
    ensures AllRegular(Of(fills, symbol))
  {
    if fills != [] {
      OfKeepsRegular(fills[..|fills|-1], symbol);
    }
  }

  function Signed(f: Fill): int {
    if f.side == Buy then f.qty else -f.qty
  }

  function Net(fills: seq<Fill>): int {
    if fills == [] then 0 else Net(fills[..|fills|-1]) + Signed(fills[|fills|-1])
  }

  function Volume(fills: seq<Fill>): int {
    if fills == [] then 0 else Volume(fills[..|fills|-1]) + fills[|fills|-1].qty
  }

  function Flow(fills: seq<Fill>): real {
    if fills == [] then 0.0 else Flow(fills[..|fills|-1]) + CashFlow(fills[|fills|-1])
  }

  function ChargesPaid(fills: seq<Fill>): real {
    if fills == [] then 0.0 else ChargesPaid(fills[..|fills|-1]) + fills[|fills|-1].charge
  }

  function SlippagePaid(fills: seq<Fill>): real {
    if fills == [] then 0.0 else SlippagePaid(fills[..|fills|-1]) + fills[|fills|-1].slippage
  }

  /** Every fill is paid for, and charged, exactly once. */
  ghost predicate Totals(capital: real, fills: seq<Fill>, a: Account) {
    && a.cash == capital + Flow(fills) - ChargesPaid(fills)
    && a.totalCosts == ChargesPaid(fills) && a.totalSlippage == SlippagePaid(fills)
  }

  lemma {:induction false} ReplayTotals(capital: real, fills: seq<Fill>)
    ensures Totals(capital, fills, Replay(capital, fills))
  {
    if fills != [] {
      ReplayTotals(capital, fills[..|fills|-1]);
    }
  }

  function ClosedQty(trades: seq<Trade>): int {
    if trades == [] then 0 else ClosedQty(trades[..|trades|-1]) + trades[|trades|-1].qty
  }

  function PnlOf(trades: seq<Trade>): real {
    if trades == [] then 0.0 else PnlOf(trades[..|trades|-1]) + trades[|trades|-1].pnl
  }

  /** The analytics' own definition of a trade's profit. */
  function ComputePnl(side: Side, entry: real, exit: real, qty: int): real {
    if side == Buy then (exit - entry) * qty as real else (entry - exit) * qty as real
  }

  ghost predicate Conserved(fills: seq<Fill>, h: Holding) {
    && h.pos.qty == Net(fills)
    && 2 * ClosedQty(h.trades) == Volume(fills) - AbsInt(Net(fills))
    && h.pos.realized == PnlOf(h.trades)
    && h.pos.realized - ValueOf(h.pos) == Flow(fills)
    && h.pos.avg >= 0.0
    && (forall t :: t in h.trades ==> t.pnl == ComputePnl(t.side, t.entry, t.exit, t.qty) && t.qty >= 0)
  }

  /** The trade runs from the position's average to the fill's price, opened on the other side, and
      carries the reasons of both. */
  predicate Closes(pos: Position, f: Fill, t: Trade) {
    && t.symbol == f.symbol && t.side != f.side && t.entry == pos.avg && t.exit == f.price
    && t.exitReason == f.exitLabel
    && t.entryReason == match pos.entryReason
                        case None => "signal"
                        case Some(reason) => if reason == "" then "signal" else reason
  }

  /** What one regular fill does, in units: it nets, and a closing part pairs units off. */
  ghost predicate Moves(pos: Position, f: Fill, out: Outcome) {
    && out.pos.qty == pos.qty + Signed(f)
    && out.pos.realized == pos.realized + out.Pnl()
    && match out.trade
       case None => AbsInt(out.pos.qty) == AbsInt(pos.qty) + f.qty
                    && out.pos.entryReason == if pos.entryReason.Some? then pos.entryReason else Some(f.entryLabel)
       case Some(t) => t.qty >= 0 && out.pos.entryReason == (if t.qty < f.qty then Some(f.entryLabel) else None)
                       && Closes(pos, f, t) && t.pnl == ComputePnl(t.side, t.entry, t.exit, t.qty)
                       && AbsInt(out.pos.qty) == AbsInt(pos.qty) + f.qty - 2 * t.qty
  }

  lemma SettleMoves(pos: Position, f: Fill)
    requires f.qty >= 0
    ensures Moves(pos, f, Settle(pos, f))
  {
    MoveCounts(pos.qty, pos.avg, f.side, f.qty, f.price);
  }

  lemma MoveCounts(qty: int, avg: real, side: Side, n: int, price: real)
    requires n >= 0
    ensures var after := if side == Buy then qty + n else qty - n;
      match MoveOf(qty, avg, side, n, price)
      case Widen(q, _) => q == after && AbsInt(q) == AbsInt(qty) + n
      case Narrow(q, c, pnl) => q == after && c >= 0 && AbsInt(q) == AbsInt(qty) + n - 2 * c
                                && pnl == (if side == Buy then avg - price else price - avg) * c as real
      case Flip(q, c, pnl) => q == after && c >= 0 && AbsInt(q) == AbsInt(qty) + n - 2 * c
                              && pnl == (if side == Buy then avg - price else price - avg) * c as real
  {
  }

  lemma ExtendConserves(fills: seq<Fill>, h: Holding, out: Outcome)
    requires fills != [] && Conserved(fills[..|fills|-1], h)
    requires Moves(h.pos, fills[|fills|-1], out) && Balances(h.pos, fills[|fills|-1], out) && out.pos.avg >= 0.0
    ensures Conserved(fills, Extend(h, out))
  {
    if out.trade.Some? {
      assert (h.trades + [out.trade.value])[..|h.trades|] == h.trades;
    }
  }

  lemma SettleConserves(fills: seq<Fill>, h: Holding)
    requires fills != [] && Conserved(fills[..|fills|-1], h) && Regular(fills[|fills|-1])
    ensures Conserved(fills, Extend(h, Settle(h.pos, fills[|fills|-1])))
  {
    SettleBalances(h.pos, fills[|fills|-1]);
    SettleMoves(h.pos, fills[|fills|-1]);
    ExtendConserves(fills, h, Settle(h.pos, fills[|fills|-1]));
  }

  lemma RegularParts(fills: seq<Fill>)
    requires AllRegular(fills) && fills != []
    ensures AllRegular(fills[..|fills|-1]) && Regular(fills[|fills|-1])
  {
  }

  /** Conservation: the position is the sum of signed fills, every unit bought or sold is still
      open or in exactly one closed trade together with a unit of the other side, and realised
      profit is the profit of the closed trades. */
  lemma {:induction false} HoldConserves(fills: seq<Fill>)
    requires AllRegular(fills)
    ensures Conserved(fills, Hold(fills))
  {
    if fills != [] {
      RegularParts(fills);
      HoldConserves(fills[..|fills|-1]);
      SettleConserves(fills, Hold(fills[..|fills|-1]));
    }
  }

  // ----- where an average price lies

  /** The prices of the fills that opened or added to the position since it was last flat or flipped. */
  function OpeningPrices(fills: seq<Fill>): seq<real> {
    if fills == [] then []
    else
      var init, f := fills[..|fills|-1], fills[|fills|-1];
      var before, after := Net(init), Net(init) + Signed(f);
      if after == 0 then []
      else if before == 0 || (before > 0) != (after > 0) then [f.price]
      else if f.qty > 0 && (f.side == Buy) == (before > 0) then OpeningPrices(init) + [f.price]
      else OpeningPrices(init)
  }

  /** How one move changes the average: towards the fill's price, to it, or not at all. */
  lemma MoveAverage(qty: int, avg: real, side: Side, n: int, price: real, lo: real, hi: real)
    requires n >= 0 && avg >= 0.0 && qty != 0 && lo <= avg <= hi
    ensures match MoveOf(qty, avg, side, n, price)
            case Widen(_, a) => (n > 0 ==> lo <= price <= hi) ==> lo <= a <= hi
            case _ => true
  {
    if (n > 0 ==> lo <= price <= hi) && (qty > 0) == (side == Buy) {
      BetweenBounds(avg, AbsInt(qty), price, n, lo, hi);
    }
  }

  lemma SettleAverage(pos: Position, f: Fill, lo: real, hi: real)
    requires Regular(f) && pos.avg >= 0.0 && pos.qty != 0 && pos.qty + Signed(f) != 0
    requires lo <= pos.avg <= hi
    requires f.qty > 0 && ((pos.qty > 0) == (f.side == Buy) || (pos.qty > 0) != (pos.qty + Signed(f) > 0))
             ==> lo <= f.price <= hi
    ensures lo <= Settle(pos, f).pos.avg <= hi
  {
    MoveAverage(pos.qty, pos.avg, f.side, f.qty, f.price, lo, hi);
  }

  predicate Bounds(prices: seq<real>, lo: real, hi: real) {
    forall p :: p in prices ==> lo <= p <= hi
  }

  /** Every bound on the prices at which an open position was opened bounds its average. */
  ghost predicate AveragesOpenings(pos: Position, fills: seq<Fill>) {
    pos.qty != 0 ==>
      && OpeningPrices(fills) != []
      && forall lo: real, hi: real :: Bounds(OpeningPrices(fills), lo, hi) ==> lo <= pos.avg <= hi
  }

  lemma HeldAveragesOpenings(fills: seq<Fill>)
    requires AllRegular(fills)
    ensures AveragesOpenings(Hold(fills).pos, fills)
  {
    HoldConserves(fills);
    forall lo: real, hi: real | Net(fills) != 0 && Bounds(OpeningPrices(fills), lo, hi)
      ensures lo <= Hold(fills).pos.avg <= hi
    {
      AverageWithinOpeningPrices(fills, lo, hi);
    }
    if Net(fills) != 0 {
      SomeOpening(fills);
    }
  }

  lemma {:induction false} SomeOpening(fills: seq<Fill>)
    requires AllRegular(fills) && Net(fills) != 0
    ensures OpeningPrices(fills) != []
  {
    if Net(fills[..|fills|-1]) != 0 {
      SomeOpening(fills[..|fills|-1]);
    }
  }

  /** An open position's average lies between the least and the greatest of its opening prices:
      every bound on those prices bounds the average. */
  lemma {:induction false} AverageWithinOpeningPrices(fills: seq<Fill>, lo: real, hi: real)
    requires AllRegular(fills) && Net(fills) != 0
    requires Bounds(OpeningPrices(fills), lo, hi)
    ensures OpeningPrices(fills) != [] && lo <= Hold(fills).pos.avg <= hi
  {
    var init, f := fills[..|fills|-1], fills[|fills|-1];
    HoldConserves(init);
    var before, after := Net(init), Net(fills);
    if before == 0 || (before > 0) != (after > 0) {
      assert f.price in OpeningPrices(fills);
      FlipAverage(Hold(init).pos, f);
    } else {
      assert forall p :: p in OpeningPrices(init) ==> p in OpeningPrices(fills);
      AverageWithinOpeningPrices(init, lo, hi);
      if f.qty > 0 && (f.side == Buy) == (before > 0) {
        assert f.price in OpeningPrices(fills);
      }
      SettleAverage(Hold(init).pos, f, lo, hi);
    }
  }

  lemma FlipAverage(pos: Position, f: Fill)
    requires Regular(f) && pos.qty + Signed(f) != 0
    requires pos.qty == 0 || (pos.qty > 0) != (pos.qty + Signed(f) > 0)
    ensures Settle(pos, f).pos.avg == f.price
  {
    if pos.qty == 0 {
      OpeningAverage(pos.avg, f.price, f.qty);
      OpeningAverage(Abs(pos.avg), f.price, f.qty);
    }
  }

  lemma OpeningAverage(avg: real, price: real, n: int)
    requires n >= 1
    ensures Mean(avg, 0, price, n) == price
  {
    BetweenBounds(avg, 0, price, n, price, price);
  }

  lemma BetweenBounds(avg: real, held: int, price: real, n: int, lo: real, hi: real)
    requires held >= 0 && n >= 0 && held + n >= 1
    requires (n > 0 ==> lo <= price <= hi) && (held > 0 ==> lo <= avg <= hi)
    ensures lo <= Mean(avg, held, price, n) <= hi
  {
    var h, q := held as real, n as real;
    var a, b := if held > 0 then avg else price, if n > 0 then price else avg;
    SumWithin(a, h, b, q, lo, hi);
    assert avg * h == a * h && price * q == b * q;
    QuotientWithin(avg * h + price * q, h + q, lo, hi);
  }

  lemma SumWithin(avg: real, h: real, price: real, q: real, lo: real, hi: real)
    requires h >= 0.0 && q >= 0.0 && lo <= price <= hi && lo <= avg <= hi
    ensures lo * (h + q) <= avg * h + price * q <= hi * (h + q)
  {
    ProductNotNegative(avg - lo, h);
    ProductNotNegative(price - lo, q);
    Excess(avg, h, price, q, lo);
    ProductNotNegative(hi - avg, h);
    ProductNotNegative(hi - price, q);
    Shortfall(avg, h, price, q, hi);
  }

  lemma Excess(avg: real, h: real, price: real, q: real, lo: real)
    ensures avg * h + price * q - lo * (h + q) == (avg - lo) * h + (price - lo) * q
  {
  }

  lemma Shortfall(avg: real, h: real, price: real, q: real, hi: real)
    ensures hi * (h + q) - (avg * h + price * q) == (hi - avg) * h + (hi - price) * q
  {
  }
}
