/** The independent first-in-first-out lot matcher, and its agreement with the average-cost ledger. */
module FifoLots {
  import opened Costs
  import opened Ledger

  datatype Lot = Lot(qty: int, price: real)

  /** Open lots, oldest first, and the profit realised so far. */
  datatype Book = Book(longs: seq<Lot>, shorts: seq<Lot>, realized: real)

  const DUST := 0.000000001

  /** What is left of the lots, the units still to be matched, and used x (price - lot price). */
  datatype Matched = Matched(lots: seq<Lot>, rem: int, gain: real)

  /** One turn: trims the oldest lot, and drops it when no more than dust is left. */
  function Turn(lots: seq<Lot>, rem: int, price: real): Matched
    requires lots != []
  {
    var used := Min(rem, lots[0].qty);
    Matched(if (lots[0].qty - used) as real <= DUST then lots[1..]
            else [Lot(lots[0].qty - used, lots[0].price)] + lots[1..],
            rem - used, used as real * (price - lots[0].price))
  }

  function Plus(m: Matched, gain: real): Matched {
    m.(gain := gain + m.gain)
  }

  /** Takes up to `rem` units off the oldest lots at a price. */
  function Match(lots: seq<Lot>, rem: int, price: real): Matched
    decreases |lots|, rem > 0
  {
    if rem <= 0 || lots == [] then Matched(lots, rem, 0.0)
    else
      var one := Turn(lots, rem, price);
      Plus(Match(one.lots, one.rem, price), one.gain)
  }

  function Units(lots: seq<Lot>): int {
    if lots == [] then 0 else lots[0].qty + Units(lots[1..])
  }

  function Value(lots: seq<Lot>): real {
    if lots == [] then 0.0 else lots[0].qty as real * lots[0].price + Value(lots[1..])
  }

  ghost predicate Positive(lots: seq<Lot>) {
    forall k :: 0 <= k < |lots| ==> lots[k].qty >= 1
  }

  function Leftover(lots: seq<Lot>, rem: int, price: real): seq<Lot> {
    if rem > 0 then lots + [Lot(rem, price)] else lots
  }

  /** Matching one fill: what is taken off the other side is realised at the fill's price, and
      what is left becomes a lot of its own. */
  function MatchFill(b: Book, f: Fill): Book {
    if f.side == Buy then
      var m := Match(b.shorts, f.qty, f.price);
      Book(Leftover(b.longs, m.rem, f.price), m.lots, b.realized - m.gain)
    else
      var m := Match(b.longs, f.qty, f.price);
      Book(m.lots, Leftover(b.shorts, m.rem, f.price), b.realized + m.gain)
  }

  function MatchAll(fills: seq<Fill>): Book {
    if fills == [] then Book([], [], 0.0) else MatchFill(MatchAll(fills[..|fills|-1]), fills[|fills|-1])
  }

  /** What matching does, as a whole: units and values taken off the lots, and their gain. */
  ghost predicate Takes(lots: seq<Lot>, qty: int, price: real, m: Matched) {
    && Positive(m.lots)
    && Units(lots) - Units(m.lots) == qty - m.rem
    && m.gain == price * (qty - m.rem) as real - (Value(lots) - Value(m.lots))
    && 0 <= m.rem <= qty
    && (m.rem > 0 ==> m.lots == [])
  }

  /** In whole units the dust rule pops a lot exactly when it is used up. */
  lemma MatchOneLot(lots: seq<Lot>, rem: int, price: real)
    requires Positive(lots) && lots != [] && rem > 0
    ensures Match(lots, rem, price) ==
      if rem >= lots[0].qty then
        var rest := Match(lots[1..], rem - lots[0].qty, price);
        Plus(rest, lots[0].qty as real * (price - lots[0].price))
      else Matched([Lot(lots[0].qty - rem, lots[0].price)] + lots[1..], 0, rem as real * (price - lots[0].price))
  {
  }

  lemma {:induction false} MatchTakes(lots: seq<Lot>, rem: int, price: real)
    requires Positive(lots) && rem >= 0
    ensures Takes(lots, rem, price, Match(lots, rem, price))
  {
    if rem > 0 && lots != [] {
      MatchOneLot(lots, rem, price);
      if rem >= lots[0].qty {
        MatchTakes(lots[1..], rem - lots[0].qty, price);
        TakeWhole(lots, rem, price, Match(lots[1..], rem - lots[0].qty, price));
      } else {
        TakePart(lots, rem, price);
      }
    } else {
      TakeNothing(lots, rem, price);
    }
  }

  lemma TakeNothing(lots: seq<Lot>, rem: int, price: real)
    requires Positive(lots) && rem >= 0 && (rem == 0 || lots == [])
    ensures Takes(lots, rem, price, Matched(lots, rem, 0.0))
  {
  }

  lemma TakeWhole(lots: seq<Lot>, rem: int, price: real, rest: Matched)
    requires Positive(lots) && lots != [] && rem >= lots[0].qty
    requires Takes(lots[1..], rem - lots[0].qty, price, rest)
    ensures Takes(lots, rem, price, Plus(rest, lots[0].qty as real * (price - lots[0].price)))
  {
    var q, p, n := lots[0].qty as real, lots[0].price, rem - lots[0].qty - rest.rem;
    assert price * (rem - rest.rem) as real == price * n as real + price * q;
    assert q * (price - p) == price * q - q * p;
  }

  lemma TakePart(lots: seq<Lot>, rem: int, price: real)
    requires Positive(lots) && lots != [] && 0 < rem < lots[0].qty
    ensures var left := [Lot(lots[0].qty - rem, lots[0].price)] + lots[1..];
      Takes(lots, rem, price, Matched(left, 0, rem as real * (price - lots[0].price)))
  {
    var left := [Lot(lots[0].qty - rem, lots[0].price)] + lots[1..];
    assert left[1..] == lots[1..];
    assert (lots[0].qty - rem) as real * lots[0].price
           == lots[0].qty as real * lots[0].price - rem as real * lots[0].price;
  }

  lemma {:induction false} Append(lots: seq<Lot>, lot: Lot)
    ensures Units(lots + [lot]) == Units(lots) + lot.qty
    ensures Value(lots + [lot]) == Value(lots) + lot.qty as real * lot.price
  {
    if lots != [] {
      Append(lots[1..], lot);
      assert (lots + [lot])[1..] == lots[1..] + [lot];
    } else {
      assert (lots + [lot])[1..] == [];
    }
  }

  lemma LeftoverAdds(lots: seq<Lot>, rem: int, price: real)
    requires Positive(lots) && rem >= 0
    ensures var after := Leftover(lots, rem, price);
      Positive(after) && Units(after) == Units(lots) + rem && Value(after) == Value(lots) + rem as real * price
  {
    Append(lots, Lot(rem, price));
  }

  lemma {:induction false} NoUnitsNoLots(lots: seq<Lot>)
    requires Positive(lots)
    ensures Units(lots) >= 0 && (Units(lots) == 0 <==> lots == [])
  {
    if lots != [] {
      NoUnitsNoLots(lots[1..]);
    }
  }

  /** The matcher's state after any fills: lots of at least one unit, never on both sides. */
  ghost predicate Sound(b: Book) {
    Positive(b.longs) && Positive(b.shorts) && (b.longs == [] || b.shorts == [])
  }

  function BookNet(b: Book): int {
    Units(b.longs) - Units(b.shorts)
  }

  function OpenValue(b: Book): real {
    Value(b.longs) - Value(b.shorts)
  }

  ghost predicate Follows(b: Book, f: Fill, c: Book) {
    && Sound(c)
    && BookNet(c) == BookNet(b) + Signed(f)
    && c.realized - OpenValue(c) == b.realized - OpenValue(b) + CashFlow(f)
  }

  lemma MatchFillBalances(b: Book, f: Fill)
    requires Sound(b) && f.qty >= 0
    ensures Follows(b, f, MatchFill(b, f))
  {
    if f.side == Buy {
      MatchTakes(b.shorts, f.qty, f.price);
      BuyFollows(b, f, Match(b.shorts, f.qty, f.price));
    } else {
      MatchTakes(b.longs, f.qty, f.price);
      SellFollows(b, f, Match(b.longs, f.qty, f.price));
    }
  }

  /** One side matched against the other: what is then left there and here. */
  ghost predicate SidesMatched(against: seq<Lot>, own: seq<Lot>, qty: int, value: real, left: seq<Lot>, after: seq<Lot>,
      gain: real) {
    && Positive(left) && Positive(after) && (left == [] || after == [])
    && Units(after) - Units(left) == Units(own) - Units(against) + qty
    && Value(after) - Value(left) + gain == Value(own) - Value(against) + value
  }

  lemma BuyFollows(b: Book, f: Fill, m: Matched)
    requires Sound(b) && f.qty >= 0 && f.side == Buy && Takes(b.shorts, f.qty, f.price, m)
    ensures Follows(b, f, Book(Leftover(b.longs, m.rem, f.price), m.lots, b.realized - m.gain))
  {
    SidesAreMatched(b.shorts, b.longs, f.qty, f.price, m);
    BoughtFollows(b, f, m.lots, Leftover(b.longs, m.rem, f.price), m.gain, f.qty as real * f.price);
  }

  lemma BoughtFollows(b: Book, f: Fill, left: seq<Lot>, after: seq<Lot>, gain: real, value: real)
    requires f.side == Buy && SidesMatched(b.shorts, b.longs, f.qty, value, left, after, gain)
    requires value == f.qty as real * f.price
    ensures Follows(b, f, Book(after, left, b.realized - gain))
  {
  }

  lemma SellFollows(b: Book, f: Fill, m: Matched)
    requires Sound(b) && f.qty >= 0 && f.side == Sell && Takes(b.longs, f.qty, f.price, m)
    ensures Follows(b, f, Book(m.lots, Leftover(b.shorts, m.rem, f.price), b.realized + m.gain))
  {
    SidesAreMatched(b.longs, b.shorts, f.qty, f.price, m);
    SoldFollows(b, f, m.lots, Leftover(b.shorts, m.rem, f.price), m.gain, f.qty as real * f.price);
  }

  lemma SoldFollows(b: Book, f: Fill, left: seq<Lot>, after: seq<Lot>, gain: real, value: real)
    requires f.side == Sell && SidesMatched(b.longs, b.shorts, f.qty, value, left, after, gain)
    requires value == f.qty as real * f.price
    ensures Follows(b, f, Book(left, after, b.realized + gain))
  {
  }

  lemma SidesAreMatched(against: seq<Lot>, own: seq<Lot>, qty: int, price: real, m: Matched)
    requires Positive(against) && Positive(own) && (against == [] || own == []) && Takes(against, qty, price, m)
    ensures SidesMatched(against, own, qty, qty as real * price, m.lots, Leftover(own, m.rem, price), m.gain)
  {
    OneSideLeft(against, m.lots, m.rem, own, price);
    LeftoverAdds(own, m.rem, price);
    ValueSplits(price, qty, m.rem, m.gain, Value(against), Value(m.lots));
    Totalled(against, own, qty, qty as real * price, m.lots, Leftover(own, m.rem, price), m.gain, m.rem,
             m.rem as real * price);
  }

  lemma Totalled(against: seq<Lot>, own: seq<Lot>, qty: int, value: real, left: seq<Lot>, after: seq<Lot>, gain: real,
      rem: int, extra: real)
    requires Positive(left) && Positive(after) && (left == [] || after == [])
    requires Units(after) == Units(own) + rem && Units(against) - Units(left) == qty - rem
    requires Value(after) == Value(own) + extra && gain + extra == value - Value(against) + Value(left)
    ensures SidesMatched(against, own, qty, value, left, after, gain)
  {
  }

  /** Whichever side is matched against: lots are left there or here, but not on both. */
  lemma OneSideLeft(against: seq<Lot>, lots: seq<Lot>, rem: int, own: seq<Lot>, price: real)
    requires Positive(against) && Positive(lots) && (against == [] || own == [])
    requires Units(lots) <= Units(against) && rem >= 0 && (rem > 0 ==> lots == [])
    ensures lots == [] || Leftover(own, rem, price) == []
  {
    NoUnitsNoLots(against);
    NoUnitsNoLots(lots);
  }

  lemma ValueSplits(price: real, qty: int, rem: int, gain: real, before: real, after: real)
    requires gain == price * (qty - rem) as real - (before - after)
    ensures gain + rem as real * price == qty as real * price - before + after
  {
    PriceSplits(price, qty, rem);
  }

  lemma PriceSplits(price: real, qty: int, rem: int)
    ensures price * (qty - rem) as real == qty as real * price - rem as real * price
  {
  }

  lemma {:induction false} MatchAllBalances(fills: seq<Fill>)
    requires AllRegular(fills)
    ensures var b := MatchAll(fills);
      Sound(b) && BookNet(b) == Net(fills) && b.realized - OpenValue(b) == Flow(fills)
  {
    if fills != [] {
      assert Regular(fills[|fills|-1]);
      MatchAllBalances(fills[..|fills|-1]);
      MatchFillBalances(MatchAll(fills[..|fills|-1]), fills[|fills|-1]);
    }
  }

  /** The same net position; realised profits that differ by exactly the difference of the open
      book values; and so the same realised profit, and no lots, whenever the position is flat. */
  ghost predicate Agrees(p: Position, b: Book) {
    && p.qty == BookNet(b)
    && p.realized - b.realized == ValueOf(p) - OpenValue(b)
    && (p.qty == 0 ==> p.realized == b.realized && b.longs == [] && b.shorts == [])
  }

  /** Average cost against first-in-first-out, over any fills of one symbol. */
  lemma AverageCostAgainstFifo(fills: seq<Fill>)
    requires AllRegular(fills)
    ensures Agrees(Hold(fills).pos, MatchAll(fills))
  {
    HoldConserves(fills);
    MatchAllBalances(fills);
    SameNetAgrees(fills, Hold(fills), MatchAll(fills));
  }

  lemma SameNetAgrees(fills: seq<Fill>, h: Holding, b: Book)
    requires Conserved(fills, h) && Sound(b) && BookNet(b) == Net(fills) && b.realized - OpenValue(b) == Flow(fills)
    ensures Agrees(h.pos, b)
  {
    NoUnitsNoLots(b.longs);
    NoUnitsNoLots(b.shorts);
    if h.pos.qty == 0 {
      assert ValueOf(h.pos) == 0.0;
    }
  }

  /** The same, lifted to an account that trades many symbols. */
  lemma AccountAgainstFifo(capital: real, fills: seq<Fill>, symbol: string)
    requires AllRegular(fills)
    ensures Agrees(Replay(capital, fills).PositionOf(symbol), MatchAll(Of(fills, symbol)))
  {
    SymbolsAreIndependent(capital, fills, symbol);
    OfKeepsRegular(fills, symbol);
    AverageCostAgainstFifo(Of(fills, symbol));
  }

  // ----- first in, first out

  /** One unit after the other, each at its price. */
  function Each(n: int, price: real): (prices: seq<real>)
    ensures |prices| == (if n < 0 then 0 else n) && forall k :: 0 <= k < |prices| ==> prices[k] == price
  {
    seq(if n < 0 then 0 else n, _ => price)
  }

  /** The prices of the units in the lots, oldest first. */
  function UnitPrices(lots: seq<Lot>): seq<real> {
    if lots == [] then [] else Each(lots[0].qty, lots[0].price) + UnitPrices(lots[1..])
  }

  /** The prices of the units traded on one side, in order. */
  function Traded(fills: seq<Fill>, side: Side): seq<real> {
    if fills == [] then []
    else
      var f := fills[|fills|-1];
      Traded(fills[..|fills|-1], side) + if f.side == side then Each(f.qty, f.price) else []
  }

  ghost predicate IsTail(part: seq<real>, whole: seq<real>) {
    |part| <= |whole| && whole[|whole| - |part|..] == part
  }

  lemma {:induction false} UnitPricesAppend(lots: seq<Lot>, lot: Lot)
    ensures UnitPrices(lots + [lot]) == UnitPrices(lots) + Each(lot.qty, lot.price)
  {
    if lots == [] {
      assert (lots + [lot])[1..] == [];
    } else {
      assert (lots + [lot])[1..] == lots[1..] + [lot];
      UnitPricesAppend(lots[1..], lot);
    }
  }

  /** What is left of the lots are their youngest units; the units taken are those not left over. */
  ghost predicate LeavesYoungest(lots: seq<Lot>, rem: int, left: seq<Lot>, over: int) {
    && 0 <= over <= rem && IsTail(UnitPrices(left), UnitPrices(lots))
    && |UnitPrices(lots)| - |UnitPrices(left)| == rem - over
  }

  /** Matching takes the oldest units. */
  lemma {:induction false} MatchTakesOldest(lots: seq<Lot>, rem: int, price: real)
    requires Positive(lots) && rem >= 0
    ensures LeavesYoungest(lots, rem, Match(lots, rem, price).lots, Match(lots, rem, price).rem)
  {
    if rem > 0 && lots != [] {
      MatchOneLot(lots, rem, price);
      if rem >= lots[0].qty {
        MatchTakesOldest(lots[1..], rem - lots[0].qty, price);
        var rest := Match(lots[1..], rem - lots[0].qty, price);
        OldestLotIsTaken(lots, rem, rest.lots, rest.rem);
      } else {
        OldestLotIsTrimmed(lots, rem);
      }
    }
  }

  lemma OldestLotIsTaken(lots: seq<Lot>, rem: int, left: seq<Lot>, over: int)
    requires lots != [] && 1 <= lots[0].qty <= rem && LeavesYoungest(lots[1..], rem - lots[0].qty, left, over)
    ensures LeavesYoungest(lots, rem, left, over)
  {
  }

  lemma OldestLotIsTrimmed(lots: seq<Lot>, rem: int)
    requires lots != [] && 0 < rem < lots[0].qty
    ensures LeavesYoungest(lots, rem, [Lot(lots[0].qty - rem, lots[0].price)] + lots[1..], 0)
  {
    assert ([Lot(lots[0].qty - rem, lots[0].price)] + lots[1..])[1..] == lots[1..];
    assert Each(lots[0].qty, lots[0].price)[rem..] == Each(lots[0].qty - rem, lots[0].price);
  }

  lemma TailGrows(part: seq<real>, whole: seq<real>, more: seq<real>)
    requires IsTail(part, whole)
    ensures IsTail(part + more, whole + more)
  {
  }

  lemma TailOfTail(part: seq<real>, more: seq<real>, whole: seq<real>)
    requires IsTail(part, more) && IsTail(more, whole)
    ensures IsTail(part, whole)
  {
  }

  lemma LastUnitsAreTail(rem: int, qty: int, price: real, whole: seq<real>)
    requires 0 <= rem <= qty
    ensures IsTail(Each(rem, price), whole + Each(qty, price))
  {
  }

  /** One side's lots after a fill on that side. */
  lemma OwnSideIsTail(own: seq<Lot>, whole: seq<real>, qty: int, rem: int, price: real)
    requires 0 <= rem <= qty && IsTail(UnitPrices(own), whole) && (own == [] || rem == qty)
    ensures IsTail(UnitPrices(Leftover(own, rem, price)), whole + Each(qty, price))
  {
    if rem > 0 {
      UnitPricesAppend(own, Lot(rem, price));
    }
    if own == [] {
      LastUnitsAreTail(rem, qty, price, whole);
    } else {
      TailGrows(UnitPrices(own), whole, Each(qty, price));
    }
  }

  /** What is open are the units traded last: first in, first out, over any fills. */
  lemma {:induction false} OpenUnitsAreTheLatest(fills: seq<Fill>)
    requires AllRegular(fills)
    ensures AreLatest(MatchAll(fills), Traded(fills, Buy), Traded(fills, Sell))
  {
    if fills != [] {
      var init, f := fills[..|fills|-1], fills[|fills|-1];
      OpenUnitsAreTheLatest(init);
      MatchAllBalances(init);
      assert Regular(f) && Traded(init, Buy) + [] == Traded(init, Buy) && Traded(init, Sell) + [] == Traded(init, Sell);
      FillKeepsTails(MatchAll(init), f, Traded(init, Buy), Traded(init, Sell));
    }
  }

  /** The lots of both sides are the last units traded on them. */
  ghost predicate AreLatest(b: Book, bought: seq<real>, sold: seq<real>) {
    IsTail(UnitPrices(b.longs), bought) && IsTail(UnitPrices(b.shorts), sold)
  }

  lemma FillKeepsTails(b: Book, f: Fill, bought: seq<real>, sold: seq<real>)
    requires Sound(b) && f.qty >= 0 && AreLatest(b, bought, sold)
    ensures f.side == Buy ==> AreLatest(MatchFill(b, f), bought + Each(f.qty, f.price), sold)
    ensures f.side == Sell ==> AreLatest(MatchFill(b, f), bought, sold + Each(f.qty, f.price))
  {
    if f.side == Buy {
      SideKeepsTails(b.shorts, sold, b.longs, bought, f.qty, f.price, Match(b.shorts, f.qty, f.price));
    } else {
      SideKeepsTails(b.longs, bought, b.shorts, sold, f.qty, f.price, Match(b.longs, f.qty, f.price));
    }
  }

  lemma SideKeepsTails(against: seq<Lot>, theirs: seq<real>, own: seq<Lot>, ours: seq<real>, qty: int, price: real,
      m: Matched)
    requires m == Match(against, qty, price) && qty >= 0 && Positive(against) && (against == [] || own == [])
    requires IsTail(UnitPrices(against), theirs) && IsTail(UnitPrices(own), ours)
    ensures IsTail(UnitPrices(m.lots), theirs)
    ensures IsTail(UnitPrices(Leftover(own, m.rem, price)), ours + Each(qty, price))
  {
    MatchTakesOldest(against, qty, price);
    TailOfTail(UnitPrices(m.lots), UnitPrices(against), theirs);
    OwnSideIsTail(own, ours, qty, m.rem, price);
  }

  // ----- the matcher as it runs

  /** What has been matched so far, and what matching the rest would add. */
  ghost predicate Midway(whole: Matched, lots: seq<Lot>, rem: int, price: real, gain: real) {
    whole == Plus(Match(lots, rem, price), gain)
  }

  lemma BeforeTurns(lots: seq<Lot>, rem: int, price: real)
    ensures Midway(Match(lots, rem, price), lots, rem, price, 0.0)
  {
  }

  lemma AfterTurn(whole: Matched, lots: seq<Lot>, rem: int, price: real, gain: real, one: Matched)
    requires rem > 0 && lots != [] && one == Turn(lots, rem, price) && Midway(whole, lots, rem, price, gain)
    ensures Midway(whole, one.lots, one.rem, price, gain + one.gain)
  {
  }

  lemma AfterAll(whole: Matched, lots: seq<Lot>, rem: int, price: real, gain: real)
    requires Midway(whole, lots, rem, price, gain) && (rem <= 0 || lots == [])
    ensures whole == Matched(lots, rem, gain)
  {
  }

  /** The inner loop: trims and pops the oldest lots, paying the difference in price. */
  method Consume(open: seq<Lot>, qty: int, price: real) returns (lots: seq<Lot>, rem: int, gain: real)
    ensures Matched(lots, rem, gain) == Match(open, qty, price)
  {
    ghost var whole := Match(open, qty, price);
    lots, rem, gain := open, qty, 0.0;
    BeforeTurns(lots, rem, price);
    while rem > 0 && lots != []
      invariant Midway(whole, lots, rem, price, gain)
      decreases |lots|, rem > 0
    {
      var lot, was := lots[0], lots;
      var used := Min(rem, lot.qty);
      var profit := used as real * (price - lot.price);
      if (lot.qty - used) as real <= DUST {
        lots := lots[1..];
      } else {
        lots := [Lot(lot.qty - used, lot.price)] + lots[1..];
      }
      AfterTurn(whole, was, rem, price, gain, Matched(lots, rem - used, profit));
      gain := gain + profit;
      rem := rem - used;
    }
    AfterAll(whole, lots, rem, price, gain);
  }

  method ReferenceNetAndRealized(fills: seq<Fill>) returns (net: int, realized: real)
    ensures net == BookNet(MatchAll(fills)) && realized == MatchAll(fills).realized
  {
    var longs: seq<Lot>, shorts: seq<Lot> := [], [];
    realized := 0.0;
    for k := 0 to |fills|
      invariant Book(longs, shorts, realized) == MatchAll(fills[..k])
    {
      var f := fills[k];
      assert fills[..k+1][..k] == fills[..k];
      if f.side == Buy {
        var rem, gain;
        shorts, rem, gain := Consume(shorts, f.qty, f.price);
        realized := realized - gain;
        if rem > 0 {
          longs := longs + [Lot(rem, f.price)];
        }
      } else {
        var rem, gain;
        longs, rem, gain := Consume(longs, f.qty, f.price);
        realized := realized + gain;
        if rem > 0 {
          shorts := shorts + [Lot(rem, f.price)];
        }
      }
    }
    assert fills[..|fills|] == fills;
    net := Units(longs) - Units(shorts);
  }
}
