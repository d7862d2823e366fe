# Verification of the strategy builder, the backtester and the session refresh

A Dafny 4.11 model of five parts of the trading platform, and proofs about them. `dafny verify
dfyconfig.toml` checks the whole project. Prices and money are exact reals.

**The strategy compiler** (`StrategyDsl`, `Graph`, `TopologicalSort`, `StrategyCompiler`). A drawn
strategy is a finite directed multigraph. The depth-first cycle finder is a class whose marks and
path change in place, Kahn's queue is a method with a loop; each is proved against walks in the
graph, and so the two agree. Compiled plans are proved to compute the drawing's dataflow.

**The simulated broker and its ledger** (`Costs`, `Ledger`, `FifoLots`, `FillEngine`, `Broker`,
`CandleFills`, `BrokerLifecycle`, `BacktestBroker`). The broker's steps are functions on a state, about which all
runs are quantified; `BacktestBroker.SimulatedBroker` is the object with the fields, and each of
its methods is proved to do to them what the step does to the state. A second ledger, the
first-in-first-out matcher of the smoke probe, is proved to agree with the average-cost one.

**The risk gate and the run loops** (`RiskGate`, `RiskVerdicts`, `RiskSimulator`, `GatedRun`,
`GatedOrders`, `PositionCap`, `RunLoops`, `NoLookAhead`, `LoopRuns`, `EndOfRun`, `Labels`,
`LoopAgreement`, `LoopDivergence`, `ReplayEngine`).
The gate is a state machine and, in `RiskSimulator.Simulator`, an object. A strategy is any
deterministic function of its own state and a candle. What is proved of all plays of the gated
session is carried over to the candle loops as the backtester starts them. The paced replay is a
machine that may be suspended wherever the code awaits, and every schedule of pause, resume, stop
and speed events is covered, with the gate and without.

**The analytics** (`Downsampling`, `Analytics`): the largest-triangle downsampler, the one-pass
drawdown and the streak counter, against their definitions over all buckets, pairs and runs.

**Two protocols** (`TokenManager`, `VersionHistory`, `StoredDocs`, `StrategyStore`): the session refresh, as
steps of any number of callers that interleave wherever the code awaits; and version history,
where settings are dictionaries that records can share, with `StrategyStore.Manager` as the
object.

`Options`, `Collections` and `RealArithmetic` are small helpers.

## Where the code departs from what is expected of it

- `CRORE` is 100 000 000 (`apps/api/backtest/costs.py:65`); a crore is 10 000 000. The SEBI fee is
  a tenth of the configured rate per crore (`Costs.SebiFeeIsATenth`), and right iff it is nothing
  (`Costs.SebiFeeIsRightOnlyForNothing`).
- Only MARKET orders with a non-positive quantity are rejected
  (`apps/api/backtest/execution.py:114-115`). LIMIT and SL orders fill as they stand
  (`FillEngine.FillQuantityInRange`), and the books are kept iff the quantity is not negative
  (`Ledger.BooksNeedNonNegativeQuantity`).
- Slippage above 100% books sales at negative prices (`FillEngine.PricesNotNegativeExactly`).
- Slippage is applied after a stop-limit's limit, so the fill respects the limit in every candle
  iff there is none (`FillEngine.StopLimitKeepsLimitOnlyWithoutSlippage`).
- `equity()` is cash plus unrealised profit, but cash has already paid for the positions: with
  open positions it is below cash plus market value by their book value (`Ledger.EquityAccounts`).
- The end-of-run close goes through the fill engine, so at the last candle it works iff latency is
  zero (`GatedRun.CloseAtLastCandleNeedsZeroLatency`).
- A clamped order is approved before any limit is looked at, so the position cap holds in all runs
  iff per-trade sizing is off, or the kill switch or the emergency stop is on
  (`PositionCap.CapHoldsExactlyWithoutSizing`).
- The one-pass drawdown percentage misses greater falls when equity can be negative
  (`Analytics.PctIsRightExactlyAboveZero`).
- The downsampler divides by zero at a threshold of two (`Downsampling.DownsamplePairs`).
- `get_session` returns the session a refresher was last granted iff nobody has invalidated it
  since, and otherwise nothing (`TokenManager.RefresherReturnsItsLastGrant`). A save that raises is
  retried by authenticating again although a valid session is stored, which may replace it
  (`TokenManager.FailedSaveReplacesTheSession`). A caller may be told that a refresh is in progress
  iff locks are evicted while callers wait (`TokenManager.RefusalNeedsEviction`).
- Every version saved by an update shares the live record's settings dictionary until the record
  is next saved whole (by a clone into it, a rollback or a change of status), so a settings update
  rewrites all of them (`VersionHistory.UpdateRewritesVersionsSavedSince`). The cap of 50 binds
  updates only (`VersionHistory.OnlyUpdatesAreCapped`), so that rollbacks pass it
  (`VersionHistory.RollbacksPassTheCap`). The first version's owner is empty, so
  rolling back to it hides the strategy from its owner
  (`VersionHistory.RollbackToFirstLosesTheOwner`).
- `create` stores its default owner, none, in a field the strategy model requires to be a string,
  so reading such a strategy back raises. A strategy is readable iff its record was not last saved
  whole by such a creation (`VersionHistory.ReadableExactlyWhenSavedWithOwner`).
- The replay takes a candle's risk snapshot before the strategy's orders, the MAX loop after them,
  and so the two agree in all runs iff drawdown is unlimited or limited at 100%, or trading is
  switched off, whatever the other rules (`LoopDivergence.LoopsAgreeExactly`).

## Model

| member | source | states |
|---|---|---|
| `TopologicalSort.SortNodes` | apps/api/builder/compiler.py:54-99 | On every finite multigraph: the sorted list holds, once each and sources first, exactly the nodes that no cycle reaches; the recorded cycles are simple cycles, one for each link, duplicates counted, that goes backward in the order in which the search finishes the nodes; every cycle of the graph has a link that closes a recorded one; and none is recorded iff the graph is acyclic iff Kahn lists every node |
| `TopologicalSort.Links` | apps/api/builder/compiler.py:57-62 | Adjacency holds a target once per edge and counters count every edge, duplicates included; an edge with an unknown end adds nothing |
| `TopologicalSort.InitialQueue` | apps/api/builder/compiler.py:64 | The queue starts with each node of in-degree zero, once |
| `TopologicalSort.Kahn` | apps/api/builder/compiler.py:91-97 | The queue loop lists a node iff no cycle reaches it, each once, after all its sources |
| `TopologicalSort.Release` | apps/api/builder/compiler.py:94-97 | Settling one node's edges, duplicates counted one by one, queues exactly the nodes whose counter reaches zero, once |
| `TopologicalSort.PendingAfter` | apps/api/builder/compiler.py:94-95 | Finishing a node takes off a counter exactly as many as the node has edges into it |
| `TopologicalSort.NothingPending` | apps/api/builder/compiler.py:96 | A counter is zero iff every source of the node has been sorted |
| `TopologicalSort.UnsortedAreReached` | apps/api/builder/compiler.py:91-97 | When the queue runs dry the unsorted nodes are exactly those that a cycle reaches |
| `TopologicalSort.CycleFinder.FindCycle` | apps/api/builder/compiler.py:72-85 | The search keeps the temporary marks equal to the path, only adds marks and cycles, restores the path, terminates by the unmarked nodes, and records one cycle for each link it follows into the path and none for any other |
| `TopologicalSort.CycleFinder.Explore` | apps/api/builder/compiler.py:81-82 | The neighbour loop leaves all neighbours marked, and has closed one cycle for each link into the path, duplicates counted |
| `TopologicalSort.CycleFinder.Run` | apps/api/builder/compiler.py:68-89 | After the outer loop every node is permanently marked, the path is empty and exactly the backward links have closed cycles |
| `TopologicalSort.BackEdgeClosesCycle` | apps/api/builder/compiler.py:75-78 | The slice of the path from the node met again, closed by that node, is a simple cycle |
| `TopologicalSort.EveryCycleIsCut` | apps/api/builder/compiler.py:75-88 | Where every backward link closes a recorded cycle, every cycle of the graph has a link that closes a recorded one: without those links none is left |
| `TopologicalSort.FinishOrderIsTopological` | apps/api/builder/compiler.py:83-85 | Without a back edge the reverse order of permanent marking is a topological order |
| `Graph.Digraph.StuckSoCycleReaches` | apps/api/builder/compiler.py:91-97 | In a finite graph a node among nodes that all have a predecessor among themselves is reached from a cycle |
| `Graph.Digraph.AcyclicIffNoCycleReaches` | apps/api/builder/compiler.py:68-97 | A graph is acyclic iff no node is reached from a cycle: the two algorithms ask the same question |
| `StrategyCompiler.Validate` | apps/api/builder/compiler.py:177-272 | Reports exactly the drawing's faults, each with its node and the block type, port, parameter, unknown id or cycle it is about; every recorded cycle is reported and every cycle of the drawing has a link that closes a reported one; valid iff there is no fault but a missing order block |
| `StrategyCompiler.EdgeSettlesItsPort` | apps/api/builder/compiler.py:198-212 | Drawing an edge removes exactly the missing-input issue of the port it leads into |
| `StrategyCompiler.ParamSettlesItsSlot` | apps/api/builder/compiler.py:198-218 | Giving a parameter removes exactly the missing-input and missing-parameter issues of that name |
| `StrategyCompiler.BareNodeMissesAllItNeeds` | apps/api/builder/compiler.py:198-218 | Before any edge or parameter, what is missing are the required slots without a default, but for inputs whose name starts with an underscore |
| `StrategyCompiler.CompileDsl` | apps/api/builder/compiler.py:102-174 | Compilation succeeds iff the drawing is well-formed, so the empty-order fallback is unreachable; the plan is a permutation of the node ids, sources first; entry and exit points are exactly the blocks without incoming and outgoing edges; the maximum depth is the length of the longest walk |
| `StrategyCompiler.Assemble` | apps/api/builder/compiler.py:122-155 | Each block is compiled at its place in the order with the sources of its edges as inputs, and its recorded depth is the longest walk that ends at it |
| `StrategyCompiler.DepthFrom` | apps/api/builder/compiler.py:130-132 | The inner loop yields one more than the deepest input, or zero |
| `StrategyCompiler.DepthIsLongest` | apps/api/builder/compiler.py:130-133 | One more than the deepest source is the length of the longest walk ending at a node |
| `StrategyCompiler.MaxDepth` | apps/api/builder/compiler.py:164 | The greatest recorded depth is the longest walk in the graph |
| `StrategyCompiler.Exits` | apps/api/builder/compiler.py:157-162 | Exit points are exactly the nodes without outgoing edges, each once |
| `StrategyCompiler.InputsAreSources` | apps/api/builder/compiler.py:44-46 | A node's inputs are exactly the sources of edges into it |
| `StrategyCompiler.InputsInEdgeOrder` | apps/api/builder/compiler.py:44-46 | A node has one input for each edge into it, in the order of the edges |
| `StrategyCompiler.LastDrawnWins` | apps/api/builder/compiler.py:107-124 | Of nodes that share an id the one drawn last is compiled |
| `StrategyCompiler.EveryBlockIsBetweenEntryAndExit` | apps/api/builder/compiler.py:135-162 | Every block of a plan lies on a walk from an entry point to an exit point |
| `StrategyCompiler.PlanComputesTheDataflow` | apps/api/builder/compiler.py:122-155 | Running the plan once through, each node reading only its inputs, gives the one and only solution of the dataflow equations, for any per-block functions |
| `StrategyCompiler.PlansAgree` | apps/api/builder/compiler.py:91-97 | Any two plans of one drawing compute the same values |
| `Costs.Round2IsClose` | apps/api/backtest/costs.py:117-162 | Rounding to paise moves an amount by at most half a paisa |
| `Costs.TiesGoToEven` | apps/api/backtest/costs.py:117-162 | A tie is rounded to the even neighbour |
| `Costs.DutiesBySide` | apps/api/backtest/costs.py:129-149 | STT falls on sales, and on intraday equity purchases too, and stamp duty on purchases only, each at its rate to the nearest paisa; otherwise they are zero |
| `Costs.FeesBySegment` | apps/api/backtest/costs.py:117-160 | Options pay the flat brokerage and others the commission but the minimum at least; exchange charges go by segment; GST falls on these two alone |
| `Costs.BillForALakh` | apps/api/backtest/costs.py:39-62 | The bill for a lakh under the default rates, charge by charge, for each side and segment |
| `Costs.SegmentsByInstrument` | apps/api/backtest/costs.py:68-84 | Only equities held for delivery are of the delivery segment; futures and options are segments of their own |
| `Costs.TotalIsTheSum` | apps/api/backtest/costs.py:117-162 | The rounded total is exactly the sum of the seven rounded charges: the last rounding adds no error |
| `Costs.RoundingIsBounded` | apps/api/backtest/costs.py:98-174 | The total is within 0.035 + 0.01 x GST rate / 100 of the unrounded charges |
| `Costs.TotalIsMonotone` | apps/api/backtest/costs.py:98-174 | For non-negative rates a larger trade on the same side and segment, with no less slippage, never costs less |
| `Broker.ChargeGrowsWithValue` | apps/api/backtest/execution.py:331-342 | What the broker charges for a fill, slippage in proportion included, never falls as quantity x price grows |
| `Broker.CostIsOfItsSegment` | apps/api/backtest/execution.py:331-342 | A fill is charged on its own side and segment for price x quantity, with the configured share of that as slippage |
| `Costs.RoundTripIsBothLegs` | apps/api/backtest/costs.py:177-202 | A round trip's total is exactly its two legs' totals, and within twice the one-leg bound |
| `Costs.PartsAreBothLegs` | apps/api/backtest/costs.py:177-202 | Each charge of a round trip is exactly the sum of that charge on its two legs |
| `Costs.RoundTripIsSymmetric` | apps/api/backtest/costs.py:177-202 | Buying first and selling first cost the same |
| `Costs.SebiFeeIsATenth` | apps/api/backtest/costs.py:65-65 | With the divisor in the code the SEBI fee is a tenth of the rate per crore, for every trade |
| `Costs.SebiFeeIsRightOnlyForNothing` | apps/api/backtest/costs.py:65-65 | The fee is the quoted one iff value x rate is zero |
| `Ledger.SettleBalances` | apps/api/backtest/execution.py:355-438 | Each of the six cases moves realised profit less book value by the cash that changed hands, and keeps the average price non-negative; a fill of no units included |
| `Ledger.BooksNeedNonNegativeQuantity` | apps/api/backtest/execution.py:355-396 | A fill keeps the books from every position iff its quantity is not negative |
| `Ledger.ReplayIsBalanced` | apps/api/backtest/execution.py:326-440 | Over any fills cash + book value = capital + realised - costs, and realised profit is the profit of the closed trades |
| `Ledger.ReplayTotals` | apps/api/backtest/execution.py:326-440 | Cash is the capital plus the cash flow of all fills less their charges, and the cost and slippage totals are the sums over the fills |
| `Ledger.EquityAccounts` | apps/api/backtest/execution.py:608-617 | Equity is cash plus market value less book value; it is the cash, and capital + realised - costs, when nothing is open |
| `Ledger.SymbolsAreIndependent` | apps/api/backtest/execution.py:346-349 | What the account holds and has closed in a symbol depends only on that symbol's fills |
| `Ledger.SettleMoves` | apps/api/backtest/execution.py:355-438 | One fill nets into the position, and a closing part pairs units off in a trade from the average to the fill's price, opened on the other side, labelled by both reasons, at the profit the analytics define |
| `Ledger.HoldConserves` | apps/api/backtest/execution.py:355-438 | Position = sum of signed fills; closed quantity = (bought + sold - abs(net)) / 2; realised profit = sum of trade profits |
| `Ledger.AverageWithinOpeningPrices` | apps/api/backtest/execution.py:355-434 | An open average lies within every bound on the opening prices since the position was last flat or flipped |
| `Ledger.FlipAverage` | apps/api/backtest/execution.py:386-430 | A position just opened or flipped is carried at the fill's price |
| `FifoLots.Consume` | infra/scripts/smoke_execution_engine_probe.py:51-60 | The inner loop trims and pops the oldest lots as the specification of matching says |
| `FifoLots.MatchTakes` | infra/scripts/smoke_execution_engine_probe.py:51-62 | Matching takes off the lots exactly the units matched, gains their price difference, and leaves units over only when no lot is left |
| `FifoLots.MatchTakesOldest` | infra/scripts/smoke_execution_engine_probe.py:51-62 | The units taken are the oldest: those left are the youngest, unit by unit |
| `FifoLots.OpenUnitsAreTheLatest` | infra/scripts/smoke_execution_engine_probe.py:46-76 | Over any fills, what is open on a side are the units last traded on it, at their own prices |
| `FifoLots.MatchFillBalances` | infra/scripts/smoke_execution_engine_probe.py:48-76 | One fill keeps longs and shorts apart, nets, and moves realised profit less open value by the cash |
| `FifoLots.ReferenceNetAndRealized` | infra/scripts/smoke_execution_engine_probe.py:46-76 | The whole matcher returns the net and the realised profit of the specification |
| `FifoLots.AverageCostAgainstFifo` | apps/api/backtest/execution.py:355-438 | Over any fills of a symbol the ledger and the FIFO matcher hold the same net; their realised profits differ by exactly the difference of open book values; they agree whenever flat |
| `FifoLots.AccountAgainstFifo` | apps/api/backtest/execution.py:326-440 | The same for one symbol of an account that trades many |
| `FillEngine.LevelsSettleThePrice` | apps/api/backtest/execution.py:101-177 | An order fills iff the candle reaches its limit and its stop; a limit order at the open if that is within the limit and otherwise at the limit, a stop at its level or at an open beyond it, a stop-limit so but held to its limit, a market order at the close; the close moves no other |
| `FillEngine.FinalPriceSlips` | apps/api/backtest/execution.py:85-89 | Slippage is the configured percentage of the price, against the trader, and none on limit orders |
| `FillEngine.PriceLiesInCandle` | apps/api/backtest/execution.py:130-177 | For a well-formed candle the price before slippage lies in it, respects the limit and does not better the stop |
| `FillEngine.FillQuantityIsDrawn` | apps/api/backtest/execution.py:91-98 | A fill is partial iff the number drawn is below the probability, then for 30 to 100% of the quantity by the next number, one unit at least; which numbers are used up is stated too |
| `FillEngine.FillQuantityInRange` | apps/api/backtest/execution.py:91-98 | A fill is for 1 to quantity units iff the order asks for at least one; limit and stop orders for none or fewer fill as they stand |
| `FillEngine.StopLimitKeepsLimitOnlyWithoutSlippage` | apps/api/backtest/execution.py:160-171 | Stop-limit fills keep to their limit in every candle iff there is no slippage |
| `FillEngine.PricesNotNegativeExactly` | apps/api/backtest/execution.py:85-89 | In candles without negative prices, however ill-formed, no order is filled at a negative price iff slippage is at most 100% |
| `BacktestBroker.SimulatedBroker.constructor` | apps/api/backtest/execution.py:183-198 | A new broker holds the initial capital and nothing else |
| `Ledger.RecordKeepsPnl` | apps/api/backtest/execution.py:497-540 | Recording a fill keeps realised profit equal to the sum of the recorded trades' profits |
| `BacktestBroker.SimulatedBroker.SettleBuy` | apps/api/backtest/execution.py:355-396 | In place, a buy leaves the position, realised profit and trades of the ledger's three buying cases |
| `BacktestBroker.SimulatedBroker.SettleSell` | apps/api/backtest/execution.py:397-438 | In place, a sell leaves those of the three selling cases |
| `BacktestBroker.SimulatedBroker.ApplyFill` | apps/api/backtest/execution.py:326-440 | A fill posts to the ledger exactly once and marks the symbol at its price |
| `BacktestBroker.SimulatedBroker.PlaceOrder` | apps/api/backtest/execution.py:276-324 | Placing does to the object what the step does to the state; a rejected order is numbered but changes neither orders nor books |
| `BacktestBroker.SimulatedBroker.ModifyOrder` | apps/api/backtest/execution.py:542-556 | Amends quantity, price and trigger of a known order and nothing else |
| `BacktestBroker.SimulatedBroker.CancelOrder` | apps/api/backtest/execution.py:558-566 | Marks a known order cancelled and nothing else |
| `BacktestBroker.SimulatedBroker.RetryOrder` | apps/api/backtest/execution.py:251-264 | One turn of the retry loop: expire, fill or leave |
| `BacktestBroker.SimulatedBroker.ProcessCandle` | apps/api/backtest/execution.py:248-268 | Retries every resting order once, in order of placement, then marks to market |
| `BacktestBroker.SimulatedBroker.CurrentEquity` | apps/api/backtest/execution.py:608-617 | The loop over positions returns cash plus unrealised profit |
| `Broker.RunIsLogged` | apps/api/backtest/execution.py:248-324 | In every run of place, modify, cancel and candle each order fills at most once, and the ledger is the replay of those fills and nothing else |
| `BrokerLifecycle.RunIsProper` | apps/api/backtest/execution.py:77-177 | In every run over candles in order, whatever is asked and whatever the candles hold, each fill is made when placed or within the window, from exactly the candle `latency` later, which reaches the order's levels, at the price they name there (open, limit, stop or close), slipped against the trader; for the whole quantity the order then asked or a drawn part of 30% at least; charged and labelled for that order |
| `BrokerLifecycle.NothingRestsBeyondTheWindow` | apps/api/backtest/execution.py:256-259 | After a candle no order rests beyond the timeout |
| `CandleFills.CandleMeetsFate` | apps/api/backtest/execution.py:248-268 | A candle fills, exactly once, every waiting order in its window for which the candle `latency` later exists and reaches the order's levels, expires those beyond the window, and leaves every other order as it is |
| `CandleFills.StillWaitsExactly` | apps/api/backtest/execution.py:250-264 | An order waiting within its window still waits after the candle iff it cannot be filled; else it is complete or partial and the log has gained one fill of it |
| `CandleFills.CandleFillsAscend` | apps/api/backtest/execution.py:251-264 | The fills of a candle come in the order in which their orders were placed |
| `CandleFills.CandleIsMarked` | apps/api/backtest/execution.py:265-268 | After a candle its symbol is marked at its close |
| `CandleFills.PlacingFillsWhatTrades` | apps/api/backtest/execution.py:276-324 | An order placed is filled at once, once, iff the candle `latency` later exists and reaches its levels; a market order for less than a unit is refused; all others rest |
| `CandleFills.DoneStaysDone` | apps/api/backtest/execution.py:251-264 | An order filled, expired or cancelled is never filled again and never waits again, in any run |
| `CandleFills.AmendedAsAsked` | apps/api/backtest/execution.py:542-556 | An amendment replaces the quantity, price and trigger given and nothing else |
| `BrokerLifecycle.ReachableStatesConserve` | apps/api/backtest/execution.py:248-440 | In every state a run reaches, over candles in order and without negative prices or quantities, the account balances and has paid for every fill and its charges once, and every symbol in it conserves units and cash, agrees with first-in-first-out matching of its own fills, and averages their opening prices |
| `RiskGate.ChecksAddUp` | apps/api/backtest/risk.py:131-230 | Acceptances and rejections add up to the checks made, and each rule's count is the number of rejections recorded under it |
| `RiskGate.CheckIsCounted` | apps/api/backtest/risk.py:331-353 | One check is counted once, as an acceptance or as a rejection under its rule, which is recorded with the order |
| `RiskGate.HaltIsAbsorbing` | apps/api/backtest/risk.py:149-151 | Once halted every later check of any order in any account is rejected by the circuit breaker |
| `RiskGate.CheckHaltsExactlyOnHardLimits` | apps/api/backtest/risk.py:323-329 | A check halts iff the breaker is configured and the rejection is for the loss limit or the drawdown |
| `RiskGate.ClampFitsBudget` | apps/api/backtest/risk.py:160-173 | A clamped order is smaller than asked and for the greatest quantity within the budget, or for one unit |
| `RiskVerdicts.CutExactlyTheOversized` | apps/api/backtest/risk.py:160-173 | While trading is allowed an order is cut iff it does not reduce a position, sizing is on, its price is positive, it asks for two units or more and is worth more than its share of the equity; then to the greatest quantity that the share pays for, or one unit |
| `RiskVerdicts.VerdictIsFirstBroken` | apps/api/backtest/risk.py:147-230 | An order is rejected by a rule iff that is the first rule in the code's order that it breaks, and it is not cut before; it is approved as it stands iff it breaks none and is not cut; each rule written out on account, order and configuration |
| `RiskVerdicts.WarnsExactly` | apps/api/backtest/risk.py:181-185 | A check warns iff the profit target is reached and the order got past the switches, the sizing and the loss limit |
| `RiskVerdicts.PeakIsHighest` | apps/api/backtest/risk.py:269-286 | The running peak is the highest of the initial capital and every equity checked |
| `GatedOrders.SubmittedIsBookedOrNot` | apps/api/backtest/manager.py:381-404 | Through the gate an oversized order is booked cut to its share of the equity, any other as it stands if it breaks no rule, exactly once; and nothing else happens |
| `RiskGate.FullApprovalRespectsLimits` | apps/api/backtest/risk.py:175-230 | An opening order approved at its own size leaves every configured limit unbroken |
| `RiskSimulator.Simulator.constructor` | apps/api/backtest/risk.py:93-109 | A new simulator has its peak at the initial capital and has counted nothing |
| `RiskSimulator.Simulator.AccountState` | apps/api/backtest/risk.py:269-306 | Measures the broker as specified and moves only the running peak |
| `RiskSimulator.Simulator.Walk` | apps/api/backtest/risk.py:272-284 | The loop over positions returns the total notional and the number of symbols that are open |
| `RiskSimulator.Simulator.HaltAndReject` | apps/api/backtest/risk.py:175-179 | Engages the breaker if configured, then rejects |
| `RiskSimulator.Simulator.CheckOrder` | apps/api/backtest/risk.py:131-230 | Decides and counts exactly as the gate's specification |
| `RiskSimulator.Simulator.TakeSnapshot` | apps/api/backtest/risk.py:232-246 | Moves only the running peak |
| `GatedRun.PositionCapHolds` | apps/api/backtest/risk.py:194-200 | From a new broker, with market orders, no latency and no sizing, no run exceeds the position limit, flips and the closing included |
| `LoopRuns.LoopKeepsPositionCap` | apps/api/backtest/manager.py:117-131 | So no candle loop does, whatever the strategy and the candles, nor its closing |
| `LoopRuns.DefaultRunsHoldTenAtMost` | apps/api/backtest/risk.py:70-82 | Under the default risk configuration such a loop never holds more than ten positions |
| `PositionCap.CapHoldsExactlyWithoutSizing` | apps/api/backtest/risk.py:148-200 | The position limit holds in all runs from a new broker iff per-trade sizing is off or all trading is switched off |
| `PositionCap.OpenMany` | apps/api/backtest/risk.py:160-173 | With sizing on, any number of positions can be opened, whatever the limit |
| `GatedRun.NothingPlacedAfterHalt` | apps/api/backtest/manager.py:381-404 | After a halt no order is placed but by the closing, so every later fill is of an order accepted before |
| `GatedRun.CloseReachesFlat` | apps/api/backtest/manager.py:487-501 | Without partial fills the closing reaches flat iff the account was flat or the orders' candle exists |
| `GatedRun.CloseAtLastCandleNeedsZeroLatency` | apps/api/backtest/manager.py:487-501 | At the last candle, with something open, the closing works iff latency is zero |
| `EndOfRun.FinalEquity` | apps/api/backtest/manager.py:487-501 | After the closing of any run, reported equity = capital + profit of closed trades - costs, but for market value less twice the book value of what is still open; it is the cash when nothing is; and without partial fills nothing is open iff nothing was before or the closing finds its candle |
| `LoopRuns.LoopReportsFinalEquity` | apps/api/backtest/manager.py:555-568 | So for every whole loop, gated or not: without partial fills it ends flat iff it was flat before the closing or latency is zero |
| `LoopRuns.LoopConserves` | apps/api/backtest/manager.py:117-131 | After every candle of every loop, gated or not, the books balance and every symbol conserves, agrees with first-in-first-out matching and averages its opening prices |
| `RunLoops.PlaceViaBroker` | apps/api/backtest/manager.py:381-404 | Labels the order, asks the gate, resizes or drops it, and places it |
| `RunLoops.LabelsByLoop` | apps/api/backtest/manager.py:381-404 | A closing trade carries, in the MAX loop, the signal's reason, then the order's, then its kind's label, and in the replay the order's before the signal's; nothing else of the order is touched |
| `RunLoops.MaxRun` | apps/api/backtest/manager.py:117-131 | The MAX loop leaves broker, gate, strategy and equity curve as the candle-by-candle specification |
| `RunLoops.FastRun` | apps/api/backtest/manager.py:516-567 | The optimizer's loop does the same, over its slice of the series |
| `RunLoops.ClosePositions` | apps/api/backtest/manager.py:487-501 | The closing loop places one market order per open position, in order |
| `LoopRuns.CandlesArePlayed` | apps/api/backtest/manager.py:117-131 | A loop is a play that starts with a candle, takes the candles in order and submits orders of the strategy's kind only |
| `NoLookAhead.LoopSeesNoFuture` | apps/api/backtest/manager.py:117-131 | Two series that agree up to the candle on which orders are filled after candle n lead a loop, in any style, through the same strategy states, orders, fills, account and gate up to candle n |
| `NoLookAhead.EquitySeesNoFuture` | apps/api/backtest/manager.py:117-131 | So the equity recorded after a candle does not depend on what comes after |
| `NoLookAhead.StrategyIsShownEachCandle` | apps/api/backtest/manager.py:117-131 | Whatever becomes of its orders, the strategy has been shown each candle so far once, in order |
| `LoopRuns.LoopIsRun` | apps/api/backtest/manager.py:381-404 | The gate only drops orders or cuts them to at least one unit, so that the loop's broker, for any strategy, goes through a run over candles in order and stands at the last of them; its orders ask for no negative quantity if the strategy's do not |
| `ReplayEngine.ScheduleTracks` | apps/api/backtest/replay_engine.py:72-129 | At every suspension point under any schedule, with or without the gate, session, strategy and snapshots are those of whole candles, or of whole candles and a known part of one |
| `LoopAgreement.LoopsAgree` | apps/api/backtest/replay_engine.py:82-107 | Candle by candle the replay and the MAX loop, which label orders and time the risk snapshot differently, go through the same strategy states, gate decisions and, but for labels and peaks, broker states, when drawdown is unlimited, limited at 100% of a positive peak, or trading is off |
| `LoopAgreement.CheckSame` | apps/api/backtest/risk.py:131-230 | Gates that differ in the peak only decide the same when drawdown is unlimited, limited at 100% of positive peaks, or trading is off |
| `LoopDivergence.LoopsAgreeExactly` | apps/api/backtest/replay_engine.py:84-100 | For every risk configuration, whatever its other rules: the two loops go through the same strategy states, gates but for their peaks, and broker states but for labels, for every strategy, series and positive capital, iff drawdown is unlimited or limited at 100%, or the kill switch or the emergency stop is on |
| `ReplayEngine.ReplayRefinesMax` | apps/api/backtest/replay_engine.py:51-133 | A replay run to its end under any pauses and speeds reaches the MAX loop's strategy state, equity curve, gate counts and, but for labels, broker state, before and after the closing: without risk, or with a gate no peak can sway |
| `ReplayEngine.StopLeavesAPrefix` | apps/api/backtest/replay_engine.py:143-146 | A stopped replay is a prefix of the full run, with at most one candle finished after the stop |
| `ReplayEngine.PausedHolds` | apps/api/backtest/replay_engine.py:135-141 | A paused replay finishes the candle it is in and does nothing of the next until resumed or stopped |
| `ReplayEngine.LoopEnds` | apps/api/backtest/replay_engine.py:72-129 | Left alone and not paused, the loop ends |
| `ReplayEngine.ResumedOrStoppedEnds` | apps/api/backtest/replay_engine.py:139-146 | Wherever the loop is held up, resuming or stopping it lets it end |
| `Labels.PlaceSame` | apps/api/backtest/execution.py:276-324 | Two orders that differ only in their reason do the same to the broker, but for labels |
| `Labels.CandleSame` | apps/api/backtest/execution.py:248-268 | States that differ only in labels differ only in labels after a candle |
| `Downsampling.BucketsPartition` | apps/api/backtest/performance.py:18-31 | The candidate buckets cover 1..n-2 and are disjoint |
| `Downsampling.BucketsAreEven` | apps/api/backtest/performance.py:18-31 | No two buckets differ by more than one in length |
| `Downsampling.AreaIsDistanceFromLine` | apps/api/backtest/performance.py:32-32 | The area compared is half the candidate's distance from the line through the anchor and the next bucket's mean point, times the width between these |
| `Downsampling.NextMeanIsWithin` | apps/api/backtest/performance.py:26-27 | The mean point is at the middle of the next bucket's indices and the mean of its values |
| `Downsampling.BucketIsNotEmpty` | apps/api/backtest/performance.py:28-29 | No candidate bucket is empty |
| `Downsampling.NextBucketIsNotEmpty` | apps/api/backtest/performance.py:22-26 | The next bucket is never empty, so the `continue` is never taken |
| `Downsampling.PickLargest` | apps/api/backtest/performance.py:30-37 | The inner loop picks the first candidate with the largest triangle |
| `Downsampling.DownsamplePairs` | apps/api/backtest/performance.py:12-41 | For n > threshold >= 3: exactly threshold indices, strictly increasing, from 0 to n - 1, each the first largest triangle of its bucket on the one before; all indices when n <= threshold; the two ends when threshold < 2; a division by zero iff n > threshold = 2 |
| `Analytics.ComputeDrawdown` | apps/api/backtest/performance.py:277-300 | The one pass returns the greatest fall over all pairs, the greatest percentage fall from a peak, and each point's own fall; for non-negative equities the percentage is the greatest over all pairs |
| `Analytics.PctIsRightExactlyAboveZero` | apps/api/backtest/performance.py:287-298 | The one-pass percentage is the greatest over all pairs, for every curve above a floor, iff the floor is not negative |
| `Analytics.ComputeStreaks` | apps/api/backtest/performance.py:167-179 | The streak loop returns the lengths of the longest contiguous runs of winners and of the rest |
| `Analytics.MeasureThenCut` | apps/api/backtest/performance.py:75-88 | Drawdown is measured on the whole curve; the curve shown is its downsampling |
| `TokenManager.EveryRunIsSafe` | apps/api/brokers/token_manager.py:36-133 | Over every interleaving, failed saves included: at most one refresh at a time even after eviction, at most two authentications each, and "already in progress" only after an eviction |
| `TokenManager.AcquireKeepsSingleFlight` | apps/api/brokers/token_manager.py:41-47 | The flag is tested and set without an await, so a second refresh cannot start even on another lock |
| `TokenManager.FreshIsServed` | apps/api/brokers/token_manager.py:36-47 | A call, or the lock, serves the stored session iff its expiry can be read and is at least 300 seconds off, if it has one, and it is at most 86 400 seconds old, if its making is known; otherwise the caller waits, refreshes or is refused |
| `TokenManager.ReturnedWasServed` | apps/api/brokers/token_manager.py:36-52 | In every run whatever a caller was returned was the stored session, fresh in that sense when the call or the lock was answered, or the session it was last granted itself |
| `TokenManager.AttemptsEnd` | apps/api/brokers/token_manager.py:112-133 | A failed attempt is repeated once; the second time, or after a refusal at once, the refresh ends and gives up flag and lock |
| `TokenManager.OneRefreshServesAll` | apps/api/brokers/token_manager.py:42-50 | While a stored session stays fresh, nobody invalidating it and no save failing, no refresh begins, and every caller that gets the lock, calls afresh or finishes saving returns that session |
| `TokenManager.GrantServes` | apps/api/brokers/token_manager.py:101-107 | A granted authentication by the only refresher stores the session everyone is then served |
| `TokenManager.RefresherReturnsItsLastGrant` | apps/api/brokers/token_manager.py:47-52 | In every run a refresher returns the session it was last granted iff nobody has invalidated the session since, whatever other callers, failed saves, evictions and the clock do; otherwise nothing |
| `TokenManager.SaverHoldsItsLastGrant` | apps/api/brokers/token_manager.py:101-110 | In every run, while a refresher saves, the stored session is the one it was last granted, or none if invalidated since |
| `TokenManager.FailedSaveReplacesTheSession` | apps/api/brokers/token_manager.py:73-133 | A save that raises makes the refresher authenticate again, so that a caller served meanwhile holds another session than the one stored at the end, with nobody invalidating |
| `TokenManager.RefusalNeedsEviction` | apps/api/brokers/token_manager.py:196-202 | From any state in which all queued and refreshing callers stand on the table's lock, a caller can come to be told that a refresh is in progress iff locks are evicted on the way |
| `TokenManager.EvictionCanRefuseACaller` | apps/api/brokers/token_manager.py:196-202 | After an eviction a caller can be told that a refresh is in progress |
| `VersionHistory.EveryHistoryIsSound` | apps/api/builder/manager.py:114-417 | After any operations from an empty store every strategy's versions are numbered strictly upwards and end at its current number, and no two strategies share a settings dictionary |
| `VersionHistory.VersionsAreNeverRewritten` | apps/api/builder/manager.py:114-120 | A stored version's name, description, nodes and edges stay until it is cut off the front, by an update that fills the history |
| `VersionHistory.UpdateRewritesVersionsSavedSince` | apps/api/builder/manager.py:195-199 | After any history an update changes a stored version's settings iff it gives settings that differ and the version was saved by an update since the strategy was last created, cloned, rolled back or given a status |
| `VersionHistory.SecondUpdateRewritesTheFirst` | apps/api/builder/manager.py:195-199 | Two settings updates in a row: the second rewrites the version saved by the first |
| `VersionHistory.OthersKeepTheirSettings` | apps/api/builder/manager.py:186-230 | A strategy's settings, old versions included, change by an update of that very strategy only |
| `VersionHistory.CompareLeads` | apps/api/builder/manager.py:354-406 | A comparison leads from the first version to the second: old nodes and edges, less the removed, plus the added, are the new; of what both have, exactly the parameters and settings listed differ |
| `VersionHistory.CompareSwaps` | apps/api/builder/manager.py:354-406 | Comparing the other way round swaps added with removed and keeps changed |
| `VersionHistory.NoChangesMeansAgreement` | apps/api/builder/manager.py:363-396 | A comparison is empty iff the documents agree on all it looks at |
| `VersionHistory.RollbackComparesEqual` | apps/api/builder/manager.py:320-337 | Right after a rollback the new version compares equal to the old one, for exactly the callers the old version's owner admits; to a version that cannot be read back there is no rollback |
| `VersionHistory.RollbackStores` | apps/api/builder/manager.py:329-334 | After a rollback both versions are found with the same contents |
| `VersionHistory.RollbackToFirstLosesTheOwner` | apps/api/builder/manager.py:172-174 | The first version records no owner, so rolling back to it hides the strategy from its owner |
| `VersionHistory.OnlyUpdatesAreCapped` | apps/api/builder/manager.py:114-120 | An update keeps at most 50 versions; a rollback always adds one |
| `VersionHistory.RollbacksPassTheCap` | apps/api/builder/manager.py:320-337 | A new strategy rolled back n times has n + 1 versions, for every n, past 50 as well |
| `VersionHistory.ReadableExactlyWhenSavedWithOwner` | apps/api/builder/manager.py:135-177 | After any history from an empty store a stored strategy can be read back iff the operation that last saved its record whole (a creation, a clone, a rollback or a change of status) was not a creation without an owner |
| `VersionHistory.OwnerlessIsNeverReadBack` | apps/api/builder/manager.py:408-417 | A strategy created with no owner is read back by nobody and changes of status do nothing to it, whatever else is done to it, unless it is rolled back or created anew; an update still writes the status |
| `StoredDocs.TenantsSeeTheirOwn` | apps/api/builder/manager.py:49-80 | A tenant sees what records it as the owner, or records none and has its profile id as the author; nothing is seen by two tenants |
| `StoredDocs.UnseenIsUntouched` | apps/api/builder/manager.py:186-190 | On a strategy its caller does not see an operation does nothing |
| `StoredDocs.OthersAreUntouched` | apps/api/builder/manager.py:135-417 | An operation leaves records, versions and settings under all other ids alone |
| `StoredDocs.CreatedAsDrafted` | apps/api/builder/manager.py:135-177 | A new strategy holds its draft, as does its one version, with dictionaries of their own |
| `StoredDocs.ClonedAsItStood` | apps/api/builder/manager.py:298-318 | A clone is a draft of the same contents for the same owner with a one-version history of its own, and the original stays |
| `StoredDocs.UpdatedAsAsked` | apps/api/builder/manager.py:192-230 | An update replaces exactly the fields given, and takes a version of the result iff name, nodes, edges or settings are given |
| `StoredDocs.SettingsMergedByKey` | apps/api/builder/manager.py:195-199 | Of the settings an update changes exactly the keys given |
| `StoredDocs.StatusIsAllThatChanges` | apps/api/builder/manager.py:408-417 | A change of status changes nothing else that can be read |
| `StoredDocs.DeletedIsGone` | apps/api/builder/manager.py:232-239 | After a deletion nobody finds the strategy or any version of it |
| `StrategyStore.Manager.CreateStrategy` | apps/api/builder/manager.py:135-177 | Afterwards the store holds the new draft with its owner, which may be none, and a first version with a settings dictionary of its own and the empty owner |
| `StrategyStore.Manager.SnapshotVersion` | apps/api/builder/manager.py:114-120 | Appends the snapshot and cuts the history to the cap |
| `StrategyStore.Manager.UpdateStrategy` | apps/api/builder/manager.py:186-230 | For callers who may see the strategy: replaces the fields given, merges settings into the shared dictionary, and numbers and snapshots the record iff name, nodes, edges or settings were given; for others nothing |
| `StrategyStore.Manager.RollbackStrategy` | apps/api/builder/manager.py:320-337 | If the version is found, the record becomes a copy of it under the next number after the highest, which is also appended; otherwise nothing |
| `StrategyStore.Manager.ChangeStatus` | apps/api/builder/manager.py:408-417 | Changes the status and gives the record a settings dictionary of its own; the history stays |
| `StrategyStore.Manager.CloneStrategy` | apps/api/builder/manager.py:298-318 | Adds a draft copy under the new id, with a one-version history and dictionaries of its own |
| `StrategyStore.Manager.DeleteStrategy` | apps/api/builder/manager.py:232-239 | Deletes the strategy and its history |

## Left out

- Ledger.ReplayIsBalanced: does not model rounding of fill prices to four decimals and of trade profits to two, nor floating-point error; rounding is kept in the cost model, where it is the point.
- Ledger.HoldConserves: does not cover entry costs, entry times, durations, risk amounts and reward ratios of trades; the code clears the entry state on partial closes too.
- Costs.RoundTripIsBothLegs: does not model binary floating point, in which the last rounding can differ.
- FillEngine.FillQuantityInRange: takes the seeded generator as an arbitrary sequence of numbers in [0, 1); says nothing of its distribution.
- Broker.RunIsLogged: does not model an order object that the caller changes after placing it, `update_config` and `reset` in the middle of a run, or order types other than the four.
- BrokerLifecycle.RunIsProper: candles come in order, as every loop feeds them.
- BrokerLifecycle.ReachableStatesConserve: asks for orders without negative quantities, candles without negative prices and slippage up to 100%, without which the books need not be kept (`Ledger.BooksNeedNonNegativeQuantity`, `FillEngine.PricesNotNegativeExactly`); the code checks none of these.
- RiskGate.FullApprovalRespectsLimits: says nothing of clamped orders and of reducers, which the code lets past the limits.
- RiskSimulator.Simulator.TakeSnapshot: does not keep the timeline of rounded figures that the snapshot also records, which nothing reads during a run.
- RunLoops.FastRun: the body of the optimizer's loop is that of the MAX loop, and is not written out a second time.
- RunLoops.PlaceViaBroker: does not model an exception inside the risk check, on which the code places the order unchecked; the model's check cannot raise.
- ReplayEngine.ReplayRefinesMax: a strategy that raises, the live risk manager behind a replay without a simulator, and `seek` are not modelled.
- LoopDivergence.LoopsAgreeExactly: says which configurations let the loops agree in all runs, not in which runs of the others they do. Capital is positive, as the API demands (`apps/api/routes/v1_backtest.py:39`).
- ReplayEngine.Tick: `ReplayEngine.run` and its controls are steps on a value, not a class, because other tasks act between its awaits.
- TopologicalSort.CycleFinder.FindCycle: does not model Python's recursion limit; the order in which a set of ids is iterated is arbitrary.
- StrategyCompiler.Validate: reports issues by code, severity, node and the names in their messages; the wording of messages, how often and in what order issues are repeated, the list of missing inputs and the always empty list of type mismatches are left out.
- StrategyCompiler.CompileDsl: leaves out estimated latencies, categories and output ports, which are looked up and not used by the plan's meaning.
- StrategyCompiler.PlanComputesTheDataflow: covers blocks that compute from their inputs and parameters; the variable blocks, which keep state, are not among them.
- Downsampling.DownsamplePairs: uses exact bucket widths; with floating point a boundary may fall one index off.
- Analytics.ComputeDrawdown: leaves out the rounding of the figures reported.
- TokenManager.Next: the manager is a value with steps, not a class, because several callers are inside one method at once. Locks are handed over to any waiter, in no particular order.
- TokenManager.EveryRunIsSafe: one manager; another process or another manager for the same user and broker has its own session. The wall clock may move either way, the monotonic clock forwards only. The broker's answers are arbitrary.
- VersionHistory.EveryHistoryIsSound: settings that are not a dictionary are left out. Loading from and saving to the database are left out. Reading a record back also drops settings keys that the settings model does not declare; dictionaries here keep all their keys.
- StrategyStore.Manager.UpdateStrategy: leaves out tags, deployment and an update that sets `version_number`.
- VersionHistory.CompareSwaps: changes are sets by kind; their order in the report is left out.
- Sharpe, Sortino, beta, expectancy, distributions and the benchmark: formulas without an invariant behind them.
- The optimizer's slicing and selection, list and preview operations, templates: they would only add easy members.
- Broker adapters, HTTP and the front end, data loading, reports and persistence: input and output.
