# Quant Pilot: verified models

Dafny models of the parts of Quant Pilot that decide what is traded, at what price and on which data, with proofs about
every input, every run and every reachable state. `dafny verify dfyconfig.toml` checks the whole project.

| files | subject |
|---|---|
| `BacktestModel`, `BacktestTheorems`, `BacktestTrades`, `BacktestEngine`, `Frames` | the backtest engine: lagged targets, rebalances, the day loop |
| `Costs`, `Impact` | explicit costs, market impact and the participation cap |
| `BrokerModel`, `PaperBroker`, `BrokerRuns`, `BrokerFills`, `BrokerLedger`, `BrokerSafety`, `Reconciliation` | the simulated broker and what its books add up to |
| `OrderProtocol`, `OrderTerms`, `OrderDesk`, `LimitOrders` | propose, approve, halt, resume, marks and the audit log |
| `PairsModel`, `PairsStrategy`, `PairsTheorems`, `PairsWeights`, `PairsBacktest` | the pairs automaton, its scores and legs, and the strategy run through the engine |
| `BenjaminiHochberg` | false-discovery control of the pair scan |
| `UniverseModel`, `Universe`, `UniverseTheorems`, `UniverseEvents` | point-in-time index membership |
| `CacheModel`, `OhlcvCache`, `CacheTheorems` | the price cache and the provider in front of it |
| `Drawdown`, `PositionCaps` | the drawdown breaker, the drawdown series, position and sector caps |

## How it is modelled

Code that updates state in place is a class or a method with loops (`PaperBroker`, `OrderDesk`, `BacktestEngine`,
`PairsStrategy`, `Universe`, `OhlcvCache`, `DrawdownMonitor`, `ApplyPositionCaps`). Each such method is proved equal to a
function on values, and the theorems are lemmas about those functions, so they hold of the running code.

- Numbers are exact reals and integers. A missing price, volume, volatility or z-score is `None`.
- The numerical routines the code calls on a trailing window (median, standard deviation) and the square root of the
  impact model are parameters; causality holds for any choice of them. Percentage changes over forward-filled closes
  (pandas 2.2) or over the raw ones (pandas 3) are both covered, by a switch.
- Ids and broker tickets, drawn at random by the program, are arguments. A proposal draws an id that no other proposal has.
- `fills` in the broker and `sent` in the order desk are history: the program keeps neither, and nothing it does depends
  on them.
- A downloader answers with the rows of a fixed source over some range that depends on the request, wider or narrower.
- An endpoint is one step: `approve_order` reads, places and saves (src/quant_pilot/api/routers/orders.py, lines 78-85)
  without another request in between. Over any interleaving means any order of whole calls.

## Where code and documentation disagree

The model follows the code.

- The design document promises a kill switch on every order (docs/SYSTEM_DESIGN.md, line 208). Only placing an order looks
  at it: new marks and amendments fill resting orders while halted (`BrokerSafety.KillSwitchExact`).
- An order is meant to be approved once. A limit order that rests at the broker stays PENDING in the repository and can be
  approved again, also after it has been filled. It is then executed again, in that approval or by a later mark update:
  `LimitOrders.ExecutesIff` says exactly when, and `LimitOrders.TruthfulIffNeverRegrants` that refusing those approvals is
  what at-most-once takes.
- A limit order is tested against the mark and slipped afterwards, so it can fill beyond its limit
  (`BrokerSafety.LimitBuyFillsAboveLimit`, exactly when: `BrokerSafety.LimitHonouredIff`).
- The broker takes any quantity, and selling a negative one overdraws the account
  (`BrokerSafety.NegativeQuantityOverdraws`, exactly when: `BrokerSafety.ExecutionSolventIff`).
- The provider compares only the first and last cached date, so disjoint downloads hide rows
  (`CacheTheorems.DisjointRangesLoseRows`). The default downloader hands the end of the request to a library that
  documents it as exclusive, while the slice includes it, so a miss can lose its last row
  (`CacheTheorems.EndExclusiveMiss`).
- The eligibility matrix does not look at the index of an interval (`UniverseTheorems.MatrixWrongForIndex`, exactly when:
  `UniverseTheorems.MatrixMatchesIndexIff`).
- Ingesting the universe is described as rebuilding it, but each ingest appends (`UniverseTheorems.LaterDropIgnored`,
  exactly when: `UniverseTheorems.ListedIffSomeIngestHolds`).

## Model

| member | source | states |
|---|---|---|
| BacktestTheorems.NoLookAhead | src/quant_pilot/engine/backtest/engine.py:64-106 | two runs whose inputs agree on opens and halts through day d and on targets, closes and volumes through d-1 have the same book, fills, cost and turnover on day d, and the same equity once close[d] agrees |
| BacktestTheorems.InputsLocal | src/quant_pilot/engine/backtest/engine.py:71-86 | the executed target, trailing ADV, trailing volatility, open and halt row of day d depend only on opens and halts through d and on the rest through d-1 |
| BacktestTheorems.ExecutesLatestEarlierDecision | src/quant_pilot/engine/backtest/engine.py:71-78 | the target executed on a day is the latest one decided on an earlier day, zero before the first decision |
| BacktestTheorems.AdvIsMedianOfPriorDays | src/quant_pilot/engine/backtest/engine.py:144-149 | the volume a rebalance is capped by is the median of the advWindow days before it, and unknown unless all are present |
| BacktestTheorems.ProfitAndLossIdentity | src/quant_pilot/engine/backtest/engine.py:98-106 | equity on day d is initial capital, plus every fill so far times the move from its open to the close of d, less all costs so far |
| BacktestTheorems.BookIdentity | src/quant_pilot/engine/backtest/engine.py:125-142 | the same identity for the book after any number of days at any row of prices |
| BacktestTheorems.RebalanceConservesValue | src/quant_pilot/engine/backtest/engine.py:125-142 | a rebalance lowers cash plus holdings at the open by exactly the trade cost |
| BacktestTheorems.RebalanceHoldings | src/quant_pilot/engine/backtest/engine.py:125-141 | every holding ends between where it was and its target, moves at most the participation cap, reaches the target exactly when the cap does not bind, and stays put if the name cannot be traded |
| BacktestTheorems.CashAfterFullRebalance | src/quant_pilot/engine/backtest/engine.py:125-142 | with every name tradeable and no cap binding, the cash left is equity at the open times one minus the sum of the weights, less the trade cost |
| BacktestTrades.TargetChangeTrades | src/quant_pilot/engine/backtest/engine.py:98-142 | on every day whose executed target differs from the day before, each name with a positive open that is not halted moves towards the holding worth its target weight of cash plus holdings at the open, all the way or by the participation cap, and every other name stays |
| BacktestTrades.TargetReached | src/quant_pilot/engine/backtest/engine.py:98-142 | so where the cap does not bind the holding ends at that share count |
| BacktestTrades.TradingDayCosts | src/quant_pilot/engine/backtest/engine.py:135-139 | such a day costs the scalar explicit and impact costs of its fills, summed over the names with an open, and turns over the worth of what it bought plus the worth of what it sold |
| BacktestTrades.VolIsDeviationOfPriorChanges | src/quant_pilot/engine/backtest/engine.py:151-153 | the volatility of a rebalance is the deviation of the volWindow changes before the day, each the growth from one close to the next, and unknown unless all are present |
| BacktestTrades.PaddedCloseIs | src/quant_pilot/engine/backtest/engine.py:151-152 | the close a change is taken from is, with padding, the latest one so far, and else the one of the day |
| BacktestTheorems.ConstantBetweenChanges | src/quant_pilot/engine/backtest/engine.py:98-106 | over a stretch of equal executed targets the book does not move and nothing is filled, charged or turned over, however the first fills were capped or blocked |
| BacktestTheorems.FirstDayIsIdle | src/quant_pilot/engine/backtest/engine.py:100-104 | the unconditional rebalance of the first day trades nothing |
| BacktestTheorems.CountedIffTraded | src/quant_pilot/engine/backtest/engine.py:138-164 | a rebalance has positive turnover, and is counted, exactly if it filled something |
| BacktestEngine.ReportedRebalancesBounded | src/quant_pilot/engine/backtest/engine.py:155-165 | the number of rebalances in the reported summary is at most the number of days the executed target changes |
| BacktestTheorems.RebalancesBounded | src/quant_pilot/engine/backtest/engine.py:99-104 | so is the number of days with turnover in the schedule |
| BacktestTheorems.LaneCostIsScalar | src/quant_pilot/engine/backtest/engine.py:126-137 | what a rebalance charges for a name with an open, traded or not and at any price, is the scalar explicit cost plus the scalar impact cost of what it filled; the case where the two cost forms differ never arises |
| BacktestEngine.BacktestEngine.Run | src/quant_pilot/engine/backtest/engine.py:64-121 | the day loop records, for every day, the equity, cost, turnover and positions of the model; the returns, realised weights and summary follow from those series, and the reported rebalances are at most the changes of the executed target |
| BacktestTheorems.RealisedWeightsLeaveCash | src/quant_pilot/engine/backtest/engine.py:106-111 | equity times one minus the sum of the realised weights of a day is the cash of that day |
| BacktestTrades.ReturnsCarryEquity | src/quant_pilot/engine/backtest/engine.py:112-115 | the reported return of a day carries the equity of the day before into it |
| BacktestTrades.SummaryAccounts | src/quant_pilot/engine/backtest/engine.py:155-165 | the final equity reported is the initial capital plus the profit of all fills at the last closes less the total costs reported |
| BacktestTrades.SummaryCounts | src/quant_pilot/engine/backtest/engine.py:155-165 | the turnover reported is that of all days, and the rebalances are the days on which something was filled |
| BacktestTrades.TotalReturnGrows | src/quant_pilot/engine/backtest/engine.py:155-165 | the total return reported grows the initial capital into the final equity |
| BacktestEngine.BacktestEngine.TradeDay | src/quant_pilot/engine/backtest/engine.py:99-104 | trades on the first day and when the target changes, and only then |
| BacktestEngine.BacktestEngine.Rebalance | src/quant_pilot/engine/backtest/engine.py:125-142 | updates the shares in place and returns cost, turnover and cash, all as the model has them |
| Costs.ScalarIsCharge | src/quant_pilot/engine/backtest/costs.py:47-75 | the scalar cost depends on price and quantity only through turnover: a linear part plus capped brokerage with its GST |
| Costs.SidesAndSegments | src/quant_pilot/engine/backtest/costs.py:57-75 | what a buy costs above a sell and delivery above intraday, and the rest in full: exchange fee with GST, fee per crore, and brokerage with GST up to the flat fee |
| Costs.VecIsCharge | src/quant_pilot/engine/backtest/costs.py:78-100 | every lane of the array form charges the same, except that it drops the brokerage of a lane with negative turnover |
| Costs.FormsAgree | src/quant_pilot/engine/backtest/costs.py:57-92 | array and scalar form agree on a lane exactly when its turnover is not negative or the brokerage vanishes, for signed quantities and both segments |
| Costs.ChargeBounds | src/quant_pilot/engine/backtest/costs.py:57-66 | a charge is never negative, is at most the fixed rate times turnover, and at most the flat fee above the linear part |
| Costs.ChargeMonotone | src/quant_pilot/engine/backtest/costs.py:57-66 | a larger order on the same side never costs less |
| Costs.SplittingNeverCheaper | src/quant_pilot/engine/backtest/costs.py:57-66 | splitting an order never makes it cheaper, despite the flat-fee cap |
| Impact.CapLaneContract | src/quant_pilot/engine/backtest/impact.py:64-69 | a capped order keeps its direction, is no larger than asked for, obeys the cap, and is cut exactly when the cap binds |
| Impact.CapFormsAgree | src/quant_pilot/engine/backtest/impact.py:56-69 | scalar and array cap agree exactly when the participation limit, where it applies, is not negative |
| Impact.NoVolumeLeavesFlatFraction | src/quant_pilot/adapters/broker/paper_broker.py:123-125 | with the zero volume and volatility the broker passes, impact is half the spread plus the slippage buffer |
| Impact.SquareRootLaw | src/quant_pilot/engine/backtest/impact.py:32-53 | beyond half the spread and the buffer the squared impact times the volume is the squared scaled volatility times the quantity; the cost is the impact on the traded value |
| PaperBroker.PaperBroker.PriceOrder | src/quant_pilot/adapters/broker/paper_broker.py:124-126 | the broker asks the impact model with zero volume and volatility and arrives at the mark moved by the flat fraction, plus explicit costs |
| PaperBroker.PaperBroker.SetMark | src/quant_pilot/adapters/broker/paper_broker.py:44-46 | sets a mark and then runs one pass over the stored orders |
| PaperBroker.PaperBroker.UpdateMarks | src/quant_pilot/adapters/broker/paper_broker.py:48-50 | merges marks and then runs one pass over the stored orders |
| PaperBroker.PaperBroker.PlaceOrder | src/quant_pilot/adapters/broker/paper_broker.py:60-72 | reject while halted, reject without a positive mark, rest a limit order that is not marketable, else execute |
| PaperBroker.PaperBroker.ModifyOrder | src/quant_pilot/adapters/broker/paper_broker.py:74-87 | unknown and no-longer-pending orders are errors; otherwise amend in place and execute if the mark triggers it |
| PaperBroker.PaperBroker.CancelOrder | src/quant_pilot/adapters/broker/paper_broker.py:89-95 | cancels a pending order and leaves any other as it is |
| PaperBroker.PaperBroker.GetPositions | src/quant_pilot/adapters/broker/paper_broker.py:100-106 | lists every position exactly once, with its current mark if there is one |
| PaperBroker.PaperBroker.Settle | src/quant_pilot/adapters/broker/paper_broker.py:123-141 | an unaffordable buy is rejected with nothing else changed; otherwise cash, position, fill and order status move together |
| PaperBroker.PaperBroker.AdjustPosition | src/quant_pilot/adapters/broker/paper_broker.py:143-157 | blends the fill into the position and drops a position that becomes zero |
| PaperBroker.PaperBroker.ProcessPending | src/quant_pilot/adapters/broker/paper_broker.py:159-164 | one pass over a snapshot of the orders, oldest first, executing those that are triggered when reached |
| BrokerFills.MarketOrderFillsIff | src/quant_pilot/adapters/broker/paper_broker.py:60-72 | on a broker that is not halted and has a positive mark a market buy is filled if and only if the cash covers the slipped price times the quantity plus its costs, and a sell always |
| BrokerFills.BuyingCostCharged | src/quant_pilot/adapters/broker/paper_broker.py:123-131 | what a buy needs is its price times its quantity plus the charge on that turnover |
| BrokerFills.PlaceOutcome | src/quant_pilot/adapters/broker/paper_broker.py:60-72 | the answer to every placement in terms of halt, mark, limit and cash: refused with its reason, resting, or filled at the slipped price with cash, history and record moved together |
| BrokerFills.ModifyOutcome | src/quant_pilot/adapters/broker/paper_broker.py:74-87 | an amended order carries the terms given and keeps the others, and is filled, refused or left resting by the same tests |
| BrokerFills.CancelOutcome | src/quant_pilot/adapters/broker/paper_broker.py:89-95 | a pending order becomes cancelled with nothing else changed, a settled one is answered as it stands |
| BrokerFills.TouchOutcome | src/quant_pilot/adapters/broker/paper_broker.py:159-164 | a pass tries a resting order exactly if its mark is not zero and has reached its limit |
| BrokerSafety.MarksReplaced | src/quant_pilot/adapters/broker/paper_broker.py:44-50 | new marks replace those of their symbols and leave the others and the kill switch alone |
| BrokerLedger.LedgerConservation | src/quant_pilot/adapters/broker/paper_broker.py:123-157 | in every reachable state cash is opening cash less signed notionals and costs of the fills, and each position is the sum of its signed fills, absent exactly if zero |
| BrokerLedger.ReplayQuantities | src/quant_pilot/adapters/broker/paper_broker.py:143-157 | replaying fills through the position arithmetic gives each symbol its signed sum |
| BrokerLedger.AveragePriceAccounting | src/quant_pilot/adapters/broker/paper_broker.py:143-157 | in every reachable state cash plus positions at average price is opening cash plus realised profit less costs |
| BrokerLedger.BlendConserves | src/quant_pilot/adapters/broker/paper_broker.py:146-155 | one fill changes the carried cost of a position by what was paid plus the profit it realises, when opening, adding, reducing or flipping |
| BrokerLedger.AverageWithinEpisode | src/quant_pilot/adapters/broker/paper_broker.py:143-157 | over any fills, the average price lies within the prices of the fills that opened, flipped or added to the position since it was last flat or flipped; reducing fills do not count |
| BrokerLedger.AveragePriceBounds | src/quant_pilot/adapters/broker/paper_broker.py:143-157 | and so in every reachable state of the broker |
| BrokerSafety.Quiescence | src/quant_pilot/adapters/broker/paper_broker.py:44-95 | after any sequence of public calls no pending order has a mark that is not zero and has reached its limit |
| BrokerSafety.ProcessSettles | src/quant_pilot/adapters/broker/paper_broker.py:159-164 | a pass leaves none of the orders it visits executable, and makes no other order executable |
| BrokerSafety.Solvency | src/quant_pilot/adapters/broker/paper_broker.py:123-141 | with marks and sell quantities that are never negative and sane rates, cash is never negative, even when many resting orders compete for it |
| BrokerSafety.ExecutionSolventIff | src/quant_pilot/adapters/broker/paper_broker.py:123-141 | executing an order keeps every non-negative cash balance non-negative exactly if it is a buy or its quantity is not negative |
| BrokerSafety.NegativeQuantityOverdraws | src/quant_pilot/adapters/broker/paper_broker.py:44-72 | setting a mark and placing a sell of a negative quantity, which the broker does not refuse, overdraws an empty account |
| BrokerSafety.TimePriority | src/quant_pilot/adapters/broker/paper_broker.py:159-164 | in a pass the fate of an order is decided once the orders up to it have been visited; later ones compete for the cash it leaves |
| BrokerSafety.PassFillsIff | src/quant_pilot/adapters/broker/paper_broker.py:116-164 | a pass fills a resting order exactly if its mark is not zero and has reached its limit and, for a buy, the cash left by the orders that arrived before it covers the slipped price times the quantity plus the charge |
| BrokerSafety.SettledOrdersAreFinal | src/quant_pilot/adapters/broker/paper_broker.py:60-95 | a filled, rejected or cancelled order stays as it is and is never executed again, over any calls that do not place its id again |
| BrokerSafety.CancelledStaysCancelled | src/quant_pilot/adapters/broker/paper_broker.py:89-95 | a cancelled order stays cancelled and is not executed over any later calls that do not place its id again |
| BrokerSafety.KillSwitchExact | src/quant_pilot/adapters/broker/paper_broker.py:52-87 | a halted broker executes nothing on a call, and then moves neither cash nor positions, if and only if the call triggers none of its resting orders; placed orders are rejected for the halt, marks and amendments still fill |
| BrokerSafety.HaltedBrokerStillFills | src/quant_pilot/adapters/broker/paper_broker.py:44-64 | a concrete resting sell that fills after the halt |
| BrokerSafety.LimitFillPrice | src/quant_pilot/adapters/broker/paper_broker.py:60-126 | in every reachable state each filled limit order, amended or not, was filled no further than the slippage fraction beyond its limit |
| BrokerSafety.LimitHonouredIff | src/quant_pilot/adapters/broker/paper_broker.py:116-141 | an execution is within the limit exactly when the mark clears the limit by the slippage |
| BrokerSafety.LimitBuyFillsAboveLimit | src/quant_pilot/adapters/broker/paper_broker.py:60-72 | with any slippage at all, a limit buy placed at the mark, with the cash to pay for it, is filled above its limit |
| BrokerRuns.RunWellKept | src/quant_pilot/adapters/broker/paper_broker.py:28-40 | in every reachable state orders are stored under their own id and listed once each in arrival order |
| Reconciliation.ReportIsExact | src/quant_pilot/live/reconciliation.py:24-35 | the report is clean exactly when every symbol is within tolerance, and lists exactly the symbols that are not, once each, sorted by symbol and with both quantities |
| Reconciliation.BookOfFillsReconciles | src/quant_pilot/live/reconciliation.py:24-35 | with zero tolerance a book reconciles exactly when it gives every symbol the sum of its signed fills, however the positions are listed; every mismatch reports that sum and a different book quantity |
| OrderDesk.OrderDesk.Propose | src/quant_pilot/api/routers/orders.py:46-64 | a non-positive quantity is refused; otherwise a PENDING order is stored and one proposed event logged |
| OrderDesk.OrderDesk.Approve | src/quant_pilot/api/routers/orders.py:67-93 | unknown and not-pending orders are refused; otherwise the broker, the store and the log are updated in sequence |
| OrderDesk.OrderDesk.HaltTrading | src/quant_pilot/api/routers/system.py:86-102 | halts the broker and logs it |
| OrderDesk.OrderDesk.ResumeTrading | src/quant_pilot/api/routers/system.py:105-125 | resumes the broker and logs it |
| OrderTerms.ProposalStored | src/quant_pilot/api/routers/orders.py:46-64 | an accepted proposal stores a pending order with the symbol, side, quantity, type and limit proposed, and changes nothing else but the log |
| OrderTerms.ApprovalHandsOver | src/quant_pilot/api/routers/orders.py:67-93 | an effective approval hands the stored order to the broker, keeps what the broker answers and logs its status; any other is refused with nothing changed |
| OrderTerms.ControlsOutcome | src/quant_pilot/api/routers/system.py:86-125 | halting and resuming flip the kill switch and log one event each; nothing else changes |
| OrderTerms.ExecutedAsProposed | src/quant_pilot/api/routers/orders.py:46-93 | over any interleaving every order held by the repository or the broker carries the terms of a proposal of its id, and every execution has its symbol and its quantity, signed by its side |
| OrderProtocol.MarketOrderAtMostOnce | src/quant_pilot/api/routers/orders.py:46-93 | over any interleaving a market order reaches the broker at most once, exactly when it is no longer pending, and is FILLED in the repository exactly when the broker filled that id, then once |
| OrderProtocol.AuditLogComplete | src/quant_pilot/api/routers/orders.py:31-93 | the log holds one proposed event per order of the repository and none for other ids, and one outcome per hand-over to the broker |
| OrderProtocol.AuditLogAppendOnly | src/quant_pilot/adapters/persistence/repository.py:105-118 | the log of an earlier moment is a prefix of the log of a later one |
| LimitOrders.StepTruthfulIff | src/quant_pilot/api/routers/orders.py:67-93 | one event keeps the record of the broker truthful (one execution if FILLED, else none) exactly if it is not an approval of a PENDING order that the broker has already filled |
| LimitOrders.TruthfulIffNeverRegrants | src/quant_pilot/api/routers/orders.py:67-93 | through a whole run every order, limit orders included, has executed once if the broker records it as filled and else not at all, if and only if no event is such an approval |
| LimitOrders.ExecutesIff | src/quant_pilot/api/routers/orders.py:67-93 | an event executes an order exactly if it is an approval that passes the guard and finds it executable, or marks that fill it while it rests, given what the orders before it leave |
| LimitOrders.SecondExecutionIff | src/quant_pilot/api/routers/orders.py:67-93 | so an order that has executed once executes again exactly on such an event, in the approval or in a later mark update |
| LimitOrders.AtMostOnceIff | src/quant_pilot/api/routers/orders.py:67-93 | over a whole run an order executes at most once if and only if no two events are of that kind for it |
| LimitOrders.LimitOrderExecutesAnyNumberOfTimes | src/quant_pilot/api/routers/orders.py:78-85 | for every n a run in which one proposed limit order, still PENDING in the repository, is executed n times |
| PairsStrategy.PairLegWeights | src/quant_pilot/engine/strategies/pairs_trading.py:114-158 | the loop over bars writes the two leg weights of the automaton for every bar |
| PairsStrategy.Advance | src/quant_pilot/engine/strategies/pairs_trading.py:128-154 | one bar of the loop is one step of the automaton |
| PairsStrategy.GenerateWeights | src/quant_pilot/engine/strategies/pairs_trading.py:168-174 | accumulates the legs of all pairs into the weight frame, column by column, unless a position is entered on a bar whose first leg closed at zero, where the division raises |
| PairsWeights.PairScoreIs | src/quant_pilot/engine/strategies/pairs_trading.py:109-112 | the score of a bar is the distance of its regression residual from the mean of the residuals of the window ending there, in deviations of that window |
| PairsWeights.NoWindowNoScore | src/quant_pilot/engine/strategies/pairs_trading.py:109-112 | a bar whose window lacks a close has no score |
| PairsWeights.MaxNoCrossIs | src/quant_pilot/engine/strategies/pairs_trading.py:121-123 | a count exceeds the limit exactly if it exceeds the cap or the multiple of a finite positive half-life |
| PairsWeights.RowIsSumOfLegs | src/quant_pilot/engine/strategies/pairs_trading.py:156-174 | every cell is the sum of the legs of the pairs in its column; a held pair has its side times the gross weight in y and, in x, the opposite of that at the hedge ratio times the ratio of the closes of the opening bar, and a pair not held has nothing |
| PairsWeights.CellsOfLonePair | src/quant_pilot/engine/strategies/pairs_trading.py:156-174 | so the two cells of a pair that shares no column are exactly its two legs |
| PairsTheorems.RetirementExact | src/quant_pilot/engine/strategies/pairs_trading.py:127-138 | the pair is retired after a bar exactly when some stretch up to it had more valid bars than allowed without a sign flip against the last non-zero sign |
| PairsTheorems.BrokenStays | src/quant_pilot/engine/strategies/pairs_trading.py:129-157 | retirement is permanent and both legs are zero from then on |
| PairsTheorems.LegMoves | src/quant_pilot/engine/strategies/pairs_trading.py:140-157 | positions move only between flat and one side, never from one side to the other in one bar; legs are constant while held; entries lie beyond the entry band with the hedge ratio of that bar |
| PairsTheorems.PositionExact | src/quant_pilot/engine/strategies/pairs_trading.py:127-157 | after a bar the pair is held on a side exactly if it is not retired and was opened there from flat beyond the entry band with no score at the exit or stop band since; its legs use the hedge ratio of the opening bar |
| PairsTheorems.HoldingTimeBounded | src/quant_pilot/engine/strategies/pairs_trading.py:121-157 | with the exit band at the mean no position survives more than floor(max_no_cross)+1 valid bars, so at most break_max_no_cross+1 |
| PairsTheorems.HoldingTimeUnbounded | src/quant_pilot/engine/strategies/pairs_trading.py:148-154 | with the exit band anywhere else there are streams that hold a position for any number of bars |
| PairsTheorems.HoldingTimeBoundedIff | src/quant_pilot/engine/strategies/pairs_trading.py:121-157 | so for positive entry and stop bands holding time is bounded over all streams exactly when the exit band is the mean or max_no_cross is below one, where no position is ever opened |
| PairsTheorems.SignalLocal | src/quant_pilot/engine/strategies/pairs_trading.py:127-157 | the signal after a bar depends on no later bar |
| PairsBacktest.WeightsLocal | src/quant_pilot/engine/strategies/pairs_trading.py:105-174 | the weights of a bar depend on closes up to that bar only |
| PairsBacktest.StrategyNoLookAhead | src/quant_pilot/engine/backtest/engine.py:3-7 | the strategy run through the engine: the book after day d depends on opens and halts through d and closes and volumes through d-1 |
| BenjaminiHochberg.RejectionsAreStepUp | src/quant_pilot/engine/strategies/cointegration.py:35-47 | the number of rejections is the largest k for which the k-th smallest p-value times m is at most k alpha, ties included |
| BenjaminiHochberg.RejectedAreSelfConsistent | src/quant_pilot/engine/strategies/cointegration.py:35-47 | with R rejections every rejected p-value times m is at most R alpha |
| BenjaminiHochberg.SelfConsistentSetsAreRejected | src/quant_pilot/engine/strategies/cointegration.py:35-47 | every set of hypotheses whose p-values times m are all at most its size times alpha is rejected: the result is the largest such set |
| BenjaminiHochberg.MonotoneInAlpha | src/quant_pilot/engine/strategies/cointegration.py:35-47 | a looser level never rejects less |
| BenjaminiHochberg.PermutationEquivariant | src/quant_pilot/engine/strategies/cointegration.py:35-47 | listing the hypotheses in another order does not change any decision |
| BenjaminiHochberg.SortFacts | src/quant_pilot/engine/strategies/cointegration.py:41 | sorting permutes the p-values into ascending order |
| Universe.BuildMembershipIntervals | src/quant_pilot/engine/data/universe.py:76-110 | grouping, stable sorting and scanning produce the intervals of the model |
| Universe.GroupByKey | src/quant_pilot/engine/data/universe.py:84-86 | events grouped by name, names in order of first occurrence |
| Universe.ScanEvents | src/quant_pilot/engine/data/universe.py:91-105 | the scan of one name: duplicate adds and dangling drops are ignored |
| Universe.MembershipMatrix | src/quant_pilot/engine/data/universe.py:113-135 | a cell is true exactly if some interval of the symbol contains the date |
| Universe.UniverseRepository.AddUniverseMembership | src/quant_pilot/adapters/persistence/repository.py:171-183 | appends rows |
| Universe.UniverseRepository.GetUniverseMembership | src/quant_pilot/adapters/persistence/repository.py:185-195 | the rows of an index whose half-open interval contains the date |
| UniverseTheorems.IntervalsMatchReplay | src/quant_pilot/engine/data/universe.py:76-110 | some interval of a name contains a date exactly if replaying its date-sorted events up to that date leaves it in the index |
| UniverseEvents.MemberIffLastWordIsAdd | src/quant_pilot/engine/data/universe.py:88-105 | a name is a member on a date exactly if the latest event about it by then is an add, the last listed of several on one date |
| UniverseEvents.IntervalsMatchLastWord | src/quant_pilot/engine/data/universe.py:76-110 | so for any unordered list some interval of a name contains a date exactly if the last word on it by that date is an add |
| UniverseEvents.IntervalsBoundedByEvents | src/quant_pilot/engine/data/universe.py:91-105 | every interval begins on the date of an add of its name and ends on the date of a drop |
| UniverseTheorems.IntervalsSeparated | src/quant_pilot/engine/data/universe.py:76-110 | the intervals of a name are in order and disjoint, and only the last may be open-ended |
| UniverseTheorems.FutureEventsDoNotMatter | src/quant_pilot/engine/data/universe.py:3-7 | event lists that agree on the events up to a date agree on the membership of that date |
| UniverseTheorems.RepositoryMatchesReplay | src/quant_pilot/adapters/persistence/repository.py:185-195 | after one ingest the repository lists exactly the names a replay leaves in the index, each once |
| UniverseTheorems.ListedIffSomeIngestHolds | src/quant_pilot/workers/tasks.py:47-54 | after any sequence of ingests it lists a name exactly if the replay of some ingest, taken alone, holds it |
| UniverseTheorems.LaterDropIgnored | src/quant_pilot/workers/tasks.py:47-54 | so a drop that only a later ingest reports does not take effect |
| UniverseTheorems.MatrixMatchesSomeIndex | src/quant_pilot/engine/data/universe.py:113-135 | the matrix says whether some index holds the name |
| UniverseTheorems.MatrixMatchesIndexIff | src/quant_pilot/engine/data/universe.py:113-135 | it answers for one index exactly when no other index holds the name alone |
| UniverseTheorems.MatrixWrongForIndex | src/quant_pilot/engine/data/universe.py:113-135 | a name added to index B only is eligible although it is not in index A |
| UniverseTheorems.MatrixMatchesSingleIndex | src/quant_pilot/engine/data/universe.py:113-135 | in particular when all intervals come from that index |
| OhlcvCache.OHLCVCache.Read | src/quant_pilot/adapters/data/parquet_cache.py:23-27 | the stored rows of a symbol, or none |
| OhlcvCache.OHLCVCache.Write | src/quant_pilot/adapters/data/parquet_cache.py:29-30 | stores the rows sorted by date |
| OhlcvCache.OHLCVCache.MergeWrite | src/quant_pilot/adapters/data/parquet_cache.py:32-41 | stores and returns the merge of stored and new rows |
| OhlcvCache.MarketDataProvider.GetOhlcv | src/quant_pilot/adapters/data/yfinance_provider.py:60-67 | serves from the cache when the dates cover the request, else downloads, merges and slices; other symbols are untouched |
| CacheTheorems.MergeKeepsLastWritten | src/quant_pilot/adapters/data/parquet_cache.py:32-41 | a merge into stored rows leaves one row per date, the last one written, in date order, whatever the inputs |
| CacheTheorems.FirstMergeKeepsAll | src/quant_pilot/adapters/data/parquet_cache.py:32-41 | the first write of a symbol keeps every row it is given |
| CacheTheorems.HitIff | src/quant_pilot/adapters/data/yfinance_provider.py:61-63 | a request is a hit exactly if some cached row is no later than its first day and some no earlier than its last; then the cache does not change and the source does not matter |
| CacheTheorems.MissAgreesIff | src/quant_pilot/adapters/data/yfinance_provider.py:64-67 | a miss returns the source restricted to the request exactly if the download and the cache together hold every source row of the request |
| CacheTheorems.EveryAnswerRightIff | src/quant_pilot/adapters/data/yfinance_provider.py:60-67 | for a fixed source every request, hit or miss, returns the source restricted to the range if and only if no source row between the first and last cached date is missing and no miss falls short of the request |
| CacheTheorems.EveryAnswerRightIffGapless | src/quant_pilot/adapters/data/yfinance_provider.py:60-67 | with a downloader that never falls short, the first of these alone decides |
| CacheTheorems.EndExclusiveMiss | src/quant_pilot/adapters/data/yfinance_provider.py:35-40 | with the default downloader, whose end day is excluded, a miss is right exactly if the row of its last day is cached already or does not exist |
| CacheTheorems.ExclusiveEndLosesRow | src/quant_pilot/adapters/data/yfinance_provider.py:35-40 | on an empty cache that downloader loses the last of three days |
| CacheTheorems.GaplessAfterMissIff | src/quant_pilot/adapters/data/yfinance_provider.py:64-66 | a non-empty download keeps the cache without gaps exactly when it overlaps or adjoins what is cached |
| CacheTheorems.ReceivedAnswersRightIff | src/quant_pilot/adapters/data/yfinance_provider.py:60-67 | the answers a sequence of calls actually receives are all right exactly if on each hit the cache, and on each miss the cache with the download, holds every source row of the request |
| CacheTheorems.AnswersAgreeIff | src/quant_pilot/adapters/data/yfinance_provider.py:60-67 | over any sequence of calls every answer that could be asked for after every prefix is the source restricted to the request, if and only if each download overlaps or adjoins what is cached and no miss falls short of the request |
| CacheTheorems.AnswersAgreeWithSource | src/quant_pilot/adapters/data/yfinance_provider.py:60-67 | with a downloader that never falls short: if and only if each download overlaps or adjoins what is cached |
| CacheTheorems.DisjointRangesLoseRows | src/quant_pilot/adapters/data/yfinance_provider.py:105-107 | two disjoint requests make the third lose a row: comparing only first and last date is not enough |
| Drawdown.DrawdownMonitor.Update | src/quant_pilot/engine/risk/drawdown.py:27-32 | one observation of the monitor: peak, drawdown and the latching halt |
| Drawdown.DrawdownMonitor.Reset | src/quant_pilot/engine/risk/drawdown.py:34-36 | back to the fresh monitor |
| Drawdown.MonitorReports | src/quant_pilot/engine/risk/drawdown.py:27-32 | after each step it reports the largest value so far, the drawdown that takes it to the value observed, and whether some value lay below its running peak by the limit |
| Drawdown.NoPeakNoDrawdown | src/quant_pilot/engine/risk/drawdown.py:29 | without a positive peak it reports no drawdown |
| Drawdown.MonitorMatchesMask | src/quant_pilot/engine/risk/drawdown.py:27-43 | on any equity series with a positive first value the monitor is halted after step t exactly where the mask forbids trading |
| Drawdown.TrippedIffFallen | src/quant_pilot/engine/risk/drawdown.py:39-43 | both are tripped exactly if some value fell from some earlier one by the whole allowed fraction, for limits up to one |
| Drawdown.TrippedIffFallenExactly | src/quant_pilot/engine/risk/drawdown.py:39-43 | that equivalence holds exactly for limits up to one, for series that stay positive, and where some value lies below its running peak by the whole limit |
| Drawdown.WipedOutButNotTripped | src/quant_pilot/engine/risk/drawdown.py:39-43 | it fails for an equity that goes to zero under a limit of two |
| Drawdown.LatchedIffBelowPeak | src/quant_pilot/engine/risk/drawdown.py:39-43 | for every limit, tripped exactly if some value was below its running peak by the allowed fraction |
| Drawdown.MaskLatches | src/quant_pilot/engine/risk/drawdown.py:39-43 | the mask never allows trading again |
| Drawdown.DrawdownFromReturns | src/quant_pilot/engine/analysis/performance.py:29-31 | the drawdown series of the returns of a positive equity curve is the curve against its running maximum |
| Drawdown.MaxDrawdownDays | src/quant_pilot/engine/analysis/performance.py:57-62 | the result is the length of the longest run of days below the peak |
| PositionCaps.ApplyPositionCaps | src/quant_pilot/engine/risk/position_sizing.py:35-53 | the clip followed by the in-place loop over sectors computes the capped weights |
| PositionCaps.WeightWithinLimit | src/quant_pilot/engine/risk/position_sizing.py:42-53 | every weight ends within the position limit, no larger than it was, and on the same side |
| PositionCaps.MerelyClippedIff | src/quant_pilot/engine/risk/position_sizing.py:42-53 | it is clipped, to the smaller of its magnitude and the limit, and nothing more exactly if it clips to zero, has no sector, or its sector complies once clipped |
| PositionCaps.SectorWithinCap | src/quant_pilot/engine/risk/position_sizing.py:43-52 | every sector ends within its cap, exactly at it if it was over |
| PositionCaps.SectorKeepsProportions | src/quant_pilot/engine/risk/position_sizing.py:52 | within a sector the proportions of the clipped weights are kept |
| PositionCaps.CapsIdempotent | src/quant_pilot/engine/risk/position_sizing.py:35-53 | capping twice is capping once |

## Left out

- Frame alignment: reindexing by date and symbol labels happens before the model; frames come as rows of dates by columns of symbols.
- Floating point: rounding and infinities are not modelled.
- NaN among p-values or equity values: the model takes numbers.
- BacktestEngine.BacktestEngine.Run: result arrays are built by appending a value per day instead of being allocated first; the shares are updated in place as in the source.
- Object identity of orders: the broker keeps one mutable object per order and returns it; here an order is a value, so a caller holding the returned object and seeing it change is not modelled.
- Broker margin report, order listing and timestamps: they add only direct reads.
- Trading switch, second factor and sessions around the approval path: approval is an already authorised step.
- Sorting rows of equal date on a first cache write: the source leaves their order open; here it is the given order.
- The frequency argument of a price request: the cache is keyed by symbol alone.
- The quoted-spread argument of the impact model: no caller passes one.
- Column renaming and dropping of empty rows of a download, and file and SQL storage: the store is a map of symbol to rows, the membership table a list of rows.
- Parsing of membership files: events come parsed.
- Pair selection around the false-discovery step (regression, unit-root test, process fitting) and the Monte Carlo stress: foreign numerics.
- PairsModel.HedgeRatios: the exception raised on entering a position at a zero close of the first leg is a precondition of the running code; the model puts a ratio of zero there.
- Two approvals of one order at the same moment: endpoints are whole steps.
- Momentum, Kelly and volatility scaling, value at risk, option pricing and live slippage: they add mostly direct formulas.
- Frontend, HTTP wiring, settings, scheduling, queues and the external broker adapter: input and output.
