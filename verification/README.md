# One set of books: a Dafny model of the trading agent

The agent's central promise is that one set of books runs in simulation, in paper trading, in live trading
and after a crash. This project models the code that keeps those books and proves what the promise amounts
to: where it holds for every input and every run, and, where the code falls short of it, exactly when.

Money, prices and units are `real`, times are `int` milliseconds. The strategy is an arbitrary pure function
of history and the cost model an arbitrary function of order and bar. Everything the agent reads from outside
(venue replies, quotes, receipts, the cockpit's toggles, overlay decisions, whether a write arrives) is a
parameter with no assumption on it unless a lemma names one.

| file | what it models |
|---|---|
| `Market.dfy` | orders, fills, costs, bars, and the two products every account is built from |
| `Engine.dfy`, `EngineLaws.dfy`, `Refusals.dfy`, `Costs.dfy` | the simulator: sizing, scaled costs, trade pairing, delayed fills; its laws; what it refuses; the chain cost model |
| `Ledger.dfy`, `LedgerLaws.dfy`, `Replay.dfy` | the live accountant, what its running figures say about its fills, and its refinement of the simulator |
| `Executors.dfy`, `SwapLadder.dfy`, `SwapFills.dfy` | idempotency, the paper executor, the wallet executor's slippage ladder, which rung decides and what a swap books |
| `Loop.dfy`, `DecisionLoop.dfy`, `LoopMoves.dfy` | the live cycle as a state machine, as methods on the loop object, and its normal form |
| `CycleAsks.dfy`, `VenueAnswers.dfy` | a cycle read off its start and its inputs: what it asks, notes and books, and that nothing else the venue might say matters |
| `ModeSafety.dfy`, `Watchdog.dfy`, `LoopOnce.dfy`, `KeyTables.dfy`, `ActivityDay.dfy`, `Recovery.dfy`, `Parity.dfy` | what whole runs of the loop keep, and what recovery rebuilds |
| `Anchors.dfy`, `Conversions.dfy`, `Forgotten.dfy` | what recovery cannot rebuild, and operator conversions in the trade table |
| `Lives.dfy`, `Restart.dfy`, `OwnBar.dfy`, `PaperCrash.dfy`, `Rerun.dfy` | any number of crashes; going on after one, in whatever launch mode, also on the crash's own bar; paper runs cut anywhere, or replayed from the first bar |
| `Profits.dfy`, `PaperRun.dfy` | the two profits of a round trip, the drivers side by side, and concrete runs |
| `Watches.dfy` | the edge-triggered market watches |
| `Commands.dfy` | approvals, the command queue and its workers, as atomic steps with crashes |
| `WalkForward.dfy`, `Drawdown.dfy`, `AsOfJoin.dfy`, `Ordering.dfy` | walk-forward windows, drawdown scans, point-in-time joins, index reads |
| `Dedupe.dfy` | the nightly consolidation of reflections |

Code that changes state in the repository is a class or a loop here, proved against a specification function
(`RunBacktest` against `Run`, `LedgerState.ApplyFill` against `Apply`, `DecisionLoop.RunCycle` against
`Cycle`, and so on); the properties are then lemmas about those functions over arbitrary runs. Laws of the
live loop are proved once for each of the four elementary moves of `LoopMoves` and carried over cycles and runs.
What one cycle does is stated a second time, flatly and without its steps (`CycleAsks.Asks`, `AfterTrade`,
`LooksAtClose`), and `CycleDoesAsItAsks` proves the two equal: every request, note, figure and row.

## Where the code and its promises differ

The model follows the code. Each point is a lemma below.

- The clamp on buys reserves gas but not fee and slippage, so the loss "deeper than 100%" that the engine's
  comment rules out remains possible, without any refusal being counted: after a filled buy some positive close
  marks equity below zero exactly when a clamped size carries a fee or slippage, or an unclamped one plus its
  costs exceeds the cash (`FilledBuyCanLoseMoreThanAll`, `UnrefusedBuyCanLoseMoreThanAll`).
- The loop says it pairs trades like the backtest. The pairs agree, the profits do not: the simulator charges
  the entry's costs to the round trip and the ledger does not (`RunProfitsDiffer`, `AnEntryFeeMakesThemDiffer`).
- The live ledger credits a sell in full whatever is held (`FlatSellMintsItsSize`); the conservation law
  carries that as a separate term.
- A broadcast whose confirmation fails is reported FAILED and not remembered, so a retry under the same key
  broadcasts again (`UnconfirmedBroadcastIsResent`).
- The ladder is said to start at the configured cap and to stop at 8%. It starts at the cap only up to 5%
  and stays within 8% only if the cap does (`LadderIsSortedSet`).
- Rounding the clamped size to cents can use up more than the headroom, by at most 0.0053 USD
  (`ClampedBuyFitsBalance`, `HeadroomCanBeExceeded`).
- Recovery's peak is said to come from the durable ledger row. It is the live peak exactly when, since the last
  fill and counting that cycle's own close, nothing valued the account above it (`PeakSurvivesIffNoLaterHigh`,
  `ANewHighIsForgotten`).
- The day's loss restarts at the first bar's open; it is the uninterrupted loop's figure exactly under the
  condition of `DayLossSurvivesIff`.
- Recovery replays every row of the trade table. After an operator conversion, which the command worker books there
  as a purchase, the recovered cash is short by what it paid and the position too large unless that was sold again on
  the recovered books (`ConversionsSpoilRecovery`).
- Beyond 500 trades recovery replays the newest 500 onto a fresh account. Its cash is right exactly when the older
  ones cancel, its position exactly when the live account was flat at some moment since (`OldTradesFallOut`). Cycles beyond
  the newest 500 decisions - one is written every cycle, traded or not - are no longer known as executed
  (`OldCyclesAreResent`). The keys of the overlays are never marked (`OverlayKeysAreNotRestored`).
- A restarted process has counted no trade yet, so the activity rule can force one on a day that already traded
  (`RestartCanForceASecondTrade`, `ASecondTradeIsForced`), and the open round trip is not paired
  (`OpenRoundTripIsForgotten`).
- A new process runs in the mode it is launched with, not in the one the crashed loop had been toggled to; recovery
  restores no mode. A position held over the crash is traded under one mode exactly when the two modes are the same or
  nothing fills while it is held (`OneModeAcrossCrash`). While flat, the first cycle may follow the toggle, and that
  empties the recovered table: launched in paper, toggled to the main network, one fill, a crash, launched in paper
  again and fed the same bar, the loop fills the key once more (`RelaunchFillsAKeyTwice`). After the first preparation
  the recovered loop and the one that never stopped are in one mode exactly when they were, or the toggle can be
  followed; and their tables agree exactly when both switch, or one does and the other remembers nothing, or neither
  does and they agreed before (`FirstPreparation`). Of later bars neither remembers anything, so there the tables always
  agree. On the crash's own bar `OwnBarMeetsIff` reads it off the crashed loop's log: with no switch, recovery knows that bar's keys
  exactly when everything taken under them was filled under the base key, in a cycle that completed
  (`OwnBarKnownIff`). With modes and tables met, the recovered loop goes on in every respect named in
  `CrashedRunResumes` as if it had never stopped, however often it had crashed before.
- Replaying the feed from its first bar after recovery is said to make no second trade. For a quiet run of a pure
  strategy that holds exactly when every cycle that ordered is among the newest 500 (`ReplayTradesNothingIff`).
- A mode switch builds a new executor with an empty table, so exactly-once holds per key and mode stretch
  (`OneFillPerKeyPerMode`): a key goes out to the venue again exactly when no fill or simulation of it follows the last switch
  (`AskedAgainIffSwitched`), and a bar repeated across a switch fills its key twice (`SwitchFillsAKeyTwice`).
- The queue is said never to be blocked by a stuck row. A command with unreadable parameters raises before it is
  marked, and while it is the oldest queued row among the newest 20 idle workers dispatch nothing at all
  (`UnreadableCommandJamsQueue`, `JamIsReachable`). For good lost are exactly the undispatched commands nobody holds
  that are off the queue, unreadable, or behind 20 newer rows; every other one is dispatched by some schedule without a
  crash (`DispatchedIffReachable`, `OvertakenCommandIsReachable`, `AbandonedCommandIsReachable`). Two concurrent workers
  can run one command twice (`NeverTwiceIffOneWorker`); a direct enqueue may carry an agent's name without an approval
  (`AgentCommandsAreApprovals`).
- The consolidation's counter can exceed the number of rows removed (`CountIsExactIffNoneTakenTwice`).
- Open interest is said to come from the nearest snapshot within an hour either way; only earlier ones count,
  so the pick is the nearest exactly when no later snapshot is nearer than the last earlier one
  (`NearestIffLaterOnesAreFarther`, `NearestSnapshotIgnoredIfLater`).
- The drawdown duration is said to be time below a prior peak. It also counts steps that do not fall, and is that
  time exactly when some spell under water outlasts them all (`DurationIsTimeUnderWaterIff`).
- Below zero equity the drawdown depth is no longer the deepest fall over all pairs (`ScanIsAllPairsIff`).
- The stitched walk-forward return leaves out each window's first bar; the difference is nil exactly when the
  window's curve starts at its capital (`FirstBarIsMissingUnlessFlat`), which with immediate fills is a matter of
  what the first bar orders and what the quote costs (`ImmediateWindowStartsAtCapitalIff`).
- Funding pages resume one past the last row, which loses rows exactly when a full page is cut between rows of one
  time or does not get past its own start (`FetchFundingHistory`).
- A watch alert repeats when the write that arms it is lost (`AlertRepeatsIffWriteLost`).

## Model

| member | source | states |
|---|---|---|
| Engine.BacktestResult.ApplyFill | core/backtest/engine.py:185-257 | sizing, refusal counters, recorded fill, cash, position, open entry and closed trade of one order are those of the sizing, scaling and settling specifications |
| Engine.RunBacktest | core/backtest/engine.py:98-152 | the bar loop, in both fill modes, ends with the record, account and volume of the run specification |
| EngineLaws.BarStepExecutesOneAttempt | core/backtest/engine.py:122-152 | a bar executes at most one order, the pending one at the open or today's at the close, and adds one equity point |
| EngineLaws.SlippageIsAgainstTheOrder | core/backtest/engine.py:140-143 | the whole order at the slipped price is worth the close on its size plus the slippage for a buy, less it for a sale |
| EngineLaws.FillIsExecuted | core/backtest/engine.py:214-257 | an order leaves either nothing or one fill of exactly the executed size at the quoted price and gas, settled at that size |
| EngineLaws.FillIsCharged | core/backtest/engine.py:230-239 | a fill is charged the quoted fee and slippage per dollar of the request, for what traded, and the whole gas |
| Refusals.OrderCountsItsRefusal | core/backtest/engine.py:208-228 | a sale is counted once, with its excess over what is held, iff it asks for more than that; a buy iff it asks for more than can be paid after gas; neither moves the other's counters, and the order trades all there is or exactly its size |
| Refusals.RefusalsAddUp | core/backtest/engine.py:208-228 | over every run in both fill modes each counter is the number, each USD total the sum, over the bars' attempts, and the volume is what they traded |
| EngineLaws.RunExtendsPrefix | core/backtest/engine.py:122-152 | fills, trades and equity after k bars are prefixes of those after more bars |
| EngineLaws.NoLookAhead | core/backtest/engine.py:106-108 | two histories that agree up to bar k share everything recorded up to bar k, in both fill modes |
| EngineLaws.ClampBounds | core/backtest/engine.py:206-228 | no order makes the position negative, executes more than it asks, buys with cash at or below gas, or sells more than is held beyond the tolerance |
| EngineLaws.PositionNeverNegative | core/backtest/engine.py:250-251 | the position is non-negative after every run |
| EngineLaws.BarEffect | core/backtest/engine.py:122-152 | a bar changes the books by nothing or by one settled fill within the clamp, for every strategy |
| EngineLaws.BuyOverdraft | core/backtest/engine.py:219-246 | cash after a buy is at least minus its fee and slippage, less the tolerance; after a clamped buy it is exactly minus them |
| EngineLaws.FilledBuyCanLoseMoreThanAll | core/backtest/engine.py:219-246 | after any filled buy some positive close marks equity below zero iff its clamped size carries a fee or slippage, or its unclamped size plus costs exceeds the cash |
| EngineLaws.UnrefusedBuyCanLoseMoreThanAll | core/backtest/engine.py:222-228 | a buy of exactly the cash with a fee is not counted as underfunded and ends below zero |
| EngineLaws.SettleMovesEquity | core/backtest/engine.py:241-257 | marked at any close, a fill moves equity by its costs and its distance to that close, to within the tolerance on a sell and exactly on a buy |
| EngineLaws.EquityAttribution | core/backtest/engine.py:122-152 | final equity is capital less fill costs, less what buys at non-positive prices burn, plus holding gain plus execution gain, exact but for at most 1e-9 per sell, over every run in both fill modes |
| EngineLaws.NothingBurnt | core/backtest/engine.py:241-246 | when every buy fills at a positive price the burnt amount is zero |
| CostModels.ScaledSlippageOvercharges | core/backtest/costs.py:58-67 | square-root impact scaled down from a larger size strictly exceeds the impact of the smaller size |
| CostModels.ImpactGrowsWithTheRoot | core/backtest/costs.py:58-67 | a trade as large as the pool loses half of itself to impact, and four times a trade loses twice the rate |
| CostModels.EmittedFillNeverUndercharged | core/backtest/engine.py:230-235 | an emitted fill carries the model's fee and gas for what traded and at least its slippage, strictly more exactly when it was cut and there is a pool |
| Ledgers.LedgerState.MarkAt | agent/ledger.py:36-41 | returns the equity and raises the peak to it if higher, changing nothing else |
| Ledgers.LedgerState.Roll | agent/ledger.py:52-56 | re-anchors the day's equity on a new day only |
| Ledgers.LedgerState.ApplyFill | agent/ledger.py:62-94 | the whole new ledger and the realised profit are those of the booking specification |
| Ledgers.ApplyConserves | agent/ledger.py:74-92 | one fill at a positive price changes cash plus position at cost by realised profit, buy costs and minted cash only, and keeps units non-negative |
| Ledgers.LedgerConservation | agent/ledger.py:62-94 | over every fill sequence at positive prices, cash plus position at cost is capital plus realised profit less buy costs plus what oversized sells minted |
| Ledgers.FlatSellMintsItsSize | agent/ledger.py:83-88 | a sell against no position credits its full size while realising only its costs |
| Ledgers.MarkRaisesPeak | agent/ledger.py:36-41 | marking makes the peak the maximum of itself and the equity |
| LedgerLaws.LossesCountTheStreak | agent/ledger.py:89-92 | for every fill sequence the streak is the number of sales after the last one that did not lower the realised total, or of all if each did |
| LedgerLaws.StreakReachedIffLastSalesLost | agent/ledger.py:89-92 | the streak has reached n iff there are n sales and each of the last n lowered the realised total |
| LedgerLaws.LoopStreakReachedIffLastSalesLost | agent/loop.py:1195 | and so it is in every run of the loop, over the fills the run made, recorded or not |
| LedgerLaws.RunBooksItsFills | agent/loop.py:1083-1093 | whatever happens in a run, its accounts are those of its fills booked in order |
| LedgerLaws.CostsAddUp | agent/ledger.py:70-71 | cumulative fees and gas are the sums over all fills |
| LedgerLaws.EntryMovesOnlyByBuying | agent/ledger.py:74-88 | a buy realises nothing and adds its size to the position at cost, a sale leaves the average entry and a buy the streak alone |
| Replay.ReplayRefinesEngine | agent/ledger.py:62-94 | folding the live ledger over a backtest's fills ends with the backtest's cash and units, for every strategy, cost model and fill mode |
| Replay.EngineFillsBarelyMint | core/backtest/engine.py:208-217 | on the simulator's fills the ledger mints between nothing and 1e-9 per sell |
| Executors.VenueExecutor.Execute | agent/executor.py:82-95 | a remembered key is answered from the table, any other by the venue, and only FILLED and SIMULATED are remembered |
| Executors.VenueExecutor.Mark | agent/executor.py:97-105 | a marked key holds a FILLED report without a fill |
| Executors.PaperExecutor.Execute | agent/executor.py:125-138 | a new key fills at the close with slippage priced in; a remembered one is a duplicate |
| Executors.TableHoldsRememberedKeys | agent/executor.py:82-95 | over any calls, a key is in the table iff it was seeded or some reply under it was FILLED or SIMULATED |
| Executors.ConsultedIffNotRemembered | agent/executor.py:82-95 | the venue is asked under a key iff the key was not seeded and no earlier call under it was remembered |
| Executors.AtMostOneFillPerKey | agent/executor.py:78-95 | after a fill every later call under its key answers DUPLICATE with that same fill and hash |
| Executors.MarkedKeyNeverConsulted | agent/executor.py:97-105 | a key marked by recovery answers DUPLICATE whatever happens in between |
| Executors.UnconfirmedBroadcastIsResent | agent/executor.py:459-469 | two calls under one key can both reach the venue and broadcast, the first failing its confirmation |
| SwapLadder.TwakSwapExecutor.Execute | agent/executor.py:377-489 | reply, table and the list of swap calls are those of the climb specification behind the idempotency table |
| SwapLadder.LadderIsSortedSet | agent/executor.py:389-396 | the rungs are the cap, 5% and 8%, distinct and ascending; they start at the cap iff it is at most 5% and stay within 8% iff it is |
| SwapLadder.ConfirmReports | agent/executor.py:459-487 | a swap with a hash reports FILLED iff the receipt confirms it, FAILED with the hash otherwise |
| SwapLadder.ClimbKeepsProtocol | agent/executor.py:410-489 | from any rung, the rest of the climb keeps the protocol and tries each remaining rung at most once |
| SwapLadder.SwapProtocol | agent/executor.py:377-489 | against every environment: at most three swaps at strictly rising slippage, each behind a quote within the cap and a rug check, only the last with a hash, and FILLED iff that hash is confirmed |
| SwapLadder.ClampedBuyFitsBalance | agent/executor.py:331-356 | a buy is kept, or turned away, or cut to within half a cent of what is spendable; it never exceeds the balance, needs at most 0.0053 USD beyond it with headroom, and does so iff it was cut and rounded up |
| SwapLadder.RoundCentsIsNearest | agent/executor.py:356 | the rounded size is a whole number of cents, the nearest, and of two equally near the even one |
| SwapFills.AnswerIsDecided | agent/executor.py:377-489 | a refused size is rejected before any quote; otherwise the first rung that is not passed decides, with exactly the swaps made up to it, and the order fails if there is none |
| SwapFills.FilledByItsLastSwap | agent/executor.py:459-487 | an order filled by a call was filled by its last swap: dollars over tokens moved as its price, the close if an amount is missing; the model's fee and slippage; the receipt's gas, or the model's where there is none |
| SwapFills.SwapMovesItsTokens | agent/executor.py:505-530 | booked in the ledger, a swap of the order's own dollars moves exactly the tokens that changed hands |
| SwapLadder.HeadroomCanBeExceeded | agent/executor.py:347-356 | a balance of 1.80 funds a buy whose size with headroom is more |
| DecisionLoops.ReplayFeed.Next | agent/feed.py:42-46 | call k exposes exactly the first k bars past the warm-up, then nothing |
| DecisionLoops.DecisionLoop.RollOverDay | agent/loop.py:240-250 | day anchor, activity day and daily trade count after a bar's rollover |
| DecisionLoops.DecisionLoop.CheckFailures | agent/loop.py:550-591 | warns once from two hours of failure and halts at four, clearing the streak |
| DecisionLoops.DecisionLoop.DeferSwitch | agent/loop.py:466-477 | a switch wanted while exposed is remembered, and audited once |
| DecisionLoops.DecisionLoop.SwitchTo | agent/loop.py:478-492 | a switch installs a fresh executor with an empty table, sets the mode and clears the pending target |
| DecisionLoops.DecisionLoop.SyncTradingMode | agent/loop.py:452-492 | executor, mode, pending target and audit events after reading the toggle |
| DecisionLoops.DecisionLoop.CountFill | agent/loop.py:1085-1093 | a fill books the ledger, ends the failure streak and counts as a trade of the day |
| DecisionLoops.DecisionLoop.PairRoundTrip | agent/loop.py:1094-1109 | a buy opens the round trip only if none is open; a sell closes the open one at the ledger's realised profit |
| DecisionLoops.DecisionLoop.RecordRows | agent/loop.py:1110-1132 | a written trade row is followed by its ledger row with the peak at that moment |
| DecisionLoops.DecisionLoop.BookFill | agent/loop.py:1085-1162 | a fill's whole effect on the loop, in order |
| DecisionLoops.DecisionLoop.RecordFailure | agent/loop.py:1172-1186 | a failure starts the streak if none runs and alerts at the third, restarting the count |
| DecisionLoops.DecisionLoop.Handle | agent/loop.py:1083-1187 | every report status has exactly its specified effect |
| DecisionLoops.DecisionLoop.SubmitOrder | agent/loop.py:354-356 | an order goes to the executor under the cycle's key and its report is handled; an exception leaves it unhandled |
| DecisionLoops.DecisionLoop.FinaliseCycle | agent/loop.py:1191-1202 | marks equity, writes the decision row, extends the curve |
| DecisionLoops.DecisionLoop.ActivityFloor | agent/loop.py:619-685 | the forced minimal trade and when it is placed |
| DecisionLoops.DecisionLoop.ActivityFloorAndClose | agent/loop.py:358-367 | activity floor, watches and finalisation in order |
| DecisionLoops.DecisionLoop.DecideAndClose | agent/loop.py:303-367 | the strategy's order through the entry gate and the size gates, then closing |
| DecisionLoops.DecisionLoop.KolOverlay | agent/loop.py:872-951 | the social overlay's order ends the cycle; an exception inside it falls through to the strategy |
| DecisionLoops.DecisionLoop.FollowVerdict | agent/loop.py:842-868 | flattening sells the whole exposure and ends the cycle, a day halt ends it, anything else goes on |
| DecisionLoops.DecisionLoop.AutopilotOverlay | agent/loop.py:811-868 | disabled it only clears the entry gate; enabled it marks the close, sets the gate and follows the verdict |
| DecisionLoops.DecisionLoop.RunCycle | agent/loop.py:237-367 | one cycle transforms the loop as the state machine says |
| DecisionLoops.DecisionLoop.AdvanceOn | agent/loop.py:1428-1433 | performs the cycle of the feed's next bar and says whether it completed, or reports the feed used up |
| DecisionLoops.DecisionLoop.Run | agent/loop.py:1424-1434 | performs exactly the cycles the feed yields: all completed and the feed used up or the limit reached, or all but a last one that raised |
| DecisionLoops.DecisionLoop.MarkExecuted | agent/recovery.py:53-56 | marks the cycles whose decision rows name a trade |
| DecisionLoops.Replayed | agent/recovery.py:58-66 | a fresh ledger with the trade rows applied in order |
| DecisionLoops.DecisionLoop.Recover | agent/recovery.py:40-72 | replaces ledger and table by the recovered ones, and only when the log holds something |
| LoopMoves.CycleMoves | agent/loop.py:237-367 | every cycle is its preparation followed by marks, gate, submissions and one close; a halted cycle only closes |
| LoopMoves.SubmitWrites | agent/loop.py:1083-1187 | a submission extends the log in one of four ways, and books a fill only from the venue under a key not in the table |
| LoopMoves.PrepareWrites | agent/loop.py:240-288 | preparation leaves the accounts alone and logs only watchdog and toggle events |
| LoopMoves.CloseWrites | agent/loop.py:1191-1202 | closing touches no trade or ledger row and at most raises the peak |
| LoopMoves.TraceFollows | agent/loop.py:1424-1434 | neighbouring states of any run are one normal-form cycle apart |
| CycleAsks.CycleDoesAsItAsks | agent/loop.py:237-367 | every cycle puts exactly the orders read off its start and inputs to the executor, in order; notes exactly what comes back; books the one trade among the answers, with its ledger, round trip, rows and peak, or none; and closes, or, if the venue raised anywhere but on the social overlay's channel, stops there |
| CycleAsks.OneTradePerCycle | agent/loop.py:289-367 | whichever channel fills, that is the cycle's one trade |
| VenueAnswers.CycleHearsOnlyItsAnswers | agent/loop.py:289-367 | two venues that answer alike what the cycle asks, where the table leaves it to them, give the same cycle |
| VenueAnswers.GatedSizeGoesOut | agent/loop.py:303-357 | the strategy's order, on the history with the live score, goes out at exactly the size the gates leave: no answer to another order under its key matters, a fill of it is the cycle's fill, and a blocked entry or a vetoed order is not asked for |
| VenueAnswers.AskedIff | agent/loop.py:289-367 | a request under a channel's key is logged iff the cycle puts an order to the executor there |
| ModeSafety.ModeChangesOnlyWhenFlat | agent/loop.py:461-489 | over every run, the mode changes only in a cycle whose exposure is within the tolerance, and to the desired mode |
| ModeSafety.PositionTradesUnderOneMode | agent/loop.py:453-456 | every fill and trade row of a stretch of exposed cycles, with the cycle that opened it, carries one mode |
| Restart.OneModeAcrossCrash | agent/runtime.py:102-112 | a position held over a crash: its fills until then carry the crashed loop's mode, and those of the recovered loop while it stays exposed do too iff it was launched in that mode or fills nothing |
| ModeSafety.DeferralAuditedOnce | agent/loop.py:466-476 | within one exposed stretch a target is audited again only after the desired mode changed in between |
| ModeSafety.HaltedCycleNeverTrades | agent/loop.py:274-288 | a cycle that reads halted or hits the floor asks no executor, fills nothing and leaves the accounts alone |
| Watchdog.RunIsSummarised | agent/loop.py:1172-1186 | at every point of every run the three watch fields summarise the log's current streak |
| Watchdog.HaltsAndAlertsAreEarned | agent/loop.py:550-591 | every halt follows a failure at least four hours old with no fill since and exactly one warning; alerts since the last fill are a third of the failures, rounded down |
| Watchdog.HaltsIffFourHours | agent/loop.py:550-591 | in every run of a new process a cycle halts iff the first failure since the last fill or halt is at least four hours old, and warns iff it is at least two hours old and no warning was given since |
| LoopOnce.OneFillPerKeyPerMode | agent/executor.py:82-95 | over every run and venue, two fills under one key are separated by a mode switch |
| KeyTables.AskedAgainIffSwitched | agent/executor.py:82-95 | over every run from boot, an order is passed to the venue iff nothing was filled or simulated under its key since the last mode switch |
| KeyTables.RunKeepsTable | agent/executor.py:82-95 | for a process with any starting table: it holds what was taken since the last switch and, as long as there was none, what it started with |
| LoopOnce.SwitchFillsAKeyTwice | agent/loop.py:478-492 | one bar repeated with a mode switch in between fills its key in both modes |
| LoopOnce.RecordDecisionLinks | convex/decisions.ts:37-50 | recording keeps one row per cycle, leaves other rows alone, and links a trade without ever replacing one |
| LoopOnce.OneDecisionPerCycle | convex/decisions.ts:17-21 | over every run the log holds at most one decision row per cycle id |
| ActivityDay.ForcedTradeIsMinimal | agent/loop.py:619-679 | the forced trade is placed exactly under the stated conditions, never after a trade that day, never larger than configured, and as a sell only within what is held |
| ActivityDay.TradesTodayCountsTheDay | agent/loop.py:243-250 | at every point of every run the daily count is the number of fills since the day began |
| ActivityDay.NoForcedTradeAfterAFill | agent/loop.py:619-627 | once any cycle has filled, no later cycle of that day asks for a forced trade |
| Recovery.RunIsMirrored | agent/loop.py:1110-1132 | over every run that records its fills, the trade and ledger rows match the fills, dated in order, with peaks between capital and the live peak |
| Recovery.RecoveryRebuildsLedger | agent/recovery.py:46-72 | over every run that records its fills, other cycles' writes failing or not, with at most 500 trades and no rows but the loop's own, recovery rebuilds the live ledger exactly but for the day anchor, with a peak between capital and the live peak |
| Lives.EveryRecoveryRebuildsLedger | agent/recovery.py:46-72 | the same after any number of crashes and recoveries, each process launched in any mode |
| Lives.LifeIsMirrored | agent/loop.py:1110-1132 | through any number of processes the rows replay to the live accounts, dated in order, with a stored peak between capital and the live peak |
| Conversions.ConversionsSpoilRecovery | agent/command_worker.py:206-217 | with conversions among the loop's rows at any times, at most 500 in all: recovered cash is the live cash less what they paid, right iff there was none; recovered units are never below the live ones, and equal iff the replay was flat at some moment after which no conversion added to it |
| Conversions.ConversionReplaysAsPurchase | agent/command_worker.py:206-217 | a conversion is filed as a main-network trade under its pair, hash and time; replayed, it buys its dollars' worth at tokens received per token given and pays gas and quoted impact on top |
| Conversions.SortOwn | convex/trades.ts:65-71 | sorting the table by time keeps the loop's own rows in their order |
| Anchors.PeakSurvivesIffNoLaterHigh | agent/recovery.py:67-71 | the recovered peak is the live one if, since the last fill and its own cycle's close included, no close and no new day's open valued the account above it; and only if, when no cycle raised |
| Anchors.CyclePeakLaw | agent/loop.py:237-367 | without a fill a cycle raises the peak to what its close and a new day's open are worth and no further; with one, from the peak its ledger row stored |
| Anchors.NewHighWithoutAFillIsForgotten | agent/recovery.py:67-71 | after any completed cycle that makes a new high and fills nothing, the recovered peak is below the live one |
| PaperRun.ANewHighIsForgotten | agent/recovery.py:67-71 | a two-bar paper run that buys one unit and holds comes back with a lower peak |
| Anchors.RecoveredDayLoss | agent/ledger.py:52-60 | after recovery the first bar's daily loss is the position's fall from that bar's open to its close |
| Anchors.DayLossSurvivesIff | agent/loop.py:240 | that loss is the uninterrupted loop's iff the bar starts a new day, the day opened at the same equity, or neither opening is above the close |
| Recovery.OldTradesFallOut | agent/recovery.py:46-66 | with more than 500 trades the recovered account is the replay of the newest 500 alone: its cash is off by exactly the older ones' net flow; with sizes not negative its position is never above the live one, and equal, cost basis included, iff the live account was flat at some moment since the older ones |
| Recovery.FlatStartCatchesUp | agent/ledger.py:62-94 | the same fills on a flat account and on any other: the first never holds more, and as much, at the same cost, iff the second passes through flat |
| Recovery.MarkedExactly | agent/recovery.py:53-56 | a key is marked iff it was already or some listed row of that cycle names a trade |
| Recovery.RecoveredCycleNeverResent | agent/recovery.py:53-56 | after recovery a cycle whose row names a trade answers only DUPLICATE under its cycle id |
| Forgotten.KnownUntilSwitch | agent/recovery.py:53-56 | in the recovered loop, over every run, a listed cycle with a trade is passed to the venue again iff the loop switched its mode and nothing was taken under the key since |
| Recovery.OverlayKeysAreNotRestored | agent/recovery.py:53-56 | after recovery an overlay's or the activity rule's key reaches the venue again |
| Restart.CycleTwins | agent/loop.py:237-367 | two loops with the same books that meet in their preparation fill and close a cycle alike, whatever their modes and tables before, their peaks, days, streaks and pasts |
| Restart.FirstPreparation | agent/loop.py:452-492 | two loops with one position leave their preparation in one mode iff they were in one or the toggle can be followed; their tables then agree iff both switch, or one does and the other remembers nothing, or neither does and they agreed |
| Restart.CrashedRunResumes | agent/recovery.py:40-72 | after any number of crashes, if all fills were recorded, a process recovered once more in any launch mode and fed the same inputs from the crash's own bar on adds the same fills and equity points and ends in the same mode with the same cash, units, average entry, costs, profit and streak as the loop that never stopped, if the activity rule is off or the day had not traded, the modes meet in its first cycle and, should the crash's bar come again, the tables do |
| OwnBar.OwnBarKnownIff | agent/recovery.py:53-56 | on a new last bar of a recorded process, however many came before, the recovered table agrees with the live one about that bar and later ones iff everything taken under the bar's keys since the last switch was filled under the base key, in a cycle that completed |
| OwnBar.OwnBarMeetsIff | agent/loop.py:478-492 | and for any launch mode, after the next preparation they agree iff both loops switch; or only the old one would and no row names a trade; or only the new one does and nothing was taken; or neither and all was filled under the base key |
| OwnBar.CrashedOnItsBarResumes | agent/recovery.py:40-72 | under that condition, and with the modes meeting, a crashed run relaunched in any mode and fed its last bar again resumes as if it had never stopped |
| OwnBar.CycleCloses | agent/loop.py:237-367 | on a bar not touched before, a completed and recorded cycle writes one decision row, which names a trade iff something was filled under the base, social or autopilot key |
| OwnBar.DisagreementIsVisible | agent/executor.py:82-95 | where the tables disagree about a key, an order the venue fills is filled by one loop and not by the other |
| PaperRun.RelaunchFillsAKeyTwice | agent/runtime.py:102-112 | launched in paper, toggled while flat, one fill, crashed, launched in paper again: the same bar fills its key once more |
| Forgotten.OldCyclesAreResent | agent/recovery.py:47-56 | over every run in order, a cycle that traded is known after recovery iff its row is among the newest 500 decisions |
| Forgotten.RestartCanForceASecondTrade | agent/loop.py:626-653 | in a cycle where nothing else is asked, on a day that already traded, the uninterrupted loop asks for no forced trade, and the restarted one does iff the rule's other conditions hold |
| PaperRun.ASecondTradeIsForced | agent/loop.py:626-653 | a loop that bought, crashed and came back an hour later asks for a second trade, the one that never stopped does not |
| Forgotten.OpenRoundTripIsForgotten | agent/loop.py:1094-1108 | the sale that closes the live round trip is paired with nothing after a restart |
| PaperCrash.CrashedPaperRunResumes | agent/recovery.py:40-72 | a quiet paper run cut after any bar, launched in paper again and resumed adds up to the run that never stopped |
| PaperCrash.OneSetOfBooks | agent/recovery.py:40-72 | such a run, crash included, fills what the simulation fills iff the simulation is feasible, and then agrees on curve, cash and units |
| Rerun.ReplayTradesNothingIff | agent/tests/test_live_runtime.py:499-516 | a quiet recorded run of a pure strategy, recovered and replayed from its first bar, fills nothing iff every cycle that ordered is among the newest 500 |
| Parity.EngineFillsAsAskedIffFeasible | core/backtest/engine.py:208-228 | the simulator fills exactly what was asked iff it refused nothing and no request was dust |
| Parity.LiveRunFillsAsAsked | agent/executor.py:125-138 | the paper run fills exactly what was asked, and its ledger is the fold of those fills |
| Parity.FeasibleRunAgrees | agent/ledger.py:62-94 | on feasible runs fills, cash, units, open entry, equity curve and trade pairing agree |
| Parity.SimLiveParity | agent/loop.py:1424-1434 | for every strategy, cost model and bars with distinct times, the paper run and the simulation agree on fills iff the run is feasible, and then on the whole account |
| PaperRun.QuietRunUsesTheFeed | agent/loop.py:1424-1434 | a quiet run cannot raise, so it ends only with the feed used up, in the state parity speaks about |
| PaperRun.Paper | agent/loop.py:1424-1434 | the loop object driven by a replay feed ends in that state |
| PaperRun.PaperAndBacktest | core/backtest/engine.py:98-152 | the two drivers over the same bars: same fills iff feasible, and then the same cash, units, curve and pairs |
| PaperRun.Reboot | agent/runtime.py:102-147 | a new loop object, launched in any mode and recovered from a log, is the started state the resumption results speak about |
| Profits.RoundTripProfitsDiffer | core/backtest/engine.py:252-255 | the exact difference between the profits the two accountants book on one round trip |
| Profits.RunProfitsDiffer | agent/loop.py:1105-1107 | over every feasible run the two drivers close the same round trips, and each pair of profits differs by that gap on the account before the closing fill |
| Profits.AnEntryFeeMakesThemDiffer | core/backtest/engine.py:252-255 | buying a hundred and selling fifty at one price, a dollar's fee each, books a dollar more in the loop than in the simulator |
| Profits.SingleRoundTripAgreesIffEntryFree | agent/loop.py:1105-1107 | for one buy and a sale within it the two profits agree iff the entry cost nothing |
| Commands.Database.ProposeTrade | convex/approvals.ts:5-12 | inserts one pending request |
| Commands.Database.ResolveTrade | convex/approvals.ts:21-40 | resolves only a pending request; approval enqueues its decoded command in the same step, an undecodable one changes nothing |
| Commands.Database.EnqueueCommand | convex/agentCommands.ts:5-25 | appends one queued command under the caller's name |
| Commands.Database.UpdateStatus | convex/agentCommands.ts:39-60 | patches one row's status and nothing else |
| Commands.Database.PopQueuedCommand | agent/convex_bridge.py:485-499 | returns the oldest queued row among the newest 20 |
| Commands.Database.RunOneCommand | agent/command_worker.py:55-82 | one drain is pop, mark, dispatch and outcome in that order, or nothing |
| Commands.StatusesAreOutcomes | agent/command_worker.py:63-76 | over all interleavings with any workers and crashes, a command is done, or failed, only if a worker dispatched it to that outcome |
| Commands.ResolutionIsFinal | convex/approvals.ts:29-31 | a request once resolved never changes again |
| Commands.PopIsFifoInWindow | convex/agentCommands.ts:27-37 | the oldest queued command is chosen iff it is among the 20 newest rows |
| Commands.EachCommandDispatchedAtMostOnce | agent/command_worker.py:55-82 | with at most one worker, over all interleavings and crashes, no command is dispatched twice |
| Commands.TwoWorkersDispatchTwice | agent/command_worker.py:57-65 | with two workers a schedule dispatches one command twice |
| Commands.NeverTwiceIffOneWorker | agent/command_worker.py:57-65 | all schedules dispatch each command at most once iff there is at most one worker |
| Commands.AgentCommandsAreApprovals | convex/approvals.ts:32-38 | over all interleavings, agent-named commands are, one for one, the approved requests plus the direct enqueues in an agent's name |
| Commands.ApprovedRequestsDecode | convex/approvals.ts:31-33 | no request is ever approved whose payload does not decode |
| Commands.UnreachableForever | agent/convex_bridge.py:492-499 | an undispatched command nobody holds that is off the queue, unreadable or behind 20 newer rows is dispatched in no continuation |
| Commands.DispatchedIffReachable | agent/command_worker.py:55-82 | in every reachable world, with any number of workers, a command is dispatched in some continuation iff it is not such a one, and then in one without a crash |
| Commands.OvertakenCommandIsReachable | agent/convex_bridge.py:492-499 | 21 enqueues before any drain leave the first command out of reach |
| Commands.AbandonedCommandIsReachable | agent/command_worker.py:63-65 | a crash between marking and dispatching leaves a command out of reach |
| Commands.UnreadableCommandJamsQueue | agent/command_worker.py:62-63 | while an unreadable command is the oldest queued row of the window nothing at all is dispatched |
| Commands.JamIsReachable | agent/command_worker.py:62-63 | one enqueued command with unreadable parameters jams an empty system |
| Dedupe.Dreamer.DedupeReflections | agent/secondbrain/dreamer.py:69-103 | dropped ids, soft-delete calls and counters of the nested loops are those of the pass specification |
| Dedupe.Dreamer.CompareWithLater | agent/secondbrain/dreamer.py:82-103 | the inner loop drops, deletes and counts for one row what the pass specification does |
| Dedupe.SurvivorsExactly | agent/secondbrain/dreamer.py:78-103 | turn by turn, every row still there that has a lesson drops the later similar rows that moved no more money, and goes itself iff one still there moved more; the survivors are exactly the rows left |
| Dedupe.ActiveAreNotStale | agent/secondbrain/dreamer.py:71-74 | the rows looked at are exactly those not stale, in order |
| Dedupe.SurvivorsAreIndependent | agent/secondbrain/dreamer.py:78-103 | no two surviving lessons are at or above the threshold, for every similarity function |
| Dedupe.SurvivorsDominate | agent/secondbrain/dreamer.py:94-102 | every row is linked by a chain of similar, ever higher ranked rows to a survivor of at least its magnitude |
| Dedupe.TopRowSurvives | agent/secondbrain/dreamer.py:94-102 | the earliest row of largest magnitude survives |
| Dedupe.CountCoversDropped | agent/secondbrain/dreamer.py:103 | the reported count is at least the number of rows removed |
| Dedupe.CountIsExactIffNoneTakenTwice | agent/secondbrain/dreamer.py:80-103 | it is that number iff no row, on its turn, is overtaken by two later rows still there |
| Dedupe.CountIsExactUnlessOvertakenTwice | agent/secondbrain/dreamer.py:80-103 | it is that number whenever no row has two later, similar rows of larger magnitude |
| Dedupe.CountCanExceedDropped | agent/secondbrain/dreamer.py:85-103 | three similar lessons of rising magnitude lose two rows and report three |
| Drawdown.MaxDrawdown | core/scorecard.py:325-327 | for every curve that starts above zero the scan is the deepest fall below the running maximum, attained; and on one that never goes below zero the deepest over all pairs of an earlier and a later point |
| Drawdown.ScanIsAllPairsIff | core/scorecard.py:325-327 | it is the deepest over all pairs iff no point below zero falls deeper from the lowest positive point before it |
| Drawdown.NegativeEquityBreaksAllPairs | core/scorecard.py:325-327 | on 1, 10, -1 the two differ |
| Drawdown.LongestSpell | core/scorecard.py:185-205 | for ordered times the scan is the longest gap between two points with everything between them below the first; none iff stamps are missing or mismatched |
| Drawdown.RunningMaxIsAttained | core/scorecard.py:325 | the running maximum is attained and bounds all earlier points |
| Drawdown.DurationIsTimeUnderWaterIff | core/scorecard.py:188-205 | the duration is the longest time below a prior peak iff some spell under water outlasts every step that does not fall, or nothing falls and all stamps are equal |
| Drawdown.RisingCurveStillHasDuration | core/scorecard.py:198-202 | on a curve that never falls the duration is the largest gap between neighbours |
| WalkForward.RunWalkForward | core/backtest/walk_forward.py:64-99 | the loop terminates; there is a result k iff its test slice would begin before the end, and it is what the optimiser makes of the training slice and the record of the strategy built from exactly that, run on the test slice |
| WalkForward.WalkIsScored | core/backtest/walk_forward.py:64-99 | those results are one list only: the scores of the windows, one for one |
| WalkForward.TestsTileHistory | core/backtest/walk_forward.py:72-81 | the test slices concatenate to exactly the bars after the first training slice |
| WalkForward.WindowSlices | core/backtest/walk_forward.py:69-78 | window k starts k test lengths in, trains on the bars right before its test slice and tests on the ones after |
| WalkForward.ParamsIgnoreTestBars | core/backtest/walk_forward.py:77-87 | a window's parameters are unchanged by any change to bars at or after its test slice |
| WalkForward.ScoreIgnoresLaterBars | core/backtest/walk_forward.py:96 | what a window has recorded after m test bars is unchanged by later bars |
| WalkForward.ReturnsTelescope | core/backtest/walk_forward.py:121-125 | the compounded point-to-point returns of a curve are last over first |
| WalkForward.StitchedReturn | core/backtest/walk_forward.py:110-144 | the unrounded stitched return is the product over windows of last over first equity, minus one; none iff no window has two points |
| WalkForward.WalkForwardReturn | core/backtest/walk_forward.py:64-144 | the whole walk: there is a stitched figure iff some window tests on more than one bar, and it is the product of the growths of the windows' records, less one |
| WalkForward.FirstBarIsMissingUnlessFlat | core/backtest/walk_forward.py:121-144 | a window's factor is its growth on its capital iff its curve starts at that capital |
| WalkForward.DelayedWindowStartsAtCapital | core/backtest/walk_forward.py:89-96 | with delayed fills every window's curve starts at its capital |
| WalkForward.ImmediateWindowStartsBelowCapital | core/backtest/walk_forward.py:89-96 | with immediate fills an affordable first-bar buy starts the curve lower by exactly its costs and the value lost to the slipped price |
| WalkForward.ImmediateWindowStartsAtCapitalIff | core/backtest/walk_forward.py:89-96 | with non-negative costs an immediate-fill window starts at its capital iff its first bar orders nothing, sells, buys within the tolerance or trades free |
| AsOfJoin.LatestIsLatest | core/data/sentiment_history.py:81-84 | the specification picks the last reading at or before a time, of equal times the last listed, and none iff all are later |
| AsOfJoin.JoinsReadTheLatest | core/data/sentiment_history.py:81-84 | the joined value is the last reading's at or before the bar, for open interest only within the hour, and zero where there is none |
| AsOfJoin.AdvancePointer | core/data/binance_client.py:358-361 | passes every settlement at or before the bar and keeps the last value passed |
| AsOfJoin.MergeFunding | core/data/binance_client.py:349-362 | for bars in any order each gets the value as of the latest time reached so far |
| AsOfJoin.MergeFundingInOrder | core/data/binance_client.py:349-362 | for ascending bars each gets the value of the last settlement at or before it, 0 if none |
| AsOfJoin.BisectRight | core/data/sentiment_history.py:99-104 | counts the sorted readings at or before a time |
| AsOfJoin.EnrichSentiment | core/data/sentiment_history.py:92-106 | each bar gets the last reading at or before it, as the pointer form does; an empty side changes nothing |
| AsOfJoin.MergeOpenInterest | core/data/binance_client.py:364-375 | each bar gets the last snapshot at or before it if at most an hour old, else 0 |
| AsOfJoin.NoLookAheadInJoins | core/data/sentiment_history.py:81-84 | readings later than the bar, however many, change no join |
| AsOfJoin.NearestIffLaterOnesAreFarther | core/data/binance_client.py:344-375 | for all snapshots and bars, the pick is a nearest snapshot within an hour either way, and none iff there is none, iff every snapshot in the hour after is at least as far as the last at or before |
| AsOfJoin.NearestSnapshotIgnoredIfLater | core/data/binance_client.py:344-345 | a snapshot a millisecond after the bar is ignored, even for one an hour before |
| AsOfJoin.FetchFundingHistory | core/data/binance_client.py:259-284 | for a server in time order, paging returns every row of the window once and in order iff every full page is cut past the cursor between different times |
| AsOfJoin.DistinctTimesCutCleanly | core/data/binance_client.py:280-283 | rows at different times are always cut that way |
| Ordering.NewestReversed | convex/trades.ts:65-71 | the newest rows reversed are the tail of the log in write order |
| Watches.WatchTable.Process | agent/watches.py:132-153 | one tick updates every row and lists, in order, exactly the rows whose condition is newly true |
| Watches.AlertsAreRisingEdges | agent/watches.py:107-129 | if every write arrives, a fresh watch alerts at exactly the rising edges of its condition among the ticks that show it |
| Watches.AlertsAreCrossings | agent/watches.py:60-127 | a fresh watch on a price, drawdown or equity, its writes arriving, alerts at exactly the ticks whose number is beyond the bound while the one shown last before was not |
| Watches.RegimesAreCompared | agent/watches.py:76-78 | a regime is compared with the watch's label but for case, and a missing one reads None |
| Watches.AlertRepeatsIffWriteLost | agent/watches.py:139-152 | an alert repeats on the next tick that still shows the condition iff its own write was lost |
| Watches.TwoAlertsNeedAFall | agent/watches.py:120-126 | between two alerts, the first of them saved, the condition was observed false and that was saved |

## Left out

- Floating-point rounding: arithmetic is over `real`; only the 1e-9 tolerance, the 1e-6 exposure tolerance and the rounding of a clamped buy to cents are kept. Rounding of reported metrics is left out.
- The strategy, risk engine, guardrails, autopilot rules and signals: uninterpreted; their answers are inputs of a cycle. Deployable cap, feedback, mistake avoidance and forecast are one arbitrary gate on the order.
- Wallet snapshot, forced reconciliation, daily summary text, staleness events, scorecard upload, symbol rotation and notifications: best-effort telemetry around the cycle.
- Idempotency keys are tuples of symbol, bar time and overlay instead of formatted strings.
- The on-chain router executor, the USDT approval pre-flight and the CLI's error texts: replies are classified, not parsed.
- Sharpe, Sortino, deflated Sharpe, bootstrap, daily consistency and per-regime aggregates: statistics with little structure to prove.
- The multi-asset portfolio backtest: it unpacks three values of the four its fill routine returns.
- CrashedRunResumes: guardrail and autopilot answers and the venue's replies are inputs fed alike to both loops; the code computes the first two from the day anchor and the peak, which recovery does not restore (`Anchors` says when those agree).
- RunIsMirrored: the rows are the loop's own; what the command worker's conversions add to them is `Conversions`, and reconciliation rows are left out.
- Agent-side language models, vector and key-value stores, network clients, the API, the cockpit and push delivery: plumbing.
- Writes within one cycle succeed or fail together, and a command's status writes that happen succeed; silently lost status writes are not modelled.
- Recovery's replay into the risk engine's own tracker: the strategy is a function of history here.
- Crashes between a trade row and its decision row: recovery keys on decision rows only, so no claim is made about them.
- Command rows are kept in the order of their queueing time; equal times are not distinguished.
- EnrichSentiment: the data frame sort is taken to be stable, which matters only for readings of equal time.
- FetchFundingHistory: open-interest paging, retries and the early return for all-zero columns are left out.
- MaxDrawdown: a curve that starts at or below zero divides by a running maximum that is not positive and is left out.
- LongestSpell: the figure in milliseconds; the division into days and its rounding are left out.
- CostModels: the square root is any function with the two defining properties; perpetual funding cost is left out.
- Watches: upper-casing covers the letters a to z; the wording of alerts and the explanation call are left out.
