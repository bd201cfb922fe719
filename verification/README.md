# DeltaQuant, verified model

A Dafny model of the decision and record-keeping core of the trading system: the parts whose mistakes cost money or
approve something that was never validated. The model follows the code branch by branch and states what the code is
for as theorems over every input, every run or every interleaving.

Five components are modelled.

* **Inference cache** (`Lru`, `InferenceCache`, `SingleFlight`). The lock-protected, single-flight, least-recently-used
  cache of `PredictionAgent.predict_cached`. The critical sections are methods of a class; concurrency is a step
  relation over them, with inference outside the lock and the store and the wake-up as two separate sections.
* **Backtest and walk-forward validation** (`Stats`, `Drawdown`, `Engine`, `OosMetrics`, `WalkForward`). The bar loop
  with its ledger and costs, the folds, the attribution of trades to folds, the one-pass statistics, the pooled aggregates
  and the verdict, and what rounding does to it. The strategy is any deterministic stateful function.
* **Strategy eligibility** (`Eligibility`, `EligibilityDecisions`, `EligibilityRegistry`, `StrategyRegistry`, `Migration`,
  `EligibilityRuns`). Versioned records, champion selection, status and regime policy and the reason of every decision, the
  five-second listing cache while other registry objects write the same directory, the legacy registry, the grouping
  migration, the placeholders, and all of them over whole runs.
* **Candidate review** (`VerdictCache`, `SignalValidation`, `ReviewGuarantees`, `ReviewTokens`, `RiskCompliance`,
  `PreLlmGate`, `TradingCycle`). The deterministic gate, the selective cached review with Qwen answering anything at all,
  the final risk gate, and the driver that chains them.
* **Durable stores** (`PaperLedger`, `CandleStore`, `Candles`). The paper ledger's transactions, one schema per market,
  and the candle store as a last-writer-wins map.

Conventions. Floats are reals. Time is an explicit value in one unit per module.
The logarithm, the cost model, the review policy, the sector table, the significance test and the inference itself are
parameters about which only what is stated is assumed. A hash stands for the data it hashes. Names and labels are taken as
already normalised. Where the code and its documentation differ, the model follows the code: the parser of context
reviews is documented as leaving missing reviews absent, but it raises, so one omitted candidate rejects the whole reviewed
batch (`src/core/qwen/policy.py:293-294`).

Properties that turned out to hold only under a condition are stated with that exact condition, and a lemma gives an input
for which they fail. In `Counterexamples`: the champion after a DISABLED record, a registered record while a gate migrates,
the equity curve after a forced close, the candidates a low-confidence regime drops, candidates that share an identifier, the
position-size and sector limits after an approved trade, the limits after an approved batch and two approved trades in one
symbol. Next to the property: the pairwise drawdown below zero (`Drawdown.NegativeEquityBreaksPairs`) and the edge that
rounding loses (`OosMetrics.ThinEdgeIsRoundedAway`). Flat costs never help below an exact bound on the rates, and do beyond
it (`Engine.CostsNeverHelp`, `Counterexamples.ExtremeCostsHelp`). A chunk size below one never writes the latest candle of any
frame (`Candles.EverythingIsWrittenIff`); what it does write is `Candles.WhatIsWritten`.

Verify with `dafny verify dfyconfig.toml`. Proofs hide the function bodies they do not need (`hide`), which keeps them quick.

## Model

| member | source | states |
|---|---|---|
| SingleFlight.SafeInEveryInterleaving | src/agents/prediction.py:270-304 | after every run of any number of callers: two callers never produce one key at once, a key is in flight exactly when somebody produces it, a second production follows a failure, an eviction or a clear of the first, every returned value was stored for its key, misses = completed + failed + in flight, inferences never exceed stores; what each call ends with is `CallsEndAsInferenceWent` |
| SingleFlight.InvariantStep | src/agents/prediction.py:270-304 | the invariant behind it survives every single step of every caller, every failure and every clear |
| SingleFlight.CacheIsMostRecentlyUsed | src/agents/prediction.py:228-298 | after every run the ordered cache is the max(1, cache_size) most recently touched distinct keys since the last clear, in recency order, and a touched key is cached exactly when fewer keys were touched after it |
| SingleFlight.NoLostWakeUp | src/agents/prediction.py:278-304 | while some call has not ended, some caller can step: whoever waits, waits for an event a live producer will set |
| SingleFlight.EveryStepProgresses | src/agents/prediction.py:270-304 | every step of a caller lowers a measure of the whole system, even when a woken waiter finds its entry evicted; a clear does not raise it |
| SingleFlight.EveryRunEnds | src/agents/prediction.py:270-304 | without new arrivals a run takes boundedly many caller steps under any scheduling, and a run that cannot go on has finished every call, each as `CallsEndAsInferenceWent` says |
| SingleFlight.CallsEndAsInferenceWent | src/agents/prediction.py:270-304 | after every run, caller by caller: a call that ended raised exactly when its own last production failed; one whose production finished with v returned v for the key it asked for; one that produced nothing returned what it found cached; the raised calls are as many as the closed failed productions, and the other returns but the hits as many as the closed successful ones |
| SingleFlight.NobodyIsHeldUp | src/agents/prediction.py:270-304 | after any run a new call may arrive, the cache may be cleared, a ready call may look up, a producer may finish or fail, a finished one may run its finally block, and a waiter whose event is set may go on |
| SingleFlight.OverlappingCallsShareOneInference | src/agents/prediction.py:278-304 | two overlapping calls for one key, for any key, answer and cache size: the second waits, both return the one inferred value, with one miss and one hit |
| SingleFlight.NotProducedTwice | src/agents/prediction.py:278-283 | a caller that finds no in-flight entry finds no running producer of its key |
| Lru.RecencyIsOrderOfLastTouch | src/agents/prediction.py:272-276 | the recency order lists each touched key once, ordered by the position of its last touch |
| Lru.TouchCommutesWithCut | src/agents/prediction.py:295-298 | storing or hitting and then evicting down to the size needs only the keys the cache still held |
| Lru.RecentIff | src/agents/prediction.py:295-298 | a key is among the newest n exactly when it was touched and fewer than n distinct keys were touched after it |
| InferenceCache.PredictionAgent.constructor | src/agents/prediction.py:171-197 | an empty cache of at least one entry with zero counters |
| InferenceCache.PredictionAgent.Lookup | src/agents/prediction.py:271-283 | the lookup section: hit and move to newest, wait on the running producer's event, or register as producer and count a miss; nothing else changes |
| InferenceCache.PredictionAgent.Store | src/agents/prediction.py:291-298 | the store section: the entry becomes newest with this value, the oldest surplus entries go, the rest stays |
| InferenceCache.PredictionAgent.EvictOldest | src/agents/prediction.py:297-298 | the eviction loop leaves exactly the newest cache_size entries with their values |
| InferenceCache.PredictionAgent.Wake | src/agents/prediction.py:300-304 | the in-flight entry is dropped and its event set, whatever happened before |
| InferenceCache.PredictionAgent.ClearCache | src/agents/prediction.py:228-230 | the cache is emptied; producers in flight and counters are untouched |
| InferenceCache.PredictionAgent.Metrics | src/agents/prediction.py:214-226 | a snapshot counts as many entries as there are cached keys, never more than the cache may hold, with the counters of that moment |
| InferenceCache.PredictionAgent.PredictCached | src/agents/prediction.py:270-304 | a call returns the cached value, or waits on the event of the running producer, or produces and stores; a raising call stores nothing, and nothing is left in flight that was not before |
| Drawdown.MaxDropIsLargestPair | src/backtesting/engine.py:396-400 | the accumulated maximum is the largest fall between two points in time order, and some pair attains it |
| Drawdown.MaxFallPctIsLargestPair | src/backtesting/walk_forward.py:128-143 | while equity is non-negative and starts positive the one-pass percentage is the largest percentage fall over all pairs, and some pair attains it |
| Drawdown.PeakIsWorstStart | src/backtesting/walk_forward.py:128-143 | at one point the running peak gives the worst fall exactly when the equity there is non-negative or every earlier positive equity equals the peak |
| Drawdown.MaxFallPctBoundsPairsIff | src/backtesting/walk_forward.py:128-143 | over a whole curve that starts positive: the one-pass percentage bounds every pair exactly when, wherever equity is negative, the fall from the lowest positive equity so far is matched by some running-peak fall; it is always attained |
| Drawdown.NegativeEquityBreaksPairs | src/backtesting/walk_forward.py:128-143 | a concrete curve below zero whose pairwise fall exceeds the one-pass figure |
| Drawdown.EnginePctIsSmaller | src/backtesting/engine.py:400-401 | on one curve the engine's percentage (global peak) never exceeds the running-peak percentage |
| Drawdown.EnginePctIsOfTheTop | src/backtesting/engine.py:400-401 | the engine's percentage is the largest fall as a share of the highest equity of the curve, in percent, and zero without a positive one |
| Engine.BacktestEngine.Run | src/backtesting/engine.py:232-363 | raises exactly on empty data, then on a missing column, then without capital and trades; otherwise capital, curve and every reported trade are those of the specified ledger, the total return is the sum of the net trades, and counts, rates, averages, profit factor, expectancy and drawdowns are those of these trades and this curve |
| Engine.BacktestEngine.RunBars | src/backtesting/engine.py:262-352 | bar loop and forced close end in the specified ledger, with fresh trade objects that report it |
| Engine.BacktestEngine.BarLoop | src/backtesting/engine.py:262-330 | the loop variables at the end are the specified loop state; the trade list reports its trades |
| Engine.BacktestEngine.ActOn | src/backtesting/engine.py:285-323 | a BUY opens a flat position, a SELL closes an open one, everything else leaves all loop variables alone |
| Engine.BacktestEngine.CloseLeg | src/backtesting/engine.py:298-323 | closing books the gross result less the exit charge in cash and the result net of both charges in the trade |
| Engine.BacktestEngine.CalculateMetrics | src/backtesting/engine.py:365-433 | an error exactly when zero capital and no trade leave zero divided by zero; otherwise return and its percentage, win and loss counts, win rate, average win and loss, profit factor, expectancy and both drawdown figures, characterised from the net results and the curve |
| Engine.BacktestEngine.NetResults | src/backtesting/engine.py:377-394 | the list the statistics read is the net result of every specified round trip, in order |
| Stats.CountsAndSums | src/backtesting/engine.py:377-394 | wins and losses count the strictly positive and strictly negative results, gross profit and gross loss are their sums, and the two sums differ by the total |
| Engine.Trade.Close | src/backtesting/engine.py:67-77 | exit fields, gross result by side and quantity, and the percentage that times the amount paid gives the result |
| Engine.Trade.BookNetPnl | src/backtesting/engine.py:80-91 | the result becomes net of both charges and the percentage follows it, nothing else moves |
| Engine.LedgerConserved | src/backtesting/engine.py:262-330 | before every bar: cash = initial capital + net results of closed trades - entry charge of the open leg, and the position is 0 or 1 |
| Engine.FinalCapitalIsInitialPlusTrades | src/backtesting/engine.py:262-352 | final capital - initial capital = sum of the reported net results, forced close included |
| Engine.CurveEndsAtFinalCapital | src/backtesting/engine.py:325-352 | the curve ends at the final capital exactly when nothing is force-closed or closing costs nothing |
| Counterexamples.CurveMissesTheForcedClose | src/backtesting/engine.py:325-352 | 21 bars, one BUY and a commission of 1%: the curve does not end at the final capital, for any initial capital |
| Engine.TradesDoNotOverlap | src/backtesting/engine.py:286-352 | every trade ends before the next one is entered, forced close included |
| Engine.FutureIsInvisible | src/backtesting/engine.py:276-330 | two data sets that agree before bar k reach the same loop state there, for any stateful strategy |
| Engine.NoLookAhead | src/backtesting/engine.py:276-330 | the loop state before bar k is that of a run on the first k bars; its trades and curve begin those of the full run |
| Engine.FillsAreTheirs | src/backtesting/engine.py:286-352 | every trade and every open leg before any bar, and every trade of the report, the forced close included, is priced leg by leg: with flat rates a buy fills at close * (1 + slippage), a sale at close * (1 - slippage), each charged commission * fill; with a cost model each leg has the model's fill and charge for its own side, close and bar |
| Engine.CostsNeverHelp | src/backtesting/engine.py:286-352 | no trade of a report nets more than its close-to-close move, the forced close included: with flat rates s, c of at least zero, (1 - s) * (1 - c) of at most one and closes of at least zero, no more assumed; with a cost model when its own fills are adverse and its own charges non-negative |
| Counterexamples.ExtremeCostsHelp | src/backtesting/engine.py:286-352 | for any flat rates of at least zero with (1 - s) * (1 - c) above one, both beyond the whole price, a run nets more than its close-to-close move: the bound of `CostsNeverHelp` is exact |
| OosMetrics.MaxDrawdownPct | src/backtesting/walk_forward.py:128-143 | the one-pass loop returns the running-peak drawdown of the whole equity curve |
| OosMetrics.MetricsFromPnls | src/backtesting/walk_forward.py:118-144 | count, return, mean, win rate, profit factor and drawdown of a list of results, empty list included |
| OosMetrics.ValidatedIff | src/backtesting/walk_forward.py:260-317 | VALIDATED exactly when all bars are cleared: 30 trades, positive expectancy and return, consistency above one half, and, when significance is required, a p-value with p * max(1, number of tests) at most the threshold |
| OosMetrics.MoreTestsNeverValidate | src/backtesting/walk_forward.py:298-307 | testing more strategies in one run never turns NOT VALIDATED into VALIDATED; with significance required the bar for the p-value falls in proportion |
| OosMetrics.TenTestsRaiseTheBar | src/backtesting/walk_forward.py:298-307 | one edge with a p-value of 0.04: VALIDATED as the only test, not as one of ten |
| OosMetrics.ConsistencyIsAveraged | src/backtesting/walk_forward.py:342-343 | the aggregate consistency times the number of reports that traded is the sum of their consistencies, and zero when none did |
| OosMetrics.AggregatesArePooled | src/backtesting/walk_forward.py:320-390 | with a common initial capital the trade-weighted figures are those of all trades pooled, and the expectancy and return conditions fail together |
| OosMetrics.RoundingIsConservative | src/backtesting/strategy_registry.py:191-199 | the verdict re-derived from rounded figures is VALIDATED exactly when the unrounded one is and every figure clears its bar by more than half a unit of the last published digit |
| OosMetrics.ThinEdgeIsRoundedAway | scripts/validate_strategy.py:233-260 | a concrete edge that validates unrounded and not once published |
| WalkForward.GenerateTestFolds | src/backtesting/walk_forward.py:106-115 | the loop ends for test windows of at least one bar and yields the specified folds |
| WalkForward.FoldsTileTheData | src/backtesting/walk_forward.py:106-115 | for windows of five bars or more the folds are contiguous from the warm-up, between the smallest fold and the window long, and miss only a tail shorter than max(5, half a window) |
| WalkForward.FoldsAreWindows | src/backtesting/walk_forward.py:106-115 | closed form: as many whole windows as fit after the warm-up, and one shorter fold exactly when the rest is at least max(5, half a window) long |
| WalkForward.TinyWindowsGiveNoFolds | src/backtesting/walk_forward.py:106-115 | windows of one to four bars yield no fold at all |
| WalkForward.FoldsAreDisjoint | src/backtesting/walk_forward.py:106-115 | no bar lies in two folds |
| WalkForward.FindFold | src/backtesting/walk_forward.py:192-195 | the first fold containing a position, or none when no fold does |
| WalkForward.BucketTrades | src/backtesting/walk_forward.py:186-195 | each fold's list is exactly the results entered in it, in order |
| WalkForward.JoinedFoldsAreOneFilter | src/backtesting/walk_forward.py:186-204 | joining the fold lists loses no covered result and counts none twice; for chronological entries it is the chronological list |
| WalkForward.EngineEntriesResolve | src/backtesting/walk_forward.py:240-257 | every engine trade resolves to the first bar of its entry time: its own bar when times differ, in increasing order when the index is ordered |
| WalkForward.OutOfSampleIsExactlyTheCoveredTrades | src/backtesting/walk_forward.py:147-237 | the out-of-sample results are exactly the net results of the trades whose entry time first occurs after the warm-up and before the dropped tail, as a bag; in chronological order when the index is ordered |
| WalkForward.ConsistencyMeansMajority | src/backtesting/walk_forward.py:222-225 | the consistency bar is cleared exactly when at least two folds traded and more than half of them gained |
| WalkForward.RunWalkForward | src/backtesting/walk_forward.py:147-237 | without folds an empty report and no run; otherwise the engine's errors are passed on, or the report describes exactly the attributed results of one engine run, profit factor included, and every fold's figures describe its own results |
| WalkForward.RunOnce | src/backtesting/walk_forward.py:183-195 | the engine's error, or the fold lists that are the specified attribution of its final trades |
| WalkForward.Summarise | src/backtesting/walk_forward.py:197-225 | every figure of every fold, the joined list and the share of gaining folds |
| Eligibility.LiveExecutionIff | src/backtesting/strategy_eligibility.py:445-573 | LIVE execution is allowed exactly when the selected record is LIVE_APPROVED, does not block the regime by its own fields (disabled label, governing performance, allowed labels) and its minimum is reached by the confidence times the weight these fields give; the paper gate has no influence |
| Eligibility.PaperExecutionIff | src/backtesting/strategy_eligibility.py:445-573 | PAPER execution exactly: behind the gate an approved record that, by its own fields, admits regime and confidence; without the gate no record is needed, but a selected one must not be DISABLED and must admit, and a missing version of a filed grain never executes |
| Eligibility.RegimeIsDecidedByFields | src/backtesting/strategy_eligibility.py:59-68 | a record blocks exactly a known regime with a compatible label disabled; or none, and the first label with a performance has policy Block; or none, no performance, and other labels only allowed; the multiplier is 1, 0 or the governing performance's own by the same cases |
| EligibilityDecisions.ChampionIsSelected | src/backtesting/strategy_eligibility.py:396-443 | without a version asked for, the record selected is the leader of the grain, the first of the latest validated, when it is DISABLED or the environment does not trade; otherwise the leading approval of the environment, or the leader when nothing is approved; none without a record of the grain |
| EligibilityDecisions.OneChampion | src/backtesting/strategy_eligibility.py:396-443 | there is never more than one such place in the listing |
| EligibilityDecisions.DecisionOnFields | src/backtesting/strategy_eligibility.py:445-573 | every field of a decision from the selected record and the query alone: registry, pipeline, review, execution, shadow-only and record-only flags, status, version, original, multiplier, adjusted confidence and policy |
| EligibilityDecisions.ReasonNamesItsCause | src/backtesting/strategy_eligibility.py:445-573 | the reason code of a decision is the one whose cause holds, for each of the codes, and no two causes hold at once |
| Eligibility.OnlyPaperAndLiveExecute | src/backtesting/strategy_eligibility.py:591-636 | nothing executes or is reviewed outside PAPER and LIVE, and a DISABLED record stops everything |
| Eligibility.ChallengerUncoversChampionIff | src/backtesting/strategy_eligibility.py:396-443 | a record of a new identity that is neither DISABLED nor approved for the environment changes what is selected exactly when the newest on file is DISABLED and the new one overtakes it: later, or as late and listed before every record that late; then the newest approved record is selected again |
| Counterexamples.ShadowRevivesDisabledStrategy | src/backtesting/strategy_eligibility.py:396-443 | approved at 1, DISABLED at 2: nothing trades; a SHADOW record filed at 3 lets the approved one trade live again |
| Eligibility.ChampionIsStable | src/backtesting/strategy_eligibility.py:396-443 | while the newest record is not DISABLED no such challenger changes the champion for PAPER or LIVE |
| Eligibility.ReevaluationIsStable | src/backtesting/strategy_eligibility.py:359-573 | asking again with a decision's own version and original confidence gives the same decision |
| Eligibility.PutKeepsOnePerIdentity | src/backtesting/strategy_eligibility.py:315-335 | filing replaces the record of its identity and touches no other |
| EligibilityRegistry.StrategyEligibilityRegistry.Register | src/backtesting/strategy_eligibility.py:315-335 | the directory is the old one with the record filed, and the cache is dropped |
| EligibilityRegistry.StrategyEligibilityRegistry.OtherRegisters | src/agents/pre_llm.py:143-143 | another registry object on the same directory may file records at any moment; what this one has cached stays the directory's listing of the moment it was read |
| EligibilityRegistry.StrategyEligibilityRegistry.LoadAll | src/backtesting/strategy_eligibility.py:337-357 | from the cache or from disk, the listing was the directory's less than five seconds ago, whoever wrote since; a reading from disk is kept for exactly five seconds and answers unchanged until then; it is the directory's now when the cache is empty or over, or nobody else has written |
| EligibilityRegistry.StrategyEligibilityRegistry.Find | src/backtesting/strategy_eligibility.py:359-376 | the record of an exact identity in such a listing, if filed |
| EligibilityRegistry.StrategyEligibilityRegistry.EvaluateNow | src/backtesting/strategy_eligibility.py:445-573 | the decision for listings less than five seconds old, and for the directory as it is when nobody else has written; in LIVE it executes exactly on a record of the listing that grants it |
| EligibilityRegistry.DisabledIsObeyedWithinFiveSeconds | src/backtesting/strategy_eligibility.py:337-357 | a DISABLED record that stands since a moment, newest of its grain, is refused by every registry object from five seconds later on, whatever it has cached |
| EligibilityRegistry.LiveRestsOnRecentApproval | src/backtesting/strategy_eligibility.py:337-357 | a LIVE execution rests on a record that was on file, LIVE_APPROVED and granting, less than five seconds before |
| StrategyRegistry.NewestDecides | src/backtesting/strategy_registry.py:282-324 | a newest version that covers the request decides admission alone, by its own verdict, expiry, regimes and symbols, revoking every older pass |
| StrategyRegistry.AdmittedIff | src/backtesting/strategy_registry.py:282-324 | admitted exactly when the first of the newest versions for strategy, horizon and timeframe (or none pinned) passed, has not expired, and names the regime and the symbol asked for in its lists where these are not empty |
| StrategyRegistry.PublishedIsAdmittedIff | src/backtesting/strategy_registry.py:161-219 | the version built from a verdict admits exactly its own strategy, horizon, timeframe, regimes and symbols, while the verdict is VALIDATED and the validity lasts |
| StrategyRegistry.AdmissionOnlyExpires | src/backtesting/strategy_registry.py:79-114 | an admission is never gained by waiting, and needs an unexpired passed version |
| StrategyRegistry.PublishedVersionsAreConservative | src/backtesting/strategy_registry.py:161-219 | a version of any timeframe, horizon, universe and regimes built from rounded aggregates reads VALIDATED only if the unrounded aggregates validated, and only until it expires |
| StrategyRegistry.Registry.FilterAdmitted | src/backtesting/strategy_registry.py:326-345 | splits the names in order into those admitted and those stripped |
| Migration.GroupLegacy | src/backtesting/strategy_eligibility.py:685-690 | the dictionary of lists holds, for every key, exactly the legacy versions that answer for it, in order |
| Migration.MigrationIsConservative | src/backtesting/strategy_eligibility.py:705-735 | a migrated record lets a known regime trade on paper exactly when every legacy version of its group is validated and unexpired, one compatible label is approved by all that approve any, and the group approves some regime or agrees on its horizon |
| Migration.MigratedRecord | src/backtesting/strategy_eligibility.py:710-803 | no migrated record is LIVE_APPROVED or DISABLED, and none counts as an old migration |
| Migration.MigratedOnFields | src/backtesting/strategy_eligibility.py:705-803 | field by field: paper-approved, shadow or unvalidated by the exact standing of its group; minima cut to 0..1, artifact, ML flag and time from the first of the newest versions; the regimes all approving versions share, each allowed in full; migration version 2 |
| Migration.ConflictsMean | src/backtesting/strategy_eligibility.py:710-727 | a group is reported as a conflict exactly when two of its versions disagree on standing, horizon or regimes, or their approvals share no regime |
| Migration.GroupIsWhatBelongs | src/backtesting/strategy_eligibility.py:685-690 | a group is, in order, the versions of its strategy and version pinned to its timeframe, or unpinned when the runtime has it |
| Migration.SafeMeansCommon | src/backtesting/strategy_eligibility.py:721-722 | the safe regimes are those approved by every version that approves any |
| Migration.MigrationResult | src/backtesting/strategy_eligibility.py:696-806 | left alone, a migration leaves on file, identity by identity: whatever stood there unless a migration before version 2 wrote it, the conservative record for every other migrated group, and nothing else changed, whatever the order of groups and the place of new files |
| Migration.SecondMigrationIsIdle | src/backtesting/strategy_eligibility.py:696-708 | a second migration at any later moment changes nothing and creates nothing |
| Migration.Migrate | src/backtesting/strategy_eligibility.py:670-809 | while other writers file what they like before and after each lookup, every group is decided on a listing less than five seconds old, and these listings determine what is written and reported; left alone it leaves exactly that directory and report |
| EligibilityRuns.EnsurePlaceholders | src/backtesting/production_strategy_registration.py:16-67 | while other writers file what they like before and after each lookup, every grain is decided on a listing less than five seconds old and ends up with a record; left alone, only SHADOW records of grains without any are added and nothing on file changes |
| EligibilityRuns.PlaceholderOnlyObserves | src/backtesting/production_strategy_registration.py:34-62 | a placeholder is observed in any regime at any confidence outside trading environments, trades on paper only with the paper gate off and never opens LIVE |
| EligibilityRuns.OperatorsAreRespectedIff | src/backtesting/strategy_eligibility.py:696-807 | however lookups and writes interleave, a registered record stands until it is registered anew, exactly unless automation that had looked before it was filed, and saw nothing that holds it back, writes after it; then an automated record is on file in its place, approved for paper at most |
| Counterexamples.LateMigrationOverwritesDisabled | src/backtesting/strategy_eligibility.py:696-807 | a gate looks version 1 up before it is filed, the operator files it DISABLED, the gate writes what it had decided: version 1 is approved and executes on paper |
| EligibilityRuns.FilesAreAccountedFor | src/backtesting/strategy_eligibility.py:315-335 | after any such run a record that is LIVE_APPROVED or DISABLED is the one registered last under its identity, and no identity once registered is ever lost |
| EligibilityRuns.MigratedStep | src/backtesting/strategy_eligibility.py:696-807 | the write of a group decided on an earlier state of a run is one step of that run |
| EligibilityRuns.PlacedStep | src/backtesting/production_strategy_registration.py:30-60 | so is the write of a placeholder |
| EligibilityRuns.MigrationUncoversChampionIff | src/backtesting/strategy_eligibility.py:396-443 | after any run a migrated version, no operator acting, changes what is selected for LIVE exactly when the newest on file is DISABLED and the migrated one overtakes it, whatever its lookup had seen |
| Counterexamples.MigrationRevivesDisabledStrategy | src/backtesting/strategy_eligibility.py:396-443 | approved for LIVE at 1, DISABLED at 2, both by an operator; a migration of version 3 lets version 1 execute live again |
| EligibilityRuns.LiveSafety | src/backtesting/strategy_eligibility.py:445-573 | after any run of registrations, migrations and placeholders, their lookups and writes interleaved in any way, LIVE executes only on a record registered LIVE_APPROVED and not replaced since, regime not blocked, adjusted confidence at its minimum, paper gate irrelevant |
| VerdictCache.BoundedReuse | src/agents/candidate_cache.py:42-123 | candidates with one fingerprint agree on symbol, identity, evidence on both sides, entry state, descriptive text, eligibility status and policy, were asked under one regime and context version, and have ML probability, expected R and entry score within one step and entry prices within one material move, presence included |
| VerdictCache.AlikeShareFingerprint | src/agents/candidate_cache.py:42-123 | the other direction: candidates that agree on those fields, their evidence in any order, and whose measures are each within half a step of one multiple do share a fingerprint; nothing else prevents a reuse |
| VerdictCache.MeasuresAreFirstGiven | src/agents/candidate_cache.py:56-71 | the probability, the expected R and the score are the first given ones of their sources in order, a score of at most 1 counting as a fraction |
| VerdictCache.PricesTogether | src/agents/candidate_cache.py:31-39 | prices in one bucket differ by at most the factor 1 + bps/10000 |
| VerdictCache.BucketIsNearest | src/agents/candidate_cache.py:19-28 | a bucket is the multiple of the step nearest to the value, at most half a step away, ties going to the even multiple |
| VerdictCache.CandidateVerdictCache.Get | src/agents/candidate_cache.py:230-241 | returns the unexpired verdict under the fingerprint or nothing, removes an expired one, and counts one hit or one miss |
| VerdictCache.CandidateVerdictCache.Set | src/agents/candidate_cache.py:243-245 | the verdict is filed under its own fingerprint and nothing else changes |
| VerdictCache.CandidateVerdictCache.Clear | src/agents/candidate_cache.py:247-251 | entries and counters are gone |
| VerdictCache.CandidateVerdictCache.HitRate | src/agents/candidate_cache.py:253-261 | a fraction that times the lookups gives the hits, zero before any lookup |
| SignalValidation.SortedIsOrderedPermutation | src/agents/signal_validation.py:407-407 | the sorted queue holds the same candidates, higher priority first, and among equal priorities by identifier in lexicographic order |
| SignalValidation.SortedIsStable | src/agents/signal_validation.py:407-407 | candidates of one priority and one identifier keep their order of arrival |
| SignalValidation.ParseReviews | src/core/qwen/policy.py:238-295 | a reply parses exactly when every item is well formed and names each expected candidate once and nobody else |
| SignalValidation.Triage | src/agents/signal_validation.py:354-405 | inactive strategies are rejected, clear candidates approved, all others queued |
| SignalValidation.LookUp | src/agents/signal_validation.py:408-421 | one pass splits the queue into cached, reviewed within capacity and deferred candidates |
| SignalValidation.LookupsDoNotInterfere | src/agents/signal_validation.py:412-413 | dropping expired entries never changes what a later candidate finds |
| SignalValidation.Apply | src/agents/signal_validation.py:516-542 | each reviewed candidate is completed by its own review, which is cached under its own fingerprint |
| SignalValidation.Settle | src/agents/signal_validation.py:422-434 | the listed candidates are completed with one given validation |
| SignalValidation.FailClosed | src/agents/signal_validation.py:546-562 | every reviewed candidate still open is rejected, no completed one is touched |
| ReviewGuarantees.Validate | src/agents/signal_validation.py:329-599 | whatever Qwen does and whatever identifiers the candidates carry, validated and rejected are the approved and the other places of the batch's outcome in input order; the cache moves on as specified |
| ReviewGuarantees.FateReached | src/agents/signal_validation.py:354-562 | with distinct identifiers every candidate ends up with exactly the validation its triage, cache entry, place in the queue and the reply give it |
| ReviewGuarantees.FateOnFields | src/agents/signal_validation.py:354-562 | with distinct identifiers, the validation of a candidate on plain fields: inactive rejected, clear approved, a live cached verdict followed in handling and confidence, left over deferred, an exact reply followed by the candidate's own item with its confidence cut to 0..1, everything else rejected |
| ReviewGuarantees.PlacesAreFilled | src/agents/signal_validation.py:564-565 | for any identifiers every place of the batch holds a candidate of the batch under that identifier, changed by its validation alone, and an approval there was earned by that candidate |
| ReviewGuarantees.OwnPlacesIff | src/agents/signal_validation.py:564-565 | candidates that differ in something besides their validation stand at their own places with their own fates exactly when their identifiers differ |
| ReviewGuarantees.BatchIsPartitioned | src/agents/signal_validation.py:564-599 | validated and rejected together have the length and the identifiers of the batch; with distinct identifiers every candidate is in exactly one of them, once |
| ReviewGuarantees.ApprovalIsEarned | src/agents/signal_validation.py:369-599 | with distinct identifiers, validated exactly when one of its strategies is active and the candidate is clear by policy, or held in the cache by an unexpired verdict under its own fingerprint to continue, with caution or without, or not held and named in an exact reply to continue |
| ReviewGuarantees.CapacityIsRespected | src/agents/signal_validation.py:408-434 | misses never exceed the capacity, nobody is deferred while there is room, every reviewed candidate has a higher priority than a deferred one, or the same and an identifier no later |
| ReviewGuarantees.OutcomeAt | src/agents/signal_validation.py:564-565 | the batch's outcome holds every input candidate at its place, changed only by its own validation |
| ReviewGuarantees.CacheMovesOn | src/agents/signal_validation.py:412-542 | fingerprint by fingerprint: an answered review files what an item of the reply says about a reviewed candidate with that fingerprint, confidence cut to 0..1, for the time to live from the reply; a lookup removes what it finds expired, everything else stays |
| ReviewGuarantees.FailuresReject | src/agents/signal_validation.py:516-562 | a failed or inexact reply rejects every candidate sent for review and caches nothing |
| ReviewGuarantees.VerdictsAreGiven | src/agents/signal_validation.py:516-542 | over runs of batches every cached verdict was given by Qwen in some batch to a candidate with that fingerprint |
| ReviewGuarantees.ReuseIsEarned | src/agents/signal_validation.py:412-417 | a candidate approved from the cache has an earlier counterpart Qwen approved, same fingerprint, within the time to live |
| ReviewGuarantees.ReuseIsBounded | src/agents/candidate_cache.py:64-122 | under fixed settings the two candidates agree on symbol, identity, evidence, entry state and text, were asked under one regime and context version, and are within one step in every measured field |
| Counterexamples.SharedIdentifiersCollide | src/agents/signal_validation.py:564-565 | a batch of two candidates under one identifier, one of an active and one of a dormant strategy: whatever is cached, the active one is validated in both places and the other is in neither list |
| ReviewTokens.Allocate | src/agents/signal_validation.py:601-616 | the tokens of a call split by strategy and by timeframe give each exactly the portions of its own candidates and sum to the total for any identifiers; the split by candidate never exceeds it and, with a token at least for everyone, sums to it exactly when the identifiers differ; two shares differ by one token at most, the first ones having the larger |
| RiskCompliance.KillConditionsFailEverySignal | src/agents/risk_compliance.py:300-309 | when the day's result is at most the negated loss limit, or maxDrawdown * 100 is at least maxDrawdownPct * capital, every candidate fails the risk rules, backstop enforced or not |
| RiskCompliance.KillSwitchIff | src/agents/risk_compliance.py:642-681 | the kill switch is on exactly when it was thrown, the day's result is at most the negated loss limit, or maxDrawdown * 100 reaches maxDrawdownPct * capital, zero drawdown being taken without capital |
| RiskCompliance.FailuresNameTheirRules | src/agents/risk_compliance.py:263-544 | the blocking failures of a candidate at the final gate name exactly the rules it does not meet, each rule stated on the fields of candidate, portfolio, limits and day |
| RiskCompliance.FinalGateIff | src/agents/risk_compliance.py:167-260 | a candidate passes the final gate exactly when it meets every one of these rules |
| RiskCompliance.LowConfidenceIff | src/agents/risk_compliance.py:431-444 | the one soft rule warns exactly when the confidence, averaged with the one of the review where that is not zero, is below one half |
| RiskCompliance.MissingCapitalIsAssumed | src/agents/risk_compliance.py:287-287 | without a capital figure every rule and the kill switch decide as for 100000 |
| RiskCompliance.ExposureIsSum | src/agents/risk_compliance.py:361-365 | the exposure is a sum over positions, at the current price, or at cost when that is missing or zero |
| RiskCompliance.SectorIsSum | src/agents/risk_compliance.py:586-617 | so is the value of a sector, over its own positions, but there a current price of zero counts as zero |
| RiskCompliance.OpinionsDoNotBlock | src/agents/risk_compliance.py:431-444 | no confidence and no review changes what blocks a trade |
| RiskCompliance.DecisionNeverDrifts | src/agents/pre_llm.py:84-107 | assessing a candidate that carries its decision gives the same decision for any number of repetitions: a multiplier never compounds |
| RiskCompliance.RiskComplianceNode | src/agents/risk_compliance.py:167-260 | every candidate is approved or rejected, with its blocking failures (`FailuresNameTheirRules`), and carries the decision it was checked with |
| RiskCompliance.ApprovalKeepsLimits | src/agents/risk_compliance.py:346-476 | a portfolio grown one approved trade at a time, sized by quantity or by percentage, keeps distinct symbols and its limits on positions, positions per sector and total exposure |
| RiskCompliance.PositionSizeAfterApproval | src/agents/risk_compliance.py:311-320 | an approved trade sized by its percentage keeps any position-size limit that is not negative; one that carries a quantity keeps it exactly when its notional fits |
| Counterexamples.QuantityEvadesPositionLimit | src/agents/risk_compliance.py:311-320 | a candidate of stated size 0% and quantity 5 that passes the final gate and opens 50% of the capital where 40% is the limit |
| RiskCompliance.SectorAfterApproval | src/agents/risk_compliance.py:446-459 | an approved trade found its sector within the limit and leaves it there exactly when the sector's value and the trade's together fit; either way the sector stays within the total exposure limit when prices are non-negative |
| Counterexamples.SectorIsOverfilled | src/agents/risk_compliance.py:446-459 | a candidate that passes the final gate and leaves its sector at 40% where 30% is the limit |
| RiskCompliance.BatchKeepsSymbolsApart | src/agents/risk_compliance.py:198-233 | executing a whole approved batch keeps one position per symbol exactly when no two input candidates that pass, each on its own, share a symbol: the batch is checked against the portfolio before it |
| RiskCompliance.BatchKeepsLimits | src/agents/risk_compliance.py:198-233 | executing it keeps all limits exactly when the passing input candidates fit: symbols apart, positions plus candidates within the maximum, every sector's count and the summed notionals within theirs |
| Counterexamples.BatchBreaksLimits | src/agents/risk_compliance.py:198-233 | two candidates in different symbols that both pass and together break the limits on positions, positions per sector and exposure |
| RiskCompliance.TwinsAreBothApproved | src/agents/risk_compliance.py:198-233 | any passing candidate proposed twice is approved twice |
| Counterexamples.TwinsBreakSymbols | src/agents/risk_compliance.py:198-233 | a concrete passing candidate traded twice in one symbol |
| PreLlmGate.PreLlmGateResult.Record | src/agents/pre_llm.py:45-53 | one more rejection, counted under each of its rules |
| PreLlmGate.PreLlmGateResult.Consider | src/agents/pre_llm.py:145-228 | one candidate through the stages: passed with its decision attached, or rejected at its first failing stage, every stage it reached counted |
| PreLlmGate.FilterCandidates | src/agents/pre_llm.py:110-230 | passes and rejects as specified; an active kill switch, then a spent budget, reject the whole batch |
| PreLlmGate.FunnelNarrows | src/agents/pre_llm.py:145-230 | the stage counts only narrow, registry and regime counts agree, shadow and passed candidates fit in them, passed and rejected make up the batch |
| PreLlmGate.GateIff | src/agents/pre_llm.py:145-228 | a candidate passes exactly when its timeframes were not refuted, its entry state is missing or one of the actionable ones, its decision allows pipeline and review, and with that decision written into it it meets every risk rule |
| PreLlmGate.StopsNameTheirRules | src/agents/pre_llm.py:145-228 | a stopped candidate is given exactly the stage that stopped it, or past the stages exactly the risk rules it does not meet |
| PreLlmGate.PassesWithDecision | src/agents/pre_llm.py:84-107 | what passes carries its decision, version, original and adjusted confidence, and is otherwise what came in |
| TradingCycle.RunTradingCycle | src/agents/graph.py:236-435 | raises exactly on a mode other than mock and market_paper, then on a namespace other than the mode's own, then on a candidate that declares another mode; otherwise the lists are those specified, for any identifiers, and the verdict cache moves only when validation is reached |
| TradingCycle.CycleConserves | src/agents/graph.py:320-423 | each identifier occurs in approved, refused and risk-rejected together as often as in the input, less what passed the first gate when the regime router ends the cycle |
| TradingCycle.NothingIsLostIff | src/agents/graph.py:120-137 | nothing is lost exactly when the router does not end a cycle with candidates past the first gate for low regime confidence |
| TradingCycle.BarredAreRefused | src/agents/signal_validation.py:125-150 | past the gate exactly the candidates whose decision allows pipeline and review, or who carry none, are reviewed; the others are refused |
| Counterexamples.LowConfidenceLosesCandidate | src/agents/graph.py:120-137 | one candidate past the first gate and a regime confidence of 0.2: it is in none of the three lists, whatever Qwen would have said |
| TradingCycle.ExecutedTradesPassedBothGates | src/agents/graph.py:362-423 | whatever Qwen answers, an executed trade passed both deterministic gates and earned its approval in between; at both the day's result was above the negated loss limit and maxDrawdown * 100 below maxDrawdownPct * capital, and at the first the switch was not thrown |
| TradingCycle.ExecutedTradesAreTradable | src/agents/risk_compliance.py:263-544 | whatever Qwen answers, an executed trade meets every blocking rule of the final gate on plain fields: positions, exposure, sector share and count, correlation and duplicate, stated size, reward, stop distance, daily trades, loss and drawdown, trading hours, mode; it failed neither timeframe confirmation nor entry state and carries a decision that allows execution |
| TradingCycle.LiveTradesAreBacked | src/agents/risk_compliance.py:508-544 | in LIVE an executed trade of a named strategy is backed by a LIVE_APPROVED record on file that admits its regime and confidence |
| TradingCycle.LiveTradesWereRegistered | src/backtesting/strategy_eligibility.py:315-335 | end to end: after any run of the registry, interleaved in any way, the record behind a LIVE trade was registered LIVE_APPROVED and not replaced since |
| TradingCycle.GatesAgree | src/agents/pre_llm.py:213-227 | with the world unchanged a candidate past the first gate passes the final one under any validation |
| TradingCycle.FinalGateFollowsTheClock | src/agents/risk_compliance.py:385-405 | with only the clock moving, the final gate executes every validated candidate inside trading hours and none outside |
| PaperLedger.IntentsAreImmutable | src/core/persistence.py:448-603 | under any calls an intent stays on file with its order, symbol, side and time |
| PaperLedger.ExactlyOnce | src/core/persistence.py:448-603 | any run ends in the tables of its effective calls alone, in which every intent is filled or closed once at most |
| PaperLedger.RetriesAreHarmless | src/core/persistence.py:470-492 | repeating a filled or closed intent is a duplicate and changes nothing, however much happened in between |
| PaperLedger.ClosedStaysClosed | src/core/persistence.py:448-570 | a closed position stays at quantity zero however often fills already on file are replayed, the one that opened it included |
| PaperLedger.OrderHasItsWriters | src/core/persistence.py:448-603 | after any run an order is on file exactly when it was or a call wrote it; its payload and status are those of the last call that took effect, filled for fills and closes, its identifier, symbol, side and time those it was first filed with |
| PaperLedger.PositionHasItsWriters | src/core/persistence.py:310-570 | after any run the quantity, payload and time of a position are those of the last call that wrote it, zero after a close; its symbol is the first one |
| PaperLedger.CloseIsAtomic | src/core/persistence.py:507-570 | a close files its order as filled, empties its position and clears the rejection of its decision, each column stated, and touches nothing else; or it leaves every table as it was |
| PaperLedger.FillIsAtomic | src/core/persistence.py:448-505 | a fill files its order as filled and its position, each column stated, and touches nothing else; or it leaves every table as it was |
| PaperLedger.DecisionIsSaved | src/core/persistence.py:276-308 | a saved decision takes action, rejection and payload from the call and keeps the signal, symbol and time it was first filed with |
| PaperLedger.MarketsAreIsolated | src/core/persistence.py:81-98 | each market's tables are what its own calls make of them, however other markets' calls interleave |
| PaperLedger.SchemaBoundTradingRepository.constructor | src/core/persistence.py:197-222 | creates the market's empty tables if absent and leaves existing ones alone |
| PaperLedger.Open | src/core/persistence.py:197-204 | refuses exactly the engines that are not PostgreSQL, before touching the database |
| PaperLedger.SchemaBoundTradingRepository.PersistPaperFill | src/core/persistence.py:448-505 | one transaction on this market's tables, answered false on a duplicate |
| PaperLedger.SchemaBoundTradingRepository.PersistPaperClose | src/core/persistence.py:507-570 | one transaction, rolled back with an error when the position is missing |
| PaperLedger.SchemaBoundTradingRepository.PersistOrder | src/core/persistence.py:572-603 | a new order, or a new status and payload for an existing one |
| PaperLedger.SchemaBoundTradingRepository.PersistPosition | src/core/persistence.py:310-339 | a new position, or all but the symbol of an existing one |
| PaperLedger.SchemaBoundTradingRepository.PersistDecision | src/core/persistence.py:276-308 | a new decision, or action, reason and payload of an existing one |
| Candles.NormalisedMeans | src/core/candles.py:105-114 | a normalised frame is in increasing time, holds usable bars of the frame, one for every time of a usable bar, and exactly the usable bars when their times differ, however the sort orders bars of one time |
| Candles.IngestOverlays | src/core/candles.py:228-309 | an ingest overwrites exactly its own keys with its own rows, whatever the frame's order and the chunk size; all other series and times stay |
| Candles.ReadBackAsWritten | src/core/candles.py:228-277 | at the time of every usable bar a usable bar of that time reads back with its prices, its volume cut to a whole number of at least zero, its labels, and complete exactly when its period was over at ingestion; that very bar when times differ |
| Candles.ChunksWriteEverything | src/core/candles.py:275-276 | any positive chunk size writes what one statement would |
| Candles.EverythingIsWrittenIff | src/core/candles.py:275-276 | into an empty store everything is written exactly when the chunk size is at least one or there is nothing to write |
| Candles.WhatIsWritten | src/core/candles.py:275-276 | for every chunk size: a positive one writes everything, a negative one all but the last record of a list longer than it, by overlapping slices, and any other nothing |
| Candles.LastWriterWins | src/core/candles.py:279-309 | after any overlapping ingests every key holds what the last ingest mentioning it wrote |
| Candles.CompleteStaysComplete | src/core/candles.py:247-273 | while the clock does not run backwards a complete candle stays complete |
| Candles.DurationReadsTheName | src/core/candles.py:36-45 | the period of a timeframe is the number in its name times the unit that follows, for each of the known timeframes, and nothing for any other |
| CandleStore.Store.UpsertFrame | src/core/candles.py:228-277 | normalises, builds and writes chunk by chunk, repeated times included, and returns the number of bars kept |
| CandleStore.Store.UpsertRecords | src/core/candles.py:279-309 | one upsert statement: each record replaces the row under its key |
| CandleStore.Store.LoadFrame | src/core/candles.py:311-365 | nothing exactly when no stored candle of the series is inside the window and complete where asked; otherwise the newest max(1, bars) candles of the full ascending load, with the rows on file |
| CandleStore.Store.Coverage | src/core/candles.py:367-393 | first, last and count agree with the full load |
| CandleStore.FullLoadIsUnique | src/core/candles.py:345-351 | there is one full load: strictly ascending times and a fixed set of rows leave no choice |

## Left out

- Sharpe ratio and the t-test: square roots and the t distribution; the p-value is an optional real input.
- Engine.BacktestEngine.CalculateMetrics: the Sharpe ratio and the text fields of a result are not stated.
- Engine.BacktestEngine.Run: the Sharpe ratio, a square root, is not stated; neither is the percentage return of trades made on zero capital, which is infinite or no number. Column names and bars are taken apart; the bars are read only when the columns are there.
- WalkForward.RunWalkForward: states consistency for a positive initial capital, the only one for which gain and return agree in sign.
- SingleFlight.SafeInEveryInterleaving: a failure while copying a prediction inside the lock is not a step of its own.
- EligibilityRegistry.StrategyEligibilityRegistry.Register: file names, JSON and unreadable files; distinct identities are taken to get distinct files, and where a new file lands in the listing is a parameter.
- EligibilityRegistry.StrategyEligibilityRegistry.LoadAll: reads the directory at one moment; a write that falls between the files of one reading is not modelled.
- ML qualification of a record (`ml_qualified`) and the messages of decisions.
- Migration.Migrate: needs non-empty names and versions, which record construction demands anyway; descriptive metadata of migrated records is not modelled, groups may come in any order, and the legacy listing is read at one moment.
- StrategyRegistry.PublishedVersionsAreConservative: owner, parameters and data set of a version are not modelled.
- VerdictCache.BoundedReuse: a ranking entry that is present but null, and values that do not parse, count as absent.
- SignalValidation.ParseReviews: works on the list of items; finding the JSON in the reply text is not modelled.
- ReviewGuarantees.Validate: the clock is read once for the lookups and once for the reviews.
- ReviewGuarantees.FateReached: needs distinct identifiers, since completed candidates are kept by identifier; `OwnPlacesIff` says that this is exact, and `PlacesAreFilled` what holds without them.
- The review policy itself (which candidates need review, and their priority) is a parameter; the legacy batch validation and the fallback without agents are not modelled.
- The shadow evaluation attached to a shadow candidate, decision chains, logging and tracing.
- RiskCompliance.ApprovalKeepsLimits: a candidate sized by percentage opens a position of the value the gate projects for it; rounding to whole shares happens at execution, which is not part of this model.
- TradingCycle.RunTradingCycle: the shared-context path with cost optimisation and agents enabled; support agents, regime classification and strategy selection enter as the regime, its confidence and the set of active strategies.
- PaperLedger.SchemaBoundTradingRepository.PersistPaperFill: follows the in-code table definitions, where the intent is the key of an order; a database provisioned by migrations/001_market_schema_isolation.sql:108 makes the order identifier a key as well, and there a reused order identifier would abort a fill.
- PaperLedger.SchemaBoundTradingRepository.PersistPaperClose: SQL text, JSON redaction and value normalisation are left out; signals, predictions and the strategy table are plain upserts and are left out too, as are the queries.
- CandleStore.Store.UpsertFrame: what the sort makes of bars of one time is a parameter, because it is not stable; missing columns, time zones and column types are not modelled.
- LLM clients, prompts, sentiment and news agents, Telegram, web, schedulers, settings, and the training side of the models: input and output, or configuration.
