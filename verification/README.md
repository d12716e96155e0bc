# Verified model of the trading-research backend

The backend is a set of small deterministic cores behind an HTTP service: two backtest engines and the strategies and
validators around them, a real-time quote subscription protocol, point-in-time corporate-action adjustment with its
append-only store, two rate limiters, and the candle, feature and portfolio arithmetic that feeds them. This project
restates those cores in Dafny, with the same branches, bounds and error conditions, and proves what they are for.

`dafny verify dfyconfig.toml` checks everything. Loops and objects of the source are methods and classes here, each tied
to a function of its inputs or of the old state; what the source promises is then proved about those functions.

## How it is organised

| files | what they model |
|---|---|
| `Core`, `Sorting`, `OrderedDicts`, `Market` | result types, rounding rules, Python's stable sort and insertion-ordered dict, candles |
| `Patterns`, `PatternMeaning`, `Strategies` | the chart-pattern detector, what its reports say of the candles, and the strategies, among them the one with an incremental cache |
| `EventEngine`, `EventLog`, `Accounting`, `TradeGrammar`, `NoLookAhead` | the event-driven engine as a loop over a state, the law of its event list, and what else holds after every bar of every run |
| `VectorEngine`, `VectorReturns`, `EngineAgreement`, `WalkForward` | the vectorized engine, what it reports in terms of candles and rates, when the two engines agree, and walk-forward validation over either |
| `KisSource`, `QuoteHub`, `HubCoverage` | the websocket source's subscription protocol, and hub, streams and source as one system of interleaved steps |
| `CorporateActions`, `ForwardAdjustment`, `BackwardAdjustment`, `RevisionStore` | both adjustment engines, and the table of revisions and approvals behind them |
| `RateLimit`, `AdmissionLog`, `LimiterRuns`, `SweepWindows`, `RedisLimiter` | both sliding-window limiters against one admission log |
| `DataQuality`, `CandlePipeline`, `CandleAggregation`, `PurgedSplit`, `Portfolio` | candle cleaning and aggregation, purged splits over feature rows, concentration of a portfolio |

Protocol models take a step from one suspension point of the source to the next. In `KisSource` and `QuoteHub` a lock
body, an unbounded queue's `put` and the snapshot-then-drain after a connect contain no suspension and are one step each;
sends, queue reads, thread hand-offs and connection closes separate steps, and a run is any sequence of such steps.

## What the code does not guarantee

Seven expectations turned out to need a condition. Each comes with a run or an input on which it fails and with the
condition under which it holds and no other.

* Cash can become negative. The cost model bounds commission and tax one by one; cash is safe on all runs exactly when
  the two add to at most one (`Accounting.CashSafeExactly`, with `Accounting.Overdraft` as the failing run).
* The in-process limiter's periodic sweep prunes every key with the window of the call that triggered it. All decisions
  match the full admission log exactly when all keys share one window (`SweepWindows.SweepsHarmlessExactly`, with
  `SweepWindows.ShorterWindowLoses` as the failing run).
* Unsubscribing a symbol whose server key another local symbol shares drops the other's feed. A step keeps the connection
  on track exactly when it does not do that (`KisSource.StepTracksExactly`, with `KisSource.SharedKeyLosesFeed` as the
  failing run); it cannot happen while the resolver answers for the symbol it was asked about
  (`KisSource.RunKeepsInvariant`).
* A hub stream can listen to a symbol that nobody subscribes upstream (`QuoteHub.ListeningWithoutSource`). Every listening
  stream stays covered through a run exactly when no subscribing stream fails or closes while another stream holds its
  symbol (`HubCoverage.CoveredExactly`); hub and source then hold the same symbols once nothing is subscribing. That every
  upstream symbol is in the hub holds always (`QuoteHub.RunBalanced`).
* The two backtest engines hold the same position at every bar exactly when each waiting order, seen before it executes,
  fits: cash and volume allow one share of a buy, and volume allows all of a sell
  (`EngineAgreement.AgreeExactlyWhenOrdersFit`, with `EngineAgreement.ThinBarDisagrees` as the failing run).
* A trailing window stands for the whole history exactly when it still shows a malformed candle or there is none
  (`Patterns.WindowAgreesExactly`, with `Patterns.WindowMissesMalformed` as the failing history).
* What was known at a time can change afterwards: the revision store takes rows that were known long ago. A listing stays
  as it was exactly when no appended row is backdated to it (`RevisionStore.PastIsFixedExactly`, with
  `RevisionStore.BackdatedSaveChangesPast` as the failing save).

Two smaller observations. An order event carries the next bar's timestamp, so it is the one thing in a run that depends
on the bar after the one just closed; `NoLookAhead.NoLookAhead` compares everything else. And once there are ten rows a
fold, the purged splitter's rounding leaves the newest `rows mod n_splits` rows untested (`PurgedSplit.UntestedRows`).

## Model

| member | source | states |
|---|---|---|
| Patterns.FindLocalExtrema | backend/app/patterns/engine.py:248-258 | the scan returns exactly the indices that no neighbour within two candles beats, in ascending order |
| Patterns.ConfirmedDouble | backend/app/patterns/engine.py:202-246 | the nested scan settles on the latest confirmed pair (right shoulder first, then left), and on none only when no pair qualifies |
| Patterns.FindDoubleIsLatest | backend/app/patterns/engine.py:202-246 | the same for the searching functions, over every pair of extrema |
| Patterns.BreakoutOfTail | backend/app/patterns/engine.py:153-188 | breakout patterns depend on the last 21 candles only |
| Patterns.LatestOfTail | backend/app/patterns/engine.py:46-151 | candlestick patterns depend on the last two candles only |
| Patterns.WindowSuffices | backend/app/patterns/engine.py:17-36 | on an ascending history, analysing any trailing window of 60 or more gives the patterns of the whole history when all candles are valid, and the whole history raises when one is not |
| Patterns.WindowAgreesExactly | backend/app/patterns/engine.py:17-45 | window and history give the same result, errors included, if and only if the window shows a malformed candle or the history has none |
| Patterns.WindowMissesMalformed | backend/app/patterns/engine.py:17-45 | a history that raises while its window does not |
| PatternMeaning.ReportInOrder | backend/app/patterns/engine.py:17-36 | a report lists higher confidences first and breaks ties by name |
| PatternMeaning.RankIsAlphabetical | backend/app/patterns/engine.py:27 | which of two names comes first is their order as text |
| PatternMeaning.ReportNamed | backend/app/patterns/engine.py:46-246 | a reported pattern has the direction its name has, and the confidence or the range of confidences its name allows |
| PatternMeaning.ReportedExactly | backend/app/patterns/engine.py:120-246 | a range breakout is reported if and only if the last close is above every high (below every low) of the twenty candles before it; an engulfing if and only if the last body reverses and covers the one before it; a double if and only if two peaks (troughs) 5 to 35 candles apart lie within 3% of their mean and the last close is beyond everything between them |
| PatternMeaning.CandidateExactly | backend/app/patterns/engine.py:202-258 | the pairs the scan may confirm are those peaks or troughs, no others |
| PatternMeaning.ShowsExactly | backend/app/patterns/engine.py:46-118 | the body and shadow conditions under which a last candle is a doji, a hammer or a shooting star, each both ways |
| PatternMeaning.MirrorSwapsShapes | backend/app/patterns/engine.py:46-118 | turned upside down, a hammer is a shooting star, a shooting star a hammer, and a doji a doji |
| PatternMeaning.BreakoutStrength | backend/app/patterns/engine.py:153-188 | a breakout's confidence, from how far the close stands beyond the range it leaves |
| PatternMeaning.DoubleStrength | backend/app/patterns/engine.py:202-246 | a double's confidence, from how little its two shoulders differ |
| Strategies.DecideFollows | backend/app/backtest/strategies.py:72-83 | on any window: if some directional pattern of enough confidence is beaten by no other (confidence first, then name), the signal is 1 exactly when that pattern points up; if there is none, the signal stays as it was |
| Strategies.ScratchFollows | backend/app/backtest/strategies.py:72-83 | so every row of the signals follows its own window, and a row without a decision repeats the row before it, 0 at the first |
| Strategies.CrossExactly | backend/app/backtest/strategies.py:34-37 | the cross signal is 1 exactly when the slow mean has its candles and the fast mean is above it |
| Strategies.CrossFollowsTrend | backend/app/backtest/strategies.py:34-37 | once the closes have crossed a level upward, the fast mean's candles above it and the earlier ones not, the signal is 1; once downward, 0 |
| Strategies.AnyLongWindow | backend/app/backtest/strategies.py:45-83 | any two windows of at least 60 give the same signals on a well-formed frame |
| Strategies.WindowMatchesHistory | backend/app/backtest/strategies.py:72-83 | each windowed signal is the one the full history up to that row decides |
| Strategies.CommonPrefix | backend/app/backtest/strategies.py:59-70 | what the cache holds for the rows shared with the old frame is right for the new one |
| Strategies.PatternReferenceStrategy.constructor | backend/app/backtest/strategies.py:45-54 | a new strategy has an empty, valid cache |
| Strategies.PatternReferenceStrategy.Signals | backend/app/backtest/strategies.py:56-83 | whatever frames came before, extended, shortened or rewritten, the result is that of an empty cache, also when an analysis raises part-way; and every row of an answer follows the strongest directional pattern of its window, or else the row before it |
| Strategies.Strategy.Signals | backend/app/backtest/strategies.py:15-83 | every strategy object answers as its function of the frame says |
| Strategies.MovingAverageCausal | backend/app/backtest/strategies.py:34-37 | a row's cross signal needs only the rows up to it |
| Strategies.PatternReferenceCausal | backend/app/backtest/strategies.py:56-83 | so does the cached strategy's |
| Strategies.ActivationCausal | backend/app/backtest/validation.py:18-27 | wrapping a causal strategy in an activation keeps it causal |
| EventEngine.Execute | backend/app/backtest/event_engine.py:192-341 | one order's cash, shares, trades and events, for fills, partial fills and all three rejections; `EventLog` says what these must be without naming the function |
| EventEngine.OpenBar | backend/app/backtest/event_engine.py:65-92 | the open: market event, then the waiting order |
| EventEngine.CloseBar | backend/app/backtest/event_engine.py:95-156 | the close: signal, next order, forced close |
| EventEngine.Loop | backend/app/backtest/event_engine.py:63-170 | the loop computes the run state bar by bar, showing the strategy only the bars closed so far, cache and all |
| EventEngine.Run | backend/app/backtest/event_engine.py:34-170 | the three input errors in order, then the loop over the sorted frame; what the finished run reports is `EventLog.RunIsLawful` |
| EventEngine.AfterMonotone | backend/app/backtest/event_engine.py:63-96 | a run that gets through its bars got through every shorter stretch of them |
| EventLog.RefusedExactly | backend/app/backtest/event_engine.py:40-52 | each input error exactly: fewer than two candles; otherwise a price that is not positive; otherwise two candles at one time |
| EventLog.LogIsLawful | backend/app/backtest/event_engine.py:63-170 | after any count of bars of any run, the event list opens those bars in order, signals what the strategy wants of each, obeys the law of its kind entry by entry (an order for every change signalled, an answer to every order at the next open, a partial fill announced before its fill, each rejection for its reason), and replays to the cash, the shares and the waiting order the loop carries; each trade records one fill |
| EventLog.RunIsLawful | backend/app/backtest/event_engine.py:34-170 | the same of the finished run, whose last bar leaves nothing waiting |
| EventLog.EntryIsLawful | backend/app/backtest/event_engine.py:192-341 | a lawful list is lawful at each entry, against the ledger replayed from the entries before it |
| EventLog.FillsObeyLimits | backend/app/backtest/event_engine.py:206-352 | every fill of every run: at the open of its bar (the close, when forced), with the fees the rates give; at most the bar's volume times the participation rate, and all that was requested or within one share of that; a buyer requests as many shares as the cash pays for, slippage and commission included, and not one more; a seller requests all |
| EventLog.ExecutedPosts | backend/app/backtest/event_engine.py:192-341 | one execution, from any lawful book, keeps it lawful and leaves bar and waiting order alone |
| EventLog.PointsShow | backend/app/backtest/event_engine.py:158-170 | every point carries its bar's time, the equity within half of 10^-4 and the daily return within half of 10^-8, and that return leads from the equity before to the equity after |
| Accounting.ExecutedCosts | backend/app/backtest/event_engine.py:206-341 | an execution lowers equity at the market price by exactly the costs it reports |
| Accounting.SelfFinancing | backend/app/backtest/event_engine.py:63-170 | after every bar, equity is initial capital plus shares held times price moves (close to open, open to close) minus all commission, tax and slippage reported |
| Accounting.StaysSolvent | backend/app/backtest/event_engine.py:206-341 | cash and quantity never go negative when commission and tax add to at most one |
| Accounting.Overdraft | backend/app/backtest/models.py:6-16 | above that bound, a three-bar run ends its third bar with negative cash |
| Accounting.CashSafeExactly | backend/app/backtest/models.py:6-16 | cash stays non-negative on all runs if and only if commission plus tax is at most one |
| TradeGrammar.ExecutedAccounted | backend/app/backtest/event_engine.py:249-341 | an execution keeps the trade list in the form (buy sell+)* with its shares accounted for |
| TradeGrammar.StaysOrderly | backend/app/backtest/event_engine.py:79-156 | after every bar the trades have that form, a buy happens only when flat, the missing-position rejection never occurs, and a forced close ends flat |
| TradeGrammar.RoundsClose | backend/app/backtest/event_engine.py:79-156 | between two consecutive buys exactly the bought shares are sold |
| TradeGrammar.OnePairPerBuy | backend/app/backtest/metrics.py:30-34 | the pair scan finds one pair per buy, but for a buy that ends the list |
| TradeGrammar.ForcedRunPairsEveryBuy | backend/app/backtest/metrics.py:30-34 | with a forced close it finds exactly one pair per buy |
| NoLookAhead.NoLookAhead | backend/app/backtest/event_engine.py:94-170 | two frames that share their first bars and both go on give the same cash, shares, trades, equity and points through those bars, or the same failure |
| VectorEngine.Trades | backend/app/backtest/engine.py:98-129 | the scan over position changes, for any prices and any equity series, makes the trades that alternate and balance below |
| VectorEngine.Run | backend/app/backtest/engine.py:20-95 | positions, net returns, equity and trades of the whole frame, or the input error; what the series and trades are is `VectorReturns.RowFactor` and `VectorReturns.RunTrades` |
| VectorEngine.HeldGrowth | backend/app/backtest/engine.py:34-62 | while a position is held, equity grows by the ratio of closes |
| VectorEngine.FlatGrowth | backend/app/backtest/engine.py:34-62 | while none is held, equity stands still |
| VectorEngine.FlatTrades | backend/app/backtest/engine.py:98-129 | and nothing is traded |
| VectorEngine.TradesAlternate | backend/app/backtest/engine.py:98-129 | buys and sells alternate, and an open one remains exactly when the last position is long |
| VectorEngine.ForcedCloseBalances | backend/app/backtest/engine.py:62-95 | a forced close leaves as many sells as buys |
| VectorReturns.PositionsFollowSignals | backend/app/backtest/engine.py:32-37 | a row is held exactly when the row before it signalled 1 or more |
| VectorReturns.RowFactor | backend/app/backtest/engine.py:38-64 | over every row the account is multiplied by one factor, from candles and rates alone: 1 while flat; close over open less commission and slippage on the row bought; close over previous close while held; open over previous close less commission, tax and slippage on the row sold; and commission, tax and slippage less once more on a force-closed last row |
| VectorReturns.RunTrades | backend/app/backtest/engine.py:65-129 | one trade on every row the position changes, at the open worsened by slippage and with its fee on the account before the row, then the forced sale at the last close |
| EngineAgreement.ExecutedReaches | backend/app/backtest/event_engine.py:206-341 | an order reaches the position it was placed for exactly when it is neither rejected nor a partial sell |
| EngineAgreement.CausalRunsThrough | backend/app/backtest/event_engine.py:94-96 | a causal strategy that evaluates the whole frame never fails a run on it |
| EngineAgreement.WaitingOrder | backend/app/backtest/event_engine.py:111-127 | an order waits after a bar exactly when signal and position differ |
| EngineAgreement.EnginesAgree | backend/app/backtest/engine.py:34-39 | for a causal strategy, through any number of bars, the event engine's positions equal the shifted signal if and only if no order was rejected and no sell partly filled |
| EngineAgreement.PointShowsSession | backend/app/backtest/event_engine.py:158-169 | the reported position is the session's, except on the bar the forced close empties |
| EngineAgreement.ExecutedFits | backend/app/backtest/event_engine.py:206-275 | an order is executed without rejection or cut exactly when account and bar allow it beforehand |
| EngineAgreement.CleanExactlyWhenOrdersFit | backend/app/backtest/event_engine.py:79-92 | a run has no rejection and no partial sell if and only if every waiting order fits before it executes |
| EngineAgreement.AgreeExactlyWhenOrdersFit | backend/app/backtest/engine.py:34-39 | so the engines' positions agree through any number of bars if and only if every waiting order fits |
| EngineAgreement.ThinBarDisagrees | backend/app/backtest/event_engine.py:227-248 | whatever the configuration, a second bar without volume leaves the event engine flat where the vectorized one is long |
| WalkForward.WarmupIdle | backend/app/backtest/validation.py:18-27 | behind an activation the event engine's account is untouched through the activation bar |
| WalkForward.EventWarmup | backend/app/backtest/validation.py:58-67 | the event engine's first activation_index + 1 points show the initial capital, and no trade comes before the bar after activation |
| WalkForward.VectorWarmup | backend/app/backtest/validation.py:58-67 | the same for the vectorized engine |
| WalkForward.WarmupIsIdle | backend/app/backtest/validation.py:58-67 | the same for whichever engine is given |
| WalkForward.FoldSizes | backend/app/backtest/validation.py:49-63 | each test range starts after the warm-up and has at least ten candles |
| WalkForward.EqualFolds | backend/app/backtest/validation.py:48-57 | all test ranges are equally long but the last, which takes the rows left over, fewer than there are splits |
| WalkForward.CountsExactly | backend/app/backtest/validation.py:81-88 | the two counts of a fold are the numbers of partial fills and of rejections among its events |
| WalkForward.OutcomeShows | backend/app/backtest/engine.py:78-95 | the points of a vectorized run show its series row by row, rounded to four and eight places |
| WalkForward.RunFold | backend/app/backtest/validation.py:52-71 | succeeds exactly when the engine gets through warm-up and test rows, and otherwise passes on its error; the fold reports that run, cut at the activation |
| WalkForward.CutFold | backend/app/backtest/validation.py:66-71 | filtering trades and events by the first test row's time removes none of them |
| WalkForward.VectorIdle | backend/app/backtest/validation.py:24-27 | with the signals zeroed up to the activation, equity, position and trades of the vectorized engine stand still through it |
| WalkForward.FirstFailureIsFirst | backend/app/backtest/validation.py:52-64 | the failure a validation reports is that of the first fold the engine fails on, and there is none exactly when it passes them all |
| WalkForward.SucceedsExactly | backend/app/backtest/validation.py:60-64 | for a causal strategy, either engine passes a fold if and only if the strategy can evaluate it and, for the event engine, prices are positive and timestamps distinct |
| WalkForward.Validate | backend/app/backtest/validation.py:36-98 | the three argument errors, each exactly; then the first failing fold's error exactly when a fold fails, and otherwise one fold a split, whose test ranges are in order, disjoint, tile all candles after the warm-up, are equally long but for the last, which has fewer than `splits` rows more, and report their own runs |
| KisSource.ResolveInjective | backend/app/realtime/kis.py:41-66 | two stocks share a server key only if they have the same symbol |
| KisSource.ResolvesExactly | backend/app/realtime/kis.py:41-66 | six digits are a domestic stock under its own code; otherwise a dollar stock of one of the three markets goes under that market's code and its symbol; nothing else resolves |
| KisSource.KISStreamingQuoteSource.constructor | backend/app/realtime/kis.py:197-230 | a new source has no subscription, no queued action and no connection |
| KisSource.KISStreamingQuoteSource.SubscribeResolved | backend/app/realtime/kis.py:237-253 | the lock body and the put as one step; the limit error exactly when a new symbol meets a full map, and then nothing changes |
| KisSource.KISStreamingQuoteSource.UnsubscribeSymbol | backend/app/realtime/kis.py:255-265 | the pop, the put, and with an empty map the close, as one step; `KisSource.UnsubscribeEndsConnection` says what that step must do |
| KisSource.UnsubscribeEndsConnection | backend/app/realtime/kis.py:255-265 | in every state, an unsubscribe that leaves the map empty leaves no live connection and nothing to wake the loop; any other leaves the loop where it stands; and what it pops on a connection is queued for the server |
| KisSource.SubscribeWakes | backend/app/realtime/kis.py:237-253 | a new symbol below the limit is added, wakes the loop and is queued on a connection; anything else changes nothing; the loop stays where it stands |
| KisSource.KISStreamingQuoteSource.OnConnected | backend/app/realtime/kis.py:320-324 | connection set, snapshot taken and queue drained as one step |
| KisSource.KISStreamingQuoteSource.DrainActions | backend/app/realtime/kis.py:402-405 | the queue ends empty and nothing else changes |
| KisSource.KISStreamingQuoteSource.SendNextOfSnapshot | backend/app/realtime/kis.py:325-326 | one snapshot entry reaches the server |
| KisSource.KISStreamingQuoteSource.TakeQueuedAction | backend/app/realtime/kis.py:351-354 | the oldest queued action is taken |
| KisSource.KISStreamingQuoteSource.SendTakenAction | backend/app/realtime/kis.py:351-354 | the taken action reaches the server |
| KisSource.KISStreamingQuoteSource.PutConnectionAway | backend/app/realtime/kis.py:340-349 | the finally clause forgets the connection |
| KisSource.ConnectTracks | backend/app/realtime/kis.py:320-326 | after a connect, snapshot plus queue lead the server to the local map |
| KisSource.SubscribeTracks | backend/app/realtime/kis.py:237-253 | subscribing keeps it so |
| KisSource.UnsubscribeTracks | backend/app/realtime/kis.py:255-265 | unsubscribing keeps it so exactly when no other symbol uses the same server key |
| KisSource.StepTracksExactly | backend/app/realtime/kis.py:237-354 | a step of any kind keeps the unsent snapshot and queued actions leading to exactly the local subscriptions, if and only if it does not pop a symbol whose key is shared |
| KisSource.SharedKeyLosesFeed | backend/app/realtime/kis.py:237-265 | a run on which dropping one of two symbols with one key unsubscribes the other's feed while it stays subscribed locally |
| KisSource.StepKeepsInvariant | backend/app/realtime/kis.py:237-354 | with a resolver that answers for the requested symbol, every step keeps the protocol invariant |
| KisSource.RunKeepsInvariant | backend/app/realtime/kis.py:237-354 | so does every interleaving of subscribe, unsubscribe, send, failure and reconnect |
| KisSource.DrainedMeansEqual | backend/app/realtime/kis.py:314-354 | on a live connection with nothing left to send, the server set equals the local set |
| KisSource.LoopConverges | backend/app/realtime/kis.py:320-354 | from any live state the loop gets there, in exactly the number of steps the outstanding work demands |
| QuoteHub.SubscriberCounts.Sum | backend/app/realtime/hub.py:238-246 | the sum over the counts |
| QuoteHub.SubscriberCounts.Register | backend/app/realtime/hub.py:238-246 | both capacity errors, the count raised by one, and whether it was the first |
| QuoteHub.SubscriberCounts.Unregister | backend/app/realtime/hub.py:248-255 | the count lowered or removed, and whether it was the last |
| QuoteHub.StepBalanced | backend/app/realtime/hub.py:220-255 | every step keeps counts equal to live streams, both capacities, and every upstream symbol in the hub |
| QuoteHub.RunBalanced | backend/app/realtime/hub.py:220-255 | so it holds in every reachable state |
| QuoteHub.RefusedExactly | backend/app/realtime/hub.py:238-246 | said of the open streams: turned away for connections exactly when as many are open as allowed, for symbols exactly when otherwise nobody streams the symbol and as many symbols as allowed are streamed; told to subscribe exactly when nobody streams it yet |
| QuoteHub.LastExactly | backend/app/realtime/hub.py:248-255 | a stream is told to unsubscribe exactly when it is the only one of its symbol |
| QuoteHub.SourceLimitUnreachable | backend/app/realtime/factory.py:11-40 | with the hub capped at 40 symbols the source's own limit error is never raised |
| QuoteHub.SystemTracks | backend/app/realtime/hub.py:220-255 | inside the whole system the source keeps its protocol invariant |
| QuoteHub.DrainedServerIsWanted | backend/app/realtime/hub.py:220-255 | a drained live connection streams only keys of symbols that have a subscriber |
| QuoteHub.ListeningWithoutSource | backend/app/realtime/hub.py:220-236 | a run after which a stream listens to a symbol that is not subscribed upstream |
| HubCoverage.StepCoversExactly | backend/app/realtime/hub.py:220-255 | a step leaves every listening stream's symbol upstream or being subscribed if and only if no subscribing stream fails or closes while another holds its symbol; and one stream at most subscribes to a symbol, which is not upstream yet |
| HubCoverage.CoveredExactly | backend/app/realtime/hub.py:220-255 | the same of whole runs, from the start |
| HubCoverage.SettledMeansEqual | backend/app/realtime/hub.py:220-255 | after such a run, once no stream is subscribing, hub and source hold the same symbols |
| CorporateActions.ByEffectiveOrders | backend/app/corporate_actions/engine.py:60-64 | the reporting order (effective time, source, event) is a total preorder |
| CorporateActions.SortProduct | backend/app/corporate_actions/engine.py:60-80 | sorting actions does not change what their factors multiply to |
| CorporateActions.SortFactors | backend/app/corporate_actions/engine.py:60-80 | nor, therefore, any candle's accumulated factors |
| CorporateActions.ScaledIsBackward | backend/app/corporate_actions/engine.py:66-80 | a restated candle has every price times the product of the price factors still due and the volume within one half of the raw volume times the product of the volume factors still due |
| CorporateActions.ScaledIsForward | backend/app/corporate_actions/engine.py:170-187 | a candle restated forward has prices that the factors in force lead back to the raw ones, and a volume within one half of what they lead back to the raw volume |
| CorporateActions.FirstFaultIsFirst | backend/app/corporate_actions/engine.py:107-118 | the fault reported is that of the first action that has one, and of its checks the first that fails |
| CorporateActions.FaultlessExactly | backend/app/corporate_actions/engine.py:107-118 | no fault is reported exactly when every action has a revision from 1, a known type and status, and positive factors |
| ForwardAdjustment.Group | backend/app/corporate_actions/engine.py:145-155 | eligible actions grouped by event, in order of first appearance |
| ForwardAdjustment.SelectFrom | backend/app/corporate_actions/engine.py:156-168 | the confirmed actions, or the first group's error |
| ForwardAdjustment.AdjustOne | backend/app/corporate_actions/engine.py:170-187 | one candle scaled by the inverse factors of the actions already in force, prices and volume each by their own |
| ForwardAdjustment.Adjust | backend/app/corporate_actions/engine.py:130-194 | succeeds exactly on unadjusted candles, faultless actions, one eligible revision per event and none learnt late; every candle returned is the raw one by the applied actions' own price and volume factors in force at its time |
| ForwardAdjustment.SelectedExactlyWhenClean | backend/app/corporate_actions/engine.py:145-168 | selection succeeds exactly on such a history |
| ForwardAdjustment.SelectedIsConfirmed | backend/app/corporate_actions/engine.py:156-168 | and then keeps the confirmed eligible actions in the order given |
| ForwardAdjustment.AppliedExactly | backend/app/corporate_actions/engine.py:145-168 | applied are the confirmed actions known and in force by the time asked about, each once, by date, and no others |
| ForwardAdjustment.AdjustedRefusedExactly | backend/app/corporate_actions/engine.py:130-144 | the basis error exactly when some candle is not unadjusted |
| ForwardAdjustment.CleanEarlier | backend/app/corporate_actions/engine.py:145-168 | a history acceptable at a later time is acceptable at every earlier one |
| ForwardAdjustment.FactorsStable | backend/app/corporate_actions/engine.py:170-187 | an action that becomes eligible later leaves the factors of candles up to the earlier time alone |
| ForwardAdjustment.ForwardStable | backend/app/corporate_actions/engine.py:130-194 | success at a later time implies success at every earlier one, with identical values for every candle stamped by then |
| ForwardAdjustment.OnlyKnownActionsMatter | backend/app/corporate_actions/engine.py:145-187 | a candle's adjusted value depends only on the actions known by its own time |
| BackwardAdjustment.LatestEffectiveRevisions | backend/app/corporate_actions/engine.py:83-105 | the loop that keeps the latest eligible revision of each event |
| BackwardAdjustment.LatestIsLatest | backend/app/corporate_actions/engine.py:83-105 | what it keeps is, per event, the lexicographic maximum among the eligible revisions, the first of equals |
| BackwardAdjustment.SelectedInOrder | backend/app/corporate_actions/engine.py:60-64 | the applied actions are reported in order of effect |
| BackwardAdjustment.AppliedExactly | backend/app/corporate_actions/engine.py:53-105 | applied are each event's newest eligible revision, once, by date, if it is confirmed and some candle comes before it, and no others |
| BackwardAdjustment.CleanLatest | backend/app/corporate_actions/engine.py:83-105 | with one revision per event the latest ones are the eligible actions |
| BackwardAdjustment.AdjustOne | backend/app/corporate_actions/engine.py:66-80 | one candle scaled by the factors of the actions still to come, prices and volume each by their own |
| BackwardAdjustment.Adjust | backend/app/corporate_actions/engine.py:38-81 | the whole backward adjustment, the basis and the mixed-symbol error exactly; every candle returned is the raw one by the applied actions' own price and volume factors still due at its time |
| BackwardAdjustment.BackwardIsScaledForward | backend/app/corporate_actions/engine.py:38-194 | where the forward engine accepts, every backward price is the forward price times one constant, the product of all selected price factors |
| BackwardAdjustment.SameReturns | backend/app/corporate_actions/engine.py:38-194 | so price ratios between any two candles are the same in both views |
| RevisionStore.CanonicalTwice | backend/app/repositories/corporate_action.py:178-192 | canonicalising twice is canonicalising once |
| RevisionStore.QuantizedExactly | backend/app/repositories/corporate_action.py:178-192 | a factor is refused exactly when its twelve-place coefficient rounds to more than 28 digits |
| RevisionStore.FirstDefectExactly | backend/app/repositories/corporate_action.py:193-201 | a batch has no defect exactly when each item has a known type and status, a revision from 1 and positive factors |
| RevisionStore.StoredAppends | backend/app/repositories/corporate_action.py:26-79 | saving keeps earlier rows in place and keys unique, and leaves exactly the old and the batch's keys |
| RevisionStore.StoredFinds | backend/app/repositories/corporate_action.py:26-79 | after a successful save every batch item is what its key finds |
| RevisionStore.RepeatInsertsNothing | backend/app/repositories/corporate_action.py:26-79 | saving the same batch again succeeds and inserts nothing |
| RevisionStore.SavedAsGiven | backend/app/repositories/corporate_action.py:26-79 | after an accepted save every action is found under its own key, as it was given |
| RevisionStore.ApprovedAsGiven | backend/app/repositories/corporate_action_approval.py:29-104 | an accepted approval had a known type, the review time as its knowledge time, a name under the review and a known stock; it adds the row as requested or finds an old one |
| RevisionStore.UniqueSuffices | backend/app/repositories/corporate_action.py:26-79 | storing one item per key stores what the whole batch would |
| RevisionStore.CorporateActionStore.Reduce | backend/app/repositories/corporate_action.py:30-43 | one item per key, or the batch conflict |
| RevisionStore.CorporateActionStore.Insert | backend/app/repositories/corporate_action.py:45-79 | each first item found equal, inserted, or refused |
| RevisionStore.CorporateActionStore.SaveBatch | backend/app/repositories/corporate_action.py:26-79 | succeeds exactly on a valid batch that agrees with itself and with the table; then each action is found under its own key with both factors within half of 10^-12 of its own and every other field equal; created plus unchanged is the batch length, and a failure changes nothing |
| RevisionStore.CorporateActionStore.ApproveCandidate | backend/app/repositories/corporate_action_approval.py:29-104 | an approval by evidence: the old record, or one new row, the next revision, confirmed, with both factors within half of 10^-12 of the request's and every other field equal |
| RevisionStore.ServeKeeps | backend/app/repositories/corporate_action_approval.py:29-104 | every request, save or approval, only appends and keeps keys, evidence and references consistent |
| RevisionStore.ApprovedRevisionsIncrease | backend/app/repositories/corporate_action_approval.py:64-88 | a new approval adds one confirmed row whose revision is the one after the highest stored revision of its event, or the first |
| RevisionStore.SameEvidenceSameRecord | backend/app/repositories/corporate_action_approval.py:37-62 | whatever requests come in between, equal evidence gets the same record and creates none |
| RevisionStore.PastIsFixedExactly | backend/app/repositories/corporate_action.py:81-97 | appending leaves what was known at a time unchanged if and only if no new row of the symbol was known by then |
| RevisionStore.BackdatedSaveChangesPast | backend/app/repositories/corporate_action.py:26-79 | a save that is accepted and adds to what was known at an earlier time |
| RateLimit.SlidingWindowLimiter.constructor | backend/app/core/rate_limit.py:94-106 | a new limiter has no keys |
| RateLimit.SlidingWindowLimiter.Prune | backend/app/core/rate_limit.py:157-160 | the deque loop drops what is not newer than the cutoff, from the front |
| RateLimit.SlidingWindowLimiter.Sweep | backend/app/core/rate_limit.py:162-166 | every key pruned with one cutoff, emptied keys removed, order kept |
| RateLimit.SlidingWindowLimiter.Consume | backend/app/core/rate_limit.py:108-130 | the error exactly for non-positive arguments; otherwise sweep, eviction, pruning, decision and hint |
| RateLimit.SlidingWindowLimiter.IsLimited | backend/app/core/rate_limit.py:132-143 | the answer and the pruned, touched or removed key |
| RateLimit.SlidingWindowLimiter.Clear | backend/app/core/rate_limit.py:145-150 | one key, or all of them, forgotten |
| AdmissionLog.PrunedIsRecent | backend/app/core/rate_limit.py:157-160 | on an ordered deque, popping from the front keeps exactly the admissions after the cutoff |
| AdmissionLog.AtMostLimit | backend/app/core/rate_limit.py:108-130 | in a log of decisions made under the limit, no half-open window holds more than limit admissions |
| AdmissionLog.RecentWithinLimit | backend/app/core/rate_limit.py:108-130 | recent admissions never outnumber the limit |
| AdmissionLog.RetrySucceeds | backend/app/core/rate_limit.py:124-128 | waiting out any hint that covers the oldest admission is enough |
| AdmissionLog.HintsCover | backend/app/core/rate_limit.py:63-69 | both hints cover the remaining time, in whole seconds; the in-process one is a second more when that is whole |
| AdmissionLog.RemainingIsExact | backend/app/core/rate_limit.py:121-130 | the remaining count is exactly how many more calls at the same instant get in |
| LimiterRuns.RunFollows | backend/app/core/rate_limit.py:108-166 | over any run with no shorter window among its callers, the deque of a key neither evicted nor cleared is what its full log has in the current window |
| LimiterRuns.AnswersFromLog | backend/app/core/rate_limit.py:108-143 | under the same condition its decisions, remaining counts, hints and status equal those of a reference with the full log |
| LimiterRuns.AdmittedIsLog | backend/app/core/rate_limit.py:108-130 | under that condition what it really admitted is that log |
| LimiterRuns.AdmitsAtMostLimit | backend/app/core/rate_limit.py:108-130 | so at most limit admitted calls in every half-open window of the key's length |
| LimiterRuns.TableBounded | backend/app/core/rate_limit.py:116-120 | the table never exceeds max_keys |
| LimiterRuns.OrderedByTouch | backend/app/core/rate_limit.py:114-143 | the table's order is the order of last use |
| LimiterRuns.EvictsLeastRecentlyUsed | backend/app/core/rate_limit.py:116-120 | only from a full table, and only the key whose last use lies furthest back, is evicted |
| LimiterRuns.WaitingIsEnough | backend/app/core/rate_limit.py:124-130 | after a denial and any calls about other keys, a kept key is admitted once its own hint has passed |
| SweepWindows.ShorterWindowLoses | backend/app/core/rate_limit.py:113-114 | a run in which a shorter window's sweep lets a full key through |
| SweepWindows.SweepsHarmlessExactly | backend/app/core/rate_limit.py:113-114 | sweeps never change a decision, over all runs, if and only if all keys have the same window |
| RedisLimiter.RedisSlidingWindowLimiter.Consume | backend/app/core/rate_limit.py:184-197 | the error exactly for non-positive arguments; otherwise the consume script's effect and answer |
| RedisLimiter.RedisSlidingWindowLimiter.IsLimited | backend/app/core/rate_limit.py:199-210 | the same for the status script |
| RedisLimiter.RedisSlidingWindowLimiter.Clear | backend/app/core/rate_limit.py:212-213 | the key is deleted |
| RedisLimiter.ExpiryUnobservable | backend/app/core/rate_limit.py:59-87 | what a key holds when it expires had already left the window |
| RedisLimiter.ConsumeHolds | backend/app/core/rate_limit.py:53-72 | one consume script answers from the full log and stores what the log then holds |
| RedisLimiter.StatusHolds | backend/app/core/rate_limit.py:75-88 | one status script answers from the full log and changes nothing that counts |
| RedisLimiter.RunHolds | backend/app/core/rate_limit.py:53-88 | over any run the sorted set follows the log |
| RedisLimiter.BothLimitersAgree | backend/app/core/rate_limit.py:53-143 | on the same clock and calls, Redis and an in-process limiter that neither evicted nor cleared the key, nor swept it with a shorter window, give the same decision, remaining count and status, and hints at most a second apart |
| RedisLimiter.WaitingIsEnough | backend/app/core/rate_limit.py:53-72 | after a denial and any calls about other keys, a call that waits out the script's hint is admitted |
| DataQuality.BusinessDaysBetween | backend/app/pipeline/candles.py:50-57 | the day-by-day loop counts the business days strictly between two dates |
| DataQuality.WeekHasFive | backend/app/pipeline/candles.py:50-57 | a week more is five business days more, whatever the days it starts and ends on |
| DataQuality.FirstWeek | backend/app/pipeline/candles.py:50-57 | which days they are: of the first week, Monday to Friday |
| DataQuality.DetectGaps | backend/app/pipeline/candles.py:60-78 | the loop over neighbouring distinct timestamps |
| DataQuality.GapsExactly | backend/app/pipeline/candles.py:60-78 | a gap is reported if and only if it lies between two candles with no other between them and five or more business days missing, and at the later one |
| CandlePipeline.ValidateCandles | backend/app/pipeline/candles.py:81-136 | the loop reports, in order, what each candle is at fault for given the candles ahead of it, and then the gaps |
| CandlePipeline.CleanCandles | backend/app/pipeline/candles.py:139-152 | the loop keeps the sound candles of new timestamps, in time order |
| CandlePipeline.CleanedKeepsFirst | backend/app/pipeline/candles.py:139-152 | for every timestamp, cleaning keeps the first sound candle of the raw list, the sort notwithstanding |
| CandlePipeline.CleanedIsClean | backend/app/pipeline/candles.py:139-152 | the cleaned list is strictly ascending and sound and adds nothing |
| CandlePipeline.CleanedIsTheOnlyOne | backend/app/pipeline/candles.py:139-152 | no other strictly ascending sound list has those first candles |
| CandlePipeline.CleaningTwice | backend/app/pipeline/candles.py:139-152 | cleaning is idempotent |
| CandlePipeline.ValidExactlyWhenUntouched | backend/app/pipeline/candles.py:81-152 | validation reports no error if and only if there is one price basis and cleaning returns its input |
| CandlePipeline.NoErrorLoggedExactly | backend/app/pipeline/candles.py:81-152 | said of the logs: none of them has error severity if and only if there is one price basis and cleaning returns its input |
| CandlePipeline.RowErrorsExactly | backend/app/pipeline/candles.py:95-134 | each row error is logged exactly when a candle of that time is at fault: an earlier candle at the same time, an open or close outside the low and the high, a negative volume, a time not after the candle before |
| CandlePipeline.MixedExactly | backend/app/pipeline/candles.py:84-94 | bases are mixed exactly when two candles differ in theirs |
| CandleAggregation.GroupByPeriod | backend/app/pipeline/candles.py:161-168 | each period's candles in order, periods by first appearance |
| CandleAggregation.AggregateCandles | backend/app/pipeline/candles.py:155-184 | one bar a period, the daily list as it is, and the error exactly on mixed bases |
| CandleAggregation.VolumeConserved | backend/app/pipeline/candles.py:170-183 | aggregation preserves total volume, for every list and calendar |
| CandleAggregation.BarSpans | backend/app/pipeline/candles.py:171-176 | a bar opens with its group's earliest candle and closes with its latest |
| CandleAggregation.BarExtremes | backend/app/pipeline/candles.py:177-178 | its high and low are reached in the group and bound it |
| CandleAggregation.AggregatedSound | backend/app/pipeline/candles.py:170-183 | sound candles give sound bars |
| CandleAggregation.EnvelopeKept | backend/app/pipeline/candles.py:170-183 | the highest high and lowest low of the whole list are those of its bars |
| CandleAggregation.AggregatedAscending | backend/app/pipeline/candles.py:155-184 | ascending candles give ascending bars |
| CandleAggregation.AggregatingTwice | backend/app/pipeline/candles.py:155-184 | aggregating bars again at the same interval changes nothing |
| CandleAggregation.Process | backend/app/pipeline/candles.py:187-197 | mixed bases empty the list, so the aggregation error never reaches the caller |
| CandleAggregation.PipelineDelivers | backend/app/pipeline/candles.py:187-197 | what the pipeline hands on is sound, strictly ascending and has the cleaned list's volume, and validates without error |
| PurgedSplit.Split | backend/app/prediction/validation.py:14-26 | the generator yields the first folds of the closed form, as many as the limit and the rows allow; zero splits is the division error |
| PurgedSplit.FoldsPurged | backend/app/prediction/validation.py:21-26 | the first fold trains on min_train rows; each trains on [0, test_start - horizon), test blocks are adjacent and increasing, and training sets grow |
| PurgedSplit.FoldsCounted | backend/app/prediction/validation.py:14-26 | how many folds there are, for every row count |
| PurgedSplit.UntestedRows | backend/app/prediction/validation.py:15-18 | which rows no fold tests: none below ten rows a fold, otherwise the division's remainder |
| PurgedSplit.BuildFeatureDataset | backend/app/prediction/features.py:29-50 | the two errors exactly; row r describes candle lookback + r and its label compares that close with the one horizon later; the prediction row describes the newest candle, whose time the dataset carries |
| PurgedSplit.RowMeans | backend/app/prediction/features.py:39-43 | a row is described by the candles up to its own, and rises exactly when the close a horizon later is above its own |
| PurgedSplit.TrainingUnaffectedByTest | backend/app/prediction/features.py:41-43 | whatever the candles from the first test row on are, every training row keeps its features and label |
| PurgedSplit.GapIsTight | backend/app/prediction/features.py:41-43 | the next row's label can already be flipped by the first test row's candle |
| Portfolio.Largest | backend/app/portfolio/analysis.py:42 | the first index of the largest allocation |
| Portfolio.SquaresAtLeast | backend/app/portfolio/analysis.py:38-41 | squared shares of one whole add up to at least 1/n, and to 1/n only when all are equal |
| Portfolio.ConcentrationBounds | backend/app/portfolio/analysis.py:34-54 | 1/n <= concentration index <= largest allocation <= 1, and the effective count lies in [1, n] |
| Portfolio.EffectiveCountIsFullExactlyWhenEqual | backend/app/portfolio/analysis.py:38-79 | the effective count is n if and only if all holdings are worth the same |
| Portfolio.FewAreConcentrated | backend/app/portfolio/analysis.py:48-54 | five or fewer holdings are never "balanced", two or fewer always "high" |
| Portfolio.EqualSplitLevel | backend/app/portfolio/analysis.py:48-54 | equal holdings are "high" up to two, "moderate" up to five, "balanced" from six |
| Portfolio.LevelExactly | backend/app/portfolio/analysis.py:48-54 | for every funded portfolio, from the market values: "high" if and only if one holding is half of the whole or the squared values reach 35% of its square, "balanced" if and only if no holding is 30% and the squares stay under 20% |
| Portfolio.FlagsExactly | backend/app/portfolio/analysis.py:55-62 | each flag exactly by its own condition on the holdings, none twice |
| Portfolio.LevelsPossibleExactly | backend/app/portfolio/analysis.py:48-54 | "balanced" is reachable if and only if there are six or more holdings, anything but "high" if and only if three or more |
| Portfolio.NothingReadsAsBalanced | backend/app/portfolio/analysis.py:38-54 | a portfolio whose values add to zero is reported as balanced |
| Portfolio.LossExposureBounds | backend/app/portfolio/analysis.py:43-58 | the loss exposure lies in [0, 1] and is 1 if and only if every holding of value is at a loss |

## Left out

- VectorEngine.Run: requires non-zero opens and closes, because pandas answers a division by zero with an infinity and reals have none.
- WalkForward.Validate: requires the same of its candles; one strategy object stands for the factory's fresh ones, which is sound because its answers do not depend on its cache.
- Strategies.PatternReferenceStrategy.constructor: takes the parameter ranges as a precondition; the source raises.
- RateLimit.SlidingWindowLimiter.constructor: takes `max_keys >= 1` as a precondition; the source raises.
- EventEngine.Loop: a frame is a sequence sorted by distinct timestamps; other pandas behaviour (indexes, dtypes, NaN) is not modelled.
- Floating-point and 28-digit decimal rounding: prices, cash and factors are reals. Explicit rounding steps (reported points, adjusted volumes, 12-place factors) are modelled.
- Performance metrics other than the buy/sell pair scan: CAGR, volatility, Sharpe ratio and drawdown, and the validator's summary of them.
- The wording of quality logs: rule, severity and timestamp are kept.
- Evidence texts of patterns and the summary around them; only name, direction, confidence and the like are kept.
- Time zones: timestamps are instants on one time line, and the checks that they are aware do not appear. The date of an instant is an arbitrary function of it and its week or month an arbitrary monotone one, so candles of mixed UTC offsets are not covered.
- KIS message formats and quote decoding, approval keys, backoff timing, sockets and `stop()`; connect, disconnect and send are steps.
- The polling hub's loop and the quote bus; the polling hub's counters are the ones modelled.
- The Redis server: a script is one step, the server's clock is the caller's, and a member is new because its id is.
- SHA-256: evidence is compared by its payload, so equal hashes mean equal payloads. SQL transactions are all-or-nothing updates; column limits and the order of listings are not modelled.
- Clock readings and random ids are parameters.
- The values of feature columns: a row's features are an arbitrary function of the closes and volumes up to its candle. Model training is not modelled.
- Grouping holdings by currency and the overall reference signal: a dictionary of independent analyses.
- String case and digit tests: ASCII only.
- Model artifacts on disk, technical indicators, HTTP routes, the web application, provider clients and migrations.
