# Divergence engine: verified model

A Dafny model of the parts of the divergence engine that compute: the rolling statistics, the three
alert detectors, the aggregator's deduplication, the backtester and the paper-trading session. Each
loop and each state update of the Go code is a method over arrays, classes and local variables,
proved against a function; what the engine promises is then proved about those functions, for every
input, every run or every interleaving.

`dafny verify dfyconfig.toml` checks everything.

## What is modelled

| files | Go source | content |
|---|---|---|
| `Clock`, `Ticks`, `Common`, `Algebra` | time, tick and alert values | nanosecond times, saturating `Sub`, `Truncate`; facts about products of reals |
| `RingBuffer`, `RingHistory` | `internal/state/ringbuffer.go` | the circular array, and what it still knows of all pushes |
| `ShardedMap` | `internal/state/shardedmap.go` | FNV-1a and the sixteen shards standing for one map |
| `Pearson`, `PearsonBounds`, `Regression` | `correlation.go`, `backtest.go` | Welford's one-pass and the two-pass correlation; Cauchy-Schwarz; the share of the deviations a line explains |
| `Runs` | all detectors | runs over tick streams: isolation of symbols, spacing of alerts |
| `VolumeSpike`, `VolumeSpikeRuns`, `VolumeSpikeAlerts`, `SteadyStream` | `internal/detectors/volumespike.go` | the detector, exactly when it alerts on a stream, bounds on its ratio, its answer to a steady stream |
| `OrderFlow`, `OrderFlowRuns`, `OrderFlowAlerts` | `internal/detectors/orderflow.go` | the detector, exactly when it alerts on a stream and what it reports, its symmetry in buying and selling |
| `CorrelationBreakdown`, `CorrelationRuns`, `PairSampling` | `internal/detectors/correlation.go` | the pair state machine, its hidden warmup, exactly when it samples and alerts on a stream |
| `Replay`, `EarliestAlert`, `Attainability` | `internal/detectors/correlation.go` | runs at chosen prices: one that alerts right after the warmup, and exactly which settings can alert at all |
| `Worker` | `cmd/detector/main.go`, `internal/detectors/registry.go` | the three detector objects fed one stream, and what they publish |
| `DetectorInvariance` | both detectors above | alerts do not depend on the units of volumes and prices |
| `Deduper`, `DeduperRuns`, `DeduperReference`, `Pipeline` | `cmd/aggregator/main.go` | cache and cleanup as interleaved steps, against a reference without a cache; cooldowns and the worker's stream composed with dedup |
| `Indicators`, `Strategies`, `Backtest`, `StrategyRuns` | `cmd/dashboard/backtest.go` | indicators, the four strategies, statistics, the four loops |
| `Causality`, `UnitInvariance`, `Samuelson`, `RsiMeaning`, `IndicatorMeaning`, `StrategyFacts`, `StrategyReading`, `ForwardReturns`, `ReportMeaning` | `cmd/dashboard/backtest.go` | properties of all strategies and price series |
| `Ledger`, `LedgerAgreement`, `EquityCurve`, `LiveSignals`, `LiveAgreement`, `LivePrices` | `cmd/dashboard/livestrategy.go` | the session's ledger under any signals, its own signals, and when they agree with the backtest |

`float64` is `real`. Times are integers, counted from Go's zero time. `math.Sqrt` is any function that
meets `Pearson.IsSqrt`; `math.Log` is any function at all, except that the runs which alert need it to
vary or to have an inverse. `time.Now()` is a parameter. A detector's state exists twice: as fields
updated in place (`SpikeTracker`, `FlowTracker`, `PairTracker`), and as a value stepped by `OnTick`; the
methods are proved to take exactly that step. The whole-stream methods (`Watch`, `Work`) create a detector
or a worker, feed it any stream, and return exactly the alerts of the run on values.

## What the proofs show about the code

- The volume-spike detector's comment on its warmup (`internal/detectors/volumespike.go:14-16`) says
  that five minutes of history prevent false alerts at startup. On a perfectly steady stream, one trade
  every d, they do not: the first tick after five minutes raises an alert exactly when 99998 d is at
  least five minutes, that is up to about 333 trades a second; on faster streams the long buffer is
  already full and no tick ever alerts (`SteadyFalseAlarmIff`). After the warmup the spike condition
  holds exactly while fewer than min(20 * ceil(1 min / d), 100000) ticks have arrived, for periods that
  divide a minute until twenty minutes are complete or the buffer is full (`SteadyDefaultIff`,
  `SteadyWholePeriods`). With trades 3600/19 s (about 3 min 9 s) apart or more it holds for ever: every
  single tick is reported as a spike (`SparseNeverSilent`).
- The correlation detector cannot alert before its 721st sample, so its `minSamples` and `minHistory`
  guards never change anything; on the 721st it can (`DefaultWarmup`, `GuardsNeverBind`,
  `AlertsRightAfterWarmup`).
- The correlation detector can alert at all exactly when minSamples fits the buffers, minBaseline <= 1,
  dropThreshold < 2, the short window is smaller than the buffers (unless the drop is negative), and, for
  a drop of 1 or more, shortSamples >= 2 and minBaseline < 1 (`AlertsPossibleIff` in `Attainability`).
- What a worker publishes about one symbol or pair is what that detector alone would publish on that
  symbol's ticks, spaced by its cooldown; and none of its correlation alerts is ever suppressed by an
  aggregator that receives its stream in order (`PublishedIsolates`, `PublishedPairIsolates`,
  `PublishedPairPasses`).
- Each detector's alerts are characterised on any stream, from its ticks alone: when the last tick of a
  stream raises one, and with which value and threshold (`AlertsIff` in `OrderFlowAlerts` and
  `VolumeSpikeAlerts`, `AlertsExactly` in `PairSampling`).
- The deduper's key is documented as the timestamp truncated to the window
  (`cmd/aggregator/main.go:80`) but keeps only its second. The two agree exactly for windows of at
  least one second (`BucketIsTruncationIff`); the engine uses one minute.
- Alerts carry the exchange's timestamps and arrive by another clock, so they can be early or late. No
  key is ever forwarded twice exactly when early and late together are at most one window, plus a
  nanosecond (`OncePerKeyIff`).
- The Bollinger strategy can trade at all exactly when stdDevs^2 < period - 1 (`CanTradeIff`).
- RSI uses 0 both for "no value yet" and for a series that has only fallen. A series that never rises
  is therefore never bought, neither by the backtest nor by a live session (`SentinelIff`,
  `FallingIsNeverBought`, `FallingLive`).
- Backtest and live session need not hold the same position, under any of the strategies. For the
  crossovers they do once the fast average was, at some bar since `slow`, not above the slow one
  (`CrossoverAgreesIff`); on closes 1, 2, 3, 4 it never was (`CrossoverDiffers`). For RSI and Bollinger
  they do unless the session bought on the bar before the backtest's first one, or a bar was torn (told
  one thing, done another), and no bar has been decisive since (`PositionsAgreeIff`, on prices alone
  `PositionsAgreeOnPricesIff`); both happen, to RSI on closes 5, 6, 1, 3 (`RsiDiffers`) and with
  overlapping thresholds (`RsiTears`), to Bollinger on closes 2, 1, 1 (`BollingerDiffers`) and over a lower
  band of exactly 0 (`BollingerTears`). For breakouts they do before the first breakout and while a
  purchase is younger than the holding period, because a session is never told to sell
  (`BreakoutAgreesIff`, `BreakoutAgreesOnPricesIff`); on closes 1, 2, 2 it should have been
  (`BreakoutDiffers`).

## Model

| member | source | states |
|---|---|---|
| RingBuffers.RingBuffer.constructor | internal/state/ringbuffer.go:20-22 | a new buffer is valid and empty |
| RingBuffers.RingBuffer.Push | internal/state/ringbuffer.go:24-30 | the window gains the entry at its new end and, when full, loses its oldest |
| RingBuffers.RingBuffer.SumSince | internal/state/ringbuffer.go:32-49 | the sum over exactly the held entries later than now - window |
| RingBuffers.RingBuffer.Len | internal/state/ringbuffer.go:51 | the number of entries held |
| RingBuffers.RingBuffer.Slice | internal/state/ringbuffer.go:53-71 | the values of the last n entries, oldest first; all of them when n is larger |
| RingHistory.PushAllKeepsLast | internal/state/ringbuffer.go:11-30 | after any pushes, from any state, the buffer holds the last capacity entries, oldest first |
| RingHistory.HistorySplits | internal/state/ringbuffer.go:11-30 | what a buffer overwrote and what it holds are together the history, and nothing is lost before it is full |
| RingHistory.SliceOfHistory | internal/state/ringbuffer.go:53-71 | Slice(n) is the newest min(n, capacity) values ever pushed |
| RingHistory.SumSinceMissesDropped | internal/state/ringbuffer.go:32-49 | in any timestamp order, the windowed sum misses exactly the overwritten entries of the window |
| RingHistory.SumSinceNeverExceeds | internal/state/ringbuffer.go:32-49 | with non-negative values it lies between 0 and the sum over the whole history |
| RingHistory.SumSinceExactIff | internal/state/ringbuffer.go:32-49 | with positive values it is the history's sum if and only if no overwritten entry lies in the window |
| RingHistory.SumSinceIsWholeHistory | internal/state/ringbuffer.go:32-49 | with ordered timestamps and at most capacity entries in the window it is the history's sum |
| RingHistory.WindowCount | internal/state/ringbuffer.go:32-49 | with ordered timestamps the buffer's window has min(entries in the history's window, capacity) entries |
| ShardedMaps.Hash | internal/state/shardedmap.go:37-45 | the loop computes 32-bit FNV-1a |
| ShardedMaps.Fnv32Vectors | internal/state/shardedmap.go:37-45 | the hash meets published test vectors of 32-bit FNV-1a (draft-eastlake-fnv) |
| ShardedMaps.ShardedMap.constructor | internal/state/shardedmap.go:11-18 | empty shards stand for the empty map |
| ShardedMaps.ShardedMap.Use | internal/state/shardedmap.go:20-35 | the shards act as one map: the key's value is returned, created if absent, and every other key is untouched |
| Pearson.Welford | internal/detectors/correlation.go:205-230 | the one-pass loop returns the textbook correlation of the common prefix, 0 for fewer than two pairs or a constant series |
| Pearson.TwoPass | cmd/dashboard/backtest.go:446-470 | the two-pass loop returns the same function, so the two programs agree on all equal-length inputs |
| Pearson.MeanStep | internal/detectors/correlation.go:216-220 | the incremental mean is the mean of the values so far |
| Pearson.ComomentStep | internal/detectors/correlation.go:217-223 | old deviation of x times new deviation of y is exactly what the centred cross sum grows by |
| Pearson.VariationIsNonNegative | internal/detectors/correlation.go:226-228 | M2X and M2Y are never negative, so the guard only catches 0 |
| PearsonBounds.CauchySchwarz | internal/detectors/correlation.go:214-224 | after any number of pairs C * C <= M2X * M2Y |
| PearsonBounds.CorrelationIsBounded | internal/detectors/correlation.go:198-230 | the result lies in [-1, 1] for every pair of series |
| PearsonBounds.CollinearCorrelation | internal/detectors/correlation.go:198-230 | for ys = a*xs + b with xs not constant it is exactly the sign of a |
| PearsonBounds.ConstantIff | internal/detectors/correlation.go:226-228 | the degenerate guard fires if and only if the series is constant |
| Runs.NonInterference | internal/state/shardedmap.go:20-35 | in any interleaved stream each symbol's state and alerts are those of a fresh detector fed that symbol alone |
| Runs.AlertsAreSpaced | internal/detectors/orderflow.go:102-105 | whatever the order of tick timestamps, alerts i < j are at least (j-i) cooldowns apart |
| VolumeSpikes.SpikeTracker.constructor | internal/detectors/volumespike.go:54-59 | a new symbol starts with two empty buffers and no times |
| VolumeSpikes.SpikeTracker.Observe | internal/detectors/volumespike.go:60-95 | one tick in place: new buffers, times and alert are those of OnTick |
| VolumeSpikes.VolumeSpikeDetector.constructor | internal/detectors/volumespike.go:40-46 | a new detector has seen no symbol, and all its objects are new |
| VolumeSpikes.VolumeSpikeDetector.Tracker | internal/detectors/volumespike.go:53-59 | the symbol's tracker, new and initial if there was none; no other symbol's changes, and the detector gains only new objects |
| VolumeSpikes.VolumeSpikeDetector.ObserveOwn | internal/detectors/volumespike.go:60-95 | only the tick's own symbol changes state |
| VolumeSpikes.VolumeSpikeDetector.Tick | internal/detectors/volumespike.go:50-99 | the whole detector steps as a map from symbols to states, and gains only new objects, so any number of ticks can follow |
| VolumeSpikeRuns.SymbolsAreIsolated | internal/detectors/volumespike.go:53-96 | a symbol's alerts in any interleaved stream are those of a detector of its own, spaced by the cooldown |
| VolumeSpikeRuns.Watch | internal/detectors/volumespike.go:37-99 | a new detector object fed any stream returns exactly the alerts of the run on values, so that each symbol's are those of a detector of its own |
| VolumeSpikeAlerts.AlertsExactly | internal/detectors/volumespike.go:60-95 | on any stream the last tick adds exactly this alert or none, read off the ticks |
| VolumeSpikeAlerts.AlertsIff | internal/detectors/volumespike.go:60-95 | it adds one if and only if 5 minutes have passed since the first stamped tick, the long window has volume, 30 s have passed since the last alert and the recent rate exceeds the multiple of the long one; Value is the recent rate, Threshold the multiple, which is smaller |
| VolumeSpikeRuns.BuffersFollowHistory | internal/detectors/volumespike.go:64-65 | in every run both buffers hold what the same history leaves in them |
| VolumeSpikeRuns.ShortVolumeIsPart | internal/detectors/volumespike.go:72-73 | for any timestamp order the short window's volume never exceeds the long window's |
| VolumeSpikeRuns.AlertRatioIsBounded | internal/detectors/volumespike.go:78-89 | every alert's short rate / long rate lies in (multiplier, longWindow/shortWindow] |
| VolumeSpikeRuns.LateTradeAlerts | internal/detectors/volumespike.go:72-82 | a single late trade raises an alert for every multiplier below the window ratio |
| VolumeSpikeRuns.AlertsPossibleIff | internal/detectors/volumespike.go:78-82 | some stream of non-negative volumes raises an alert if and only if multiplier < longWindow/shortWindow |
| SteadyStream.SteadySum | internal/state/ringbuffer.go:35-49 | for any period, window and capacity, a steady stream's window sums exactly the last trades of the window that still fit the buffer |
| SteadyStream.SteadySpikeIff | internal/detectors/volumespike.go:67-82 | for any windows, multiplier and period, a steady stream is a spike exactly while the short window holds, for its length, more than multiplier times as many trades as the long one |
| SteadyStream.SteadyDefaultIff | internal/detectors/volumespike.go:40-46 | in the shipped configuration, for every period d: exactly from five minutes on, while fewer than min(20 * ceil(1 min/d), 100000) trades have arrived, or for ever when 19 d >= 1 h |
| SteadyStream.SteadyWholePeriods | internal/detectors/volumespike.go:40-46 | for periods that divide a minute: from five minutes on until twenty minutes are complete or the long buffer is full |
| SteadyStream.SteadyFallsSilent | internal/detectors/volumespike.go:67-82 | no tick of any steady stream raises an alert outside that condition, ever |
| SteadyStream.SteadyFalseAlarmIff | internal/detectors/volumespike.go:13-17 | the first tick after five minutes raises an alert if and only if 99998 periods last five minutes; otherwise no tick ever does |
| SteadyStream.SparseNeverSilent | internal/detectors/volumespike.go:72-82 | with trades at least 3600/19 s apart every tick after the first five minutes raises an alert |
| OrderFlow.FlowTracker.constructor | internal/detectors/orderflow.go:53-58 | a new symbol starts with two empty buffers and no ticks |
| OrderFlow.FlowTracker.Absorb | internal/detectors/orderflow.go:60-70 | every tick counts; only buys and sells leave volume, each in its own buffer |
| OrderFlow.FlowTracker.Observe | internal/detectors/orderflow.go:59-117 | one tick in place: new state and alert are those of OnTick |
| OrderFlow.OrderFlowImbalanceDetector.constructor | internal/detectors/orderflow.go:35-45 | a new detector has seen no symbol, and all its objects are new |
| OrderFlow.OrderFlowImbalanceDetector.Tracker | internal/detectors/orderflow.go:52-58 | the symbol's tracker, new and initial if there was none; no other symbol's changes, and the detector gains only new objects |
| OrderFlow.OrderFlowImbalanceDetector.ObserveOwn | internal/detectors/orderflow.go:59-117 | only the tick's own symbol changes state |
| OrderFlow.OrderFlowImbalanceDetector.Tick | internal/detectors/orderflow.go:49-121 | the whole detector steps as a map from symbols to states, and gains only new objects, so any number of ticks can follow |
| OrderFlowRuns.SymbolsAreIsolated | internal/detectors/orderflow.go:52-118 | a symbol's alerts in any interleaved stream are those of a detector of its own, spaced by the cooldown |
| OrderFlowRuns.Watch | internal/detectors/orderflow.go:36-121 | the same for order flow |
| OrderFlowAlerts.AlertsExactly | internal/detectors/orderflow.go:59-117 | on any stream the last tick adds exactly this alert or none, read off the ticks |
| OrderFlowAlerts.AlertsIff | internal/detectors/orderflow.go:59-117 | with non-negative volumes it adds one if and only if ticks, history and volume suffice, the cooldown has passed and b >= upper * (b + s) or b <= lower * (b + s), over the last 5000 buys and sells in the window; Value is b / (b + s) |
| OrderFlowAlerts.DefaultAlertsIff | internal/detectors/orderflow.go:35-45 | the same in the shipped configuration, in numbers |
| OrderFlowRuns.BuffersFollowSides | internal/detectors/orderflow.go:63-70 | in every run each buffer holds what the volumes of its own side leave in it, and every tick counts, whatever its side |
| OrderFlowRuns.AlertBounds | internal/detectors/orderflow.go:72-116 | with non-negative volumes every alert's value is a share in [0, 1] beyond the threshold it names, with minTicks ticks and minVolume of volume behind it |
| OrderFlowRuns.MirrorStep | internal/detectors/orderflow.go:79-116 | swapping buy and sell reflects ratio and threshold around one half and keeps the decision |
| OrderFlowRuns.MirrorRun | internal/detectors/orderflow.go:21-23 | over whole runs buying and selling are treated alike when the thresholds are symmetric |
| CorrelationBreakdown.PairTracker.constructor | internal/detectors/correlation.go:68-74 | a pair starts without samples, prices or times |
| CorrelationBreakdown.PairTracker.Receive | internal/detectors/correlation.go:102-112 | a tick updates the price of its own leg only, and a foreign tick nothing |
| CorrelationBreakdown.PairTracker.Begin | internal/detectors/correlation.go:119-128 | the first pair of prices becomes the snapshot and starts the history |
| CorrelationBreakdown.PairTracker.MoveSnapshot | internal/detectors/correlation.go:146-150 | the snapshot is the latest prices, and both legs must tick again |
| CorrelationBreakdown.PairTracker.TakeSample | internal/detectors/correlation.go:138-150 | both log-returns are recorded together, or neither, and the snapshot moves on |
| CorrelationBreakdown.PairTracker.Conclude | internal/detectors/correlation.go:152-192 | after a sample the guards, the two correlations and the cooldown decide as Judge does |
| CorrelationBreakdown.PairTracker.Observe | internal/detectors/correlation.go:96-193 | one tick in place: new state and alert are those of OnTick |
| CorrelationBreakdown.CorrelationBreakdownDetector.constructor | internal/detectors/correlation.go:63-86 | every configured pair gets an initial state of its own, all of it new |
| CorrelationBreakdown.CorrelationBreakdownDetector.NewTrackers | internal/detectors/correlation.go:68-74 | the states are new, initial and pairwise disjoint |
| CorrelationBreakdown.CorrelationBreakdownDetector.ObserveOne | internal/detectors/correlation.go:96-193 | only the pair whose turn it is changes state |
| CorrelationBreakdown.CorrelationBreakdownDetector.Tick | internal/detectors/correlation.go:90-196 | a tick is offered to every pair in order and the alerts are concatenated |
| CorrelationRuns.AlwaysPaired | internal/detectors/correlation.go:20-23 | in every run the two return buffers have the same count and timestamps |
| CorrelationRuns.AlwaysTimed | internal/detectors/correlation.go:134-136 | in every run n samples took at least n sampling intervals |
| PairSampling.SamplesCostTicks | internal/detectors/correlation.go:102-150 | on any stream the snapshot, each sample and a waiting update have cost each of the two symbols a tick of its own |
| PairSampling.SampledExactly | internal/detectors/correlation.go:115-150 | on any stream, zero and negative prices included: a sample is recorded if and only if both symbols have a price and have ticked since the last snapshot, that tick included, the interval has passed and both snapshot prices are positive; recorded are the logarithms of the latest prices over those at the snapshot |
| PairSampling.SampledIff | internal/detectors/correlation.go:130-150 | with positive prices: if and only if both symbols have ticked since the last snapshot, that tick included, and the interval has passed |
| PairSampling.SnapshotIff | internal/detectors/correlation.go:114-150 | on any stream the first snapshot is taken, and the history starts, once both symbols have a price; later snapshots once both have also ticked since and the interval has passed |
| PairSampling.RunIs | internal/detectors/correlation.go:96-193 | the whole state after any stream: the last 20000 returns of each symbol, the prices and time of the last snapshot, the latest prices, and which symbols have ticked since |
| PairSampling.AlertsExactly | internal/detectors/correlation.go:96-192 | on any stream the last tick adds an alert exactly when it takes a later snapshot after which history, count, baseline, drop and cooldown allow it, and with these values |
| PairSampling.DefaultIsDue | internal/detectors/correlation.go:75-86 | those conditions in the shipped configuration, in numbers |
| CorrelationRuns.HiddenWarmup | internal/detectors/correlation.go:152-177 | with dropThreshold >= 0 every alert has more than shortSamples samples, and as many intervals, behind it |
| CorrelationRuns.DefaultWarmup | internal/detectors/correlation.go:75-86 | in the shipped configuration at least 721 samples and 3605 s |
| EarliestAlert.AlertsRightAfterWarmup | internal/detectors/correlation.go:130-192 | the hidden warmup is exact for guards within it, 0 <= dropThreshold < 1, minBaseline <= 1 and 1 <= shortSamples < 20000: some run alerts for the first time with exactly shortSamples + 1 samples and intervals behind it |
| EarliestAlert.DefaultWarmupIsExact | internal/detectors/correlation.go:75-86 | in the shipped configuration an alert with exactly 721 samples after exactly 3605 s occurs |
| EarliestAlert.BaselineIsOne | internal/detectors/correlation.go:161-164 | on that run the two return series coincide and vary, so the baseline is 1, for every number of samples |
| Replay.Replayed | internal/detectors/correlation.go:96-193 | for any prices, once both symbols tick every interval, a run that has not alerted holds one pair of log-returns per step, and the last one was judged quiet |
| PearsonBounds.PerfectIsCollinear | internal/detectors/correlation.go:198-230 | only points on a rising line have correlation 1, the case of equality in Cauchy-Schwarz |
| Regression.NoLineIsBetter | internal/detectors/correlation.go:198-230 | no straight line leaves less than the share 1 - r*r of the squared deviations of ys from their mean |
| Regression.BestLine | internal/detectors/correlation.go:198-230 | one line leaves exactly that share, and rises or falls as r is positive or negative |
| Attainability.PerfectStaysRising | internal/detectors/correlation.go:161-173 | with a baseline of exactly 1 the recent correlation is not negative |
| Attainability.AlertNeeds | internal/detectors/correlation.go:152-181 | a run that alerts has attainable settings |
| Attainability.LargeMove | internal/detectors/correlation.go:198-230 | a common move L among small opposed ones keeps the correlation at least (L^2 - 1)/(L^2 + 1) |
| Attainability.AlertsPossibleIff | internal/detectors/correlation.go:63-192 | for any settings and any two different symbols, some run alerts if and only if minSamples <= 20000, minBaseline <= 1, drop < 2, drop < 0 or shortSamples < 20000, and drop < 1 or else shortSamples >= 2 and minBaseline < 1 |
| CorrelationRuns.GuardsNeverBind | internal/detectors/correlation.go:152-159 | any two settings of minSamples and minHistory up to the hidden warmup give the same run |
| CorrelationRuns.DefaultsAreSlack | internal/detectors/correlation.go:75-86 | the shipped guards, and no guards at all, are such settings |
| CorrelationRuns.AlertBounds | internal/detectors/correlation.go:166-191 | the threshold lies in [minBaseline - drop, 1 - drop], the value in [-1, threshold) |
| CorrelationRuns.DefaultAlertBounds | internal/detectors/correlation.go:166-191 | Threshold in [0.1, 0.6] and Value in [-1, Threshold) |
| CorrelationRuns.AlertsAreCool | internal/detectors/correlation.go:178-181 | a pair's alerts i < j are at least (j-i) cooldowns apart, for any tick timestamps |
| CorrelationRuns.PairsAreIsolated | internal/detectors/correlation.go:96-193 | over any stream each pair's state and alerts are those of that pair running alone |
| CorrelationRuns.Watch | internal/detectors/correlation.go:63-196 | a new detector object fed any stream returns exactly the alerts of the run on values, so that each pair's are those of the pair running alone |
| Worker.Registry.constructor | internal/detectors/registry.go:15-17 | three new detectors that share no state, each before its first tick |
| Worker.Registry.OnTick | internal/detectors/registry.go:19-25 | one tick goes to the detectors in turn, their alerts are concatenated, and each detector is where its own run on values is |
| Worker.Work | cmd/detector/main.go:42-98 | a new worker fed a whole stream publishes exactly the alerts of the worker on values, in that order |
| Worker.PublishedSplits | cmd/detector/main.go:42-98 | for each detector its share of the published alerts is exactly its own run over the stream |
| Worker.PublishedIsolates | cmd/detector/main.go:92-97 | of them, those about one symbol are the alerts of a detector fed that symbol alone, spaced by its cooldown |
| Worker.PublishedPairIsolates | cmd/detector/main.go:92-97 | and those about one pair are the alerts of that pair running alone, spaced by the cooldown |
| DetectorInvariance.SpikeRunIsInvariant | internal/detectors/volumespike.go:60-95 | over whole runs, multiplying every volume by a > 0 leaves every alert's tick and symbol and multiplies the two reported rates |
| DetectorInvariance.PairRunIsInvariant | internal/detectors/correlation.go:102-192 | over whole runs, multiplying each leg's prices by a positive constant of its own leaves every alert as it was |
| Dedup.Deduper.constructor | cmd/aggregator/main.go:87-89 | the cache starts empty |
| Dedup.Deduper.Check | cmd/aggregator/main.go:91-100 | an alert is a duplicate exactly when its key is cached; otherwise its arrival is cached and a hit refreshes nothing |
| Dedup.Deduper.Clean | cmd/aggregator/main.go:108-116 | one cleanup pass removes exactly the entries from before the cutoff |
| DedupRuns.SuppressedOnlyAfterPass | cmd/aggregator/main.go:91-100 | in every interleaving an alert is suppressed only if an earlier one with its key was forwarded |
| DedupRuns.KeptOrExpired | cmd/aggregator/main.go:102-116 | a forwarded alert stays cached until a cleanup that read the clock more than two windows after it |
| DedupRuns.RepeatsAreFarApart | cmd/aggregator/main.go:91-116 | two forwarded alerts with one key arrived more than two windows apart |
| DedupRuns.BucketIsTruncationIff | cmd/aggregator/main.go:79-92 | the key identifies the truncated timestamp if and only if the window is at least one second |
| DedupRuns.SlowRunRepeats | cmd/aggregator/main.go:91-116 | for every allowance of early + late >= window + 2 ns, a run that forwards one key twice |
| DedupRuns.OncePerKeyIff | cmd/aggregator/main.go:91-116 | with arrivals from early before to late after the timestamp, no interleaving forwards a key twice if and only if early + late <= window + 1 ns |
| DedupRuns.EachKeyOnce | cmd/aggregator/main.go:91-116 | under that condition each key that arrives is forwarded exactly once, no later than its first suppression |
| DedupReference.AlikeIff | cmd/aggregator/main.go:79-92 | two alerts share a key if and only if detector, symbol and window of time are the same, for windows of at least a second |
| DedupReference.ForwardedIff | cmd/aggregator/main.go:91-116 | in every interleaving an arrival is forwarded if and only if every alike one forwarded before it has been swept away by a cleanup whose clock was read more than two windows after it |
| DedupReference.Drive | cmd/aggregator/main.go:87-121 | a new deduper object driven through any interleaving forwards exactly those arrivals |
| DedupRuns.BucketHoldsFew | cmd/aggregator/main.go:92 | one source with a cooldown puts at most ceil(window/cooldown) alerts into a bucket |
| DedupRuns.SpacedIsNeverSuppressed | cmd/aggregator/main.go:91-100 | a source whose cooldown is at least the window is never suppressed |
| Pipeline.VolumeSpikesPerBucket | internal/detectors/volumespike.go:82-83 | a dedup bucket receives at most two volume-spike alerts of a symbol |
| Pipeline.OrderFlowPerBucket | internal/detectors/orderflow.go:102-105 | at most two order-flow alerts in the shipped configuration |
| Pipeline.CorrelationAlertsPass | internal/detectors/correlation.go:178-181 | no correlation alert of one detector instance is ever suppressed |
| Pipeline.PublishedPairPasses | cmd/aggregator/main.go:91-100 | of a worker's whole published stream, received in order, no correlation alert is ever suppressed, whenever cleanup runs |
| Pipeline.PublishedSpikesPerBucket | cmd/aggregator/main.go:91-100 | of that stream at most two volume-spike alerts of a symbol reach one bucket |
| Indicators.BarSMA | cmd/dashboard/backtest.go:435-444 | the mean of the period prices before end, 0 when there are fewer |
| Indicators.ComputeEMA | cmd/dashboard/backtest.go:301-317 | every place holds the seeded recursive average, 0 before the seed |
| Indicators.ComputeRSI | cmd/dashboard/backtest.go:319-359 | every place holds the RSI of the Wilder averages, 0 before bar period |
| Indicators.ComputeBollinger | cmd/dashboard/backtest.go:361-379 | every place holds mean and mean +/- stdDevs standard deviations of the window that ends there |
| Indicators.BandsAt | cmd/dashboard/backtest.go:367-376 | the loop body computes the three bands of one window |
| StrategyFacts.EmaIsWeightedSum | cmd/dashboard/backtest.go:307-315 | the recursion in closed form: the mean of the first period prices and every later price, with geometrically decaying weights |
| StrategyFacts.EmaIsBounded | cmd/dashboard/backtest.go:301-317 | from the seed on the EMA stays between any bounds of the prices seen so far |
| IndicatorMeaning.EmaWeights | cmd/dashboard/backtest.go:301-317 | the closed form with the factor 2/(period + 1) written out |
| IndicatorMeaning.SmaLags | cmd/dashboard/backtest.go:435-444 | on prices along a straight line the simple average lags (period - 1)/2 bars |
| IndicatorMeaning.EmaLags | cmd/dashboard/backtest.go:301-317 | and so does the exponential one, on every bar from its seed on |
| IndicatorMeaning.OnlySmoothing | cmd/dashboard/backtest.go:307-315 | on a line that is not flat only the factor 2/(period + 1) keeps that lag |
| IndicatorMeaning.WilderIsWeightedSum | cmd/dashboard/backtest.go:326-356 | the averages behind the RSI in closed form: the mean of the first period moves and every later move at weight 1/period, all losing 1/period of their weight per bar |
| IndicatorMeaning.RsiIsWeightedShare | cmd/dashboard/backtest.go:319-359 | the RSI is the share of the rises in these weighted moves, in percent, and 100 without any move |
| IndicatorMeaning.BandsFormula | cmd/dashboard/backtest.go:361-379 | the bands from sum and sum of squares of the window: n * middle = sum, and (n * (upper - middle))^2 = k^2 * (n * squares - sum^2), symmetric around the middle |
| Strategies.TradesAlternate | cmd/dashboard/backtest.go:202-298 | in every run of every strategy events alternate buy, sell, ... on strictly later bars, each at its bar's close, and the position says whose turn it is |
| StrategyFacts.BreakoutHoldsExactly | cmd/dashboard/backtest.go:278-297 | every breakout sale lies exactly max(holdBars, 1) bars after its buy, and an open position is younger |
| StrategyReading.EventsAreTurns | cmd/dashboard/backtest.go:202-298 | every strategy has an event on exactly the bars that change its position, at their close |
| StrategyReading.CrossoverHeldIff | cmd/dashboard/backtest.go:183-216 | a crossover holds if and only if its fast average, simple or exponential, lies above the slow one and at some bar since slow did not |
| StrategyReading.HeldSinceLow | cmd/dashboard/backtest.go:218-266 | RSI (thresholds in order) and Bollinger hold if and only if some bar was below the buying level and none since above the selling one |
| StrategyReading.HighestIsMaximum | cmd/dashboard/backtest.go:286-291 | what a breakout must exceed is a close of the lookback that no other exceeds |
| Backtest.ComputeResult | cmd/dashboard/backtest.go:123-181 | the report is the Summary of the events |
| Backtest.SignalRows | cmd/dashboard/backtest.go:125-133 | one row per event, with the forward return exactly when that bar exists |
| Backtest.StratReturn | cmd/dashboard/backtest.go:135-143 | the product over buy/sell pairs, times the growth of an odd last buy up to the last close |
| Backtest.CountWins | cmd/dashboard/backtest.go:145-153 | the measured buys, and those of them with a positive forward return |
| Backtest.Samples | cmd/dashboard/backtest.go:159-171 | one sample per bar with a forward return from warmup on, marked 1 exactly where a buy happened |
| ForwardReturns.ReportReads | cmd/dashboard/backtest.go:123-157 | in every report each row's percentage r has closes[bar] * (1 + r/100) = closes[bar + ahead] and exists exactly when that bar does, and WinRate times the buys with such a bar is 100 times those followed by a higher close |
| ForwardReturns.SamplesRead | cmd/dashboard/backtest.go:159-171 | the same of the ys of the correlation, one per bar from warmup on with a later bar, and xs marks the buys |
| ForwardReturns.ReportCounts | cmd/dashboard/backtest.go:173-181 | Correlation is that of exactly these two series, NumSignals and BarsUsed count events and bars, and the error occurs exactly when no bar could be traded |
| StrategyRuns.RunCrossover | cmd/dashboard/backtest.go:183-216 | the loop produces the backtest of the bar-by-bar decisions, or the error for too few bars |
| StrategyRuns.MovingAverages | cmd/dashboard/backtest.go:189-200 | both averages from bar slow on, simple or exponential |
| StrategyRuns.RunRSI | cmd/dashboard/backtest.go:218-241 | the same for RSI mean reversion |
| StrategyRuns.RunBollinger | cmd/dashboard/backtest.go:243-266 | the same for Bollinger bands |
| StrategyRuns.RunBreakout | cmd/dashboard/backtest.go:268-299 | the same for breakouts |
| StrategyRuns.MaxBefore | cmd/dashboard/backtest.go:286-291 | the inner loop finds the highest close of the lookback |
| Causality.EmaIsCausal | cmd/dashboard/backtest.go:301-317 | the EMA of bar i depends on no later price |
| Causality.RsiIsCausal | cmd/dashboard/backtest.go:319-359 | nor does the RSI |
| Causality.BandIsCausal | cmd/dashboard/backtest.go:361-379 | nor do the bands |
| Causality.TradeIsCausal | cmd/dashboard/backtest.go:183-299 | series that agree on the first m bars give the same events and position there |
| Causality.NoLookAhead | cmd/dashboard/backtest.go:183-299 | for all four strategies the events on closes[..m] are exactly the events on all closes with bar < m |
| UnitInvariance.DecideIsInvariant | cmd/dashboard/backtest.go:204-297 | multiplying all closes by a > 0 changes no decision, zero sentinels included |
| UnitInvariance.TradeIsInvariant | cmd/dashboard/backtest.go:183-299 | every event keeps its bar and kind, and its price is multiplied |
| UnitInvariance.BacktestIsInvariant | cmd/dashboard/backtest.go:123-299 | forward returns, StratReturn, WinRate, Correlation and counts are unchanged for all four strategies |
| Samuelson.SamuelsonBound | cmd/dashboard/backtest.go:361-379 | (closes[i] - sma)^2 <= (period - 1) * variance for every window |
| Samuelson.NeverTrades | cmd/dashboard/backtest.go:253-264 | with stdDevs^2 >= period - 1 runBollinger emits no event on any series |
| Samuelson.OutlierIsBought | cmd/dashboard/backtest.go:253-264 | below that bound one outlier after a constant stretch is bought |
| Samuelson.CanTradeIff | cmd/dashboard/backtest.go:243-266 | some series of positive closes produces an event if and only if stdDevs^2 < period - 1 |
| RsiMeaning.WilderIff | cmd/dashboard/backtest.go:326-356 | an average gain (loss) is positive if and only if a remembered move was a rise (fall) |
| RsiMeaning.RsiIsShare | cmd/dashboard/backtest.go:338-344 | from bar period on the RSI lies in [0, 100] and is 100 g/(g+l) once anything moved, else 100 |
| RsiMeaning.SentinelIff | cmd/dashboard/backtest.go:228-231 | RSI 0 means no value yet, or only falls remembered, and nothing else; RSI 100 means no fall remembered |
| RsiMeaning.ReflectionComplements | cmd/dashboard/backtest.go:319-359 | reflecting the prices gives 100 - RSI if and only if a remembered move exists |
| RsiMeaning.FallingIsNeverBought | cmd/dashboard/backtest.go:226-239 | a series that never rises produces no event for any oversold threshold up to 100 |
| RsiMeaning.FallingLive | cmd/dashboard/livestrategy.go:364-379 | nor does a live session ever get a buy signal on it |
| ReportMeaning.ComomentOfMarks | cmd/dashboard/backtest.go:159-177 | n * C is a positive multiple of the difference of the class means |
| ReportMeaning.SignOfCorrelation | cmd/dashboard/backtest.go:446-470 | the correlation with a 0/1 series has the sign of the difference of the class means, and is 0 when a class is empty or nothing varies |
| ReportMeaning.BuysAreMarks | cmd/dashboard/backtest.go:145-164 | buyN, counted over the rows, equals the sum of the indicator over the sample |
| ReportMeaning.ReportedCorrelation | cmd/dashboard/backtest.go:145-177 | the report's Correlation has the sign of (mean forward return on buy bars - mean on the others), else 0 |
| ReportMeaning.WinRateIsPercentage | cmd/dashboard/backtest.go:154-157 | WinRate lies in [0, 100] and is 100 only when every measured buy won |
| Ledger.LiveSession.constructor | cmd/dashboard/livestrategy.go:134-145 | a session starts flat with its capital in cash |
| Ledger.LiveSession.TotalValue | cmd/dashboard/livestrategy.go:69-74 | shares at the current price when long, else cash |
| Ledger.LiveSession.ApplySignal | cmd/dashboard/livestrategy.go:250-280 | one poll in place: trade if the position allows, record it, mark to market, keep the newest 2000 points |
| LedgerAgreement.SelfFinancing | cmd/dashboard/livestrategy.go:256-273 | trading at the current price never changes the account's worth |
| LedgerAgreement.SignalIsNext | cmd/dashboard/backtest.go:135-143 | in an alternating list the signal of a bar is that of the next event, if due |
| LedgerAgreement.FedFollows | cmd/dashboard/livestrategy.go:251-280 | after every bar cash, shares and history are those of the events reached so far |
| LedgerAgreement.LedgerAgrees | cmd/dashboard/livestrategy.go:251-280 | for every strategy and series the session fed the backtest's events ends with PnL = StratReturn, Trades = NumSignals and the same signals |
| EquityCurve.SessionReads | cmd/dashboard/livestrategy.go:250-280 | after any signals at positive prices: position, entry, trades and history are those of the signals, PnL is the growth of the price over the polls that held, and the curve keeps the newest 2000 such values |
| EquityCurve.ReturnIsHeldGrowth | cmd/dashboard/backtest.go:135-143 | StratReturn of every backtest is the growth of the closes over the bars on which it holds |
| LiveSignals.LiveSignalCrossover | cmd/dashboard/livestrategy.go:344-362 | buy or sell by which average is on top of the last bar, hold before both exist |
| LiveSignals.LiveSignalRSI | cmd/dashboard/livestrategy.go:364-379 | the side of the thresholds of the last RSI that is not 0 |
| LiveSignals.LiveSignalBollinger | cmd/dashboard/livestrategy.go:381-392 | where the last close lies against its own bands |
| LiveSignals.LiveSignalBreakout | cmd/dashboard/livestrategy.go:394-409 | buy above the highest close of the lookback, else hold |
| LiveSignals.ComputeLiveSignal | cmd/dashboard/livestrategy.go:328-342 | each named strategy with its fixed parameters; unknown names hold |
| StrategyReading.LiveCrossoverIff | cmd/dashboard/livestrategy.go:344-362 | hold up to slow closes, then buy or sell by the two averages of the last bar |
| StrategyReading.LiveRsiIff | cmd/dashboard/livestrategy.go:364-379 | buy or sell exactly by the last RSI that is not 0 |
| StrategyReading.LiveBollingerIff | cmd/dashboard/livestrategy.go:381-392 | buy exactly below a positive lower band, sell exactly above the middle |
| StrategyReading.LiveBreakoutIff | cmd/dashboard/livestrategy.go:394-409 | never sell, and buy exactly when the last close exceeds every close of the lookback |
| LiveAgreement.LiveOnPrefix | cmd/dashboard/livestrategy.go:328-409 | the signal on a prefix depends on that prefix's bars as the full series' indicators give them |
| LiveAgreement.SessionObeys | cmd/dashboard/livestrategy.go:250-280 | a session polled once per bar holds exactly what obeying each bar's own level would leave, skipped RSIs included |
| LiveAgreement.HeldIff | cmd/dashboard/backtest.go:202-214 | runCrossover holds after bar i if and only if fast is above slow and at some bar since slow was not |
| LiveAgreement.CrossoverAgreesIff | cmd/dashboard/livestrategy.go:344-362 | edge-triggered backtest and level-triggered session hold the same position if and only if fast was at some bar since slow not above slow |
| LiveAgreement.DecideObeysIff | cmd/dashboard/backtest.go:228-263 | on one bar backtest and level move alike unless the bar is torn: a held position sold though told to buy, or kept over a lower band of exactly 0 though told to sell |
| LiveAgreement.ObeyedDiffersIff | cmd/dashboard/backtest.go:226-264 | over whole runs the backtest's position differs from the obeyed levels exactly after an early start or a torn bar with no decisive bar since |
| LiveAgreement.PositionsAgreeIff | cmd/dashboard/livestrategy.go:364-392 | for RSI and Bollinger, on any positive closes, the exact condition for backtest and session to hold the same position after any bar |
| LiveAgreement.BreakoutSession | cmd/dashboard/livestrategy.go:394-409 | a breakout session is long if and only if some close was above all of its lookback |
| LiveAgreement.TradedIffBrokeOut | cmd/dashboard/backtest.go:278-297 | the backtest has traded if and only if that has happened |
| LiveAgreement.HeldWhileYoung | cmd/dashboard/backtest.go:278-297 | it holds if and only if its last buy is younger than the holding period |
| LiveAgreement.BreakoutAgreesIff | cmd/dashboard/livestrategy.go:394-409 | so the two hold the same position if and only if there was no breakout yet or the last buy is that young |
| LiveAgreement.BreakoutDiffers | cmd/dashboard/livestrategy.go:394-409 | on closes 1, 2, 2 they differ |
| LivePrices.HeldIffHeeded | cmd/dashboard/backtest.go:226-264 | the position of an RSI or Bollinger backtest as a fold over the bars' levels: a tearing bar turns RSI over and is ignored by Bollinger, every other bar is obeyed |
| LivePrices.PositionsAgreeOnPricesIff | cmd/dashboard/livestrategy.go:364-392 | the condition for agreement, with that fold in place of the backtest's position |
| LivePrices.RsiAgreesIff | cmd/dashboard/livestrategy.go:364-379 | with oversold <= overbought, backtest and session agree if and only if the session is not ahead by its early buy |
| LivePrices.HeldIffOpen | cmd/dashboard/backtest.go:278-297 | a breakout backtest holds if and only if a purchase, found from the prices alone, is at most holdBars bars old |
| LivePrices.BreakoutAgreesOnPricesIff | cmd/dashboard/livestrategy.go:394-409 | so the two agree if and only if there was no breakout yet or such a purchase is open |
| LivePrices.CrossoverDiffers | cmd/dashboard/livestrategy.go:344-362 | on closes 1, 2, 3, 4 with averages over 1 and 2 bars the session is long and the backtest flat |
| LivePrices.RsiDiffers | cmd/dashboard/livestrategy.go:364-379 | on closes 5, 6, 1, 3 with an RSI over 2 bars and thresholds 30 and 70 as well |
| LivePrices.RsiTears | cmd/dashboard/livestrategy.go:364-379 | on closes 5, 6, 1, 3, 3 with the thresholds exchanged as well |
| LivePrices.BollingerDiffers | cmd/dashboard/livestrategy.go:381-392 | on closes 2, 1, 1 with bands at half a deviation of 2 bars as well |
| LivePrices.BollingerTears | cmd/dashboard/backtest.go:253-264 | on ten closes whose last lower band is exactly 0 the backtest holds and the session is flat |
| LivePrices.FirstPollHolds | cmd/dashboard/livestrategy.go:221-223 | no strategy asks for anything on a single close |

## Left out

- Redis streams, consumer groups, publishing and message loss: their semantics are not in the repository, and the `XAUTOCLAIM` loop that its README describes (README.md:24) is not in `cmd/detector/main.go`.
- WebSocket ingestion, HTTP handlers, kline fetching, JSON, server-sent events and the browser page: input and output only.
- Custom Python strategies and the script that runs them: foreign code.
- Floating-point rounding, NaN and infinity: all arithmetic is over exact reals. Order flow's 0/0, possible only without a minimum volume, is modelled as "no ratio", which like NaN matches neither threshold.
- Prices are taken to be positive where a backtest or a session divides by them, and volumes to be non-negative where a lemma says so; the source ignores parse errors and checks neither.
- Averaging periods of 0 or less, negative lookbacks and ring capacities of 0: the source divides by zero or indexes out of range there.
- Alert messages, severities, dates, session ids and the BTC benchmark: presentation.
- Mutexes: each critical section is one atomic step; the cleanup's clock reading before its lock is a step of its own.
- Integer overflow of slice indices and tick counts, of `-2 * window` and of `time.Time.Add` at the ends of its range.
- The live session's 200-bar fetch window, which reseeds the EMA and the RSI, and polls within a bar: `LiveAgreement` polls once per closed bar, with all closes so far.
- The session's `tick` returns without polling on fewer than two closes (livestrategy.go:221), while `LiveAgreement.Polled` polls from the first close on: by `FirstPollHolds` that changes no position, but the equity curve has one more point.
- Worker.Work: a registry of exactly the three detectors, and one goroutine; a tick that is not valid JSON is not in the stream, and a failed publish is as good as a successful one.
- Worker.Registry.OnTick: three fields instead of a list of interfaces.
- The backtest request's defaults and parameter parsing.
- ShardedMaps.ShardedMap.Use: the candidate value is allocated before the lookup instead of only when the key is absent, and the callback is run by the caller after the call, so the lock's scope is not modelled; `VolumeSpikeDetector.Tick` and `OrderFlowImbalanceDetector.Tick` prove call and callback together. A candidate that is not stored is never used again.
- Dedup.Deduper.Check: the key is a tuple instead of a formatted string, and seconds count from Go's zero time instead of 1970.
- Dedup.Deduper.Clean: one pass; the ticker that starts passes, and their end at shutdown, are the events of `Dedup.Event`.
- RingBuffers.RingBuffer.Slice: returns a sequence instead of a new array, and n is not negative.
- CorrelationRuns.HiddenWarmup: the bound in time is stated for timestamps from Go's zero time on; the bound in samples for all timestamps.
- CorrelationRuns.GuardsNeverBind: stated for timestamps from Go's zero time on.
- PairSampling.AlertsExactly: stated for two different symbols, as are RunIs, SampledExactly and SnapshotIff; a pair of one symbol twice never gets a second price.
- StrategyReading.HeldSinceLow: for RSI thresholds in order; `LivePrices.HeldIffHeeded` has the general form.
- StrategyReading.LiveBollingerIff: stated for positive closes, stdDevs >= 0 and a full window.
- StrategyReading.LiveBreakoutIff: stated for lookbacks of at least one bar.
- LiveAgreement.PositionsAgreeIff: stated for positive closes and stdDevs >= 0.
- LivePrices.PositionsAgreeOnPricesIff: stated for positive closes and stdDevs >= 0.
- Ledger.LiveSession.ApplySignal: both clock readings of one call are the same parameter, and entry time is kept in its unit.
