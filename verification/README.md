# Verified model of the risk-control system

This project models the stateful core of a crypto-exchange risk-control system in Dafny and proves
what that core promises, for every input, every run and every interleaving. Four parts are covered.

1. **The exchange adapter** (`AdapterLifecycle`, `AdapterSafety`, `AdapterTheorems`, `AdapterClose`,
   `AdapterRecovery`, `AdapterProgress`, `AdapterRetry`, `TradeStream`, `AdapterStream`). The
   goroutines of the Binance futures adapter (one read loop, one keep-alive loop, any number of
   asynchronous reconnects, any number of Close callers) are a step machine: one step is one mutex
   operation, channel operation, atomic access or network call, and a schedule is any sequence of
   steps. An inductive invariant over all reachable states gives the safety theorems; what Close
   cannot promise is characterized exactly, and so is what follows a failed read, a failed keep-alive
   or an expired listenKey. `TradeStream` follows an update from the handler's non-blocking send
   through the bounded channel to Kafka, in closed form, and `AdapterStream` runs it together with
   the adapter's goroutines, for each of the four channels.
2. **The metrics pipeline** (`RedisStore`, `MetricsEngine`, `Redelivery`, `SharedRedis`,
   `KafkaConsumer`, `ConsumerLoop`, `ThreeConsumers`, `FreshnessAlarm`). Handlers are ordered
   sequences of Redis commands; a request may fail, be applied with its reply lost, or, for the
   pipelines of two commands, be cut in the middle. Each topic's consumer is a step machine over fetch, handle, commit
   and restart, and its loop, written as the program writes it, takes only that machine's steps.
   Three consumers and the ingestor's reconciler write one Redis: redelivery is shown not to change
   what one topic's handler alone writes, and what they share, the hashes and the last activity, is
   followed exactly. The alarm rule S-013 is shown accurate through second truncation and key expiry.
3. **The sentinel's data and rules** (`SentinelTypes`, `Collector`, `FundingCache`, `LegDistance`,
   `NetDelta`, `PositionRules`, `VolatilityRule`, `ApiHealth`). The trimmed price history refines
   the full log; the shared caches are a step machine over the accounts' goroutines; E-005 computes a
   metric; each diagnostic evaluator agrees with the alerting rule that walks the data a second time,
   in whatever order Go ranges over its maps.
4. **The sentinel's control loop** (`RuleCodes`, `Scheduler`, `ConfigSnapshot`, `Cooldown`,
   `Delivery`, `ConfigMerge`). Which rules run in a round while a reload rewrites the interval table
   under it, what alerts are let through, where a threshold comes from, and why a round never sees
   half of a reload's rules and thresholds.

Objects the program updates in place are classes proved against functions on values; protocols
between goroutines, processes or servers are step machines; the laws are lemmas about both. Ghost
fields named `log`, `history` or `fetched` record everything that ever happened to an object, so
that a bounded cache can be compared with the unbounded truth.

Conventions: times are integer milliseconds (seconds where a member says so); floating-point amounts
are exact reals; a Redis key with a lifetime is a value with an expiry time; what the environment
decides (network outcomes, clocks, map iteration order) is an input.

## Where the code falls short of its comments or its intent

The model follows the code. These are proved, each with a concrete run or an exact condition:

- `consumer.go` says a message whose handler failed is consumed again; the next success commits past
  it (`KafkaConsumer.FailedMessageIsSkipped`, `KafkaConsumer.CommitLosesNothingIff`).
- Last activity belongs to whichever of four writers, the three consumers and the reconciler, wrote it
  last, so redelivering an older message can send it back and raise a false S-013 alarm, even seconds
  after a reconciler tick (`ThreeConsumers.RedeliveryCanRaiseAlarm`; exactly when:
  `ThreeConsumers.ActivityOfRun`, `FreshnessAlarm.RedeliveryRaisesAlarmIff`). The reconciler marks the
  account as active with its own clock even when both of its queries failed, so its ticks also hide a
  stream that has gone silent (exactly when there is still an alarm: `FreshnessAlarm.AlarmAfterTickIff`).
- The reconciler writes the position and balance hashes with a field and a lifetime of its own, and a
  handler's write keeps its leftover field (what a hash holds of its last handling, exactly:
  `SharedRedis.HashSurvivesIff`, in runs: `ThreeConsumers.HashOfRunIff`).
- A redelivered trade can keep its account's set of traded symbols alive too long
  (`Redelivery.SymbolsCanSurvive`; exactly when: `Redelivery.SymbolsSurviveIff`, for whole batches:
  `Redelivery.SymbolsOfBatchIff`).
- Close can leave a connection open for good when it races with a reconnect (`AdapterClose.CloseCanLeak`;
  exactly when, seen from the moment it sets the flag: `AdapterClose.CloseCanLeakIff`, from the end of
  its locked section: `AdapterTheorems.CloseLeaksIff`; for good: `AdapterTheorems.LeakIsPermanent`).
  A Close that stops waiting after ten seconds can make the read loop send on a closed channel
  (`AdapterClose.TimedOutCloseCanPanic`; exactly when: `AdapterClose.TimedOutCloseCanPanicIff`).
- The read loop ends for good when it looks for the connection while another goroutine's reconnect has
  dropped the old one; that reconnect then stores a connection nobody reads
  (`AdapterRecovery.ReadLoopCanFallSilent`; exactly when a step ends it: `AdapterRecovery.ReadLoopEndsIff`,
  without Close only around a reconnect: `AdapterRecovery.SilentWithoutCloseMeansReconnect`; for good:
  `AdapterRecovery.DeafIsPermanent`).
- A reload writes the interval table that a running round reads, without the lock. A round can then
  evaluate a rule for some healthy accounts only (`Scheduler.ReloadCanSplitRound`; exactly when:
  `Scheduler.RoundIsUniformIff`). An interval once set by a database row survives the row's removal
  (`ConfigMerge.IntervalOutlivesItsRow`, `ConfigMerge.RemovedIntervalStays`, `ConfigMerge.ReloadTwice`;
  exactly when a reload's interval is that of its own rows: `ConfigMerge.ReloadedIntervalIff`). The read lock protects the rule list
  and the scalar thresholds, not the intervals.
- A rule's evaluation is not remembered when the round's last account failed, so the rule can run again
  within its interval (`Scheduler.DueAgainTooSoon`; exactly when: `Scheduler.DueAgainTooSoonIff`).
- The five-minute caches are checked and stored in separate critical sections, so two accounts of one
  round can both refresh them (`FundingCache.TwoAccountsStore`; exactly when the next store can come
  within five minutes of the last: `FundingCache.NextStoreEarlyIff`; what holds:
  `FundingCache.StoresFollowTheirView`).
- E-005 reports nothing in a round after an empty snapshot (`LegDistance.SkippedRoundHides`; exactly
  when it reports the whole move: `LegDistance.ReportedIsL1Iff`; what holds while positions stay open:
  `LegDistance.OpenPositionsHideNothing`).
- `Send` lists "set the cooldown key" as its last step; the key is set before delivery, so a delivery
  that reaches nobody still cools (`Cooldown.FailedDeliveryCools`; exactly when:
  `Cooldown.RetryIsCooledIff`).
- `pm_status_alert` cannot be switched off: ApplyDefaults turns it on again
  (`ConfigMerge.BuildRulesConfig`).
- M-001's reported top mover can be wrong when a checked symbol is the empty string
  (`VolatilityRule.NamelessCanWin`; exactly when: `VolatilityRule.TopIsMaxIff`).

## Model

| member | source | states |
|---|---|---|
| AdapterSafety.BackoffFollowsClosedForm | pkg/exchange/binance_futures.go:606-664 | doubling and capping after each failed attempt keeps the next backoff at min(2^k, 30) s and the time slept at 2^k - 1, then 31 + 30(k - 5) |
| AdapterRetry.Retry | pkg/exchange/binance_futures.go:606-680 | the loop succeeds iff the first attempt that does not fail connects; listenKeys created and seconds slept follow from the failures before it, whichever call failed |
| AdapterSafety.StepKeepsInv | pkg/exchange/binance_futures.go:307-681 | every step of every goroutine keeps the invariant over connections, locks, shutdown phase and counters |
| AdapterSafety.ReachableInv | pkg/exchange/binance_futures.go:117-153 | the invariant holds in every state of every interleaving after one Connect |
| AdapterTheorems.AtMostOneConnection | pkg/exchange/binance_futures.go:586-681 | at most one dialed connection is un-closed at any moment, and wsConn is nil while a reconnect holds a fresh one |
| AdapterTheorems.ChannelsClosedOnce | pkg/exchange/binance_futures.go:307-350 | stopCh and each output channel are closed at most once, in order; unless the wait timed out both loops have exited first and nothing is sent on a closed channel |
| AdapterTheorems.ReconnectAccounting | pkg/exchange/binance_futures.go:596-680 | in every run: listenKeys <= 1 + 10 reconnects, dials <= 1 + reconnects, at most ten attempts, and the closed forms for backoff and sleep whichever call failed |
| AdapterRecovery.DeadConnectionIsNotReadAgain | pkg/exchange/binance_futures.go:374-391 | in every run, what the read loop reads after a read of a connection failed is a connection dialed later, and a reconnect has been counted in between |
| AdapterRecovery.FailedReadRecoversIff | pkg/exchange/binance_futures.go:374-391 | after a failed read some continuation reads again, and then a connection dialed since, if and only if Close has not been called yet, whatever other reconnects are under way |
| AdapterRecovery.FailedKeepAliveReconnects | pkg/exchange/binance_futures.go:564-573 | after a failed keep-alive the keep-alive loop goes on only once a reconnect has been counted, unless Close came |
| AdapterRecovery.ExpiredKeyReconnects | pkg/exchange/binance_futures.go:408-415 | an expired listenKey starts one goroutine, which ends only once a reconnect has been counted, unless Close came; the read loop goes on meanwhile |
| AdapterRecovery.GoroutinesStartIff | pkg/exchange/binance_futures.go:408-415 | a step starts a goroutine if and only if it is a call of Close or the delivery of an expired listenKey |
| AdapterRecovery.KeeperLivesUntilStop | pkg/exchange/binance_futures.go:555-579 | in every run the keep-alive loop ends only after stopCh was closed, however its reconnects went |
| AdapterRecovery.ReadLoopEndsIff | pkg/exchange/binance_futures.go:356-393 | a step ends the read loop if and only if it finds itself stopped or no connection, or its reconnect failed |
| AdapterRecovery.SilentWithoutCloseMeansReconnect | pkg/exchange/binance_futures.go:366-372 | in every run, when the read loop ends without Close, its own reconnect failed or there is no connection and some dial is still to come, failed, or is not stored yet |
| AdapterRecovery.ReadLoopCanFallSilent | pkg/exchange/binance_futures.go:366-372 | it happens, with every network call succeeding: a listenKey expires, the read loop ends, and the connection stored afterwards is read by nobody |
| AdapterRecovery.DeafIsPermanent | pkg/exchange/binance_futures.go:356-393 | a read loop that has ended stays ended |
| AdapterClose.CloseCanLeakIff | pkg/exchange/binance_futures.go:309-329 | seen from the moment Close sets the flag, some continuation has a connection open after the locked section if and only if some reconnect is past its closed check, not out of attempts and not already storing under wsMu |
| AdapterClose.CloseWithoutRaceLeavesNothing | pkg/exchange/binance_futures.go:309-329 | if no reconnect is past its closed check when Close sets the flag, no connection is open from the end of the locked section on, whatever follows |
| AdapterTheorems.CloseLeaksIff | pkg/exchange/binance_futures.go:317-329 | at the end of Close's locked section, some continuation leaves a connection open if and only if some reconnect is past its last look at stopCh |
| AdapterTheorems.LeakIsPermanent | pkg/exchange/binance_futures.go:321-350 | a connection open after Close's locked section is never closed again |
| AdapterClose.CloseCanLeak | pkg/exchange/binance_futures.go:586-681 | it happens: a run in which Close overtakes a keep-alive reconnect at its listenKey request and a connection stays open |
| AdapterClose.TimedOutCloseCanPanicIff | pkg/exchange/binance_futures.go:331-346 | after Close's timer fires, some continuation sends on a closed channel if and only if the read loop has a message in hand, is about to read one, or will still find a connection (one is stored or in flight) |
| AdapterClose.TimedOutCloseCanPanic | pkg/exchange/binance_futures.go:331-346 | it happens: a concrete schedule in which Close gives up waiting and the read loop then sends on a closed channel |
| AdapterProgress.CloseCanFinish | pkg/exchange/binance_futures.go:307-350 | Close is never stuck: from every reachable state in which it has told everybody to stop and not given up there is a continuation, without its timer, in which both loops end, it closes every channel in order and returns |
| AdapterProgress.ReconnectFollows | pkg/exchange/binance_futures.go:606-680 | for every way the ten attempts can go there is a run that takes them one by one: a new connection is stored iff one connects before the tenth has failed, with one listenKey per attempt whose request did not fail |
| AdapterProgress.KeepAlivesChangeNothing | pkg/exchange/binance_futures.go:560-577 | any number of successful keep-alives leaves everything as it was |
| TradeStream.StreamIsConserved | pkg/exchange/binance_futures.go:469-473 | handled = dropped + queued + taken, the queue never exceeds capacity, and published, in-flight and queued updates are an in-order duplicate-free subsequence of those handled |
| TradeStream.NothingElseIsLost | services/exchange-ingestor/ingestor.go:116-146 | without drops and publish failures the pipeline holds exactly the updates handled, and a loop that ended because the channel was closed has published all of them |
| TradeStream.StreamIsExact | pkg/exchange/binance_futures.go:469-473 | every schedule decides the stream: an update is kept iff fewer than capacity updates kept before it have not been taken, the queue and the update in flight are the kept ones not yet published, and what is published are the kept ones, in order, whose marshalling and publishing worked |
| TradeStream.NothingIsDroppedIff | pkg/exchange/binance_futures.go:469-473 | nothing is dropped if and only if at every moment at most capacity more updates have been handled than taken |
| TradeStream.DropsWhenFullIff | pkg/exchange/binance_futures.go:469-473 | a handler drops its update if and only if capacity updates are neither dropped nor taken |
| TradeStream.CanCatchUp | services/exchange-ingestor/ingestor.go:116-146 | until the loop has returned there is a continuation that publishes everything in flight and queued |
| TradeStream.ReturnsIff | services/exchange-ingestor/ingestor.go:116-146 | the loop can return iff it is waiting and has been stopped, or the channel is closed and empty |
| TradeStream.ClosedOnce | services/exchange-ingestor/ingestor.go:116-146 | the channel is closed at most once and nothing is handled after that |
| AdapterStream.AdapterIsRefusedIff | pkg/exchange/binance_futures.go:469-473 | the adapter never waits for a stream: a step it can take the two take together, unless it is a send on a channel already closed, which only a Close whose wait timed out leaves to come |
| AdapterStream.SentIsPublished | services/exchange-ingestor/ingestor.go:116-146 | for every channel and every interleaving of the adapter's goroutines and Close calls with the ingestor's loop: sent = dropped + queued + taken, published is an in-order part of sent, nothing is dropped iff the loop is never more than capacity behind the sends, and without drops and failures a loop that ended because the channel was closed has published exactly what was sent, after which nothing is sent unless the wait timed out |
| AdapterStream.EveryMessageIsSent | pkg/exchange/binance_futures.go:396-551 | in every run, what was sent on a channel and what is still to be sent of the message in hand are exactly as many updates as the messages read hold for it: one per trade, and per account update its balances, its positions and one |
| AdapterStream.SendsInOrder | pkg/exchange/binance_futures.go:477-551 | an account update's balances are sent before its positions, and the account itself last |
| MetricsEngine.Engine.HandleTradeEvent | services/risk-engine/metrics/engine.go:111-155 | applies exactly a prefix of the trade's six commands, in order, a pipeline possibly cut in the middle, and reports success only when every request was acknowledged |
| MetricsEngine.Engine.HandleSnapshot | services/risk-engine/metrics/engine.go:159-241 | the same for position and balance snapshots' four commands |
| Redelivery.WindowIsRecentLog | services/risk-engine/metrics/engine.go:121-130 | after every handled trade the sorted set, hence its count, is exactly the distinct trade IDs of the full log later than the cutoff, with late arrivals, duplicates and earlier failures |
| Redelivery.TradeHandled | services/risk-engine/metrics/engine.go:111-155 | everything one successful trade leaves: its window trimmed with the trade in it, its symbol with a new lifetime, both stamps at its second for a day, and nothing else changed |
| Redelivery.PositionHandled | services/risk-engine/metrics/engine.go:159-198 | everything one successful position snapshot leaves: the hash of its account and symbol for two hours, both stamps, and nothing else changed |
| Redelivery.BalanceHandled | services/risk-engine/metrics/engine.go:204-241 | the same for a balance and the hash of its account and asset |
| Redelivery.CutSnapshotStaysIff | pkg/store/redis.go:152-159 | a snapshot cut between HSET and EXPIRE leaves a hash without a lifetime if and only if no live hash with one was there |
| SharedRedis.RedeliveryErasesAttempts | services/risk-engine/metrics/engine.go:111-241 | after any cut-short, repeated, reordered attempts at a topic's messages, handling them in order leaves every key that topic's handler alone writes as a single delivery would, whatever the other two handlers and the reconciler do in either history |
| SharedRedis.ActivitySurvivesIff | services/risk-engine/metrics/engine.go:138-232 | with all four writers: the stored last activity is the same after what is done again if and only if none of it wrote the activity or its last write carries the second of the last write before, of whichever writer; it goes back iff that second is smaller |
| SharedRedis.DoReconcile | services/exchange-ingestor/reconciler.go:116-182 | one reconciler round: every row of the answers that came, in order, each HSET with its own fields and, unless cut, its two-minute EXPIRE, then the activity stamp at its own clock, whether or not either answer came |
| SharedRedis.ReconcilerWrites | services/exchange-ingestor/reconciler.go:130-145 | a hash the reconciler writes has its amounts and its own field over what was alive in it, for two minutes; the activity it writes is its own clock's second, for a day |
| SharedRedis.HashSurvivesIff | services/exchange-ingestor/reconciler.go:130-145 | a position or balance hash holds exactly what its last complete handling alone would have left if and only if the reconciler has not written it since and none of the reconciler's fields was alive in it then |
| SharedRedis.SharedWindowIsRecentLog | services/risk-engine/metrics/engine.go:121-130 | the same with every other writer in between: the window is that of the trade handler's calls alone |
| Redelivery.SymbolsSurviveIff | pkg/store/redis.go:132-139 | attempting a trade and redelivering it leaves the symbol set of a single handling at every later time if and only if the attempt did not reach EXPIRE, or no other symbol was alive, or the set would still have been alive exactly if the attempt's lifetime was not over |
| Redelivery.SymbolsOfBatchIff | pkg/store/redis.go:132-139 | after any two pasts a batch handled in full leaves the account's symbol set the same at every later time if and only if two of its trades in a row are a window apart or, at the first of them, the pasts' live symbols differ in none the batch does not trade |
| Redelivery.SymbolsCanSurvive | pkg/store/redis.go:132-139 | it happens: a repeated trade keeps another symbol alive past its expiry |
| KafkaConsumer.CommitsAreAtLeastOnce | pkg/mq/consumer.go:69-112 | in every run with failures and restarts the committed offset never goes back, follows a success, and everything below it was passed to the handler |
| KafkaConsumer.CommitLosesNothingIff | pkg/mq/consumer.go:88-108 | a commit loses no message if and only if none was lost before and none from the committed offset up to it has only failed |
| KafkaConsumer.FailedMessageIsSkipped | pkg/mq/consumer.go:88-108 | a concrete run: after a failure followed by a success even a restart resumes past the failed message |
| KafkaConsumer.CrashesDoNotShowAlone | pkg/mq/consumer.go:69-112 | one consumer on a store of its own: when no commit jumped over a failure and the session has caught up, the store holds what handling every message once, in order, without failure would have left |
| KafkaConsumer.RestartRepairs | pkg/mq/consumer.go:69-112 | after any run that committed over no failure, a restart and one undisturbed pass commit the whole log and leave in the store what handling every message once, in order, would have |
| ThreeConsumers.CrashesDoNotShow | services/risk-engine/metrics/engine.go:66-90 | three consumers and the reconciler over one Redis, any interleaving, crashes anywhere: a consumer that never commits over a failure and has caught up has left, on every key its handler alone writes (hashes only where the reconciler writes none), what handling its messages once would have |
| ThreeConsumers.HashOfRunIff | services/exchange-ingestor/reconciler.go:130-145 | and a hash the reconciler may write too holds what its last complete handling would have left if and only if the reconciler has not written it since and left no live field in it before |
| ThreeConsumers.ActivityOfRun | services/exchange-ingestor/reconciler.go:178-181 | in every run of the consumers and the reconciler the stored activity is the last writer's, and a continuation preserves it, or sends it back, exactly by the second its own last writer carries |
| ThreeConsumers.RedeliveryCanRaiseAlarm | services/risk-engine/alert/rules/s013.go:71-100 | it happens: after a trade and a reconciler tick, the trade's redelivery sends the activity back and S-013 raises an alarm two seconds after the tick that it would not have raised |
| ConsumerLoop.Consumer.TakeTurn | pkg/mq/consumer.go:82-110 | one turn of the loop, with the metrics handlers called in it, is exactly the machine's fetch, handle and commit steps, up to the point where the process dies |
| ConsumerLoop.Consumer.Start | pkg/mq/consumer.go:69-112 | a session, ended by its context or by a crash anywhere in a turn, with the other handlers and the reconciler writing Redis between its turns, is a restart and then every turn's steps in order, so all theorems about the machine's runs hold of the loop; the committed offset never goes back |
| FreshnessAlarm.S013Rule.Check | services/risk-engine/alert/rules/s013.go:71-100 | failure without account, store or connection; otherwise the verdict on the stored activity, at the configured threshold or 30 s |
| FreshnessAlarm.HandlingWritesActivity | services/risk-engine/metrics/engine.go:138-145 | every successfully handled message of any kind leaves its own time as the account's activity |
| FreshnessAlarm.NeverMisses | services/risk-engine/alert/rules/s013.go:71-100 | a true gap beyond the threshold always raises the alarm |
| FreshnessAlarm.OneSecondEarlyIff | pkg/store/redis.go:192-209 | the alarm is never more than a second early if and only if the threshold does not outlast the 24-hour key by more than that second |
| FreshnessAlarm.AlarmIsAccurate | services/risk-engine/alert/rules/s013.go:71-100 | for thresholds up to 24 h, both directions end to end from a handled message |
| FreshnessAlarm.RedeliveryRaisesAlarmIff | services/risk-engine/alert/rules/s013.go:71-100 | doing more, redeliveries and reconciler ticks included, raises an alarm that would not have been raised if and only if the last write before is alive and within the threshold, and there is a last write since whose key is dead or whose second is beyond it |
| FreshnessAlarm.AlarmAfterTickIff | services/exchange-ingestor/reconciler.go:178-181 | within a threshold of a reconciler tick there is an alarm if and only if something wrote the activity after it and that last write is not fresh; a silent stream raises none |
| Collector.PriceCollector.RecordPrice | internal/sentinel/collector.go:254-265 | the history becomes exactly the appended one from its first sample within two hours on; every history stays a non-empty suffix of its log that holds all points of the last two hours, whatever order the clocks come in |
| Collector.PriceCollector.CollectPrices | internal/sentinel/collector.go:214-247 | a round adds to every symbol's log exactly its samples: the premium price for the target, else each position's positive mark price |
| Collector.TrimmedStillRefines | internal/sentinel/collector.go:254-265 | trimming by any clock reading keeps the refinement |
| Collector.TrimmedIsRecent | internal/sentinel/collector.go:254-265 | a trimmed history begins within two hours of the sample just recorded and ends with it |
| Collector.SamplesAre | internal/sentinel/collector.go:214-247 | a round records for the target with a positive premium price that price alone, and for any other symbol the mark price of each position that has one, in order |
| Collector.RecentSamplesAreKept | internal/sentinel/collector.go:254-265 | every point no older than the largest clock reading minus two hours is still there |
| Collector.SameStartSampleIff | internal/sentinel/rules.go:1092-1105 | M-001 starts from the same sample as on the untrimmed log if and only if no dropped sample lies in the window |
| Collector.TrimmingIsInvisible | internal/sentinel/rules.go:1092-1105 | for windows within two hours: same start price, current price and jump as on the untrimmed log, with a positive divisor |
| Collector.LongerWindowCanDiffer | internal/sentinel/rules.go:1092-1105 | a concrete longer window for which the start price differs |
| FundingCache.StoresFollowTheirView | internal/sentinel/collector.go:161-194 | for any number of accounts and any interleaving of their decide, fetch and store steps, every store's clock is more than five minutes after that of the store its decision saw last, and every decision has seen all of its own account's stores |
| FundingCache.CloseStoresOverlap | internal/sentinel/collector.go:161-194 | consecutive stores at most five minutes apart come from two accounts that both decided before either stored |
| FundingCache.NextStoreEarlyIff | internal/sentinel/collector.go:161-194 | the next store can come at most five minutes after the last one, in some continuation, if and only if some account is already fetching or holding an answer on a clock within those five minutes |
| FundingCache.TwoAccountsStore | internal/sentinel/collector.go:76-89 | it happens, at gaps of any size |
| FundingCache.SharedCache.IsStale | internal/sentinel/collector.go:162-164 | the check under the mutex is the machine's decide step |
| FundingCache.SharedCache.Put | internal/sentinel/collector.go:172-175 | the store under the mutex is the machine's save step |
| FundingCache.Merge | internal/sentinel/collector.go:196-209 | a fresh array with every schedule entry's rate and next funding time taken from the premium index; the caches keep their contents |
| FundingCache.PremiumRateWins | internal/sentinel/rules.go:923-945 | E-008 charges a scheduled symbol the premium index's rate whenever that is non-zero, at a schedule entry's interval |
| LegDistance.EvalE005 | internal/sentinel/rules.go:506-557 | total change, changed and closed legs and the trigger, for any order of the second map range |
| LegDistance.SameLegIff | internal/sentinel/rules.go:514-527 | two positions share a leg if and only if symbol and side agree, for sides without a bar |
| LegDistance.L1IsMetric | internal/sentinel/rules.go:506-557 | the distance is symmetric, zero exactly when every leg agrees, and obeys the triangle inequality |
| LegDistance.ZeroDistanceMeansEqual | internal/sentinel/rules.go:506-557 | among maps without zero legs, distance zero means equal maps |
| LegDistance.TotalChangeIsL1 | internal/sentinel/rules.go:506-557 | with distinct legs and non-negative notionals the rule's total change is that distance |
| LegDistance.Snapshots.Collect | internal/sentinel/collector.go:132-139 | the previous snapshot is always the account's last successful fetch |
| LegDistance.ReportedIsL1Iff | internal/sentinel/rules.go:506-557 | a round reports the whole distance if and only if its previous snapshot was not empty or every current leg is zero |
| LegDistance.SmallStepsHideNothing | internal/sentinel/rules.go:506-557 | over any consecutive rounds the summed changes plus the skipped openings are at least the distance from first to last |
| LegDistance.NothingSkipped | internal/sentinel/rules.go:512-516 | nothing is skipped when no snapshot but the last is empty |
| LegDistance.OpenPositionsHideNothing | internal/sentinel/rules.go:506-557 | so over consecutive rounds with open positions the summed reports are at least the distance from first to last |
| LegDistance.SkippedRoundHides | internal/sentinel/rules.go:506-516 | it happens: closing everything and then opening another leg reports less than the distance |
| NetDelta.ConvertPositions | internal/sentinel/client.go:558-580 | the result comes from the non-empty rows, all of them and in order, each with notional \|quantity * mark\| |
| NetDelta.DeltaIgnoresOrder | internal/sentinel/rules.go:473-480 | net delta is the same for every order of the positions |
| NetDelta.DeltaIsBounded | internal/sentinel/client.go:558-580 | net delta is at most the sum of the notionals in absolute value |
| NetDelta.DeltaIsLongLessShort | internal/sentinel/rules.go:473-480 | with positive marks, net delta is the long positions' notionals less the short ones' |
| NetDelta.HedgesCancel | internal/sentinel/rules.go:473-480 | equal and opposite quantities at one mark leave net delta as it was |
| NetDelta.ShortIsNegative | internal/sentinel/rules.go:473-480 | a short of two at three counts as minus six |
| NetDelta.EvalE001 | internal/sentinel/rules.go:413-470 | triggers if and only if \|change\| >= min(A, r max(\|prev\|, A)), always for A <= 0, with the zero divisor's outcome and the skip reasons |
| NetDelta.BoundIsBetween | internal/sentinel/rules.go:413-470 | so always at \|change\| >= A and, for r <= 1, never below r A |
| NetDelta.BoundIs | internal/sentinel/rules.go:413-470 | for positive settings the rule fires iff the change reaches the absolute threshold, or the rate's share of both the previous delta and that threshold |
| PositionRules.EvalL002 | internal/sentinel/rules.go:742-785 | counts, minimum distance with the first position attaining it, highest level and skip reason |
| PositionRules.RuleL002 | internal/sentinel/rules.go:703-740 | one alert per position within a threshold, in order, with its level |
| PositionRules.L002TwinsAgree | internal/sentinel/rules.go:703-785 | alerts equal the evaluator's count, exist iff it triggered, and the highest level is L3 iff the minimum distance is at most the L3 threshold iff an L3 alert goes out |
| PositionRules.LevelIs | internal/sentinel/rules.go:703-785 | in prices: L3 within the L3 share of the mark price on either side of it, else L2 within the L2 share, and nothing without both prices |
| PositionRules.HighestIsNoneIff | internal/sentinel/rules.go:742-785 | the highest level is none iff no position is within a threshold |
| PositionRules.EvalL003 | internal/sentinel/rules.go:825-853 | counts, maximum rank with the first position attaining it, and skip reason |
| PositionRules.RuleL003 | internal/sentinel/rules.go:793-823 | one alert per position whose ADL rank reaches the threshold, in order |
| PositionRules.L003TwinsAgree | internal/sentinel/rules.go:793-853 | alerts equal the evaluator's count, and it triggers iff there is ADL data whose maximum reaches the threshold |
| PositionRules.EvalE008 | internal/sentinel/rules.go:923-976 | paying and costly counts, the maximum annualized rate with the first paying position attaining it and that position's cost, and skip reason |
| PositionRules.RuleE008 | internal/sentinel/rules.go:862-921 | one alert per paying position whose annualized rate reaches the threshold, in order, with the rule's own cooldown |
| PositionRules.E008TwinsAgree | internal/sentinel/rules.go:862-976 | alerts equal the evaluator's count, exist iff it triggered, and that is iff some position pays and the maximum rate reaches the threshold |
| PositionRules.FundingIs | internal/sentinel/rules.go:934-939 | a symbol's rate is its last non-zero schedule entry |
| PositionRules.PaysIff | internal/sentinel/rules.go:941-949 | a position pays iff quantity and rate have the same sign |
| PositionRules.YearlyReaches | internal/sentinel/rules.go:950-955 | the yearly rate reaches a threshold iff rate times 8760 reaches it times the hours between settlements, eight without an interval |
| VolatilityRule.CollectorIsPositive | internal/sentinel/collector.go:254-265 | the prices M-001 divides by are positive because the collector only records positive ones |
| VolatilityRule.EvalM001 | internal/sentinel/rules.go:1134-1215 | all, checked and hit symbols counted as sets whatever the map order, the first five checked with their jumps, the top mover with its direction, prices and samples, and the skip reasons |
| VolatilityRule.RuleM001 | internal/sentinel/rules.go:1060-1132 | the alerts are those of the hit symbols, in the order visited |
| VolatilityRule.M001TwinsAgree | internal/sentinel/rules.go:1060-1215 | the twins agree although three ranges over the map may use three orders: one alert per hit symbol, each with its own cooldown key |
| VolatilityRule.HitIff | internal/sentinel/rules.go:1134-1215 | in prices: a symbol is hit iff it has two samples and the current price is at least the threshold's share of the start price above or below it, where the start is the first sample in the window, else the latest, and the current price is the last positive mark price, else the latest sample |
| VolatilityRule.CheckedIff | internal/sentinel/rules.go:1143-1165 | the symbols checked are the account's own and every one with a positive mark price, if they have two samples |
| VolatilityRule.ReportIs | internal/sentinel/rules.go:1166-1201 | the top mover's direction, prices and samples, on the samples themselves |
| VolatilityRule.JumpsAreRelative | internal/sentinel/rules.go:1182-1184 | multiplying every price by one positive factor changes no jump and no hit |
| VolatilityRule.TopIsMaxIff | internal/sentinel/rules.go:1190-1201 | the reported top jump is the maximum in every order if and only if no checked empty-named symbol out-jumps all others |
| VolatilityRule.NamelessCanWin | internal/sentinel/rules.go:1190-1201 | it happens: an input and an order for which the reported top is not the maximum |
| VolatilityRule.RuleSeesTheFullLog | internal/sentinel/rules.go:1134-1215 | within two hours, M-001 checks, hits and reports on the trimmed histories exactly what it would on everything ever recorded |
| ApiHealth.HealthMeter.RecordLatency | internal/sentinel/client.go:360-378 | the counters are those of the open window of the full request log |
| ApiHealth.HealthMeter.GetHealthStats | internal/sentinel/client.go:381-405 | statistics exist iff something was logged; total = number of latencies > 0, errors <= total, average = sum / total <= maximum |
| ApiHealth.OpenersOpen | internal/sentinel/client.go:364-371 | every request is in one window of the greedy partition, and so is the request that opened it |
| ApiHealth.WindowsAreShort | internal/sentinel/client.go:364-371 | a request is at most five minutes after its window's opener |
| ApiHealth.WindowsAreContiguous | internal/sentinel/client.go:364-371 | windows never interleave |
| ApiHealth.OpenWindowIsExact | internal/sentinel/client.go:364-377 | the counters count exactly the requests of the latest window |
| Cooldown.Alerter.Send | internal/sentinel/alerter.go:57-104 | an alert passes iff Redis cannot be asked or no earlier admission on its key is within the lifetime chosen for that admission; Sent, Failed and Cooled as the source returns them |
| Cooldown.AttemptsAreBounded | internal/sentinel/alerter.go:57-78 | under any mix of overrides and defaults a key is admitted at most span / (shortest lifetime) + 1 times in any span |
| Cooldown.RetryIsCooledIff | internal/sentinel/alerter.go:67-96 | after a failed delivery, a retry Redis is asked about is suppressed if and only if the first attempt was let through by Redis and its lifetime is not over, or Redis was not asked then and an earlier admission still cools |
| Cooldown.FailedDeliveryCools | internal/sentinel/alerter.go:67-96 | it happens: one chat out of reach once, and a suppressed retry a second later |
| Cooldown.DefaultKeysSeparate | internal/sentinel/alerter.go:59-62 | with no colon in rule codes, default keys are equal iff rule and account are |
| Cooldown.SymbolKeysSeparate | internal/sentinel/rules.go:1125-1126 | M-001's per-symbol key never meets another rule's default key |
| Cooldown.NextIsCooledIff | internal/sentinel/alerter.go:57-79 | in the alerts' own fields: an alert that was let through cools another one iff both carry the same own key, or neither has one and rule and account agree, or one's own key is the other's default, and the first one's lifetime, its override or else the default then in force, is not over |
| Cooldown.SymbolsCoolAlone | internal/sentinel/rules.go:1125-1126 | M-001's alerts cool each other by symbol alone: two symbols both go out, one symbol of two accounts once per lifetime |
| Cooldown.MissingOneChatFails | internal/sentinel/alerter.go:81-98 | an alert that misses one chat of two has failed |
| Scheduler.Engine.Evaluate | internal/sentinel/engine.go:95-318 | the evaluations of a round, each decided by the shared interval table as its own read sees it with a reload's row writes in between, the alerts they raise in order, and the remembered times |
| Scheduler.WhoEvaluates | internal/sentinel/engine.go:107-124 | a healthy account evaluates a rule iff the table its read sees makes it due; an errored account runs S-004 and nothing else |
| Scheduler.RoundIsUniformIff | internal/sentinel/engine.go:107-124 | a round evaluates a rule for every healthy account or for none if and only if no two of their reads see its entry on different sides of the due boundary |
| Scheduler.NoCrossingIsUniform | internal/sentinel/store.go:158-167 | so it is uniform when no row written during the round moves the rule's interval across that boundary |
| Scheduler.ReloadCanSplitRound | internal/sentinel/store.go:158-167 | it happens: a reload between two accounts makes a rule due for the second only, and its time is remembered |
| Scheduler.RoundTraceIsDistinct | internal/sentinel/engine.go:95-318 | no rule is evaluated twice for an account in a round |
| Scheduler.RoundTraceInOrder | internal/sentinel/engine.go:95-318 | evaluations go account by account and, for one account, in the order of the rule list |
| Scheduler.RoundAlertsAreSlices | internal/sentinel/engine.go:107-313 | the alerts of a round are cut into one slice per evaluation, in order, each exactly what that rule returns on that account's data |
| Scheduler.AlertIsRaisedIff | internal/sentinel/engine.go:107-313 | an alert goes out in a round iff some account's data make a rule return it and that rule is due by the table its read sees, or is S-004 for an errored account |
| Scheduler.RoundRaises | internal/sentinel/engine.go:312-313 | it happens: one healthy account, one rule, one alert |
| Scheduler.Engine.Deliver | internal/sentinel/engine.go:321-346 | sent + cooled + failed = alerts raised, each decided under the cooldowns the earlier ones set; a dry run counts all as sent and changes nothing |
| Scheduler.RemembersLastEvaluation | internal/sentinel/engine.go:315-318 | with a steady interval and healthy last accounts, a rule's remembered time is the start of the last round that evaluated it |
| Scheduler.EvaluationsAreSpaced | internal/sentinel/engine.go:359-376 | with the last account healthy and rounds at most d apart, consecutive evaluations start at least I and less than I + d apart |
| Scheduler.DueAgainTooSoonIff | internal/sentinel/engine.go:314-318 | within its interval a rule is due again in the next round iff the last account of the evaluating round was errored |
| Scheduler.DueAgainTooSoon | internal/sentinel/engine.go:314-318 | it happens: with an errored second account a rule set to once a minute is evaluated twice within twenty seconds |
| Scheduler.RunsEveryRoundIff | internal/sentinel/engine.go:359-376 | a rule runs every round whatever happened before iff it has no positive interval above the poll interval |
| ConfigSnapshot.StepKeepsInv | internal/sentinel/engine.go:68-92 | lock and field accesses, one at a time, keep readers and writers apart |
| ConfigSnapshot.SnapshotsAreNeverTorn | internal/sentinel/engine.go:68-92 | under any interleaving of reloads and rounds a round's rules and thresholds come from one published pair, the newest |
| ConfigSnapshot.ReloadIsSeen | internal/sentinel/engine.go:68-92 | whenever nobody holds the lock a reload can publish any pair and a snapshot can then return it |
| ConfigSnapshot.LocksIff | internal/sentinel/engine.go:68-92 | in every reachable state a reload can take the lock iff nobody holds it in any way, and a round the read lock iff no reload holds it |
| ConfigMerge.RulesConfig.ApplyDefaults | internal/sentinel/config.go:170-234 | every zero threshold is filled, the status alert is on, and an existing interval table is kept |
| ConfigMerge.RulesConfig.ApplyRow | internal/sentinel/store.go:158-246 | a row sets exactly its own fields, the status alert if it is L-001's, and, with a valid interval, its entry of the shared table |
| ConfigMerge.BuildRulesConfig | internal/sentinel/store.go:152-251 | a fresh configuration over unchanged default thresholds that shares the defaults' interval table |
| ConfigMerge.ReloadRulesFromDB | internal/sentinel/store.go:290-317 | a reload's rules and thresholds, and no change at all when the rules cannot be read |
| ConfigMerge.ReloadedIsMerged | internal/sentinel/store.go:152-286 | every threshold of a reload is the three-source merge for that field alone |
| ConfigMerge.Precedence | internal/sentinel/store.go:149-151 | row value if non-zero once stored, program default if the row gives zero, else, or without a row, file value, else program default |
| ConfigMerge.NothingConfigured | internal/sentinel/config.go:170-234 | with nothing configured a reload gives the program's nineteen thresholds |
| ConfigMerge.AccountRow | internal/sentinel/store.go:168-174 | L-001's keys set their own fields, whatever the values |
| ConfigMerge.ExposureRows | internal/sentinel/store.go:179-190 | E-001's and E-005's keys set their own fields |
| ConfigMerge.PositionRows | internal/sentinel/store.go:205-216 | L-002's and L-003's keys set their own fields |
| ConfigMerge.FundingRows | internal/sentinel/store.go:192-224 | E-008c's and E-008's keys set their own fields |
| ConfigMerge.SystemRows | internal/sentinel/store.go:200-232 | S-004's and S-014's keys set their own fields |
| ConfigMerge.MarketRow | internal/sentinel/store.go:234-243 | M-001's keys set their own fields |
| ConfigMerge.IntervalInIff | internal/sentinel/store.go:159-166 | a row sets an interval iff it has a duration text that says more than zero |
| ConfigMerge.TruncateIs | internal/sentinel/store.go:192-204 | an integer field holds the whole part of the row's value, towards zero |
| ConfigMerge.TruncatesToZeroIff | internal/sentinel/store.go:195-201 | an integer field reads as zero iff the row's value is strictly between -1 and 1 |
| ConfigMerge.OrderOfRowsDoesNotMatter | internal/sentinel/store.go:152-251 | with distinct codes any permutation of the rows gives the same thresholds |
| ConfigMerge.RepeatedCodeCanDiffer | internal/sentinel/store.go:152-251 | with a repeated code it would not; the rule table's unique code column (scripts/init_mysql.sql) keeps the loader from delivering one |
| ConfigMerge.NeverZero | internal/sentinel/config.go:170-234 | no threshold is ever zero |
| ConfigMerge.FillingAgainChangesNothing | internal/sentinel/config.go:170-234 | ApplyDefaults is idempotent |
| ConfigMerge.ReloadTwice | internal/sentinel/store.go:153-163 | a reload's thresholds owe nothing to the reload before; its intervals do, and both configurations share one table |
| ConfigMerge.RemovedIntervalStays | internal/sentinel/store.go:158-167 | an interval set by one reload survives a later one without it |
| ConfigMerge.ReloadedIntervalIff | internal/sentinel/store.go:158-167 | a rule's interval after a reload is what that reload's rows alone would give it if and only if they set it or the reload before left its entry as it was |
| ConfigMerge.IntervalOutlivesItsRow | internal/sentinel/store.go:158-167 | it happens: a concrete pair of reloads whose second has no interval row left |
| ConfigMerge.FilterRulesByDB | internal/sentinel/store.go:321-334 | the filtered list is the known rules that have a row, in the program's order |
| ConfigMerge.KeptIsExact | internal/sentinel/store.go:321-334 | membership iff known and enabled, without repeats |
| ConfigMerge.KeptInOrder | internal/sentinel/store.go:321-334 | in the program's order |
| ConfigMerge.AllRulesAreDistinct | internal/sentinel/rules.go:165-179 | the program's rule codes are distinct, which the scheduler relies on |

## Left out

- Transport and encoding: HTTP, WebSocket, Telegram, MySQL, ClickHouse and Kafka wire formats, request signing and JSON decoding; each call is a success or failure that returns a typed value.
- Message texts, titles, detail labels, logging, command-line flags and signal handling.
- Rules P-001, S-004, L-001, E-008c and S-014: straight-line threshold checks without a second walk over the data.
- The SQL stores, the producer, the registries, and the collector's permission check. Of the reconciler its writes to Redis are modelled; its REST queries, its publishing to Kafka, rows that do not marshal and its permission loop are not.
- Liveness: the model claims what can still happen (`AdapterProgress.CloseCanFinish`, `AdapterRecovery.FailedReadRecoversIff`), not that a fair schedule brings it about, nor that a due round takes place.
- Float rounding and NaN: amounts are exact reals. Integer widths: counters and conversions do not overflow.
- Redis failover and Kafka consumer-group rebalancing: one server, one partition and one member per topic.
- Clocks: a handler or a round reads the clock once, and the cooldown's Redis runs on the alerter's clock.
- Data races: one field or map access is one atomic step. Go may abort a process that reads and writes one map at once, as a round and a reload can with the interval table. The alerter's default cooldown is read without the lock, so it may be newer than a round's thresholds.
- ThreeConsumers.CrashesDoNotShow: one handler call, and one write of the reconciler, is one step; overlapping ones act in the order in which they write the keys they share. The traded-symbols set is not covered (Redelivery.SymbolsSurviveIff, Redelivery.SymbolsOfBatchIff).
- ConsumerLoop.Consumer.Start: the consumer group's slice of consumers and its goroutines are not modelled; other writers act between turns.
- AdapterClose.TimedOutCloseCanPanicIff: a read from a connection that Close has closed may still return a message the client had buffered.
- AdapterStream.SentIsPublished: one channel at a time, with its own loop; what the adapter sends on the others leaves its stream as it is.
- VolatilityRule.EvalM001: the preview is its lines' symbols and jumps, not their text, and both twins share one method for finding the start price, which the source writes out twice.
- ConfigMerge.RulesConfig.ApplyRow: the nineteen numeric fields are grouped by concern, and so are the cases of the switch that sets them; a duration text arrives parsed.
- Scheduler.Engine.Evaluate: rule functions are values per account and rule; their bodies are modelled in the rule modules.
- AdapterTheorems.CloseLeaksIff: describes continuations in which network calls may succeed; it does not say how likely they are.
