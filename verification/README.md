# Verification of the market listener and its offline twins

A Dafny model of the stateful protocols of the listener and of the offline code that must agree with them, with
proofs of what they promise over every input, every run and every reachable state. `dafny verify dfyconfig.toml` checks
all of it.

## What is modelled

- **DMarket listing poller** (`DMarketPoller`, `PollerCoverage`, `PollerRepeats`, `PollerResume`, `CursorText`). Live
  polls, gaps, catching up page by page, the stored resume point, restarts. Against a venue that pages newest first by (creation time, id) and
  publishes nothing more than LIVE_OVERLAP_MS late: nothing is skipped, nothing is handed on again while it is
  remembered, catching up ends, and the stored document reads back.
- **Durable batch delivery** (`BatchDelivery`, `BackendReplies`, `DeliveryProtocol`, `DeliveredRecords`,
  `Ingestion`, `Json`). At-least-once delivery to a
  backend with a ledger has an exactly-once effect under any interleaving of crash, lost response, retry,
  dead-lettering, replay, recovery and a crash in the middle of stream adoption; and from every reachable state
  everything can still be delivered. A batch is acknowledged only once the backend has committed it, and each record
  buffered goes into one batch.
- **Decision path** (`Ticks`, `OrderedDict`, `Ranks`, `Texts`, `Dedup`, `PriceWindow`, `Scoring`, `DecisionPath`,
  `ThresholdSweep`). The dedup LRUs and the sorted-set window answer from their whole history; the live consumer and the
  replay agree item by item; the threshold sweep reconstructs any other replay from one log; the recording filter never
  hides a trade.
- **Outcome labels** (`OutcomeLabels`, `Labeling`, `OutcomeStore`). The bisected index answers as plain filters, labels
  do not look ahead, a label's price is the lower median of its comparable sales, and final labels do not change.
- **Buy once** (`Purchases`, `PurchaseLocks`). Executor memory, scorecard and backend keep the same purchases; the
  backend's lock and indexes keep the rule under any interleaving.
- **DMarket sales sync** (`SalesSync`). Numbered keys make re-reading idempotent and resumable.
- **Bounded concurrency and recording** (`RateLimiter`, `TaskPool`, `RecordingFilter`, `ItemNames`).

Each part has two forms: a state with its steps as functions, about which the lemmas speak, and, where the program works
in place, a class or a method with the program's loops, each one proved equal to the function. The fee rules of `pnl.py`
are modelled as they are, not as a bound.

## What the proofs found

Places where the code does less than its comments, or a first reading, would suggest, each with the inputs that show it and
the condition under which the promise holds.

- Poller: coverage ends strictly below the newest time less the overlap (`BoundIsStrict`). A restart drops a gap exactly
  when its cursor's time is not above its end (`KeptIff`), although the gap can still hold a listing of that very instant
  (`DroppedGapLosesListing`); the worlds of `PollerCoverage` record those instants in `dropped`.
- Buy once: after a restart the executor can send an order for a listing that the backend refuses because it was bought at
  another price or day. It remembers the new snapshot key all the same, which then blocks a snapshot buy that the rule
  would make (`RestartCanSkipSnapshot`). `OrderStaysCoveredIff` is the condition on the table an order meets, and
  `RuleKeptIff` says that the rule is followed all along a run exactly when every confirmed order meets it.
- Final labels: that later runs have a later `as_of` is not enough. A transaction open at the time of the read stamps its
  inserts with its start, so it can add a row to the same read (`OpenTransactionChangesRead`). `ReadUnchangedIff` says
  when one write is visible to a read, and `FinalLabelsAreReproducible` asks that later writes are also stamped later.
- Task pool: a close can raise although there are as many places as workers (`MarksCanFailWithRoom`), because a submit woken
  by the last job's start puts its job before the close goes on; and with nothing unfinished at its call it can leave a
  woken submit's job behind the stop marks, never run (`BlockedSubmitCanBeStranded`). `CloseRunsEverythingIff` is the
  condition at the call of `close`: no submit is blocked then, and there are as many places as workers. `StopMarksFitIff`
  and `CloseMayBreakIff` say exactly when it may raise.
- Waxpeer filter: the followed listings are not the `max_tracked` most recent ones that were not removed, once one was
  evicted and a later one removed (`MostRecentIsNotEnough`); `FollowedIff` says exactly which they are.
- Sales sync: a stop at the page limit can lose a sale for good (`StopLosesSale`), because no later sync reads behind the
  newest stored sale (`LeftOutStaysOut`). `SyncCompleteIff` is the condition, known before the sync: each sale past the
  limit that it would want is stored already. `StoredIsLastSeen` says the same of whole runs.
- Recording filter: without the fee floor it hides trades, exactly those of `WithoutFloorHiddenIff`. With the floor on only
  a sticker without a name can hide one, at a negative price stored under the empty name, which the filter looks up and
  the DRE skips (`NamelessStickerHides`, `FilterNeverHidesATrade`).
- Item names: a version reads back exactly when the name is base, one space and wear (`RoundTripIff`), so a name without
  wear never does.

## Model

| member | source | states |
|---|---|---|
| OrderedDict.BoundedIsNewest | apps/listener/detection.py:107-132 | Evicting after every put leaves the newest `limit` distinct keys of the whole history, in order of their last put. |
| OrderedDict.LruAnswers | apps/listener/detection.py:103-132 | A lookup finds the last value put for a key exactly while fewer than `limit` other keys were put after it. |
| OrderedDict.NothingForgotten | apps/listener/detection.py:91-139 | While the distinct keys fit the limit, the LRU answers as an unbounded map over the whole history. |
| OrderedDict.PositionOf | apps/listener/detection.py:107-116 | What stands behind an entry are exactly the keys put since its last put, and its value is that put's. |
| Ranks.SortedOfSpec | apps/listener/backtest/store.py:49-51 | The ordered members of a set hold each member once, in strictly ascending (score, bytes) order. |
| Ranks.SortedUnique | apps/listener/backtest/store.py:49-51 | There is only one such order, so any sequence with the same members in order is it. |
| Ranks.SortedOfAdd | apps/listener/backtest/store.py:49-67 | Adding a member is an insertion into the order. |
| Ranks.TrimThenInsert | apps/listener/detection.py:275-290 | Trimming before an insertion changes nothing once the result is trimmed: keeping the newest `n` as it goes keeps the newest `n` of everything. |
| Texts.DecimalRoundTrip | apps/listener/detection.py:275-316 | A number written in decimal reads back, and its text holds only digits. |
| Texts.SplitFirst | packages/shared_utils/src/shared_utils/purchases.py:14-19 | Cutting at the first separator recovers both sides when the left side holds none. |
| Texts.SplitLast | packages/shared_utils/src/shared_utils/dmarket.py:222-241 | Cutting at the last separator recovers both sides when the right side holds none. |
| Texts.LexTrichotomy | apps/listener/backtest/store.py:49-51 | The byte order of members is total. |
| PriceWindow.RankInSlice | apps/listener/backtest/store.py:54-61 | The half-open range holds exactly the ranks between both bounds, which count from the end when negative. |
| PriceWindow.MemberRoundTrip | apps/listener/detection.py:275-316 | The price and the timestamp read back from a window member are those pushed. |
| PriceWindow.WindowKeysDistinct | apps/listener/detection.py:178-180 | Different venues or items never share a window key. |
| PriceWindow.PushedOrder | apps/listener/detection.py:275-290 | One push inserts its (timestamp, bytes) rank and keeps the newest `limit`. |
| PriceWindow.WindowIsNewest | apps/listener/detection.py:275-290 | After any sequence of pushes the window is the newest `limit` of all members ever pushed, in rank order. |
| PriceWindow.WindowConsistent | apps/listener/detection.py:275-290 | Every member's score is the timestamp written in it, after any pushes. |
| PriceWindow.InWindowIff | apps/listener/detection.py:275-290 | A member is in the window exactly when it was pushed and fewer than `limit` distinct pushed members rank above it. |
| PriceWindow.ScoredMemberIsPushed | apps/listener/detection.py:275-316 | The last rank is the pushed tick, at its own price, exactly when no other member ranks above it. |
| PriceWindow.NewestTickIsScored | apps/listener/detection.py:293-316 | A tick newer than everything in its window is the one scored. |
| PriceWindow.PushTouchesOneWindow | apps/listener/detection.py:275-290 | A push on one venue and item leaves every other window as it was. |
| PriceWindow.DropRanks | apps/listener/backtest/store.py:76-85 | The removal loop takes out exactly the members of the rank range, and counts them. |
| PriceWindow.EdgeStore.Zadd | apps/listener/backtest/store.py:63-67 | Exactly one member of one sorted set gets the score; all other keys stay. |
| PriceWindow.EdgeStore.Zcard | apps/listener/backtest/store.py:69-70 | The number of members, zero for a missing key. |
| PriceWindow.EdgeStore.Zrange | apps/listener/backtest/store.py:72-74 | The members of the rank range, in rank order. |
| PriceWindow.EdgeStore.Zremrangebyrank | apps/listener/backtest/store.py:76-85 | The rank range leaves the set, an emptied set leaves the store, and the count is that of the range. |
| PriceWindow.EdgeStore.PushToWindow | apps/listener/detection.py:275-290 | The imperative push takes all windows to those of the specification that `WindowIsNewest` is about. |
| Dedup.VenuesAreIndependentLrus | apps/listener/detection.py:91-139 | Each venue's two maps are LRUs of that venue's own puts: ticks of another venue never change them. |
| Dedup.ItemPutKeys | apps/listener/detection.py:247-272 | The keys put for a venue are the names of the ticks taken from it. |
| Dedup.ListingPutKeys | apps/listener/detection.py:125-132 | The listing keys put for a venue are the listing ids of the ticks taken from it. |
| Dedup.ItemsAnswerAsHistory | apps/listener/detection.py:103-116 | While a venue's items fit, an item's entry is what a scan of the whole history finds: last tick, last snapshot price, last time windowed. |
| Dedup.ListingsAnswerAsHistory | apps/listener/detection.py:118-132 | While a venue's listings fit, a listing's price is the one it was last seen at. |
| Dedup.RemembersMostRecent | apps/listener/detection.py:107-132 | Beyond the limit, exactly the items and listings with fewer than `limit` others after them are remembered. |
| Dedup.DuplicateMeansSeen | apps/listener/detection.py:201-226 | Both duplicate rules, said about the whole history of ticks instead of the cache, in both directions. |
| Dedup.DedupCache.constructor | apps/listener/detection.py:99-101 | A new cache holds nothing. |
| Dedup.DedupCache.Put | apps/listener/detection.py:107-116 | The eviction loop leaves the bounded put of that venue, counts what it dropped, and touches no listing. |
| Dedup.DedupCache.PutListingPrice | apps/listener/detection.py:125-132 | The same for listing prices; a tick without a listing changes nothing. |
| Dedup.DedupCache.Update | apps/listener/detection.py:247-272 | The in-place update takes the cache to the state that the history lemmas are about. |
| Ticks.VenueNames | apps/listener/models.py:20-20 | Venue names hold no colon and are distinct. |
| Ticks.ResaleVenues | packages/shared_utils/src/shared_utils/pnl.py:143-162 | Every venue resells where it buys but Waxpeer, which resells on Skinport; a resale venue resells on itself. |
| Scoring.FeeIsLeastCover | packages/shared_utils/src/shared_utils/pnl.py:189-190 | The fee is the least whole number of cents covering the rate, and never more than the price for a rate below 100%. |
| Scoring.TierIsHighest | packages/shared_utils/src/shared_utils/pnl.py:102-105 | The fee tier applied is the highest one whose threshold the price reaches. |
| Scoring.SellerFeesAre | packages/shared_utils/src/shared_utils/pnl.py:108-137 | The rates each venue charges at each price. |
| Scoring.NetMarginBounds | packages/shared_utils/src/shared_utils/pnl.py:193-210 | With valid inputs the net margin exists and lies between minus the buy price and the resale price less the buy price. |
| Scoring.NetMarginIs | packages/shared_utils/src/shared_utils/pnl.py:165-210 | The margin is the resale price less the price paid and the least whole cents covering the item's own rate, or else the venue's; it is missing exactly for a negative price or a rate out of range. |
| Scoring.NetMarginReaches | packages/shared_utils/src/shared_utils/pnl.py:193-221 | A margin reaches a bound exactly when the price difference less the bound covers the fee. |
| Scoring.BlendedIsBetween | apps/listener/zscore.py:65-70 | Shrinkage keeps the variance between the local one and the macro prior, whichever is larger. |
| Scoring.VarianceIsSpread | apps/listener/zscore.py:58-63 | The variance times one less than the count is the sum of squares less the count times the squared mean. |
| Scoring.MeanIsCentre | apps/listener/zscore.py:58-63 | Squared deviations around any other centre are larger by the squared distance, once per price: the mean minimises them. |
| Scoring.ScoreMeans | apps/listener/zscore.py:58-77 | A score from the window is the newest price's distance from the mean of the earlier ones in deviations; without a prior the deviation is the larger of the sample deviation and the given part of the mean, with one its square is the weighted mean of the two variances. |
| Scoring.MacroScoreMeans | apps/listener/zscore.py:39-55 | A macro score is the distance from the average in volatilities of at least 1% of it, and only with too short a window. |
| Scoring.TriggerIff | apps/listener/zscore.py:91-112 | What triggers: a score below the threshold of its kind of tick, with enough saved unless it has stickers, and a macro score only if set. |
| Scoring.ScoredIff | apps/listener/zscore.py:39-77 | A short window is scored exactly when the baseline has an average and a volatility; a longer one always, but for earlier prices of zero, where it raises. |
| Scoring.MacroScoreIsDreTest | apps/listener/zscore.py:80-88 | A macro score at or below -2 is a tick the DRE approves on price; the reverse holds where the volatility is not raised and the support floor is not above that bound. |
| Scoring.StickerValueCents | apps/listener/rules_engine.py:20-34 | The loop adds the prices of exactly the stickers that have a name and a number. |
| Scoring.PriceRulesBuyBelowResale | apps/listener/detection.py:342-352 | With the fee floor on, a rule that buys on price only buys below the latest resale price. |
| Scoring.StickerRulesPayLittle | apps/listener/rules_engine.py:74-90 | A sticker rule approves only stickers above the minimum value, at a premium of at most 3% of it. |
| Scoring.HeldValueIs | apps/listener/scrapers/listing_filter.py:81-100 | The filter's sticker value is the DRE's plus the price under the empty name once per sticker without a name. |
| Scoring.JudgedIff | apps/listener/scrapers/listing_filter.py:81-100 | An item with a positive latest price is recorded exactly below that price or where its stickers carry the premium. |
| Scoring.TradableIsCheapOrCarried | apps/listener/detection.py:342-352 | With the fee floor on, every trade is below the latest price or carried by named stickers. |
| Scoring.FilterNeverHidesATrade | apps/listener/scrapers/listing_filter.py:81-100 | Every trade the fee floor lets through is recorded if and only if its item has a positive latest price, unless nameless stickers count at a negative price; that case is said exactly too. |
| Scoring.NamelessStickerHides | apps/listener/scrapers/listing_filter.py:81-100 | A family of trades hidden that way: a nameless sticker whose price takes away what the named one is worth. |
| Scoring.WithoutFloorHiddenIff | apps/listener/detection.py:342-352 | Without the fee floor a trade is hidden exactly when a price rule approves it at the latest price or above and no sticker carries it. |
| Scoring.FilterHidesWithoutFloor | apps/listener/detection.py:342-352 | So every stickerless tick from the latest price up to a higher support floor is a trade the filter hides. |
| Scoring.DreApprovesIff | apps/listener/rules_engine.py:37-91 | The engine approves exactly an item with a baseline that is at its support floor or two volatilities below its average, or whose stickers carry the premium. |
| Scoring.EstimateIs | apps/listener/detection.py:319-340 | The estimate is there exactly with a latest price, and charges the item's own fee where it is one, else the resale venue's. |
| Scoring.TradableIff | apps/listener/detection.py:342-352 | With the floor on, what is only cheap by its baseline is traded exactly when the latest price leaves at least a cent after its fee. |
| DecisionPath.DecisionIsLive | apps/listener/backtest/strategy.py:109-146 | Every strategy approves exactly the scored ticks that live hands to the executor. |
| DecisionPath.StepsAgree | apps/listener/main.py:299-333 | One item takes live and replay from equal caches and windows to equal ones, and executes exactly what replay approves. |
| DecisionPath.LiveAndReplayAgree | apps/listener/backtest/harness.py:195-239 | Over any stream with fixed baselines, caches and windows are equal and live executes exactly the ticks replay approves, in order, for every strategy. |
| DecisionPath.ReplayRaisesIff | apps/listener/backtest/harness.py:226-232 | A replay ends in an exception exactly when some item's scoring fails live, where only that tick's decision is lost. |
| DecisionPath.StrategiesAgree | apps/listener/backtest/strategy.py:105-195 | Over any replay, with any schedule of builds, all strategies log the same ticks with the same approvals, reasons and scores. |
| DecisionPath.InputsRecordedIff | apps/listener/backtest/strategy.py:60-170 | The inputs of a sweep are recorded exactly by the strategies that record them, the engine's verdict only below the threshold. |
| DecisionPath.RecordedStreamSuffices | apps/listener/main.py:299-333 | Consuming only what was recorded brings the listener to the same caches, windows and purchases. |
| DecisionPath.CacheIsHistory | apps/listener/main.py:315-318 | The live cache is that of the ticks that were not duplicates, so the history lemmas apply to it. |
| DecisionPath.ListingScoredIffPriceChanged | apps/listener/detection.py:201-214 | While a venue's listings fit, a feed listing is scored exactly when its price is not the one it was last seen at. |
| DecisionPath.SnapshotScoredIffChanged | apps/listener/detection.py:201-226 | While a venue's items fit, a REST snapshot is scored exactly when its price is not that of the item's last snapshot and it is no duplicate of its last tick, over the whole history. |
| DecisionPath.UnchangedEntersHourly | apps/listener/detection.py:229-244 | While a venue's items fit, an unchanged snapshot enters the window exactly when that is short, or the item's last snapshot that entered lies an hour back, over the whole history. |
| DecisionPath.TickConsumer.constructor | apps/listener/main.py:245-265 | A consumer starts with an empty cache, empty windows and nothing recorded. |
| DecisionPath.TickConsumer.UnchangedSnapshotEnters | apps/listener/detection.py:229-244 | Answers from the entry's last windowed time and the window's size, without changing either. |
| DecisionPath.TickConsumer.Consume | apps/listener/main.py:299-333 | One pass of the loop, on the cache and the store in place, is the live step the agreement lemmas are about. |
| ThresholdSweep.ActiveIndex | apps/listener/backtest/sources.py:132-138 | The newest build in effect at a moment; the first one before any is. |
| ThresholdSweep.FindActive | apps/listener/backtest/sources.py:132-138 | The scan that does not stop finds that index. |
| ThresholdSweep.SwitchIs | apps/listener/backtest/harness.py:107-132 | An event sees the build in effect at its time, and looks ahead exactly when that build had not taken effect at the event that loaded it. |
| ThresholdSweep.MomentIs | apps/listener/backtest/harness.py:199-236 | An item meets its event's build and is logged exactly from the given time on. |
| ThresholdSweep.ReplayItem | apps/listener/backtest/harness.py:204-236 | One item, on the replay's own cache and store in place, is the replay step. |
| ThresholdSweep.ReplayMoments | apps/listener/backtest/harness.py:204-236 | The items of one event, stopping at an exception after the item that raised it. |
| ThresholdSweep.RunReplay | apps/listener/backtest/harness.py:138-242 | The whole loop over events, builds and items logs what the replay specification says; a schedule without builds is refused. |
| ThresholdSweep.TriggersAgree | apps/analytics/baseline_scorecard.py:547-563 | The sweep's own trigger is the live one for every score whose source can trigger. |
| ThresholdSweep.VerdictCarriesOver | apps/listener/backtest/strategy.py:109-146 | The logged verdict of one tick decides it under every other threshold pair: state and score never depend on thresholds. |
| ThresholdSweep.SweepIsReplay | apps/analytics/baseline_scorecard.py:579-641 | For any Z threshold and savings floor, one sweep log gives the approvals, in order, of a full replay with those thresholds, which ends in the same caches and windows. |
| ThresholdSweep.LiveCellMatchesLog | apps/analytics/baseline_scorecard.py:579-641 | The cell at the live thresholds approves exactly what the log approved in the scorable period. |
| ThresholdSweep.FirstKeepsIds | apps/analytics/baseline_scorecard.py:605-618 | A cell's trades name each approved listing exactly once. |
| ThresholdSweep.SweepCell | apps/analytics/baseline_scorecard.py:605-618 | The loop of one cell keeps each listing's first approval, in log order. |
| ThresholdSweep.SweepThresholds | apps/analytics/baseline_scorecard.py:579-641 | The report holds one right cell per pair of the grid, and its match flag says that the live cell was swept and agrees with the log. |
| ThresholdSweep.LiveCheckSucceeds | apps/analytics/baseline_scorecard.py:579-641 | Over the log of any replay the report's own live check cannot fail. |
| ThresholdSweep.ApprovedInPeriod | apps/analytics/baseline_scorecard.py:220-233 | The approvals a sweep is compared with are those at or after the start of the period and outside every look-ahead range. |
| DMarketPoller.BehindHasCursor | apps/listener/scrapers/dmarket.py:277-326 | A poll that fell behind has a floor and a cursor, so the gap it leaves is well defined. |
| DMarketPoller.HandedOldestFirst | apps/listener/scrapers/dmarket.py:325-326 | Listings are handed on oldest first, and exactly those read. |
| DMarketPoller.StopsIff | apps/listener/scrapers/dmarket.py:287-307 | A page ends a poll exactly when it reaches below the floor, is the last, or brings no offer. |
| DMarketPoller.NothingReadBehindEnd | apps/listener/scrapers/dmarket.py:287-307 | Whatever fetches would bring behind such a page, the poll reads the same. |
| DMarketPoller.ListingPoller.constructor | apps/listener/scrapers/dmarket.py:233-240 | A new poller has read nothing. |
| DMarketPoller.ListingPoller.Remember | apps/listener/scrapers/dmarket.py:260-264 | The eviction loop leaves the newest `maxSeen` ids. |
| DMarketPoller.ListingPoller.ResumeFrom | apps/listener/scrapers/dmarket.py:246-258 | Floor, gaps, recorded and remembered ids after a restart, for every order in which the id set is gone through. |
| DMarketPoller.ListingPoller.NoteRecorded | apps/listener/scrapers/dmarket.py:273-275 | Exactly one recorded id is noted. |
| DMarketPoller.ListingPoller.LivePoll | apps/listener/scrapers/dmarket.py:277-326 | A failed fetch on any page leaves every field unchanged; else the poller, its gaps and what is handed on are those of the specification. |
| DMarketPoller.ListingPoller.CatchUpPage | apps/listener/scrapers/dmarket.py:328-352 | One page of the oldest gap: what is handed on, and the gap moved or closed. |
| DMarketPoller.ReadScript | apps/listener/scrapers/dmarket.py:287-312 | The page loop stops exactly where the specification does. |
| DMarketPoller.ReadEntriesLoop | apps/listener/scrapers/dmarket.py:290-306 | One page's entries: offers not remembered are taken, once each. |
| PollerCoverage.PagesRead | apps/listener/scrapers/dmarket.py:277-326 | A listing in reach of a poll is remembered, read, or lies past the cursor of the gap the poll leaves. |
| PollerCoverage.NewestBounded | apps/listener/scrapers/dmarket.py:287-326 | Nothing a poll reads is newer than the venue's clock at its first page. |
| PollerCoverage.PollIsUpToDate | apps/listener/scrapers/dmarket.py:287-322 | Nothing visible at the first page of an arrived poll is newer than the newest time it notes, which never falls. |
| PollerCoverage.PollTakesUnseen | apps/listener/scrapers/dmarket.py:287-326 | A poll hands on each listing it takes exactly once, also after sorting, and none it remembers. |
| PollerCoverage.PolledKeeps | apps/listener/scrapers/dmarket.py:277-326 | A poll, failed or not, keeps the coverage invariant. |
| PollerCoverage.CaughtUpKeeps | apps/listener/scrapers/dmarket.py:328-352 | A page of catching up, failed or not, keeps the coverage invariant. |
| PollerCoverage.PageShrinksGap | apps/listener/scrapers/dmarket.py:328-352 | A page that does not close its gap takes at least one visible listing out of it and adds none. |
| PollerCoverage.CatchUpTerminates | apps/listener/scrapers/dmarket.py:328-352 | Every page that arrives leaves strictly less to read in all gaps. |
| PollerCoverage.CatchingUpEnds | apps/listener/scrapers/dmarket.py:328-352 | After as many arrived pages as the gaps hold visible listings and gaps, with failed fetches anywhere between, no gap is open. |
| PollerCoverage.KeptIff | apps/listener/scrapers/dmarket.py:250-258 | A stored gap survives a restart exactly when its cursor reads back as a time strictly above its end. |
| PollerCoverage.DroppedGapLosesListing | apps/listener/scrapers/dmarket.py:257-257 | A gap whose cursor sits exactly at its end can still hold a listing, and the restart drops it. |
| PollerCoverage.ResumedCovers | apps/listener/scrapers/dmarket.py:246-258 | Coverage carries over a restart down to the catch-up limit, other than at the instants where a gap was dropped. |
| PollerCoverage.RestartedFromSavedKeeps | apps/listener/scrapers/dmarket.py:446-468 | Resuming from the stored document keeps the coverage invariant. |
| PollerCoverage.RestartedFromBackendKeeps | apps/listener/scrapers/dmarket.py:446-487 | Resuming from what the backend recorded keeps the coverage invariant, whether the edge Redis holds no document or could not be read. |
| PollerCoverage.InvariantHolds | apps/listener/scrapers/dmarket.py:225-372 | The coverage invariant holds over every run of polls, failures, catching up, saves, refused saves and restarts. |
| PollerCoverage.NothingSkipped | apps/listener/scrapers/dmarket.py:277-352 | In every reachable state a visible listing from the first floor up to the newest time less the overlap was handed on or lies in an open gap, other than at dropped instants. |
| PollerCoverage.BoundIsStrict | apps/listener/scrapers/dmarket.py:277-326 | The bound is strict: in a concrete run a listing created exactly LIVE_OVERLAP_MS before the newest one, and published that late, is visible but neither handed on nor in a gap. |
| PollerCoverage.NoRepeats | apps/listener/scrapers/dmarket.py:260-326 | What a poll hands on was never remembered in this process, or `maxSeen` other ids were since. |
| PollerCoverage.NoRepeatsCatchingUp | apps/listener/scrapers/dmarket.py:328-352 | The same for each listing of a page of catching up, and none of the gap's skip ids is handed on. |
| PollerCoverage.ResumeRemembersRecorded | apps/listener/scrapers/dmarket.py:246-264 | After a restart exactly the recorded ids of the stored document are remembered. |
| PollerRepeats.StretchRemembers | apps/listener/scrapers/dmarket.py:260-326 | Along any steps without a restart no id leaves the history of remembered ids. |
| PollerRepeats.PolledIdsAreRead | apps/listener/scrapers/dmarket.py:291-326 | The ids a poll hands on are exactly those it takes, and none when a fetch fails. |
| PollerRepeats.PollRepeatsForgotten | apps/listener/scrapers/dmarket.py:266-326 | An id remembered at some time is handed on by a later live poll only after `maxSeen` other ids were remembered. |
| PollerRepeats.PageRepeatsForgotten | apps/listener/scrapers/dmarket.py:328-352 | The same for each listing of a later page of catching up, the page's own earlier listings counted. |
| PollerRepeats.LeftGapSkips | apps/listener/scrapers/dmarket.py:308-315 | The gap a poll leaves ends at its floor and skips exactly what was recorded at or above it. |
| PollerRepeats.GapKeepsSkips | apps/listener/scrapers/dmarket.py:246-352 | Pages, polls, saves and restarts keep a gap's skip ids wherever they take it. |
| PollerRepeats.GapSkipsRecorded | apps/listener/scrapers/dmarket.py:246-352 | Over any saves and restarts, while the gap is open, its pages never hand on what was recorded at or above the floor it was left at, and do hand on what else they bring that is not remembered. |
| PollerRepeats.RestartCarriesRecorded | apps/listener/scrapers/dmarket.py:243-252 | After a restart every id of the document counts as recorded at or above the floor, exactly unless the catch-up limit passed it. |
| PollerRepeats.NoteRecords | apps/listener/scrapers/dmarket.py:273-275 | A listing noted counts as recorded at its creation time. |
| PollerRepeats.RecordedStays | apps/listener/scrapers/dmarket.py:357-372 | Within a process it stays recorded until a save, stored or refused, finds it too far behind the newest one. |
| PollerResume.GapRoundTrip | apps/listener/scrapers/dmarket.py:178-188 | A stored gap reads back as itself. |
| PollerResume.GapsRoundTrip | apps/listener/scrapers/dmarket.py:206-222 | All stored gaps read back, in order. |
| PollerResume.ResumeRoundTrip | apps/listener/scrapers/dmarket.py:357-372 | Parsing the stored document gives the newest time, the recorded ids near it and the gaps, and nothing when nothing was read. |
| PollerResume.PointNamesRecent | apps/listener/scrapers/dmarket.py:357-372 | The document names exactly the recorded listings at most RESUME_OVERLAP_MS older than the newest one. |
| PollerResume.VenueCodecKeeps | packages/shared_utils/src/shared_utils/dmarket.py:350-375 | A cursor the venue writes reads back from its base64 text, and the time read from the text is the gap's; a text without a time stands for itself. |
| PollerResume.ResumeRoundTripAsText | apps/listener/scrapers/dmarket.py:178-222 | In every reachable state the resume document written with the venue's own base64 cursors parses back to the resume point. |
| PollerResume.RecordedIsNotRepeated | apps/listener/scrapers/dmarket.py:246-275 | A listing recorded before a save within the resume overlap is not handed on after the restart, by any live poll or page of catching up at any later time, until `maxSeen` other ids were remembered. |
| CursorText.DecodesOnlyAlphabet | packages/shared_utils/src/shared_utils/dmarket.py:361-375 | Only whole groups of the two alphabets decode, with padding at the very end. |
| CursorText.Base64RoundTrip | packages/shared_utils/src/shared_utils/dmarket.py:350-375 | Decoding undoes encoding for all bytes, in whole groups of four characters (section 4 of RFC 4648). |
| CursorText.PaddingRestored | packages/shared_utils/src/shared_utils/dmarket.py:361-375 | Adding the padding back undoes leaving it off. |
| CursorText.UrlSafeDecodes | packages/shared_utils/src/shared_utils/dmarket.py:361-375 | The URL safe alphabet (section 5 of RFC 4648) decodes to the same bytes. |
| CursorText.CursorRoundTrip | packages/shared_utils/src/shared_utils/dmarket.py:350-375 | A cursor's creation time reads back, also unpadded and in the URL safe alphabet. |
| BatchDelivery.StoredRoundTrip | apps/listener/batch_delivery.py:43-83 | A batch read back from its stream is the batch stored, and exactly the storable ones read back. |
| BatchDelivery.AddedIsRead | apps/listener/batch_delivery.py:43-120 | A storable batch added to a stream is read after everything before it; any other entry is not read. |
| BatchDelivery.BlankIff | apps/listener/batch_delivery.py:43-83 | A venue is blank exactly when it holds only spaces. |
| BatchDelivery.StoredAgain | apps/listener/batch_delivery.py:54-83 | Whatever deserializes, of either format, can be stored again and reads back unchanged. |
| BatchDelivery.LegacyVenue | apps/listener/batch_delivery.py:54-83 | A batch stored under the older venue key reads as the same batch. |
| BatchDelivery.ReadPage | apps/listener/batch_delivery.py:255-277 | One page hands on its readable batches and moves the others out; it ends early exactly when the limit is reached. |
| BatchDelivery.IterStream | apps/listener/batch_delivery.py:247-306 | The page loop, for any page size, reads exactly up to the limit or the end: every readable batch so far handed on in order, every unreadable entry so far moved once. |
| BatchDelivery.ReadsToLimit | apps/listener/batch_delivery.py:247-306 | The iteration ends with the stream or with the very batch that reaches the limit, never beyond. |
| BatchDelivery.IterationIsComplete | apps/listener/batch_delivery.py:247-306 | Without a limit every readable batch is handed on in order, and exactly the unreadable entries left the stream, each one once. |
| BatchDelivery.SendBatchWithRetry | apps/listener/batch_delivery.py:317-379 | Sent exactly when some reply within the attempts is accepted after only retryable ones; it stops at the first reply no retry can help. |
| BatchDelivery.StatusClasses | apps/listener/batch_delivery.py:341-352 | Success statuses are accepted; server errors and three client errors are tried again, no other. |
| BatchDelivery.MoveEntries | apps/listener/batch_delivery.py:165-176 | The merge empties the legacy stream into the other, in order. |
| BatchDelivery.ReplayPage | apps/listener/replay_batches.py:62-80 | One page of dead letters, sent one by one while the stream changes; it ends early exactly when the limit is reached. |
| BatchDelivery.ReplayStream | apps/listener/replay_batches.py:62-80 | The replay's page loop, for any page size, ends where the specification does with its stream, malformed stream and counters. |
| BatchDelivery.AdoptPair | apps/listener/batch_delivery.py:158-180 | A pair of keys is renamed or merged, and the entries moved are counted. |
| BatchDelivery.AdoptedContents | apps/listener/batch_delivery.py:144-182 | After adoption the venue's stream ends with the legacy stream's entries, the legacy key is gone, and no other stream changed. |
| BatchDelivery.RedisBatchStore.constructor | apps/listener/batch_delivery.py:95-106 | The store starts from the streams as they are. |
| BatchDelivery.RedisBatchStore.Add | apps/listener/batch_delivery.py:192-216 | A batch is appended under a fresh ID to the pending stream only. |
| BatchDelivery.RedisBatchStore.Delete | apps/listener/batch_delivery.py:226-231 | Acknowledging removes one entry from one stream. |
| BatchDelivery.RedisBatchStore.DeadLetter | apps/listener/batch_delivery.py:233-245 | In one transaction the batch enters the dead letters and leaves the pending stream. |
| BatchDelivery.RedisBatchStore.DeliverStoredBatch | apps/listener/batch_delivery.py:382-404 | Acknowledged after an accepted reply, dead-lettered after anything else: it never stays pending and is never lost. |
| BatchDelivery.RedisBatchStore.ReplayDeadLetters | apps/listener/replay_batches.py:34-88 | Exactly the first `limit` readable dead letters are tried, each sent as it is read; the accepted ones leave the stream, the others stay in place, unreadable ones are moved, no other stream changes, and the counters are those numbers. |
| BatchDelivery.RedisBatchStore.AdoptLegacyStreams | apps/listener/batch_delivery.py:144-182 | All pairs are adopted, and every entry moved is counted. |
| DeliveryProtocol.StepKeeps | apps/listener/batch_delivery.py:144-404 | Every atomic step of buffer, streams, deliveries, backend, dead letters, adoption and crash keeps the invariant. |
| DeliveryProtocol.InvariantHolds | apps/listener/main.py:162-197 | The invariant holds in every reachable state. |
| DeliveryProtocol.ExactlyOnce | apps/backend/main.py:239-272 | Every batch ever in a stream is still in one or committed; a committed one is in the tables exactly once; one ID carries one payload, so no request is refused with 409. |
| DeliveryProtocol.AcknowledgedAfterCommit | apps/listener/batch_delivery.py:382-404 | A step after which a batch is in no stream is the acknowledgement of a batch committed before it. |
| DeliveryProtocol.Drain | apps/listener/main.py:189-197 | From any reachable state recovery, or the replay of dead letters, can empty its stream. |
| DeliveryProtocol.Adopt | apps/listener/batch_delivery.py:144-182 | From any reachable state, also in the middle of an earlier adoption, the legacy stream can be moved over and deleted. |
| DeliveryProtocol.EverythingCanBeDelivered | apps/listener/main.py:162-197 | From any reachable state the system can still commit every batch ever added, once each, and empty all streams. |
| BackendReplies.AcceptedIsAnswer | apps/listener/batch_delivery.py:341-352 | An accepted reply is the handler's own answer to a request it did not refuse. |
| BackendReplies.SentIsCommitted | apps/listener/batch_delivery.py:317-403 | Whatever is lost and whoever writes in between, a batch whose sending succeeds is in the ledger with its own content, and its rows are in the tables. |
| BackendReplies.RefusedIsNotSent | apps/backend/main.py:239-272 | A batch whose ID has another content, or that is no valid payload, is never acknowledged. |
| BackendReplies.AnswersMean | apps/backend/main.py:400-473 | Of the handler's answers the three successes are accepted and only a broken transaction is tried again; a conflict or a refusal is not. |
| BackendReplies.PassingFailuresAreOvercome | apps/listener/batch_delivery.py:317-379 | After lost connections, lost answers and broken transactions an answer within the attempts gets the batch sent. |
| BackendReplies.LaterReplayIsDuplicate | apps/backend/main.py:239-272 | A batch the handler ever worked on is committed, also when its answer was lost, and a later replay is a duplicate that writes nothing. |
| BackendReplies.OthersKeep | apps/backend/main.py:406-473 | Requests of others never change a ledger entry, its rows or an item's id. |
| BackendReplies.DeliverToBackend | apps/listener/batch_delivery.py:382-403 | The sender against the backend: acknowledged only when committed, dead-lettered otherwise, and always so when refused. |
| DeliveredRecords.BufferedIsDelivered | apps/listener/main.py:162-345 | Without a crash of the listener every buffered record is later still in the buffer, or in a batch among the records of its kind, and that batch is in a stream or committed. |
| DeliveredRecords.RecordDeliveredOnce | apps/listener/main.py:162-345 | A record buffered at most once is in at most one batch, once, whatever is retried, replayed or adopted. |
| DeliveredRecords.BufferCanBeFlushed | apps/listener/main.py:162-186 | As long as the consumer lives a flush, new or taken up again under its ID, can put exactly the buffered records into one stored batch. |
| DeliveredRecords.SecondFailureEnds | apps/listener/main.py:262-360 | A failed flush is tried once more with nothing read in between, and a second failure ends the consumer. |
| DeliveredRecords.CrashForgets | apps/listener/main.py:262-360 | A crash forgets the buffer and the deliveries under way, and nothing that was stored. |
| Ingestion.LedgerHasArrivals | apps/backend/main.py:239-272 | The ledger holds an ID exactly when a batch with it arrived. |
| Ingestion.LedgerIsArrivals | apps/backend/main.py:239-272 | An arrived ID is held with its batch's own content. |
| Ingestion.RepeatsChangeNothing | apps/backend/main.py:406-473 | Any sequence of consistent deliveries leaves the tables that delivering each batch once, at its first arrival, leaves. |
| Ingestion.RepeatIsDuplicate | apps/backend/main.py:239-272 | A repeat is answered as a duplicate, an ID with another payload as a conflict, and neither writes. |
| Ingestion.ArrivalInsertsRows | apps/backend/main.py:424-464 | A first arrival adds one row for each tick, with its name's id, and one for each event, in order, and nothing else. |
| Ingestion.TablesHoldArrivals | apps/backend/main.py:406-473 | After any consistent deliveries the tables hold what they held and each batch's rows once, in the order of first arrival. |
| Ingestion.RowNamesItem | apps/backend/main.py:202-222 | The id of a row looks back to its tick's name and no other. |
| Ingestion.TicksKeepItems | apps/backend/main.py:202-222 | Item ids stay unique, and no name's id ever changes. |
| Ingestion.GetOrCreateItemId | apps/backend/main.py:202-222 | A name resolves to the id the table has after it, from whichever cache it comes, and caches stay right. |
| Ingestion.InsertTicks | apps/backend/main.py:424-452 | The tick loop inserts the rows in order and keeps item ids unique and both caches right. |
| Ingestion.Backend.constructor | apps/backend/main.py:199-199 | A new process starts with an empty item cache. |
| Ingestion.Backend.ProcessBulkIngestion | apps/backend/main.py:406-473 | All of a batch or nothing: a transaction that breaks at a tick, in a later insert or at its commit leaves the tables and the shared item cache as they were. |
| OutcomeLabels.RoundsToNearest | apps/analytics/outcome_labels.py:247-251 | Floats of an item round to the nearest, and to the even one of two, at ten decimals. |
| OutcomeLabels.SameItemIff | apps/analytics/outcome_labels.py:247-255 | Two sales are of one item exactly when name and pattern agree and the floats round to the same ten decimals. |
| OutcomeLabels.FirstSightingPerListing | apps/analytics/outcome_labels.py:322-329 | The dict-filling loop keeps the specified first sighting of each listing. |
| OutcomeLabels.FirstsAreEarliest | apps/analytics/outcome_labels.py:322-329 | A listing has a sighting exactly when a sale names it, and no other of its sales is earlier by (seen_at, price). |
| OutcomeLabels.FirstsUpTo | apps/analytics/outcome_labels.py:322-329 | Later events add later sightings and never change one already seen. |
| OutcomeLabels.SameSightings | apps/analytics/outcome_labels.py:322-329 | Streams that agree up to a moment have the same sightings up to it. |
| OutcomeLabels.WhereDependsOnKept | apps/analytics/outcome_labels.py:276-299 | What a filter lets through depends only on the sightings it lets through. |
| OutcomeLabels.WhereIsUnique | apps/analytics/outcome_labels.py:264-274 | Any ordered sequence of exactly the sightings let through is the filter's answer. |
| OutcomeLabels.KeptOfAll | apps/analytics/outcome_labels.py:264-274 | Filtering the sorted whole is the plain filter. |
| OutcomeLabels.BuildIndex | apps/analytics/outcome_labels.py:264-274 | The grouped, sorted index holds for every name and item exactly what the plain filter over first sightings gives, with matching times. |
| Labeling.BisectLeft | apps/analytics/outcome_labels.py:276-299 | The first position whose time is at or after the bound. |
| Labeling.BisectRight | apps/analytics/outcome_labels.py:276-319 | The first position whose time is after the bound. |
| Labeling.SliceIsFilter | apps/analytics/outcome_labels.py:276-282 | The bisected slice without the excluded listing is the plain filter. |
| Labeling.ComparablePrices | apps/analytics/outcome_labels.py:276-282 | The prices of the item's first sightings inside the window, without the listing itself, in order of time and listing. |
| Labeling.WindowOfItem | apps/analytics/outcome_labels.py:284-299 | Within one item's sales the window filter is the filter of all sightings. |
| Labeling.FindItemSale | apps/analytics/outcome_labels.py:284-299 | The item's first sale in the window, when no later listing of it or other price makes it another's. |
| Labeling.ItemSaleIff | apps/analytics/outcome_labels.py:284-306 | A listing's own sale by item is the item's least sale of the window by time and id, before the item's next listing and at the listed price, and nothing else. |
| Labeling.FindFeeBps | apps/analytics/outcome_labels.py:314-319 | The fee of the newest build at or before the moment. |
| Labeling.LaterBuildsDoNotMatter | apps/analytics/outcome_labels.py:314-319 | A build made later never changes the fee in force at a moment. |
| Labeling.SortedPricesSpec | apps/analytics/outcome_labels.py:332-390 | The prices a median is taken of are those given, in order. |
| Labeling.MedianLowIff | apps/analytics/outcome_labels.py:355-358 | The median taken is the price with half of the prices or more at or below it and fewer than half below it, and no other. |
| Labeling.LabelPricesResale | apps/analytics/outcome_labels.py:332-390 | A row has a resale price exactly with enough comparable sales, it is their lower median, the margin is what it leaves after its fee, and profitable means that it reaches the least margin; the row is missing exactly where a fee is. |
| Labeling.LabelSaysSold | apps/analytics/outcome_labels.py:341-372 | The row's sale is the listing's first sighting inside the horizon, or the item's own first sale at its price, in whole seconds and never negative. |
| Labeling.LabelListing | apps/analytics/outcome_labels.py:332-390 | The label read from the index is the label read from plain filters over first sightings, in both own-sale modes. |
| Labeling.LabelUpTo | apps/analytics/outcome_labels.py:332-390 | A label is the same for any two sets of sightings that agree up to its own `label_available_at`. |
| Labeling.NoLookAhead | apps/analytics/outcome_labels.py:332-390 | Sold events after `label_available_at`, any number of them, leave the label unchanged. |
| Labeling.LabelListings | apps/analytics/outcome_labels.py:407-420 | The run labels the due listings in order, and raises when one of them does. |
| Labeling.RowsAreDue | apps/analytics/outcome_labels.py:393-420 | A listing has a row, one only, exactly when its horizon and settle time (and the sales sync's, where it applies) have passed by `as_of`. |
| Labeling.RunNoLookAhead | apps/analytics/outcome_labels.py:393-420 | Listings after the labelable moment and sales after `as_of` less the settle time change no row of a run. |
| OutcomeStore.OutcomeTable.constructor | apps/analytics/outcome_data.py:222-242 | The table starts empty. |
| OutcomeStore.OutcomeTable.SaveOutcomes | apps/analytics/outcome_data.py:222-242 | All chunks in one transaction, or nothing when a statement raises on a repeated key; the rows written are counted. |
| OutcomeStore.SavedIs | apps/analytics/outcome_data.py:222-242 | A save of distinct labels leaves each under its key, unless the one there was seen earlier or is final, stamped by its own chunk, and every other key as it was; no chunk is left out. |
| OutcomeStore.SavedCounts | apps/analytics/outcome_data.py:222-242 | The number it returns is how many labels were missing or replaced the one there. |
| OutcomeStore.FetchFinalHas | apps/analytics/outcome_data.py:207-219 | A read returns exactly the labels of its venue and version, available by its cutoff and written by its moment. |
| OutcomeStore.FinalIff | apps/analytics/outcome_labels.py:178-180 | A label is final exactly once its settle and revise times have passed. |
| OutcomeStore.UpsertChunk | apps/analytics/outcome_data.py:197-242 | One statement's effect, row by row, and its count. |
| OutcomeStore.ReadUnchangedIff | apps/analytics/outcome_data.py:207-219 | A write of a run at or after the read leaves the read as it was exactly when its row would not appear in it. |
| OutcomeStore.FinalLabelsAreReproducible | apps/analytics/outcome_data.py:207-242 | Any later writes by runs not earlier than the read and stamped after it, overlapping or out of order, leave the same rows. |
| OutcomeStore.SavesKeepRead | apps/analytics/outcome_data.py:222-242 | The same over whole saves of several chunks, failed ones included. |
| OutcomeStore.LaterRunsHaveLaterCutoffs | apps/analytics/outcome_labels.py:178-180 | A run's final cutoff is not earlier than the read's whenever its own `as_of` is not. |
| OutcomeStore.OpenTransactionChangesRead | apps/analytics/outcome_data.py:207-242 | Stamping after the read is needed: a transaction begun by then and committed later adds a row. |
| OutcomeStore.EarlierRunChangesRead | apps/analytics/outcome_data.py:197-242 | A run with an earlier `as_of` still rewrites a label the read took as final. |
| OutcomeStore.ListedAtNeverIncreases | apps/analytics/outcome_data.py:197-242 | No write moves a stored `listed_at` later. |
| OutcomeStore.FinalIsKept | apps/analytics/outcome_data.py:197-242 | A final label is kept whole by every run whose cutoff has reached it. |
| OutcomeStore.ListedAtIsEarliest | apps/analytics/outcome_data.py:197-242 | While a label is not final, its stored `listed_at` is the earliest ever written, whatever the order of the runs. |
| Purchases.ListingKeyInjective | packages/shared_utils/src/shared_utils/purchases.py:14-15 | A listing key names one venue and one listing. |
| Purchases.SnapshotKeyInjective | packages/shared_utils/src/shared_utils/purchases.py:18-19 | Two buys share a snapshot key exactly when venue, item, price and day are equal. |
| Purchases.KeysApart | packages/shared_utils/src/shared_utils/purchases.py:14-32 | A listing key is never a snapshot key. |
| Purchases.KeyTellsRepeat | packages/shared_utils/src/shared_utils/purchases.py:22-32 | The keys of what was bought tell exactly which purchase repeats one of it. |
| Purchases.CollectTrades | apps/analytics/baseline_scorecard.py:271-292 | The set-filling loop keeps exactly what the buy-once rule keeps of the scorable approvals. |
| Purchases.BackendIsRule | apps/backend/main.py:287-347 | The snapshot check with the two unique indexes stores exactly what does not repeat a stored row. |
| Purchases.TableNeverRepeats | apps/backend/main.py:320-365 | Whatever the executor remembers, forgets or loses, replies lost or late included, no stored row repeats an earlier one. |
| Purchases.CoveredIffRule | apps/listener/executor.py:62-101 | Executor and backend follow the rule on every next approval exactly when each remembered key names only purchases the backend would refuse. |
| Purchases.OrderStaysCoveredIff | apps/listener/executor.py:62-110 | An order keeps that so exactly when, before it is sent, it repeats no stored row or some row has its item, price and day. |
| Purchases.BackendKeepsTheRule | apps/listener/executor.py:62-163 | With lost orders, lost replies and restarts the table is what the rule keeps of the orders that reached it, as long as each confirmed one meets that condition when it is sent. |
| Purchases.RuleKeptIff | apps/listener/executor.py:62-163 | All along a run every next approval is treated as the rule would exactly when each confirmed order met that condition. |
| Purchases.RestartCanSkipSnapshot | apps/listener/executor.py:62-110 | The condition is needed: after a restart a refused listing order at a new price keeps the executor from a snapshot buy the rule would make. |
| Purchases.ThreeImplementationsAgree | apps/listener/executor.py:62-110 | With orders taken and memory not full, the executor places, the scorecard keeps and the backend stores the same purchases. |
| Purchases.ExecutionService.constructor | apps/listener/executor.py:58-60 | A new executor remembers nothing. |
| Purchases.ExecutionService.RememberPurchase | apps/listener/executor.py:107-110 | A known key keeps its place; a new one is added and the oldest dropped beyond the limit. |
| Purchases.ExecutionService.Execute | apps/listener/executor.py:62-101 | An order is placed exactly when its key is not remembered and the order is taken, and only then are its keys remembered. |
| PurchaseLocks.StepKeeps | apps/backend/main.py:275-347 | Every step of lock, check, insert, commit and rollback keeps the invariant. |
| PurchaseLocks.InvariantHolds | apps/backend/main.py:275-347 | The invariant holds under any interleaving of requests. |
| PurchaseLocks.NoDoubleBuy | apps/backend/main.py:275-347 | The table never holds two rows of one listing, nor a snapshot row after another row of its venue, item, price and day. |
| PurchaseLocks.ServedIsRule | apps/backend/main.py:275-347 | Among unrelated requests, however far they are, one can go on from its lock to its commit, and leaves exactly what the rule says of it. |
| PurchaseLocks.RollbackLeavesNothing | apps/backend/main.py:275-347 | A rolled back request leaves no row, lock or index entry. |
| PurchaseLocks.WithoutLockBothAreStored | apps/backend/main.py:275-284 | Without the lock one interleaving stores both. |
| SalesSync.BaseKeyInjective | packages/shared_utils/src/shared_utils/dmarket.py:222-241 | The text a sale's key starts with names the sale exactly. |
| SalesSync.KeyTextInjective | packages/shared_utils/src/shared_utils/dmarket.py:222-241 | A stored key names one sale and one number. |
| SalesSync.SaleKeys | packages/shared_utils/src/shared_utils/dmarket.py:222-241 | The counting loop gives each sale its number among identical ones. |
| SalesSync.KeysDistinct | packages/shared_utils/src/shared_utils/dmarket.py:222-241 | No two sales of one read share a key. |
| SalesSync.KeySetIsCounts | packages/shared_utils/src/shared_utils/dmarket.py:222-241 | The keys of a read are exactly the numbers below each sale's count. |
| SalesSync.KeySetDependsOnMultiset | packages/shared_utils/src/shared_utils/dmarket.py:222-241 | So they depend only on the multiset of sales, not on their order. |
| SalesSync.FetchTitleSales | apps/analytics/dmarket_sales.py:72-91 | The pages bring exactly the wanted sales among the first up to the page limit, and the read is complete if and only if those reach behind the given second or to the end; a failure brings nothing. |
| SalesSync.StoreSales | apps/analytics/dmarket_sales.py:114-123 | The insert loop adds exactly the missing keys. |
| SalesSync.SyncKeeps | apps/analytics/dmarket_sales.py:154-170 | A completed sync keeps what is stored and seen in step. |
| SalesSync.InvariantHolds | apps/analytics/dmarket_sales.py:134-173 | The invariant holds over every sequence of venue growth, syncs and failures. |
| SalesSync.SyncCompleteIff | apps/analytics/dmarket_sales.py:72-170 | After a sync everything visible in its range is stored exactly when nothing was missing behind the second it reads back to, which a complete title guarantees, and each wanted sale past the page limit was stored before. |
| SalesSync.NothingBeyondTheEnd | apps/analytics/dmarket_sales.py:82-91 | A sync that does not stop short, or stops at the very end of the history, has no such sale. |
| SalesSync.StoredIsLastSeen | apps/analytics/dmarket_sales.py:134-173 | All along a run, failures included, the stored keys within the range of the last successful sync are exactly those of the sales it could see, if and only if every sync met that condition on the page limit. |
| SalesSync.RerunStoresNothing | apps/analytics/dmarket_sales.py:134-173 | A sync run again on the same history stores nothing, from any state. |
| SalesSync.StopsIff | apps/analytics/dmarket_sales.py:82-91 | A read stops short exactly when the first pages, up to the limit, are full and hold nothing older than it wants. |
| SalesSync.LeftOutStaysOut | apps/analytics/dmarket_sales.py:60-91 | A sale that is not stored once a later one is stays out over every later run. |
| SalesSync.StopLosesSale | apps/analytics/dmarket_sales.py:72-91 | A run in which a stop at the page limit loses a visible sale of its range: no continuation ever stores it. |
| SalesSync.VenueSales.constructor | apps/analytics/dmarket_sales.py:134-153 | A new store holds nothing. |
| SalesSync.VenueSales.SyncTitle | apps/analytics/dmarket_sales.py:154-170 | One title's sync on the store in place; a failed request leaves the store as it was, and a complete read leaves nothing out. |
| RateLimiter.InvariantHolds | apps/listener/alerts.py:299-341 | The invariant holds over every run of requests and pauses on a clock that does not go back. |
| RateLimiter.GrantsAreSpaced | apps/listener/alerts.py:324-341 | Any two grants `max_per_minute` or more apart in the sequence are at least 60 seconds apart, and the deque never holds more than `max_per_minute`. |
| RateLimiter.GrantsRespectPauses | apps/listener/alerts.py:321-341 | No grant precedes a pause deadline set before it. |
| RateLimiter.AnswersAsFullHistory | apps/listener/alerts.py:324-332 | The pruned deque answers as the full history of grants would. |
| RateLimiter.OneSleepIsEnough | apps/listener/alerts.py:334-341 | After sleeping at least the wait, with no pause in between, a slot is free. |
| RateLimiter.SleepsAtMostOnce | apps/listener/alerts.py:334-341 | When no sleep ends early and nothing pauses meanwhile, `acquire` sleeps at most once and is then granted. |
| RateLimiter.Limits.constructor | apps/listener/alerts.py:308-319 | A new limiter has granted nothing and is not paused. |
| RateLimiter.Limits.SetPause | apps/listener/alerts.py:321-322 | A pause only raises the deadline. |
| RateLimiter.Limits.NextWait | apps/listener/alerts.py:324-332 | The pruning loop and the wait, as the specification has them. |
| RateLimiter.Limits.Acquire | apps/listener/alerts.py:334-341 | The wait loop in place is the specification that `SleepsAtMostOnce` is about. |
| RateLimiter.PruneLoop | apps/listener/alerts.py:324-332 | Exactly what lies 60 seconds back or more is dropped. |
| TaskPool.JobsAreConserved | apps/listener/task_supervisor.py:70-168 | In every reachable state, submitted = queued + active + succeeded + failed + cancelled. |
| TaskPool.FinishCounts | apps/listener/task_supervisor.py:142-168 | The end of a job counts it by how it went and frees its worker. |
| TaskPool.CloseRunsEverythingIff | apps/listener/task_supervisor.py:70-131 | Whatever happens after a call of `close`, it neither raises nor, unless it times out, ends with a job not run or a submit still waiting, exactly when no submit is blocked at the call and the queue has a place for each worker. |
| TaskPool.CleanCloseRanEverything | apps/listener/task_supervisor.py:97-131 | For one close: when it did not time out and no submit was blocked when the queue drained, it ran every job, cancelled none and ended every worker. |
| TaskPool.StopMarksFitIff | apps/listener/task_supervisor.py:97-131 | A close that waits or has just drained can still raise exactly when workers plus blocked submits, and jobs put since the drain, exceed the queue's places; with no submit blocked at the drain only the workers count. |
| TaskPool.CloseMayBreakIff | apps/listener/task_supervisor.py:97-131 | The same said at the call of `close`: with nothing unfinished only the workers count, else each submit blocked by then does. |
| TaskPool.MarksCanFailWithRoom | apps/listener/task_supervisor.py:70-131 | A run with as many places as workers whose close raises: a woken submit puts its job before the close goes on. |
| TaskPool.CleanStopEnds | apps/listener/task_supervisor.py:97-168 | Such a close never gets stuck: the workers can always take their stop marks and the pool closes. |
| TaskPool.TimeoutCancelsQueued | apps/listener/task_supervisor.py:97-168 | In every state after a timeout the jobs queued then are never started, `cancelled` is their number plus the active jobs that honoured their cancel, and every other job started is active or ended. |
| TaskPool.TimedOutCanClose | apps/listener/task_supervisor.py:97-168 | A close that times out can always end, every worker honouring its cancel, with nothing left in the queue. |
| TaskPool.BlockedSubmitCanBeStranded | apps/listener/task_supervisor.py:70-131 | A run in which `close` is called with nothing unfinished, and a woken submit leaves its job behind the stop mark, never run. |
| TaskPool.BoundedTaskPool.constructor | apps/listener/task_supervisor.py:30-44 | A new pool has no jobs. |
| TaskPool.BoundedTaskPool.TrySubmitJob | apps/listener/task_supervisor.py:80-95 | Never waits: a job is queued and counted, or refused and nothing changes. |
| TaskPool.BoundedTaskPool.CancelQueuedWork | apps/listener/task_supervisor.py:133-140 | The loop empties the queue and counts the jobs, not the stop marks. |
| TaskPool.BoundedTaskPool.FinishJoin | apps/listener/task_supervisor.py:97-131 | The end of a close, with whatever the queue holds by then, or after a timeout, is the step of the state machine. |
| TaskPool.BoundedTaskPool.PutStopMarks | apps/listener/task_supervisor.py:118-124 | The loop puts one mark per worker, or as many as fit and then raises. |
| RecordingFilter.EventMovesEntry | apps/listener/scrapers/waxpeer.py:237-289 | Only a listing's own events change its entry; another listing's event can at most evict it. |
| RecordingFilter.FollowedSinceRecorded | apps/listener/scrapers/waxpeer.py:243-289 | A followed listing was recorded since it was last unfollowed, and its price is that of its latest feed event. |
| RecordingFilter.RemovalsAlternate | apps/listener/scrapers/waxpeer.py:266-289 | Between two recorded removals of a listing there is a recorded listing of it. |
| RecordingFilter.UpdatesCutThePrice | apps/listener/scrapers/waxpeer.py:243-264 | An update of a followed listing is recorded exactly when it is judged worth it and strictly cheaper than its previous price on the feed. |
| RecordingFilter.OtherListingsAreJudged | apps/listener/scrapers/waxpeer.py:243-264 | Any other listing event is recorded exactly when it is judged worth it. |
| RecordingFilter.RemovalIsRecordedIff | apps/listener/scrapers/waxpeer.py:266-289 | A removal is recorded exactly of a followed listing with a valid tick, at its ask or else its latest price. |
| RecordingFilter.TrackedIsEnd | apps/listener/scrapers/waxpeer.py:237-241 | The followed listings are always the newest part of the list that would be kept without eviction. |
| RecordingFilter.FollowedIff | apps/listener/scrapers/waxpeer.py:237-289 | A listing is followed exactly when fewer than `max_tracked` kept listings were newer at every moment since it was last tracked. |
| RecordingFilter.MostRecentIsNotEnough | apps/listener/scrapers/waxpeer.py:216-289 | Being among the `max_tracked` most recent now is not enough: a removal does not bring back what was evicted. |
| RecordingFilter.Filter.constructor | apps/listener/scrapers/waxpeer.py:228-231 | A new filter follows nothing. |
| RecordingFilter.Filter.Track | apps/listener/scrapers/waxpeer.py:237-241 | The eviction loop leaves the newest `max_tracked`. |
| RecordingFilter.Filter.OnListingEvent | apps/listener/scrapers/waxpeer.py:243-264 | The method's branches on the followed list in place are the specification the run lemmas are about. |
| RecordingFilter.Filter.OnRemovalEvent | apps/listener/scrapers/waxpeer.py:266-289 | A removal unfollows even when its tick does not validate. |
| ItemNames.ParseVersioned | packages/shared_utils/src/shared_utils/item_classifier.py:66-90 | Parsing base, version in parentheses and wear gives back the plain name and the version. |
| ItemNames.ParseMarked | packages/shared_utils/src/shared_utils/item_classifier.py:66-90 | A version is taken exactly from a last pair of parentheses, not empty and without others inside. |
| ItemNames.ParsedVersion | packages/shared_utils/src/shared_utils/item_classifier.py:66-90 | A parsed version is never empty and holds no parenthesis; a name without one is left as it is. |
| ItemNames.BuildLeavesAlone | packages/shared_utils/src/shared_utils/item_classifier.py:93-119 | No version, an empty one and "default" leave a name alone. |
| ItemNames.RoundTripIff | packages/shared_utils/src/shared_utils/item_classifier.py:66-119 | For a non-empty, parenthesis-free version other than "default", name and version come back exactly when the name is trimmed base, one space, wear; a name without wear never is. |
| ItemNames.RoundTrip | packages/shared_utils/src/shared_utils/item_classifier.py:66-119 | So every name of that form round trips. |
| ItemNames.BuildInjective | packages/shared_utils/src/shared_utils/item_classifier.py:93-119 | Distinct names of that form, or versions, give distinct versioned names. |
| ItemNames.PlainNames | packages/shared_utils/src/shared_utils/item_classifier.py:66-119 | A name whose base does not end in a parenthesis reads back without a version and equals no versioned name. |
| ItemNames.NoWearBuilt | packages/shared_utils/src/shared_utils/item_classifier.py:93-119 | A name without wear never round trips: the parser leaves its version in the name. |

## Left out

- Floats: numbers are reals, and the square root is a parameter, so rounding and the six digits of the decision log are not modelled; the sweep is exact on exact scores.
- DecisionPath.LiveAndReplayAgree: live queues each evaluation on a pool of several workers; the model evaluates at once, so the order in which queued trades reach the executor is not modelled, only which do.
- The student features' values and the listing rates of the third strategy: they never enter a decision, so a decision only records that they are there.
- JSON text and its writer and reader: parameters with the round trip as their assumption; documents are values. Nested values among a gap's skip ids have no modelled text.
- The UUID check of a stored batch is a parameter, a batch ID is a fresh UUID, and the payload digest is injective.
- Python's whitespace beyond ASCII when names are stripped.
- Scoring.HeldValueIs: a sticker whose name key is there with a null value, which the filter counts as nothing and the model as the empty name.
- BatchDelivery.SendBatchWithRetry: the delays and their jitter, which decide when but not whether a batch is sent.
- BackendReplies.SentIsCommitted: that only the handler answers with success is an assumption on whatever stands between sender and backend.
- DeliveredRecords.BufferedIsDelivered: when a flush is due; the model lets one begin at any time.
- BatchDelivery.IterStream: other processes changing the stream between two of its pages; the delivery protocol covers interleaving, at the grain of single stream operations.
- DeliveryProtocol.ExactlyOnce: entries that do not deserialize, which `BatchDelivery` covers.
- DeliveryProtocol.EverythingCanBeDelivered: says that delivery stays possible, not that a fair schedule is chosen.
- The venue behind the poller: pages order by (creation time, id), and a listing appears at most LIVE_OVERLAP_MS after its creation. Both are assumptions on a service outside the repository.
- `DMarketScraper`'s polling schedule and the order of the recorded events within one poll.
- `expand_event` and the poll clock: a recorded event already holds the items it expands to.
- Labeling.LabelListings: due listings are put in order by a specification function rather than by Python's sort.
- OutcomeStore.SaveOutcomes: concurrent saves of the same key at the grain of single row locks; each statement is atomic.
- Purchases.ThreeImplementationsAgree: the decision's day is the day the backend stores; an order that crosses midnight is not covered.
- PurchaseLocks.NoDoubleBuy: the SQLite branch, which takes no lock and has one writer, and collisions of the lock's hash, which only make it wait more.
- SalesSync.StoredIsLastSeen: histories that change while they are fetched; and the time of a sync is in whole seconds, as sales are.
- RateLimiter.GrantsAreSpaced: a limit of zero (a setting between 0 and 1), with which `wait_seconds` fails on an empty deque.
- TaskPool.StopMarksFitIff: which ready coroutine the event loop resumes first is left open, so a close that may raise in the model needs an order in which the blocked submits come before it; a second call of `close`, while the first still waits or after one that raised; and a job that raises CancelledError by itself, with no close, and so ends its worker.
- TaskPool.TimeoutCancelsQueued: that a timed-out close ends, which a job that swallows its cancellation can prevent.
- Sockets, sessions, request signing, MessagePack and Socket.IO framing, REST polling: each fetch or post is a scripted or nondeterministic outcome.
- Metrics, logging, alerts' texts, health endpoints, schemas, migrations, MLflow, the training flow, reports and charts: no stateful property of their own.
- Float tiers, price buckets, walk-forward folds, the k-way merge and the bootstrap statistics: they would only add easy members.
