/**
 The decision path twice: the live consumer (`main.tick_consumer`) and the replay (`harness.run_replay`) with its
 strategies. They are written apart, with their own branches, and must agree: equal dedup caches and price
 windows, and live execution of exactly the ticks the replay approves.
 */
module DecisionPath {
  import opened Texts
  import opened Ticks
  import opened Scoring
  import opened PriceWindow
  import D = Dedup

  const UNCHANGED_SNAPSHOT_WINDOW_SECONDS := 3600

  // ---- Edge state and the steps both paths share ----

  datatype Edge = Edge(cache: D.Cache, sets: SortedSets)

  const FRESH := Edge(D.EMPTY, map[])

  function WindowOf(t: Tick, sets: SortedSets): SortedSet {
    WindowIn(sets, WindowKey(VenueName(t.venue), t.name))
  }

  predicate HourlySnapshotDue(timestamp: int, lastWindowedAt: Option<nat>) {
    lastWindowedAt.None? || timestamp - lastWindowedAt.value >= UNCHANGED_SNAPSHOT_WINDOW_SECONDS
  }

  /** `unchanged_snapshot_enters_price_window`: asked of the state before the tick is put. */
  predicate UnchangedEnters(t: Tick, e: Edge, rules: Rules) {
    var entry := D.Get(e.cache, t);
    var last := if entry.Some? then entry.value.snapshotWindowedAt else None;
    HourlySnapshotDue(t.timestamp, last) || |WindowOf(t, e.sets)| < rules.minHistoryPoints
  }

  function Put(t: Tick, e: Edge, entersWindow: bool, rules: Rules): Edge {
    e.(cache := D.Updated(e.cache, t, entersWindow, rules.dedupCacheMaxSize))
  }

  function PushTick(t: Tick, e: Edge, rules: Rules): Edge {
    e.(sets := PushedInto(e.sets, VenueName(t.venue), t.name, t.timestamp, t.priceCents, rules.windowSize))
  }

  function ScoreWindow(t: Tick, sets: SortedSets, m: Market, rules: Rules): ScoreResult {
    CalculateZScore(Prices(WindowOf(t, sets)), BaselineOf(t, m), rules)
  }

  // ---- The live path ----

  datatype Item = Raw(event: nat) | OfTick(tick: Tick)

  datatype Live = Live(edge: Edge, recorded: seq<Item>, executed: seq<Tick>)

  const LIVE_START := Live(FRESH, [], [])

  /**
   `update_window_and_detect`, and the evaluation it queues: the executor is reached when the trade is tradable.
   An exception while scoring is caught by the consumer, which goes on.
   */
  function UpdateWindowAndDetect(t: Tick, s: Live, m: Market, rules: Rules): Live {
    var edge := PushTick(t, s.edge, rules);
    var score := ScoreWindow(t, edge.sets, m, rules);
    if score.Scored? && ShouldTrigger(score.score, t, rules) && Tradable(t, m, rules)
    then s.(edge := edge, executed := s.executed + [t])
    else s.(edge := edge)
  }

  /** One item of the consumer loop. */
  function LiveStep(s: Live, item: Item, m: Market, rules: Rules): Live {
    if item.Raw? then s.(recorded := s.recorded + [item])
    else
      var t := item.tick;
      if !t.FeedsPriceWindow() then s.(recorded := s.recorded + [item])
      else if D.IsDuplicate(t, s.edge.cache) then
        if t.listingId.Some? || t.IsRestSnapshot() then s.(recorded := s.recorded + [item]) else s
      else
        var same := D.IsUnchangedSnapshot(t, s.edge.cache);
        var enters := !same || UnchangedEnters(t, s.edge, rules);
        var s' := s.(edge := Put(t, s.edge, enters, rules), recorded := s.recorded + [item]);
        if !same then UpdateWindowAndDetect(t, s', m, rules)
        else if enters then s'.(edge := PushTick(t, s'.edge, rules))
        else s'
  }

  function LiveRun(items: seq<Item>, m: Market, rules: Rules): Live {
    if items == [] then LIVE_START else LiveStep(LiveRun(items[..|items| - 1], m, rules), items[|items| - 1], m, rules)
  }

  // ---- Strategies ----

  datatype Reason =
    | Duplicate | UnchangedSnapshot | InsufficientHistory | MacroOnly | BelowThreshold | DreRejected | FeeFloored
    | ApprovedBy(rule: Rule)

  /** The inputs of a threshold sweep; None for a key the record does not hold. */
  datatype Features = Features(
    meanCents: real,
    source: Source,
    stickerCount: Option<nat>,
    dreReason: Option<Option<Rule>>,
    belowFeeFloor: Option<bool>)

  datatype Decision = Decision(approve: bool, reason: Reason, score: Option<real>, features: Option<Features>, student: bool)

  datatype Strategy = ZScoreDre | Sweep | StudentFeatures

  predicate RecordsSweepInputs(strategy: Strategy) {
    !strategy.ZScoreDre?
  }

  /** `decide_scored`. */
  function DecideScored(t: Tick, result: ScoreResult, m: Market, rules: Rules, recordsSweepInputs: bool): Decision
    requires !result.Failed?
  {
    if result.NoHistory? then Decision(false, InsufficientHistory, None, None, false)
    else
      var score := result.score;
      var baseline := BaselineOf(t, m);
      var features := Features(score.meanCents, score.source, if recordsSweepInputs then Some(|t.stickers|) else None, None, None);
      if !SourceCanTrigger(score.source, rules) then Decision(false, MacroOnly, Some(score.z), Some(features), false)
      else if !ShouldTrigger(score, t, rules) then
        var wouldBe := DreReason(t, baseline, m);
        var floored := if wouldBe.None? then None
                       else Some(BelowFeeFloor(wouldBe.value, EstimateNetProfit(t, baseline.GetOr(NO_BASELINE)), rules));
        var inputs := if recordsSweepInputs then features.(dreReason := Some(wouldBe), belowFeeFloor := floored) else features;
        Decision(false, BelowThreshold, Some(score.z), Some(inputs), false)
      else
        var rule := DreReason(t, baseline, m);
        if rule.None? then Decision(false, DreRejected, Some(score.z), Some(features), false)
        else if BelowFeeFloor(rule.value, EstimateNetProfit(t, baseline.GetOr(NO_BASELINE)), rules)
        then Decision(false, FeeFloored, Some(score.z), Some(features), false)
        else Decision(true, ApprovedBy(rule.value), Some(score.z), Some(features), false)
  }

  /** `decide` of each strategy, on a tick already in its window; None where scoring raises. */
  function Decide(strategy: Strategy, t: Tick, sets: SortedSets, m: Market, rules: Rules): Option<Decision> {
    var result := ScoreWindow(t, sets, m, rules);
    if result.Failed? then None
    else
      var decision := DecideScored(t, result, m, rules, RecordsSweepInputs(strategy));
      Some(decision.(student := strategy.StudentFeatures? && t.listingId.Some?))
  }

  // ---- The replay ----

  /** One item, with what the schedule of builds and the log settings say about the moment it is replayed. */
  datatype Moment = Moment(item: Item, market: Market, lookAhead: bool, logged: bool)

  datatype Row = Row(tick: Tick, decision: Decision, lookAhead: bool)

  /** `raised`: an exception ended the replay. */
  datatype Replay = Replay(edge: Edge, rows: seq<Row>, raised: bool)

  const REPLAY_START := Replay(FRESH, [], false)

  predicate ShouldLog(t: Tick, d: Decision) {
    t.listingId.Some? || d.approve
  }

  function Log(s: Replay, at: Moment, t: Tick, d: Decision): Replay {
    if at.logged && ShouldLog(t, d) then s.(rows := s.rows + [Row(t, d, at.lookAhead)]) else s
  }

  function Rejected(reason: Reason): Decision {
    Decision(false, reason, None, None, false)
  }

  /** One item of the replay loop. */
  function ReplayStep(s: Replay, at: Moment, strategy: Strategy, rules: Rules): Replay {
    if s.raised || at.item.Raw? || !at.item.tick.FeedsPriceWindow() then s
    else
      var t := at.item.tick;
      if D.IsDuplicate(t, s.edge.cache) then Log(s, at, t, Rejected(Duplicate))
      else if D.IsUnchangedSnapshot(t, s.edge.cache) then
        var enters := UnchangedEnters(t, s.edge, rules);
        var put := Put(t, s.edge, enters, rules);
        Log(s.(edge := if enters then PushTick(t, put, rules) else put), at, t, Rejected(UnchangedSnapshot))
      else
        var edge := PushTick(t, Put(t, s.edge, true, rules), rules);
        var decision := Decide(strategy, t, edge.sets, at.market, rules);
        if decision.None? then s.(edge := edge, raised := true) else Log(s.(edge := edge), at, t, decision.value)
  }

  function ReplayRun(moments: seq<Moment>, strategy: Strategy, rules: Rules): Replay {
    if moments == [] then REPLAY_START
    else ReplayStep(ReplayRun(moments[..|moments| - 1], strategy, rules), moments[|moments| - 1], strategy, rules)
  }

  // ---- The paths agree ----

  /** A live stream as a replay sees it: one fixed set of baselines, everything logged. */
  function AsMoments(items: seq<Item>, m: Market): (moments: seq<Moment>)
    ensures |moments| == |items|
    ensures forall i :: 0 <= i < |items| ==> moments[i] == Moment(items[i], m, false, true)
  {
    seq(|items|, i requires 0 <= i < |items| => Moment(items[i], m, false, true))
  }

  lemma AsMomentsFront(items: seq<Item>, m: Market)
    requires items != []
    ensures AsMoments(items, m)[..|items| - 1] == AsMoments(items[..|items| - 1], m)
  {
  }

  function ApprovedTicks(rows: seq<Row>): seq<Tick> {
    if rows == [] then []
    else
      var row := rows[|rows| - 1];
      if row.decision.approve then ApprovedTicks(rows[..|rows| - 1]) + [row.tick] else ApprovedTicks(rows[..|rows| - 1])
  }

  lemma ApprovedSnoc(rows: seq<Row>, row: Row)
    ensures ApprovedTicks(rows + [row]) == if row.decision.approve then ApprovedTicks(rows) + [row.tick] else ApprovedTicks(rows)
  {
    assert (rows + [row])[..|rows|] == rows;
  }

  /** Every strategy approves exactly the scored ticks live hands to the executor. */
  lemma DecisionIsLive(strategy: Strategy, t: Tick, sets: SortedSets, m: Market, rules: Rules)
    requires Decide(strategy, t, sets, m, rules).Some?
    ensures var score := ScoreWindow(t, sets, m, rules);
      Decide(strategy, t, sets, m, rules).value.approve
      <==> score.Scored? && ShouldTrigger(score.score, t, rules) && Tradable(t, m, rules)
  {
    hide ScoreWindow;
    hide DreReason;
    hide BelowFeeFloor;
    hide EstimateNetProfit;
  }

  lemma StepsAgree(live: Live, replay: Replay, item: Item, m: Market, strategy: Strategy, rules: Rules)
    requires live.edge == replay.edge && live.executed == ApprovedTicks(replay.rows) && !replay.raised
    ensures var replay' := ReplayStep(replay, Moment(item, m, false, true), strategy, rules);
      var live' := LiveStep(live, item, m, rules);
      live'.edge == replay'.edge && (!replay'.raised ==> live'.executed == ApprovedTicks(replay'.rows))
  {
    hide Decide;
    hide ScoreWindow;
    hide Tradable;
    hide ShouldTrigger;
    hide D.IsDuplicate;
    hide D.IsUnchangedSnapshot;
    hide D.Updated;
    hide PushedInto;
    hide UnchangedEnters;
    hide ApprovedTicks;
    var at := Moment(item, m, false, true);
    var replay' := ReplayStep(replay, at, strategy, rules);
    if replay'.rows != replay.rows {
      ApprovedSnoc(replay.rows, replay'.rows[|replay.rows|]);
    }
    if item.OfTick? {
      var t := item.tick;
      var sets := PushTick(t, Put(t, replay.edge, true, rules), rules).sets;
      if Decide(strategy, t, sets, m, rules).Some? {
        DecisionIsLive(strategy, t, sets, m, rules);
      }
    }
  }

  /**
   Live and replay agree, for every strategy: after any stream the dedup caches and windows are equal, and live
   reached the executor with exactly the ticks the replay approved, in order. An exception while scoring ends
   the replay, while live drops that one tick's decision: up to there the two agree.
   */
  lemma {:induction false} LiveAndReplayAgree(items: seq<Item>, m: Market, strategy: Strategy, rules: Rules)
    requires !ReplayRun(AsMoments(items, m), strategy, rules).raised
    ensures LiveRun(items, m, rules).edge == ReplayRun(AsMoments(items, m), strategy, rules).edge
    ensures LiveRun(items, m, rules).executed == ApprovedTicks(ReplayRun(AsMoments(items, m), strategy, rules).rows)
  {
    hide LiveStep;
    hide ReplayStep;
    if items == [] {
      assert AsMoments(items, m) == [];
    } else {
      var front, last := items[..|items| - 1], items[|items| - 1];
      AsMomentsFront(items, m);
      var before := ReplayRun(AsMoments(front, m), strategy, rules);
      if before.raised {
        RaisedStays(before, Moment(last, m, false, true), strategy, rules);
      }
      LiveAndReplayAgree(front, m, strategy, rules);
      StepsAgree(LiveRun(front, m, rules), before, last, m, strategy, rules);
    }
  }

  lemma RaisedStays(s: Replay, at: Moment, strategy: Strategy, rules: Rules)
    requires s.raised
    ensures ReplayStep(s, at, strategy, rules) == s
  {
  }

  /** The replay raises exactly when live has a scoring that fails: the score does not depend on the strategy. */
  predicate ScoringFails(s: Edge, item: Item, m: Market, rules: Rules) {
    item.OfTick? && item.tick.FeedsPriceWindow() && !D.IsDuplicate(item.tick, s.cache) && !D.IsUnchangedSnapshot(item.tick, s.cache)
    && ScoreWindow(item.tick, PushTick(item.tick, Put(item.tick, s, true, rules), rules).sets, m, rules).Failed?
  }

  /** Some item's scoring failed live. */
  predicate SomeScoringFailed(items: seq<Item>, m: Market, rules: Rules) {
    items != [] &&
    var front := items[..|items| - 1];
    (SomeScoringFailed(front, m, rules) || ScoringFails(LiveRun(front, m, rules).edge, items[|items| - 1], m, rules))
  }

  lemma {:induction false} ReplayRaisesIff(items: seq<Item>, m: Market, strategy: Strategy, rules: Rules)
    ensures ReplayRun(AsMoments(items, m), strategy, rules).raised <==> SomeScoringFailed(items, m, rules)
  {
    hide LiveStep;
    hide ScoringFails;
    hide ReplayStep;
    if items == [] {
      assert AsMoments(items, m) == [];
    } else {
      var front, last := items[..|items| - 1], items[|items| - 1];
      var before := ReplayRun(AsMoments(front, m), strategy, rules);
      AsMomentsFront(items, m);
      ReplayRaisesIff(front, m, strategy, rules);
      if before.raised {
        RaisedStays(before, Moment(last, m, false, true), strategy, rules);
      } else {
        LiveAndReplayAgree(front, m, strategy, rules);
        StepRaisesIff(before, last, m, strategy, rules);
      }
    }
  }

  lemma StepRaisesIff(s: Replay, item: Item, m: Market, strategy: Strategy, rules: Rules)
    requires !s.raised
    ensures ReplayStep(s, Moment(item, m, false, true), strategy, rules).raised <==> ScoringFails(s.edge, item, m, rules)
  {
    hide ScoreWindow;
    hide D.Updated;
    hide PushedInto;
    hide D.IsDuplicate;
    hide D.IsUnchangedSnapshot;
    hide UnchangedEnters;
    hide DecideScored;
  }

  /** What the strategies share of a row: everything but the recorded inputs of other thresholds. */
  predicate SameVerdict(a: Row, b: Row) {
    && a.tick == b.tick && a.lookAhead == b.lookAhead
    && a.decision.approve == b.decision.approve
    && a.decision.reason == b.decision.reason
    && a.decision.score == b.decision.score
  }

  ghost predicate SameLog(a: Replay, b: Replay) {
    && a.edge == b.edge && a.raised == b.raised && |a.rows| == |b.rows|
    && forall i :: 0 <= i < |a.rows| ==> SameVerdict(a.rows[i], b.rows[i])
  }

  lemma DecisionsAgree(a: Strategy, b: Strategy, t: Tick, sets: SortedSets, m: Market, rules: Rules)
    ensures var da, db := Decide(a, t, sets, m, rules), Decide(b, t, sets, m, rules);
      && da.Some? == db.Some?
      && (da.Some? ==> da.value.approve == db.value.approve && da.value.reason == db.value.reason && da.value.score == db.value.score)
  {
    hide ScoreWindow;
    hide DreReason;
    hide BelowFeeFloor;
    hide EstimateNetProfit;
    hide ShouldTrigger;
  }

  lemma LogKeepsSame(x: Replay, y: Replay, at: Moment, t: Tick, d: Decision, d': Decision)
    requires SameLog(x, y) && d.approve == d'.approve && d.reason == d'.reason && d.score == d'.score
    ensures SameLog(Log(x, at, t, d), Log(y, at, t, d'))
  {
  }

  lemma MovedKeepsSame(x: Replay, y: Replay, edge: Edge, raised: bool)
    requires SameLog(x, y)
    ensures SameLog(x.(edge := edge, raised := raised), y.(edge := edge, raised := raised))
  {
  }

  lemma StepKeepsSameLog(x: Replay, y: Replay, at: Moment, a: Strategy, b: Strategy, rules: Rules)
    requires SameLog(x, y)
    ensures SameLog(ReplayStep(x, at, a, rules), ReplayStep(y, at, b, rules))
  {
    hide Decide;
    hide D.Updated;
    hide PushedInto;
    hide D.IsDuplicate;
    hide D.IsUnchangedSnapshot;
    hide UnchangedEnters;
    hide Log;
    assert x.edge == y.edge && x.raised == y.raised;
    hide SameLog;
    if x.raised || at.item.Raw? || !at.item.tick.FeedsPriceWindow() {
      return;
    }
    var t := at.item.tick;
    if D.IsDuplicate(t, x.edge.cache) {
      LogKeepsSame(x, y, at, t, Rejected(Duplicate), Rejected(Duplicate));
    } else if D.IsUnchangedSnapshot(t, x.edge.cache) {
      var enters := UnchangedEnters(t, x.edge, rules);
      var put := Put(t, x.edge, enters, rules);
      var edge := if enters then PushTick(t, put, rules) else put;
      MovedKeepsSame(x, y, edge, false);
      LogKeepsSame(x.(edge := edge), y.(edge := edge), at, t, Rejected(UnchangedSnapshot), Rejected(UnchangedSnapshot));
    } else {
      var edge := PushTick(t, Put(t, x.edge, true, rules), rules);
      DecisionsAgree(a, b, t, edge.sets, at.market, rules);
      var da, db := Decide(a, t, edge.sets, at.market, rules), Decide(b, t, edge.sets, at.market, rules);
      MovedKeepsSame(x, y, edge, da.None?);
      if da.Some? {
        LogKeepsSame(x.(edge := edge), y.(edge := edge), at, t, da.value, db.value);
      }
    }
  }

  lemma StartsSame()
    ensures SameLog(REPLAY_START, REPLAY_START)
  {
  }

  lemma {:induction false} LogsAgree(moments: seq<Moment>, a: Strategy, b: Strategy, rules: Rules)
    ensures SameLog(ReplayRun(moments, a, rules), ReplayRun(moments, b, rules))
  {
    hide ReplayStep;
    hide SameLog;
    if moments == [] {
      StartsSame();
    } else {
      var front := moments[..|moments| - 1];
      LogsAgree(front, a, b, rules);
      StepKeepsSameLog(ReplayRun(front, a, rules), ReplayRun(front, b, rules), moments[|moments| - 1], a, b, rules);
    }
  }

  /** All strategies make the same decisions, with the same reasons and scores, over any replay. */
  lemma StrategiesAgree(moments: seq<Moment>, a: Strategy, b: Strategy, rules: Rules)
    ensures var x, y := ReplayRun(moments, a, rules), ReplayRun(moments, b, rules);
      && x.edge == y.edge && x.raised == y.raised && |x.rows| == |y.rows|
      && forall i :: 0 <= i < |x.rows| ==>
           && x.rows[i].tick == y.rows[i].tick && x.rows[i].lookAhead == y.rows[i].lookAhead
           && x.rows[i].decision.approve == y.rows[i].decision.approve && x.rows[i].decision.reason == y.rows[i].decision.reason
           && x.rows[i].decision.score == y.rows[i].decision.score
  {
    LogsAgree(moments, a, b, rules);
    hide ReplayRun;
  }

  /** The inputs of a sweep are recorded exactly by the strategies that record them, the engine's verdict below the threshold. */
  lemma InputsRecordedIff(strategy: Strategy, t: Tick, sets: SortedSets, m: Market, rules: Rules)
    ensures var d := Decide(strategy, t, sets, m, rules);
      d.Some? && d.value.features.Some? ==>
        var f, records := d.value.features.value, strategy.Sweep? || strategy.StudentFeatures?;
        && f.stickerCount == (if records then Some(|t.stickers|) else None)
        && f.dreReason == (if records && d.value.reason == BelowThreshold then Some(DreReason(t, BaselineOf(t, m), m)) else None)
  {
    hide ScoreWindow;
    hide DreReason;
    hide BelowFeeFloor;
    hide EstimateNetProfit;
    hide ShouldTrigger;
  }

  // ---- What is recorded replays to the same decisions ----

  lemma UnrecordedChangesNothing(s: Live, item: Item, m: Market, rules: Rules)
    ensures LiveStep(s, item, m, rules).recorded == s.recorded || LiveStep(s, item, m, rules).recorded == s.recorded + [item]
    ensures LiveStep(s, item, m, rules).recorded == s.recorded ==> LiveStep(s, item, m, rules) == s
  {
    hide D.IsDuplicate;
    hide D.IsUnchangedSnapshot;
    hide D.Updated;
    hide PushedInto;
    hide ScoreWindow;
    hide Tradable;
    hide ShouldTrigger;
    hide UnchangedEnters;
    assert s.recorded + [item] != s.recorded;
  }

  /** The recorded stream alone brings the listener to the same state, and to the same purchases. */
  lemma {:induction false} RecordedStreamSuffices(items: seq<Item>, m: Market, rules: Rules)
    ensures LiveRun(LiveRun(items, m, rules).recorded, m, rules) == LiveRun(items, m, rules)
  {
    hide LiveStep;
    if items != [] {
      var front, last := items[..|items| - 1], items[|items| - 1];
      var s := LiveRun(front, m, rules);
      var s' := LiveStep(s, last, m, rules);
      RecordedStreamSuffices(front, m, rules);
      UnrecordedChangesNothing(s, last, m, rules);
      if s'.recorded != s.recorded {
        assert s'.recorded[..|s'.recorded| - 1] == s.recorded;
      }
    }
  }

  // ---- The cache is the history of updates ----

  /** The updates live makes: every tick that feeds the window and is not a duplicate. */
  function UpdatesOf(items: seq<Item>, m: Market, rules: Rules): seq<D.Update> {
    if items == [] then []
    else
      var front, item := items[..|items| - 1], items[|items| - 1];
      var e := LiveRun(front, m, rules).edge;
      if item.Raw? || !item.tick.FeedsPriceWindow() || D.IsDuplicate(item.tick, e.cache) then UpdatesOf(front, m, rules)
      else
        var enters := !D.IsUnchangedSnapshot(item.tick, e.cache) || UnchangedEnters(item.tick, e, rules);
        UpdatesOf(front, m, rules) + [D.Update(item.tick, enters)]
  }

  lemma {:induction false} CacheIsHistory(items: seq<Item>, m: Market, rules: Rules)
    ensures LiveRun(items, m, rules).edge.cache == D.CacheAfter(UpdatesOf(items, m, rules), rules.dedupCacheMaxSize)
  {
    hide D.IsDuplicate;
    hide D.IsUnchangedSnapshot;
    hide D.Updated;
    hide PushedInto;
    hide ScoreWindow;
    hide Tradable;
    hide ShouldTrigger;
    hide UnchangedEnters;
    if items != [] {
      var front := items[..|items| - 1];
      CacheIsHistory(front, m, rules);
      var updates := UpdatesOf(items, m, rules);
      if updates != UpdatesOf(front, m, rules) {
        assert updates[..|updates| - 1] == UpdatesOf(front, m, rules);
      }
    }
  }

  /** The tick is scored: it is not a duplicate and not an unchanged snapshot. */
  predicate IsScored(s: Live, t: Tick) {
    t.FeedsPriceWindow() && !D.IsDuplicate(t, s.edge.cache) && !D.IsUnchangedSnapshot(t, s.edge.cache)
  }

  /**
   While a venue's listings fit the cache, a feed listing is scored exactly when its price is not the one it was
   last seen at, over the whole history: never twice in a row at one price.
   */
  lemma {:induction false} ListingScoredIffPriceChanged(items: seq<Item>, t: Tick, m: Market, rules: Rules)
    requires t.listingId.Some? && t.kind.Listed?
    requires |D.ListingsSeen(UpdatesOf(items, m, rules), t.venue)| <= rules.dedupCacheMaxSize
    ensures IsScored(LiveRun(items, m, rules), t)
      <==> D.LastListingPrice(UpdatesOf(items, m, rules), t.venue, t.listingId.value) != Some(t.priceCents)
  {
    hide LiveRun;
    hide UpdatesOf;
    CacheIsHistory(items, m, rules);
    D.ListingsAnswerAsHistory(UpdatesOf(items, m, rules), t.venue, t.listingId.value, rules.dedupCacheMaxSize);
  }

  /**
   A REST snapshot that is no duplicate is scored exactly when its price is not that of the item's last snapshot, over the
   whole history, while the venue's items fit: never twice in a row at one price.
   */
  lemma {:induction false} SnapshotScoredIffChanged(items: seq<Item>, t: Tick, m: Market, rules: Rules)
    requires t.IsRestSnapshot() && t.listingId.None?
    requires |D.NamesSeen(UpdatesOf(items, m, rules), t.venue)| <= rules.dedupCacheMaxSize
    ensures var updates := UpdatesOf(items, m, rules);
      var last := D.LastTick(updates, t.venue, t.name);
      IsScored(LiveRun(items, m, rules), t)
      <==> D.LastSnapshotPrice(updates, t.venue, t.name) != Some(t.priceCents)
           && !(last.Some? && last.value.priceCents == t.priceCents && t.timestamp < last.value.timestamp + D.DEDUP_WINDOW_SECONDS)
  {
    hide LiveRun;
    hide UpdatesOf;
    CacheIsHistory(items, m, rules);
    var updates := UpdatesOf(items, m, rules);
    D.ItemsAnswerAsHistory(updates, t.venue, t.name, rules.dedupCacheMaxSize);
    if D.LastTick(updates, t.venue, t.name).None? {
      D.NeverSeen(updates, t.venue, t.name);
    }
  }

  /**
   An unchanged snapshot enters the window while that is short, and else once an hour: exactly when the item's last
   snapshot that entered, over the whole history, lies an hour back or none did.
   */
  lemma {:induction false} UnchangedEntersHourly(items: seq<Item>, t: Tick, m: Market, rules: Rules)
    requires |D.NamesSeen(UpdatesOf(items, m, rules), t.venue)| <= rules.dedupCacheMaxSize
    ensures var last := D.LastWindowedAt(UpdatesOf(items, m, rules), t.venue, t.name);
      UnchangedEnters(t, LiveRun(items, m, rules).edge, rules)
      <==> |WindowOf(t, LiveRun(items, m, rules).edge.sets)| < rules.minHistoryPoints
           || last.None? || t.timestamp >= last.value + UNCHANGED_SNAPSHOT_WINDOW_SECONDS
  {
    hide LiveRun;
    hide UpdatesOf;
    CacheIsHistory(items, m, rules);
    var updates := UpdatesOf(items, m, rules);
    D.ItemsAnswerAsHistory(updates, t.venue, t.name, rules.dedupCacheMaxSize);
    if D.LastTick(updates, t.venue, t.name).None? {
      D.NeverSeen(updates, t.venue, t.name);
    }
  }

  // ---- The imperative forms ----

  /** The consumer's state: its own dedup cache, and the edge store all its windows live in. */
  class TickConsumer {
    const cache: D.DedupCache
    const store: EdgeStore
    const rules: Rules
    var recorded: seq<Item>
    var executed: seq<Tick>

    constructor (rules: Rules)
      ensures fresh(cache) && fresh(store) && this.rules == rules
      ensures Valid() && State() == LIVE_START
    {
      cache := new D.DedupCache(rules.dedupCacheMaxSize);
      store := new EdgeStore();
      this.rules := rules;
      recorded, executed := [], [];
    }

    ghost predicate Valid()
      reads this
    {
      cache.maxSize == rules.dedupCacheMaxSize
    }

    ghost function State(): Live
      reads this, cache, store
    {
      Live(Edge(cache.State(), store.sets), recorded, executed)
    }

    method UnchangedSnapshotEnters(t: Tick) returns (enters: bool)
      ensures enters == UnchangedEnters(t, State().edge, rules)
    {
      var entry := D.Get(cache.State(), t);
      var last := if entry.Some? then entry.value.snapshotWindowedAt else None;
      if HourlySnapshotDue(t.timestamp, last) {
        return true;
      }
      var size := store.Zcard(WindowKey(VenueName(t.venue), t.name));
      enters := size < rules.minHistoryPoints;
    }

    /** One pass of the consumer loop, the recording of the item included. */
    method Consume(item: Item, m: Market)
      requires Valid()
      modifies this, cache, store
      ensures Valid() && State() == LiveStep(old(State()), item, m, rules)
    {
      hide D.IsDuplicate;
      hide D.IsUnchangedSnapshot;
      hide D.Updated;
      hide PushedInto;
      hide Tradable;
      hide ShouldTrigger;
      hide CalculateZScore;
      if item.Raw? {
        recorded := recorded + [item];
      } else if !item.tick.FeedsPriceWindow() {
        recorded := recorded + [item];
      } else if D.IsDuplicate(item.tick, cache.State()) {
        if item.tick.listingId.Some? || item.tick.IsRestSnapshot() {
          recorded := recorded + [item];
        }
      } else {
        var t := item.tick;
        var same := D.IsUnchangedSnapshot(t, cache.State());
        var enters := true;
        if same {
          enters := UnchangedSnapshotEnters(t);
        }
        cache.Update(t, enters);
        recorded := recorded + [item];
        if same {
          if enters {
            store.PushToWindow(VenueName(t.venue), t.name, t.timestamp, t.priceCents, rules.windowSize);
          }
        } else {
          store.PushToWindow(VenueName(t.venue), t.name, t.timestamp, t.priceCents, rules.windowSize);
          var score := ScoreWindow(t, store.sets, m, rules);
          if score.Scored? && ShouldTrigger(score.score, t, rules) && Tradable(t, m, rules) {
            executed := executed + [t];
          }
        }
      }
    }
  }
}
