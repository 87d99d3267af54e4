/**
 The replay loop over a schedule of baseline builds, and the threshold sweep: from one decision log it approves, for any
 thresholds, exactly the listings a full replay with them would approve, since state never depends on decisions.
 */
module ThresholdSweep {
  import opened Texts
  import opened Ticks
  import opened Scoring
  import opened PriceWindow
  import opened DecisionPath

  // ---- The replay of recorded events ----

  datatype Build = Build(effectiveFromMs: int, market: Market)

  datatype Baselines = Fixed(market: Market) | Scheduled(builds: seq<Build>)

  datatype Event = Event(timeMs: int, items: seq<Item>)

  /** The newest build that has taken effect; the first one before any has. */
  function ActiveIndex(builds: seq<Build>, timeMs: int): (index: nat)
    ensures builds != [] ==> index < |builds|
    ensures builds != [] ==> builds[index].effectiveFromMs <= timeMs || index == 0
    ensures forall i :: index < i < |builds| ==> builds[i].effectiveFromMs > timeMs
  {
    if builds == [] then 0
    else if builds[|builds| - 1].effectiveFromMs <= timeMs then |builds| - 1
    else ActiveIndex(builds[..|builds| - 1], timeMs)
  }

  method FindActive(builds: seq<Build>, timeMs: int) returns (active: nat)
    ensures active == ActiveIndex(builds, timeMs)
  {
    active := 0;
    for index := 0 to |builds|
      invariant active == ActiveIndex(builds[..index], timeMs)
    {
      assert builds[..index + 1][..index] == builds[..index];
      if builds[index].effectiveFromMs <= timeMs {
        active := index;
      }
    }
    assert builds[..|builds|] == builds;
  }

  /** The build loaded now, and whether it was a later one when it was loaded. */
  datatype Switch = Switch(active: Option<nat>, lookAhead: bool, market: Market)

  function FirstSwitch(b: Baselines): Switch {
    Switch(None, false, if b.Fixed? then b.market else Market(map[], map[]))
  }

  predicate HasBuilds(b: Baselines) {
    b.Scheduled? ==> b.builds != []
  }

  function Advance(s: Switch, b: Baselines, timeMs: int): Switch
    requires HasBuilds(b)
  {
    if b.Fixed? then s
    else
      var index := ActiveIndex(b.builds, timeMs);
      if s.active == Some(index) then s
      else Switch(Some(index), b.builds[index].effectiveFromMs > timeMs, b.builds[index].market)
  }

  function SwitchAfter(events: seq<Event>, b: Baselines): Switch
    requires HasBuilds(b)
  {
    if events == [] then FirstSwitch(b)
    else Advance(SwitchAfter(events[..|events| - 1], b), b, events[|events| - 1].timeMs)
  }

  /**
   Which build an event sees: with a schedule the one in effect at its time, loaded at some event from which on no other was;
   it looks ahead exactly when it had not taken effect by then. Without one, always the same baselines.
   */
  lemma {:induction false} SwitchIs(events: seq<Event>, b: Baselines) returns (loadedAt: nat)
    requires HasBuilds(b) && events != []
    ensures b.Fixed? ==> SwitchAfter(events, b).market == b.market && !SwitchAfter(events, b).lookAhead
    ensures b.Scheduled? ==>
      var index, switch := ActiveIndex(b.builds, events[|events| - 1].timeMs), SwitchAfter(events, b);
      && switch.active == Some(index) && switch.market == b.builds[index].market
      && loadedAt < |events| && (forall i :: loadedAt <= i < |events| ==> ActiveIndex(b.builds, events[i].timeMs) == index)
      && (loadedAt > 0 ==> ActiveIndex(b.builds, events[loadedAt - 1].timeMs) != index)
      && (switch.lookAhead <==> b.builds[index].effectiveFromMs > events[loadedAt].timeMs)
    decreases |events|
  {
    hide ActiveIndex;
    var front := events[..|events| - 1];
    loadedAt := |events| - 1;
    if front != [] {
      var before := SwitchIs(front, b);
      if b.Scheduled? && SwitchAfter(front, b).active == Some(ActiveIndex(b.builds, events[|events| - 1].timeMs)) {
        loadedAt := before;
      }
    }
  }

  /** What an item meets: the baselines of its event's build, and whether its event is logged. */
  lemma MomentIs(e: Event, s: Switch, logFromMs: Option<int>, i: nat)
    requires i < |e.items|
    ensures var at := EventMoments(e, s, logFromMs)[i];
      && at.item == e.items[i] && at.market == s.market && at.lookAhead == s.lookAhead
      && (at.logged <==> (logFromMs.Some? ==> e.timeMs >= logFromMs.value))
  {
    var at := EventMoments(e, s, logFromMs)[i];
    assert at == Moment(e.items[i], s.market, s.lookAhead, IsLogged(e.timeMs, logFromMs));
    if logFromMs.Some? {
      assert IsLogged(e.timeMs, logFromMs) <==> e.timeMs >= logFromMs.value;
    }
  }

  predicate IsLogged(timeMs: int, logFromMs: Option<int>) {
    logFromMs.None? || timeMs >= logFromMs.value
  }

  function EventMoments(e: Event, s: Switch, logFromMs: Option<int>): (moments: seq<Moment>)
    ensures |moments| == |e.items|
  {
    seq(|e.items|, i requires 0 <= i < |e.items| => Moment(e.items[i], s.market, s.lookAhead, IsLogged(e.timeMs, logFromMs)))
  }

  /** Every item with its moment. Which build it sees and whether it is logged depend on event times alone. */
  function Moments(events: seq<Event>, b: Baselines, logFromMs: Option<int>): seq<Moment>
    requires HasBuilds(b)
  {
    if events == [] then []
    else Moments(events[..|events| - 1], b, logFromMs) + EventMoments(events[|events| - 1], SwitchAfter(events, b), logFromMs)
  }

  /** One item, on the replay's own cache and store. */
  method ReplayItem(at: Moment, strategy: Strategy, rules: Rules, cache: D.DedupCache, store: EdgeStore, rows: seq<Row>)
    returns (rows': seq<Row>, raised: bool)
    requires cache.maxSize == rules.dedupCacheMaxSize
    modifies cache, store
    ensures Replay(Edge(cache.State(), store.sets), rows', raised)
      == ReplayStep(Replay(old(Edge(cache.State(), store.sets)), rows, false), at, strategy, rules)
  {
    hide D.IsDuplicate;
    hide D.IsUnchangedSnapshot;
    hide D.Updated;
    hide PushedInto;
    hide ScoreWindow;
    hide DecideScored;
    hide D.Get;
    rows', raised := rows, false;
    if at.item.Raw? || !at.item.tick.FeedsPriceWindow() {
      return;
    }
    var t := at.item.tick;
    var decision;
    if D.IsDuplicate(t, cache.State()) {
      decision := Rejected(Duplicate);
    } else if D.IsUnchangedSnapshot(t, cache.State()) {
      var enters := UnchangedEnters(t, Edge(cache.State(), store.sets), rules);
      cache.Update(t, enters);
      if enters {
        store.PushToWindow(VenueName(t.venue), t.name, t.timestamp, t.priceCents, rules.windowSize);
      }
      decision := Rejected(UnchangedSnapshot);
    } else {
      cache.Update(t, true);
      store.PushToWindow(VenueName(t.venue), t.name, t.timestamp, t.priceCents, rules.windowSize);
      var decided := Decide(strategy, t, store.sets, at.market, rules);
      if decided.None? {
        raised := true;
        return;
      }
      decision := decided.value;
    }
    if at.logged && ShouldLog(t, decision) {
      rows' := rows + [Row(t, decision, at.lookAhead)];
    }
  }

  lemma {:induction false} RaisedToTheEnd(moments: seq<Moment>, k: nat, strategy: Strategy, rules: Rules)
    requires k <= |moments| && ReplayRun(moments[..k], strategy, rules).raised
    ensures ReplayRun(moments, strategy, rules) == ReplayRun(moments[..k], strategy, rules)
    decreases |moments|
  {
    hide ReplayStep;
    if k == |moments| {
      assert moments[..k] == moments;
    } else {
      var front := moments[..|moments| - 1];
      assert front[..k] == moments[..k];
      RaisedToTheEnd(front, k, strategy, rules);
      RaisedStays(ReplayRun(front, strategy, rules), moments[|moments| - 1], strategy, rules);
    }
  }

  lemma {:induction false} MomentsPrefix(events: seq<Event>, n: nat, b: Baselines, logFromMs: Option<int>)
    requires HasBuilds(b) && n <= |events|
    ensures Moments(events[..n], b, logFromMs) <= Moments(events, b, logFromMs)
    decreases |events|
  {
    hide EventMoments;
    if n == |events| {
      assert events[..n] == events;
    } else {
      var front := events[..|events| - 1];
      assert front[..n] == events[..n];
      MomentsPrefix(front, n, b, logFromMs);
    }
  }

  /** The items of one event, after the moments `before`; an exception stops after `done` of them. */
  method ReplayMoments(moments: seq<Moment>, strategy: Strategy, rules: Rules, cache: D.DedupCache, store: EdgeStore,
                       rows: seq<Row>, ghost before: seq<Moment>)
    returns (rows': seq<Row>, raised: bool, done: nat)
    requires cache.maxSize == rules.dedupCacheMaxSize
    requires Replay(Edge(cache.State(), store.sets), rows, false) == ReplayRun(before, strategy, rules)
    modifies cache, store
    ensures done <= |moments| && (!raised ==> done == |moments|)
    ensures Replay(Edge(cache.State(), store.sets), rows', raised) == ReplayRun(before + moments[..done], strategy, rules)
  {
    hide ReplayStep;
    hide D.DedupCache.State;
    rows', raised, done := rows, false, 0;
    assert before + moments[..0] == before;
    while done < |moments| && !raised
      invariant done <= |moments| && (!raised || done > 0)
      invariant Replay(Edge(cache.State(), store.sets), rows', raised) == ReplayRun(before + moments[..done], strategy, rules)
      decreases |moments| - done
    {
      assert (before + moments[..done + 1])[..|before| + done] == before + moments[..done];
      rows', raised := ReplayItem(moments[done], strategy, rules, cache, store, rows');
      done := done + 1;
    }
  }

  /** `run_replay`: the loops over events and their items; a schedule without builds is refused. */
  method RunReplay(events: seq<Event>, strategy: Strategy, b: Baselines, logFromMs: Option<int>, rules: Rules)
    returns (log: seq<Row>, raised: bool, ghost edge: Edge)
    ensures !HasBuilds(b) ==> raised && log == []
    ensures HasBuilds(b) ==> Replay(edge, log, raised) == ReplayRun(Moments(events, b, logFromMs), strategy, rules)
  {
    hide ReplayStep;
    hide ReplayRun;
    hide Advance;
    hide EventMoments;
    hide D.DedupCache.State;
    log, raised, edge := [], false, FRESH;
    if b.Scheduled? && b.builds == [] {
      return [], true, edge;
    }
    var cache := new D.DedupCache(rules.dedupCacheMaxSize);
    var store := new EdgeStore();
    var switch := FirstSwitch(b);
    NothingReplayed(strategy, rules);
    for n := 0 to |events|
      invariant cache.maxSize == rules.dedupCacheMaxSize && fresh(cache) && fresh(store)
      invariant !raised && switch == SwitchAfter(events[..n], b)
      invariant Replay(Edge(cache.State(), store.sets), log, false)
        == ReplayRun(Moments(events[..n], b, logFromMs), strategy, rules)
    {
      assert events[..n + 1][..n] == events[..n];
      switch := Advance(switch, b, events[n].timeMs);
      var moments := EventMoments(events[n], switch, logFromMs);
      ghost var before, done := Moments(events[..n], b, logFromMs), 0;
      log, raised, done := ReplayMoments(moments, strategy, rules, cache, store, log, before);
      assert Moments(events[..n + 1], b, logFromMs) == before + moments;
      if raised {
        edge := Edge(cache.State(), store.sets);
        StoppedWithin(events, n, before + moments[..done], b, logFromMs, strategy, rules);
        return;
      }
      assert before + moments[..done] == before + moments;
    }
    assert events[..|events|] == events;
    edge := Edge(cache.State(), store.sets);
  }

  lemma NothingReplayed(strategy: Strategy, rules: Rules)
    ensures ReplayRun([], strategy, rules) == REPLAY_START
  {
  }

  lemma StoppedWithin(events: seq<Event>, n: nat, done: seq<Moment>, b: Baselines, logFromMs: Option<int>, strategy: Strategy, rules: Rules)
    requires HasBuilds(b) && n < |events| && done <= Moments(events[..n + 1], b, logFromMs)
    requires ReplayRun(done, strategy, rules).raised
    ensures ReplayRun(Moments(events, b, logFromMs), strategy, rules) == ReplayRun(done, strategy, rules)
  {
    hide Moments;
    hide ReplayRun;
    MomentsPrefix(events, n + 1, b, logFromMs);
    assert Moments(events, b, logFromMs)[..|done|] == done;
    RaisedToTheEnd(Moments(events, b, logFromMs), |done|, strategy, rules);
  }

  // ---- The sweep ----

  /** `would_trigger`. */
  predicate WouldTrigger(z: real, meanCents: real, priceCents: int, stickers: nat, zThreshold: real, stickerZ: real, minSavings: int)
  {
    && z < (if stickers > 0 then stickerZ else zThreshold)
    && (stickers == 0 ==> meanCents - priceCents as real >= minSavings as real)
  }

  function WithThresholds(rules: Rules, zThreshold: real, minSavings: int): Rules {
    rules.(zThreshold := zThreshold, minSavingsCents := minSavings)
  }

  /** The sweep's own trigger is the live one, for every score whose source can trigger. */
  lemma TriggersAgree(score: Score, t: Tick, rules: Rules)
    requires SourceCanTrigger(score.source, rules)
    ensures ShouldTrigger(score, t, rules)
      <==> WouldTrigger(score.z, score.meanCents, t.priceCents, |t.stickers|, rules.zThreshold, rules.stickerZThreshold, rules.minSavingsCents)
  {
  }

  /** `dre_would_approve`. */
  predicate DreWouldApprove(d: Decision) {
    d.approve ||
    (d.reason == BelowThreshold && d.features.Some? && d.features.value.dreReason.GetOr(None).Some?
     && !d.features.value.belowFeeFloor.GetOr(false))
  }

  predicate IsScorable(row: Row, start: int) {
    !row.lookAhead && row.tick.timestamp >= start
  }

  predicate IsSwept(row: Row, start: int) {
    row.tick.listingId.Some? && row.decision.score.Some? && IsScorable(row, start)
  }

  /** The keys the sweep reads of a scored row; and only a scored row is approved. */
  predicate HasInputs(row: Row) {
    && (row.decision.score.Some? ==> row.decision.features.Some? && row.decision.features.value.stickerCount.Some?)
    && (row.decision.approve ==> row.decision.score.Some?)
  }

  predicate CellApproves(row: Row, zThreshold: real, stickerZ: real, minSavings: int)
    requires HasInputs(row)
  {
    row.decision.score.Some? && DreWouldApprove(row.decision) &&
    var f := row.decision.features.value;
    WouldTrigger(row.decision.score.value, f.meanCents, row.tick.priceCents, f.stickerCount.value, zThreshold, stickerZ, minSavings)
  }

  function Swept(rows: seq<Row>, start: int): (swept: seq<Row>)
    ensures forall row :: row in swept ==> row in rows && row.tick.listingId.Some?
  {
    if rows == [] then []
    else if IsSwept(rows[|rows| - 1], start) then Swept(rows[..|rows| - 1], start) + [rows[|rows| - 1]]
    else Swept(rows[..|rows| - 1], start)
  }

  /** What a cell approves, in log order. */
  function CellTicks(swept: seq<Row>, zThreshold: real, stickerZ: real, minSavings: int): (ticks: seq<Tick>)
    requires forall row :: row in swept ==> HasInputs(row)
  {
    if swept == [] then []
    else
      var front, row := swept[..|swept| - 1], swept[|swept| - 1];
      if CellApproves(row, zThreshold, stickerZ, minSavings)
      then CellTicks(front, zThreshold, stickerZ, minSavings) + [row.tick]
      else CellTicks(front, zThreshold, stickerZ, minSavings)
  }

  /** The listings a replay approved in the scorable period, in log order. */
  function ApprovedListings(rows: seq<Row>, start: int): (ticks: seq<Tick>) {
    if rows == [] then []
    else
      var front, row := rows[..|rows| - 1], rows[|rows| - 1];
      if row.decision.approve && row.tick.listingId.Some? && IsScorable(row, start)
      then ApprovedListings(front, start) + [row.tick]
      else ApprovedListings(front, start)
  }

  /** A listing of the scorable period: logged at or after its start, outside every look-ahead range. */
  lemma {:induction false} ApprovedInPeriod(rows: seq<Row>, start: int, t: Tick)
    ensures t in ApprovedListings(rows, start) <==>
      t.listingId.Some? && t.timestamp >= start && exists row :: row in rows && row.tick == t && row.decision.approve && !row.lookAhead
  {
    if rows != [] {
      var front, last := rows[..|rows| - 1], rows[|rows| - 1];
      ApprovedInPeriod(front, start, t);
      assert rows == front + [last];
      assert forall row :: row in rows <==> row in front || row == last;
    }
  }

  lemma SweptSnoc(rows: seq<Row>, row: Row, start: int)
    ensures Swept(rows + [row], start) == if IsSwept(row, start) then Swept(rows, start) + [row] else Swept(rows, start)
  {
    assert (rows + [row])[..|rows|] == rows;
  }

  lemma CellSnoc(swept: seq<Row>, row: Row, z: real, stickerZ: real, savings: int)
    requires forall r :: r in swept ==> HasInputs(r)
    requires HasInputs(row)
    ensures CellTicks(swept + [row], z, stickerZ, savings)
      == if CellApproves(row, z, stickerZ, savings) then CellTicks(swept, z, stickerZ, savings) + [row.tick]
         else CellTicks(swept, z, stickerZ, savings)
  {
    assert (swept + [row])[..|swept|] == swept;
  }

  lemma ListingsSnoc(rows: seq<Row>, row: Row, start: int)
    ensures ApprovedListings(rows + [row], start)
      == if row.decision.approve && row.tick.listingId.Some? && IsScorable(row, start)
         then ApprovedListings(rows, start) + [row.tick] else ApprovedListings(rows, start)
  {
    assert (rows + [row])[..|rows|] == rows;
  }

  ghost predicate AllHaveInputs(rows: seq<Row>) {
    forall row :: row in rows ==> HasInputs(row)
  }

  lemma SpreadIgnoresThresholds(history: seq<int>, mean: real, b: Baseline, rules: Rules, z: real, savings: int)
    ensures SpreadOf(history, mean, b, rules) == SpreadOf(history, mean, b, WithThresholds(rules, z, savings))
    ensures MacroAvailable(b, rules) == MacroAvailable(b, WithThresholds(rules, z, savings))
  {
    hide Variance;
    hide Blended;
  }

  lemma ZScoreIgnoresThresholds(prices: seq<int>, baseline: Option<Baseline>, rules: Rules, z: real, savings: int)
    ensures CalculateZScore(prices, baseline, rules) == CalculateZScore(prices, baseline, WithThresholds(rules, z, savings))
  {
    hide Sum;
    hide SpreadOf;
    hide ZScore;
    var history := if prices == [] then [] else prices[..|prices| - 1];
    SpreadIgnoresThresholds(history, if history == [] then 0.0 else Sum(history) as real / |history| as real, baseline.GetOr(NO_BASELINE), rules, z, savings);
  }

  lemma ScoreIgnoresThresholds(t: Tick, sets: SortedSets, m: Market, rules: Rules, z: real, savings: int)
    ensures ScoreWindow(t, sets, m, rules) == ScoreWindow(t, sets, m, WithThresholds(rules, z, savings))
  {
    hide Prices;
    hide CalculateZScore;
    hide WindowOf;
    ZScoreIgnoresThresholds(Prices(WindowOf(t, sets)), BaselineOf(t, m), rules, z, savings);
  }

  lemma FloorIgnoresThresholds(rule: Rule, estimate: Option<int>, rules: Rules, z: real, savings: int)
    ensures BelowFeeFloor(rule, estimate, rules) == BelowFeeFloor(rule, estimate, WithThresholds(rules, z, savings))
  {
  }

  lemma ScoredVerdictCarriesOver(t: Tick, result: ScoreResult, m: Market, rules: Rules, z: real, savings: int, recordsInputs: bool, lookAhead: bool)
    requires !result.Failed?
    ensures var row := Row(t, DecideScored(t, result, m, rules, true), lookAhead);
      var d := DecideScored(t, result, m, WithThresholds(rules, z, savings), recordsInputs);
      HasInputs(row) && (CellApproves(row, z, rules.stickerZThreshold, savings) <==> d.approve)
  {
    hide DreReason;
    hide EstimateNetProfit;
    hide WouldTrigger;
    var rules' := WithThresholds(rules, z, savings);
    if result.Scored? {
      var rule := DreReason(t, BaselineOf(t, m), m);
      if rule.Some? {
        FloorIgnoresThresholds(rule.value, EstimateNetProfit(t, BaselineOf(t, m).GetOr(NO_BASELINE)), rules, z, savings);
      }
      hide BelowFeeFloor;
      if SourceCanTrigger(result.score.source, rules) {
        TriggersAgree(result.score, t, rules');
      }
      assert SourceCanTrigger(result.score.source, rules) == SourceCanTrigger(result.score.source, rules');
      hide ShouldTrigger;
    }
  }

  /** The logged verdict of one tick decides it under every other pair of thresholds. */
  lemma VerdictCarriesOver(t: Tick, sets: SortedSets, m: Market, rules: Rules, z: real, savings: int, sweep: Strategy, other: Strategy, lookAhead: bool)
    requires RecordsSweepInputs(sweep)
    requires Decide(sweep, t, sets, m, rules).Some?
    ensures Decide(other, t, sets, m, WithThresholds(rules, z, savings)).Some?
    ensures var row := Row(t, Decide(sweep, t, sets, m, rules).value, lookAhead);
      var d := Decide(other, t, sets, m, WithThresholds(rules, z, savings)).value;
      HasInputs(row) && (CellApproves(row, z, rules.stickerZThreshold, savings) <==> d.approve)
  {
    ScoreIgnoresThresholds(t, sets, m, rules, z, savings);
    ScoredVerdictCarriesOver(t, ScoreWindow(t, sets, m, rules), m, rules, z, savings, RecordsSweepInputs(other), lookAhead);
    hide ScoreWindow;
    hide DecideScored;
    hide WouldTrigger;
  }

  ghost predicate Corresponds(log: Replay, other: Replay, rules: Rules, z: real, savings: int, start: int) {
    && log.edge == other.edge && log.raised == other.raised && AllHaveInputs(log.rows)
    && CellTicks(Swept(log.rows, start), z, rules.stickerZThreshold, savings) == ApprovedListings(other.rows, start)
  }

  /** Appending the two rows of one tick keeps the correspondence, whichever of them are logged. */
  lemma LogKeeps(log: Replay, other: Replay, at: Moment, t: Tick, d: Decision, d': Decision, rules: Rules, z: real, savings: int, start: int)
    requires Corresponds(log, other, rules, z, savings, start)
    requires var row := Row(t, d, at.lookAhead); HasInputs(row) && d'.approve == CellApproves(row, z, rules.stickerZThreshold, savings)
    ensures Corresponds(Log(log, at, t, d), Log(other, at, t, d'), rules, z, savings, start)
  {
    hide WouldTrigger;
    hide DreWouldApprove;
    hide Swept;
    hide CellTicks;
    hide ApprovedListings;
    var row, row' := Row(t, d, at.lookAhead), Row(t, d', at.lookAhead);
    SweptSnoc(log.rows, row, start);
    CellSnoc(Swept(log.rows, start), row, z, rules.stickerZThreshold, savings);
    ListingsSnoc(other.rows, row', start);
  }

  lemma RejectedKeeps(log: Replay, other: Replay, at: Moment, t: Tick, reason: Reason, rules: Rules, z: real, savings: int, start: int)
    requires Corresponds(log, other, rules, z, savings, start)
    ensures Corresponds(Log(log, at, t, Rejected(reason)), Log(other, at, t, Rejected(reason)), rules, z, savings, start)
  {
    hide Corresponds;
    LogKeeps(log, other, at, t, Rejected(reason), Rejected(reason), rules, z, savings, start);
  }

  lemma MovesTogether(log: Replay, other: Replay, edge: Edge, raised: bool, rules: Rules, z: real, savings: int, start: int)
    requires Corresponds(log, other, rules, z, savings, start)
    ensures Corresponds(log.(edge := edge, raised := raised), other.(edge := edge, raised := raised), rules, z, savings, start)
  {
  }

  lemma StepCorresponds(log: Replay, other: Replay, at: Moment, sweep: Strategy, strategy: Strategy, rules: Rules, z: real, savings: int, start: int)
    requires RecordsSweepInputs(sweep) && Corresponds(log, other, rules, z, savings, start)
    ensures var rules' := WithThresholds(rules, z, savings);
      Corresponds(ReplayStep(log, at, sweep, rules), ReplayStep(other, at, strategy, rules'), rules, z, savings, start)
  {
    hide D.IsDuplicate;
    hide D.IsUnchangedSnapshot;
    hide D.Updated;
    hide D.Get;
    hide PushedInto;
    hide Decide;
    hide Log;
    var rules' := WithThresholds(rules, z, savings);
    assert log.edge == other.edge && log.raised == other.raised;
    if log.raised || at.item.Raw? || !at.item.tick.FeedsPriceWindow() {
      return;
    }
    hide Corresponds;
    var t := at.item.tick;
    if D.IsDuplicate(t, log.edge.cache) {
      RejectedKeeps(log, other, at, t, Duplicate, rules, z, savings, start);
    } else if D.IsUnchangedSnapshot(t, log.edge.cache) {
      var enters := UnchangedEnters(t, log.edge, rules);
      var put := Put(t, log.edge, enters, rules);
      var edge := if enters then PushTick(t, put, rules) else put;
      MovesTogether(log, other, edge, false, rules, z, savings, start);
      RejectedKeeps(log.(edge := edge), other.(edge := edge), at, t, UnchangedSnapshot, rules, z, savings, start);
    } else {
      var edge := PushTick(t, Put(t, log.edge, true, rules), rules);
      DecideFails(t, edge.sets, at.market, rules, z, savings, sweep, strategy);
      if Decide(sweep, t, edge.sets, at.market, rules).None? {
        MovesTogether(log, other, edge, true, rules, z, savings, start);
      } else {
        MovesTogether(log, other, edge, false, rules, z, savings, start);
        VerdictCarriesOver(t, edge.sets, at.market, rules, z, savings, sweep, strategy, at.lookAhead);
        LogKeeps(log.(edge := edge), other.(edge := edge), at, t, Decide(sweep, t, edge.sets, at.market, rules).value,
                 Decide(strategy, t, edge.sets, at.market, rules').value, rules, z, savings, start);
      }
    }
  }

  lemma DecideFails(t: Tick, sets: SortedSets, m: Market, rules: Rules, z: real, savings: int, a: Strategy, b: Strategy)
    ensures Decide(a, t, sets, m, rules).None? <==> Decide(b, t, sets, m, WithThresholds(rules, z, savings)).None?
  {
    hide ScoreWindow;
    hide DecideScored;
    ScoreIgnoresThresholds(t, sets, m, rules, z, savings);
  }

  lemma {:induction false} RunsCorrespond(moments: seq<Moment>, sweep: Strategy, strategy: Strategy, rules: Rules, z: real, savings: int, start: int)
    requires RecordsSweepInputs(sweep)
    ensures Corresponds(ReplayRun(moments, sweep, rules), ReplayRun(moments, strategy, WithThresholds(rules, z, savings)), rules, z, savings, start)
  {
    hide ReplayStep;
    if moments != [] {
      hide Corresponds;
      var front, last := moments[..|moments| - 1], moments[|moments| - 1];
      RunsCorrespond(front, sweep, strategy, rules, z, savings, start);
      StepCorresponds(ReplayRun(front, sweep, rules), ReplayRun(front, strategy, WithThresholds(rules, z, savings)),
                      last, sweep, strategy, rules, z, savings, start);
    }
  }

  /**
   The counterfactual sweep is exact: for any thresholds, one cell over one sweep log gives the approvals, in
   order, of a full replay with those thresholds; and that replay ends in the same caches and windows.
   */
  lemma SweepIsReplay(events: seq<Event>, b: Baselines, logFromMs: Option<int>, sweep: Strategy, strategy: Strategy,
                      rules: Rules, z: real, savings: int, start: int)
    requires HasBuilds(b) && RecordsSweepInputs(sweep)
    ensures var log := ReplayRun(Moments(events, b, logFromMs), sweep, rules);
      var other := ReplayRun(Moments(events, b, logFromMs), strategy, WithThresholds(rules, z, savings));
      && AllHaveInputs(log.rows)
      && CellTicks(Swept(log.rows, start), z, rules.stickerZThreshold, savings) == ApprovedListings(other.rows, start)
      && log.edge == other.edge && log.raised == other.raised
  {
    RunsCorrespond(Moments(events, b, logFromMs), sweep, strategy, rules, z, savings, start);
  }

  /** The live cell always matches the log. */
  lemma LiveCellMatchesLog(moments: seq<Moment>, sweep: Strategy, rules: Rules, start: int)
    requires RecordsSweepInputs(sweep)
    ensures var log := ReplayRun(moments, sweep, rules);
      AllHaveInputs(log.rows) &&
      CellTicks(Swept(log.rows, start), rules.zThreshold, rules.stickerZThreshold, rules.minSavingsCents)
        == ApprovedListings(log.rows, start)
  {
    assert WithThresholds(rules, rules.zThreshold, rules.minSavingsCents) == rules;
    RunsCorrespond(moments, sweep, sweep, rules, rules.zThreshold, rules.minSavingsCents, start);
  }

  // ---- The sweep as it runs ----

  predicate Names(ticks: seq<Tick>, id: Option<string>) {
    exists t :: t in ticks && t.listingId == id
  }

  function Ids(ticks: seq<Tick>): set<Option<string>> {
    set t | t in ticks :: t.listingId
  }

  /** Each listing's first approval, in order: the trades of one cell. */
  function FirstPerListing(ticks: seq<Tick>): seq<Tick> {
    if ticks == [] then []
    else
      var firsts, t := FirstPerListing(ticks[..|ticks| - 1]), ticks[|ticks| - 1];
      if Names(firsts, t.listingId) then firsts else firsts + [t]
  }

  lemma {:induction false} FirstKeepsIds(ticks: seq<Tick>)
    ensures Ids(FirstPerListing(ticks)) == Ids(ticks)
    ensures forall i, j :: 0 <= i < j < |FirstPerListing(ticks)| ==>
      FirstPerListing(ticks)[i].listingId != FirstPerListing(ticks)[j].listingId
  {
    if ticks != [] {
      var front, t := ticks[..|ticks| - 1], ticks[|ticks| - 1];
      var firsts := FirstPerListing(front);
      FirstKeepsIds(front);
      assert ticks == front + [t];
      assert Ids(ticks) == Ids(front) + {t.listingId};
      assert Ids(firsts + [t]) == Ids(firsts) + {t.listingId};
      if !Names(firsts, t.listingId) {
        assert forall i :: 0 <= i < |firsts| ==> firsts[i] in firsts;
      }
    }
  }

  /** The inner loop of `sweep_thresholds`. */
  method SweepCell(swept: seq<Row>, z: real, stickerZ: real, savings: int) returns (trades: seq<Tick>)
    requires forall row :: row in swept ==> HasInputs(row)
    ensures trades == FirstPerListing(CellTicks(swept, z, stickerZ, savings))
  {
    hide CellApproves;
    trades := [];
    for i := 0 to |swept|
      invariant trades == FirstPerListing(CellTicks(swept[..i], z, stickerZ, savings))
    {
      assert swept[..i + 1] == swept[..i] + [swept[i]];
      CellSnoc(swept[..i], swept[i], z, stickerZ, savings);
      if CellApproves(swept[i], z, stickerZ, savings) {
        var ticks := CellTicks(swept[..i], z, stickerZ, savings);
        assert (ticks + [swept[i].tick])[..|ticks|] == ticks;
        if !Names(trades, swept[i].tick.listingId) {
          trades := trades + [swept[i].tick];
        }
      }
    }
    assert swept[..|swept|] == swept;
  }

  datatype Cell = Cell(zThreshold: real, minSavings: int, live: bool, trades: seq<Tick>)

  datatype Report = Report(cells: seq<Cell>, liveMatchesLog: bool)

  ghost predicate IsCell(cell: Cell, swept: seq<Row>, rules: Rules)
    requires forall row :: row in swept ==> HasInputs(row)
  {
    && cell.live == (cell.zThreshold == rules.zThreshold && cell.minSavings == rules.minSavingsCents)
    && cell.trades == FirstPerListing(CellTicks(swept, cell.zThreshold, rules.stickerZThreshold, cell.minSavings))
  }

  function LoggedApprovals(swept: seq<Row>): set<Option<string>> {
    set row | row in swept && row.decision.approve :: row.tick.listingId
  }

  ghost predicate SomeLiveCell(cells: seq<Cell>) {
    exists i :: 0 <= i < |cells| && cells[i].live
  }

  /** In a log whose live cell approves what the log approved, every live cell of the grid matches. */
  ghost predicate LiveCellAgrees(swept: seq<Row>, rules: Rules)
    requires forall row :: row in swept ==> HasInputs(row)
  {
    Ids(CellTicks(swept, rules.zThreshold, rules.stickerZThreshold, rules.minSavingsCents)) == LoggedApprovals(swept)
  }

  /** `sweep_thresholds` over a grid; None for a log made with another strategy. */
  method SweepThresholds(rows: seq<Row>, strategy: Strategy, rules: Rules, start: int, zGrid: seq<real>, savingsGrid: seq<int>)
    returns (report: Option<Report>)
    requires RecordsSweepInputs(strategy) ==> AllHaveInputs(rows)
    ensures report.None? <==> !RecordsSweepInputs(strategy)
    ensures report.Some? ==>
      var cells := report.value.cells;
      && |cells| == |zGrid| * |savingsGrid|
      && (forall i, j :: 0 <= i < |zGrid| && 0 <= j < |savingsGrid| ==> InGrid(cells, zGrid[i], savingsGrid[j]))
      && (forall i :: 0 <= i < |cells| ==> IsCell(cells[i], Swept(rows, start), rules))
      && (report.value.liveMatchesLog <==> SomeLiveCell(cells) && LiveCellAgrees(Swept(rows, start), rules))
  {
    hide CellTicks;
    hide CellApproves;
    hide Swept;
    hide FirstPerListing;
    hide HasInputs;
    if !RecordsSweepInputs(strategy) {
      return None;
    }
    var swept := Swept(rows, start);
    var logged := LoggedApprovals(swept);
    var cells: seq<Cell> := [];
    var liveMatches := false;
    for i := 0 to |zGrid|
      invariant |cells| == i * |savingsGrid|
      invariant forall a, j :: 0 <= a < i && 0 <= j < |savingsGrid| ==> InGrid(cells, zGrid[a], savingsGrid[j])
      invariant forall c :: 0 <= c < |cells| ==> IsCell(cells[c], swept, rules)
      invariant liveMatches <==> SomeLiveCell(cells) && LiveCellAgrees(swept, rules)
    {
      ghost var before := cells;
      for j := 0 to |savingsGrid|
        invariant |cells| == i * |savingsGrid| + j && before <= cells
        invariant forall b :: 0 <= b < j ==> InGrid(cells, zGrid[i], savingsGrid[b])
        invariant forall c :: 0 <= c < |cells| ==> IsCell(cells[c], swept, rules)
        invariant liveMatches <==> SomeLiveCell(cells) && LiveCellAgrees(swept, rules)
      {
        var trades := SweepCell(swept, zGrid[i], rules.stickerZThreshold, savingsGrid[j]);
        var isLive := zGrid[i] == rules.zThreshold && savingsGrid[j] == rules.minSavingsCents;
        if isLive {
          FirstKeepsIds(CellTicks(swept, zGrid[i], rules.stickerZThreshold, savingsGrid[j]));
          liveMatches := Ids(trades) == logged;
        }
        var cell := Cell(zGrid[i], savingsGrid[j], isLive, trades);
        GrowGrid(cells, cell);
        cells := cells + [cell];
      }
      forall a, j | 0 <= a < i + 1 && 0 <= j < |savingsGrid| ensures InGrid(cells, zGrid[a], savingsGrid[j]) {
        if a < i {
          GridPrefix(before, cells, zGrid[a], savingsGrid[j]);
        }
      }
      assert |cells| == (i + 1) * |savingsGrid|;
    }
    report := Some(Report(cells, liveMatches));
  }

  ghost predicate InGrid(cells: seq<Cell>, z: real, savings: int) {
    exists i :: 0 <= i < |cells| && cells[i].zThreshold == z && cells[i].minSavings == savings
  }

  lemma GridPrefix(before: seq<Cell>, cells: seq<Cell>, z: real, savings: int)
    requires before <= cells && InGrid(before, z, savings)
    ensures InGrid(cells, z, savings)
  {
    var i :| 0 <= i < |before| && before[i].zThreshold == z && before[i].minSavings == savings;
    assert cells[i] == before[i];
  }

  lemma GrowGrid(cells: seq<Cell>, cell: Cell)
    ensures forall z, savings ::
      InGrid(cells + [cell], z, savings) <==> InGrid(cells, z, savings) || (z == cell.zThreshold && savings == cell.minSavings)
    ensures SomeLiveCell(cells + [cell]) <==> SomeLiveCell(cells) || cell.live
  {
    var grown := cells + [cell];
    assert grown[|cells|] == cell;
    assert forall i :: 0 <= i < |cells| ==> grown[i] == cells[i];
    forall z, savings | InGrid(cells, z, savings) ensures InGrid(grown, z, savings) {
      GridPrefix(cells, grown, z, savings);
    }
  }

  lemma NothingApproved(start: int)
    ensures Swept([], start) == [] && ApprovedListings([], start) == []
  {
  }

  lemma {:induction false} ApprovalsOfLog(rows: seq<Row>, start: int)
    requires AllHaveInputs(rows)
    ensures LoggedApprovals(Swept(rows, start)) == Ids(ApprovedListings(rows, start))
  {
    hide Swept;
    hide ApprovedListings;
    if rows == [] {
      NothingApproved(start);
    } else {
      var front, row := rows[..|rows| - 1], rows[|rows| - 1];
      assert rows == front + [row];
      ApprovalsOfLog(front, start);
      SweptSnoc(front, row, start);
      ListingsSnoc(front, row, start);
      assert row in rows;
      var swept, listings := Swept(front, start), ApprovedListings(front, start);
      assert LoggedApprovals(swept + [row]) == LoggedApprovals(swept) + if row.decision.approve then {row.tick.listingId} else {};
      assert Ids(listings + [row.tick]) == Ids(listings) + {row.tick.listingId};
    }
  }

  /** Over the log of any replay the sweep's own check succeeds: the live cell, if swept, matches the log. */
  lemma LiveCheckSucceeds(moments: seq<Moment>, sweep: Strategy, rules: Rules, start: int)
    requires RecordsSweepInputs(sweep)
    ensures var rows := ReplayRun(moments, sweep, rules).rows;
      AllHaveInputs(rows) && LiveCellAgrees(Swept(rows, start), rules)
  {
    hide CellTicks;
    hide Swept;
    hide ReplayRun;
    hide ApprovedListings;
    LiveCellMatchesLog(moments, sweep, rules, start);
    ApprovalsOfLog(ReplayRun(moments, sweep, rules).rows, start);
  }
}
