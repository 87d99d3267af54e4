/**
 Nothing is handed on twice: within a process not until `maxSeen` other ids were remembered, and by the pages of a gap
 never, over any restarts, what was recorded when the gap was left.
 */
module PollerRepeats {
  import opened Texts
  import opened OrderedDict
  import opened DMarketPoller
  import opened PollerCoverage

  predicate IsRestart(s: Step) {
    s.RestartFromSaved? || s.RestartFromBackend? || s.RestartAnew?
  }

  ghost predicate Continues(w: World, w': World) {
    exists s :: !IsRestart(s) && Allowed(w, s) && w' == Taken(w, s)
  }

  /** What one process does, from a world that a run may reach. */
  ghost predicate IsStretch(run: seq<World>) {
    run != [] && Inv(run[0]) && forall i :: 0 <= i < |run| - 1 ==> Continues(run[i], run[i + 1])
  }

  lemma StepRemembers(w: World, s: Step)
    requires !IsRestart(s) && Allowed(w, s)
    ensures var w' := Taken(w, s);
      Keys(w.history) <= Keys(w'.history) && w'.poller.maxSeen == w.poller.maxSeen
  {
    hide LiveReading;
    hide Caught;
    match s
    case LivePoll(_, _, order) => HistoryKeys(w.history, order);
    case CatchUpPage(_, fetch) =>
      var ids := IdList(CaughtUp(w.poller, fetch).1);
      HistoryKeys(w.history, ids);
    case _ =>
  }

  /** Along a stretch the invariant holds, and no id leaves the history. */
  lemma {:induction false} StretchRemembers(run: seq<World>, i: nat)
    requires IsStretch(run) && i < |run|
    ensures Inv(run[i]) && Keys(run[0].history) <= Keys(run[i].history) && run[i].poller.maxSeen == run[0].poller.maxSeen
    decreases i
  {
    hide Inv;
    hide Keys;
    if i > 0 {
      StretchRemembers(run, i - 1);
      assert Continues(run[i - 1], run[i - 1 + 1]);
      var s :| !IsRestart(s) && Allowed(run[i - 1], s) && run[i] == Taken(run[i - 1], s);
      StepKeeps(run[i - 1], s);
      StepRemembers(run[i - 1], s);
    }
  }

  /** The ids a live poll would hand on, in order; none when a fetch fails. */
  function PolledIds(p: State, script: seq<Fetch>): seq<string> {
    var r := LiveReading(p, script);
    if r.None? then [] else IdList(OldestFirst(r.value.entries))
  }

  lemma PolledIdsAreRead(p: State, script: seq<Fetch>, id: string)
    ensures id in PolledIds(p, script) <==> LiveReading(p, script).Some? && id in LiveReading(p, script).value.ids
  {
    hide ReadPages;
    hide OldestFirst;
    if LiveReading(p, script).Some? {
      var entries := LiveReading(p, script).value.entries;
      PollIds(FirstReading(p), 0, script, p.nextFloorMs, p.seen);
      SortingKeepsIds(entries);
      IdListSet(entries);
      assert id in multiset(IdList(OldestFirst(entries))) <==> id in multiset(IdList(entries));
      assert id in IdList(entries) <==> id in SetOf(IdList(entries));
    }
  }

  /** The ids a page of catching up would hand on, in order. */
  function CaughtIds(p: State, fetch: Fetch): seq<string> {
    IdList(CaughtUp(p, fetch).1)
  }

  /** Remembered at the start of a stretch and handed on by a poll at its end: `maxSeen` other ids came in between. */
  lemma PollRepeatsForgotten(run: seq<World>, i: nat, script: seq<Fetch>, id: string)
    requires IsStretch(run) && i < |run| && id in Keys(run[0].history)
    requires id in PolledIds(run[i].poller, script)
    ensures |PutSince(run[i].history, id)| >= run[0].poller.maxSeen
  {
    hide Inv;
    hide ReadPages;
    hide OldestFirst;
    StretchRemembers(run, i);
    var entries := LiveReading(run[i].poller, script).value.entries;
    SortingKeepsIds(entries);
    assert id in multiset(IdList(OldestFirst(entries)));
    assert id in SetOf(IdList(entries));
    IdListSet(entries);
    NoRepeats(run[i], script, id);
  }

  /** The same for each listing of a page of catching up, the page's own earlier ones counted. */
  lemma PageRepeatsForgotten(run: seq<World>, i: nat, fetch: Fetch, k: nat)
    requires IsStretch(run) && i < |run| && k < |CaughtIds(run[i].poller, fetch)|
    requires CaughtIds(run[i].poller, fetch)[k] in Keys(run[0].history)
    ensures var ids := CaughtIds(run[i].poller, fetch);
      |PutSince(run[i].history + Puts(ids[..k]), ids[k])| >= run[0].poller.maxSeen
  {
    hide Inv;
    hide CatchEntries;
    hide Puts;
    StretchRemembers(run, i);
    var w, ids := run[i], CaughtIds(run[i].poller, fetch);
    NoRepeatsCatchingUp(w, fetch.page, k);
    HistoryKeys(w.history, ids[..k]);
  }

  // ---- What a gap skips ----

  /** Where a gap is: the `i`-th of the process, or of the stored document. */
  datatype Place = Live(i: nat) | Stored(i: nat)

  predicate HasGap(w: World, at: Place) {
    match at
    case Live(i) => i < |w.poller.gaps|
    case Stored(i) => w.saved.Some? && i < |w.saved.value.point.gaps|
  }

  function GapAt(w: World, at: Place): Gap
    requires HasGap(w, at)
  {
    match at
    case Live(i) => w.poller.gaps[i]
    case Stored(i) => w.saved.value.point.gaps[i]
  }

  /** A page that closes its gap. */
  predicate Closes(w: World, fetch: Fetch) {
    |CaughtUp(w.poller, fetch).0.gaps| < |w.poller.gaps|
  }

  /**
   Where a step takes the gap at a place: the gaps behind a closed one move up, a save copies the gaps of the process in
   the place of those stored before, and a restart copies the stored gaps it keeps, in the place of those of the process.
   */
  ghost predicate Moves(w: World, s: Step, at: Place, at': Place)
    requires Allowed(w, s) && HasGap(w, at)
  {
    match s
    case CatchUpPage(_, fetch) =>
      if at.Live? && Closes(w, fetch) then at.i > 0 && at' == Live(at.i - 1) else at' == at
    case Save =>
      if w.poller.newestMs.None? || w.low.None? then at' == at else at.Live? && (at' == at || at' == Stored(at.i))
    case RestartFromSaved(nowMs, maxCatchUpMs, _) =>
      at.Stored? &&
      var gaps, oldest := w.saved.value.point.gaps, nowMs - maxCatchUpMs;
      at' == at || (Cut(gaps[at.i], oldest).RemainingMs() > 0 && at' == Live(|KeptGaps(gaps[..at.i], oldest)|))
    case RestartFromBackend(_, _, _, _) => at.Stored? && at' == at
    case RestartAnew => at.Stored? && at' == at
    case _ => at' == at
  }

  lemma {:induction false} KeptAt(gaps: seq<Gap>, oldestAllowedMs: int, i: nat)
    requires i < |gaps| && Cut(gaps[i], oldestAllowedMs).RemainingMs() > 0
    ensures var kept, k := KeptGaps(gaps, oldestAllowedMs), |KeptGaps(gaps[..i], oldestAllowedMs)|;
      k < |kept| && kept[k] == Cut(gaps[i], oldestAllowedMs)
  {
    hide Cut;
    var front := gaps[..|gaps| - 1];
    if i < |front| {
      KeptAt(front, oldestAllowedMs, i);
      assert front[..i] == gaps[..i];
    } else {
      assert gaps[..i] == front;
    }
  }

  /** A gap keeps its skip ids wherever it is taken, and its end only rises. */
  lemma GapKeepsSkips(w: World, s: Step, at: Place, at': Place)
    requires Inv(w) && Allowed(w, s) && HasGap(w, at) && Moves(w, s, at, at')
    ensures var w' := Taken(w, s);
      HasGap(w', at') && GapAt(w', at').skipIds == GapAt(w, at).skipIds && GapAt(w', at').untilMs >= GapAt(w, at).untilMs
  {
    match s
    case LivePoll(_, _, _) => PollKeepsGap(w, s, at);
    case CatchUpPage(_, _) => PageKeepsGap(w, s, at, at');
    case Save => SaveKeepsGap(w, at, at');
    case RestartFromSaved(_, _, _) => RestartKeepsGap(w, s, at, at');
    case _ =>
      hide Inv;
      hide RememberedAll;
      hide KeptGaps;
  }

  lemma PollKeepsGap(w: World, s: Step, at: Place)
    requires s.LivePoll? && Allowed(w, s) && HasGap(w, at)
    ensures HasGap(Taken(w, s), at) && GapAt(Taken(w, s), at) == GapAt(w, at)
  {
    hide LiveReading;
    hide RememberedAll;
    hide SkipIds;
    hide PollServed;
    hide Evolves;
  }

  lemma PageKeepsGap(w: World, s: Step, at: Place, at': Place)
    requires s.CatchUpPage? && Allowed(w, s) && HasGap(w, at) && Moves(w, s, at, at')
    ensures var w' := Taken(w, s);
      HasGap(w', at') && GapAt(w', at').skipIds == GapAt(w, at).skipIds && GapAt(w', at').untilMs >= GapAt(w, at).untilMs
  {
    hide Caught;
    hide Serves;
    hide Evolves;
  }

  lemma SaveKeepsGap(w: World, at: Place, at': Place)
    requires HasGap(w, at) && Moves(w, Save, at, at')
    ensures HasGap(SavedWorld(w), at') && GapAt(SavedWorld(w), at') == GapAt(w, at)
  {
    hide NearNewest;
  }

  lemma RestartKeepsGap(w: World, s: Step, at: Place, at': Place)
    requires s.RestartFromSaved? && Allowed(w, s) && HasGap(w, at) && Moves(w, s, at, at')
    ensures var w' := Taken(w, s);
      HasGap(w', at') && GapAt(w', at').skipIds == GapAt(w, at).skipIds && GapAt(w', at').untilMs >= GapAt(w, at).untilMs
  {
    hide RememberedAll;
    hide KeptGaps;
    hide RecordAll;
    var gaps, oldest := w.saved.value.point.gaps, s.nowMs - s.maxCatchUpMs;
    if at' != at {
      KeptAt(gaps, oldest, at.i);
      assert Fresh(w.poller.maxSeen).gaps + KeptGaps(gaps, oldest) == KeptGaps(gaps, oldest);
    }
  }

  ghost predicate Follow(w: World, at: Place, w': World, at': Place) {
    HasGap(w, at) && exists s :: Allowed(w, s) && w' == Taken(w, s) && Moves(w, s, at, at')
  }

  /** One gap from world to world, over any saves and restarts, for as long as it is open. */
  ghost predicate IsTrail(run: seq<World>, at: seq<Place>) {
    && |run| == |at| > 0 && Inv(run[0]) && HasGap(run[0], at[0])
    && forall k :: 0 <= k < |run| - 1 ==> Follow(run[k], at[k], run[k + 1], at[k + 1])
  }

  lemma {:induction false} TrailKeepsSkips(run: seq<World>, at: seq<Place>, j: nat)
    requires IsTrail(run, at) && j < |run|
    ensures Inv(run[j]) && HasGap(run[j], at[j]) && GapAt(run[j], at[j]).skipIds == GapAt(run[0], at[0]).skipIds
    decreases j
  {
    if j > 0 {
      hide Inv;
      hide HasGap;
      TrailKeepsSkips(run, at, j - 1);
      assert Follow(run[j - 1], at[j - 1], run[j - 1 + 1], at[j - 1 + 1]);
      hide IsTrail;
      var s :| Allowed(run[j - 1], s) && run[j] == Taken(run[j - 1], s) && Moves(run[j - 1], s, at[j - 1], at[j]);
      StepKeeps(run[j - 1], s);
      GapKeepsSkips(run[j - 1], s, at[j - 1], at[j]);
    }
  }

  /** What was recorded at or above the floor of a poll. */
  predicate RecordedAbove(p: State, floorMs: int, id: string) {
    id in p.recorded && p.recorded[id] >= floorMs
  }

  /** A listing noted counts as recorded at its creation time. */
  lemma NoteRecords(w: World, offer: Offer, floorMs: int)
    requires Allowed(w, Note(offer))
    ensures RecordedAbove(Taken(w, Note(offer)).poller, floorMs, offer.id) <==> offer.createdMs >= floorMs
  {
  }

  /** Within a process a listing stays recorded until a save, stored or refused, finds it too far behind the newest one. */
  lemma RecordedStays(w: World, s: Step, id: string)
    requires Allowed(w, s) && !IsRestart(s) && id in w.poller.recorded && (s.Note? ==> s.offer.id != id)
    ensures var recorded, newest := Taken(w, s).poller.recorded, w.poller.newestMs;
      && (id in recorded ==> recorded[id] == w.poller.recorded[id])
      && (id !in recorded ==> s.Save? || s.SaveFails?)
      && ((s.Save? && w.low.Some?) || s.SaveFails? ==>
            (id in recorded <==> (newest.Some? ==> w.poller.recorded[id] >= newest.value - RESUME_OVERLAP_MS)))
  {
    hide LiveReading;
    hide Caught;
    hide RememberedAll;
    hide PollServed;
  }

  /** The poll leaves a gap: it fell behind. */
  predicate LeavesGap(w: World, script: seq<Fetch>) {
    LiveReading(w.poller, script).Some? && LiveReading(w.poller, script).value.behind
  }

  /** The gap a poll leaves ends at the poll's floor, and skips exactly what was recorded at or above it. */
  lemma LeftGapSkips(w: World, script: seq<Fetch>, views: seq<View>, order: seq<string>, id: string)
    requires Inv(w) && Allowed(w, LivePoll(script, views, order)) && LeavesGap(w, script)
    ensures var w', i := Taken(w, LivePoll(script, views, order)), |w.poller.gaps|;
      && w.poller.nextFloorMs.Some? && HasGap(w', Live(i)) && GapAt(w', Live(i)).untilMs == w.poller.nextFloorMs.value
      && (id in GapAt(w', Live(i)).skipIds <==> RecordedAbove(w.poller, w.poller.nextFloorMs.value, id))
  {
    hide Inv;
    hide ReadPages;
    hide RememberedAll;
    hide PollServed;
    BehindHasCursor(FirstReading(w.poller), 0, script, w.poller.nextFloorMs, w.poller.seen);
  }

  /**
   Over any number of saves and restarts, for as long as the gap is open: a page of it never hands on a listing that was
   recorded at or above the floor when a poll left it, and does hand on each listing it brings of the gap that was not
   recorded so and is not remembered.
   */
  lemma GapSkipsRecorded(w: World, script: seq<Fetch>, views: seq<View>, order: seq<string>,
                         run: seq<World>, at: seq<Place>, j: nat, page: Page, l: Offer)
    requires Inv(w) && Allowed(w, LivePoll(script, views, order)) && LeavesGap(w, script)
    requires IsTrail(run, at) && run[0] == Taken(w, LivePoll(script, views, order)) && at[0] == Live(|w.poller.gaps|)
    requires j < |run| && at[j] == Live(0)
    ensures w.poller.nextFloorMs.Some? && run[j].poller.gaps != []
    ensures var p, ids := run[j].poller, CaughtIds(run[j].poller, Arrived(page));
      var recorded := RecordedAbove(w.poller, w.poller.nextFloorMs.value, l.id);
      && (recorded ==> l.id !in ids)
      && (Some(l) in page.entries && l.createdMs >= p.gaps[0].untilMs && l.id !in Keys(p.seen) ==> (l.id in ids <==> !recorded))
  {
    hide LeavesGap;
    hide RecordedAbove;
    LeftGapSkips(w, script, views, order, l.id);
    TrailKeepsSkips(run, at, j);
    hide IsTrail;
    hide Allowed;
    hide Taken;
    PageSkips(run[j], page, l);
  }

  /** A page of the oldest gap hands on what it brings of the gap, but for what is remembered or skipped. */
  lemma PageSkips(w: World, page: Page, l: Offer)
    requires Inv(w) && w.poller.gaps != []
    ensures var p, ids := w.poller, CaughtIds(w.poller, Arrived(page));
      && (l.id in p.gaps[0].skipIds ==> l.id !in ids)
      && (Some(l) in page.entries && l.createdMs >= p.gaps[0].untilMs && l.id !in Keys(p.seen) ==>
            (l.id in ids <==> l.id !in p.gaps[0].skipIds))
  {
    hide CatchEntries;
    hide Bounded;
    hide Covers;
    hide GapsSound;
    var p := w.poller;
    var start := CatchUp(p.seen, [], page.cursor.None? || page.entries == []);
    BoundedDistinct(w.history, p.maxSeen);
    var read := CatchEntries(start, page.entries, p.gaps[0], p.maxSeen).read;
    IdListSet(read);
    if l.id in p.gaps[0].skipIds && l.id in IdList(read) {
      var i :| 0 <= i < |IdList(read)| && IdList(read)[i] == l.id;
      NoRepeatsCatchingUp(w, page, i);
    }
    if Some(l) in page.entries && l.createdMs >= p.gaps[0].untilMs {
      CatchKnows(start, page.entries, p.gaps[0], p.maxSeen, l);
    }
  }

  /**
   A restart carries what the document recorded into the gap the first poll leaves: every id of the document counts as
   recorded at its newest time, which is at or above the floor unless the catch-up limit passed it.
   */
  lemma RestartCarriesRecorded(w: World, nowMs: int, maxCatchUpMs: int, order: seq<string>, id: string)
    requires w.saved.Some?
    ensures var p, point := RestartedFromSaved(w, nowMs, maxCatchUpMs, order).poller, w.saved.value.point;
      && p.nextFloorMs == Some(MaxInt(point.newestMs - RESUME_OVERLAP_MS, nowMs - maxCatchUpMs))
      && (RecordedAbove(p, p.nextFloorMs.value, id) <==> id in point.recordedIds && point.newestMs >= nowMs - maxCatchUpMs)
  {
    hide KeptGaps;
    hide RememberedAll;
    hide DroppedAt;
    hide Puts;
  }
}
