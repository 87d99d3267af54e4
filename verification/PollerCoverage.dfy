/**
 Nothing is skipped, over every run of polls, failures, catching up, saves and restarts: each visible listing created from
 the first floor up to the newest time read, less LIVE_OVERLAP_MS, has been handed on or lies in an open gap.
 */
module PollerCoverage {
  import opened Texts
  import opened OrderedDict
  import opened DMarketPoller

  // ---- The venue ----

  /** What the venue would serve at one moment; `horizonMs` is its clock. */
  datatype View = View(visible: set<Offer>, horizonMs: int)

  /** Listings come and go; one that appears was created at most LIVE_OVERLAP_MS before the earlier moment. */
  ghost predicate Evolves(v: View, w: View) {
    && v.horizonMs <= w.horizonMs
    && (forall l :: l in w.visible ==> l.createdMs <= w.horizonMs)
    && (forall l :: l in w.visible && l !in v.visible ==> l.createdMs >= v.horizonMs - LIVE_OVERLAP_MS)
  }

  /** The total order on (creation time, id), newest first: the listing comes after the cursor's position. */
  predicate Past(cursor: Option<Cursor>, l: Offer) {
    cursor.None? || l.createdMs < cursor.value.createdMs
    || (l.createdMs == cursor.value.createdMs && LexLess(l.id, cursor.value.id))
  }

  /** The page the venue serves for a cursor. */
  ghost predicate Serves(page: Page, cursor: Option<Cursor>, v: View) {
    && (forall l :: Some(l) in page.entries ==> l in v.visible && Past(cursor, l))
    && (forall l :: l in v.visible && Past(cursor, l) ==>
          Some(l) in page.entries || (page.cursor.Some? && page.entries != [] && Past(page.cursor, l)))
    && (page.cursor.Some? ==> page.cursor.value.readable && forall l :: Some(l) in page.entries ==> !Past(page.cursor, l))
    && (page.entries != [] ==> exists l :: Some(l) in page.entries)
  }

  lemma PastChain(c: Cursor, d: Cursor, l: Offer, o: Offer)
    requires Past(Some(d), l) && !Past(Some(d), o)
    ensures l.createdMs <= o.createdMs
    ensures Past(Some(c), o) ==> Past(Some(c), l)
  {
    LexTrichotomy(o.id, d.id);
    if o.createdMs == l.createdMs == c.createdMs == d.createdMs && Past(Some(c), o) {
      if o.id != d.id {
        LexTransitive(d.id, o.id, c.id);
        LexTransitive(l.id, d.id, c.id);
      } else {
        LexTransitive(l.id, d.id, c.id);
      }
    }
  }

  // ---- Coverage ----

  predicate InGap(g: Gap, l: Offer) {
    Past(Some(g.cursor), l) && l.createdMs >= g.untilMs
  }

  ghost predicate InSomeGap(gaps: seq<Gap>, l: Offer) {
    exists i :: 0 <= i < |gaps| && InGap(gaps[i], l)
  }

  ghost predicate Accounted(l: Offer, handed: set<string>, gaps: seq<Gap>) {
    l.id in handed || InSomeGap(gaps, l)
  }

  /** Every visible listing created in [low, high) is accounted for, but for the dropped instants. */
  ghost predicate Covers(v: View, handed: set<string>, gaps: seq<Gap>, low: int, high: int, dropped: set<int>) {
    forall l :: l in v.visible && low <= l.createdMs < high && l.createdMs !in dropped ==> Accounted(l, handed, gaps)
  }

  ghost predicate GapsSound(gaps: seq<Gap>, handed: set<string>) {
    forall i :: 0 <= i < |gaps| ==> gaps[i].cursor.readable && gaps[i].skipIds <= handed
  }

  /** The resume point in the edge Redis, with what it covers. */
  datatype Saved = Saved(point: ResumePoint, low: int, dropped: set<int>)

  datatype World = World(
    poller: State,
    view: View,
    handed: set<string>,          // ids handed on, over all runs
    low: Option<int>,             // where coverage starts; None until something is read
    dropped: set<int>,            // creation times at which a restart dropped a gap
    saved: Option<Saved>,
    history: seq<Item<string, ()>>)  // ids remembered since the last start

  ghost predicate SavedSound(s: Saved, v: View, handed: set<string>) {
    && s.point.newestMs <= v.horizonMs
    && s.point.recordedIds <= handed
    && GapsSound(s.point.gaps, handed)
    && Covers(v, handed, s.point.gaps, s.low, s.point.newestMs - LIVE_OVERLAP_MS, s.dropped)
  }

  ghost predicate Inv(w: World) {
    var p := w.poller;
    && (forall l :: l in w.view.visible ==> l.createdMs <= w.view.horizonMs)
    && Keys(p.seen) <= w.handed && p.recorded.Keys <= w.handed && GapsSound(p.gaps, w.handed)
    && p.seen == Bounded(w.history, p.maxSeen)
    && (p.newestMs.Some? ==>
          p.newestMs.value <= w.view.horizonMs && p.nextFloorMs == Some(p.newestMs.value - LIVE_OVERLAP_MS))
    && (p.nextFloorMs.Some? <==> w.low.Some?)
    && (p.nextFloorMs.Some? ==>
          && (p.nextFloorMs.value <= w.view.horizonMs - LIVE_OVERLAP_MS || p.nextFloorMs.value <= w.low.value)
          && Covers(w.view, w.handed, p.gaps, w.low.value, p.nextFloorMs.value, w.dropped))
    && (w.saved.Some? ==> SavedSound(w.saved.value, w.view, w.handed))
  }

  lemma CoversEvolved(v: View, w: View, handed: set<string>, gaps: seq<Gap>, low: int, high: int, dropped: set<int>)
    requires Evolves(v, w) && Covers(v, handed, gaps, low, high, dropped)
    requires high <= v.horizonMs - LIVE_OVERLAP_MS || high <= low
    ensures Covers(w, handed, gaps, low, high, dropped)
  {
    hide Accounted;
    assert forall l :: l in w.visible && low <= l.createdMs < high ==> l in v.visible;
  }

  lemma CoversGrows(v: View, handed: set<string>, handed': set<string>, gaps: seq<Gap>, low: int, high: int, dropped: set<int>)
    requires Covers(v, handed, gaps, low, high, dropped) && handed <= handed'
    ensures Covers(v, handed', gaps, low, high, dropped)
  {
    hide InSomeGap;
    forall l | l in v.visible && low <= l.createdMs < high && l.createdMs !in dropped ensures Accounted(l, handed', gaps) {
      assert Accounted(l, handed, gaps);
    }
  }

  lemma GapsGrow(gaps: seq<Gap>, gap: Gap, l: Offer)
    ensures InSomeGap(gaps + [gap], l) <==> InSomeGap(gaps, l) || InGap(gap, l)
  {
    hide InGap;
    var all := gaps + [gap];
    assert all[|gaps|] == gap;
    if InSomeGap(gaps, l) {
      var i :| 0 <= i < |gaps| && InGap(gaps[i], l);
      assert all[i] == gaps[i];
    }
  }

  lemma GapsTail(gap: Gap, rest: seq<Gap>, l: Offer)
    ensures InSomeGap([gap] + rest, l) <==> InGap(gap, l) || InSomeGap(rest, l)
  {
    hide InGap;
    var all := [gap] + rest;
    assert all[0] == gap;
    if InSomeGap(rest, l) {
      var i :| 0 <= i < |rest| && InGap(rest[i], l);
      assert all[i + 1] == rest[i];
    }
    if InSomeGap(all, l) {
      var i :| 0 <= i < |all| && InGap(all[i], l);
      if i > 0 { assert rest[i - 1] == all[i]; }
    }
  }

  // ---- The venue moves on ----

  function Moved(w: World, v: View): World {
    w.(view := v)
  }

  lemma MovedKeeps(w: World, v: View)
    requires Inv(w) && Evolves(w.view, v)
    ensures Inv(Moved(w, v))
  {
    hide Covers;
    hide GapsSound;
    var p := w.poller;
    if p.nextFloorMs.Some? {
      CoversEvolved(w.view, v, w.handed, p.gaps, w.low.value, p.nextFloorMs.value, w.dropped);
    }
    if w.saved.Some? {
      var s := w.saved.value;
      CoversEvolved(w.view, v, w.handed, s.point.gaps, s.low, s.point.newestMs - LIVE_OVERLAP_MS, s.dropped);
    }
  }

  // ---- Reading a page ----

  /** What one page adds: its offers at or above the floor are held, read or already remembered. */
  lemma {:induction false} EntriesRead(r: Reading, entries: seq<Option<Offer>>, floorMs: Option<int>, seen: Seen)
    ensures var r' := ReadEntries(r, entries, floorMs, seen);
      && r.ids <= r'.ids && r'.cursor == r.cursor && r'.behind == r.behind
      && (forall l :: Some(l) in entries && (floorMs.Some? ==> l.createdMs >= floorMs.value) ==> Holds(seen, l.id) || l.id in r'.ids)
  {
    hide Holds;
    if entries != [] {
      var front, last := entries[..|entries| - 1], entries[|entries| - 1];
      EntriesRead(r, front, floorMs, seen);
      assert entries == front + [last];
    }
  }

  lemma {:induction false} EntriesOldest(r: Reading, entries: seq<Option<Offer>>, floorMs: Option<int>, seen: Seen)
    requires r.oldestMs.None?
    ensures var r' := ReadEntries(r, entries, floorMs, seen);
      && (r'.oldestMs.None? <==> forall l :: Some(l) !in entries)
      && (r'.oldestMs.Some? ==> exists l :: Some(l) in entries && l.createdMs == r'.oldestMs.value)
      && (forall l :: Some(l) in entries ==> r'.oldestMs.Some? && r'.oldestMs.value <= l.createdMs)
  {
    hide Holds;
    if entries != [] {
      var front, last := entries[..|entries| - 1], entries[|entries| - 1];
      EntriesOldest(r, front, floorMs, seen);
      assert entries == front + [last];
      assert forall l :: Some(l) in entries <==> Some(l) in front || Some(l) == last;
      if last.Some? {
        assert Some(last.value) in entries;
      }
    }
  }

  lemma {:induction false} EntriesNewest(r: Reading, entries: seq<Option<Offer>>, floorMs: Option<int>, seen: Seen, bound: int)
    requires r.newestMs.Some? ==> r.newestMs.value <= bound
    requires forall l :: Some(l) in entries ==> l.createdMs <= bound
    ensures var r' := ReadEntries(r, entries, floorMs, seen);
      && (r'.newestMs.Some? ==> r'.newestMs.value <= bound)
      && (r.newestMs.Some? ==> r'.newestMs.Some?)
  {
    hide Holds;
    if entries != [] {
      var front, last := entries[..|entries| - 1], entries[|entries| - 1];
      assert entries == front + [last];
      EntriesNewest(r, front, floorMs, seen, bound);
      if last.Some? {
        assert Some(last.value) in entries;
      }
    }
  }

  // ---- Reading a poll ----

  /** What the `k`-th fetch asks for: the cursor of the page before it. */
  function CursorAt(script: seq<Fetch>, k: nat): Option<Cursor> {
    if k == 0 || Reply(script, k - 1).Failed? then None else script[k - 1].page.cursor
  }

  ghost predicate PageServed(script: seq<Fetch>, views: seq<View>, k: nat)
    requires k < |script| == |views|
  {
    script[k].Arrived? && (k == 0 || script[k - 1].Arrived?) ==> Serves(script[k].page, CursorAt(script, k), views[k])
  }

  /** The pages of one poll, each served from the view of its own moment. */
  ghost predicate PollServed(script: seq<Fetch>, views: seq<View>) {
    && |script| == LIVE_MAX_PAGES == |views|
    && (forall k :: 0 <= k < |views| - 1 ==> Evolves(views[k], views[k + 1]))
    && (forall k :: 0 <= k < |script| ==> PageServed(script, views, k))
  }

  lemma {:induction false} LaterView(views: seq<View>, i: nat, j: nat)
    requires i <= j < |views|
    requires forall k :: 0 <= k < |views| - 1 ==> Evolves(views[k], views[k + 1])
    ensures views[i].horizonMs <= views[j].horizonMs
    ensures forall l :: l in views[j].visible && l !in views[i].visible ==> l.createdMs >= views[i].horizonMs - LIVE_OVERLAP_MS
    decreases j
  {
    if i < j {
      LaterView(views, i, j - 1);
      assert Evolves(views[j - 1], views[j - 1 + 1]);
    }
  }

  /** A page that does not end the poll leaves nothing above its own cursor unread. */
  lemma PageReads(r: Reading, page: Page, cursor: Option<Cursor>, v: View, floorMs: int, seen: Seen, l: Offer)
    requires Serves(page, cursor, v) && l in v.visible && Past(cursor, l) && l.createdMs >= floorMs
    ensures var r' := ReadPage(r, page, Some(floorMs), seen);
      && r.ids <= r'.ids
      && (Holds(seen, l.id) || l.id in r'.ids || (!Stops(r', page, Some(floorMs)) && Past(page.cursor, l)))
  {
    hide Holds;
    hide ReadEntries;
    var first := r.(oldestMs := None);
    EntriesRead(first, page.entries, Some(floorMs), seen);
    if Some(l) !in page.entries {
      EntriesOldest(first, page.entries, Some(floorMs), seen);
      var r' := ReadPage(r, page, Some(floorMs), seen);
      var o :| Some(o) in page.entries && o.createdMs == r'.oldestMs.value;
      PastChain(page.cursor.value, page.cursor.value, l, o);
    }
  }

  lemma {:induction false} PagesRead(r: Reading, k: nat, script: seq<Fetch>, views: seq<View>, floorMs: int, seen: Seen, l: Offer)
    requires k <= LIVE_MAX_PAGES && PollServed(script, views) && l.createdMs >= floorMs
    requires forall j :: k <= j < |views| ==> l in views[j].visible
    requires (k > 0 ==> script[k - 1].Arrived?) && Past(CursorAt(script, k), l) && (k > 0 ==> r.cursor == CursorAt(script, k))
    ensures var r' := ReadPages(r, k, script, Some(floorMs), seen);
      r'.Some? ==>
        r.ids <= r'.value.ids && (Holds(seen, l.id) || l.id in r'.value.ids || (r'.value.behind && Past(r'.value.cursor, l)))
    decreases LIVE_MAX_PAGES - k
  {
    hide Holds;
    hide ReadPage;
    hide Past;
    hide Stops;
    if k < LIVE_MAX_PAGES && script[k].Arrived? {
      var page := script[k].page;
      assert PageServed(script, views, k);
      hide Serves;
      var r' := ReadPage(r, page, Some(floorMs), seen);
      PageReads(r, page, CursorAt(script, k), views[k], floorMs, seen, l);
      if !Stops(r', page, Some(floorMs)) {
        if Past(page.cursor, l) {
          PagesRead(r'.(cursor := page.cursor), k + 1, script, views, floorMs, seen, l);
        } else {
          IdsGrow(r'.(cursor := page.cursor), k + 1, script, Some(floorMs), seen);
        }
      }
    }
  }

  lemma {:induction false} IdsGrow(r: Reading, k: nat, script: seq<Fetch>, floorMs: Option<int>, seen: Seen)
    requires k <= LIVE_MAX_PAGES
    ensures ReadPages(r, k, script, floorMs, seen).Some? ==> r.ids <= ReadPages(r, k, script, floorMs, seen).value.ids
    decreases LIVE_MAX_PAGES - k
  {
    hide Holds;
    if k < LIVE_MAX_PAGES && Reply(script, k).Arrived? {
      var page := script[k].page;
      EntriesRead(r.(oldestMs := None), page.entries, floorMs, seen);
      var r' := ReadPage(r, page, floorMs, seen);
      hide ReadPage;
      if !Stops(r', page, floorMs) {
        IdsGrow(r'.(cursor := page.cursor), k + 1, script, floorMs, seen);
      }
    }
  }

  /** Nothing on any page is newer than the venue's clock at the first one. */
  lemma {:induction false} NewestBounded(r: Reading, k: nat, script: seq<Fetch>, views: seq<View>, floorMs: Option<int>, seen: Seen, bound: int)
    requires k <= LIVE_MAX_PAGES && PollServed(script, views)
    requires forall l :: l in views[0].visible ==> l.createdMs <= bound
    requires r.newestMs.Some? ==> r.newestMs.value <= bound
    requires k > 0 ==> script[k - 1].Arrived? && CursorAt(script, k).Some? && CursorAt(script, k).value.createdMs <= bound
    requires k > 0 ==> r.cursor.Some? && r.cursor.value.readable
    ensures var r' := ReadPages(r, k, script, floorMs, seen);
      r'.Some? ==>
        && (r'.value.newestMs.Some? ==> r'.value.newestMs.value <= bound)
        && (r.newestMs.Some? ==> r'.value.newestMs.Some?)
        && (r'.value.behind && r'.value.cursor.Some? && !r.behind ==> r'.value.cursor.value.readable)
    decreases LIVE_MAX_PAGES - k
  {
    hide Holds;
    hide Evolves;
    if k < LIVE_MAX_PAGES && script[k].Arrived? {
      var page := script[k].page;
      assert PageServed(script, views, k);
      PageBounded(page, CursorAt(script, k), views[k], bound);
      var first := r.(oldestMs := None);
      EntriesNewest(first, page.entries, floorMs, seen, bound);
      EntriesOldest(first, page.entries, floorMs, seen);
      ReadKeepsBehind(first, page.entries, floorMs, seen);
      var r' := ReadPage(r, page, floorMs, seen);
      hide ReadPage;
      hide Serves;
      if !Stops(r', page, floorMs) {
        NewestBounded(r'.(cursor := page.cursor), k + 1, script, views, floorMs, seen, bound);
      }
    }
  }

  lemma PageBounded(page: Page, cursor: Option<Cursor>, v: View, bound: int)
    requires Serves(page, cursor, v)
    requires if cursor.None? then forall l :: l in v.visible ==> l.createdMs <= bound else cursor.value.createdMs <= bound
    ensures forall l :: Some(l) in page.entries ==> l.createdMs <= bound
    ensures page.cursor.Some? && (exists l :: Some(l) in page.entries) ==>
      page.cursor.value.createdMs <= bound && page.cursor.value.readable
  {
  }

  /** The newest time of a reading is at least that of everything read. */
  predicate AtLeast(newestMs: Option<int>, ms: int) {
    newestMs.Some? && newestMs.value >= ms
  }

  lemma {:induction false} EntriesNoted(r: Reading, entries: seq<Option<Offer>>, floorMs: Option<int>, seen: Seen, ms: int)
    requires AtLeast(r.newestMs, ms) || exists l :: Some(l) in entries && l.createdMs == ms
    ensures AtLeast(ReadEntries(r, entries, floorMs, seen).newestMs, ms)
  {
    hide Holds;
    if entries != [] {
      var front, last := entries[..|entries| - 1], entries[|entries| - 1];
      assert entries == front + [last];
      if AtLeast(r.newestMs, ms) || exists l :: Some(l) in front && l.createdMs == ms {
        EntriesNoted(r, front, floorMs, seen, ms);
      }
    }
  }

  lemma {:induction false} NewestStays(r: Reading, k: nat, script: seq<Fetch>, floorMs: Option<int>, seen: Seen, ms: int)
    requires k <= LIVE_MAX_PAGES && AtLeast(r.newestMs, ms)
    ensures var r' := ReadPages(r, k, script, floorMs, seen); r'.Some? ==> AtLeast(r'.value.newestMs, ms)
    decreases LIVE_MAX_PAGES - k
  {
    hide ReadEntries;
    if k < LIVE_MAX_PAGES && Reply(script, k).Arrived? {
      EntriesNoted(r.(oldestMs := None), script[k].page.entries, floorMs, seen, ms);
      var r' := ReadPage(r, script[k].page, floorMs, seen);
      NewestStays(r'.(cursor := script[k].page.cursor), k + 1, script, floorMs, seen, ms);
    }
  }

  /** A poll whose pages arrive is up to date: nothing visible at its first page is newer than the newest time it notes. */
  lemma PollIsUpToDate(p: State, script: seq<Fetch>, views: seq<View>, l: Offer)
    requires PollServed(script, views) && LiveReading(p, script).Some? && |script| > 0 && |views| > 0 && l in views[0].visible
    ensures AtLeast(LiveReading(p, script).value.newestMs, l.createdMs)
    ensures p.newestMs.Some? ==> AtLeast(LiveReading(p, script).value.newestMs, p.newestMs.value)
  {
    hide ReadEntries;
    var r, page := FirstReading(p), script[0].page;
    assert PageServed(script, views, 0);
    var newer := l;
    if Some(l) !in page.entries {
      var o :| Some(o) in page.entries;
      PastChain(page.cursor.value, page.cursor.value, l, o);
      newer := o;
    }
    EntriesNoted(r.(oldestMs := None), page.entries, p.nextFloorMs, p.seen, newer.createdMs);
    var r' := ReadPage(r, page, p.nextFloorMs, p.seen);
    if p.newestMs.Some? {
      NewestStays(r, 0, script, p.nextFloorMs, p.seen, p.newestMs.value);
    }
    if !Stops(r', page, p.nextFloorMs) {
      NewestStays(r'.(cursor := page.cursor), 1, script, p.nextFloorMs, p.seen, newer.createdMs);
    }
  }

  // ---- Remembering ----

  function Puts(ids: seq<string>): seq<Item<string, ()>> {
    seq(|ids|, i requires 0 <= i < |ids| => Item(ids[i], ()))
  }

  lemma {:induction false} RememberingIsHistory(history: seq<Item<string, ()>>, ids: seq<string>, maxSeen: nat)
    ensures RememberedAll(Bounded(history, maxSeen), ids, maxSeen) == Bounded(history + Puts(ids), maxSeen)
  {
    hide BoundedPut;
    if ids == [] {
      assert history + Puts(ids) == history;
    } else {
      var front, last := ids[..|ids| - 1], ids[|ids| - 1];
      RememberingIsHistory(history, front, maxSeen);
      var all := history + Puts(ids);
      assert all[..|all| - 1] == history + Puts(front);
      assert all[|all| - 1] == Item(last, ());
    }
  }

  lemma HistoryKeys(history: seq<Item<string, ()>>, ids: seq<string>)
    ensures Keys(history + Puts(ids)) == Keys(history) + SetOf(ids)
  {
    KeysConcat(history, Puts(ids));
    assert Keys(Puts(ids)) == SetOf(ids) by {
      forall id | id in SetOf(ids) ensures id in Keys(Puts(ids)) {
        var i :| 0 <= i < |ids| && ids[i] == id;
        assert Puts(ids)[i].key == id;
      }
    }
  }

  lemma {:induction false} ReadIds(r: Reading, entries: seq<Option<Offer>>, floorMs: Option<int>, seen: Seen)
    requires IdsOf(r.entries) == r.ids && forall id :: id in r.ids ==> !Holds(seen, id)
    ensures var r' := ReadEntries(r, entries, floorMs, seen);
      IdsOf(r'.entries) == r'.ids && forall id :: id in r'.ids ==> !Holds(seen, id)
  {
    hide Holds;
    if entries != [] {
      var front, last := entries[..|entries| - 1], entries[|entries| - 1];
      ReadIds(r, front, floorMs, seen);
      var before := ReadEntries(r, front, floorMs, seen);
      assert IdsOf(before.entries + [last]) == IdsOf(before.entries) + if last.Some? then {last.value.id} else {};
    }
  }

  /** A poll hands on the listings it takes, and none of them was remembered before. */
  lemma {:induction false} PollIds(r: Reading, k: nat, script: seq<Fetch>, floorMs: Option<int>, seen: Seen)
    requires k <= LIVE_MAX_PAGES
    requires IdsOf(r.entries) == r.ids && forall id :: id in r.ids ==> !Holds(seen, id)
    ensures var r' := ReadPages(r, k, script, floorMs, seen);
      r'.Some? ==> IdsOf(r'.value.entries) == r'.value.ids && forall id :: id in r'.value.ids ==> !Holds(seen, id)
    decreases LIVE_MAX_PAGES - k
  {
    hide Holds;
    hide IdsOf;
    if k < LIVE_MAX_PAGES && Reply(script, k).Arrived? {
      var page := script[k].page;
      ReadIds(r.(oldestMs := None), page.entries, floorMs, seen);
      var r' := ReadPage(r, page, floorMs, seen);
      hide ReadPage;
      if !Stops(r', page, floorMs) {
        PollIds(r'.(cursor := page.cursor), k + 1, script, floorMs, seen);
      }
    }
  }

  ghost predicate NoTwice(ids: seq<string>) {
    forall i, j :: 0 <= i < j < |ids| ==> ids[i] != ids[j]
  }

  lemma NoTwiceSnoc(ids: seq<string>, id: string)
    ensures NoTwice(ids + [id]) <==> NoTwice(ids) && id !in ids
  {
    var all := ids + [id];
    if NoTwice(all) {
      forall i, j | 0 <= i < j < |ids| ensures ids[i] != ids[j] {
        assert all[i] != all[j];
      }
      forall i | 0 <= i < |ids| ensures ids[i] != id {
        assert all[i] != all[|ids|];
      }
    }
  }

  lemma {:induction false} ReadOnce(r: Reading, entries: seq<Option<Offer>>, floorMs: Option<int>, seen: Seen)
    requires IdsOf(r.entries) == r.ids && NoTwice(IdList(r.entries))
    ensures var r' := ReadEntries(r, entries, floorMs, seen);
      IdsOf(r'.entries) == r'.ids && NoTwice(IdList(r'.entries))
  {
    hide Holds;
    hide IdsOf;
    hide IdList;
    hide NoTwice;
    if entries != [] {
      var front, last := entries[..|entries| - 1], entries[|entries| - 1];
      ReadOnce(r, front, floorMs, seen);
      var before := ReadEntries(r, front, floorMs, seen);
      IdsSnoc(before.entries, last);
      if last.Some? {
        IdListSet(before.entries);
        NoTwiceSnoc(IdList(before.entries), last.value.id);
      }
    }
  }

  lemma {:induction false} PollOnce(r: Reading, k: nat, script: seq<Fetch>, floorMs: Option<int>, seen: Seen)
    requires k <= LIVE_MAX_PAGES
    requires IdsOf(r.entries) == r.ids && NoTwice(IdList(r.entries))
    ensures var r' := ReadPages(r, k, script, floorMs, seen);
      r'.Some? ==> NoTwice(IdList(r'.value.entries))
    decreases LIVE_MAX_PAGES - k
  {
    hide Holds;
    hide IdsOf;
    hide IdList;
    hide NoTwice;
    if k < LIVE_MAX_PAGES && Reply(script, k).Arrived? {
      var page := script[k].page;
      ReadOnce(r.(oldestMs := None), page.entries, floorMs, seen);
      var r' := ReadPage(r, page, floorMs, seen);
      hide ReadPage;
      if !Stops(r', page, floorMs) {
        PollOnce(r'.(cursor := page.cursor), k + 1, script, floorMs, seen);
      }
    }
  }

  lemma {:induction false} InsertKeepsIds(sorted: seq<Option<Offer>>, entry: Option<Offer>)
    ensures multiset(IdList(InsertEntry(sorted, entry))) == multiset(IdList(sorted + [entry]))
  {
    if sorted != [] && SortKey(sorted[|sorted| - 1]) > SortKey(entry) {
      hide IdList;
      hide IdsOf;
      var front, last := sorted[..|sorted| - 1], sorted[|sorted| - 1];
      InsertKeepsIds(front, entry);
      assert sorted == front + [last];
      IdsSnoc(InsertEntry(front, entry), last);
      IdsSnoc(front, entry);
      IdsSnoc(front, last);
      IdsSnoc(sorted, entry);
    }
  }

  /** Sorting hands on the same ids, each as often. */
  lemma {:induction false} SortingKeepsIds(entries: seq<Option<Offer>>)
    ensures multiset(IdList(OldestFirst(entries))) == multiset(IdList(entries))
  {
    if entries != [] {
      hide InsertEntry;
      var front, last := entries[..|entries| - 1], entries[|entries| - 1];
      SortingKeepsIds(front);
      assert entries == front + [last];
      hide IdList;
      InsertKeepsIds(OldestFirst(front), last);
      IdsSnoc(OldestFirst(front), last);
      IdsSnoc(front, last);
    }
  }

  lemma {:induction false} NoTwiceCounts(ids: seq<string>)
    ensures NoTwice(ids) <==> forall id :: multiset(ids)[id] <= 1
  {
    if ids != [] {
      hide NoTwice;
      var front, last := ids[..|ids| - 1], ids[|ids| - 1];
      assert ids == front + [last];
      NoTwiceSnoc(front, last);
      NoTwiceCounts(front);
      assert forall id :: multiset(ids)[id] == multiset(front)[id] + if id == last then 1 else 0;
      assert last in front <==> multiset(front)[last] > 0;
      assert NoTwice(front) && last !in front ==> multiset(ids)[last] <= 1;
      assert last in front ==> multiset(ids)[last] > 1;
    }
  }

  lemma PollIdsUnseen(p: State, script: seq<Fetch>)
    ensures var r := LiveReading(p, script);
      r.Some? ==> IdsOf(r.value.entries) == r.value.ids && r.value.ids !! Keys(p.seen)
  {
    hide ReadPages;
    hide Holds;
    assert IdsOf([]) == {};
    PollIds(FirstReading(p), 0, script, p.nextFloorMs, p.seen);
    forall id ensures Holds(p.seen, id) <==> id in Keys(p.seen) {
      HoldsIsKeys(p.seen, id);
    }
  }

  /** No repeats: a poll hands on each listing it takes once, in whatever order, and none it remembers. */
  lemma PollTakesUnseen(p: State, script: seq<Fetch>)
    ensures var r := LiveReading(p, script);
      r.Some? ==>
        && IdsOf(r.value.entries) == r.value.ids && r.value.ids !! Keys(p.seen)
        && NoTwice(IdList(r.value.entries)) && NoTwice(IdList(OldestFirst(r.value.entries)))
  {
    hide ReadPages;
    assert IdsOf([]) == {} && IdList([]) == [];
    PollIdsUnseen(p, script);
    PollOnce(FirstReading(p), 0, script, p.nextFloorMs, p.seen);
    if LiveReading(p, script).Some? {
      var entries := LiveReading(p, script).value.entries;
      SortingKeepsIds(entries);
      NoTwiceCounts(IdList(entries));
      NoTwiceCounts(IdList(OldestFirst(entries)));
      hide NoTwice;
      hide IdList;
      hide OldestFirst;
    }
  }

  // ---- A live poll ----

  ghost predicate PollAllowed(w: World, script: seq<Fetch>, views: seq<View>, order: seq<string>) {
    && PollServed(script, views) && Evolves(w.view, views[0])
    && (LiveReading(w.poller, script).Some? ==> IsOrder(order, LiveReading(w.poller, script).value.ids))
  }

  function Polled(w: World, script: seq<Fetch>, views: seq<View>, order: seq<string>): World
    requires views != []
  {
    var r := LiveReading(w.poller, script);
    var poller := LivePolled(w.poller, script, order);
    if r.None? then w.(poller := poller, view := views[|views| - 1])
    else w.(poller := poller,
            view := views[|views| - 1],
            handed := w.handed + IdsOf(r.value.entries),
            low := if w.low.Some? then w.low else poller.nextFloorMs,
            history := w.history + Puts(order))
  }

  lemma PollAccounts(w: World, script: seq<Fetch>, views: seq<View>, r: Reading, l: Offer)
    requires Inv(w) && PollServed(script, views) && Evolves(w.view, views[0])
    requires LiveReading(w.poller, script) == Some(r) && w.low.Some?
    requires l in views[LIVE_MAX_PAGES - 1].visible && w.low.value <= l.createdMs && l.createdMs !in w.dropped
    requires l.createdMs < w.poller.nextFloorMs.value || l.createdMs < views[0].horizonMs - LIVE_OVERLAP_MS
    ensures Accounted(l, w.handed + r.ids, NewGaps(w.poller, r))
  {
    hide ReadPages;
    hide Past;
    hide Holds;
    hide Bounded;
    hide GapsSound;
    hide SavedSound;
    var p := w.poller;
    var floorMs := p.nextFloorMs.value;
    LaterView(views, 0, LIVE_MAX_PAGES - 1);
    if l.createdMs < floorMs {
      assert l in w.view.visible;
      assert Accounted(l, w.handed, p.gaps);
      if r.behind && r.cursor.Some? {
        GapsGrow(p.gaps, Gap(r.cursor.value, floorMs, SkipIds(p.recorded, floorMs)), l);
      }
    } else {
      forall j | 0 <= j < LIVE_MAX_PAGES ensures l in views[j].visible {
        LaterView(views, 0, j);
        LaterView(views, j, LIVE_MAX_PAGES - 1);
      }
      PastNone(l);
      PagesRead(FirstReading(p), 0, script, views, floorMs, p.seen, l);
      HoldsIsKeys(p.seen, l.id);
      BehindHasCursor(FirstReading(p), 0, script, p.nextFloorMs, p.seen);
      if r.behind {
        var gap := Gap(r.cursor.value, floorMs, SkipIds(p.recorded, floorMs));
        GapsGrow(p.gaps, gap, l);
        assert InGap(gap, l) <==> Past(Some(gap.cursor), l);
      }
    }
  }

  lemma PastNone(l: Offer)
    ensures Past(None, l)
  {
  }

  lemma GapsSoundGrow(gaps: seq<Gap>, handed: set<string>, handed': set<string>)
    requires GapsSound(gaps, handed) && handed <= handed'
    ensures GapsSound(gaps, handed')
  {
  }

  lemma NewGapSound(p: State, r: Reading, handed: set<string>)
    requires GapsSound(p.gaps, handed) && p.recorded.Keys <= handed
    requires r.behind && r.cursor.Some? ==> r.cursor.value.readable
    ensures GapsSound(NewGaps(p, r), handed)
  {
  }

  lemma SavedGrows(s: Saved, v: View, handed: set<string>, handed': set<string>)
    requires SavedSound(s, v, handed) && handed <= handed'
    ensures SavedSound(s, v, handed')
  {
    GapsSoundGrow(s.point.gaps, handed, handed');
    CoversGrows(v, handed, handed', s.point.gaps, s.low, s.point.newestMs - LIVE_OVERLAP_MS, s.dropped);
  }

  lemma EvolvesThrough(v: View, views: seq<View>)
    requires views != [] && Evolves(v, views[0]) && forall k :: 0 <= k < |views| - 1 ==> Evolves(views[k], views[k + 1])
    ensures Evolves(v, views[|views| - 1])
  {
    LaterView(views, 0, |views| - 1);
    if |views| > 1 {
      assert Evolves(views[|views| - 2], views[|views| - 2 + 1]);
    }
  }

  lemma PollNewest(w: World, script: seq<Fetch>, views: seq<View>, r: Reading)
    requires Inv(w) && PollServed(script, views) && Evolves(w.view, views[0]) && LiveReading(w.poller, script) == Some(r)
    ensures r.newestMs.Some? ==> r.newestMs.value <= views[0].horizonMs
    ensures w.poller.newestMs.Some? ==> r.newestMs.Some?
    ensures r.behind ==> r.cursor.Some? && r.cursor.value.readable && w.poller.nextFloorMs.Some?
  {
    hide ReadPages;
    hide Covers;
    hide Bounded;
    hide GapsSound;
    hide SavedSound;
    var p := w.poller;
    NewestBounded(FirstReading(p), 0, script, views, p.nextFloorMs, p.seen, views[0].horizonMs);
    BehindHasCursor(FirstReading(p), 0, script, p.nextFloorMs, p.seen);
  }

  lemma PollCovers(w: World, script: seq<Fetch>, views: seq<View>, r: Reading, high: int)
    requires Inv(w) && PollServed(script, views) && Evolves(w.view, views[0])
    requires LiveReading(w.poller, script) == Some(r) && w.low.Some?
    requires high <= w.poller.nextFloorMs.value || high <= views[0].horizonMs - LIVE_OVERLAP_MS
    ensures Covers(views[LIVE_MAX_PAGES - 1], w.handed + r.ids, NewGaps(w.poller, r), w.low.value, high, w.dropped)
  {
    var v := views[LIVE_MAX_PAGES - 1];
    forall l | l in v.visible && w.low.value <= l.createdMs < high && l.createdMs !in w.dropped
      ensures Accounted(l, w.handed + r.ids, NewGaps(w.poller, r))
    {
      PollAccounts(w, script, views, r, l);
    }
  }

  lemma CoversNothing(v: View, handed: set<string>, gaps: seq<Gap>, low: int, high: int, dropped: set<int>)
    requires high <= low
    ensures Covers(v, handed, gaps, low, high, dropped)
  {
  }

  /** Where coverage ends after a successful poll. */
  lemma PollHigh(w: World, script: seq<Fetch>, views: seq<View>, order: seq<string>, r: Reading)
    requires Inv(w) && PollServed(script, views) && Evolves(w.view, views[0]) && LiveReading(w.poller, script) == Some(r)
    ensures var p' := Settled(w.poller, r, order);
      var low := if w.low.Some? then w.low else p'.nextFloorMs;
      var v := views[LIVE_MAX_PAGES - 1];
      && views[0].horizonMs <= v.horizonMs
      && (p'.nextFloorMs.Some? <==> low.Some?)
      && (p'.nextFloorMs.Some? ==>
            && (p'.nextFloorMs.value <= v.horizonMs - LIVE_OVERLAP_MS || p'.nextFloorMs.value <= low.value)
            && Covers(v, w.handed + r.ids, p'.gaps, low.value, p'.nextFloorMs.value, w.dropped))
  {
    hide Covers;
    hide GapsSound;
    hide SavedSound;
    hide Bounded;
    hide ReadPages;
    hide RememberedAll;
    PollNewest(w, script, views, r);
    LaterView(views, 0, LIVE_MAX_PAGES - 1);
    assert w.view.horizonMs <= views[0].horizonMs;
    hide Evolves;
    var p' := Settled(w.poller, r, order);
    if p'.nextFloorMs.Some? {
      var high := p'.nextFloorMs.value;
      if w.low.Some? {
        PollCovers(w, script, views, r, high);
      } else {
        CoversNothing(views[LIVE_MAX_PAGES - 1], w.handed + r.ids, p'.gaps, high, high, w.dropped);
      }
    }
  }

  lemma BoundedDistinct(history: seq<Item<string, ()>>, maxSeen: nat)
    ensures Distinct(Bounded(history, maxSeen))
  {
    BoundedIsNewest(history, maxSeen);
    UnboundedDistinct(history);
    LastNBasics(Unbounded(history), maxSeen);
  }

  /** A successful poll keeps the invariant; a failed one leaves the poller untouched, and the venue moved on. */
  lemma PolledKeeps(w: World, script: seq<Fetch>, views: seq<View>, order: seq<string>)
    requires Inv(w) && PollAllowed(w, script, views, order)
    ensures Inv(Polled(w, script, views, order))
  {
    hide Covers;
    hide GapsSound;
    hide SavedSound;
    hide Bounded;
    hide ReadPages;
    hide RememberedAll;
    hide Puts;
    hide NewGaps;
    hide IdsOf;
    hide Holds;
    var p, v := w.poller, views[|views| - 1];
    EvolvesThrough(w.view, views);
    MovedKeeps(w, v);
    hide Evolves;
    hide PollServed;
    if LiveReading(p, script).Some? {
      var r := LiveReading(p, script).value;
      PollIdsUnseen(p, script);
      var handed := w.handed + r.ids;
      PollNewest(w, script, views, r);
      RememberingIsHistory(w.history, order, p.maxSeen);
      BoundedDistinct(w.history, p.maxSeen);
      RememberedKeys(p.seen, order, p.maxSeen);
      GapsSoundGrow(p.gaps, w.handed, handed);
      NewGapSound(p, r, handed);
      if w.saved.Some? {
        SavedGrows(w.saved.value, v, w.handed, handed);
      }
      PollHigh(w, script, views, order, r);
    }
  }

  lemma {:induction false} RememberedKeys(seen: Seen, ids: seq<string>, maxSeen: nat)
    requires Distinct(seen)
    ensures Keys(RememberedAll(seen, ids, maxSeen)) <= Keys(seen) + SetOf(ids) && Distinct(RememberedAll(seen, ids, maxSeen))
  {
    if ids != [] {
      var front, last := ids[..|ids| - 1], ids[|ids| - 1];
      RememberedKeys(seen, front, maxSeen);
      var before := RememberedAll(seen, front, maxSeen);
      PutBasics(before, last, ());
      LastNBasics(Put(before, last, ()), maxSeen);
    }
  }

  // ---- Catching up ----

  /** The ids of what was read, in order. */
  function IdList(entries: seq<Option<Offer>>): seq<string> {
    if entries == [] then []
    else if entries[|entries| - 1].None? then IdList(entries[..|entries| - 1])
    else IdList(entries[..|entries| - 1]) + [entries[|entries| - 1].value.id]
  }

  lemma IdsSnoc(entries: seq<Option<Offer>>, last: Option<Offer>)
    ensures IdsOf(entries + [last]) == IdsOf(entries) + if last.Some? then {last.value.id} else {}
    ensures IdList(entries + [last]) == if last.Some? then IdList(entries) + [last.value.id] else IdList(entries)
  {
    assert (entries + [last])[..|entries|] == entries;
    assert forall e :: e in entries + [last] <==> e in entries || e == last;
  }

  lemma {:induction false} IdListSet(entries: seq<Option<Offer>>)
    ensures SetOf(IdList(entries)) == IdsOf(entries)
  {
    if entries != [] {
      var front, last := entries[..|entries| - 1], entries[|entries| - 1];
      IdListSet(front);
      assert entries == front + [last];
      IdsSnoc(front, last);
      if last.Some? {
        assert SetOf(IdList(front) + [last.value.id]) == SetOf(IdList(front)) + {last.value.id};
      }
    }
  }

  lemma CatchRemembersOne(c: CatchUp, entry: Option<Offer>, gap: Gap, maxSeen: nat, seen: Seen)
    requires c.seen == RememberedAll(seen, IdList(c.read), maxSeen)
    ensures var c' := CatchEntry(c, entry, gap, maxSeen); c'.seen == RememberedAll(seen, IdList(c'.read), maxSeen)
  {
    hide Remembered;
    hide Holds;
    hide IdsOf;
    IdsSnoc(c.read, entry);
    if entry.Some? {
      var ids := IdList(c.read);
      assert (ids + [entry.value.id])[..|ids|] == ids;
    }
  }

  lemma {:induction false} CatchRemembers(start: CatchUp, entries: seq<Option<Offer>>, gap: Gap, maxSeen: nat)
    requires start.read == []
    ensures var c := CatchEntries(start, entries, gap, maxSeen);
      c.seen == RememberedAll(start.seen, IdList(c.read), maxSeen)
  {
    if entries != [] {
      hide CatchEntry;
      hide RememberedAll;
      hide IdList;
      var front, last := entries[..|entries| - 1], entries[|entries| - 1];
      CatchRemembers(start, front, gap, maxSeen);
      CatchRemembersOne(CatchEntries(start, front, gap, maxSeen), last, gap, maxSeen, start.seen);
    }
  }

  lemma {:induction false} CatchEnds(start: CatchUp, entries: seq<Option<Offer>>, gap: Gap, maxSeen: nat)
    ensures CatchEntries(start, entries, gap, maxSeen).reachedEnd
      <==> start.reachedEnd || exists l :: Some(l) in entries && l.createdMs < gap.untilMs
  {
    hide Remembered;
    hide Holds;
    if entries != [] {
      var front, last := entries[..|entries| - 1], entries[|entries| - 1];
      CatchEnds(start, front, gap, maxSeen);
      assert entries == front + [last];
      assert forall l :: Some(l) in entries <==> Some(l) in front || Some(l) == last;
    }
  }

  predicate Known(id: string, seen: set<string>, gap: Gap, read: seq<Option<Offer>>) {
    id in seen || id in gap.skipIds || id in IdsOf(read)
  }

  lemma CatchKnowsMore(c: CatchUp, entry: Option<Offer>, gap: Gap, maxSeen: nat, seen: set<string>)
    requires Keys(c.seen) <= seen + IdsOf(c.read)
    ensures var c' := CatchEntry(c, entry, gap, maxSeen);
      && IdsOf(c.read) <= IdsOf(c'.read)
      && (entry.Some? && entry.value.createdMs >= gap.untilMs ==> Known(entry.value.id, seen, gap, c'.read))
  {
    hide Remembered;
    hide Holds;
    IdsSnoc(c.read, entry);
    if entry.Some? {
      HoldsIsKeys(c.seen, entry.value.id);
    }
  }

  lemma {:induction false} CatchKnows(start: CatchUp, entries: seq<Option<Offer>>, gap: Gap, maxSeen: nat, l: Offer)
    requires start.read == [] && Distinct(start.seen)
    requires Some(l) in entries && l.createdMs >= gap.untilMs
    ensures Known(l.id, Keys(start.seen), gap, CatchEntries(start, entries, gap, maxSeen).read)
  {
    hide CatchEntry;
    hide IdsOf;
    hide Keys;
    var front, last := entries[..|entries| - 1], entries[|entries| - 1];
    var c := CatchEntries(start, front, gap, maxSeen);
    CatchRemembers(start, front, gap, maxSeen);
    RememberedKeys(start.seen, IdList(c.read), maxSeen);
    IdListSet(c.read);
    CatchKnowsMore(c, last, gap, maxSeen, Keys(start.seen));
    assert entries == front + [last];
    if Some(l) in front {
      CatchKnows(start, front, gap, maxSeen, l);
    }
  }

  ghost predicate CatchUpAllowed(w: World, v: View, fetch: Fetch) {
    && Evolves(w.view, v)
    && (w.poller.gaps != [] && fetch.Arrived? ==> Serves(fetch.page, Some(w.poller.gaps[0].cursor), v))
  }

  function CaughtUpWorld(w: World, v: View, fetch: Fetch): World {
    var (poller, read) := CaughtUp(w.poller, fetch);
    w.(poller := poller, view := v, handed := w.handed + IdsOf(read), history := w.history + Puts(IdList(read)))
  }

  /** A page of a gap: what lay in the gap is handed on, known already, or still in it. */
  lemma GapPageAccounts(page: Page, gap: Gap, v: View, start: CatchUp, maxSeen: nat, l: Offer)
    requires Serves(page, Some(gap.cursor), v) && l in v.visible && InGap(gap, l)
    requires start.read == [] && Distinct(start.seen) && start.reachedEnd == (page.cursor.None? || page.entries == [])
    ensures var c := CatchEntries(start, page.entries, gap, maxSeen);
      l.id in Keys(start.seen) || l.id in gap.skipIds || l.id in IdsOf(c.read)
      || (!c.reachedEnd && page.cursor.Some? && InGap(gap.(cursor := page.cursor.value), l))
  {
    hide CatchEntries;
    CatchEnds(start, page.entries, gap, maxSeen);
    var c := CatchEntries(start, page.entries, gap, maxSeen);
    if Some(l) in page.entries {
      CatchKnows(start, page.entries, gap, maxSeen, l);
    } else if c.reachedEnd {
      var o :| Some(o) in page.entries && o.createdMs < gap.untilMs;
      PastChain(gap.cursor, page.cursor.value, l, o);
    }
  }

  lemma CatchUpAccounts(w: World, v: View, page: Page, l: Offer)
    requires w.poller.gaps != [] && Serves(page, Some(w.poller.gaps[0].cursor), v)
    requires Keys(w.poller.seen) <= w.handed && Distinct(w.poller.seen) && GapsSound(w.poller.gaps, w.handed)
    requires l in v.visible && Accounted(l, w.handed, w.poller.gaps)
    ensures var (p', read) := CaughtUp(w.poller, Arrived(page));
      Accounted(l, w.handed + IdsOf(read), p'.gaps)
  {
    hide CatchEntries;
    hide InGap;
    hide Serves;
    var p := w.poller;
    var gap, rest := p.gaps[0], p.gaps[1..];
    var start := CatchUp(p.seen, [], page.cursor.None? || page.entries == []);
    assert p.gaps == [gap] + rest;
    GapsTail(gap, rest, l);
    if page.cursor.Some? {
      GapsTail(gap.(cursor := page.cursor.value), rest, l);
    }
    hide InSomeGap;
    if InGap(gap, l) {
      GapPageAccounts(page, gap, v, start, p.maxSeen, l);
    }
  }

  lemma CatchUpGapsSound(p: State, page: Page, v: View, handed: set<string>)
    requires p.gaps != [] && GapsSound(p.gaps, handed) && Serves(page, Some(p.gaps[0].cursor), v)
    ensures GapsSound(CaughtUp(p, Arrived(page)).0.gaps, handed)
  {
    hide CatchEntries;
  }

  lemma CatchUpCovers(w: World, v: View, page: Page, low: int, high: int)
    requires w.poller.gaps != [] && Serves(page, Some(w.poller.gaps[0].cursor), v)
    requires Keys(w.poller.seen) <= w.handed && Distinct(w.poller.seen) && GapsSound(w.poller.gaps, w.handed)
    requires Covers(v, w.handed, w.poller.gaps, low, high, w.dropped)
    ensures var (p', read) := CaughtUp(w.poller, Arrived(page));
      Covers(v, w.handed + IdsOf(read), p'.gaps, low, high, w.dropped)
  {
    hide Accounted;
    hide CaughtUp;
    hide Serves;
    hide GapsSound;
    var (p', read) := CaughtUp(w.poller, Arrived(page));
    forall l | l in v.visible && low <= l.createdMs < high && l.createdMs !in w.dropped
      ensures Accounted(l, w.handed + IdsOf(read), p'.gaps)
    {
      CatchUpAccounts(w, v, page, l);
    }
  }

  lemma CatchUpSeen(p: State, history: seq<Item<string, ()>>, page: Page)
    requires p.gaps != [] && p.seen == Bounded(history, p.maxSeen)
    ensures var (p', read) := CaughtUp(p, Arrived(page));
      && p'.seen == Bounded(history + Puts(IdList(read)), p.maxSeen)
      && Keys(p'.seen) <= Keys(p.seen) + IdsOf(read)
  {
    hide CatchEntries;
    hide RememberedAll;
    hide Puts;
    hide Bounded;
    var start := CatchUp(p.seen, [], page.cursor.None? || page.entries == []);
    BoundedDistinct(history, p.maxSeen);
    CatchRemembers(start, page.entries, p.gaps[0], p.maxSeen);
    var read := CatchEntries(start, page.entries, p.gaps[0], p.maxSeen).read;
    RememberingIsHistory(history, IdList(read), p.maxSeen);
    RememberedKeys(p.seen, IdList(read), p.maxSeen);
    IdListSet(read);
  }

  /** One page of catching up keeps the invariant; a failed fetch changes nothing. */
  lemma CaughtUpKeeps(w: World, v: View, fetch: Fetch)
    requires Inv(w) && CatchUpAllowed(w, v, fetch)
    ensures Inv(CaughtUpWorld(w, v, fetch))
  {
    hide Covers;
    hide GapsSound;
    hide SavedSound;
    hide Bounded;
    hide Serves;
    hide Evolves;
    hide CatchEntries;
    var p := w.poller;
    MovedKeeps(w, v);
    if p.gaps == [] || fetch.Failed? {
      assert w.history + Puts(IdList([])) == w.history && w.handed + IdsOf([]) == w.handed;
      assert CaughtUpWorld(w, v, fetch) == Moved(w, v);
    } else {
      hide Inv;
      PageKeeps(Moved(w, v), fetch.page);
      hide CaughtUp;
      assert CaughtUpWorld(w, v, fetch) == CaughtUpWorld(Moved(w, v), v, fetch);
    }
  }

  lemma PageKeeps(w: World, page: Page)
    requires Inv(w) && w.poller.gaps != [] && Serves(page, Some(w.poller.gaps[0].cursor), w.view)
    ensures Inv(CaughtUpWorld(w, w.view, Arrived(page)))
  {
    hide Covers;
    hide GapsSound;
    hide SavedSound;
    hide Bounded;
    hide Serves;
    hide CatchEntries;
    hide IdsOf;
    hide Puts;
    hide IdList;
    hide Keys;
    hide Distinct;
    var p, v := w.poller, w.view;
    var (p', read) := CaughtUp(p, Arrived(page));
    BoundedDistinct(w.history, p.maxSeen);
    CatchUpSeen(p, w.history, page);
    CatchUpGapsSound(p, page, v, w.handed);
    GapsSoundGrow(p'.gaps, w.handed, w.handed + IdsOf(read));
    if p.nextFloorMs.Some? {
      CatchUpCovers(w, v, page, w.low.value, p.nextFloorMs.value);
    }
    if w.saved.Some? {
      SavedGrows(w.saved.value, v, w.handed, w.handed + IdsOf(read));
    }
  }

  // ---- Catching up ends ----

  /** The visible listings a gap still holds. */
  ghost function Left(gap: Gap, v: View): set<Offer> {
    set l | l in v.visible && InGap(gap, l)
  }

  ghost function LeftInAll(gaps: seq<Gap>, v: View): nat {
    if gaps == [] then 0 else 1 + |Left(gaps[0], v)| + LeftInAll(gaps[1..], v)
  }

  /** A page that does not close its gap takes at least one listing out of it, and adds none. */
  lemma PageShrinksGap(page: Page, gap: Gap, v: View, start: CatchUp, maxSeen: nat)
    requires Serves(page, Some(gap.cursor), v) && page.cursor.Some?
    requires start.read == [] && Distinct(start.seen) && start.reachedEnd == (page.cursor.None? || page.entries == [])
    requires !CatchEntries(start, page.entries, gap, maxSeen).reachedEnd
    ensures Left(gap.(cursor := page.cursor.value), v) < Left(gap, v)
  {
    hide CatchEntries;
    CatchEnds(start, page.entries, gap, maxSeen);
    var gap' := gap.(cursor := page.cursor.value);
    var o :| Some(o) in page.entries;
    assert o in Left(gap, v) && o !in Left(gap', v);
    forall l | l in Left(gap', v) ensures l in Left(gap, v) {
      PastChain(gap.cursor, gap'.cursor, l, o);
    }
  }

  /** Every page that arrives leaves strictly less to read, so catching up ends on any unchanging market. */
  lemma CatchUpTerminates(p: State, page: Page, v: View)
    requires p.gaps != [] && Distinct(p.seen) && Serves(page, Some(p.gaps[0].cursor), v)
    ensures LeftInAll(CaughtUp(p, Arrived(page)).0.gaps, v) < LeftInAll(p.gaps, v)
  {
    hide CatchEntries;
    hide Serves;
    hide Left;
    var gap, rest := p.gaps[0], p.gaps[1..];
    var start := CatchUp(p.seen, [], page.cursor.None? || page.entries == []);
    var p' := CaughtUp(p, Arrived(page)).0;
    if !CatchEntries(start, page.entries, gap, p.maxSeen).reachedEnd && page.cursor.Some? {
      PageShrinksGap(page, gap, v, start, p.maxSeen);
      ProperSubsetSize(Left(gap.(cursor := page.cursor.value), v), Left(gap, v));
      assert p'.gaps[1..] == rest;
    }
  }

  /** The poller after a stretch of fetches for its gaps. */
  function CaughtUpAll(p: State, fetches: seq<Fetch>): State {
    if fetches == [] then p else CaughtUp(CaughtUpAll(p, fetches[..|fetches| - 1]), fetches[|fetches| - 1]).0
  }

  /** How many of the fetches bring a page. */
  function Arrivals(fetches: seq<Fetch>): (n: nat)
    ensures n <= |fetches| && (n == |fetches| <==> forall fetch :: fetch in fetches ==> fetch.Arrived?)
    ensures n > 0 <==> exists fetch :: fetch in fetches && fetch.Arrived?
  {
    if fetches == [] then 0 else Arrivals(fetches[..|fetches| - 1]) + if fetches[|fetches| - 1].Arrived? then 1 else 0
  }

  /** Each fetch that arrived is the page the unchanging venue serves for the oldest gap of its moment. */
  ghost predicate AllServed(p: State, fetches: seq<Fetch>, v: View) {
    fetches == [] ||
    var before, fetch := CaughtUpAll(p, fetches[..|fetches| - 1]), fetches[|fetches| - 1];
    && AllServed(p, fetches[..|fetches| - 1], v)
    && (before.gaps != [] && fetch.Arrived? ==> Serves(fetch.page, Some(before.gaps[0].cursor), v))
  }

  lemma CaughtUpStaysDistinct(p: State, fetch: Fetch)
    requires Distinct(p.seen)
    ensures Distinct(CaughtUp(p, fetch).0.seen)
  {
    hide CatchEntries;
    hide RememberedAll;
    if p.gaps != [] && fetch.Arrived? {
      var start := CatchUp(p.seen, [], fetch.page.cursor.None? || fetch.page.entries == []);
      var read := CatchEntries(start, fetch.page.entries, p.gaps[0], p.maxSeen).read;
      CatchRemembers(start, fetch.page.entries, p.gaps[0], p.maxSeen);
      RememberedKeys(p.seen, IdList(read), p.maxSeen);
    }
  }

  /**
   Catching up ends: after as many arrived pages as the gaps hold listings and gaps, failed fetches in between or not, no
   gap is open.
   */
  lemma {:induction false} CatchingUpEnds(p: State, fetches: seq<Fetch>, v: View)
    requires Distinct(p.seen) && AllServed(p, fetches, v)
    ensures var q := CaughtUpAll(p, fetches);
      && Distinct(q.seen)
      && (q.gaps == [] || LeftInAll(q.gaps, v) + Arrivals(fetches) <= LeftInAll(p.gaps, v))
      && (Arrivals(fetches) >= LeftInAll(p.gaps, v) ==> q.gaps == [])
  {
    hide CatchEntries;
    hide Serves;
    hide Left;
    hide Distinct;
    if fetches != [] {
      var front, fetch := fetches[..|fetches| - 1], fetches[|fetches| - 1];
      CatchingUpEnds(p, front, v);
      var before := CaughtUpAll(p, front);
      CaughtUpStaysDistinct(before, fetch);
      if before.gaps != [] && fetch.Arrived? {
        CatchUpTerminates(before, fetch.page, v);
      }
      hide CaughtUp;
    }
  }

  lemma ProperSubsetSize<T>(a: set<T>, b: set<T>)
    requires a < b
    ensures |a| < |b|
  {
    var x :| x in b && x !in a;
    SubsetSize(a, b - {x});
  }

  // ---- Recording, saving and restarting ----

  function Noted(w: World, offer: Offer): World {
    w.(poller := w.poller.(recorded := w.poller.recorded[offer.id := offer.createdMs]))
  }

  /** The edge Redis gets the resume point; before anything is read there is none to store. */
  function SavedWorld(w: World): World {
    if w.poller.newestMs.None? || w.low.None? then w
    else
      var p := Pruned(w.poller);
      var point := ResumePoint(p.newestMs.value, p.recorded.Keys, p.gaps);
      w.(poller := p, saved := Some(Saved(point, w.low.value, w.dropped)))
  }

  /** A save the edge Redis refuses: what it would have stored was made ready, and the old document stays. */
  function SaveFailed(w: World): World {
    w.(poller := Pruned(w.poller))
  }

  lemma SaveFailedKeeps(w: World)
    requires Inv(w)
    ensures Inv(SaveFailed(w))
  {
    hide Covers;
    hide Bounded;
    hide SavedSound;
    hide GapsSound;
  }

  lemma SavedKeeps(w: World)
    requires Inv(w)
    ensures Inv(SavedWorld(w))
  {
    hide Covers;
    hide Bounded;
  }

  /** The instants at which resuming drops a gap that still holds listings: its cursor sits exactly at its end. */
  function DroppedAt(gaps: seq<Gap>, oldestAllowedMs: int): set<int> {
    set i | 0 <= i < |gaps| && gaps[i].cursor.createdMs == Cut(gaps[i], oldestAllowedMs).untilMs
      :: Cut(gaps[i], oldestAllowedMs).untilMs
  }

  /** A stored gap survives a restart exactly when its readable cursor is strictly above its end. */
  lemma {:induction false} KeptIff(gaps: seq<Gap>, oldestAllowedMs: int, gap: Gap)
    ensures gap in KeptGaps(gaps, oldestAllowedMs) <==>
      && gap.cursor.readable && gap.cursor.createdMs > gap.untilMs
      && exists i :: 0 <= i < |gaps| && gap == Cut(gaps[i], oldestAllowedMs)
  {
    hide Cut;
    if gaps != [] {
      var front := gaps[..|gaps| - 1];
      KeptIff(front, oldestAllowedMs, gap);
      if gap in KeptGaps(front, oldestAllowedMs) {
        var i :| 0 <= i < |front| && gap == Cut(front[i], oldestAllowedMs);
        assert gap == Cut(gaps[i], oldestAllowedMs);
      }
      if exists i :: 0 <= i < |gaps| && gap == Cut(gaps[i], oldestAllowedMs) {
        var i :| 0 <= i < |gaps| && gap == Cut(gaps[i], oldestAllowedMs);
        if i < |front| {
          assert gap == Cut(front[i], oldestAllowedMs);
        }
      }
    }
  }

  /** The dropped instant is real: a listing can lie in a gap whose cursor is at its end, and the restart loses it. */
  lemma DroppedGapLosesListing()
    ensures var gap := Gap(Cursor(7, "b", true), 7, {});
      var l := Offer("a", 7);
      InGap(gap, l) && KeptGaps([gap], 0) == [] && 7 in DroppedAt([gap], 0)
  {
    var gap := Gap(Cursor(7, "b", true), 7, {});
    assert LexLess("a", "b");
    assert KeptGaps([gap][..0], 0) == [];
    assert [gap][0].cursor.createdMs == Cut([gap][0], 0).untilMs;
  }

  lemma DroppedHas(gaps: seq<Gap>, oldestAllowedMs: int, i: nat)
    requires i < |gaps|
    ensures var gap := Cut(gaps[i], oldestAllowedMs);
      gap.cursor.createdMs == gap.untilMs ==> gap.untilMs in DroppedAt(gaps, oldestAllowedMs)
  {
  }

  lemma KeptGapsAccount(gaps: seq<Gap>, oldestAllowedMs: int, handed: set<string>, l: Offer)
    requires GapsSound(gaps, handed) && InSomeGap(gaps, l)
    requires l.createdMs >= oldestAllowedMs && l.createdMs !in DroppedAt(gaps, oldestAllowedMs)
    ensures InSomeGap(KeptGaps(gaps, oldestAllowedMs), l)
  {
    var i :| 0 <= i < |gaps| && InGap(gaps[i], l);
    var gap := Cut(gaps[i], oldestAllowedMs);
    DroppedHas(gaps, oldestAllowedMs, i);
    KeptIff(gaps, oldestAllowedMs, gap);
    var kept := KeptGaps(gaps, oldestAllowedMs);
    var j :| 0 <= j < |kept| && kept[j] == gap;
    assert InGap(kept[j], l);
  }

  lemma KeptGapsSound(gaps: seq<Gap>, oldestAllowedMs: int, handed: set<string>)
    requires GapsSound(gaps, handed)
    ensures GapsSound(KeptGaps(gaps, oldestAllowedMs), handed)
  {
    var kept := KeptGaps(gaps, oldestAllowedMs);
    forall j | 0 <= j < |kept| ensures kept[j].cursor.readable && kept[j].skipIds <= handed {
      KeptIff(gaps, oldestAllowedMs, kept[j]);
      var i :| 0 <= i < |gaps| && kept[j] == Cut(gaps[i], oldestAllowedMs);
      assert gaps[i].cursor.readable;
    }
  }

  /** A new process resumes from the edge Redis. */
  function RestartedFromSaved(w: World, nowMs: int, maxCatchUpMs: int, order: seq<string>): World
    requires w.saved.Some?
  {
    var s := w.saved.value;
    var oldestAllowedMs := nowMs - maxCatchUpMs;
    w.(poller := Resumed(Fresh(w.poller.maxSeen), s.point, nowMs, maxCatchUpMs, order),
       low := Some(MaxInt(s.low, oldestAllowedMs)),
       dropped := s.dropped + DroppedAt(s.point.gaps, oldestAllowedMs),
       history := Puts(order))
  }

  /**
   A new process that gets nothing from the edge Redis resumes from the newest listing the backend recorded. A document
   that could not be read stays there.
   */
  function RestartedFromBackend(w: World, point: ResumePoint, nowMs: int, maxCatchUpMs: int, order: seq<string>): World {
    var poller := Resumed(Fresh(w.poller.maxSeen), point, nowMs, maxCatchUpMs, order);
    w.(poller := poller, low := poller.nextFloorMs, history := Puts(order))
  }

  /** A new process that finds no resume point at all. */
  function RestartedAnew(w: World): World {
    w.(poller := Fresh(w.poller.maxSeen), low := None, history := [])
  }

  lemma ResumedRemembers(maxSeen: nat, order: seq<string>)
    ensures RememberedAll([], order, maxSeen) == Bounded(Puts(order), maxSeen)
    ensures Keys(RememberedAll([], order, maxSeen)) <= SetOf(order)
  {
    RememberingIsHistory([], order, maxSeen);
    assert [] + Puts(order) == Puts(order);
    RememberedKeys([], order, maxSeen);
  }

  lemma ResumedCovers(w: World, nowMs: int, maxCatchUpMs: int)
    requires Inv(w) && w.saved.Some?
    ensures var s, oldest := w.saved.value, nowMs - maxCatchUpMs;
      Covers(w.view, w.handed, KeptGaps(s.point.gaps, oldest), MaxInt(s.low, oldest),
             MaxInt(s.point.newestMs - RESUME_OVERLAP_MS, oldest), s.dropped + DroppedAt(s.point.gaps, oldest))
  {
    hide KeptGaps;
    hide DroppedAt;
    hide InSomeGap;
    hide GapsSound;
    hide Bounded;
    var s, oldest := w.saved.value, nowMs - maxCatchUpMs;
    var dropped := s.dropped + DroppedAt(s.point.gaps, oldest);
    forall l | l in w.view.visible && MaxInt(s.low, oldest) <= l.createdMs < MaxInt(s.point.newestMs - RESUME_OVERLAP_MS, oldest)
               && l.createdMs !in dropped
      ensures Accounted(l, w.handed, KeptGaps(s.point.gaps, oldest))
    {
      assert Accounted(l, w.handed, s.point.gaps);
      if l.id !in w.handed {
        KeptGapsAccount(s.point.gaps, oldest, w.handed, l);
      }
    }
  }

  lemma RestartedFromSavedKeeps(w: World, nowMs: int, maxCatchUpMs: int, order: seq<string>)
    requires Inv(w) && w.saved.Some? && IsOrder(order, w.saved.value.point.recordedIds)
    ensures Inv(RestartedFromSaved(w, nowMs, maxCatchUpMs, order))
  {
    hide Covers;
    hide GapsSound;
    hide Bounded;
    hide RememberedAll;
    hide Puts;
    var s := w.saved.value;
    var kept := KeptGaps(s.point.gaps, nowMs - maxCatchUpMs);
    assert Fresh(w.poller.maxSeen).gaps + kept == kept;
    ResumedCovers(w, nowMs, maxCatchUpMs);
    KeptGapsSound(s.point.gaps, nowMs - maxCatchUpMs, w.handed);
    ResumedRemembers(w.poller.maxSeen, order);
  }

  lemma RestartedFromBackendKeeps(w: World, point: ResumePoint, nowMs: int, maxCatchUpMs: int, order: seq<string>)
    requires Inv(w) && point.gaps == [] && point.recordedIds <= w.handed && IsOrder(order, point.recordedIds)
    ensures Inv(RestartedFromBackend(w, point, nowMs, maxCatchUpMs, order))
  {
    hide Bounded;
    hide RememberedAll;
    hide Puts;
    ResumedRemembers(w.poller.maxSeen, order);
  }

  lemma RestartedAnewKeeps(w: World)
    requires Inv(w)
    ensures Inv(RestartedAnew(w))
  {
  }

  // ---- Every run ----

  datatype Step =
    | VenueMoves(view: View)
    | LivePoll(script: seq<Fetch>, views: seq<View>, order: seq<string>)
    | CatchUpPage(view: View, fetch: Fetch)
    | Note(offer: Offer)
    | Save
    | SaveFails
    | RestartFromSaved(nowMs: int, maxCatchUpMs: int, order: seq<string>)
    | RestartFromBackend(point: ResumePoint, nowMs: int, maxCatchUpMs: int, order: seq<string>)
    | RestartAnew

  ghost predicate Allowed(w: World, s: Step) {
    match s
    case VenueMoves(v) => Evolves(w.view, v)
    case LivePoll(script, views, order) => PollAllowed(w, script, views, order)
    case CatchUpPage(v, fetch) => CatchUpAllowed(w, v, fetch)
    case Note(offer) => offer.id in w.handed
    case Save => true
    case SaveFails => true
    case RestartFromSaved(_, _, order) => w.saved.Some? && IsOrder(order, w.saved.value.point.recordedIds)
    case RestartFromBackend(point, _, _, order) =>
      point.gaps == [] && point.recordedIds <= w.handed && IsOrder(order, point.recordedIds)
    case RestartAnew => true
  }

  ghost function Taken(w: World, s: Step): World
    requires Allowed(w, s)
  {
    match s
    case VenueMoves(v) => Moved(w, v)
    case LivePoll(script, views, order) => Polled(w, script, views, order)
    case CatchUpPage(v, fetch) => CaughtUpWorld(w, v, fetch)
    case Note(offer) => Noted(w, offer)
    case Save => SavedWorld(w)
    case SaveFails => SaveFailed(w)
    case RestartFromSaved(now, max, order) => RestartedFromSaved(w, now, max, order)
    case RestartFromBackend(point, now, max, order) => RestartedFromBackend(w, point, now, max, order)
    case RestartAnew => RestartedAnew(w)
  }

  lemma StepKeeps(w: World, s: Step)
    requires Inv(w) && Allowed(w, s)
    ensures Inv(Taken(w, s))
  {
    match s
    case VenueMoves(v) =>
      hide Inv;
      MovedKeeps(w, v);
    case LivePoll(script, views, order) =>
      hide Inv;
      PolledKeeps(w, script, views, order);
    case CatchUpPage(v, fetch) =>
      hide Inv;
      CaughtUpKeeps(w, v, fetch);
    case Note(offer) =>
      hide Covers;
      hide GapsSound;
      hide Bounded;
    case Save =>
      hide Inv;
      SavedKeeps(w);
    case SaveFails =>
      hide Inv;
      SaveFailedKeeps(w);
    case RestartFromSaved(now, max, order) =>
      hide Inv;
      RestartedFromSavedKeeps(w, now, max, order);
    case RestartFromBackend(point, now, max, order) =>
      hide Inv;
      RestartedFromBackendKeeps(w, point, now, max, order);
    case RestartAnew =>
      hide Inv;
      RestartedAnewKeeps(w);
  }

  ghost predicate IsStart(w: World) {
    && w.poller == Fresh(w.poller.maxSeen)
    && (forall l :: l in w.view.visible ==> l.createdMs <= w.view.horizonMs)
    && w.low.None? && w.saved.None? && w.history == []
  }

  /** A run: each world follows from the one before by one step. */
  ghost predicate IsRun(run: seq<World>) {
    && run != [] && IsStart(run[0])
    && forall i :: 0 <= i < |run| - 1 ==> Follows(run[i], run[i + 1])
  }

  ghost predicate Follows(w: World, w': World) {
    exists s :: Allowed(w, s) && w' == Taken(w, s)
  }

  lemma {:induction false} InvariantHolds(run: seq<World>, i: nat)
    requires IsRun(run) && i < |run|
    ensures Inv(run[i])
    decreases i
  {
    if i > 0 {
      hide Inv;
      InvariantHolds(run, i - 1);
      assert Follows(run[i - 1], run[i - 1 + 1]);
      var s :| Allowed(run[i - 1], s) && run[i] == Taken(run[i - 1], s);
      StepKeeps(run[i - 1], s);
    } else {
      StartIsSound(run[0]);
    }
  }

  lemma StartIsSound(w: World)
    requires IsStart(w)
    ensures Inv(w)
  {
  }

  /**
   Nothing is skipped, over every run: a visible listing created from the first floor up to the newest time read
   less LIVE_OVERLAP_MS, other than at an instant where a restart dropped a gap, has been handed on or lies in an
   open gap, between its cursor and its end.
   */
  lemma NothingSkipped(run: seq<World>, i: nat, l: Offer)
    requires IsRun(run) && i < |run|
    requires var w := run[i];
      && w.poller.newestMs.Some? && w.low.Some? && l in w.view.visible
      && w.low.value <= l.createdMs < w.poller.newestMs.value - LIVE_OVERLAP_MS && l.createdMs !in w.dropped
    ensures var w := run[i];
      l.id in w.handed
      || exists g :: 0 <= g < |w.poller.gaps| && Past(Some(w.poller.gaps[g].cursor), l) && l.createdMs >= w.poller.gaps[g].untilMs
  {
    hide Bounded;
    hide Past;
    hide GapsSound;
    hide SavedSound;
    hide IsRun;
    InvariantHolds(run, i);
    var w := run[i];
    assert Accounted(l, w.handed, w.poller.gaps);
    if l.id !in w.handed {
      var g :| 0 <= g < |w.poller.gaps| && InGap(w.poller.gaps[g], l);
    }
  }

  // ---- The bound is strict ----

  const FIRST := Offer("first", 10_000)

  /** Created LIVE_OVERLAP_MS before the first listing, and published as late as that. */
  const LATE := Offer("late", 5_000)

  const EARLY_VIEW := View({FIRST}, 10_000)

  function FirstPoll(): seq<Fetch> {
    seq(LIVE_MAX_PAGES, i => Arrived(Page([Some(FIRST)], None)))
  }

  function StrictRun(): seq<World> {
    var start := World(Fresh(1), View({}, 10_000), {}, None, {}, None, []);
    var first := Moved(start, EARLY_VIEW);
    var polled := Polled(first, FirstPoll(), seq(LIVE_MAX_PAGES, i => EARLY_VIEW), ["first"]);
    [start, first, polled, Moved(polled, View({FIRST, LATE}, 10_000))]
  }

  lemma FirstPollReads(p: State)
    requires p == Fresh(1)
    ensures LiveReading(p, FirstPoll()) == Some(Reading(Some(10_000), [Some(FIRST)], {"first"}, None, Some(10_000), false))
  {
    var r := FirstReading(p);
    var page := Page([Some(FIRST)], None);
    assert [Some(FIRST)][..0] == [];
    assert ReadEntries(r, [], None, []) == r;
    assert [] + [Some(FIRST)] == [Some(FIRST)] && {} + {"first"} == {"first"};
    assert ReadPage(r, page, None, []) == Reading(Some(10_000), [Some(FIRST)], {"first"}, None, Some(10_000), false);
    assert FirstPoll()[0] == Arrived(page);
  }

  lemma FirstPollAllowed(w: World)
    requires w.view == EARLY_VIEW && w.poller == Fresh(1)
    ensures PollAllowed(w, FirstPoll(), seq(LIVE_MAX_PAGES, i => EARLY_VIEW), ["first"])
  {
    hide LiveReading;
    var script, views := FirstPoll(), seq(LIVE_MAX_PAGES, i => EARLY_VIEW);
    var page := Page([Some(FIRST)], None);
    FirstPollReads(w.poller);
    assert SetOf(["first"]) == {"first"};
    assert Some(FIRST) in page.entries;
    forall k | 0 <= k < |script| ensures PageServed(script, views, k) {
      assert CursorAt(script, k) == None && views[k] == EARLY_VIEW;
    }
  }

  /**
   Coverage ends strictly below the newest time less LIVE_OVERLAP_MS: in this run a listing created exactly there is
   visible and lies at the start of coverage, but is neither handed on nor in a gap until the next poll.
   */
  lemma BoundIsStrict()
    ensures IsRun(StrictRun())
    ensures var w := StrictRun()[3];
      && w.poller.newestMs == Some(LATE.createdMs + LIVE_OVERLAP_MS) && w.low == Some(LATE.createdMs)
      && LATE in w.view.visible && w.dropped == {}
      && LATE.id !in w.handed && w.poller.gaps == []
  {
    hide LiveReading;
    hide RememberedAll;
    hide PollAllowed;
    var run := StrictRun();
    assert Allowed(run[0], VenueMoves(EARLY_VIEW)) && run[1] == Taken(run[0], VenueMoves(EARLY_VIEW));
    assert Follows(run[0], run[1]);
    var script, views := FirstPoll(), seq(LIVE_MAX_PAGES, i => EARLY_VIEW);
    FirstPollAllowed(run[1]);
    FirstPollReads(run[1].poller);
    var poll := LivePoll(script, views, ["first"]);
    assert Allowed(run[1], poll) && run[2] == Taken(run[1], poll);
    assert Follows(run[1], run[2]);
    var late := View({FIRST, LATE}, 10_000);
    assert run[2].view == EARLY_VIEW;
    assert Allowed(run[2], VenueMoves(late)) && run[3] == Taken(run[2], VenueMoves(late));
    assert Follows(run[2], run[3]);
    assert IdsOf([Some(FIRST)]) == {"first"};
    assert |LATE.id| != |FIRST.id|;
  }

  /** Since the process started the id was never remembered, or at least `maxSeen` other ids were after it. */
  ghost predicate Forgotten(history: seq<Item<string, ()>>, id: string, maxSeen: nat) {
    id !in Keys(history) || |PutSince(history, id)| >= maxSeen
  }

  lemma UnheldIsForgotten(history: seq<Item<string, ()>>, id: string, maxSeen: nat)
    requires id !in Keys(Bounded(history, maxSeen))
    ensures Forgotten(history, id, maxSeen)
  {
    hide Bounded;
    LruAnswers(history, id, maxSeen);
    LookupMissing(Bounded(history, maxSeen), id);
    LastValueMissing(history, id);
  }

  /** Nothing is handed on twice while it is remembered. */
  lemma NoRepeats(w: World, script: seq<Fetch>, id: string)
    requires Inv(w) && LiveReading(w.poller, script).Some? && id in IdsOf(LiveReading(w.poller, script).value.entries)
    ensures Forgotten(w.history, id, w.poller.maxSeen)
  {
    hide ReadPages;
    hide IdsOf;
    PollIdsUnseen(w.poller, script);
    UnheldIsForgotten(w.history, id, w.poller.maxSeen);
  }

  lemma {:induction false} CatchTakesForgotten(start: CatchUp, entries: seq<Option<Offer>>, gap: Gap, maxSeen: nat, history: seq<Item<string, ()>>, i: nat)
    requires start.read == [] && start.seen == Bounded(history, maxSeen)
    requires i < |IdList(CatchEntries(start, entries, gap, maxSeen).read)|
    ensures var ids := IdList(CatchEntries(start, entries, gap, maxSeen).read);
      ids[i] !in gap.skipIds && Forgotten(history + Puts(ids[..i]), ids[i], maxSeen)
  {
    hide Bounded;
    hide Remembered;
    hide RememberedAll;
    hide Holds;
    hide Forgotten;
    hide Puts;
    if entries != [] {
      var front, last := entries[..|entries| - 1], entries[|entries| - 1];
      var c := CatchEntries(start, front, gap, maxSeen);
      IdsSnoc(c.read, last);
      if i < |IdList(c.read)| {
        CatchTakesForgotten(start, front, gap, maxSeen, history, i);
        assert IdList(c.read + [last])[..i] == IdList(c.read)[..i];
      } else {
        var ids := IdList(c.read);
        assert (ids + [last.value.id])[..i] == ids;
        CatchRemembers(start, front, gap, maxSeen);
        RememberingIsHistory(history, ids, maxSeen);
        HoldsIsKeys(c.seen, last.value.id);
        UnheldIsForgotten(history + Puts(ids), last.value.id, maxSeen);
      }
    }
  }

  /** The same for each listing of a page of catching up, and none of the gap's skip ids is handed on. */
  lemma NoRepeatsCatchingUp(w: World, page: Page, i: nat)
    requires Inv(w) && w.poller.gaps != [] && i < |IdList(CaughtUp(w.poller, Arrived(page)).1)|
    ensures var ids := IdList(CaughtUp(w.poller, Arrived(page)).1);
      ids[i] !in w.poller.gaps[0].skipIds && Forgotten(w.history + Puts(ids[..i]), ids[i], w.poller.maxSeen)
  {
    hide Bounded;
    hide CatchEntries;
    hide Forgotten;
    var start := CatchUp(w.poller.seen, [], page.cursor.None? || page.entries == []);
    CatchTakesForgotten(start, page.entries, w.poller.gaps[0], w.poller.maxSeen, w.history, i);
  }

  /** After a restart the listings recorded before the save are remembered from the start. */
  lemma ResumeRemembersRecorded(w: World, nowMs: int, maxCatchUpMs: int, order: seq<string>, id: string)
    requires Inv(w) && w.saved.Some? && IsOrder(order, w.saved.value.point.recordedIds)
    ensures id in w.saved.value.point.recordedIds <==> id in Keys(RestartedFromSaved(w, nowMs, maxCatchUpMs, order).history)
  {
    HistoryKeys([], order);
    assert [] + Puts(order) == Puts(order);
  }
}
