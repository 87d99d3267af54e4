/**
 The DMarket listing poller: live polls of the newest pages, gaps read back page by page, and the listings read
 before. Fetches are scripted: each one fails or brings a page. A creation time is in Unix milliseconds.
 */
module DMarketPoller {
  import opened Texts
  import opened OrderedDict

  const LIVE_OVERLAP_MS := 5_000
  const LIVE_MAX_PAGES := 10
  const RESUME_OVERLAP_MS := 120_000

  datatype Offer = Offer(id: string, createdMs: int)

  /** A cursor names the last listing of a page; `readable` when it is the venue's own encoding of that position. */
  datatype Cursor = Cursor(createdMs: int, id: string, readable: bool)

  /** One page, newest first: an entry that does not parse is None. */
  datatype Page = Page(entries: seq<Option<Offer>>, cursor: Option<Cursor>)

  datatype Fetch = Failed | Arrived(page: Page)

  datatype Gap = Gap(cursor: Cursor, untilMs: int, skipIds: set<string>) {
    function RemainingMs(): nat {
      if cursor.readable && cursor.createdMs > untilMs then cursor.createdMs - untilMs else 0
    }
  }

  datatype ResumePoint = ResumePoint(newestMs: int, recordedIds: set<string>, gaps: seq<Gap>)

  type Seen = Dict<string, ()>

  datatype State = State(
    newestMs: Option<int>,
    gaps: seq<Gap>,
    nextFloorMs: Option<int>,
    seen: Seen,
    maxSeen: nat,
    recorded: map<string, int>)

  function Fresh(maxSeen: nat): State {
    State(None, [], None, [], maxSeen, map[])
  }

  // ---- Remembering ----

  predicate Holds(seen: Seen, id: string) {
    exists i :: 0 <= i < |seen| && seen[i].key == id
  }

  lemma HoldsIsKeys(seen: Seen, id: string)
    ensures Holds(seen, id) <==> id in Keys(seen)
  {
  }

  function Remembered(seen: Seen, id: string, maxSeen: nat): Seen {
    BoundedPut(seen, id, (), maxSeen)
  }

  function RememberedAll(seen: Seen, ids: seq<string>, maxSeen: nat): Seen {
    if ids == [] then seen else Remembered(RememberedAll(seen, ids[..|ids| - 1], maxSeen), ids[|ids| - 1], maxSeen)
  }

  function SetOf(ids: seq<string>): set<string> {
    set id | id in ids
  }

  // ---- The live poll ----

  /** What a poll has read so far: `ids` are the listings taken, `oldestMs` the oldest offer of the current page. */
  datatype Reading = Reading(
    newestMs: Option<int>,
    entries: seq<Option<Offer>>,
    ids: set<string>,
    cursor: Option<Cursor>,
    oldestMs: Option<int>,
    behind: bool)

  function FirstReading(s: State): Reading {
    Reading(s.newestMs, [], {}, None, None, false)
  }

  function Older(a: Option<int>, b: int): Option<int> {
    if a.Some? && a.value <= b then a else Some(b)
  }

  function Newer(a: Option<int>, b: int): Option<int> {
    if a.Some? && a.value >= b then a else Some(b)
  }

  function ReadEntry(r: Reading, entry: Option<Offer>, floorMs: Option<int>, seen: Seen): Reading {
    if entry.None? then r.(entries := r.entries + [entry])
    else
      var offer := entry.value;
      var noted := r.(oldestMs := Older(r.oldestMs, offer.createdMs), newestMs := Newer(r.newestMs, offer.createdMs));
      if floorMs.Some? && offer.createdMs < floorMs.value then noted
      else if Holds(seen, offer.id) || offer.id in r.ids then noted
      else noted.(ids := r.ids + {offer.id}, entries := r.entries + [entry])
  }

  function ReadEntries(r: Reading, entries: seq<Option<Offer>>, floorMs: Option<int>, seen: Seen): Reading {
    if entries == [] then r
    else ReadEntry(ReadEntries(r, entries[..|entries| - 1], floorMs, seen), entries[|entries| - 1], floorMs, seen)
  }

  function ReadPage(r: Reading, page: Page, floorMs: Option<int>, seen: Seen): Reading {
    ReadEntries(r.(oldestMs := None), page.entries, floorMs, seen)
  }

  /** The page that ends the poll: it needs no further one, or there is none. */
  predicate Stops(r: Reading, page: Page, floorMs: Option<int>) {
    floorMs.None? || page.cursor.None? || r.oldestMs.None? || r.oldestMs.value < floorMs.value
  }

  function Reply(script: seq<Fetch>, k: nat): Fetch {
    if k < |script| then script[k] else Failed
  }

  /** The pages from the `k`-th on; None when a fetch fails. */
  function ReadPages(r: Reading, k: nat, script: seq<Fetch>, floorMs: Option<int>, seen: Seen): Option<Reading>
    requires k <= LIVE_MAX_PAGES
    decreases LIVE_MAX_PAGES - k
  {
    if k == LIVE_MAX_PAGES then Some(r.(behind := true))
    else if Reply(script, k).Failed? then None
    else
      var page := script[k].page;
      var r' := ReadPage(r, page, floorMs, seen);
      if Stops(r', page, floorMs) then Some(r') else ReadPages(r'.(cursor := page.cursor), k + 1, script, floorMs, seen)
  }

  /** A poll that fell behind has a floor and a cursor, so the gap it leaves is well defined. */
  lemma {:induction false} BehindHasCursor(r: Reading, k: nat, script: seq<Fetch>, floorMs: Option<int>, seen: Seen)
    requires k <= LIVE_MAX_PAGES && !r.behind
    requires k > 0 ==> r.cursor.Some? && floorMs.Some?
    ensures var r' := ReadPages(r, k, script, floorMs, seen);
      r'.Some? && r'.value.behind ==> r'.value.cursor.Some? && floorMs.Some?
    decreases LIVE_MAX_PAGES - k
  {
    if k < LIVE_MAX_PAGES && Reply(script, k).Arrived? {
      var page := script[k].page;
      var r' := ReadPage(r, page, floorMs, seen);
      ReadKeepsBehind(r.(oldestMs := None), page.entries, floorMs, seen);
      if !Stops(r', page, floorMs) {
        BehindHasCursor(r'.(cursor := page.cursor), k + 1, script, floorMs, seen);
      }
    }
  }

  /** A page with nothing more to want behind it: it reaches below the floor, or is the last, or brings no offer. */
  ghost predicate EndsPoll(page: Page, floorMs: Option<int>) {
    floorMs.None? || page.cursor.None? || (forall entry :: entry in page.entries ==> entry.None?)
    || (exists l :: Some(l) in page.entries && l.createdMs < floorMs.value)
  }

  lemma {:induction false} OldestRead(r: Reading, entries: seq<Option<Offer>>, floorMs: Option<int>, seen: Seen)
    ensures var oldest := ReadEntries(r, entries, floorMs, seen).oldestMs;
      && (oldest.None? <==> r.oldestMs.None? && forall entry :: entry in entries ==> entry.None?)
      && (oldest.Some? ==> (r.oldestMs == oldest || exists l :: Some(l) in entries && l.createdMs == oldest.value))
      && (forall l :: Some(l) in entries ==> oldest.Some? && oldest.value <= l.createdMs)
      && (r.oldestMs.Some? ==> oldest.Some? && oldest.value <= r.oldestMs.value)
  {
    if entries != [] {
      hide ReadEntry;
      var front, last := entries[..|entries| - 1], entries[|entries| - 1];
      OldestRead(r, front, floorMs, seen);
      EntryIsNoted(ReadEntries(r, front, floorMs, seen), last, floorMs, seen);
      assert entries == front + [last];
      assert forall entry :: entry in entries <==> entry in front || entry == last;
    }
  }

  lemma EntryIsNoted(r: Reading, entry: Option<Offer>, floorMs: Option<int>, seen: Seen)
    ensures ReadEntry(r, entry, floorMs, seen).oldestMs
      == if entry.None? then r.oldestMs else Older(r.oldestMs, entry.value.createdMs)
  {
    hide Holds;
  }

  /** A page ends the poll exactly when nothing more is to be wanted behind it. */
  lemma StopsIff(r: Reading, page: Page, floorMs: Option<int>, seen: Seen)
    ensures Stops(ReadPage(r, page, floorMs, seen), page, floorMs) <==> EndsPoll(page, floorMs)
  {
    hide ReadEntries;
    OldestRead(r.(oldestMs := None), page.entries, floorMs, seen);
  }

  /** A poll asks for no page behind one that ends it: whatever the later fetches would bring, it reads the same. */
  lemma {:induction false} NothingReadBehindEnd(r: Reading, j: nat, k: nat, script: seq<Fetch>, other: seq<Fetch>, floorMs: Option<int>, seen: Seen)
    requires j <= k < LIVE_MAX_PAGES && k < |script| && k < |other| && script[..k + 1] == other[..k + 1]
    requires script[k].Arrived? && EndsPoll(script[k].page, floorMs)
    ensures ReadPages(r, j, script, floorMs, seen) == ReadPages(r, j, other, floorMs, seen)
    decreases k - j
  {
    hide ReadPage;
    hide EndsPoll;
    assert script[j] == script[..k + 1][j] == other[..k + 1][j] == other[j];
    if script[j].Arrived? {
      StopsIff(r, script[j].page, floorMs, seen);
      var r' := ReadPage(r, script[j].page, floorMs, seen);
      hide Stops;
      if j < k {
        NothingReadBehindEnd(r'.(cursor := script[j].page.cursor), j + 1, k, script, other, floorMs, seen);
      }
    }
  }

  lemma {:induction false} ReadKeepsBehind(r: Reading, entries: seq<Option<Offer>>, floorMs: Option<int>, seen: Seen)
    ensures ReadEntries(r, entries, floorMs, seen).behind == r.behind
    ensures ReadEntries(r, entries, floorMs, seen).cursor == r.cursor
  {
    if entries != [] {
      ReadKeepsBehind(r, entries[..|entries| - 1], floorMs, seen);
    }
  }

  function SkipIds(recorded: map<string, int>, floorMs: int): set<string> {
    set id | id in recorded && recorded[id] >= floorMs
  }

  /** The order in which a set of ids is gone through. */
  ghost predicate IsOrder(order: seq<string>, ids: set<string>) {
    SetOf(order) == ids && |order| == |ids|
  }

  /** The gap a poll leaves when it fell behind. */
  function NewGaps(s: State, r: Reading): seq<Gap> {
    if r.behind && r.cursor.Some? && s.nextFloorMs.Some?
    then s.gaps + [Gap(r.cursor.value, s.nextFloorMs.value, SkipIds(s.recorded, s.nextFloorMs.value))]
    else s.gaps
  }

  /** A poll whose pages all arrived moves the poller on. */
  function Settled(s: State, r: Reading, order: seq<string>): State {
    s.(gaps := NewGaps(s, r),
       seen := RememberedAll(s.seen, order, s.maxSeen),
       newestMs := r.newestMs,
       nextFloorMs := if r.newestMs.Some? then Some(r.newestMs.value - LIVE_OVERLAP_MS) else s.nextFloorMs)
  }

  function LiveReading(s: State, script: seq<Fetch>): Option<Reading> {
    ReadPages(FirstReading(s), 0, script, s.nextFloorMs, s.seen)
  }

  /** `live_poll`: a failed fetch anywhere leaves every field as it was. */
  function LivePolled(s: State, script: seq<Fetch>, order: seq<string>): State {
    var r := LiveReading(s, script);
    if r.None? then s else Settled(s, r.value, order)
  }

  // ---- What a poll hands on ----

  function SortKey(entry: Option<Offer>): int {
    if entry.Some? then entry.value.createdMs else 0
  }

  /** A stable insertion: after every entry with a key that is not greater. */
  function InsertEntry(sorted: seq<Option<Offer>>, entry: Option<Offer>): seq<Option<Offer>> {
    if sorted == [] || SortKey(sorted[|sorted| - 1]) <= SortKey(entry) then sorted + [entry]
    else InsertEntry(sorted[..|sorted| - 1], entry) + [sorted[|sorted| - 1]]
  }

  /** `read.sort(key=...)`. */
  function OldestFirst(entries: seq<Option<Offer>>): seq<Option<Offer>> {
    if entries == [] then [] else InsertEntry(OldestFirst(entries[..|entries| - 1]), entries[|entries| - 1])
  }

  ghost predicate InOrder(entries: seq<Option<Offer>>) {
    forall i, j :: 0 <= i < j < |entries| ==> SortKey(entries[i]) <= SortKey(entries[j])
  }

  lemma {:induction false} InsertKeepsEntries(sorted: seq<Option<Offer>>, entry: Option<Offer>)
    ensures multiset(InsertEntry(sorted, entry)) == multiset(sorted) + multiset{entry}
  {
    if sorted != [] {
      InsertKeepsEntries(sorted[..|sorted| - 1], entry);
      assert sorted == sorted[..|sorted| - 1] + [sorted[|sorted| - 1]];
    }
  }

  lemma SnocInOrder(front: seq<Option<Offer>>, last: Option<Offer>)
    requires InOrder(front) && forall entry :: entry in front ==> SortKey(entry) <= SortKey(last)
    ensures InOrder(front + [last])
  {
    assert forall i :: 0 <= i < |front| ==> front[i] in front;
  }

  lemma {:induction false} InsertKeepsOrder(sorted: seq<Option<Offer>>, entry: Option<Offer>)
    requires InOrder(sorted)
    ensures InOrder(InsertEntry(sorted, entry))
  {
    if sorted != [] {
      var front, last := sorted[..|sorted| - 1], sorted[|sorted| - 1];
      InsertKeepsOrder(front, entry);
      if SortKey(last) > SortKey(entry) {
        InsertKeepsEntries(front, entry);
        forall e | e in InsertEntry(front, entry) ensures SortKey(e) <= SortKey(last) {
          assert e in multiset(InsertEntry(front, entry));
          if e != entry {
            assert e in multiset(front);
          }
        }
        SnocInOrder(InsertEntry(front, entry), last);
      }
    }
  }

  /** An entry is no newer than another; one that does not parse counts as created at the epoch. */
  predicate NotNewer(a: Option<Offer>, b: Option<Offer>) {
    (if a.Some? then a.value.createdMs else 0) <= (if b.Some? then b.value.createdMs else 0)
  }

  /** Listings are handed on oldest first, and exactly those read. */
  lemma {:induction false} HandedOldestFirst(entries: seq<Option<Offer>>)
    ensures var handed := OldestFirst(entries);
      && (forall i, j :: 0 <= i < j < |handed| ==> NotNewer(handed[i], handed[j]))
      && multiset(handed) == multiset(entries)
  {
    SortedOldestFirst(entries);
  }

  lemma {:induction false} SortedOldestFirst(entries: seq<Option<Offer>>)
    ensures InOrder(OldestFirst(entries)) && multiset(OldestFirst(entries)) == multiset(entries)
  {
    hide InsertEntry;
    if entries != [] {
      var front, last := entries[..|entries| - 1], entries[|entries| - 1];
      SortedOldestFirst(front);
      hide InOrder;
      InsertKeepsOrder(OldestFirst(front), last);
      InsertKeepsEntries(OldestFirst(front), last);
      assert entries == front + [last];
    }
  }

  function IdsOf(entries: seq<Option<Offer>>): set<string> {
    set entry | entry in entries && entry.Some? :: entry.value.id
  }

  // ---- Catching up ----

  datatype CatchUp = CatchUp(seen: Seen, read: seq<Option<Offer>>, reachedEnd: bool)

  function CatchEntry(c: CatchUp, entry: Option<Offer>, gap: Gap, maxSeen: nat): CatchUp {
    if entry.None? then c.(read := c.read + [entry])
    else if entry.value.createdMs < gap.untilMs then c.(reachedEnd := true)
    else if Holds(c.seen, entry.value.id) || entry.value.id in gap.skipIds then c
    else c.(seen := Remembered(c.seen, entry.value.id, maxSeen), read := c.read + [entry])
  }

  function CatchEntries(c: CatchUp, entries: seq<Option<Offer>>, gap: Gap, maxSeen: nat): CatchUp {
    if entries == [] then c
    else CatchEntry(CatchEntries(c, entries[..|entries| - 1], gap, maxSeen), entries[|entries| - 1], gap, maxSeen)
  }

  function Caught(s: State, page: Page): CatchUp
    requires s.gaps != []
  {
    CatchEntries(CatchUp(s.seen, [], page.cursor.None? || page.entries == []), page.entries, s.gaps[0], s.maxSeen)
  }

  /** `catch_up_page`: the oldest gap's next page. */
  function CaughtUp(s: State, fetch: Fetch): (State, seq<Option<Offer>>) {
    if s.gaps == [] || fetch.Failed? then (s, [])
    else
      var c := Caught(s, fetch.page);
      var gaps := if c.reachedEnd || fetch.page.cursor.None? then s.gaps[1..]
                  else [s.gaps[0].(cursor := fetch.page.cursor.value)] + s.gaps[1..];
      (s.(seen := c.seen, gaps := gaps), c.read)
  }

  // ---- Resuming ----

  function RecordAll(recorded: map<string, int>, ids: set<string>, newestMs: int): map<string, int> {
    map id | id in recorded.Keys + ids :: if id in ids then newestMs else recorded[id]
  }

  /** A stored gap, cut at the catch-up limit. */
  function Cut(gap: Gap, oldestAllowedMs: int): Gap {
    if gap.untilMs < oldestAllowedMs then gap.(untilMs := oldestAllowedMs) else gap
  }

  /** The stored gaps that still have something to read. */
  function KeptGaps(gaps: seq<Gap>, oldestAllowedMs: int): seq<Gap> {
    if gaps == [] then []
    else
      var rest, gap := KeptGaps(gaps[..|gaps| - 1], oldestAllowedMs), Cut(gaps[|gaps| - 1], oldestAllowedMs);
      if gap.RemainingMs() > 0 then rest + [gap] else rest
  }

  function MaxInt(a: int, b: int): (larger: int)
    ensures larger >= a && larger >= b && (larger == a || larger == b)
  {
    if a >= b then a else b
  }

  /** `resume_from`, the recorded ids remembered in `order`. */
  function Resumed(s: State, point: ResumePoint, nowMs: int, maxCatchUpMs: int, order: seq<string>): State {
    var oldestAllowedMs := nowMs - maxCatchUpMs;
    s.(nextFloorMs := Some(MaxInt(point.newestMs - RESUME_OVERLAP_MS, oldestAllowedMs)),
       seen := RememberedAll(s.seen, order, s.maxSeen),
       recorded := RecordAll(s.recorded, point.recordedIds, point.newestMs),
       gaps := s.gaps + KeptGaps(point.gaps, oldestAllowedMs))
  }

  function NearNewest(recorded: map<string, int>, newestMs: int): map<string, int> {
    map id | id in recorded && recorded[id] >= newestMs - RESUME_OVERLAP_MS :: recorded[id]
  }

  /** `resume_document` first drops the recorded listings that are no longer near the newest one. */
  function Pruned(s: State): State {
    if s.newestMs.None? then s else s.(recorded := NearNewest(s.recorded, s.newestMs.value))
  }

  /** The loop over the stored gaps: each is cut, and appended if anything remains. */
  method WithKept(open: seq<Gap>, stored: seq<Gap>, oldestAllowedMs: int) returns (gaps: seq<Gap>)
    ensures gaps == open + KeptGaps(stored, oldestAllowedMs)
  {
    gaps := open;
    for i := 0 to |stored|
      invariant gaps == open + KeptGaps(stored[..i], oldestAllowedMs)
    {
      assert stored[..i + 1][..i] == stored[..i];
      var gap := stored[i];
      if gap.untilMs < oldestAllowedMs {
        gap := gap.(untilMs := oldestAllowedMs);
      }
      if gap.RemainingMs() > 0 {
        gaps := gaps + [gap];
      }
    }
    assert stored[..|stored|] == stored;
  }

  // ---- The poller, changed in place ----

  class ListingPoller {
    var newestMs: Option<int>
    var gaps: seq<Gap>
    var nextFloorMs: Option<int>
    var seen: Seen
    const maxSeen: nat
    var recorded: map<string, int>

    constructor (maxSeen: nat)
      ensures Value() == Fresh(maxSeen)
    {
      newestMs, gaps, nextFloorMs, seen, recorded := None, [], None, [], map[];
      this.maxSeen := maxSeen;
    }

    function Value(): State
      reads this
    {
      State(newestMs, gaps, nextFloorMs, seen, maxSeen, recorded)
    }

    method Remember(id: string)
      modifies this`seen
      ensures seen == Remembered(old(seen), id, maxSeen)
    {
      var all := Put(seen, id, ());
      seen := all;
      ghost var dropped := 0;
      while |seen| > maxSeen
        invariant dropped <= |all| && seen == all[dropped..] && (dropped > 0 ==> |seen| >= maxSeen)
        decreases |seen|
      {
        seen := seen[1..];
        dropped := dropped + 1;
      }
    }

    /** Goes through a set in some order. */
    method RememberEach(ids: set<string>) returns (ghost order: seq<string>)
      modifies this`seen
      ensures IsOrder(order, ids)
      ensures seen == RememberedAll(old(seen), order, maxSeen)
    {
      hide Remembered;
      order := [];
      var left := ids;
      while left != {}
        invariant left <= ids && SetOf(order) == ids - left && |order| + |left| == |ids|
        invariant seen == RememberedAll(old(seen), order, maxSeen)
        decreases |left|
      {
        var id :| id in left;
        Remember(id);
        assert (order + [id])[..|order|] == order;
        assert SetOf(order + [id]) == SetOf(order) + {id};
        order := order + [id];
        left := left - {id};
      }
    }

    method ResumeFrom(point: ResumePoint, nowMs: int, maxCatchUpMs: int) returns (ghost order: seq<string>)
      modifies this
      ensures IsOrder(order, point.recordedIds)
      ensures Value() == Resumed(old(Value()), point, nowMs, maxCatchUpMs, order)
    {
      hide KeptGaps;
      hide RememberedAll;
      hide RecordAll;
      hide IsOrder;
      var oldestAllowedMs := nowMs - maxCatchUpMs;
      nextFloorMs := Some(MaxInt(point.newestMs - RESUME_OVERLAP_MS, oldestAllowedMs));
      order := RememberEach(point.recordedIds);
      recorded := RecordAll(recorded, point.recordedIds, point.newestMs);
      gaps := WithKept(gaps, point.gaps, oldestAllowedMs);
    }

    method NoteRecorded(offer: Offer)
      modifies this`recorded
      ensures recorded == old(recorded)[offer.id := offer.createdMs]
    {
      recorded := recorded[offer.id := offer.createdMs];
    }

    method LivePoll(script: seq<Fetch>) returns (failed: bool, read: seq<Option<Offer>>, ghost order: seq<string>)
      modifies this
      ensures failed <==> LiveReading(old(Value()), script).None?
      ensures failed ==> read == [] && Value() == old(Value())
      ensures !failed ==> IsOrder(order, LiveReading(old(Value()), script).value.ids)
      ensures !failed ==> read == OldestFirst(LiveReading(old(Value()), script).value.entries)
      ensures Value() == LivePolled(old(Value()), script, order)
    {
      hide ReadPages;
      hide OldestFirst;
      read, order := [], [];
      var reading := ReadScript(Value(), script);
      if reading.None? {
        return true, [], [];
      }
      failed := false;
      var r := reading.value;
      if r.behind && r.cursor.Some? && nextFloorMs.Some? {
        gaps := gaps + [Gap(r.cursor.value, nextFloorMs.value, SkipIds(recorded, nextFloorMs.value))];
      }
      order := RememberEach(r.ids);
      newestMs := r.newestMs;
      if newestMs.Some? {
        nextFloorMs := Some(newestMs.value - LIVE_OVERLAP_MS);
      }
      read := OldestFirst(r.entries);
    }

    method CatchUpPage(fetch: Fetch) returns (read: seq<Option<Offer>>)
      modifies this
      ensures (Value(), read) == CaughtUp(old(Value()), fetch)
    {
      hide Remembered;
      read := [];
      if gaps == [] || fetch.Failed? {
        return;
      }
      var gap, page := gaps[0], fetch.page;
      var reachedEnd := page.cursor.None? || page.entries == [];
      ghost var start := CatchUp(seen, [], reachedEnd);
      for i := 0 to |page.entries|
        invariant CatchUp(seen, read, reachedEnd) == CatchEntries(start, page.entries[..i], gap, maxSeen)
        invariant Value() == old(Value()).(seen := seen)
      {
        assert page.entries[..i + 1][..i] == page.entries[..i];
        var entry := page.entries[i];
        if entry.None? {
          read := read + [entry];
        } else if entry.value.createdMs < gap.untilMs {
          reachedEnd := true;
        } else if !Holds(seen, entry.value.id) && entry.value.id !in gap.skipIds {
          Remember(entry.value.id);
          read := read + [entry];
        }
      }
      assert page.entries[..|page.entries|] == page.entries;
      if reachedEnd || page.cursor.None? {
        gaps := gaps[1..];
      } else {
        gaps := [gap.(cursor := page.cursor.value)] + gaps[1..];
      }
    }
  }

  /** The page loop of `live_poll`, on local variables only. */
  method ReadScript(s: State, script: seq<Fetch>) returns (reading: Option<Reading>)
    ensures reading == LiveReading(s, script)
  {
    hide ReadEntries;
    var r := FirstReading(s);
    var k := 0;
    while k < LIVE_MAX_PAGES
      invariant 0 <= k <= LIVE_MAX_PAGES
      invariant LiveReading(s, script) == ReadPages(r, k, script, s.nextFloorMs, s.seen)
    {
      if Reply(script, k).Failed? {
        return None;
      }
      var page := script[k].page;
      r := ReadEntriesLoop(r.(oldestMs := None), page.entries, s.nextFloorMs, s.seen);
      if Stops(r, page, s.nextFloorMs) {
        return Some(r);
      }
      r := r.(cursor := page.cursor);
      k := k + 1;
    }
    reading := Some(r.(behind := true));
  }

  method ReadEntriesLoop(first: Reading, entries: seq<Option<Offer>>, floorMs: Option<int>, seen: Seen) returns (r: Reading)
    ensures r == ReadEntries(first, entries, floorMs, seen)
  {
    r := first;
    for i := 0 to |entries|
      invariant r == ReadEntries(first, entries[..i], floorMs, seen)
    {
      assert entries[..i + 1][..i] == entries[..i];
      var entry := entries[i];
      if entry.Some? {
        var offer := entry.value;
        r := r.(oldestMs := Older(r.oldestMs, offer.createdMs), newestMs := Newer(r.newestMs, offer.createdMs));
        if floorMs.Some? && offer.createdMs < floorMs.value {
          continue;
        }
        if Holds(seen, offer.id) || offer.id in r.ids {
          continue;
        }
        r := r.(ids := r.ids + {offer.id});
      }
      r := r.(entries := r.entries + [entry]);
    }
    assert entries[..|entries|] == entries;
  }
}
