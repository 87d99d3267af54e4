/**
 The backend's bulk ingestion: the ledger of batch IDs, the item names and the rows, in one transaction. Repeats anywhere
 change nothing: each batch's rows are stored once. The payload digest is taken as injective.
 */
module Ingestion {
  import opened Texts

  datatype PriceTick = PriceTick(name: string, priceCents: int, details: string)

  datatype Payload = Payload(batchId: Option<string>, venue: string, ticks: seq<PriceTick>, feedEvents: seq<string>) {
    /** What the digest covers. */
    function Content(): Payload {
      this.(batchId := None)
    }
  }

  datatype TickRow = TickRow(itemId: nat, venue: string, priceCents: int, details: string)

  datatype EventRow = EventRow(venue: string, payload: string)

  datatype Database = Database(
    items: map<string, nat>,
    nextItemId: nat,
    ledger: map<string, Payload>,
    ticks: seq<TickRow>,
    feedEvents: seq<EventRow>)

  datatype Status = Success(ticks: nat, feedEvents: nat) | Skipped | Duplicate | Conflict | Failed

  function WithItem(db: Database, name: string): Database {
    if name in db.items then db else db.(items := db.items[name := db.nextItemId], nextItemId := db.nextItemId + 1)
  }

  function WithTicks(db: Database, ticks: seq<PriceTick>, venue: string): Database {
    if ticks == [] then db
    else
      var rest, t := WithTicks(db, ticks[..|ticks| - 1], venue), ticks[|ticks| - 1];
      var named := WithItem(rest, t.name);
      named.(ticks := named.ticks + [TickRow(named.items[t.name], venue, t.priceCents, t.details)])
  }

  function EventRows(p: Payload): seq<EventRow> {
    seq(|p.feedEvents|, i requires 0 <= i < |p.feedEvents| => EventRow(p.venue, p.feedEvents[i]))
  }

  predicate IsEmpty(p: Payload) {
    p.ticks == [] && p.feedEvents == []
  }

  /** A batch whose registration went through. */
  function Inserted(db: Database, p: Payload): Database {
    var registered := if p.batchId.Some? then db.(ledger := db.ledger[p.batchId.value := p.Content()]) else db;
    var filled := WithTicks(registered, p.ticks, p.venue);
    filled.(feedEvents := filled.feedEvents + EventRows(p))
  }

  function Ingested(db: Database, p: Payload): (Database, Status) {
    if p.batchId.Some? && p.batchId.value in db.ledger then
      (db, if db.ledger[p.batchId.value] == p.Content() then Duplicate else Conflict)
    else (Inserted(db, p), if IsEmpty(p) then Skipped else Success(|p.ticks|, |p.feedEvents|))
  }

  // ---- Many deliveries ----

  function AfterAll(db: Database, requests: seq<Payload>): Database {
    if requests == [] then db else Ingested(AfterAll(db, requests[..|requests| - 1]), requests[|requests| - 1]).0
  }

  predicate Arrived(requests: seq<Payload>, id: Option<string>) {
    exists r :: r in requests && r.batchId == id
  }

  /** Each batch at its first arrival. */
  function Firsts(requests: seq<Payload>): seq<Payload> {
    if requests == [] then []
    else
      var front, last := requests[..|requests| - 1], requests[|requests| - 1];
      if last.batchId.Some? && Arrived(front, last.batchId) then Firsts(front) else Firsts(front) + [last]
  }

  /** One ID always carries one payload, also against the ledger. */
  ghost predicate Consistent(db: Database, requests: seq<Payload>) {
    && (forall i, j :: 0 <= i < j < |requests| && requests[i].batchId.Some? && requests[i].batchId == requests[j].batchId ==>
          requests[i] == requests[j])
    && (forall i :: 0 <= i < |requests| && requests[i].batchId.Some? ==> requests[i].batchId.value !in db.ledger)
  }

  lemma {:induction false} TicksKeepLedger(db: Database, ticks: seq<PriceTick>, venue: string)
    ensures WithTicks(db, ticks, venue).ledger == db.ledger
  {
    if ticks != [] {
      TicksKeepLedger(db, ticks[..|ticks| - 1], venue);
    }
  }

  lemma ArrivedSnoc(front: seq<Payload>, last: Payload, id: Option<string>)
    ensures Arrived(front + [last], id) <==> Arrived(front, id) || last.batchId == id
  {
    assert forall r :: r in front + [last] <==> r in front || r == last;
  }

  lemma {:induction false} LedgerHasArrivals(db: Database, requests: seq<Payload>, id: string)
    requires id !in db.ledger
    ensures id in AfterAll(db, requests).ledger <==> Arrived(requests, Some(id))
  {
    hide Inserted;
    hide Arrived;
    if requests == [] {
      NothingArrived(Some(id));
    } else {
      var front, last := requests[..|requests| - 1], requests[|requests| - 1];
      assert requests == front + [last];
      LedgerHasArrivals(db, front, id);
      ArrivedSnoc(front, last, Some(id));
      InsertedLedger(AfterAll(db, front), last);
    }
  }

  lemma NothingArrived(id: Option<string>)
    ensures !Arrived([], id)
  {
  }

  lemma SameIdSamePayload(db: Database, requests: seq<Payload>, p: Payload, q: Payload)
    requires Consistent(db, requests) && p in requests && q in requests && p.batchId.Some? && p.batchId == q.batchId
    ensures p == q
  {
    var i :| 0 <= i < |requests| && requests[i] == p;
    var j :| 0 <= j < |requests| && requests[j] == q;
  }

  /** The ledger after any deliveries: every ID that arrived, with its content. */
  lemma {:induction false} LedgerIsArrivals(db: Database, requests: seq<Payload>, p: Payload)
    requires Consistent(db, requests) && p in requests && p.batchId.Some?
    ensures p.batchId.value in AfterAll(db, requests).ledger && AfterAll(db, requests).ledger[p.batchId.value] == p.Content()
  {
    hide Inserted;
    var front, last := requests[..|requests| - 1], requests[|requests| - 1];
    var before := AfterAll(db, front);
    assert requests == front + [last];
    ConsistentFront(db, requests);
    InsertedLedger(before, last);
    assert p.batchId.value !in db.ledger;
    if Arrived(front, p.batchId) {
      var r :| r in front && r.batchId == p.batchId;
      assert r in requests;
      SameIdSamePayload(db, requests, p, r);
      hide Consistent;
      LedgerIsArrivals(db, front, p);
    } else {
      LedgerHasArrivals(db, front, p.batchId.value);
      assert p == last;
    }
  }

  lemma InsertedLedger(db: Database, p: Payload)
    ensures Inserted(db, p).ledger == if p.batchId.Some? then db.ledger[p.batchId.value := p.Content()] else db.ledger
  {
    var registered := if p.batchId.Some? then db.(ledger := db.ledger[p.batchId.value := p.Content()]) else db;
    TicksKeepLedger(registered, p.ticks, p.venue);
  }

  lemma ConsistentFront(db: Database, requests: seq<Payload>)
    requires requests != [] && Consistent(db, requests)
    ensures Consistent(db, requests[..|requests| - 1])
  {
  }

  /** At-least-once in, exactly once stored: repeats anywhere in the sequence change nothing. */
  lemma {:induction false} RepeatsChangeNothing(db: Database, requests: seq<Payload>)
    requires Consistent(db, requests)
    ensures AfterAll(db, requests) == AfterAll(db, Firsts(requests))
  {
    hide Inserted;
    if requests != [] {
      var front, last := requests[..|requests| - 1], requests[|requests| - 1];
      ConsistentFront(db, requests);
      RepeatsChangeNothing(db, front);
      if last.batchId.Some? {
        LedgerHasArrivals(db, front, last.batchId.value);
      }
      if !(last.batchId.Some? && Arrived(front, last.batchId)) {
        assert (Firsts(front) + [last])[..|Firsts(front)|] == Firsts(front);
      }
    }
  }

  /** A repeat is answered as a duplicate, an ID with another payload as a conflict; neither writes anything. */
  lemma RepeatIsDuplicate(db: Database, requests: seq<Payload>, p: Payload)
    requires Consistent(db, requests) && p.batchId.Some? && p.batchId.value !in db.ledger && Arrived(requests, p.batchId)
    ensures Ingested(AfterAll(db, requests), p) == (AfterAll(db, requests), if p in requests then Duplicate else Conflict)
  {
    hide AfterAll;
    hide Inserted;
    var r :| r in requests && r.batchId == p.batchId;
    LedgerIsArrivals(db, requests, r);
    assert p.Content() == r.Content() ==> p == r;
    if p in requests {
      SameIdSamePayload(db, requests, p, r);
    }
  }

  // ---- The request handler ----

  /** Every name has an ID of its own, below the next one. */
  ghost predicate ItemsSound(db: Database) {
    && (forall a, b :: a in db.items && b in db.items && db.items[a] == db.items[b] ==> a == b)
    && (forall a :: a in db.items ==> db.items[a] < db.nextItemId)
  }

  lemma {:induction false} TicksKeepItems(db: Database, ticks: seq<PriceTick>, venue: string)
    requires ItemsSound(db)
    ensures ItemsSound(WithTicks(db, ticks, venue))
    ensures forall a :: a in db.items ==> a in WithTicks(db, ticks, venue).items && WithTicks(db, ticks, venue).items[a] == db.items[a]
  {
    if ticks != [] {
      TicksKeepItems(db, ticks[..|ticks| - 1], venue);
    }
  }

  // ---- What is stored ----

  /** One row for each tick, in order, with the ID its name has. */
  ghost predicate TickRowsOf(rows: seq<TickRow>, p: Payload, db: Database) {
    && |rows| == |p.ticks|
    && forall k :: 0 <= k < |rows| ==>
         && p.ticks[k].name in db.items && rows[k].itemId == db.items[p.ticks[k].name]
         && rows[k].venue == p.venue && rows[k].priceCents == p.ticks[k].priceCents && rows[k].details == p.ticks[k].details
  }

  /** One row for each feed event, in order. */
  ghost predicate EventRowsOf(rows: seq<EventRow>, p: Payload) {
    && |rows| == |p.feedEvents|
    && forall k :: 0 <= k < |rows| ==> rows[k].venue == p.venue && rows[k].payload == p.feedEvents[k]
  }

  /** The tables hold the rows of a batch, from given places on. */
  ghost predicate HoldsRows(db: Database, p: Payload, ticksAt: nat, eventsAt: nat) {
    && ticksAt + |p.ticks| <= |db.ticks| && TickRowsOf(db.ticks[ticksAt..ticksAt + |p.ticks|], p, db)
    && eventsAt + |p.feedEvents| <= |db.feedEvents| && EventRowsOf(db.feedEvents[eventsAt..eventsAt + |p.feedEvents|], p)
  }

  /** Rows are only ever added, and no name loses its ID. */
  ghost predicate Extends(db: Database, db': Database) {
    && db.ticks <= db'.ticks && db.feedEvents <= db'.feedEvents
    && forall name :: name in db.items ==> name in db'.items && db'.items[name] == db.items[name]
  }

  lemma WithItemHas(db: Database, name: string)
    ensures var db' := WithItem(db, name);
      && name in db'.items && db' == db.(items := db'.items, nextItemId := db'.nextItemId)
      && forall other :: other in db.items ==> other in db'.items && db'.items[other] == db.items[other]
  {
  }

  lemma TickRowsSnoc(rows: seq<TickRow>, row: TickRow, p: Payload, db: Database, db': Database)
    requires p.ticks != [] && TickRowsOf(rows, p.(ticks := p.ticks[..|p.ticks| - 1]), db)
    requires forall name :: name in db.items ==> name in db'.items && db'.items[name] == db.items[name]
    requires var t := p.ticks[|p.ticks| - 1];
      t.name in db'.items && row == TickRow(db'.items[t.name], p.venue, t.priceCents, t.details)
    ensures TickRowsOf(rows + [row], p, db')
  {
  }

  lemma {:induction false} TicksInsertRows(db: Database, p: Payload)
    ensures var db' := WithTicks(db, p.ticks, p.venue);
      && db.ticks <= db'.ticks && TickRowsOf(db'.ticks[|db.ticks|..], p, db')
      && db'.feedEvents == db.feedEvents
      && forall name :: name in db.items ==> name in db'.items && db'.items[name] == db.items[name]
    decreases |p.ticks|
  {
    hide WithItem;
    hide TickRowsOf;
    if p.ticks == [] {
      NoTickRows(db, p);
    } else {
      var front, t := p.(ticks := p.ticks[..|p.ticks| - 1]), p.ticks[|p.ticks| - 1];
      TicksInsertRows(db, front);
      var before := WithTicks(db, front.ticks, p.venue);
      var named := WithItem(before, t.name);
      WithItemHas(before, t.name);
      var row := TickRow(named.items[t.name], p.venue, t.priceCents, t.details);
      var db' := named.(ticks := named.ticks + [row]);
      assert WithTicks(db, p.ticks, p.venue) == db';
      hide WithTicks;
      TickRowsSnoc(before.ticks[|db.ticks|..], row, p, before, db');
      assert db'.ticks[|db.ticks|..] == before.ticks[|db.ticks|..] + [row];
    }
  }

  lemma NoTickRows(db: Database, p: Payload)
    requires p.ticks == []
    ensures TickRowsOf(db.ticks[|db.ticks|..], p, db)
  {
  }

  /** A batch that arrives for the first time adds its own rows, each once, and nothing else. */
  lemma ArrivalInsertsRows(db: Database, p: Payload)
    ensures var db' := Inserted(db, p);
      && Extends(db, db') && HoldsRows(db', p, |db.ticks|, |db.feedEvents|)
      && |db'.ticks| == |db.ticks| + |p.ticks| && |db'.feedEvents| == |db.feedEvents| + |p.feedEvents|
  {
    hide WithTicks;
    var registered := if p.batchId.Some? then db.(ledger := db.ledger[p.batchId.value := p.Content()]) else db;
    TicksInsertRows(registered, p);
    var db' := Inserted(db, p);
    assert db'.ticks[|db.ticks|..|db.ticks| + |p.ticks|] == db'.ticks[|db.ticks|..];
    assert db'.feedEvents[|db.feedEvents|..|db.feedEvents| + |p.feedEvents|] == EventRows(p);
  }

  lemma StillHoldsRows(db: Database, db': Database, p: Payload, ticksAt: nat, eventsAt: nat)
    requires Extends(db, db') && HoldsRows(db, p, ticksAt, eventsAt)
    ensures HoldsRows(db', p, ticksAt, eventsAt)
  {
    assert db'.ticks[ticksAt..ticksAt + |p.ticks|] == db.ticks[ticksAt..ticksAt + |p.ticks|];
    assert db'.feedEvents[eventsAt..eventsAt + |p.feedEvents|] == db.feedEvents[eventsAt..eventsAt + |p.feedEvents|];
  }

  function TickCount(batches: seq<Payload>): nat {
    if batches == [] then 0 else TickCount(batches[..|batches| - 1]) + |batches[|batches| - 1].ticks|
  }

  function EventCount(batches: seq<Payload>): nat {
    if batches == [] then 0 else EventCount(batches[..|batches| - 1]) + |batches[|batches| - 1].feedEvents|
  }

  /** The tables after some deliveries: what was there, and the rows of each batch, batch by batch. */
  ghost predicate HoldsBatches(db: Database, batches: seq<Payload>, db': Database) {
    && Extends(db, db')
    && |db'.ticks| == |db.ticks| + TickCount(batches) && |db'.feedEvents| == |db.feedEvents| + EventCount(batches)
    && forall i :: 0 <= i < |batches| ==>
         HoldsRows(db', batches[i], |db.ticks| + TickCount(batches[..i]), |db.feedEvents| + EventCount(batches[..i]))
  }

  lemma ExtendsFurther(a: Database, b: Database, c: Database)
    requires Extends(a, b) && Extends(b, c)
    ensures Extends(a, c)
  {
  }

  lemma CountsOneMore(batches: seq<Payload>, p: Payload)
    ensures TickCount(batches + [p]) == TickCount(batches) + |p.ticks| && EventCount(batches + [p]) == EventCount(batches) + |p.feedEvents|
  {
    assert (batches + [p])[..|batches|] == batches;
  }

  lemma HoldsOneMore(db: Database, batches: seq<Payload>, db': Database, p: Payload)
    requires HoldsBatches(db, batches, db')
    ensures HoldsBatches(db, batches + [p], Inserted(db', p))
  {
    hide HoldsRows;
    hide TickCount;
    hide EventCount;
    hide Extends;
    hide Inserted;
    var all, db'' := batches + [p], Inserted(db', p);
    ArrivalInsertsRows(db', p);
    ExtendsFurther(db, db', db'');
    CountsOneMore(batches, p);
    forall i | 0 <= i < |all|
      ensures HoldsRows(db'', all[i], |db.ticks| + TickCount(all[..i]), |db.feedEvents| + EventCount(all[..i]))
    {
      assert all[..i] == batches[..i];
      if i < |batches| {
        StillHoldsRows(db', db'', batches[i], |db.ticks| + TickCount(batches[..i]), |db.feedEvents| + EventCount(batches[..i]));
      }
    }
  }

  /**
   Exactly once: after any consistent deliveries, repeats included, the tables hold what they held before and the rows of
   each batch once, in the order of first arrival, and nothing else.
   */
  lemma {:induction false} TablesHoldArrivals(db: Database, requests: seq<Payload>)
    requires Consistent(db, requests)
    ensures HoldsBatches(db, Firsts(requests), AfterAll(db, requests))
  {
    hide HoldsBatches;
    hide Inserted;
    if requests == [] {
      HoldsNone(db);
    } else {
      var front, last := requests[..|requests| - 1], requests[|requests| - 1];
      ConsistentFront(db, requests);
      TablesHoldArrivals(db, front);
      if last.batchId.Some? {
        LedgerHasArrivals(db, front, last.batchId.value);
      }
      HoldsOneMore(db, Firsts(front), AfterAll(db, front), last);
    }
  }

  lemma HoldsNone(db: Database)
    ensures HoldsBatches(db, [], db)
  {
  }

  /** The name of a row: the only one whose ID it carries. */
  lemma RowNamesItem(db: Database, p: Payload, ticksAt: nat, eventsAt: nat, k: nat, name: string)
    requires ItemsSound(db) && HoldsRows(db, p, ticksAt, eventsAt) && k < |p.ticks|
    ensures name in db.items && db.items[name] == db.ticks[ticksAt + k].itemId <==> name == p.ticks[k].name
  {
    assert db.ticks[ticksAt..ticksAt + |p.ticks|][k] == db.ticks[ticksAt + k];
  }

  ghost predicate CacheSound(cache: map<string, nat>, db: Database) {
    forall name :: name in cache ==> name in db.items && cache[name] == db.items[name]
  }

  class Backend {
    var db: Database
    var itemCache: map<string, nat>

    constructor (db: Database)
      ensures this.db == db && itemCache == map[]
    {
      this.db, itemCache := db, map[];
    }

    ghost predicate Valid()
      reads this
    {
      ItemsSound(db) && CacheSound(itemCache, db)
    }

    /**
     `process_bulk_ingestion`: all of a batch or nothing. `failsAt` is the tick at which the transaction breaks, if it
     does, and `commitFails` a break after the last tick, in an insert or the commit; then the tables and the item cache
     are as before.
     */
    method ProcessBulkIngestion(p: Payload, failsAt: Option<nat>, commitFails: bool) returns (status: Status)
      requires Valid()
      modifies this
      ensures Valid()
      ensures status == Failed ==> db == old(db) && itemCache == old(itemCache)
      ensures status != Failed ==> (db, status) == Ingested(old(db), p)
      ensures failsAt.None? && !commitFails ==> status != Failed
    {
      hide WithTicks;
      if p.batchId.Some? && p.batchId.value in db.ledger {
        if db.ledger[p.batchId.value] != p.Content() {
          return Conflict;
        }
        return if commitFails then Failed else Duplicate;
      }
      var session := db;
      if p.batchId.Some? {
        session := session.(ledger := session.ledger[p.batchId.value := p.Content()]);
      }
      if p.ticks == [] && p.feedEvents == [] {
        NoRows(session, p);
        if p.batchId.Some? && commitFails {
          return Failed;
        }
        db := session;
        return Skipped;
      }
      var pending, failed;
      session, pending, failed := InsertTicks(session, itemCache, p, failsAt);
      if failed {
        return Failed;
      }
      session := session.(feedEvents := session.feedEvents + EventRows(p));
      if commitFails {
        return Failed;
      }
      db := session;
      itemCache := itemCache + pending;
      status := Success(|p.ticks|, |p.feedEvents|);
    }
  }

  lemma NoRows(db: Database, p: Payload)
    requires IsEmpty(p)
    ensures WithTicks(db, p.ticks, p.venue) == db && db.feedEvents + EventRows(p) == db.feedEvents
  {
  }

  lemma NothingCached(db: Database)
    ensures CacheSound(map[], db)
  {
  }

  /** One more tick of the batch. */
  lemma OneMoreTick(start: Database, p: Payload, i: nat)
    requires i < |p.ticks|
    ensures var before, t := WithTicks(start, p.ticks[..i], p.venue), p.ticks[i];
      var named := WithItem(before, t.name);
      && t.name in named.items
      && WithTicks(start, p.ticks[..i + 1], p.venue)
        == named.(ticks := named.ticks + [TickRow(named.items[t.name], p.venue, t.priceCents, t.details)])
  {
    assert p.ticks[..i + 1][..i] == p.ticks[..i];
  }

  /** One name to its ID: from the cache, then from this batch, then from the table, where a new row may be made. */
  method GetOrCreateItemId(db: Database, cache: map<string, nat>, found: map<string, nat>, name: string)
    returns (session: Database, pending: map<string, nat>, itemId: nat)
    requires ItemsSound(db) && CacheSound(cache, db) && CacheSound(found, db)
    ensures session == WithItem(db, name) && name in session.items && itemId == session.items[name]
    ensures ItemsSound(session) && CacheSound(cache, session) && CacheSound(pending, session)
  {
    CachedIsThere(db, cache, name);
    CachedIsThere(db, found, name);
    WithItemSound(db, cache, name);
    WithItemSound(db, found, name);
    hide ItemsSound;
    hide CacheSound;
    hide WithItem;
    session, pending := db, found;
    if name in cache {
      itemId := cache[name];
    } else if name in pending {
      itemId := pending[name];
    } else {
      session := WithItem(session, name);
      itemId := session.items[name];
      pending := pending[name := itemId];
    }
  }

  lemma CachedIsThere(db: Database, cache: map<string, nat>, name: string)
    requires CacheSound(cache, db)
    ensures name in cache ==> WithItem(db, name) == db && name in db.items && db.items[name] == cache[name]
  {
  }

  /** A name made sure of keeps items and caches right, with or without its ID in the cache. */
  lemma WithItemSound(db: Database, cache: map<string, nat>, name: string)
    requires ItemsSound(db) && CacheSound(cache, db)
    ensures var db' := WithItem(db, name);
      name in db'.items && ItemsSound(db') && CacheSound(cache, db') && CacheSound(cache[name := db'.items[name]], db')
  {
  }

  lemma RowsKeepSound(db: Database, rows: seq<TickRow>, cache: map<string, nat>, pending: map<string, nat>)
    requires ItemsSound(db) && CacheSound(cache, db) && CacheSound(pending, db)
    ensures ItemsSound(db.(ticks := rows)) && CacheSound(cache, db.(ticks := rows)) && CacheSound(pending, db.(ticks := rows))
  {
  }

  /** The tick loop, inside the transaction: names resolve from the cache, then from this batch, then from the table. */
  method InsertTicks(start: Database, cache: map<string, nat>, p: Payload, failsAt: Option<nat>)
    returns (session: Database, pending: map<string, nat>, failed: bool)
    requires ItemsSound(start) && CacheSound(cache, start)
    ensures !failed ==> session == WithTicks(start, p.ticks, p.venue)
    ensures ItemsSound(session) && CacheSound(cache, session) && CacheSound(pending, session)
    ensures failsAt.None? ==> !failed
  {
    hide WithTicks;
    hide ItemsSound;
    hide CacheSound;
    NothingCached(start);
    session, pending, failed := start, map[], false;
    NoRows(start, p.(ticks := [], feedEvents := []));
    assert p.ticks[..0] == [];
    for i := 0 to |p.ticks|
      invariant session == WithTicks(start, p.ticks[..i], p.venue)
      invariant ItemsSound(session) && CacheSound(cache, session) && CacheSound(pending, session)
    {
      OneMoreTick(start, p, i);
      if failsAt == Some(i) {
        failed := true;
        return;
      }
      var t := p.ticks[i];
      var itemId;
      session, pending, itemId := GetOrCreateItemId(session, cache, pending, t.name);
      RowsKeepSound(session, session.ticks + [TickRow(itemId, p.venue, t.priceCents, t.details)], cache, pending);
      session := session.(ticks := session.ticks + [TickRow(itemId, p.venue, t.priceCents, t.details)]);
    }
    assert p.ticks[..|p.ticks|] == p.ticks;
  }
}
