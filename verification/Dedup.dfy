/**
 The dedup rules and their memory: per venue, one LRU of items and one LRU of feed listings.

 Reference: over the whole history of ticks that were not duplicates, an item's entry is what a scan of that
 history finds, and a listing's price is the one it was last seen at.
 */
module Dedup {
  import opened Texts
  import opened OrderedDict
  import opened Ticks

  const DEDUP_WINDOW_SECONDS := 300

  datatype DedupEntry = DedupEntry(
    timestamp: nat,
    priceCents: nat,
    snapshotPriceCents: Option<nat>,
    snapshotWindowedAt: Option<nat>)

  datatype Cache = Cache(venues: map<Venue, Dict<string, DedupEntry>>, listings: map<Venue, Dict<string, nat>>)

  const EMPTY := Cache(map[], map[])

  function VenueItems(c: Cache, v: Venue): Dict<string, DedupEntry> {
    if v in c.venues then c.venues[v] else []
  }

  function VenueListings(c: Cache, v: Venue): Dict<string, nat> {
    if v in c.listings then c.listings[v] else []
  }

  function Get(c: Cache, t: Tick): Option<DedupEntry> {
    Lookup(VenueItems(c, t.venue), t.name)
  }

  function ListingPrice(c: Cache, t: Tick): Option<nat> {
    if t.listingId.None? then None else Lookup(VenueListings(c, t.venue), t.listingId.value)
  }

  predicate IsDuplicate(t: Tick, c: Cache) {
    if t.listingId.Some? then ListingPrice(c, t) == Some(t.priceCents)
    else
      var entry := Get(c, t);
      entry.Some? && t.priceCents == entry.value.priceCents && t.timestamp - entry.value.timestamp < DEDUP_WINDOW_SECONDS
  }

  predicate IsUnchangedSnapshot(t: Tick, c: Cache) {
    var entry := Get(c, t);
    entry.Some? && t.IsRestSnapshot() && entry.value.snapshotPriceCents == Some(t.priceCents)
  }

  function NextEntry(previous: Option<DedupEntry>, t: Tick, entersWindow: bool): DedupEntry {
    var price := if previous.Some? then previous.value.snapshotPriceCents else None;
    var windowedAt := if previous.Some? then previous.value.snapshotWindowedAt else None;
    DedupEntry(t.timestamp, t.priceCents,
               if t.IsRestSnapshot() then Some(t.priceCents) else price,
               if t.IsRestSnapshot() && entersWindow then Some(t.timestamp) else windowedAt)
  }

  /** `update_dedup_cache`. */
  function Updated(c: Cache, t: Tick, entersWindow: bool, limit: nat): Cache {
    var items := BoundedPut(VenueItems(c, t.venue), t.name, NextEntry(Get(c, t), t, entersWindow), limit);
    Cache(c.venues[t.venue := items],
          if t.listingId.None? then c.listings
          else c.listings[t.venue := BoundedPut(VenueListings(c, t.venue), t.listingId.value, t.priceCents, limit)])
  }

  datatype Update = Update(tick: Tick, entersWindow: bool)

  function CacheAfter(updates: seq<Update>, limit: nat): Cache {
    if updates == [] then EMPTY
    else
      var u := updates[|updates| - 1];
      Updated(CacheAfter(updates[..|updates| - 1], limit), u.tick, u.entersWindow, limit)
  }

  /** The entries put for one venue's items, in order. */
  function ItemPuts(updates: seq<Update>, v: Venue, limit: nat): seq<Item<string, DedupEntry>> {
    if updates == [] then []
    else
      var front, u := updates[..|updates| - 1], updates[|updates| - 1];
      if u.tick.venue != v then ItemPuts(front, v, limit)
      else
        var entry := NextEntry(Get(CacheAfter(front, limit), u.tick), u.tick, u.entersWindow);
        ItemPuts(front, v, limit) + [Item(u.tick.name, entry)]
  }

  /** The prices put for one venue's listings, in order. */
  function ListingPuts(updates: seq<Update>, v: Venue): seq<Item<string, nat>> {
    if updates == [] then []
    else
      var front, u := updates[..|updates| - 1], updates[|updates| - 1];
      if u.tick.venue != v || u.tick.listingId.None? then ListingPuts(front, v)
      else ListingPuts(front, v) + [Item(u.tick.listingId.value, u.tick.priceCents)]
  }

  /** Each venue's two maps are LRUs of that venue's own puts: another venue's ticks never change them. */
  lemma {:induction false} VenuesAreIndependentLrus(updates: seq<Update>, v: Venue, limit: nat)
    ensures VenueItems(CacheAfter(updates, limit), v) == Bounded(ItemPuts(updates, v, limit), limit)
    ensures VenueListings(CacheAfter(updates, limit), v) == Bounded(ListingPuts(updates, v), limit)
  {
    hide BoundedPut;
    if updates != [] {
      var front, u := updates[..|updates| - 1], updates[|updates| - 1];
      VenuesAreIndependentLrus(front, v, limit);
      var puts, prices := ItemPuts(updates, v, limit), ListingPuts(updates, v);
      if u.tick.venue == v {
        assert puts[..|puts| - 1] == ItemPuts(front, v, limit);
        if u.tick.listingId.Some? {
          assert prices[..|prices| - 1] == ListingPuts(front, v);
        }
      }
    }
  }

  function NamesSeen(updates: seq<Update>, v: Venue): set<string> {
    set u | u in updates && u.tick.venue == v :: u.tick.name
  }

  function ListingsSeen(updates: seq<Update>, v: Venue): set<string> {
    set u | u in updates && u.tick.venue == v && u.tick.listingId.Some? :: u.tick.listingId.value
  }

  lemma {:induction false} ItemPutKeys(updates: seq<Update>, v: Venue, limit: nat)
    ensures Keys(ItemPuts(updates, v, limit)) == NamesSeen(updates, v)
  {
    hide CacheAfter;
    hide NextEntry;
    if updates != [] {
      var front, u := updates[..|updates| - 1], updates[|updates| - 1];
      ItemPutKeys(front, v, limit);
      assert updates == front + [u];
      assert NamesSeen(updates, v) == NamesSeen(front, v) + if u.tick.venue == v then {u.tick.name} else {};
      if u.tick.venue == v {
        var puts := ItemPuts(updates, v, limit);
        assert puts == ItemPuts(front, v, limit) + [puts[|puts| - 1]];
        KeysConcat(ItemPuts(front, v, limit), [puts[|puts| - 1]]);
      }
    }
  }

  lemma {:induction false} ListingPutKeys(updates: seq<Update>, v: Venue)
    ensures Keys(ListingPuts(updates, v)) == ListingsSeen(updates, v)
  {
    if updates != [] {
      var front, u := updates[..|updates| - 1], updates[|updates| - 1];
      ListingPutKeys(front, v);
      assert updates == front + [u];
      var added := u.tick.venue == v && u.tick.listingId.Some?;
      assert ListingsSeen(updates, v) == ListingsSeen(front, v) + if added then {u.tick.listingId.value} else {};
      if added {
        var puts := ListingPuts(updates, v);
        assert puts == ListingPuts(front, v) + [puts[|puts| - 1]];
        KeysConcat(ListingPuts(front, v), [puts[|puts| - 1]]);
      }
    }
  }

  /** What a scan of the whole history says about one item. */
  function ItemHistory(updates: seq<Update>, v: Venue, name: string): Option<DedupEntry> {
    if LastTick(updates, v, name).None? then None
    else
      var last := LastTick(updates, v, name).value;
      Some(DedupEntry(last.timestamp, last.priceCents,
                      LastSnapshotPrice(updates, v, name), LastWindowedAt(updates, v, name)))
  }

  function LastTick(updates: seq<Update>, v: Venue, name: string): Option<Tick> {
    if updates == [] then None
    else
      var t := updates[|updates| - 1].tick;
      if t.venue == v && t.name == name then Some(t) else LastTick(updates[..|updates| - 1], v, name)
  }

  function LastSnapshotPrice(updates: seq<Update>, v: Venue, name: string): Option<nat> {
    if updates == [] then None
    else
      var t := updates[|updates| - 1].tick;
      if t.venue == v && t.name == name && t.IsRestSnapshot() then Some(t.priceCents)
      else LastSnapshotPrice(updates[..|updates| - 1], v, name)
  }

  function LastWindowedAt(updates: seq<Update>, v: Venue, name: string): Option<nat> {
    if updates == [] then None
    else
      var u := updates[|updates| - 1];
      if u.tick.venue == v && u.tick.name == name && u.tick.IsRestSnapshot() && u.entersWindow
      then Some(u.tick.timestamp)
      else LastWindowedAt(updates[..|updates| - 1], v, name)
  }

  /** The price a listing was last seen at. */
  function LastListingPrice(updates: seq<Update>, v: Venue, id: string): Option<nat> {
    if updates == [] then None
    else
      var t := updates[|updates| - 1].tick;
      if t.venue == v && t.listingId == Some(id) then Some(t.priceCents)
      else LastListingPrice(updates[..|updates| - 1], v, id)
  }

  lemma {:induction false} NeverSeen(updates: seq<Update>, v: Venue, name: string)
    requires LastTick(updates, v, name).None?
    ensures LastSnapshotPrice(updates, v, name).None? && LastWindowedAt(updates, v, name).None?
  {
    if updates != [] {
      NeverSeen(updates[..|updates| - 1], v, name);
    }
  }

  /** While a venue's items fit, the cache answers as a map over the whole history. */
  lemma {:induction false} ItemsAnswerAsHistory(updates: seq<Update>, v: Venue, name: string, limit: nat)
    requires |NamesSeen(updates, v)| <= limit
    ensures Lookup(VenueItems(CacheAfter(updates, limit), v), name) == ItemHistory(updates, v, name)
  {
    hide CacheAfter;
    hide Bounded;
    VenuesAreIndependentLrus(updates, v, limit);
    ItemPutKeys(updates, v, limit);
    NothingForgotten(ItemPuts(updates, v, limit), name, limit);
    PutsFollowHistory(updates, v, name, limit);
  }

  lemma {:induction false} PutsFollowHistory(updates: seq<Update>, v: Venue, name: string, limit: nat)
    requires |NamesSeen(updates, v)| <= limit
    ensures LastValue(ItemPuts(updates, v, limit), name) == ItemHistory(updates, v, name)
    decreases updates, 0
  {
    hide CacheAfter;
    hide Lookup;
    if updates != [] {
      var front, u := updates[..|updates| - 1], updates[|updates| - 1];
      assert NamesSeen(front, v) <= NamesSeen(updates, v);
      SubsetSize(NamesSeen(front, v), NamesSeen(updates, v));
      PutsFollowHistory(front, v, name, limit);
      if u.tick.venue == v {
        var puts := ItemPuts(updates, v, limit);
        assert puts[..|puts| - 1] == ItemPuts(front, v, limit);
        if u.tick.name == name {
          VenuesAreIndependentLrus(front, v, limit);
          ItemPutKeys(front, v, limit);
          NothingForgotten(ItemPuts(front, v, limit), name, limit);
          if LastTick(front, v, name).None? {
            NeverSeen(front, v, name);
          }
        }
      }
    }
  }

  lemma {:induction false} ListingPutsFollowHistory(updates: seq<Update>, v: Venue, id: string)
    ensures LastValue(ListingPuts(updates, v), id) == LastListingPrice(updates, v, id)
  {
    if updates != [] {
      var front, u := updates[..|updates| - 1], updates[|updates| - 1];
      ListingPutsFollowHistory(front, v, id);
      if u.tick.venue == v && u.tick.listingId.Some? {
        var prices := ListingPuts(updates, v);
        assert prices[..|prices| - 1] == ListingPuts(front, v);
      }
    }
  }

  /** While a venue's listings fit, a listing's price is the one it was last seen at. */
  lemma ListingsAnswerAsHistory(updates: seq<Update>, v: Venue, id: string, limit: nat)
    requires |ListingsSeen(updates, v)| <= limit
    ensures Lookup(VenueListings(CacheAfter(updates, limit), v), id) == LastListingPrice(updates, v, id)
  {
    hide CacheAfter;
    VenuesAreIndependentLrus(updates, v, limit);
    ListingPutKeys(updates, v);
    NothingForgotten(ListingPuts(updates, v), id, limit);
    ListingPutsFollowHistory(updates, v, id);
  }

  /** Beyond the limit, exactly the most recently seen items and listings are remembered. */
  lemma RemembersMostRecent(updates: seq<Update>, v: Venue, name: string, id: string, limit: nat)
    ensures Lookup(VenueItems(CacheAfter(updates, limit), v), name).Some?
      <==> name in NamesSeen(updates, v) && |PutSince(ItemPuts(updates, v, limit), name)| < limit
    ensures Lookup(VenueListings(CacheAfter(updates, limit), v), id).Some?
      <==> id in ListingsSeen(updates, v) && |PutSince(ListingPuts(updates, v), id)| < limit
  {
    hide CacheAfter;
    VenuesAreIndependentLrus(updates, v, limit);
    ItemPutKeys(updates, v, limit);
    ListingPutKeys(updates, v);
    LruAnswers(ItemPuts(updates, v, limit), name, limit);
    LruAnswers(ListingPuts(updates, v), id, limit);
    LastValueMissing(ItemPuts(updates, v, limit), name);
    LastValueMissing(ListingPuts(updates, v), id);
  }

  /** The duplicate rules, said about the whole history instead of the cache. */
  lemma DuplicateMeansSeen(updates: seq<Update>, t: Tick, limit: nat)
    requires |NamesSeen(updates, t.venue)| <= limit && |ListingsSeen(updates, t.venue)| <= limit
    ensures var c := CacheAfter(updates, limit);
      var last := LastTick(updates, t.venue, t.name);
      && (IsDuplicate(t, c) <==>
          if t.listingId.Some? then LastListingPrice(updates, t.venue, t.listingId.value) == Some(t.priceCents)
          else last.Some? && last.value.priceCents == t.priceCents && t.timestamp < last.value.timestamp + DEDUP_WINDOW_SECONDS)
      && (IsUnchangedSnapshot(t, c) <==>
          t.IsRestSnapshot() && LastSnapshotPrice(updates, t.venue, t.name) == Some(t.priceCents))
  {
    hide CacheAfter;
    ItemsAnswerAsHistory(updates, t.venue, t.name, limit);
    if t.listingId.Some? {
      ListingsAnswerAsHistory(updates, t.venue, t.listingId.value, limit);
    }
    if LastTick(updates, t.venue, t.name).None? {
      NeverSeen(updates, t.venue, t.name);
    }
  }

  /** The listener's dedup memory, changed in place. */
  class DedupCache {
    var venues: map<Venue, Dict<string, DedupEntry>>
    var listingPrices: map<Venue, Dict<string, nat>>
    const maxSize: nat

    constructor (maxSize: nat)
      ensures State() == EMPTY && this.maxSize == maxSize
    {
      venues, listingPrices := map[], map[];
      this.maxSize := maxSize;
    }

    function State(): Cache
      reads this
    {
      Cache(venues, listingPrices)
    }

    method Put(t: Tick, entry: DedupEntry) returns (evicted: nat)
      modifies this
      ensures venues == old(venues)[t.venue := BoundedPut(VenueItems(old(State()), t.venue), t.name, entry, maxSize)]
      ensures listingPrices == old(listingPrices)
      ensures evicted == |OrderedDict.Put(VenueItems(old(State()), t.venue), t.name, entry)| - |venues[t.venue]|
    {
      var entries := OrderedDict.Put(VenueItems(State(), t.venue), t.name, entry);
      ghost var all := entries;
      evicted := 0;
      while |entries| > maxSize
        invariant evicted <= |all| && entries == all[evicted..] && (evicted > 0 ==> |entries| >= maxSize)
        decreases |entries|
      {
        entries := entries[1..];
        evicted := evicted + 1;
      }
      venues := venues[t.venue := entries];
    }

    method PutListingPrice(t: Tick)
      modifies this
      ensures venues == old(venues)
      ensures listingPrices == if t.listingId.None? then old(listingPrices)
        else old(listingPrices)[t.venue :=
          BoundedPut(VenueListings(old(State()), t.venue), t.listingId.value, t.priceCents, maxSize)]
    {
      if t.listingId.None? {
        return;
      }
      var prices := OrderedDict.Put(VenueListings(State(), t.venue), t.listingId.value, t.priceCents);
      ghost var all, dropped := prices, 0;
      while |prices| > maxSize
        invariant dropped <= |all| && prices == all[dropped..] && (dropped > 0 ==> |prices| >= maxSize)
        decreases |prices|
      {
        prices := prices[1..];
        dropped := dropped + 1;
      }
      listingPrices := listingPrices[t.venue := prices];
    }

    /** `update_dedup_cache`. */
    method Update(t: Tick, entersWindow: bool)
      modifies this
      ensures State() == Updated(old(State()), t, entersWindow, maxSize)
    {
      var previous := Get(State(), t);
      var snapshotPriceCents := if previous.Some? then previous.value.snapshotPriceCents else None;
      var snapshotWindowedAt := if previous.Some? then previous.value.snapshotWindowedAt else None;
      if t.IsRestSnapshot() {
        snapshotPriceCents := Some(t.priceCents);
        if entersWindow {
          snapshotWindowedAt := Some(t.timestamp);
        }
      }
      var _ := Put(t, DedupEntry(t.timestamp, t.priceCents, snapshotPriceCents, snapshotWindowedAt));
      PutListingPrice(t);
    }
  }
}
