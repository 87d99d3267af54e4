/**
 Market-outcome labels. The index over sold sales (first sighting per listing, grouped, sorted, searched by
 bisection) answers as a plain filter over first sightings, and no label looks ahead: it depends only on what was
 seen up to its `label_available_at`. Times are milliseconds; the parameters of a label version are seconds.
 */
module OutcomeLabels {
  import opened Texts
  import opened Ticks
  import opened Ranks

  const OWN_SALE_CLOCK_SKEW_SECONDS := 60

  datatype LabelConfig = LabelConfig(
    venue: Venue,
    holdSeconds: nat,
    minMarginCents: nat,
    horizonSeconds: nat,
    minComparableSales: nat,
    settleSeconds: nat,
    reviseSeconds: nat,
    salesFromVenue: bool,       // sales from the venue's own history instead of the feed
    salesSettleSeconds: nat,
    itemSellerFees: bool,
    ownSaleByItem: bool)

  datatype FeedSale = FeedSale(
    listingId: string,
    name: string,
    priceCents: nat,
    seenAt: int,
    floatValue: Option<real>,
    pattern: Option<int>,
    nextListedAt: Option<int>)

  datatype ItemKey = ItemKey(name: string, float: int, pattern: Option<int>)

  /** The nearest integer; of two equally near the even one, as Python rounds the exact value of a float. */
  function RoundHalfEven(x: real): int {
    var below := x.Floor;
    var rest := x - below as real;
    if rest < 0.5 || (rest == 0.5 && below % 2 == 0) then below else below + 1
  }

  lemma RoundsToNearest(x: real, n: int)
    ensures var r := RoundHalfEven(x);
      && -0.5 <= x - r as real <= 0.5
      && (r == n <==> -0.5 < x - n as real < 0.5 || ((x - n as real == 0.5 || x - n as real == -0.5) && n % 2 == 0))
  {
  }

  /** `item_key`: floats compare at 10 decimals. */
  function KeyOf(s: FeedSale): Option<ItemKey> {
    if s.floatValue.None? then None
    else Some(ItemKey(s.name, RoundHalfEven(s.floatValue.value * 10_000_000_000.0), s.pattern))
  }

  /** Two sales are of one item exactly when name and pattern agree and both floats round to the same ten decimals. */
  lemma SameItemIff(s: FeedSale, t: FeedSale)
    ensures KeyOf(s).Some? <==> s.floatValue.Some?
    ensures s.floatValue.Some? && t.floatValue.Some? ==>
      (KeyOf(s) == KeyOf(t) <==>
         && s.name == t.name && s.pattern == t.pattern
         && RoundHalfEven(s.floatValue.value * 10_000_000_000.0) == RoundHalfEven(t.floatValue.value * 10_000_000_000.0))
  {
    hide RoundHalfEven;
  }

  // ---- First sightings ----

  predicate Earlier(a: FeedSale, b: FeedSale) {
    a.seenAt < b.seenAt || (a.seenAt == b.seenAt && a.priceCents < b.priceCents)
  }

  type Sightings = map<string, FeedSale>

  function WithSighting(first: Sightings, sale: FeedSale): Sightings {
    if sale.listingId !in first || Earlier(sale, first[sale.listingId]) then first[sale.listingId := sale] else first
  }

  function Firsts(sales: seq<FeedSale>): Sightings {
    if sales == [] then map[] else WithSighting(Firsts(sales[..|sales| - 1]), sales[|sales| - 1])
  }

  /** `first_sighting_per_listing`. */
  method FirstSightingPerListing(sales: seq<FeedSale>) returns (first: Sightings)
    ensures first == Firsts(sales)
  {
    first := map[];
    for i := 0 to |sales|
      invariant first == Firsts(sales[..i])
    {
      assert sales[..i + 1][..i] == sales[..i];
      var sale := sales[i];
      if sale.listingId !in first {
        first := first[sale.listingId := sale];
      } else {
        var current := first[sale.listingId];
        if sale.seenAt < current.seenAt || (sale.seenAt == current.seenAt && sale.priceCents < current.priceCents) {
          first := first[sale.listingId := sale];
        }
      }
    }
    assert sales[..|sales|] == sales;
  }

  /** A listing's sighting is one of its sales, and no other of its sales is earlier. */
  lemma {:induction false} FirstsAreEarliest(sales: seq<FeedSale>, id: string)
    ensures id in Firsts(sales) <==> exists s :: s in sales && s.listingId == id
    ensures id in Firsts(sales) ==>
      && Firsts(sales)[id] in sales && Firsts(sales)[id].listingId == id
      && forall s :: s in sales && s.listingId == id ==> !Earlier(s, Firsts(sales)[id])
  {
    if sales != [] {
      var front, last := sales[..|sales| - 1], sales[|sales| - 1];
      FirstsAreEarliest(front, id);
      assert sales == front + [last];
      assert forall s :: s in sales <==> s in front || s == last;
    }
  }

  /** The events seen up to a moment, in order. */
  function UpTo(sales: seq<FeedSale>, at: int): seq<FeedSale> {
    if sales == [] then []
    else if sales[|sales| - 1].seenAt <= at then UpTo(sales[..|sales| - 1], at) + [sales[|sales| - 1]]
    else UpTo(sales[..|sales| - 1], at)
  }

  /** `early` holds what `f` holds of one listing, as far as it was seen by then. */
  predicate EarlyPart(early: Sightings, f: Sightings, at: int, id: string) {
    && (id in early <==> id in f && f[id].seenAt <= at)
    && (id in early ==> early[id] == f[id])
  }

  lemma SightingKeepsEarlyPart(early: Sightings, f: Sightings, sale: FeedSale, at: int, id: string)
    requires EarlyPart(early, f, at, id) && EarlyPart(early, f, at, sale.listingId)
    ensures EarlyPart(if sale.seenAt <= at then WithSighting(early, sale) else early, WithSighting(f, sale), at, id)
  {
  }

  /** Later events add later sightings and never change an earlier one. */
  lemma {:induction false} FirstsUpTo(sales: seq<FeedSale>, at: int, id: string)
    ensures EarlyPart(Firsts(UpTo(sales, at)), Firsts(sales), at, id)
  {
    if sales != [] {
      hide WithSighting;
      hide EarlyPart;
      var front, last := sales[..|sales| - 1], sales[|sales| - 1];
      FirstsUpTo(front, at, id);
      FirstsUpTo(front, at, last.listingId);
      SightingKeepsEarlyPart(Firsts(UpTo(front, at)), Firsts(front), last, at, id);
      if last.seenAt <= at {
        assert UpTo(sales, at)[..|UpTo(sales, at)| - 1] == UpTo(front, at);
      }
    } else {
      assert EarlyPart(map[], map[], at, id);
    }
  }

  /** Both streams have the same sightings up to a moment. */
  ghost predicate SameUpTo(f: Sightings, g: Sightings, at: int) {
    && (forall id :: id in f && f[id].seenAt <= at ==> id in g && g[id] == f[id])
    && (forall id :: id in g && g[id].seenAt <= at ==> id in f && f[id] == g[id])
  }

  lemma SameSightings(sales: seq<FeedSale>, sales': seq<FeedSale>, at: int)
    requires UpTo(sales, at) == UpTo(sales', at)
    ensures SameUpTo(Firsts(sales), Firsts(sales'), at)
  {
    hide Firsts;
    var f, g := Firsts(sales), Firsts(sales');
    forall id | id in f && f[id].seenAt <= at ensures id in g && g[id] == f[id] {
      FirstsUpTo(sales, at, id);
      FirstsUpTo(sales', at, id);
    }
    forall id | id in g && g[id].seenAt <= at ensures id in f && f[id] == g[id] {
      FirstsUpTo(sales, at, id);
      FirstsUpTo(sales', at, id);
    }
  }

  ghost predicate Keyed(f: Sightings) {
    forall id :: id in f ==> f[id].listingId == id
  }

  lemma FirstsAreKeyed(sales: seq<FeedSale>)
    ensures Keyed(Firsts(sales))
  {
    forall id | id in Firsts(sales) ensures Firsts(sales)[id].listingId == id {
      FirstsAreEarliest(sales, id);
    }
  }

  // ---- Sorted sales ----

  /** The sort key (seen_at, listing_id) of every sighting the filter lets through. */
  function RanksWhere(f: Sightings, keep: FeedSale -> bool): set<Rank> {
    set id | id in f && keep(f[id]) :: Rank(f[id].seenAt, id)
  }

  lemma InRanksWhere(f: Sightings, keep: FeedSale -> bool, r: Rank)
    ensures r in RanksWhere(f, keep) <==> r.member in f && f[r.member].seenAt == r.score && keep(f[r.member])
  {
    if r.member in f && f[r.member].seenAt == r.score && keep(f[r.member]) {
      assert r == Rank(f[r.member].seenAt, r.member);
    }
  }

  ghost predicate Named(q: seq<Rank>, f: Sightings) {
    forall i :: 0 <= i < |q| ==> q[i].member in f && f[q[i].member].seenAt == q[i].score
  }

  function SalesOf(q: seq<Rank>, f: Sightings): (sales: seq<FeedSale>)
    requires Named(q, f)
    ensures |sales| == |q|
    ensures forall i :: 0 <= i < |q| ==> sales[i] == f[q[i].member]
  {
    seq(|q|, i requires 0 <= i < |q| => f[q[i].member])
  }

  /** The plain filter: the sightings let through, by (seen_at, listing_id). */
  function SalesWhere(f: Sightings, keep: FeedSale -> bool): (sales: seq<FeedSale>) {
    WhereIsNamed(f, keep);
    SalesOf(SortedOf(RanksWhere(f, keep)), f)
  }

  lemma WhereIsNamed(f: Sightings, keep: FeedSale -> bool)
    ensures Named(SortedOf(RanksWhere(f, keep)), f)
  {
    var q := SortedOf(RanksWhere(f, keep));
    SortedOfSpec(RanksWhere(f, keep));
    forall i | 0 <= i < |q| ensures q[i].member in f && f[q[i].member].seenAt == q[i].score {
      assert q[i] in Elements(q);
      InRanksWhere(f, keep, q[i]);
    }
  }

  /** What the filter lets through depends only on the sightings it lets through. */
  lemma WhereDependsOnKept(f: Sightings, g: Sightings, keep: FeedSale -> bool)
    requires forall id :: id in f && keep(f[id]) ==> id in g && g[id] == f[id]
    requires forall id :: id in g && keep(g[id]) ==> id in f && f[id] == g[id]
    ensures SalesWhere(f, keep) == SalesWhere(g, keep)
  {
    forall r ensures r in RanksWhere(f, keep) <==> r in RanksWhere(g, keep) {
      InRanksWhere(f, keep, r);
      InRanksWhere(g, keep, r);
    }
    assert RanksWhere(f, keep) == RanksWhere(g, keep);
    var q := SortedOf(RanksWhere(f, keep));
    SortedOfSpec(RanksWhere(f, keep));
    WhereIsNamed(f, keep);
    WhereIsNamed(g, keep);
    forall i | 0 <= i < |q| ensures f[q[i].member] == g[q[i].member] {
      assert q[i] in Elements(q);
      InRanksWhere(f, keep, q[i]);
    }
  }

  /** A sequence in order that holds exactly the sightings let through is the filter's. */
  lemma WhereIsUnique(q: seq<Rank>, f: Sightings, keep: FeedSale -> bool)
    requires Sorted(q) && Named(q, f)
    requires forall r :: r in q <==> r in RanksWhere(f, keep)
    ensures SalesOf(q, f) == SalesWhere(f, keep)
  {
    SortedOfSpec(RanksWhere(f, keep));
    SortedUnique(q, SortedOf(RanksWhere(f, keep)));
    WhereIsNamed(f, keep);
  }

  // ---- The index ----

  datatype SoldIndex = SoldIndex(
    firstSold: Sightings,
    timesByName: map<string, seq<int>>,
    salesByName: map<string, seq<FeedSale>>,
    salesByItem: map<ItemKey, seq<FeedSale>>)

  function TimesOf(sales: seq<FeedSale>): (times: seq<int>)
    ensures |times| == |sales|
    ensures forall i :: 0 <= i < |sales| ==> times[i] == sales[i].seenAt
  {
    seq(|sales|, i requires 0 <= i < |sales| => sales[i].seenAt)
  }

  function ByName(name: string): FeedSale -> bool {
    (s: FeedSale) => s.name == name
  }

  function ByItem(key: ItemKey): FeedSale -> bool {
    (s: FeedSale) => KeyOf(s) == Some(key)
  }

  function Get<K, V>(m: map<K, seq<V>>, k: K): seq<V> {
    if k in m then m[k] else []
  }

  /** What the index of a set of sightings answers for every name and item. */
  ghost predicate IsIndex(x: SoldIndex, f: Sightings) {
    && x.firstSold == f
    && (forall name :: Get(x.salesByName, name) == SalesWhere(f, ByName(name)))
    && (forall name :: Get(x.timesByName, name) == TimesOf(Get(x.salesByName, name)))
    && (forall key :: Get(x.salesByItem, key) == SalesWhere(f, ByItem(key)))
  }

  /** The part of a sorted sequence the filter lets through. */
  function Kept(q: seq<Rank>, f: Sightings, keep: FeedSale -> bool): seq<Rank>
    requires Named(q, f)
  {
    if q == [] then []
    else
      var front, last := q[..|q| - 1], q[|q| - 1];
      if keep(f[last.member]) then Kept(front, f, keep) + [last] else Kept(front, f, keep)
  }

  lemma {:induction false} KeptSpec(q: seq<Rank>, f: Sightings, keep: FeedSale -> bool)
    requires Named(q, f) && Sorted(q)
    ensures var kept := Kept(q, f, keep);
      && Sorted(kept) && Named(kept, f)
      && (forall r :: r in kept <==> r in q && keep(f[r.member]))
  {
    hide Less;
    if q != [] {
      var front, last := q[..|q| - 1], q[|q| - 1];
      KeptSpec(front, f, keep);
      assert q == front + [last];
      var kept := Kept(front, f, keep);
      forall i | 0 <= i < |kept| ensures Less(kept[i], last) {
        assert kept[i] in front;
        var j :| 0 <= j < |front| && front[j] == kept[i];
        assert Less(q[j], q[|q| - 1]);
      }
    }
  }

  lemma KeptOfAll(f: Sightings, keep: FeedSale -> bool)
    ensures var all := SortedOf(RanksWhere(f, (s: FeedSale) => true));
      && Named(all, f) && Sorted(all)
      && Named(Kept(all, f, keep), f)
      && SalesOf(Kept(all, f, keep), f) == SalesWhere(f, keep)
  {
    var every := (s: FeedSale) => true;
    var all := SortedOf(RanksWhere(f, every));
    SortedOfSpec(RanksWhere(f, every));
    WhereIsNamed(f, every);
    KeptSpec(all, f, keep);
    forall r ensures r in Kept(all, f, keep) <==> r in RanksWhere(f, keep) {
      InRanksWhere(f, keep, r);
      InRanksWhere(f, every, r);
      assert r in all <==> r in Elements(all);
    }
    WhereIsUnique(Kept(all, f, keep), f, keep);
  }

  /** What the build loop has filled in after the first sales of the sorted sequence. */
  ghost predicate IndexSoFar(x: SoldIndex, q: seq<Rank>, f: Sightings)
    requires Named(q, f) && Sorted(q)
  {
    && x.firstSold == f
    && (forall name :: NameSoFar(x, q, f, name))
    && (forall key :: ItemSoFar(x, q, f, key))
  }

  ghost predicate NameSoFar(x: SoldIndex, q: seq<Rank>, f: Sightings, name: string)
    requires Named(q, f) && Sorted(q)
  {
    var kept := Kept(q, f, ByName(name));
    Named(kept, f) && Get(x.salesByName, name) == SalesOf(kept, f) && Get(x.timesByName, name) == TimesOf(SalesOf(kept, f))
  }

  ghost predicate ItemSoFar(x: SoldIndex, q: seq<Rank>, f: Sightings, key: ItemKey)
    requires Named(q, f) && Sorted(q)
  {
    var kept := Kept(q, f, ByItem(key));
    Named(kept, f) && Get(x.salesByItem, key) == SalesOf(kept, f)
  }

  /** One step of the build loop. */
  function WithSale(x: SoldIndex, sale: FeedSale): SoldIndex {
    var named := x.(
      timesByName := x.timesByName[sale.name := Get(x.timesByName, sale.name) + [sale.seenAt]],
      salesByName := x.salesByName[sale.name := Get(x.salesByName, sale.name) + [sale]]);
    match KeyOf(sale)
    case None => named
    case Some(key) => named.(salesByItem := x.salesByItem[key := Get(x.salesByItem, key) + [sale]])
  }

  lemma KeptSnoc(q: seq<Rank>, r: Rank, f: Sightings, keep: FeedSale -> bool)
    requires Named(q + [r], f) && Sorted(q + [r])
    ensures Named(q, f) && Sorted(q)
    ensures r.member in f && Kept(q + [r], f, keep) == if keep(f[r.member]) then Kept(q, f, keep) + [r] else Kept(q, f, keep)
    ensures Named(Kept(q, f, keep), f) && Named(Kept(q + [r], f, keep), f)
  {
    var all := q + [r];
    assert forall i :: 0 <= i < |q| ==> all[i] == q[i];
    assert all[|q|] == r;
    assert all[..|q|] == q;
    KeptSpec(q, f, keep);
    KeptSpec(all, f, keep);
  }

  lemma SaleExtendsName(x: SoldIndex, q: seq<Rank>, r: Rank, f: Sightings, name: string)
    requires Named(q + [r], f) && Sorted(q + [r]) && Named(q, f) && Sorted(q) && r.member in f
    requires NameSoFar(x, q, f, name)
    ensures NameSoFar(WithSale(x, f[r.member]), q + [r], f, name)
  {
    hide KeyOf;
    hide Less;
    hide Kept;
    KeptSnoc(q, r, f, ByName(name));
  }

  lemma SaleExtendsItem(x: SoldIndex, q: seq<Rank>, r: Rank, f: Sightings, key: ItemKey)
    requires Named(q + [r], f) && Sorted(q + [r]) && Named(q, f) && Sorted(q) && r.member in f
    requires ItemSoFar(x, q, f, key)
    ensures ItemSoFar(WithSale(x, f[r.member]), q + [r], f, key)
  {
    hide KeyOf;
    hide Less;
    hide Kept;
    KeptSnoc(q, r, f, ByItem(key));
  }

  lemma SaleExtendsIndex(x: SoldIndex, q: seq<Rank>, r: Rank, f: Sightings)
    requires Named(q + [r], f) && Sorted(q + [r])
    requires Named(q, f) && Sorted(q) && IndexSoFar(x, q, f)
    ensures r.member in f && IndexSoFar(WithSale(x, f[r.member]), q + [r], f)
  {
    hide NameSoFar;
    hide ItemSoFar;
    hide Less;
    hide WithSale;
    assert (q + [r])[|q|] == r;
    var x' := WithSale(x, f[r.member]);
    assert x'.firstSold == f by { SaleKeepsFirsts(x, f[r.member]); }
    forall name ensures NameSoFar(x', q + [r], f, name) {
      assert NameSoFar(x, q, f, name);
      SaleExtendsName(x, q, r, f, name);
    }
    forall key ensures ItemSoFar(x', q + [r], f, key) {
      assert ItemSoFar(x, q, f, key);
      SaleExtendsItem(x, q, r, f, key);
    }
  }

  lemma SaleKeepsFirsts(x: SoldIndex, sale: FeedSale)
    ensures WithSale(x, sale).firstSold == x.firstSold
  {
  }

  /** `SoldIndex.build`: the grouped, sorted index answers as the plain filter, for every name and item. */
  method BuildIndex(sold: seq<FeedSale>) returns (x: SoldIndex)
    ensures IsIndex(x, Firsts(sold))
  {
    hide SortedOf;
    hide IndexSoFar;
    var f := FirstSightingPerListing(sold);
    x := SoldIndex(f, map[], map[], map[]);
    var every := (s: FeedSale) => true;
    var q := SortedOf(RanksWhere(f, every));
    SortedOfSpec(RanksWhere(f, every));
    WhereIsNamed(f, every);
    NothingIndexed(x, f);
    assert q[..0] == [];
    for i := 0 to |q|
      invariant Named(q[..i], f) && Sorted(q[..i]) && IndexSoFar(x, q[..i], f)
    {
      assert q[..i + 1] == q[..i] + [q[i]];
      SaleExtendsIndex(x, q[..i], q[i], f);
      x := WithSale(x, f[q[i].member]);
    }
    assert q[..|q|] == q;
    IndexComplete(x, f);
  }

  lemma NothingIndexed(x: SoldIndex, f: Sightings)
    requires x == SoldIndex(f, map[], map[], map[])
    ensures Named([], f) && Sorted([]) && IndexSoFar(x, [], f)
  {
  }

  lemma IndexComplete(x: SoldIndex, f: Sightings)
    requires var all := SortedOf(RanksWhere(f, (s: FeedSale) => true)); Named(all, f) && Sorted(all) && IndexSoFar(x, all, f)
    ensures IsIndex(x, f)
  {
    hide SortedOf;
    var all := SortedOf(RanksWhere(f, (s: FeedSale) => true));
    forall name ensures Get(x.salesByName, name) == SalesWhere(f, ByName(name)) && Get(x.timesByName, name) == TimesOf(Get(x.salesByName, name)) {
      assert NameSoFar(x, all, f, name);
      KeptOfAll(f, ByName(name));
    }
    forall key ensures Get(x.salesByItem, key) == SalesWhere(f, ByItem(key)) {
      assert ItemSoFar(x, all, f, key);
      KeptOfAll(f, ByItem(key));
    }
  }
}
