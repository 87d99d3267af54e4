/**
 Labels built on the index of sold sales, one listing and a whole run, each proved against plain filters over first
 sightings. Nothing after `label_available_at` can change a label, and none comes before its time.
 */
module Labeling {
  import opened Texts
  import opened Ranks
  import opened OutcomeLabels
  import Scoring

  // ---- Bisection ----

  ghost predicate Ascending(times: seq<int>) {
    forall i, j :: 0 <= i < j < |times| ==> times[i] <= times[j]
  }

  method BisectLeft(times: seq<int>, x: int) returns (lo: nat)
    requires Ascending(times)
    ensures lo <= |times|
    ensures forall i :: 0 <= i < lo ==> times[i] < x
    ensures forall i :: lo <= i < |times| ==> times[i] >= x
  {
    lo := 0;
    var hi := |times|;
    while lo < hi
      invariant lo <= hi <= |times|
      invariant forall i :: 0 <= i < lo ==> times[i] < x
      invariant forall i :: hi <= i < |times| ==> times[i] >= x
    {
      var mid := (lo + hi) / 2;
      if times[mid] < x { lo := mid + 1; } else { hi := mid; }
    }
  }

  method BisectRight(times: seq<int>, x: int) returns (lo: nat)
    requires Ascending(times)
    ensures lo == Before(times, x)
    ensures lo <= |times|
    ensures forall i :: 0 <= i < lo ==> times[i] <= x
    ensures forall i :: lo <= i < |times| ==> times[i] > x
  {
    lo := 0;
    var hi := |times|;
    while lo < hi
      invariant lo <= hi <= |times|
      invariant forall i :: 0 <= i < lo ==> times[i] <= x
      invariant forall i :: hi <= i < |times| ==> times[i] > x
    {
      var mid := (lo + hi) / 2;
      if x < times[mid] { hi := mid; } else { lo := mid + 1; }
    }
    BeforeIs(times, x, lo);
  }

  /** How many times of an ascending list are at or before `x`. */
  function Before(times: seq<int>, x: int): (n: nat)
    ensures n <= |times|
  {
    if times == [] then 0
    else if times[|times| - 1] <= x then |times|
    else Before(times[..|times| - 1], x)
  }

  lemma {:induction false} BeforeIs(times: seq<int>, x: int, n: nat)
    requires n <= |times|
    requires forall i :: 0 <= i < n ==> times[i] <= x
    requires forall i :: n <= i < |times| ==> times[i] > x
    ensures Before(times, x) == n
  {
    if n < |times| {
      BeforeIs(times[..|times| - 1], x, n);
    }
  }

  // ---- Comparable sales ----

  function InWindow(name: string, start: int, end: int, exclude: string): FeedSale -> bool {
    (s: FeedSale) => s.name == name && start <= s.seenAt <= end && s.listingId != exclude
  }

  function PricesOf(sales: seq<FeedSale>): (prices: seq<nat>)
    ensures |prices| == |sales|
    ensures forall i :: 0 <= i < |sales| ==> prices[i] == sales[i].priceCents
  {
    seq(|sales|, i requires 0 <= i < |sales| => sales[i].priceCents)
  }

  /** The plain filter: prices of the item's sightings inside [start, end], without one listing. */
  function Comparable(f: Sightings, name: string, start: int, end: int, exclude: string): seq<nat> {
    PricesOf(SalesWhere(f, InWindow(name, start, end, exclude)))
  }

  /** The slice the bisection finds, without the excluded listing, is the plain filter. */
  lemma SliceIsFilter(f: Sightings, name: string, start: int, end: int, exclude: string, first: nat, last: nat)
    requires Keyed(f)
    requires var q := SortedOf(RanksWhere(f, ByName(name)));
      && first <= last <= |q|
      && (forall i :: 0 <= i < first ==> q[i].score < start) && (forall i :: first <= i < |q| ==> q[i].score >= start)
      && (forall i :: 0 <= i < last ==> q[i].score <= end) && (forall i :: last <= i < |q| ==> q[i].score > end)
    ensures var slice := SortedOf(RanksWhere(f, ByName(name)))[first..last];
      var others := (s: FeedSale) => s.listingId != exclude;
      && Sorted(slice) && Named(slice, f) && Named(Kept(slice, f, others), f)
      && SalesOf(Kept(slice, f, others), f) == SalesWhere(f, InWindow(name, start, end, exclude))
  {
    hide SortedOf;
    hide Less;
    var q := SortedOf(RanksWhere(f, ByName(name)));
    var slice := q[first..last];
    var others := (s: FeedSale) => s.listingId != exclude;
    SortedOfSpec(RanksWhere(f, ByName(name)));
    WhereIsNamed(f, ByName(name));
    assert forall i :: 0 <= i < |slice| ==> slice[i] == q[first + i];
    KeptSpec(slice, f, others);
    forall r ensures r in Kept(slice, f, others) <==> r in RanksWhere(f, InWindow(name, start, end, exclude)) {
      InRanksWhere(f, InWindow(name, start, end, exclude), r);
      InRanksWhere(f, ByName(name), r);
      InSlice(q, r, first, last, start, end);
      assert r in q <==> r in Elements(q);
    }
    WhereIsUnique(Kept(slice, f, others), f, InWindow(name, start, end, exclude));
  }

  lemma InSlice(q: seq<Rank>, r: Rank, first: nat, last: nat, start: int, end: int)
    requires first <= last <= |q|
    requires (forall i :: 0 <= i < first ==> q[i].score < start) && (forall i :: first <= i < |q| ==> q[i].score >= start)
    requires (forall i :: 0 <= i < last ==> q[i].score <= end) && (forall i :: last <= i < |q| ==> q[i].score > end)
    ensures r in q[first..last] <==> r in q && start <= r.score <= end
  {
    if r in q && start <= r.score <= end {
      var i :| 0 <= i < |q| && q[i] == r;
      assert q[first..last][i - first] == r;
    }
  }

  /** Nothing lies in a window that ends before it starts. */
  lemma EmptyWindow(f: Sightings, name: string, start: int, end: int, exclude: string)
    requires start > end
    ensures Comparable(f, name, start, end, exclude) == []
  {
    assert RanksWhere(f, InWindow(name, start, end, exclude)) == {};
  }

  /** `SoldIndex.comparable_prices`. */
  method ComparablePrices(x: SoldIndex, ghost f: Sightings, name: string, start: int, end: int, exclude: string)
    returns (prices: seq<nat>)
    requires Keyed(f) && IsIndex(x, f)
    ensures prices == Comparable(f, name, start, end, exclude)
  {
    hide SortedOf;
    hide Less;
    hide LexLess;
    hide Kept;
    var times, sales := Get(x.timesByName, name), Get(x.salesByName, name);
    ghost var q := SortedOf(RanksWhere(f, ByName(name)));
    TimesAscend(f, name);
    var first := BisectLeft(times, start);
    var last := BisectRight(times, end);
    prices := [];
    if first > last {
      assert end < times[last] < start;
      EmptyWindow(f, name, start, end, exclude);
      return;
    }
    SliceIsFilter(f, name, start, end, exclude, first, last);
    prices := PricesExcept(q[first..last], f, sales[first..last], exclude);
  }

  lemma TimesAscend(f: Sightings, name: string)
    ensures var q := SortedOf(RanksWhere(f, ByName(name)));
      && Named(q, f) && SalesWhere(f, ByName(name)) == SalesOf(q, f)
      && Ascending(TimesOf(SalesOf(q, f)))
      && forall i :: 0 <= i < |q| ==> TimesOf(SalesOf(q, f))[i] == q[i].score
  {
    var q := SortedOf(RanksWhere(f, ByName(name)));
    SortedOfSpec(RanksWhere(f, ByName(name)));
    WhereIsNamed(f, ByName(name));
    assert forall i, j :: 0 <= i < j < |q| ==> Less(q[i], q[j]);
  }

  method PricesExcept(ghost q: seq<Rank>, ghost f: Sightings, sales: seq<FeedSale>, exclude: string) returns (prices: seq<nat>)
    requires Sorted(q) && Named(q, f) && sales == SalesOf(q, f)
    ensures var others := (s: FeedSale) => s.listingId != exclude;
      Named(Kept(q, f, others), f) && prices == PricesOf(SalesOf(Kept(q, f, others), f))
  {
    hide Less;
    prices := [];
    ghost var others := (s: FeedSale) => s.listingId != exclude;
    for i := 0 to |sales|
      invariant Named(q[..i], f) && Named(Kept(q[..i], f, others), f)
      invariant prices == PricesOf(SalesOf(Kept(q[..i], f, others), f))
    {
      assert q[..i + 1] == q[..i] + [q[i]];
      KeptSnoc(q[..i], q[i], f, others);
      if sales[i].listingId != exclude {
        prices := prices + [sales[i].priceCents];
      }
    }
    assert q[..|sales|] == q;
  }

  // ---- The listing's own sale ----

  function OfItem(key: ItemKey, start: int, end: int): FeedSale -> bool {
    (s: FeedSale) => KeyOf(s) == Some(key) && start <= s.seenAt <= end
  }

  /** `SoldIndex.item_sale` as a plain filter: the item's first sale in the window, when it is this listing's. */
  function ItemSale(f: Sightings, l: FeedSale, start: int, end: int): Option<FeedSale> {
    if KeyOf(l).None? then None
    else
      var sales := SalesWhere(f, OfItem(KeyOf(l).value, start, end));
      if sales == [] then None else OwnSaleOf(l, sales[0])
  }

  /** A sale after the item's next listing is that listing's, and so is one at another price. */
  function OwnSaleOf(l: FeedSale, sale: FeedSale): Option<FeedSale> {
    if l.nextListedAt.Some? && sale.seenAt >= l.nextListedAt.value then None
    else if sale.priceCents == l.priceCents then Some(sale)
    else None
  }

  /**
   The listing's own sale without sold events: the item's first sale in the window, by time and id, if it comes before the
   item's next listing and at the listed price.
   */
  lemma ItemSaleIff(f: Sightings, l: FeedSale, start: int, end: int, sale: FeedSale)
    requires Keyed(f)
    ensures ItemSale(f, l, start, end) == Some(sale) <==>
      && l.floatValue.Some? && sale.listingId in f && f[sale.listingId] == sale
      && KeyOf(sale) == KeyOf(l) && start <= sale.seenAt <= end
      && (forall id :: id in f && KeyOf(f[id]) == KeyOf(l) && start <= f[id].seenAt <= end && id != sale.listingId ==>
            Less(Rank(sale.seenAt, sale.listingId), Rank(f[id].seenAt, id)))
      && (l.nextListedAt.Some? ==> sale.seenAt < l.nextListedAt.value) && sale.priceCents == l.priceCents
  {
    hide KeyOf;
    SameItemIff(l, l);
    if KeyOf(l).Some? {
      var keep := OfItem(KeyOf(l).value, start, end);
      var q := SortedOf(RanksWhere(f, keep));
      SortedOfSpec(RanksWhere(f, keep));
      WhereIsNamed(f, keep);
      var sales := SalesWhere(f, keep);
      hide SortedOf;
      forall id | id in f && keep(f[id]) ensures Rank(f[id].seenAt, id) in Elements(q) {
        InRanksWhere(f, keep, Rank(f[id].seenAt, id));
      }
      if sales != [] {
        assert q[0] in Elements(q);
        InRanksWhere(f, keep, q[0]);
        FirstIsLeast(q);
        if f[q[0].member] != sale && sale.listingId in f && f[sale.listingId] == sale && keep(sale) {
          LessTrichotomy(q[0], Rank(sale.seenAt, sale.listingId));
        }
      }
    }
  }

  lemma FirstIsLeast(q: seq<Rank>)
    requires q != [] && Sorted(q)
    ensures forall r :: r in Elements(q) && r != q[0] ==> Less(q[0], r)
  {
  }

  lemma {:induction false} FirstKept(q: seq<Rank>, f: Sightings, keep: FeedSale -> bool, i: nat)
    requires Named(q, f) && i < |q| && keep(f[q[i].member])
    requires forall j :: 0 <= j < i ==> !keep(f[q[j].member])
    ensures Kept(q, f, keep) != [] && Kept(q, f, keep)[0] == q[i]
  {
    if i < |q| - 1 {
      FirstKept(q[..|q| - 1], f, keep, i);
    } else {
      NoneKept(q[..i], f, keep);
    }
  }

  lemma {:induction false} NoneKept(q: seq<Rank>, f: Sightings, keep: FeedSale -> bool)
    requires Named(q, f) && forall j :: 0 <= j < |q| ==> !keep(f[q[j].member])
    ensures Kept(q, f, keep) == []
  {
    if q != [] {
      NoneKept(q[..|q| - 1], f, keep);
    }
  }

  /** Within one item's sales the window filter is the filter of all sightings. */
  lemma WindowOfItem(f: Sightings, key: ItemKey, start: int, end: int)
    ensures var q := SortedOf(RanksWhere(f, ByItem(key)));
      var inside := (s: FeedSale) => start <= s.seenAt <= end;
      && Named(q, f) && SalesWhere(f, ByItem(key)) == SalesOf(q, f)
      && Named(Kept(q, f, inside), f)
      && SalesOf(Kept(q, f, inside), f) == SalesWhere(f, OfItem(key, start, end))
  {
    hide SortedOf;
    hide Less;
    hide KeyOf;
    var q := SortedOf(RanksWhere(f, ByItem(key)));
    var inside := (s: FeedSale) => start <= s.seenAt <= end;
    SortedOfSpec(RanksWhere(f, ByItem(key)));
    WhereIsNamed(f, ByItem(key));
    KeptSpec(q, f, inside);
    forall r ensures r in Kept(q, f, inside) <==> r in RanksWhere(f, OfItem(key, start, end)) {
      InRanksWhere(f, ByItem(key), r);
      InRanksWhere(f, OfItem(key, start, end), r);
      assert r in q <==> r in Elements(q);
    }
    WhereIsUnique(Kept(q, f, inside), f, OfItem(key, start, end));
  }

  method FindItemSale(x: SoldIndex, ghost f: Sightings, l: FeedSale, start: int, end: int) returns (sale: Option<FeedSale>)
    requires IsIndex(x, f)
    ensures sale == ItemSale(f, l, start, end)
  {
    hide KeyOf;
    hide SortedOf;
    hide Less;
    var key := KeyOf(l);
    if key.None? {
      return None;
    }
    var sales := Get(x.salesByItem, key.value);
    ghost var q := SortedOf(RanksWhere(f, ByItem(key.value)));
    ghost var inside := (s: FeedSale) => start <= s.seenAt <= end;
    WindowOfItem(f, key.value, start, end);
    for i := 0 to |sales|
      invariant forall j :: 0 <= j < i ==> !inside(f[q[j].member])
    {
      if start <= sales[i].seenAt <= end {
        FirstKept(q, f, inside, i);
        if l.nextListedAt.Some? && sales[i].seenAt >= l.nextListedAt.value {
          return None;
        }
        return if sales[i].priceCents == l.priceCents then Some(sales[i]) else None;
      }
    }
    NoneKept(q, f, inside);
    sale := None;
  }

  // ---- Item fees ----

  /** Each baseline build's fees, oldest build first. */
  datatype ItemFees = ItemFees(builtAt: seq<int>, fees: seq<map<string, int>>)

  ghost predicate ValidFees(x: ItemFees) {
    Ascending(x.builtAt) && |x.fees| == |x.builtAt|
  }

  /** The fee of the newest build at or before the moment. */
  function FeeBps(x: ItemFees, name: string, at: int): Option<int>
    requires ValidFees(x)
  {
    var index := Before(x.builtAt, at) - 1;
    if index < 0 || name !in x.fees[index] then None else Some(x.fees[index][name])
  }

  method FindFeeBps(x: ItemFees, name: string, at: int) returns (fee: Option<int>)
    requires ValidFees(x)
    ensures fee == FeeBps(x, name, at)
  {
    var n := BisectRight(x.builtAt, at);
    if n == 0 || name !in x.fees[n - 1] {
      return None;
    }
    fee := Some(x.fees[n - 1][name]);
  }

  /** A build made later never changes the fee in force at a moment. */
  lemma LaterBuildsDoNotMatter(x: ItemFees, later: ItemFees, name: string, at: int)
    requires ValidFees(x) && ValidFees(ItemFees(x.builtAt + later.builtAt, x.fees + later.fees)) && |later.fees| == |later.builtAt|
    requires forall t :: t in later.builtAt ==> t > at
    ensures FeeBps(ItemFees(x.builtAt + later.builtAt, x.fees + later.fees), name, at) == FeeBps(x, name, at)
  {
    BeforeConcat(x.builtAt, later.builtAt, at);
  }

  lemma {:induction false} BeforeConcat(a: seq<int>, b: seq<int>, x: int)
    requires forall t :: t in b ==> t > x
    ensures Before(a + b, x) == Before(a, x)
  {
    if b == [] {
      assert a + b == a;
    } else {
      var front, t := b[..|b| - 1], b[|b| - 1];
      assert t in b && forall y :: y in front ==> y in b;
      BeforeConcat(a, front, x);
      assert (a + b)[..|a + b| - 1] == a + b[..|b| - 1];
    }
  }

  // ---- The lower median ----

  function InsertPrice(sorted: seq<nat>, price: nat): seq<nat> {
    if sorted == [] || sorted[|sorted| - 1] <= price then sorted + [price]
    else InsertPrice(sorted[..|sorted| - 1], price) + [sorted[|sorted| - 1]]
  }

  function SortedPrices(prices: seq<nat>): seq<nat> {
    if prices == [] then [] else InsertPrice(SortedPrices(prices[..|prices| - 1]), prices[|prices| - 1])
  }

  lemma {:induction false} InsertPriceMembers(sorted: seq<nat>, price: nat)
    ensures multiset(InsertPrice(sorted, price)) == multiset(sorted) + multiset{price}
  {
    if sorted != [] {
      InsertPriceMembers(sorted[..|sorted| - 1], price);
      assert sorted == sorted[..|sorted| - 1] + [sorted[|sorted| - 1]];
    }
  }

  lemma {:induction false} InsertPriceBound(sorted: seq<nat>, price: nat, bound: nat)
    requires price <= bound && forall i :: 0 <= i < |sorted| ==> sorted[i] <= bound
    ensures forall i :: 0 <= i < |InsertPrice(sorted, price)| ==> InsertPrice(sorted, price)[i] <= bound
  {
    if sorted != [] {
      InsertPriceBound(sorted[..|sorted| - 1], price, bound);
    }
  }

  lemma {:induction false} InsertPriceKeeps(sorted: seq<nat>, price: nat)
    requires Ascending(sorted)
    ensures Ascending(InsertPrice(sorted, price))
  {
    if sorted != [] && sorted[|sorted| - 1] > price {
      var front, last := sorted[..|sorted| - 1], sorted[|sorted| - 1];
      InsertPriceKeeps(front, price);
      InsertPriceBound(front, price, last);
    }
  }

  lemma {:induction false} SortedPricesSpec(prices: seq<nat>)
    ensures Ascending(SortedPrices(prices)) && multiset(SortedPrices(prices)) == multiset(prices)
    ensures |SortedPrices(prices)| == |prices|
  {
    if prices != [] {
      var front, last := prices[..|prices| - 1], prices[|prices| - 1];
      SortedPricesSpec(front);
      InsertPriceKeeps(SortedPrices(front), last);
      InsertPriceMembers(SortedPrices(front), last);
      assert prices == front + [last];
      assert |multiset(SortedPrices(prices))| == |multiset(prices)|;
    }
  }

  /** `statistics.median_low`. */
  function MedianLow(prices: seq<nat>): nat
    requires prices != []
  {
    SortedPricesSpec(prices);
    SortedPrices(prices)[(|prices| - 1) / 2]
  }

  /** How many prices lie below a bound. */
  function Below(prices: seq<nat>, bound: nat): (n: nat)
    ensures n <= |prices|
  {
    if prices == [] then 0 else Below(prices[..|prices| - 1], bound) + if prices[|prices| - 1] < bound then 1 else 0
  }

  /** The lower of the middle prices: half of the prices or more are at or below it, fewer than half are below it. */
  predicate IsLowerMedian(prices: seq<nat>, price: nat) {
    price in prices && 2 * Below(prices, price + 1) >= |prices| && 2 * Below(prices, price) < |prices|
  }

  lemma {:induction false} BelowInserted(sorted: seq<nat>, price: nat, bound: nat)
    ensures Below(InsertPrice(sorted, price), bound) == Below(sorted, bound) + if price < bound then 1 else 0
  {
    if sorted == [] || sorted[|sorted| - 1] <= price {
      assert (sorted + [price])[..|sorted|] == sorted;
    } else {
      var front, last := sorted[..|sorted| - 1], sorted[|sorted| - 1];
      BelowInserted(front, price, bound);
      var inserted := InsertPrice(front, price);
      assert (inserted + [last])[..|inserted|] == inserted;
    }
  }

  lemma {:induction false} BelowSorted(prices: seq<nat>, bound: nat)
    ensures Below(SortedPrices(prices), bound) == Below(prices, bound)
  {
    if prices != [] {
      BelowSorted(prices[..|prices| - 1], bound);
      BelowInserted(SortedPrices(prices[..|prices| - 1]), prices[|prices| - 1], bound);
    }
  }

  /** In an ascending list the first `k` prices are no more than its `k`-th, and the others no less. */
  lemma {:induction false} BelowAt(sorted: seq<nat>, k: nat, bound: nat)
    requires Ascending(sorted) && k < |sorted|
    ensures bound > sorted[k] ==> Below(sorted, bound) >= k + 1
    ensures bound <= sorted[k] ==> Below(sorted, bound) <= k
  {
    var front, last := sorted[..|sorted| - 1], sorted[|sorted| - 1];
    if k < |front| {
      BelowAt(front, k, bound);
    } else if bound > last && k > 0 {
      BelowAt(front, k - 1, bound);
    }
  }

  lemma {:induction false} BelowRises(prices: seq<nat>, low: nat, high: nat)
    requires low <= high
    ensures Below(prices, low) <= Below(prices, high)
  {
    if prices != [] {
      BelowRises(prices[..|prices| - 1], low, high);
    }
  }

  /** `median_low` is the lower median, and nothing else is. */
  lemma MedianLowIff(prices: seq<nat>, price: nat)
    requires prices != []
    ensures price == MedianLow(prices) <==> IsLowerMedian(prices, price)
  {
    hide SortedPrices;
    hide Below;
    SortedPricesSpec(prices);
    var sorted, median := SortedPrices(prices), MedianLow(prices);
    BelowAt(sorted, (|prices| - 1) / 2, median);
    BelowAt(sorted, (|prices| - 1) / 2, median + 1);
    BelowSorted(prices, median);
    BelowSorted(prices, median + 1);
    assert median in multiset(sorted);
    if price < median {
      BelowRises(prices, price + 1, median);
    } else if price > median {
      BelowRises(prices, median + 1, price);
    }
  }

  // ---- One label ----

  datatype Row = Row(
    listingId: string,
    name: string,
    listedAt: int,
    listedPriceCents: nat,
    comparableSales: nat,
    resalePriceCents: Option<nat>,
    netMarginCents: Option<int>,
    isProfitable: Option<bool>,
    soldWithinSeconds: Option<int>,
    availableAt: int)

  function AvailableAt(l: FeedSale, c: LabelConfig): int {
    l.seenAt + 1000 * c.horizonSeconds
  }

  function OwnSale(l: FeedSale, f: Sightings, c: LabelConfig): Option<FeedSale> {
    if c.ownSaleByItem then ItemSale(f, l, l.seenAt - 1000 * OWN_SALE_CLOCK_SKEW_SECONDS, AvailableAt(l, c))
    else if l.listingId in f then Some(f[l.listingId])
    else None
  }

  function SoldWithin(l: FeedSale, own: Option<FeedSale>, c: LabelConfig): Option<int> {
    if own.None? then None
    else
      var elapsed := own.value.seenAt - l.seenAt;
      if c.ownSaleByItem then Some(if elapsed < 0 then 0 else elapsed / 1000)
      else if l.seenAt <= own.value.seenAt <= AvailableAt(l, c) then Some(elapsed / 1000)
      else None
  }

  predicate FeesGiven(c: LabelConfig, fees: Option<ItemFees>) {
    c.itemSellerFees ==> fees.Some?
  }

  function FeeFor(l: FeedSale, c: LabelConfig, fees: Option<ItemFees>): Option<int>
    requires fees.Some? ==> ValidFees(fees.value)
  {
    if c.itemSellerFees && fees.Some? then FeeBps(fees.value, l.name, l.seenAt) else None
  }

  /** The row, from the comparable prices and the own sale; None where pricing the resale raises. */
  function RowFrom(l: FeedSale, comparable: seq<nat>, own: Option<FeedSale>, c: LabelConfig, fee: Option<int>): Option<Row> {
    var base := Row(l.listingId, l.name, l.seenAt, l.priceCents, |comparable|, None, None, None, SoldWithin(l, own, c), AvailableAt(l, c));
    if |comparable| < c.minComparableSales || comparable == [] then Some(base)
    else
      var resale := MedianLow(comparable);
      var margin := Scoring.NetMargin(l.priceCents, resale, c.venue, c.venue, fee);
      if margin.None? then None
      else Some(base.(resalePriceCents := Some(resale), netMarginCents := margin, isProfitable := Some(margin.value >= c.minMarginCents)))
  }

  /** The sales a listing is compared with: of its item, between the end of the hold and the horizon, without its own sale. */
  function ComparedWith(l: FeedSale, f: Sightings, c: LabelConfig): seq<nat> {
    var own := OwnSale(l, f, c);
    Comparable(f, l.name, l.seenAt + 1000 * c.holdSeconds, AvailableAt(l, c), if own.Some? then own.value.listingId else l.listingId)
  }

  /** `label_listing`; None where it raises (no item fees given, or a fee outside its range). */
  function LabelOf(l: FeedSale, f: Sightings, c: LabelConfig, fees: Option<ItemFees>): Option<Row>
    requires fees.Some? ==> ValidFees(fees.value)
  {
    if !FeesGiven(c, fees) then None
    else RowFrom(l, ComparedWith(l, f, c), OwnSale(l, f, c), c, FeeFor(l, c, fees))
  }

  method LabelListing(l: FeedSale, x: SoldIndex, ghost f: Sightings, c: LabelConfig, fees: Option<ItemFees>) returns (row: Option<Row>)
    requires Keyed(f) && IsIndex(x, f) && (fees.Some? ==> ValidFees(fees.value))
    ensures row == LabelOf(l, f, c, fees)
  {
    hide Comparable;
    hide ItemSale;
    hide MedianLow;
    hide Scoring.NetMargin;
    if c.itemSellerFees && fees.None? {
      return None;
    }
    var availableAt := l.seenAt + 1000 * c.horizonSeconds;
    var own: Option<FeedSale>;
    if c.ownSaleByItem {
      own := FindItemSale(x, f, l, l.seenAt - 1000 * OWN_SALE_CLOCK_SKEW_SECONDS, availableAt);
    } else {
      own := if l.listingId in x.firstSold then Some(x.firstSold[l.listingId]) else None;
    }
    var exclude := if own.Some? then own.value.listingId else l.listingId;
    var comparable := ComparablePrices(x, f, l.name, l.seenAt + 1000 * c.holdSeconds, availableAt, exclude);
    var fee: Option<int> := None;
    if c.itemSellerFees && fees.Some? {
      fee := FindFeeBps(fees.value, l.name, l.seenAt);
    }
    row := RowFrom(l, comparable, own, c, fee);
  }

  /**
   What a row says of a resale: there is a price exactly with enough comparable sales, and it is their lower median; the
   margin is what that price leaves after its fee and the listed price; and the listing is profitable exactly when the
   price difference, less the least margin, covers the fee. A row is missing exactly where a fee is.
   */
  lemma LabelPricesResale(l: FeedSale, f: Sightings, c: LabelConfig, fees: Option<ItemFees>)
    requires fees.Some? ==> ValidFees(fees.value)
    ensures var row, prices, fee := LabelOf(l, f, c, fees), ComparedWith(l, f, c), FeeFor(l, c, fees);
      var priced := prices != [] && |prices| >= c.minComparableSales;
      && (row.None? <==>
            || (c.itemSellerFees && fees.None?)
            || (priced && fee.Some? && !(0 <= fee.value < Scoring.BASIS_POINTS)))
      && (row.Some? ==>
            && row.value.comparableSales == |prices|
            && (row.value.resalePriceCents.Some? <==> priced)
            && (row.value.netMarginCents.Some? <==> priced) && (row.value.isProfitable.Some? <==> priced)
            && (priced ==>
                  var resale := row.value.resalePriceCents.value;
                  var due := resale * Scoring.RateOf(resale, c.venue, fee);
                  var charged := resale - l.priceCents - row.value.netMarginCents.value;
                  && IsLowerMedian(prices, resale)
                  && (charged - 1) * Scoring.BASIS_POINTS < due <= charged * Scoring.BASIS_POINTS
                  && (row.value.isProfitable.value <==> due <= (resale - l.priceCents - c.minMarginCents) * Scoring.BASIS_POINTS)))
  {
    hide Comparable;
    hide OwnSale;
    hide SoldWithin;
    hide MedianLow;
    hide IsLowerMedian;
    hide FeeBps;
    var prices, fee := ComparedWith(l, f, c), FeeFor(l, c, fees);
    if prices != [] && |prices| >= c.minComparableSales {
      var resale := MedianLow(prices);
      MedianLowIff(prices, resale);
      Scoring.NetMarginIs(l.priceCents, resale, c.venue, c.venue, fee);
      if Scoring.NetMargin(l.priceCents, resale, c.venue, c.venue, fee).Some? {
        Scoring.NetMarginReaches(l.priceCents, resale, c.venue, c.venue, fee, c.minMarginCents);
      }
      hide Scoring.NetMargin;
      hide Scoring.RateOf;
    }
  }

  /**
   What a row says of the listing's own sale. With sold events it is the first sighting of the listing's sale, counted from
   the listing to the horizon, both included; without them it is the item's first sale from the clock skew before the
   listing to the horizon, and only if that comes before the item's next listing and at the listed price. A sale within the
   skew counts as sold at once.
   */
  lemma LabelSaysSold(l: FeedSale, f: Sightings, c: LabelConfig, fees: Option<ItemFees>)
    requires fees.Some? ==> ValidFees(fees.value)
    requires LabelOf(l, f, c, fees).Some?
    ensures var row := LabelOf(l, f, c, fees).value;
      && row.listingId == l.listingId && row.name == l.name && row.listedAt == l.seenAt && row.listedPriceCents == l.priceCents
      && row.availableAt == l.seenAt + 1000 * c.horizonSeconds
      && (!c.ownSaleByItem ==>
            && (row.soldWithinSeconds.Some? <==> l.listingId in f && l.seenAt <= f[l.listingId].seenAt <= row.availableAt)
            && (row.soldWithinSeconds.Some? ==>
                  var seconds := row.soldWithinSeconds.value;
                  1000 * seconds <= f[l.listingId].seenAt - l.seenAt < 1000 * (seconds + 1)))
      && (c.ownSaleByItem ==>
            var own := ItemSale(f, l, l.seenAt - 1000 * OWN_SALE_CLOCK_SKEW_SECONDS, row.availableAt);
            && (row.soldWithinSeconds.Some? <==> own.Some?)
            && (own.Some? ==>
                  var seconds, elapsed := row.soldWithinSeconds.value, own.value.seenAt - l.seenAt;
                  && seconds >= 0 && (elapsed < 0 ==> seconds == 0)
                  && (elapsed >= 0 ==> 1000 * seconds <= elapsed < 1000 * (seconds + 1))))
  {
    hide Comparable;
    hide ItemSale;
    hide MedianLow;
    hide FeeBps;
    hide Scoring.NetMargin;
  }

  // ---- No look-ahead ----

  lemma ComparableUpTo(f: Sightings, g: Sightings, at: int, name: string, start: int, end: int, exclude: string)
    requires SameUpTo(f, g, at) && end <= at
    ensures Comparable(f, name, start, end, exclude) == Comparable(g, name, start, end, exclude)
  {
    hide SalesWhere;
    WhereDependsOnKept(f, g, InWindow(name, start, end, exclude));
  }

  lemma ItemSaleUpTo(f: Sightings, g: Sightings, at: int, l: FeedSale, start: int, end: int)
    requires SameUpTo(f, g, at) && end <= at
    ensures ItemSale(f, l, start, end) == ItemSale(g, l, start, end)
  {
    hide SalesWhere;
    hide KeyOf;
    if KeyOf(l).Some? {
      WhereDependsOnKept(f, g, OfItem(KeyOf(l).value, start, end));
    }
  }

  /** A label is the same for any two sale streams that agree up to its own `label_available_at`. */
  lemma LabelUpTo(l: FeedSale, f: Sightings, g: Sightings, c: LabelConfig, fees: Option<ItemFees>)
    requires fees.Some? ==> ValidFees(fees.value)
    requires Keyed(f) && Keyed(g) && SameUpTo(f, g, AvailableAt(l, c))
    ensures LabelOf(l, f, c, fees) == LabelOf(l, g, c, fees)
  {
    hide Comparable;
    hide ItemSale;
    hide MedianLow;
    hide Scoring.NetMargin;
    var start, end := l.seenAt + 1000 * c.holdSeconds, AvailableAt(l, c);
    ItemSaleUpTo(f, g, end, l, l.seenAt - 1000 * OWN_SALE_CLOCK_SKEW_SECONDS, end);
    var own, own' := OwnSale(l, f, c), OwnSale(l, g, c);
    var exclude := if own.Some? then own.value.listingId else l.listingId;
    assert exclude == (if own'.Some? then own'.value.listingId else l.listingId);
    assert SoldWithin(l, own, c) == SoldWithin(l, own', c);
    ComparableUpTo(f, g, end, l.name, start, end, exclude);
  }

  /** No look-ahead, in both own-sale modes: sold events after `label_available_at` leave the label unchanged. */
  lemma NoLookAhead(l: FeedSale, sold: seq<FeedSale>, sold': seq<FeedSale>, c: LabelConfig, fees: Option<ItemFees>)
    requires fees.Some? ==> ValidFees(fees.value)
    requires UpTo(sold, AvailableAt(l, c)) == UpTo(sold', AvailableAt(l, c))
    ensures LabelOf(l, Firsts(sold), c, fees) == LabelOf(l, Firsts(sold'), c, fees)
  {
    hide LabelOf;
    hide Firsts;
    FirstsAreKeyed(sold);
    FirstsAreKeyed(sold');
    SameSightings(sold, sold', AvailableAt(l, c));
    LabelUpTo(l, Firsts(sold), Firsts(sold'), c, fees);
  }

  // ---- A run ----

  function Min(a: int, b: int): (smaller: int)
    ensures smaller <= a && smaller <= b && (smaller == a || smaller == b)
  {
    if a <= b then a else b
  }

  /** `latest_labelable`; None when nothing is (no sales sync has completed). */
  function LatestLabelable(asOf: int, c: LabelConfig, salesSyncedAt: Option<int>): Option<int> {
    var cutoff := asOf - 1000 * (c.horizonSeconds + c.settleSeconds);
    if !c.salesFromVenue then Some(cutoff)
    else if salesSyncedAt.None? then None
    else Some(Min(cutoff, salesSyncedAt.value - 1000 * (c.horizonSeconds + c.salesSettleSeconds)))
  }

  function Due(cutoff: Option<int>): FeedSale -> bool {
    (s: FeedSale) => cutoff.Some? && s.seenAt <= cutoff.value
  }

  function LabelEach(listings: seq<FeedSale>, f: Sightings, c: LabelConfig, fees: Option<ItemFees>): Option<seq<Row>>
    requires fees.Some? ==> ValidFees(fees.value)
  {
    if listings == [] then Some([])
    else
      var rest, row := LabelEach(listings[..|listings| - 1], f, c, fees), LabelOf(listings[|listings| - 1], f, c, fees);
      if rest.None? || row.None? then None else Some(rest.value + [row.value])
  }

  /** `label_listings`: the due listings, by (listed_at, listing_id); None where a row raises. */
  function LabelAll(listed: seq<FeedSale>, sold: seq<FeedSale>, c: LabelConfig, asOf: int, fees: Option<ItemFees>, salesSyncedAt: Option<int>): Option<seq<Row>>
    requires fees.Some? ==> ValidFees(fees.value)
  {
    LabelEach(SalesWhere(Firsts(listed), Due(LatestLabelable(asOf, c, salesSyncedAt))), Firsts(sold), c, fees)
  }

  method LabelListings(listed: seq<FeedSale>, sold: seq<FeedSale>, c: LabelConfig, asOf: int, fees: Option<ItemFees>, salesSyncedAt: Option<int>)
    returns (rows: Option<seq<Row>>)
    requires fees.Some? ==> ValidFees(fees.value)
    ensures rows == LabelAll(listed, sold, c, asOf, fees, salesSyncedAt)
  {
    hide SalesWhere;
    hide LabelOf;
    hide IsIndex;
    var cutoff := LatestLabelable(asOf, c, salesSyncedAt);
    var x := BuildIndex(sold);
    FirstsAreKeyed(sold);
    var listings := SalesWhere(Firsts(listed), Due(cutoff));
    var done: seq<Row> := [];
    for i := 0 to |listings|
      invariant LabelEach(listings[..i], Firsts(sold), c, fees) == Some(done)
    {
      assert listings[..i + 1][..i] == listings[..i];
      var row := LabelListing(listings[i], x, Firsts(sold), c, fees);
      if row.None? {
        OneRaises(listings, i, Firsts(sold), c, fees);
        return None;
      }
      done := done + [row.value];
    }
    assert listings[..|listings|] == listings;
    rows := Some(done);
  }

  lemma {:induction false} OneRaises(listings: seq<FeedSale>, i: nat, f: Sightings, c: LabelConfig, fees: Option<ItemFees>)
    requires i < |listings| && (fees.Some? ==> ValidFees(fees.value)) && LabelOf(listings[i], f, c, fees).None?
    ensures LabelEach(listings, f, c, fees).None?
    decreases |listings|
  {
    hide LabelOf;
    if i < |listings| - 1 {
      OneRaises(listings[..|listings| - 1], i, f, c, fees);
    }
  }

  lemma {:induction false} RowPerListing(listings: seq<FeedSale>, f: Sightings, c: LabelConfig, fees: Option<ItemFees>)
    requires fees.Some? ==> ValidFees(fees.value)
    ensures var rows := LabelEach(listings, f, c, fees);
      rows.Some? ==>
        |rows.value| == |listings| && forall i :: 0 <= i < |listings| ==> LabelOf(listings[i], f, c, fees) == Some(rows.value[i])
  {
    hide LabelOf;
    if listings != [] {
      RowPerListing(listings[..|listings| - 1], f, c, fees);
    }
  }

  lemma RowKeepsListing(l: FeedSale, f: Sightings, c: LabelConfig, fees: Option<ItemFees>)
    requires fees.Some? ==> ValidFees(fees.value)
    ensures var row := LabelOf(l, f, c, fees);
      row.Some? ==> row.value.listingId == l.listingId && row.value.listedAt == l.seenAt && row.value.availableAt == AvailableAt(l, c)
  {
  }

  lemma WhereHas(f: Sightings, keep: FeedSale -> bool, s: FeedSale)
    requires Keyed(f)
    ensures s in SalesWhere(f, keep) <==> s.listingId in f && f[s.listingId] == s && keep(s)
  {
    var q := SortedOf(RanksWhere(f, keep));
    SortedOfSpec(RanksWhere(f, keep));
    WhereIsNamed(f, keep);
    var r := Rank(s.seenAt, s.listingId);
    InRanksWhere(f, keep, r);
    if s.listingId in f && f[s.listingId] == s && keep(s) {
      assert r in Elements(q);
      var i :| 0 <= i < |q| && q[i] == r;
      assert SalesWhere(f, keep)[i] == s;
    }
    if s in SalesWhere(f, keep) {
      var i :| 0 <= i < |q| && SalesWhere(f, keep)[i] == s;
      assert q[i] in Elements(q);
      InRanksWhere(f, keep, q[i]);
    }
  }

  lemma WhereSortedDistinct(f: Sightings, keep: FeedSale -> bool)
    requires Keyed(f)
    ensures var sales := SalesWhere(f, keep);
      forall i, j :: 0 <= i < j < |sales| ==> sales[i].listingId != sales[j].listingId && sales[i].seenAt <= sales[j].seenAt
  {
    var q := SortedOf(RanksWhere(f, keep));
    SortedOfSpec(RanksWhere(f, keep));
    WhereIsNamed(f, keep);
    var sales := SalesWhere(f, keep);
    forall i, j | 0 <= i < j < |sales| ensures sales[i].listingId != sales[j].listingId && sales[i].seenAt <= sales[j].seenAt {
      assert Less(q[i], q[j]);
      LexTrichotomy(q[i].member, q[j].member);
    }
  }

  /**
   A run labels every listing whose time has come, once, in order: an id has a row exactly when its first sighting's
   horizon and settle time (and the sales sync's, where sales come from the venue) have passed by `asOf`.
   */
  lemma RowsAreDue(listed: seq<FeedSale>, sold: seq<FeedSale>, c: LabelConfig, asOf: int, fees: Option<ItemFees>, synced: Option<int>, id: string)
    requires fees.Some? ==> ValidFees(fees.value)
    requires LabelAll(listed, sold, c, asOf, fees, synced).Some?
    ensures var rows := LabelAll(listed, sold, c, asOf, fees, synced).value;
      && (forall i, j :: 0 <= i < j < |rows| ==> rows[i].listingId != rows[j].listingId && rows[i].listedAt <= rows[j].listedAt)
      && ((exists i :: 0 <= i < |rows| && rows[i].listingId == id) <==>
            && id in Firsts(listed)
            && AvailableAt(Firsts(listed)[id], c) + 1000 * c.settleSeconds <= asOf
            && (c.salesFromVenue ==>
                  synced.Some? && AvailableAt(Firsts(listed)[id], c) + 1000 * c.salesSettleSeconds <= synced.value))
  {
    hide LabelOf;
    hide SalesWhere;
    hide Firsts;
    var f := Firsts(listed);
    var due := Due(LatestLabelable(asOf, c, synced));
    var listings := SalesWhere(f, due);
    var rows := LabelAll(listed, sold, c, asOf, fees, synced).value;
    FirstsAreKeyed(listed);
    RowPerListing(listings, Firsts(sold), c, fees);
    WhereSortedDistinct(f, due);
    forall i | 0 <= i < |rows| ensures rows[i].listingId == listings[i].listingId && rows[i].listedAt == listings[i].seenAt {
      RowKeepsListing(listings[i], Firsts(sold), c, fees);
    }
    if id in f {
      WhereHas(f, due, f[id]);
      if f[id] in listings {
        var i :| 0 <= i < |listings| && listings[i] == f[id];
        assert rows[i].listingId == id;
      }
    }
    if exists i :: 0 <= i < |rows| && rows[i].listingId == id {
      var i :| 0 <= i < |rows| && rows[i].listingId == id;
      WhereHas(f, due, listings[i]);
    }
  }

  lemma {:induction false} EachUpTo(listings: seq<FeedSale>, f: Sightings, g: Sightings, c: LabelConfig, fees: Option<ItemFees>, at: int)
    requires fees.Some? ==> ValidFees(fees.value)
    requires Keyed(f) && Keyed(g) && SameUpTo(f, g, at)
    requires forall l :: l in listings ==> AvailableAt(l, c) <= at
    ensures LabelEach(listings, f, c, fees) == LabelEach(listings, g, c, fees)
  {
    hide LabelOf;
    if listings != [] {
      EachUpTo(listings[..|listings| - 1], f, g, c, fees, at);
      LabelUpTo(listings[|listings| - 1], f, g, c, fees);
    }
  }

  /**
   A run reads nothing it could not have read when its newest label became available: listings seen after the
   labelable moment and sales seen after `asOf` less the settle time change none of its rows.
   */
  lemma RunNoLookAhead(listed: seq<FeedSale>, listed': seq<FeedSale>, sold: seq<FeedSale>, sold': seq<FeedSale>,
                       c: LabelConfig, asOf: int, fees: Option<ItemFees>, synced: Option<int>)
    requires fees.Some? ==> ValidFees(fees.value)
    requires var cutoff := LatestLabelable(asOf, c, synced); cutoff.Some? ==> UpTo(listed, cutoff.value) == UpTo(listed', cutoff.value)
    requires UpTo(sold, asOf - 1000 * c.settleSeconds) == UpTo(sold', asOf - 1000 * c.settleSeconds)
    ensures LabelAll(listed, sold, c, asOf, fees, synced) == LabelAll(listed', sold', c, asOf, fees, synced)
  {
    hide LabelOf;
    hide SalesWhere;
    hide Firsts;
    var f, g := Firsts(listed), Firsts(listed');
    var cutoff := LatestLabelable(asOf, c, synced);
    var at := asOf - 1000 * c.settleSeconds;
    if cutoff.Some? {
      SameSightings(listed, listed', cutoff.value);
    }
    WhereDependsOnKept(f, g, Due(cutoff));
    FirstsAreKeyed(listed);
    FirstsAreKeyed(sold);
    FirstsAreKeyed(sold');
    SameSightings(sold, sold', at);
    forall l | l in SalesWhere(f, Due(cutoff)) ensures AvailableAt(l, c) <= at {
      WhereHas(f, Due(cutoff), l);
    }
    EachUpTo(SalesWhere(f, Due(cutoff)), Firsts(sold), Firsts(sold'), c, fees, at);
  }
}
