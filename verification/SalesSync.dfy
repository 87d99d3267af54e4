/**
 The DMarket sales sync: keys that number identical sales, the paged read of a title's newest-first history, and
 the store that skips what it holds. Re-reading is idempotent and resumable: after any syncs and failures the stored
 keys are those of the history the last successful sync saw, within the history range.
 */
module SalesSync {
  import opened Texts

  const LAST_SALES_PAGE_SIZE := 20
  const MAX_PAGES_PER_TITLE := 1000
  const INSERT_CHUNK_SIZE := 1000
  const HISTORY_SECONDS := 90 * 86_400
  const PAGE_LIMIT: nat := MAX_PAGES_PER_TITLE * LAST_SALES_PAGE_SIZE

  datatype SaleType = Offer | Target

  function TypeName(t: SaleType): string {
    if t.Offer? then "offer" else "target"
  }

  /** A sale as its key sees it: texts are empty where the sale has no float or phase. */
  datatype Sale = Sale(soldAt: nat, priceCents: nat, saleType: SaleType, floatText: string, paintSeed: Option<nat>, phase: string)

  /** The text of a float holds no colon; a phase may hold anything. */
  predicate Keyable(s: Sale) {
    ':' !in s.floatText
  }

  function SeedText(seed: Option<nat>): string {
    if seed.None? then "" else Decimal(seed.value)
  }

  function BaseKey(s: Sale): string {
    Decimal(s.soldAt) + [':'] + (Decimal(s.priceCents) + [':'] + (TypeName(s.saleType) + [':'] +
    (s.floatText + [':'] + (SeedText(s.paintSeed) + [':'] + s.phase))))
  }

  /** The key of the `n`-th of identical sales. */
  datatype SaleKey = SaleKey(sale: Sale, n: nat)

  function KeyText(k: SaleKey): string {
    BaseKey(k.sale) + ['#'] + Decimal(k.n)
  }

  lemma NoColonNoHash(n: nat)
    ensures ':' !in Decimal(n) && '#' !in Decimal(n) && Decimal(n) != ""
  {
    DecimalRoundTrip(n);
  }

  lemma SeedTexts(a: Option<nat>, b: Option<nat>)
    ensures ':' !in SeedText(a)
    ensures SeedText(a) == SeedText(b) ==> a == b
  {
    if a.Some? { NoColonNoHash(a.value); }
    if b.Some? { NoColonNoHash(b.value); }
    if a.Some? && b.Some? && SeedText(a) == SeedText(b) {
      DecimalInjective(a.value, b.value);
    }
  }

  lemma TypeNames(a: SaleType, b: SaleType)
    ensures ':' !in TypeName(a)
    ensures TypeName(a) == TypeName(b) ==> a == b
  {
    assert |"offer"| == 5 && |"target"| == 6;
  }

  lemma BaseKeyInjective(s: Sale, t: Sale)
    requires Keyable(s) && Keyable(t) && BaseKey(s) == BaseKey(t)
    ensures s == t
  {
    hide Decimal;
    hide SeedText;
    hide TypeName;
    NoColonNoHash(s.soldAt);
    NoColonNoHash(t.soldAt);
    NoColonNoHash(s.priceCents);
    NoColonNoHash(t.priceCents);
    TypeNames(s.saleType, t.saleType);
    TypeNames(t.saleType, s.saleType);
    SeedTexts(s.paintSeed, t.paintSeed);
    SeedTexts(t.paintSeed, s.paintSeed);
    var s5, t5 := SeedText(s.paintSeed) + [':'] + s.phase, SeedText(t.paintSeed) + [':'] + t.phase;
    var s4, t4 := s.floatText + [':'] + s5, t.floatText + [':'] + t5;
    var s3, t3 := TypeName(s.saleType) + [':'] + s4, TypeName(t.saleType) + [':'] + t4;
    var s2, t2 := Decimal(s.priceCents) + [':'] + s3, Decimal(t.priceCents) + [':'] + t3;
    SplitFirst(Decimal(s.soldAt), ':', s2, Decimal(t.soldAt), t2);
    SplitFirst(Decimal(s.priceCents), ':', s3, Decimal(t.priceCents), t3);
    SplitFirst(TypeName(s.saleType), ':', s4, TypeName(t.saleType), t4);
    SplitFirst(s.floatText, ':', s5, t.floatText, t5);
    SplitFirst(SeedText(s.paintSeed), ':', s.phase, SeedText(t.paintSeed), t.phase);
    DecimalInjective(s.soldAt, t.soldAt);
    DecimalInjective(s.priceCents, t.priceCents);
  }

  /** A stored text names one sale and one number. */
  lemma KeyTextInjective(k: SaleKey, l: SaleKey)
    requires Keyable(k.sale) && Keyable(l.sale) && KeyText(k) == KeyText(l)
    ensures k == l
  {
    NoColonNoHash(k.n);
    NoColonNoHash(l.n);
    SplitLast(BaseKey(k.sale), '#', Decimal(k.n), BaseKey(l.sale), Decimal(l.n));
    DecimalInjective(k.n, l.n);
    BaseKeyInjective(k.sale, l.sale);
  }

  // ---- Numbering ----

  function Count(sales: seq<Sale>, s: Sale): nat {
    multiset(sales)[s]
  }

  /** `sale_keys`: identical sales are numbered in order. */
  function KeysOf(sales: seq<Sale>): (keys: seq<SaleKey>)
    ensures |keys| == |sales|
  {
    seq(|sales|, i requires 0 <= i < |sales| => SaleKey(sales[i], Count(sales[..i], sales[i])))
  }

  lemma KeyAt(sales: seq<Sale>, i: nat)
    requires i < |sales|
    ensures KeysOf(sales)[i] == SaleKey(sales[i], Count(sales[..i], sales[i]))
  {
  }

  function KeySet(sales: seq<Sale>): set<SaleKey> {
    set k | k in KeysOf(sales)
  }

  method SaleKeys(sales: seq<Sale>) returns (keys: seq<string>)
    ensures |keys| == |sales|
    ensures forall i :: 0 <= i < |sales| ==> keys[i] == KeyText(KeysOf(sales)[i])
  {
    hide KeyText;
    hide KeysOf;
    var seen: multiset<Sale> := multiset{};
    keys := [];
    for i := 0 to |sales|
      invariant |keys| == i && seen == multiset(sales[..i])
      invariant forall j :: 0 <= j < i ==> keys[j] == KeyText(KeysOf(sales)[j])
    {
      assert sales[..i + 1] == sales[..i] + [sales[i]];
      KeyAt(sales, i);
      keys := keys + [KeyText(SaleKey(sales[i], seen[sales[i]]))];
      seen := seen + multiset{sales[i]};
    }
  }

  lemma {:induction false} CountGrows(sales: seq<Sale>, i: nat, j: nat, s: Sale)
    requires i <= j <= |sales|
    ensures Count(sales[..i], s) <= Count(sales[..j], s)
    ensures i < j && sales[i] == s ==> Count(sales[..i], s) < Count(sales[..j], s)
    decreases j
  {
    if i < j {
      assert sales[..j] == sales[..j - 1] + [sales[j - 1]];
      CountGrows(sales, i, j - 1, s);
    }
  }

  /** No two sales of one read share a key. */
  lemma KeysDistinct(sales: seq<Sale>, i: nat, j: nat)
    requires i < j < |sales|
    ensures KeysOf(sales)[i] != KeysOf(sales)[j]
  {
    hide KeysOf;
    KeyAt(sales, i);
    KeyAt(sales, j);
    CountGrows(sales, i, j, sales[i]);
  }

  lemma CountSnoc(front: seq<Sale>, last: Sale, s: Sale)
    ensures Count(front + [last], s) == Count(front, s) + if s == last then 1 else 0
  {
  }

  lemma KeySetSnoc(front: seq<Sale>, last: Sale)
    ensures KeySet(front + [last]) == KeySet(front) + {SaleKey(last, Count(front, last))}
  {
    hide Count;
    var sales := front + [last];
    assert forall i :: 0 <= i < |front| ==> sales[..i] == front[..i];
    assert sales[..|front|] == front;
    assert KeysOf(sales) == KeysOf(front) + [SaleKey(last, Count(front, last))];
  }

  /** The keys of a read are the first numbers of each sale: they depend only on which sales it holds, and how often. */
  lemma {:induction false} KeySetIsCounts(sales: seq<Sale>, k: SaleKey)
    ensures k in KeySet(sales) <==> k.n < Count(sales, k.sale)
  {
    hide KeySet;
    hide Count;
    if sales == [] {
      NoKeys(k.sale);
    } else {
      var front, last := sales[..|sales| - 1], sales[|sales| - 1];
      assert sales == front + [last];
      KeySetIsCounts(front, k);
      KeySetSnoc(front, last);
      CountSnoc(front, last, k.sale);
    }
  }

  lemma NoKeys(s: Sale)
    ensures KeySet([]) == {} && Count([], s) == 0
  {
  }

  lemma KeySetDependsOnMultiset(a: seq<Sale>, b: seq<Sale>)
    requires multiset(a) == multiset(b)
    ensures KeySet(a) == KeySet(b)
  {
    forall k ensures k in KeySet(a) <==> k in KeySet(b) {
      KeySetIsCounts(a, k);
      KeySetIsCounts(b, k);
    }
  }

  // ---- Reading a title ----

  /** A title's history as the venue lists it; an entry that is no usable sale is None. */
  type History = seq<Option<Sale>>

  ghost predicate NewestFirst(h: History) {
    forall i, j :: 0 <= i < j < |h| && h[i].Some? && h[j].Some? ==> h[i].value.soldAt >= h[j].value.soldAt
  }

  /** The usable sales from `from` on, newest first. */
  function Wanted(h: History, from: int): seq<Sale> {
    if h == [] then []
    else
      var rest, e := Wanted(h[..|h| - 1], from), h[|h| - 1];
      if e.Some? && e.value.soldAt >= from then rest + [e.value] else rest
  }

  predicate HasOlder(page: History, from: int) {
    exists i :: 0 <= i < |page| && page[i].Some? && page[i].value.soldAt < from
  }

  function PageAt(h: History, offset: nat): History {
    if offset >= |h| then []
    else if offset + LAST_SALES_PAGE_SIZE >= |h| then h[offset..]
    else h[offset..offset + LAST_SALES_PAGE_SIZE]
  }

  function Prefix(h: History, n: nat): History {
    if n >= |h| then h else h[..n]
  }

  datatype Read = Failed | Sales(sales: seq<Sale>, requests: nat, complete: bool)

  lemma {:induction false} WantedConcat(a: History, b: History, from: int)
    ensures Wanted(a + b, from) == Wanted(a, from) + Wanted(b, from)
  {
    if b == [] {
      assert a + b == a;
    } else {
      assert (a + b)[..|a + b| - 1] == a + b[..|b| - 1];
      WantedConcat(a, b[..|b| - 1], from);
    }
  }

  lemma {:induction false} NothingWanted(h: History, from: int)
    requires forall i :: 0 <= i < |h| && h[i].Some? ==> h[i].value.soldAt < from
    ensures Wanted(h, from) == []
  {
    if h != [] {
      NothingWanted(h[..|h| - 1], from);
    }
  }

  /** Past the first older sale there is nothing more to want. */
  lemma ReadToTheEnd(h: History, n: nat, from: int)
    requires NewestFirst(h) && n <= |h|
    requires n == |h| || HasOlder(h[..n], from)
    ensures Wanted(h[..n], from) == Wanted(h, from)
  {
    if n < |h| {
      var i :| 0 <= i < n && h[..n][i].Some? && h[..n][i].value.soldAt < from;
      NothingWanted(h[n..], from);
      WantedConcat(h[..n], h[n..], from);
      assert h == h[..n] + h[n..];
    } else {
      assert h[..n] == h;
    }
  }

  /** The first pages, up to the limit, show an older sale or the end of the history. */
  predicate ReachesEnd(h: History, from: int) {
    |h| < PAGE_LIMIT || HasOlder(h[..PAGE_LIMIT], from)
  }

  /** The wanted sales among the first pages, up to the limit. */
  function Brought(h: History, from: int): seq<Sale> {
    Wanted(Prefix(h, PAGE_LIMIT), from)
  }

  lemma BroughtToTheEnd(h: History, from: int)
    requires NewestFirst(h) && ReachesEnd(h, from)
    ensures Brought(h, from) == Wanted(h, from)
  {
    if |h| > PAGE_LIMIT {
      ReadToTheEnd(h, PAGE_LIMIT, from);
    }
  }

  /**
   `fetch_title_sales`: pages until one reaches behind `readBackTo` or is short. It brings exactly the sales wanted among
   the first pages, and `complete` says whether those are all: exactly when the first pages, up to the limit, reach behind
   `readBackTo` or to the end. `failsAt` is the request that fails, if one does, and then nothing is brought.
   */
  method FetchTitleSales(h: History, readBackTo: int, failsAt: Option<nat>) returns (read: Read)
    requires NewestFirst(h)
    ensures read.Sales? ==>
      && read.requests <= MAX_PAGES_PER_TITLE
      && read.sales == Brought(h, readBackTo)
      && (read.complete <==> ReachesEnd(h, readBackTo))
      && (read.complete ==> read.sales == Wanted(h, readBackTo))
      && (!read.complete ==> read.requests == MAX_PAGES_PER_TITLE)
    ensures failsAt.None? ==> read.Sales?
  {
    hide Wanted;
    var sales, offset, requests: nat := [], 0, 0;
    NothingYet(h, readBackTo);
    while requests < MAX_PAGES_PER_TITLE
      invariant requests <= MAX_PAGES_PER_TITLE && offset == requests * LAST_SALES_PAGE_SIZE && offset <= |h|
      invariant sales == Wanted(h[..offset], readBackTo)
      invariant !HasOlder(h[..offset], readBackTo)
    {
      if failsAt == Some(requests) {
        return Failed;
      }
      var page := PageAt(h, offset);
      requests := requests + 1;
      WantedConcat(h[..offset], page, readBackTo);
      assert h[..offset] + page == h[..offset + |page|];
      sales := sales + Wanted(page, readBackTo);
      if |page| < LAST_SALES_PAGE_SIZE || HasOlder(page, readBackTo) {
        StopsAtEnd(h, offset, readBackTo);
        BroughtToTheEnd(h, readBackTo);
        return Sales(sales, requests, true);
      }
      NoneOlder(h, offset, page, readBackTo);
      offset := offset + LAST_SALES_PAGE_SIZE;
    }
    assert Prefix(h, offset) == h[..offset];
    read := Sales(sales, requests, false);
  }

  lemma NothingYet(h: History, from: int)
    ensures Wanted(h[..0], from) == []
  {
  }

  lemma StopsAtEnd(h: History, offset: nat, from: int)
    requires NewestFirst(h) && offset <= |h|
    requires |PageAt(h, offset)| < LAST_SALES_PAGE_SIZE || HasOlder(PageAt(h, offset), from)
    ensures Wanted(h[..offset + |PageAt(h, offset)|], from) == Wanted(h, from)
    ensures offset + LAST_SALES_PAGE_SIZE <= PAGE_LIMIT ==> ReachesEnd(h, from)
  {
    var page := PageAt(h, offset);
    var n := offset + |page|;
    if HasOlder(page, from) {
      var i :| 0 <= i < |page| && page[i].Some? && page[i].value.soldAt < from;
      assert h[..n][offset + i] == page[i];
      if |h| >= PAGE_LIMIT && n <= PAGE_LIMIT {
        assert h[..PAGE_LIMIT][offset + i] == page[i];
      }
    }
    ReadToTheEnd(h, n, from);
  }

  lemma NoneOlder(h: History, offset: nat, page: History, from: int)
    requires offset + |page| <= |h| && page == h[offset..offset + |page|]
    requires !HasOlder(h[..offset], from) && !HasOlder(page, from)
    ensures !HasOlder(h[..offset + |page|], from)
  {
    assert forall i :: offset <= i < offset + |page| ==> page[i - offset] == h[i];
  }

  // ---- Storing ----

  /** `store_sales`: one transaction of inserts that skip what is there. */
  method StoreSales(stored: set<SaleKey>, sales: seq<Sale>) returns (stored': set<SaleKey>)
    ensures stored' == stored + KeySet(sales)
  {
    stored' := stored;
    var rows := KeysOf(sales);
    var start := 0;
    while start < |rows|
      invariant start <= |rows| && stored' == stored + set k | k in rows[..start]
    {
      var end := if start + INSERT_CHUNK_SIZE < |rows| then start + INSERT_CHUNK_SIZE else |rows|;
      assert rows[..end] == rows[..start] + rows[start..end];
      stored' := stored' + set k | k in rows[start..end];
      start := end;
    }
    assert rows[..start] == rows;
  }

  ghost predicate IsNewest(stored: set<SaleKey>, newest: int) {
    (exists k :: k in stored && k.sale.soldAt == newest) && forall k :: k in stored ==> k.sale.soldAt <= newest
  }

  lemma {:induction false} NewestExists(stored: set<SaleKey>) returns (newest: int)
    requires stored != {}
    ensures IsNewest(stored, newest)
  {
    var k :| k in stored;
    var rest := stored - {k};
    newest := k.sale.soldAt;
    assert forall other :: other in stored ==> other == k || other in rest;
    if rest != {} {
      var restNewest := NewestExists(rest);
      if restNewest > newest {
        newest := restNewest;
      }
    }
  }

  /** `newest_sale_times` of one title. */
  function NewestOf(stored: set<SaleKey>): (newest: Option<int>)
    ensures newest.None? <==> stored == {}
    ensures newest.Some? ==> IsNewest(stored, newest.value)
  {
    if stored == {} then None
    else
      assert exists newest :: IsNewest(stored, newest) by { var n := NewestExists(stored); }
      NewestIsKey(stored);
      var k :| k in stored && forall other :: other in stored ==> other.sale.soldAt <= k.sale.soldAt;
      Some(k.sale.soldAt)
  }

  lemma NewestIsKey(stored: set<SaleKey>)
    requires stored != {}
    ensures exists k :: k in stored && forall other :: other in stored ==> other.sale.soldAt <= k.sale.soldAt
  {
    var n := NewestExists(stored);
    var k :| k in stored && k.sale.soldAt == n;
  }

  // ---- Syncs over time ----

  function Usable(h: History): seq<Sale> {
    if h == [] then []
    else if h[|h| - 1].Some? then Usable(h[..|h| - 1]) + [h[|h| - 1].value]
    else Usable(h[..|h| - 1])
  }

  /** How often a history lists a sale. */
  function Listed(h: History, s: Sale): nat {
    Count(Usable(h), s)
  }

  lemma {:induction false} ListedConcat(a: History, b: History, s: Sale)
    ensures Listed(a + b, s) == Listed(a, s) + Listed(b, s)
  {
    if b == [] {
      assert a + b == a;
      NoKeys(s);
    } else {
      var front, e := b[..|b| - 1], b[|b| - 1];
      ListedConcat(a, front, s);
      assert (a + b)[..|a + b| - 1] == a + front;
      if e.Some? {
        CountSnoc(Usable(a + front), e.value, s);
        CountSnoc(Usable(front), e.value, s);
      }
      hide Count;
    }
  }

  lemma {:induction false} NotListed(h: History, s: Sale)
    requires forall i :: 0 <= i < |h| ==> h[i] != Some(s)
    ensures Listed(h, s) == 0
  {
    if h != [] {
      var front, e := h[..|h| - 1], h[|h| - 1];
      NotListed(front, s);
      if e.Some? {
        CountSnoc(Usable(front), e.value, s);
      }
    } else {
      NoKeys(s);
    }
  }

  lemma {:induction false} IsListed(h: History, i: nat)
    requires i < |h| && h[i].Some?
    ensures Listed(h, h[i].value) > 0
  {
    var front, e := h[..|h| - 1], h[|h| - 1];
    if e.Some? {
      CountSnoc(Usable(front), e.value, h[i].value);
    }
    if i < |h| - 1 {
      IsListed(front, i);
    }
  }

  /** The last of the keys a history has for the sale at `i`. */
  function LastKey(h: History, i: nat): SaleKey
    requires i < |h| && h[i].Some?
  {
    IsListed(h, i);
    SaleKey(h[i].value, Listed(h, h[i].value) - 1)
  }

  lemma {:induction false} WantedCounts(h: History, from: int, s: Sale)
    ensures Count(Wanted(h, from), s) == if s.soldAt >= from then Listed(h, s) else 0
  {
    if h != [] {
      var front, e := h[..|h| - 1], h[|h| - 1];
      WantedCounts(front, from, s);
      if e.Some? {
        CountSnoc(Usable(front), e.value, s);
        CountSnoc(Wanted(front, from), e.value, s);
      }
      hide Count;
    }
  }

  /** A history only grows, at or after its newest second. */
  ghost predicate Grows(h: History, h': History) {
    forall s :: Listed(h, s) <= Listed(h', s) && (Listed(h, s) < Listed(h', s) ==> forall t :: Listed(h, t) > 0 ==> t.soldAt <= s.soldAt)
  }

  /** One title's stored sales, what the last successful sync saw, and how far back it looked. */
  datatype Title = Title(stored: set<SaleKey>, history: History, seen: History, from: int)

  /** The time a sync reads back to. */
  function ReadBackTo(stored: set<SaleKey>, nowSeconds: int): int {
    var oldestWanted := nowSeconds - HISTORY_SECONDS;
    if NewestOf(stored).Some? && NewestOf(stored).value > oldestWanted then NewestOf(stored).value else oldestWanted
  }

  datatype Event = VenueGrows(history: History) | Sync(nowSeconds: int) | FailedSync

  /** A sync that stops at the page limit stores what it read, all the same. */
  function Taken(t: Title, e: Event): Title {
    match e
    case VenueGrows(h) => t.(history := h)
    case FailedSync => t
    case Sync(now) =>
      var readBackTo := ReadBackTo(t.stored, now);
      t.(stored := t.stored + KeySet(Brought(t.history, readBackTo)),
         seen := t.history,
         from := now - HISTORY_SECONDS)
  }

  ghost predicate Allowed(t: Title, e: Event) {
    match e
    case VenueGrows(h) => NewestFirst(h) && Grows(t.history, h)
    case FailedSync => true
    case Sync(now) => now - HISTORY_SECONDS >= t.from
  }

  ghost predicate Inv(t: Title) {
    && Grows(t.seen, t.history) && NewestFirst(t.history)
    && (forall k :: k in t.stored ==> k.n < Listed(t.seen, k.sale))
    && NumbersFilled(t.stored)
  }

  /** With a number of a sale the earlier ones are stored too. */
  ghost predicate NumbersFilled(stored: set<SaleKey>) {
    forall k, n: nat :: k in stored && n < k.n ==> SaleKey(k.sale, n) in stored
  }

  /** Everything the last successful sync could see in its range is stored. */
  ghost predicate Complete(t: Title) {
    forall k: SaleKey :: k.sale.soldAt >= t.from && k.n < Listed(t.seen, k.sale) ==> k in t.stored
  }

  /** A sale past the page limit that the sync would want is stored already, under each of its numbers. */
  ghost predicate NothingBeyond(t: Title, now: int) {
    forall i :: PAGE_LIMIT <= i < |t.history| && t.history[i].Some? && t.history[i].value.soldAt >= ReadBackTo(t.stored, now) ==>
      LastKey(t.history, i) in t.stored
  }

  /** Nothing the last sync saw is missing in the part of the range that the next one does not read again. */
  ghost predicate NothingMissing(t: Title, now: int) {
    forall k: SaleKey :: now - HISTORY_SECONDS <= k.sale.soldAt < ReadBackTo(t.stored, now) && k.n < Listed(t.seen, k.sale) ==>
      k in t.stored
  }

  lemma GrowsTransitive(a: History, b: History, c: History)
    requires Grows(a, b) && Grows(b, c)
    ensures Grows(a, c)
  {
    hide Listed;
    forall s, t | Listed(a, s) < Listed(c, s) && Listed(a, t) > 0 ensures t.soldAt <= s.soldAt {
      assert Listed(b, t) > 0;
    }
  }

  /** What is older than the newest stored sale has not grown since it was seen. */
  lemma OlderIsUnchanged(t: Title, now: int, s: Sale)
    requires Inv(t) && now - HISTORY_SECONDS <= s.soldAt < ReadBackTo(t.stored, now)
    ensures Listed(t.seen, s) == Listed(t.history, s)
  {
    hide Listed;
    hide NumbersFilled;
    var newest :| newest in t.stored && newest.sale.soldAt == NewestOf(t.stored).value;
    assert Listed(t.seen, newest.sale) > 0;
  }

  lemma SplitAtLimit(h: History, s: Sale)
    ensures Listed(Prefix(h, PAGE_LIMIT), s) + (if |h| > PAGE_LIMIT then Listed(h[PAGE_LIMIT..], s) else 0) == Listed(h, s)
  {
    hide Listed;
    if |h| > PAGE_LIMIT {
      ListedConcat(h[..PAGE_LIMIT], h[PAGE_LIMIT..], s);
      assert h[..PAGE_LIMIT] + h[PAGE_LIMIT..] == h;
    }
  }

  /** A sync stores what it wants, given that nothing new lies beyond the limit. */
  lemma SyncHolds(t: Title, now: int, k: SaleKey)
    requires Inv(t) && Allowed(t, Sync(now)) && NothingMissing(t, now) && NothingBeyond(t, now)
    requires k.sale.soldAt >= now - HISTORY_SECONDS && k.n < Listed(t.history, k.sale)
    ensures k in Taken(t, Sync(now)).stored
  {
    hide Listed;
    hide KeySet;
    hide ReadBackTo;
    hide Wanted;
    var from, h := ReadBackTo(t.stored, now), t.history;
    if k.sale.soldAt < from {
      OlderIsUnchanged(t, now, k.sale);
    } else if k.n < Listed(Prefix(h, PAGE_LIMIT), k.sale) {
      WantedCounts(Prefix(h, PAGE_LIMIT), from, k.sale);
      KeySetIsCounts(Brought(h, from), k);
    } else {
      SplitAtLimit(h, k.sale);
      var i := ListedSomewhere(h[PAGE_LIMIT..], k.sale);
      assert h[PAGE_LIMIT + i] == Some(k.sale);
      assert LastKey(h, PAGE_LIMIT + i) in t.stored;
    }
  }

  lemma ListedSomewhere(h: History, s: Sale) returns (i: nat)
    requires Listed(h, s) > 0
    ensures i < |h| && h[i] == Some(s)
  {
    hide Listed;
    if forall j :: 0 <= j < |h| ==> h[j] != Some(s) {
      NotListed(h, s);
      assert false;
    }
    i :| 0 <= i < |h| && h[i] == Some(s);
  }

  /** Beyond the limit a sync stores nothing. */
  lemma BeyondIsNotBrought(t: Title, now: int, i: nat)
    requires PAGE_LIMIT <= i < |t.history| && t.history[i].Some? && LastKey(t.history, i) !in t.stored
    ensures LastKey(t.history, i) !in Taken(t, Sync(now)).stored
  {
    hide Listed;
    hide KeySet;
    hide ReadBackTo;
    hide Brought;
    var h, from, k := t.history, ReadBackTo(t.stored, now), LastKey(t.history, i);
    if k in KeySet(Brought(h, from)) {
      BroughtAreListed(h, from, k);
      SplitAtLimit(h, k.sale);
      assert h[PAGE_LIMIT..][i - PAGE_LIMIT] == h[i];
      IsListed(h[PAGE_LIMIT..], i - PAGE_LIMIT);
    }
  }

  lemma BehindIsNotBrought(t: Title, now: int, k: SaleKey)
    requires k.sale.soldAt < ReadBackTo(t.stored, now) && k !in t.stored
    ensures k !in Taken(t, Sync(now)).stored
  {
    hide KeySet;
    hide ReadBackTo;
    var from := ReadBackTo(t.stored, now);
    if k in KeySet(Brought(t.history, from)) {
      BroughtAreListed(t.history, from, k);
    }
  }

  /**
   When a sync leaves nothing out: after it everything visible in its range is stored exactly when nothing was missing
   behind the second it reads back to, and each wanted sale past the page limit was stored before. A title that is
   complete misses nothing there.
   */
  lemma SyncCompleteIff(t: Title, now: int)
    requires Inv(t) && Allowed(t, Sync(now))
    ensures Complete(Taken(t, Sync(now))) <==> NothingMissing(t, now) && NothingBeyond(t, now)
    ensures Complete(t) ==> NothingMissing(t, now)
  {
    hide Listed;
    hide KeySet;
    hide ReadBackTo;
    hide Brought;
    hide NumbersFilled;
    var t' := Taken(t, Sync(now));
    if Complete(t') {
      forall k: SaleKey | now - HISTORY_SECONDS <= k.sale.soldAt < ReadBackTo(t.stored, now) && k.n < Listed(t.seen, k.sale)
        ensures k in t.stored
      {
        assert k in t'.stored;
        if k !in t.stored {
          BehindIsNotBrought(t, now, k);
        }
      }
      forall i | PAGE_LIMIT <= i < |t.history| && t.history[i].Some? && t.history[i].value.soldAt >= ReadBackTo(t.stored, now)
        ensures LastKey(t.history, i) in t.stored
      {
        ReadsTheRange(t, now);
        assert LastKey(t.history, i) in t'.stored;
        if LastKey(t.history, i) !in t.stored {
          BeyondIsNotBrought(t, now, i);
        }
      }
    }
    if NothingMissing(t, now) && NothingBeyond(t, now) {
      forall k: SaleKey | k.sale.soldAt >= t'.from && k.n < Listed(t'.seen, k.sale) ensures k in t'.stored {
        SyncHolds(t, now, k);
      }
    }
  }

  lemma ReadsTheRange(t: Title, now: int)
    ensures ReadBackTo(t.stored, now) >= now - HISTORY_SECONDS
  {
  }

  /** A sync that does not stop short, or stops at the very end of the history, leaves nothing out. */
  lemma NothingBeyondTheEnd(t: Title, now: int)
    requires NewestFirst(t.history)
    requires ReachesEnd(t.history, ReadBackTo(t.stored, now)) || |t.history| == PAGE_LIMIT
    ensures NothingBeyond(t, now)
  {
    hide ReadBackTo;
    if |t.history| > PAGE_LIMIT {
      var first := t.history[..PAGE_LIMIT];
      var i :| 0 <= i < |first| && first[i].Some? && first[i].value.soldAt < ReadBackTo(t.stored, now);
      assert t.history[i] == first[i];
    }
  }

  /** What a read brings is listed, and nothing is brought from behind its start. */
  lemma BroughtAreListed(h: History, from: int, k: SaleKey)
    requires k in KeySet(Brought(h, from))
    ensures k.n < Listed(h, k.sale) && k.sale.soldAt >= from
    ensures k.n < Listed(Prefix(h, PAGE_LIMIT), k.sale)
  {
    hide Listed;
    hide KeySet;
    var first := Prefix(h, PAGE_LIMIT);
    KeySetIsCounts(Wanted(first, from), k);
    WantedCounts(first, from, k.sale);
    SplitAtLimit(h, k.sale);
  }

  lemma SyncKeeps(t: Title, now: int)
    requires Inv(t) && Allowed(t, Sync(now))
    ensures Inv(Taken(t, Sync(now)))
  {
    hide Listed;
    hide KeySet;
    hide ReadBackTo;
    var t' := Taken(t, Sync(now));
    var from := ReadBackTo(t.stored, now);
    forall k | k in t'.stored ensures k.n < Listed(t'.seen, k.sale) {
      if k !in t.stored {
        BroughtAreListed(t.history, from, k);
      }
    }
    forall k, n: nat | k in t'.stored && n < k.n ensures SaleKey(k.sale, n) in t'.stored {
      if k !in t.stored {
        KeySetIsCounts(Brought(t.history, from), k);
        KeySetIsCounts(Brought(t.history, from), SaleKey(k.sale, n));
      }
    }
  }

  lemma StepKeeps(t: Title, e: Event)
    requires Inv(t) && Allowed(t, e)
    ensures Inv(Taken(t, e))
  {
    match e
    case VenueGrows(h) => GrowsTransitive(t.seen, t.history, h);
    case FailedSync =>
    case Sync(now) => SyncKeeps(t, now);
  }

  ghost predicate Follows(t: Title, t': Title) {
    exists e :: Allowed(t, e) && t' == Taken(t, e)
  }

  ghost predicate IsRun(run: seq<Title>) {
    && run != [] && run[0].stored == {} && run[0].history == run[0].seen == []
    && forall i :: 0 <= i < |run| - 1 ==> Follows(run[i], run[i + 1])
  }

  lemma {:induction false} InvariantHolds(run: seq<Title>, i: nat)
    requires IsRun(run) && i < |run|
    ensures Inv(run[i])
    decreases i
  {
    if i > 0 {
      hide Inv;
      InvariantHolds(run, i - 1);
      assert Follows(run[i - 1], run[i - 1 + 1]);
      var e :| Allowed(run[i - 1], e) && run[i] == Taken(run[i - 1], e);
      StepKeeps(run[i - 1], e);
    } else {
      StartIsSound(run[0]);
    }
  }

  lemma StartIsSound(t: Title)
    requires t.stored == {} && t.history == t.seen == []
    ensures Inv(t) && Complete(t)
  {
  }

  /** Every sync so far found the sales it wanted before the page limit, or had them already. */
  ghost predicate SyncsFit(run: seq<Title>, i: nat)
    requires i < |run|
  {
    forall j: nat, now :: j < i && IsSync(run[j], now, run[j + 1]) ==> NothingBeyond(run[j], now)
  }

  ghost predicate IsSync(t: Title, now: int, t': Title) {
    Allowed(t, Sync(now)) && t' == Taken(t, Sync(now))
  }

  lemma CompleteStays(t: Title, t': Title)
    requires Inv(t) && Follows(t, t') && Complete(t)
    ensures Complete(t') <==> forall now :: IsSync(t, now, t') ==> NothingBeyond(t, now)
  {
    hide Inv;
    hide Complete;
    hide NothingBeyond;
    hide Taken;
    hide Allowed;
    forall now | IsSync(t, now, t') ensures Complete(t') <==> NothingBeyond(t, now) {
      SyncCompleteIff(t, now);
    }
    var e :| Allowed(t, e) && t' == Taken(t, e);
    if e.Sync? {
      assert IsSync(t, e.nowSeconds, t');
    } else {
      NoSyncKeepsComplete(t, e);
    }
  }

  lemma NoSyncKeepsComplete(t: Title, e: Event)
    requires Complete(t) && !e.Sync?
    ensures Complete(Taken(t, e))
  {
  }

  /** Completeness over runs: every state up to here is complete exactly when every sync so far fitted. */
  lemma {:induction false} CompleteIff(run: seq<Title>, i: nat)
    requires IsRun(run) && i < |run|
    ensures (forall j :: 0 <= j <= i ==> Complete(run[j])) <==> SyncsFit(run, i)
    decreases i
  {
    hide Complete;
    hide NothingBeyond;
    hide Inv;
    hide IsSync;
    if i == 0 {
      StartIsSound(run[0]);
    } else {
      CompleteIff(run, i - 1);
      assert Follows(run[i - 1], run[i - 1 + 1]);
      InvariantHolds(run, i - 1);
      hide IsRun;
      hide Follows;
      if Complete(run[i - 1]) {
        CompleteStays(run[i - 1], run[i]);
      }
    }
  }

  /** The stored keys within the range of the last successful sync are exactly the keys of the sales it could see there. */
  ghost predicate StoredIsVisible(t: Title) {
    forall k: SaleKey :: k.sale.soldAt >= t.from ==> (k in t.stored <==> k in KeySet(Wanted(t.seen, t.from)))
  }

  lemma CompleteIsVisible(t: Title)
    requires Inv(t)
    ensures Complete(t) <==> StoredIsVisible(t)
  {
    hide Listed;
    hide KeySet;
    hide Wanted;
    hide NumbersFilled;
    forall k: SaleKey | k.sale.soldAt >= t.from ensures k in KeySet(Wanted(t.seen, t.from)) <==> k.n < Listed(t.seen, k.sale) {
      KeySetIsCounts(Wanted(t.seen, t.from), k);
      WantedCounts(t.seen, t.from, k.sale);
    }
  }

  /**
   Complete and idempotent: after any syncs, with failures anywhere, the stored keys are always exactly the visible ones if
   and only if no sync wanted a sale past the page limit that it did not have.
   */
  lemma StoredIsLastSeen(run: seq<Title>, i: nat)
    requires IsRun(run) && i < |run|
    ensures (forall j :: 0 <= j <= i ==> StoredIsVisible(run[j])) <==> SyncsFit(run, i)
  {
    CompleteIff(run, i);
    hide *;
    forall j: nat | j <= i ensures Complete(run[j]) <==> StoredIsVisible(run[j]) {
      InvariantHolds(run, j);
      CompleteIsVisible(run[j]);
    }
  }

  /** A sync run again on the same history stores nothing, also after a stop at the page limit. */
  lemma RerunStoresNothing(t: Title, now: int, again: int)
    requires again >= now
    ensures var synced := Taken(t, Sync(now)); Taken(synced, Sync(again)).stored == synced.stored
  {
    hide KeySet;
    hide Wanted;
    hide Usable;
    var from, synced := ReadBackTo(t.stored, now), Taken(t, Sync(now));
    var later := ReadBackTo(synced.stored, again);
    ReadsNoFurtherBack(t.stored, synced.stored, now, again);
    forall k | k in KeySet(Brought(t.history, later)) ensures k in synced.stored {
      BroughtFromEarlier(t.history, from, later, k);
    }
  }

  /** A later sync, of a store that only grew, reads back no further. */
  lemma ReadsNoFurtherBack(stored: set<SaleKey>, stored': set<SaleKey>, now: int, again: int)
    requires stored <= stored' && now <= again
    ensures ReadBackTo(stored, now) <= ReadBackTo(stored', again)
  {
  }

  lemma BroughtFromEarlier(h: History, from: int, later: int, k: SaleKey)
    requires from <= later && k in KeySet(Brought(h, later))
    ensures k in KeySet(Brought(h, from))
  {
    hide KeySet;
    hide Usable;
    var first := Prefix(h, PAGE_LIMIT);
    KeySetIsCounts(Wanted(first, later), k);
    KeySetIsCounts(Wanted(first, from), k);
    WantedCounts(first, later, k.sale);
    WantedCounts(first, from, k.sale);
  }

  // ---- A stop at the page limit ----

  lemma StoredGrows(t: Title, e: Event)
    ensures t.stored <= Taken(t, e).stored
  {
  }

  /** A sync never reads behind the newest stored sale. */
  lemma NothingBehindNewest(t: Title, now: int, k: SaleKey, newest: SaleKey)
    requires newest in t.stored && k.sale.soldAt < newest.sale.soldAt && k !in t.stored
    ensures k !in Taken(t, Sync(now)).stored
  {
    hide KeySet;
    var from := ReadBackTo(t.stored, now);
    if k in KeySet(Brought(t.history, from)) {
      BroughtAreListed(t.history, from, k);
    }
  }

  /** So a sale that is not stored once a later one is stays out, over every later run. */
  lemma {:induction false} LeftOutStaysOut(run: seq<Title>, i: nat, j: nat, k: SaleKey, newest: SaleKey)
    requires IsRun(run) && i <= j < |run|
    requires newest in run[i].stored && k.sale.soldAt < newest.sale.soldAt && k !in run[i].stored
    ensures k !in run[j].stored && newest in run[j].stored
    decreases j
  {
    if i < j {
      LeftOutStaysOut(run, i, j - 1, k, newest);
      assert Follows(run[j - 1], run[j - 1 + 1]);
      hide IsRun;
      var t := run[j - 1];
      var e :| Allowed(t, e) && run[j] == Taken(t, e);
      StoredGrows(t, e);
      if e.Sync? {
        NothingBehindNewest(t, e.nowSeconds, k, newest);
      }
    }
  }

  /** A read stops short exactly when the first pages, up to the limit, are full and hold nothing older than it wants. */
  lemma StopsIff(h: History, from: int)
    ensures !ReachesEnd(h, from) <==> |h| >= PAGE_LIMIT && forall i :: 0 <= i < PAGE_LIMIT && h[i].Some? ==> h[i].value.soldAt >= from
  {
    if |h| >= PAGE_LIMIT {
      var first := h[..PAGE_LIMIT];
      assert forall i :: 0 <= i < PAGE_LIMIT ==> first[i] == h[i];
    }
  }

  function SaleAt(second: nat): Sale {
    Sale(second, 100, Offer, "", None, "")
  }

  /** One sale more than the pages hold, one a second, newest first. */
  function LongHistory(): (h: History)
    ensures |h| == PAGE_LIMIT + 1 && forall i :: 0 <= i < |h| ==> h[i] == Some(SaleAt(PAGE_LIMIT - i))
  {
    seq(PAGE_LIMIT + 1, i requires 0 <= i < PAGE_LIMIT + 1 => Some(SaleAt(PAGE_LIMIT - i)))
  }

  const EMPTY := Title({}, [], [], -HISTORY_SECONDS)

  /** The venue lists the long history, and the first sync reads it. */
  function LosingRun(): seq<Title> {
    var listed := Taken(EMPTY, VenueGrows(LongHistory()));
    [EMPTY, listed, Taken(listed, Sync(0))]
  }

  lemma LosingRunIsRun()
    ensures IsRun(LosingRun())
  {
    hide Listed;
    hide LongHistory;
    hide KeySet;
    var run, h := LosingRun(), LongHistory();
    forall s: Sale ensures Listed([], s) == 0 {
      NotListed([], s);
    }
    assert Allowed(EMPTY, VenueGrows(h));
    assert Follows(run[0], run[1]);
    assert Allowed(run[1], Sync(0));
    assert Follows(run[1], run[2]);
  }

  /** What the sync of the long history brings: all of its sales but the oldest. */
  lemma LosesOldest()
    ensures var t := LosingRun()[2];
      && SaleKey(SaleAt(PAGE_LIMIT), 0) in t.stored
      && SaleKey(SaleAt(0), 0) !in t.stored
      && SaleKey(SaleAt(0), 0) in KeySet(Wanted(t.seen, t.from))
  {
    hide Listed;
    hide KeySet;
    hide LongHistory;
    var h := LongHistory();
    var first := Prefix(h, PAGE_LIMIT);
    var from := -HISTORY_SECONDS;
    assert first[0] == Some(SaleAt(PAGE_LIMIT)) && h[PAGE_LIMIT] == Some(SaleAt(0));
    IsListed(first, 0);
    NotListed(first, SaleAt(0));
    IsListed(h, PAGE_LIMIT);
    Keyed(first, from, SaleAt(PAGE_LIMIT));
    Keyed(first, from, SaleAt(0));
    Keyed(h, from, SaleAt(0));
  }

  /** The first key of a sale is among those of what is wanted exactly when the sale is listed and not too old. */
  lemma Keyed(h: History, from: int, s: Sale)
    ensures SaleKey(s, 0) in KeySet(Wanted(h, from)) <==> s.soldAt >= from && Listed(h, s) > 0
  {
    hide KeySet;
    hide Usable;
    KeySetIsCounts(Wanted(h, from), SaleKey(s, 0));
    WantedCounts(h, from, s);
  }

  /**
   The page limit can lose a sale for good: in every run that begins like this one the oldest sale is visible to the sync
   that stops, in its range, and is never stored.
   */
  lemma StopLosesSale(run: seq<Title>, j: nat)
    requires IsRun(run) && 2 <= j < |run| && run[..3] == LosingRun()
    ensures IsRun(LosingRun())
    ensures SaleKey(SaleAt(0), 0) in KeySet(Wanted(run[2].seen, run[2].from)) && SaleKey(SaleAt(0), 0) !in run[j].stored
  {
    hide IsRun;
    hide LosingRun;
    LosingRunIsRun();
    LosesOldest();
    assert run[2] == run[..3][2];
    LeftOutStaysOut(run, 2, j, SaleKey(SaleAt(0), 0), SaleKey(SaleAt(PAGE_LIMIT), 0));
  }

  // ---- One title's sync, changed in place ----

  class VenueSales {
    var stored: set<SaleKey>

    constructor ()
      ensures stored == {}
    {
      stored := {};
    }

    /** `sync_one`: a failed request leaves the store as it was; a stop at the page limit stores what was read. */
    method SyncTitle(h: History, nowSeconds: int, failsAt: Option<nat>) returns (read: Read)
      requires NewestFirst(h)
      modifies this
      ensures read.Failed? ==> stored == old(stored)
      ensures read.Sales? ==> stored == old(stored) + KeySet(read.sales)
      ensures read.Sales? ==> forall t: Title :: t.stored == old(stored) && t.history == h ==>
        stored == Taken(t, Sync(nowSeconds)).stored && (read.complete ==> NothingBeyond(t, nowSeconds))
      ensures failsAt.None? ==> read.Sales?
    {
      hide KeySet;
      hide Wanted;
      hide NothingBeyond;
      read := FetchTitleSales(h, ReadBackTo(stored, nowSeconds), failsAt);
      if read.Sales? {
        forall t: Title | t.stored == stored && t.history == h && read.complete ensures NothingBeyond(t, nowSeconds) {
          NothingBeyondTheEnd(t, nowSeconds);
        }
        stored := StoreSales(stored, read.sales);
      }
    }
  }
}
