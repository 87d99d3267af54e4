/**
 Buy once, three times over: the executor's memory of keys, the scorecard's set of keys, and the backend's unique
 indexes. Key strings name a purchase exactly, so all three keep the same purchases of any sequence of approvals; and
 whatever the executor forgets or loses in a restart, the backend stores each purchase once.
 */
module Purchases {
  import opened Texts
  import opened Ranks

  const BOUGHT_MEMORY_SIZE := 10_000

  // ---- Keys ----

  datatype Date = Date(year: nat, month: nat, day: nat)

  predicate ValidDate(d: Date) {
    d.year <= 9999 && d.month <= 99 && d.day <= 99
  }

  type Day = d: Date | ValidDate(d) witness Date(1970, 1, 1)

  function Pad2(n: nat): string
    requires n < 100
  {
    [Digit(n / 10), Digit(n % 10)]
  }

  /** `date.isoformat()`. */
  function IsoDate(d: Day): string {
    Pad2(d.year / 100) + Pad2(d.year % 100) + ['-'] + Pad2(d.month) + ['-'] + Pad2(d.day)
  }

  lemma Pad2Injective(a: nat, b: nat)
    requires a < 100 && b < 100 && Pad2(a) == Pad2(b)
    ensures a == b
  {
    assert Digit(a / 10) == Pad2(a)[0] == Pad2(b)[0] == Digit(b / 10);
    assert Digit(a % 10) == Pad2(a)[1] == Pad2(b)[1] == Digit(b % 10);
  }

  lemma Pieces(d: Day)
    ensures var s := IsoDate(d);
      |s| == 10 && s[..2] == Pad2(d.year / 100) && s[2..4] == Pad2(d.year % 100) && s[5..7] == Pad2(d.month) && s[8..] == Pad2(d.day)
  {
    hide Digit;
  }

  lemma IsoDateInjective(a: Day, b: Day)
    requires IsoDate(a) == IsoDate(b)
    ensures a == b
  {
    hide Pad2;
    hide IsoDate;
    Pieces(a);
    Pieces(b);
    Pad2Injective(a.year / 100, b.year / 100);
    Pad2Injective(a.year % 100, b.year % 100);
    Pad2Injective(a.month, b.month);
    Pad2Injective(a.day, b.day);
  }

  datatype Purchase = Purchase(venue: string, name: string, priceCents: nat, listingId: Option<string>, day: Day)

  /** Venue names hold no colon (`VENUE_PATTERN`); item names and listing ids may. */
  predicate Nameable(p: Purchase) {
    ':' !in p.venue
  }

  function ListingKey(venue: string, listingId: string): string {
    "listing:" + venue + [':'] + listingId
  }

  function SnapshotKey(p: Purchase): string {
    "snapshot:" + (p.venue + [':'] + (p.name + [':'] + Decimal(p.priceCents) + [':'] + IsoDate(p.day)))
  }

  /** The first of `purchase_keys`; the second is `SnapshotKey`. */
  function KeyOf(p: Purchase): string {
    if p.listingId.Some? then ListingKey(p.venue, p.listingId.value) else SnapshotKey(p)
  }

  predicate SameListing(p: Purchase, q: Purchase) {
    p.venue == q.venue && p.listingId.Some? && p.listingId == q.listingId
  }

  predicate SameSnapshot(p: Purchase, q: Purchase) {
    p.venue == q.venue && p.name == q.name && p.priceCents == q.priceCents && p.day == q.day
  }

  lemma ListingKeyInjective(v: string, id: string, v': string, id': string)
    requires ':' !in v && ':' !in v' && ListingKey(v, id) == ListingKey(v', id')
    ensures v == v' && id == id'
  {
    var prefix := "listing:";
    assert ListingKey(v, id)[|prefix|..] == v + [':'] + id;
    assert ListingKey(v', id')[|prefix|..] == v' + [':'] + id';
    SplitFirst(v, ':', id, v', id');
  }

  lemma NoColon(price: nat, day: Day)
    ensures ':' !in Decimal(price) && ':' !in IsoDate(day)
  {
    DecimalRoundTrip(price);
    assert forall i :: 0 <= i < |IsoDate(day)| ==> IsoDate(day)[i] != ':';
  }

  lemma SnapshotKeyInjective(p: Purchase, q: Purchase)
    requires Nameable(p) && Nameable(q)
    ensures SnapshotKey(p) == SnapshotKey(q) <==> SameSnapshot(p, q)
  {
    if SnapshotKey(p) == SnapshotKey(q) {
      hide IsoDate;
      hide Decimal;
      var prefix := "snapshot:";
      var d, e := Decimal(p.priceCents), Decimal(q.priceCents);
      var tail, tail' := p.name + [':'] + d + [':'] + IsoDate(p.day), q.name + [':'] + e + [':'] + IsoDate(q.day);
      assert SnapshotKey(p)[|prefix|..] == p.venue + [':'] + tail;
      assert SnapshotKey(q)[|prefix|..] == q.venue + [':'] + tail';
      SplitFirst(p.venue, ':', tail, q.venue, tail');
      NoColon(p.priceCents, p.day);
      NoColon(q.priceCents, q.day);
      SplitLast(p.name + [':'] + d, ':', IsoDate(p.day), q.name + [':'] + e, IsoDate(q.day));
      SplitLast(p.name, ':', d, q.name, e);
      DecimalInjective(p.priceCents, q.priceCents);
      IsoDateInjective(p.day, q.day);
    }
  }

  lemma KeysApart(v: string, id: string, p: Purchase)
    ensures ListingKey(v, id) != SnapshotKey(p)
  {
    assert ListingKey(v, id)[0] == 'l' && SnapshotKey(p)[0] == 's';
  }

  // ---- The rule ----

  /** A buy repeats an earlier one: a listing by its id, a snapshot by any buy of its item, price and day. */
  predicate Repeats(p: Purchase, bought: seq<Purchase>) {
    exists q :: q in bought && if p.listingId.Some? then SameListing(p, q) else SameSnapshot(p, q)
  }

  /** What the rule keeps of a sequence of approvals. */
  function Kept(approvals: seq<Purchase>): seq<Purchase> {
    if approvals == [] then []
    else
      var kept, p := Kept(approvals[..|approvals| - 1]), approvals[|approvals| - 1];
      if Repeats(p, kept) then kept else kept + [p]
  }

  ghost predicate AllNameable(approvals: seq<Purchase>) {
    forall p :: p in approvals ==> Nameable(p)
  }

  function KeysOf(bought: seq<Purchase>): set<string> {
    (set p | p in bought :: KeyOf(p)) + (set p | p in bought :: SnapshotKey(p))
  }

  /** The keys of what was bought tell exactly which purchase repeats one of it. */
  lemma KeyTellsRepeat(p: Purchase, bought: seq<Purchase>)
    requires Nameable(p) && AllNameable(bought)
    ensures KeyOf(p) in KeysOf(bought) <==> Repeats(p, bought)
  {
    hide SnapshotKey;
    hide ListingKey;
    forall q | q in bought ensures
      (KeyOf(p) == KeyOf(q) || KeyOf(p) == SnapshotKey(q)) <==> if p.listingId.Some? then SameListing(p, q) else SameSnapshot(p, q)
    {
      SnapshotKeyInjective(p, q);
      if p.listingId.Some? {
        KeysApart(p.venue, p.listingId.value, q);
        if q.listingId.Some? && KeyOf(p) == KeyOf(q) {
          ListingKeyInjective(p.venue, p.listingId.value, q.venue, q.listingId.value);
        }
      } else if q.listingId.Some? {
        KeysApart(q.venue, q.listingId.value, p);
      }
    }
  }

  lemma {:induction false} KeptNameable(approvals: seq<Purchase>)
    requires AllNameable(approvals)
    ensures AllNameable(Kept(approvals)) && |Kept(approvals)| <= |approvals|
  {
    if approvals != [] {
      KeptNameable(approvals[..|approvals| - 1]);
    }
  }

  lemma KeysSnoc(bought: seq<Purchase>, p: Purchase)
    ensures KeysOf(bought + [p]) == KeysOf(bought) + {KeyOf(p), SnapshotKey(p)}
  {
    hide SnapshotKey;
    hide KeyOf;
    assert forall q :: q in bought + [p] <==> q in bought || q == p;
  }

  // ---- The scorecard ----

  datatype Decision = Decision(purchase: Purchase, approve: bool, scorable: bool)

  function Approvals(decisions: seq<Decision>): seq<Purchase> {
    if decisions == [] then []
    else
      var front, d := decisions[..|decisions| - 1], decisions[|decisions| - 1];
      if d.approve && d.scorable then Approvals(front) + [d.purchase] else Approvals(front)
  }

  /** `collect_trades`: approvals in order, each purchase once. */
  method CollectTrades(decisions: seq<Decision>) returns (trades: seq<Purchase>)
    requires AllNameable(Approvals(decisions))
    ensures trades == Kept(Approvals(decisions))
  {
    hide KeyOf;
    hide SnapshotKey;
    hide Repeats;
    trades := [];
    var bought: set<string> := {};
    for i := 0 to |decisions|
      invariant AllNameable(Approvals(decisions[..i]))  ==> trades == Kept(Approvals(decisions[..i])) && bought == KeysOf(trades)
    {
      var d := decisions[i];
      assert decisions[..i + 1][..i] == decisions[..i];
      ApprovalsGrow(decisions, i);
      if !d.approve || !d.scorable {
        continue;
      }
      ghost var before := Approvals(decisions[..i]);
      assert Approvals(decisions[..i + 1])[..|before|] == before;
      var key, snapshotKey := KeyOf(d.purchase), SnapshotKey(d.purchase);
      if AllNameable(Approvals(decisions[..i + 1])) {
        assert d.purchase in Approvals(decisions[..i + 1]);
        KeptNameable(before);
        KeyTellsRepeat(d.purchase, Kept(before));
      }
      if key in bought {
        continue;
      }
      KeysSnoc(trades, d.purchase);
      bought := bought + {key, snapshotKey};
      trades := trades + [d.purchase];
    }
    assert decisions[..|decisions|] == decisions;
  }

  lemma ApprovalsGrow(decisions: seq<Decision>, i: nat)
    requires i < |decisions|
    ensures forall p :: p in Approvals(decisions[..i]) ==> p in Approvals(decisions[..i + 1])
  {
    assert decisions[..i + 1][..i] == decisions[..i];
  }

  // ---- The backend ----

  /** What `ingest_simulated_trade` stores, one request at a time: the snapshot check, then the unique indexes. */
  function StoredAfter(table: seq<Purchase>, p: Purchase): seq<Purchase> {
    if p.listingId.None? && (exists row :: row in table && SameSnapshot(p, row)) then table
    else if IndexConflict(p, table) then table
    else table + [p]
  }

  /** The partial unique indexes: (venue, listing), and (venue, item, price, day) among rows without a listing. */
  predicate IndexConflict(p: Purchase, table: seq<Purchase>) {
    exists row :: row in table &&
      if p.listingId.Some? then SameListing(p, row) else row.listingId.None? && SameSnapshot(p, row)
  }

  /** The backend's check and indexes are the rule. */
  lemma BackendIsRule(table: seq<Purchase>, p: Purchase)
    ensures StoredAfter(table, p) == if Repeats(p, table) then table else table + [p]
  {
  }

  // ---- The executor ----

  /** `_remember_purchase`: a key seen again keeps its place, the oldest is dropped when the memory is full. */
  function Remembered(bought: seq<string>, key: string, limit: nat): seq<string> {
    if key in bought then LastN(bought, limit) else LastN(bought + [key], limit)
  }

  /** The memory after an order was taken. */
  function Noted(bought: seq<string>, p: Purchase, limit: nat): seq<string> {
    var remembered := Remembered(bought, KeyOf(p), limit);
    if KeyOf(p) != SnapshotKey(p) then Remembered(remembered, SnapshotKey(p), limit) else remembered
  }

  /**
   An approval whose order is confirmed (`taken`) or not; an order that was not confirmed, because its reply was lost or
   came too late, reaching the backend all the same, then or at any later time; and a restart.
   */
  datatype Event = Approved(purchase: Purchase, taken: bool) | Arrives(purchase: Purchase) | Restart

  datatype Listener = Listener(bought: seq<string>, placed: seq<Purchase>, table: seq<Purchase>)

  const START := Listener([], [], [])

  /** `execute` against the backend: only a confirmed order is remembered, and a restart loses the memory. */
  function Executed(s: Listener, e: Event, limit: nat): Listener {
    match e
    case Restart => s.(bought := [])
    case Arrives(p) => s.(table := StoredAfter(s.table, p))
    case Approved(p, taken) =>
      if KeyOf(p) in s.bought || !taken then s
      else Listener(Noted(s.bought, p, limit), s.placed + [p], StoredAfter(s.table, p))
  }

  function ExecutedAll(events: seq<Event>, limit: nat): Listener {
    if events == [] then START else Executed(ExecutedAll(events[..|events| - 1], limit), events[|events| - 1], limit)
  }

  /** The approvals whose orders get through, confirmed or not, in the order they reach the backend. */
  function TakenApprovals(events: seq<Event>): seq<Purchase> {
    if events == [] then []
    else
      var front, e := events[..|events| - 1], events[|events| - 1];
      if e.Arrives? || (e.Approved? && e.taken) then TakenApprovals(front) + [e.purchase] else TakenApprovals(front)
  }

  /** No stored row repeats an earlier one. */
  ghost predicate RepeatFree(table: seq<Purchase>) {
    forall i :: 0 <= i < |table| ==> !Repeats(table[i], table[..i])
  }

  /** Whatever the executor remembers, forgets or loses, the backend never holds a purchase twice. */
  lemma {:induction false} TableNeverRepeats(events: seq<Event>, limit: nat)
    ensures RepeatFree(ExecutedAll(events, limit).table)
  {
    hide KeyOf;
    hide SnapshotKey;
    if events != [] {
      var front, e := events[..|events| - 1], events[|events| - 1];
      TableNeverRepeats(front, limit);
      var table := ExecutedAll(front, limit).table;
      if !e.Restart? {
        BackendIsRule(table, e.purchase);
        hide Repeats;
        var table' := table + [e.purchase];
        assert table'[..|table|] == table;
        assert forall i :: 0 <= i < |table| ==> table'[..i] == table[..i] && table'[i] == table[i];
      }
    }
  }

  /** Every key in memory names only purchases the backend would refuse. */
  ghost predicate MemoryCovered(bought: seq<string>, table: seq<Purchase>) {
    forall p :: Nameable(p) && KeyOf(p) in bought ==> Repeats(p, table)
  }

  /** What the rule does with one more approval. */
  function RuleAfter(table: seq<Purchase>, p: Purchase): seq<Purchase> {
    if Repeats(p, table) then table else table + [p]
  }

  /** The executor and the backend together follow the rule on every next approval exactly when the memory is covered. */
  lemma CoveredIffRule(s: Listener, limit: nat)
    ensures MemoryCovered(s.bought, s.table)
      <==> forall p :: Nameable(p) ==> Executed(s, Approved(p, true), limit).table == RuleAfter(s.table, p)
  {
    hide KeyOf;
    hide SnapshotKey;
    hide Repeats;
    forall p ensures Executed(s, Approved(p, true), limit).table == RuleAfter(s.table, p)
      <==> (KeyOf(p) in s.bought ==> Repeats(p, s.table))
    {
      BackendIsRule(s.table, p);
      assert s.table + [p] != s.table;
    }
  }

  predicate SnapshotCovered(p: Purchase, table: seq<Purchase>) {
    exists row :: row in table && SameSnapshot(p, row)
  }

  lemma {:induction false} KeyNames(p: Purchase, q: Purchase)
    requires Nameable(p) && Nameable(q)
    ensures KeyOf(q) == SnapshotKey(p) ==> q.listingId.None? && SameSnapshot(q, p)
    ensures KeyOf(q) == KeyOf(p) && p.listingId.Some? ==> SameListing(q, p)
  {
    if q.listingId.Some? {
      KeysApart(q.venue, q.listingId.value, p);
      if KeyOf(q) == KeyOf(p) && p.listingId.Some? {
        ListingKeyInjective(p.venue, p.listingId.value, q.venue, q.listingId.value);
      }
    } else {
      SnapshotKeyInjective(p, q);
      if p.listingId.Some? {
        KeysApart(p.venue, p.listingId.value, q);
      }
    }
  }

  /** The snapshot purchase a buy stands for. */
  function AsSnapshot(p: Purchase): Purchase {
    p.(listingId := None)
  }

  lemma RememberedHas(bought: seq<string>, key: string, limit: nat)
    requires limit >= 1
    ensures key in bought || key in Remembered(bought, key, limit)
    ensures |bought| <= limit ==> key in Remembered(bought, key, limit)
    ensures forall k :: k in Remembered(bought, key, limit) ==> k in bought || k == key
  {
    if key !in bought {
      var all := bought + [key];
      assert LastN(all, limit)[|LastN(all, limit)| - 1] == key;
    }
  }

  lemma StoredCovers(table: seq<Purchase>, p: Purchase, q: Purchase)
    ensures Repeats(q, table) ==> Repeats(q, StoredAfter(table, p))
    ensures p.listingId.Some? && SameListing(q, p) ==> Repeats(q, StoredAfter(table, p))
    ensures q.listingId.None? && SameSnapshot(q, p) ==> (Repeats(q, StoredAfter(table, p)) <==> SnapshotCovered(p, StoredAfter(table, p)))
  {
    BackendIsRule(table, p);
    var table' := StoredAfter(table, p);
    assert forall r :: r in table ==> r in table';
    if !Repeats(p, table) {
      assert p in table';
    }
  }

  /** An order the backend takes, or whose item, price and day some row has already. */
  predicate OrderFits(p: Purchase, table: seq<Purchase>) {
    !Repeats(p, table) || SnapshotCovered(p, table)
  }

  lemma FitsIsCovered(table: seq<Purchase>, p: Purchase)
    ensures OrderFits(p, table) <==> SnapshotCovered(p, StoredAfter(table, p))
  {
    BackendIsRule(table, p);
    if !Repeats(p, table) {
      assert p in StoredAfter(table, p);
    }
  }

  /**
   An order sent from a covered memory leaves it covered exactly when the backend takes it, or some row has its item, price
   and day before it is sent. The backend may refuse a listing bought before at another price; the executor still remembers
   the new snapshot key.
   */
  lemma OrderStaysCoveredIff(s: Listener, p: Purchase, limit: nat)
    requires Nameable(p) && MemoryCovered(s.bought, s.table) && KeyOf(p) !in s.bought && limit >= 2 && |s.bought| <= limit
    ensures var s' := Executed(s, Approved(p, true), limit);
      && |s'.bought| <= limit
      && (MemoryCovered(s'.bought, s'.table) <==> OrderFits(p, s.table))
  {
    var s' := Executed(s, Approved(p, true), limit);
    var first := Remembered(s.bought, KeyOf(p), limit);
    RememberedHas(s.bought, KeyOf(p), limit);
    RememberedHas(first, SnapshotKey(p), limit);
    assert SnapshotKey(p) in s'.bought;
    assert KeyOf(AsSnapshot(p)) == SnapshotKey(p);
    StoredCovers(s.table, p, AsSnapshot(p));
    FitsIsCovered(s.table, p);
    hide OrderFits;
    if SnapshotCovered(p, s'.table) {
      hide SnapshotKey;
      hide Repeats;
      hide StoredAfter;
      forall q | Nameable(q) && KeyOf(q) in s'.bought ensures Repeats(q, s'.table) {
        StoredCovers(s.table, p, q);
        KeyNames(p, q);
      }
    }
  }

  /** Every order sent fitted the table it met. */
  ghost predicate OrdersCovered(events: seq<Event>, limit: nat) {
    events == [] ||
    var front, e := events[..|events| - 1], events[|events| - 1];
    var s := ExecutedAll(front, limit);
    OrdersCovered(front, limit)
    && (e.Approved? && e.taken && KeyOf(e.purchase) !in s.bought ==> OrderFits(e.purchase, s.table))
  }

  /**
   With lost orders, lost replies and restarts the table holds exactly what the rule keeps of the approvals that got
   through, as long as every confirmed order fitted: none was refused whose item, price and day no row had.
   */
  lemma {:induction false} BackendKeepsTheRule(events: seq<Event>, limit: nat)
    requires limit >= 2 && OrdersCovered(events, limit)
    requires forall e :: e in events && !e.Restart? ==> Nameable(e.purchase)
    ensures var s := ExecutedAll(events, limit);
      && s.table == Kept(TakenApprovals(events))
      && |s.bought| <= limit && MemoryCovered(s.bought, s.table)
  {
    hide KeyOf;
    hide SnapshotKey;
    hide Repeats;
    hide OrderFits;
    if events == [] {
      NothingRemembered([]);
    } else {
      hide MemoryCovered;
      var front, e := events[..|events| - 1], events[|events| - 1];
      assert e in events && forall x :: x in front ==> x in events;
      BackendKeepsTheRule(front, limit);
      var s := ExecutedAll(front, limit);
      if e.Restart? {
        NothingRemembered(s.table);
      } else if e.Arrives? {
        assert TakenApprovals(events)[..|TakenApprovals(front)|] == TakenApprovals(front);
        BackendIsRule(s.table, e.purchase);
        StaysCovered(s.bought, s.table, e.purchase);
      } else if e.taken {
        assert TakenApprovals(events)[..|TakenApprovals(front)|] == TakenApprovals(front);
        CoveredIffRule(s, limit);
        if KeyOf(e.purchase) !in s.bought {
          OrderStaysCoveredIff(s, e.purchase, limit);
        }
      }
    }
  }

  /** Whatever is approved next, the executor and the backend do with it what the rule does. */
  ghost predicate NextKeepsRule(s: Listener, limit: nat) {
    forall p :: Nameable(p) ==> Executed(s, Approved(p, true), limit).table == RuleAfter(s.table, p)
  }

  /** What the last event of a run does to the rule, when every order before it fitted. */
  lemma LastOrderIff(events: seq<Event>, limit: nat)
    requires limit >= 2 && events != [] && forall e :: e in events && !e.Restart? ==> Nameable(e.purchase)
    requires OrdersCovered(events[..|events| - 1], limit)
    ensures NextKeepsRule(ExecutedAll(events, limit), limit) <==> OrdersCovered(events, limit)
  {
    var front, e := events[..|events| - 1], events[|events| - 1];
    var s := ExecutedAll(front, limit);
    assert e in events && forall x :: x in front ==> x in events;
    BackendKeepsTheRule(front, limit);
    CoveredIffRule(ExecutedAll(events, limit), limit);
    if OrdersCovered(events, limit) {
      BackendKeepsTheRule(events, limit);
    } else {
      hide KeyOf;
      hide MemoryCovered;
      hide OrderFits;
      hide NextKeepsRule;
      hide Executed;
      OrderStaysCoveredIff(s, e.purchase, limit);
    }
  }

  /** At every point of the run the next approval is treated as the rule would. */
  ghost predicate RuleKept(events: seq<Event>, limit: nat) {
    forall front :: front <= events ==> NextKeepsRule(ExecutedAll(front, limit), limit)
  }

  lemma RuleKeptSnoc(events: seq<Event>, limit: nat)
    requires events != []
    ensures RuleKept(events, limit) <==> RuleKept(events[..|events| - 1], limit) && NextKeepsRule(ExecutedAll(events, limit), limit)
  {
    hide NextKeepsRule;
    hide ExecutedAll;
    var last := events[..|events| - 1];
    if RuleKept(last, limit) && NextKeepsRule(ExecutedAll(events, limit), limit) {
      forall front | front <= events ensures NextKeepsRule(ExecutedAll(front, limit), limit) {
        PrefixSnoc(front, events);
      }
    }
    assert events <= events && last <= events;
  }

  lemma PrefixSnoc(front: seq<Event>, events: seq<Event>)
    requires events != []
    ensures front <= events <==> front <= events[..|events| - 1] || front == events
  {
    if front <= events && |front| == |events| {
      assert front == events;
    }
  }

  lemma RuleKeptAtStart(limit: nat)
    ensures RuleKept([], limit) && OrdersCovered([], limit)
  {
    NothingRemembered([]);
    CoveredIffRule(START, limit);
    assert ExecutedAll([], limit) == START;
    hide NextKeepsRule;
    forall front: seq<Event> | front <= [] ensures NextKeepsRule(ExecutedAll(front, limit), limit) {
      assert front == [];
    }
  }

  /** The rule is followed on every next approval, all along a run, exactly when every order sent fitted. */
  lemma {:induction false} RuleKeptIff(events: seq<Event>, limit: nat)
    requires limit >= 2 && forall e :: e in events && !e.Restart? ==> Nameable(e.purchase)
    ensures OrdersCovered(events, limit) <==> RuleKept(events, limit)
  {
    if events == [] {
      RuleKeptAtStart(limit);
    } else {
      var front := events[..|events| - 1];
      CoveredBefore(events, limit);
      hide *;
      assert forall x :: x in front ==> x in events;
      RuleKeptIff(front, limit);
      RuleKeptSnoc(events, limit);
      if OrdersCovered(front, limit) {
        LastOrderIff(events, limit);
      }
    }
  }

  lemma CoveredBefore(events: seq<Event>, limit: nat)
    requires events != []
    ensures OrdersCovered(events, limit) ==> OrdersCovered(events[..|events| - 1], limit)
  {
  }

  /** A row more never uncovers the memory. */
  lemma StaysCovered(bought: seq<string>, table: seq<Purchase>, p: Purchase)
    requires MemoryCovered(bought, table)
    ensures MemoryCovered(bought, StoredAfter(table, p))
  {
    hide KeyOf;
    hide Repeats;
    hide StoredAfter;
    forall q | Nameable(q) && KeyOf(q) in bought ensures Repeats(q, StoredAfter(table, p)) {
      StoredCovers(table, p, q);
    }
  }

  lemma NothingRemembered(table: seq<Purchase>)
    ensures MemoryCovered([], table)
  {
  }

  lemma RepeatsOne(p: Purchase, q: Purchase)
    ensures Repeats(p, [q]) <==> if p.listingId.Some? then SameListing(p, q) else SameSnapshot(p, q)
    ensures !Repeats(p, [])
  {
    assert q in [q];
  }

  lemma SampleKept(first: Purchase, again: Purchase, snapshot: Purchase)
    requires SameListing(again, first) && !SameSnapshot(snapshot, first) && snapshot.listingId.None?
    ensures Kept([first, again, snapshot]) == [first, snapshot]
  {
    hide Kept;
    hide Repeats;
    KeptSnoc([], first);
    KeptSnoc([first], again);
    KeptSnoc([first, again], snapshot);
    RepeatsOne(first, first);
    RepeatsOne(again, first);
    RepeatsOne(snapshot, first);
    assert [] + [first] == [first];
    assert [first] + [again] == [first, again];
    assert [first, again] + [snapshot] == [first, again, snapshot];
  }

  lemma SampleRun(first: Purchase, again: Purchase, snapshot: Purchase)
    requires first.listingId.Some? && SameListing(again, first) && SnapshotKey(snapshot) == SnapshotKey(again) && snapshot.listingId.None?
    requires KeyOf(again) != SnapshotKey(again)
    ensures var events := [Approved(first, true), Restart, Approved(again, true), Approved(snapshot, true)];
      ExecutedAll(events, BOUGHT_MEMORY_SIZE).table == [first] && TakenApprovals(events) == [first, again, snapshot]
  {
    hide SnapshotKey;
    hide ListingKey;
    hide ExecutedAll;
    hide TakenApprovals;
    hide StoredAfter;
    hide Repeats;
    hide Noted;
    var e1, e2, e3, e4 := Approved(first, true), Restart, Approved(again, true), Approved(snapshot, true);
    BackendIsRule([], first);
    BackendIsRule([first], again);
    RepeatsOne(first, first);
    RepeatsOne(again, first);
    Unfold([], e1);
    Unfold([e1], e2);
    Unfold([e1, e2], e3);
    Unfold([e1, e2, e3], e4);
    assert [] + [e1] == [e1];
    assert [e1] + [e2] == [e1, e2];
    assert [e1, e2] + [e3] == [e1, e2, e3];
    assert [e1, e2, e3] + [e4] == [e1, e2, e3, e4];
    assert [] + [first] == [first];
    assert [first] + [again] == [first, again] && [first, again] + [snapshot] == [first, again, snapshot];
    assert ExecutedAll([e1], BOUGHT_MEMORY_SIZE).table == [first];
    assert ExecutedAll([e1, e2], BOUGHT_MEMORY_SIZE).bought == [];
    AgainNoted(again, snapshot);
    assert ExecutedAll([e1, e2, e3], BOUGHT_MEMORY_SIZE) == Listener(Noted([], again, BOUGHT_MEMORY_SIZE), [first, again], [first]);
  }

  lemma AgainNoted(again: Purchase, snapshot: Purchase)
    requires SnapshotKey(snapshot) == SnapshotKey(again) && snapshot.listingId.None?
    ensures KeyOf(snapshot) in Noted([], again, BOUGHT_MEMORY_SIZE) && KeyOf(again) !in []
  {
    hide SnapshotKey;
    RememberedHas([], KeyOf(again), BOUGHT_MEMORY_SIZE);
    RememberedHas(Remembered([], KeyOf(again), BOUGHT_MEMORY_SIZE), SnapshotKey(again), BOUGHT_MEMORY_SIZE);
  }

  /**
   The condition is needed: after a restart a listing approved again at another price is refused by the backend, and
   its snapshot key then keeps the executor from a snapshot buy the rule would make.
   */
  lemma RestartCanSkipSnapshot(day: Day)
    ensures var first := Purchase("waxpeer", "item", 10, Some("1"), day);
      var again := first.(priceCents := 12);
      var snapshot := again.(listingId := None);
      var events := [Approved(first, true), Restart, Approved(again, true), Approved(snapshot, true)];
      ExecutedAll(events, BOUGHT_MEMORY_SIZE).table == [first] && Kept(TakenApprovals(events)) == [first, snapshot]
  {
    var first := Purchase("waxpeer", "item", 10, Some("1"), day);
    var again := first.(priceCents := 12);
    var snapshot := again.(listingId := None);
    KeysApart("waxpeer", "1", again);
    hide ListingKey;
    hide ExecutedAll;
    hide TakenApprovals;
    SampleRun(first, again, snapshot);
    SampleKept(first, again, snapshot);
  }

  lemma Unfold(front: seq<Event>, e: Event)
    ensures ExecutedAll(front + [e], BOUGHT_MEMORY_SIZE) == Executed(ExecutedAll(front, BOUGHT_MEMORY_SIZE), e, BOUGHT_MEMORY_SIZE)
    ensures TakenApprovals(front + [e])
      == if e.Arrives? || (e.Approved? && e.taken) then TakenApprovals(front) + [e.purchase] else TakenApprovals(front)
    ensures ExecutedAll([], BOUGHT_MEMORY_SIZE) == START && TakenApprovals([]) == []
  {
    assert (front + [e])[..|front|] == front;
  }

  lemma KeptSnoc(front: seq<Purchase>, p: Purchase)
    ensures Kept(front + [p]) == if Repeats(p, Kept(front)) then Kept(front) else Kept(front) + [p]
    ensures Kept([]) == []
  {
    assert (front + [p])[..|front|] == front;
  }

  // ---- One process, every order taken ----

  function AllTaken(approvals: seq<Purchase>): (events: seq<Event>)
    ensures |events| == |approvals|
    ensures forall i :: 0 <= i < |events| ==> events[i] == Approved(approvals[i], true)
  {
    seq(|approvals|, i requires 0 <= i < |approvals| => Approved(approvals[i], true))
  }

  lemma RememberedNew(bought: seq<string>, key: string, limit: nat)
    requires |bought| < limit
    ensures var bought' := Remembered(bought, key, limit);
      && |bought'| <= |bought| + 1
      && (forall k :: k in bought' <==> k in bought || k == key)
  {
  }

  lemma NothingBought(approvals: seq<Purchase>)
    requires approvals == []
    ensures AllTaken(approvals) == [] && KeysOf(approvals) == {}
  {
  }

  lemma TakenFront(approvals: seq<Purchase>)
    requires approvals != []
    ensures var events := AllTaken(approvals);
      events[..|approvals| - 1] == AllTaken(approvals[..|approvals| - 1])
      && events[|approvals| - 1] == Approved(approvals[|approvals| - 1], true)
  {
  }

  /**
   The three agree: in one process whose orders are all taken and whose memory is not full, the executor places exactly
   the purchases the rule keeps, which are the scorecard's trades, and the backend stores exactly those.
   */
  lemma {:induction false} ThreeImplementationsAgree(approvals: seq<Purchase>, limit: nat)
    requires AllNameable(approvals) && 2 * |Kept(approvals)| <= limit
    ensures var s := ExecutedAll(AllTaken(approvals), limit);
      && s.placed == Kept(approvals) && s.table == Kept(approvals)
      && |s.bought| <= 2 * |s.placed| && (forall key :: key in s.bought <==> key in KeysOf(s.placed))
  {
    hide KeyOf;
    hide SnapshotKey;
    hide Repeats;
    hide StoredAfter;
    hide Remembered;
    hide KeysOf;
    hide AllTaken;
    if approvals == [] {
      NothingBought(approvals);
    } else {
      var front, p := approvals[..|approvals| - 1], approvals[|approvals| - 1];
      assert p in approvals && forall x :: x in front ==> x in approvals;
      TakenFront(approvals);
      ThreeImplementationsAgree(front, limit);
      var s := ExecutedAll(AllTaken(front), limit);
      KeptNameable(front);
      KeyTellsRepeat(p, s.placed);
      BackendIsRule(s.table, p);
      if KeyOf(p) !in s.bought {
        KeysSnoc(s.placed, p);
        RememberedNew(s.bought, KeyOf(p), limit);
        RememberedNew(Remembered(s.bought, KeyOf(p), limit), SnapshotKey(p), limit);
      }
    }
  }

  // ---- The executor, changed in place ----

  class ExecutionService {
    var bought: seq<string>
    const limit: nat

    constructor (limit: nat)
      ensures bought == [] && this.limit == limit
    {
      bought := [];
      this.limit := limit;
    }

    method RememberPurchase(key: string)
      modifies this
      ensures bought == Remembered(old(bought), key, limit)
    {
      if key !in bought {
        bought := bought + [key];
      }
      ghost var all, dropped := bought, 0;
      while |bought| > limit
        invariant dropped <= |all| && bought == all[dropped..] && (dropped > 0 ==> |bought| >= limit)
        decreases |bought|
      {
        bought := bought[1..];
        dropped := dropped + 1;
      }
    }

    /** `execute`; `taken` is whether placing the order is confirmed. Returns whether the order was placed. */
    method Execute(p: Purchase, taken: bool) returns (placed: bool)
      modifies this
      ensures placed <==> KeyOf(p) !in old(bought) && taken
      ensures bought == if placed then Noted(old(bought), p, limit) else old(bought)
    {
      hide KeyOf;
      hide SnapshotKey;
      var key, snapshotKey := KeyOf(p), SnapshotKey(p);
      if key in bought {
        return false;
      }
      if !taken {
        return false;
      }
      RememberPurchase(key);
      if key != snapshotKey {
        RememberPurchase(snapshotKey);
      }
      placed := true;
    }
  }
}
