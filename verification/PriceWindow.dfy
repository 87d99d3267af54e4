/**
 The sliding price window: a sorted set of `timestamp:price` members per venue and item, trimmed to the newest
 `limit` after each push. The replay's in-memory store follows Redis: members are unique, and ranks order by
 (score, member bytes).
 */
module PriceWindow {
  import opened Texts
  import opened Ranks

  type SortedSet = map<string, int>  // member -> score

  function RanksOf(z: SortedSet): set<Rank> {
    set m | m in z :: Rank(z[m], m)
  }

  lemma InRanksOf(z: SortedSet, r: Rank)
    ensures r in RanksOf(z) <==> r.member in z && z[r.member] == r.score
  {
    if r.member in z && z[r.member] == r.score {
      assert r == Rank(z[r.member], r.member);
    }
  }

  /** `_ordered_members`: by (score, member bytes). */
  function Ordered(z: SortedSet): (q: seq<Rank>)
    ensures |q| == |z|
  {
    RanksCount(z);
    SortedOfSpec(RanksOf(z));
    SortedOf(RanksOf(z))
  }

  lemma OrderedSpec(z: SortedSet)
    ensures Elements(Ordered(z)) == RanksOf(z) && Sorted(Ordered(z))
  {
    SortedOfSpec(RanksOf(z));
  }

  lemma {:induction false} RanksCount(z: SortedSet)
    ensures |RanksOf(z)| == |z|
  {
    if z != map[] {
      var m :| m in z;
      RanksCount(z - {m});
      assert RanksOf(z) == RanksOf(z - {m}) + {Rank(z[m], m)};
      assert Rank(z[m], m) !in RanksOf(z - {m});
      assert z.Keys == (z - {m}).Keys + {m};
      assert |z| == |z.Keys| && |z - {m}| == |(z - {m}).Keys|;
    } else {
      assert RanksOf(z) == {};
    }
  }

  /** Redis rank bounds, inclusive and possibly negative, as the half-open range [lo, hi). */
  function RankSlice(length: nat, start: int, stop: int): (bounds: (nat, nat))
    ensures bounds.0 <= bounds.1 <= length
  {
    var lo := if start < 0 then (if length + start > 0 then length + start else 0) else start;
    var last := if stop < 0 then length + stop else stop;
    var hi := (if last < length - 1 then last else length - 1) + 1;
    if lo < hi then (lo, hi) else (0, 0)
  }

  /** A rank that counts from the end when negative. */
  function FromEnd(length: nat, rank: int): int {
    if rank < 0 then length + rank else rank
  }

  /** The half-open range holds exactly the ranks between the two bounds, both included. */
  lemma RankInSlice(length: nat, start: int, stop: int, rank: nat)
    requires rank < length
    ensures var (lo, hi) := RankSlice(length, start, stop);
      lo <= rank < hi <==> FromEnd(length, start) <= rank <= FromEnd(length, stop)
  {
  }

  function MembersOf(q: seq<Rank>): set<string> {
    set r | r in q :: r.member
  }

  function WithoutRanks(z: SortedSet, start: int, stop: int): SortedSet {
    var (lo, hi) := RankSlice(|z|, start, stop);
    z - MembersOf(Ordered(z)[lo..hi])
  }

  function MemberText(timestamp: nat, priceCents: nat): string {
    Decimal(timestamp) + [':'] + Decimal(priceCents)
  }

  function StampOf(member: string): int {
    ParseDecimal(member[..IndexOf(member, ':')])
  }

  /** `int(member.split(":")[1])`; 0 stands for the exception a member without a colon would raise. */
  function PriceOf(member: string): int {
    var i := IndexOf(member, ':');
    if i == |member| then 0
    else
      var rest := member[i + 1..];
      ParseDecimal(rest[..IndexOf(rest, ':')])
  }

  lemma MemberRoundTrip(timestamp: nat, priceCents: nat)
    ensures StampOf(MemberText(timestamp, priceCents)) == timestamp
    ensures PriceOf(MemberText(timestamp, priceCents)) == priceCents
  {
    var a, b := Decimal(timestamp), Decimal(priceCents);
    DecimalRoundTrip(timestamp);
    DecimalRoundTrip(priceCents);
    IndexOfSeparator(a, ':', b);
    var s := MemberText(timestamp, priceCents);
    assert s[..|a|] == a && s[|a| + 1..] == b;
    assert b[..IndexOf(b, ':')] == b;
  }

  function WindowKey(venue: string, name: string): string {
    "price_window:" + venue + ":" + name
  }

  /** Venue names hold no colon, so windows of different venues or items never share a key. */
  lemma WindowKeysDistinct(venue: string, name: string, venue': string, name': string)
    requires ':' !in venue && ':' !in venue'
    requires WindowKey(venue, name) == WindowKey(venue', name')
    ensures venue == venue' && name == name'
  {
    var prefix := "price_window:";
    assert WindowKey(venue, name)[|prefix|..] == venue + [':'] + name;
    assert WindowKey(venue', name')[|prefix|..] == venue' + [':'] + name';
    SplitFirst(venue, ':', name, venue', name');
  }

  /** One push: `zadd`, then `zremrangebyrank 0 (card - limit - 1)` when over the limit. */
  function Added(z: SortedSet, member: string, score: int, limit: nat): SortedSet {
    var z' := z[member := score];
    if |z'| > limit then WithoutRanks(z', 0, |z'| - limit - 1) else z'
  }

  function Pushed(z: SortedSet, timestamp: nat, priceCents: nat, limit: nat): SortedSet {
    Added(z, MemberText(timestamp, priceCents), timestamp, limit)
  }

  /** Every member's score is the timestamp written in it. */
  ghost predicate Consistent(z: SortedSet) {
    forall m :: m in z ==> z[m] == StampOf(m)
  }

  lemma SortedMembersApart(q: seq<Rank>, k: nat, i: nat, j: nat)
    requires Sorted(q) && i < k <= j < |q|
    ensures q[i] != q[j]
  {
    LessTrichotomy(q[i], q[j]);
  }

  lemma SurvivorKept(z: SortedSet, k: nat, j: nat)
    requires k <= j < |Ordered(z)|
    ensures Ordered(z)[j].member !in MembersOf(Ordered(z)[..k])
  {
    var q := Ordered(z);
    OrderedSpec(z);
    forall i | 0 <= i < k ensures q[i].member != q[j].member {
      SortedMembersApart(q, k, i, j);
      assert q[i] in Elements(q) && q[j] in Elements(q);
      InRanksOf(z, q[i]);
      InRanksOf(z, q[j]);
    }
  }

  lemma DroppedRanks(z: SortedSet, k: nat, r: Rank)
    requires k <= |z|
    ensures r in RanksOf(z - MembersOf(Ordered(z)[..k])) <==> r in Ordered(z)[k..]
  {
    var q := Ordered(z);
    OrderedSpec(z);
    InRanksOf(z, r);
    InRanksOf(z - MembersOf(q[..k]), r);
    assert r in RanksOf(z) <==> r in Elements(q);
    if r in q {
      var j :| 0 <= j < |q| && q[j] == r;
      if j < k {
        assert q[..k][j] == r;
        forall i | 0 <= i < |q| - k ensures q[k..][i] != r {
          SortedMembersApart(q, k, j, i + k);
        }
      } else {
        assert q[k..][j - k] == r;
        SurvivorKept(z, k, j);
      }
    }
  }

  lemma DropOldest(z: SortedSet, k: nat)
    requires k <= |z|
    ensures Ordered(z - MembersOf(Ordered(z)[..k])) == Ordered(z)[k..]
  {
    var q := Ordered(z);
    var z' := z - MembersOf(q[..k]);
    forall r ensures r in RanksOf(z') <==> r in Elements(q[k..]) {
      DroppedRanks(z, k, r);
    }
    OrderedSpec(z);
    OrderedSpec(z');
    SortedUnique(Ordered(z'), q[k..]);
  }

  lemma AddRank(z: SortedSet, m: string, score: int)
    requires m in z ==> z[m] == score
    ensures RanksOf(z[m := score]) == RanksOf(z) + {Rank(score, m)}
  {
    var z' := z[m := score];
    forall r ensures r in RanksOf(z') <==> r in RanksOf(z) + {Rank(score, m)} {
      InRanksOf(z, r);
      InRanksOf(z', r);
    }
  }

  lemma TrimmedOrder(z: SortedSet, limit: nat)
    requires |z| > limit
    ensures Ordered(WithoutRanks(z, 0, |z| - limit - 1)) == LastN(Ordered(z), limit)
  {
    hide SortedOf;
    assert RankSlice(|z|, 0, |z| - limit - 1) == (0, |z| - limit);
    assert Ordered(z)[0..|z| - limit] == Ordered(z)[..|z| - limit];
    DropOldest(z, |z| - limit);
  }

  lemma InsertedOrder(z: SortedSet, m: string, score: int)
    requires m in z ==> z[m] == score
    ensures Ordered(z[m := score]) == Insert(Ordered(z), Rank(score, m))
  {
    AddRank(z, m, score);
    SortedOfAdd(RanksOf(z), Rank(score, m));
  }

  lemma AddedOrder(z: SortedSet, m: string, score: int, limit: nat)
    requires m in z ==> z[m] == score
    ensures Ordered(Added(z, m, score, limit)) == LastN(Insert(Ordered(z), Rank(score, m)), limit)
  {
    hide SortedOf;
    var z' := z[m := score];
    var q := Insert(Ordered(z), Rank(score, m));
    InsertedOrder(z, m, score);
    assert |q| == |z'|;
    if |z'| > limit {
      TrimmedOrder(z', limit);
      assert Added(z, m, score, limit) == WithoutRanks(z', 0, |z'| - limit - 1);
    } else {
      assert Added(z, m, score, limit) == z';
    }
  }

  lemma PushedConsistent(z: SortedSet, timestamp: nat, priceCents: nat, limit: nat)
    requires Consistent(z)
    ensures Consistent(Pushed(z, timestamp, priceCents, limit))
  {
    hide Ordered;
    MemberRoundTrip(timestamp, priceCents);
  }

  /** A push inserts its rank and keeps the newest `limit`. */
  lemma PushedOrder(z: SortedSet, timestamp: nat, priceCents: nat, limit: nat)
    requires Consistent(z)
    ensures Ordered(Pushed(z, timestamp, priceCents, limit))
      == LastN(Insert(Ordered(z), RankOf(Push(timestamp, priceCents))), limit)
  {
    hide SortedOf;
    MemberRoundTrip(timestamp, priceCents);
    AddedOrder(z, MemberText(timestamp, priceCents), timestamp, limit);
  }

  datatype Push = Push(timestamp: nat, priceCents: nat)

  function RankOf(p: Push): Rank {
    Rank(p.timestamp, MemberText(p.timestamp, p.priceCents))
  }

  /** The window of one key after a history of pushes. */
  function WindowAfter(pushes: seq<Push>, limit: nat): SortedSet {
    if pushes == [] then map[]
    else
      var p := pushes[|pushes| - 1];
      Pushed(WindowAfter(pushes[..|pushes| - 1], limit), p.timestamp, p.priceCents, limit)
  }

  function EverPushed(pushes: seq<Push>): set<Rank> {
    set p | p in pushes :: RankOf(p)
  }

  lemma {:induction false} WindowStep(z: SortedSet, all: set<Rank>, p: Push, limit: nat)
    requires Consistent(z) && Ordered(z) == LastN(SortedOf(all), limit)
    ensures Ordered(Pushed(z, p.timestamp, p.priceCents, limit)) == LastN(SortedOf(all + {RankOf(p)}), limit)
  {
    hide SortedOf;
    hide Pushed;
    PushedOrder(z, p.timestamp, p.priceCents, limit);
    SortedOfSpec(all);
    TrimThenInsert(SortedOf(all), RankOf(p), limit);
    SortedOfAdd(all, RankOf(p));
  }

  lemma EverPushedSnoc(front: seq<Push>, p: Push)
    ensures EverPushed(front + [p]) == EverPushed(front) + {RankOf(p)}
  {
    assert forall x :: x in front + [p] <==> x in front || x == p;
  }

  lemma NothingPushed(limit: nat)
    ensures Ordered(WindowAfter([], limit)) == LastN(SortedOf(EverPushed([])), limit)
  {
    assert RanksOf(map[]) == {};
  }

  lemma {:induction false} WindowConsistent(pushes: seq<Push>, limit: nat)
    ensures Consistent(WindowAfter(pushes, limit))
  {
    hide Pushed;
    if pushes != [] {
      var front, p := pushes[..|pushes| - 1], pushes[|pushes| - 1];
      WindowConsistent(front, limit);
      PushedConsistent(WindowAfter(front, limit), p.timestamp, p.priceCents, limit);
    }
  }

  /** The window is the newest `limit` of everything ever pushed, in rank order. */
  lemma {:induction false} WindowIsNewest(pushes: seq<Push>, limit: nat)
    ensures Ordered(WindowAfter(pushes, limit)) == LastN(SortedOf(EverPushed(pushes)), limit)
  {
    hide SortedOf;
    hide Pushed;
    if pushes == [] {
      NothingPushed(limit);
    } else {
      var front, p := pushes[..|pushes| - 1], pushes[|pushes| - 1];
      WindowIsNewest(front, limit);
      WindowConsistent(front, limit);
      WindowStep(WindowAfter(front, limit), EverPushed(front), p, limit);
      EverPushedSnoc(front, p);
      assert pushes == front + [p];
    }
  }

  ghost function Above(ranks: set<Rank>, r: Rank): set<Rank> {
    set x | x in ranks && Less(r, x)
  }

  lemma SortedCount(q: seq<Rank>)
    requires Sorted(q)
    ensures |Elements(q)| == |q|
  {
    SortedOfSpec(Elements(q));
    SortedUnique(SortedOf(Elements(q)), q);
  }

  lemma {:induction false} AboveCount(q: seq<Rank>, i: nat)
    requires Sorted(q) && i < |q|
    ensures |Above(Elements(q), q[i])| == |q| - 1 - i
  {
    var tail := q[i + 1..];
    forall x ensures x in Above(Elements(q), q[i]) <==> x in Elements(tail) {
      if x in Above(Elements(q), q[i]) {
        var j :| 0 <= j < |q| && q[j] == x;
        LessTrichotomy(q[i], q[j]);
        assert q[j] == tail[j - i - 1];
      }
    }
    assert Above(Elements(q), q[i]) == Elements(tail);
    SortedCount(tail);
  }

  lemma KeptIff(q: seq<Rank>, limit: nat, i: nat)
    requires Sorted(q) && i < |q|
    ensures q[i] in LastN(q, limit) <==> |q| - 1 - i < limit
  {
    hide LexLess;
    var kept := LastN(q, limit);
    var shift := |q| - |kept|;
    if i >= shift {
      assert kept[i - shift] == q[i];
    } else {
      forall m | 0 <= m < |kept| ensures kept[m] != q[i] {
        SortedMembersApart(q, shift, i, m + shift);
        assert kept[m] == q[m + shift];
      }
    }
  }

  lemma NewestIff(all: set<Rank>, limit: nat, r: Rank)
    ensures r in LastN(SortedOf(all), limit) <==> r in all && |Above(all, r)| < limit
  {
    SortedOfSpec(all);
    var q := SortedOf(all);
    assert r in all <==> r in Elements(q);
    if r in q {
      var i :| 0 <= i < |q| && q[i] == r;
      AboveCount(q, i);
      KeptIff(q, limit, i);
    } else {
      assert forall x :: x in LastN(q, limit) ==> x in q;
    }
  }

  /**
   The window holds exactly the newest `limit` of everything ever pushed: a member stays until `limit` distinct
   members above it, in (timestamp, bytes) order, have been pushed.
   */
  lemma {:induction false} InWindowIff(pushes: seq<Push>, limit: nat, r: Rank)
    ensures r in RanksOf(WindowAfter(pushes, limit))
      <==> r in EverPushed(pushes) && |Above(EverPushed(pushes), r)| < limit
  {
    WindowIsNewest(pushes, limit);
    OrderedSpec(WindowAfter(pushes, limit));
    NewestIff(EverPushed(pushes), limit, r);
  }

  /** The prices `score_window` reads, oldest first; the last one is the price being scored. */
  function Prices(z: SortedSet): (prices: seq<int>)
    ensures |prices| == |z|
  {
    var q := Ordered(z);
    seq(|q|, i requires 0 <= i < |q| => PriceOf(q[i].member))
  }

  lemma LastAfterInsert(q: seq<Rank>, r: Rank)
    requires Sorted(q)
    ensures var q' := Insert(q, r);
      && q' != []
      && (q'[|q'| - 1] == r <==> forall x :: x in Elements(q) ==> x == r || Less(x, r))
  {
    var q' := Insert(q, r);
    InsertSorted(q, r);
    assert r in Elements(q');
    var i :| 0 <= i < |q'| && q'[i] == r;
    var last := q'[|q'| - 1];
    assert last in Elements(q');
    if i == |q'| - 1 {
      forall x | x in Elements(q) ensures x == r || Less(x, r) {
        assert x in Elements(q');
      }
    } else {
      assert Less(r, last);
      LessTrichotomy(r, last);
    }
  }

  /** The newest member is the one just pushed exactly when nothing in the window ranks above it. */
  lemma ScoredMemberIsPushed(z: SortedSet, timestamp: nat, priceCents: nat, limit: nat)
    requires Consistent(z) && limit >= 1
    ensures var q := Ordered(Pushed(z, timestamp, priceCents, limit));
      var r := RankOf(Push(timestamp, priceCents));
      && q != []
      && (q[|q| - 1] == r <==> forall x :: x in RanksOf(z) ==> x == r || Less(x, r))
      && (q[|q| - 1] == r ==> Prices(Pushed(z, timestamp, priceCents, limit))[|q| - 1] == priceCents)
  {
    hide SortedOf;
    hide LexLess;
    hide Added;
    var r := RankOf(Push(timestamp, priceCents));
    var inserted := Insert(Ordered(z), r);
    PushedOrder(z, timestamp, priceCents, limit);
    OrderedSpec(z);
    LastAfterInsert(Ordered(z), r);
    var q := Ordered(Pushed(z, timestamp, priceCents, limit));
    assert q == LastN(inserted, limit) && q[|q| - 1] == inserted[|inserted| - 1];
    MemberRoundTrip(timestamp, priceCents);
  }

  /** A tick newer than everything in its window is the one scored. */
  lemma NewestTickIsScored(z: SortedSet, timestamp: nat, priceCents: nat, limit: nat)
    requires Consistent(z) && limit >= 1
    requires forall m :: m in z ==> z[m] < timestamp
    ensures var prices := Prices(Pushed(z, timestamp, priceCents, limit));
      prices != [] && prices[|prices| - 1] == priceCents
  {
    ScoredMemberIsPushed(z, timestamp, priceCents, limit);
  }

  lemma NothingDropped(z: SortedSet, q: seq<Rank>, lo: nat)
    requires lo <= |q|
    ensures z - MembersOf(q[lo..lo]) == z
  {
  }

  lemma OneMoreDropped(z: SortedSet, q: seq<Rank>, lo: nat, n: nat)
    requires lo + n < |q|
    ensures z - MembersOf(q[lo..lo + n + 1]) == z - MembersOf(q[lo..lo + n]) - {q[lo + n].member}
  {
    hide LexLess;
    assert q[lo..lo + n + 1] == q[lo..lo + n] + [q[lo + n]];
    assert MembersOf(q[lo..lo + n + 1]) == MembersOf(q[lo..lo + n]) + {q[lo + n].member};
  }

  /** The loop of `zremrangebyrank`, over the members in rank order. */
  method DropRanks(z: SortedSet, start: int, stop: int) returns (members: SortedSet, removed: nat)
    ensures members == WithoutRanks(z, start, stop)
    ensures removed == RankSlice(|z|, start, stop).1 - RankSlice(|z|, start, stop).0
  {
    hide Ordered;
    hide RankSlice;
    hide MembersOf;
    var q := Ordered(z);
    members := z;
    var (lo, hi) := RankSlice(|q|, start, stop);
    removed := 0;
    NothingDropped(z, q, lo);
    while removed < hi - lo
      invariant removed <= hi - lo
      invariant members == z - MembersOf(q[lo..lo + removed])
    {
      OneMoreDropped(z, q, lo, removed);
      members := members - {q[lo + removed].member};
      removed := removed + 1;
    }
  }

  type SortedSets = map<string, SortedSet>

  function WindowIn(sets: SortedSets, key: string): SortedSet {
    if key in sets then sets[key] else map[]
  }

  /** A sorted set that becomes empty is dropped. */
  function Stored(sets: SortedSets, key: string, z: SortedSet): SortedSets {
    if z == map[] then sets - {key} else sets[key := z]
  }

  /** All windows after one push. */
  function PushedInto(sets: SortedSets, venue: string, name: string, timestamp: nat, priceCents: nat, limit: nat): SortedSets {
    var key := WindowKey(venue, name);
    Stored(sets, key, Pushed(WindowIn(sets, key), timestamp, priceCents, limit))
  }

  /** A push on one venue and item leaves every other window as it was. */
  lemma PushTouchesOneWindow(sets: SortedSets, v: string, n: string, t: nat, p: nat, limit: nat, v': string, n': string)
    requires ':' !in v && ':' !in v'
    ensures WindowIn(PushedInto(sets, v, n, t, p, limit), WindowKey(v', n'))
      == if v == v' && n == n' then Pushed(WindowIn(sets, WindowKey(v, n)), t, p, limit) else WindowIn(sets, WindowKey(v', n'))
  {
    hide Pushed;
    if WindowKey(v, n) == WindowKey(v', n') {
      WindowKeysDistinct(v, n, v', n');
    }
  }

  /** The edge store's sorted sets, changed in place. */
  class EdgeStore {
    var sets: SortedSets

    constructor ()
      ensures sets == map[]
    {
      sets := map[];
    }

    function Window(key: string): SortedSet
      reads this
    {
      WindowIn(sets, key)
    }

    method Zadd(key: string, member: string, score: int)
      modifies this
      ensures sets == old(sets)[key := old(Window(key))[member := score]]
    {
      var members := Window(key);
      members := members[member := score];
      sets := sets[key := members];
    }

    method Zcard(key: string) returns (card: nat)
      ensures card == |Window(key)|
    {
      card := |Window(key)|;
    }

    method Zrange(key: string, start: int, stop: int) returns (members: seq<string>)
      ensures var q, (lo, hi) := Ordered(Window(key)), RankSlice(|Window(key)|, start, stop);
        && |members| == hi - lo
        && forall i :: 0 <= i < |members| ==> members[i] == q[lo + i].member
    {
      var q := Ordered(Window(key));
      var (lo, hi) := RankSlice(|q|, start, stop);
      members := seq(hi - lo, i requires 0 <= i < hi - lo => q[lo + i].member);
    }

    method Zremrangebyrank(key: string, start: int, stop: int) returns (removed: nat)
      modifies this
      ensures sets == Stored(old(sets), key, WithoutRanks(old(Window(key)), start, stop))
      ensures removed == RankSlice(|old(Window(key))|, start, stop).1 - RankSlice(|old(Window(key))|, start, stop).0
    {
      hide WithoutRanks;
      hide RankSlice;
      var members;
      members, removed := DropRanks(Window(key), start, stop);
      if members == map[] {
        sets := sets - {key};
      } else {
        sets := sets[key := members];
      }
    }

    /** `push_to_window`. */
    method PushToWindow(venue: string, name: string, timestamp: nat, priceCents: nat, limit: nat)
      modifies this
      ensures sets == PushedInto(old(sets), venue, name, timestamp, priceCents, limit)
    {
      hide WithoutRanks;
      hide MemberText;
      hide WindowKey;
      var key := WindowKey(venue, name);
      Zadd(key, MemberText(timestamp, priceCents), timestamp);
      var card := Zcard(key);
      assert MemberText(timestamp, priceCents) in Window(key);
      if card > limit {
        var _ := Zremrangebyrank(key, 0, card - limit - 1);
      }
    }
  }
}
