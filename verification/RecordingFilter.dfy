/**
 The Waxpeer recording filter: which feed events become ticks, and which listings it follows. The properties hold
 over every sequence of events; what the followed set is, beyond the limit, is said exactly.

 The list of followed listings is compared with the one that would be kept if nothing were ever evicted: it is always its
 newest part, but it does not grow back when a newer listing is removed. That makes "followed" a matter of the whole
 history since a listing was last tracked, not of the present moment.
 */
module RecordingFilter {
  import opened Texts
  import opened Ranks
  import opened OrderedDict
  import Scoring

  /** A followed listing: its item and its latest price on the feed. */
  datatype Followed = Followed(name: string, priceCents: nat)

  type Tracked = Dict<string, Followed>

  /**
   A feed event as the filter sees it. `outcome` is what the resale venue's prices judge the listing at that moment;
   `validTick` whether the removal's tick validates.
   */
  datatype Event =
    | Listing(update: bool, id: string, name: string, priceCents: nat, outcome: Scoring.Outcome)
    | Removal(id: string, askCents: Option<nat>, validTick: bool)
    | Malformed

  datatype Result =
    | RecordedListing(name: string, priceCents: nat)
    | RecordedRemoval(name: string, priceCents: nat)
    | NotAPriceCut
    | Judged(outcome: Scoring.Outcome)
    | UntrackedRemoval
    | Refused

  /** `listing`. */
  function OnListing(t: Tracked, e: Event, limit: nat): (Tracked, Result)
    requires e.Listing?
  {
    var followed := Lookup(t, e.id);
    var tracked := BoundedPut(t, e.id, Followed(e.name, e.priceCents), limit);
    if followed.Some? && e.update then
      (tracked,
       if e.priceCents >= followed.value.priceCents then NotAPriceCut
       else if e.outcome == Scoring.Recorded then RecordedListing(e.name, e.priceCents) else Judged(e.outcome))
    else if e.outcome != Scoring.Recorded then (Without(t, e.id), Judged(e.outcome))
    else (tracked, RecordedListing(e.name, e.priceCents))
  }

  /** `removal`: the listing is unfollowed even when its tick does not validate. */
  function OnRemoval(t: Tracked, e: Event): (Tracked, Result)
    requires e.Removal?
  {
    var followed := Lookup(t, e.id);
    if followed.None? then (t, UntrackedRemoval)
    else
      var priceCents := if e.askCents.GetOr(0) != 0 then e.askCents.value else followed.value.priceCents;
      (Without(t, e.id), if e.validTick then RecordedRemoval(followed.value.name, priceCents) else Refused)
  }

  function OnEvent(t: Tracked, e: Event, limit: nat): (Tracked, Result) {
    match e
    case Listing(_, _, _, _, _) => OnListing(t, e, limit)
    case Removal(_, _, _) => OnRemoval(t, e)
    case Malformed => (t, Refused)
  }

  function TrackedAfter(events: seq<Event>, limit: nat): Tracked {
    if events == [] then []
    else OnEvent(TrackedAfter(events[..|events| - 1], limit), events[|events| - 1], limit).0
  }

  /** What the filter answered to the `i`-th event. */
  function ResultAt(events: seq<Event>, i: nat, limit: nat): Result
    requires i < |events|
  {
    OnEvent(TrackedAfter(events[..i], limit), events[i], limit).1
  }

  predicate Follows(events: seq<Event>, id: string, limit: nat) {
    Lookup(TrackedAfter(events, limit), id).Some?
  }

  predicate IsListingOf(e: Event, id: string) {
    e.Listing? && e.id == id
  }

  // ---- One listing over time ----

  lemma {:induction false} TrackedDistinct(events: seq<Event>, limit: nat)
    ensures Distinct(TrackedAfter(events, limit))
  {
    if events != [] {
      var front, e := events[..|events| - 1], events[|events| - 1];
      TrackedDistinct(front, limit);
      var t := TrackedAfter(front, limit);
      if e.Listing? {
        PutBasics(t, e.id, Followed(e.name, e.priceCents));
        LastNBasics(Put(t, e.id, Followed(e.name, e.priceCents)), limit);
        WithoutDistinct(t, e.id);
      } else if e.Removal? {
        WithoutDistinct(t, e.id);
      }
    }
  }

  lemma LookupTrimmed(d: Tracked, limit: nat, k: string)
    requires Distinct(d)
    ensures Lookup(LastN(d, limit), k).Some? ==> Lookup(LastN(d, limit), k) == Lookup(d, k)
  {
    LastNBasics(d, limit);
    LookupMissing(LastN(d, limit), k);
    if Lookup(LastN(d, limit), k).Some? {
      var i :| 0 <= i < |LastN(d, limit)| && LastN(d, limit)[i].key == k;
      var j := i + |d| - |LastN(d, limit)|;
      assert d[j] == LastN(d, limit)[i];
      LookupFound(d, j);
      LookupFound(LastN(d, limit), i);
    }
  }

  /** How one event moves what is followed of one listing: eviction may drop it, only its own events change it. */
  lemma EventMovesEntry(t: Tracked, e: Event, limit: nat, id: string)
    requires Distinct(t)
    ensures var before, after := Lookup(t, id), Lookup(OnEvent(t, e, limit).0, id);
      && (after.Some? && !IsListingOf(e, id) ==> after == before)
      && (after.Some? && IsListingOf(e, id) ==> after.value == Followed(e.name, e.priceCents))
      && (e.Removal? && e.id == id ==> after.None?)
      && (IsListingOf(e, id) && after.Some? && before.None? ==> OnEvent(t, e, limit).1.RecordedListing?)
  {
    if e.Listing? {
      var entry := Followed(e.name, e.priceCents);
      PutBasics(t, e.id, entry);
      LookupPut(t, e.id, entry, id);
      LookupTrimmed(Put(t, e.id, entry), limit, id);
      LookupWithout(t, e.id, id);
    } else if e.Removal? {
      LookupWithout(t, e.id, id);
    }
  }

  /**
   A followed listing was recorded since it was last unfollowed: some event recorded it, and it has been followed
   without a break since. Its price is that of its last listing event on the feed.
   */
  lemma {:induction false} FollowedSinceRecorded(events: seq<Event>, id: string, limit: nat) returns (r: nat, last: nat)
    requires Follows(events, id, limit)
    ensures r <= last < |events| && IsListingOf(events[r], id) && IsListingOf(events[last], id)
    ensures ResultAt(events, r, limit).RecordedListing?
    ensures forall i :: r < i <= |events| ==> Follows(events[..i], id, limit)
    ensures forall i :: last < i < |events| ==> !IsListingOf(events[i], id)
    ensures Lookup(TrackedAfter(events, limit), id) == Some(Followed(events[last].name, events[last].priceCents))
  {
    hide OnEvent;
    hide Lookup;
    NothingTracked(id, limit);
    var n := |events| - 1;
    var front, e := events[..n], events[n];
    TrackedDistinct(front, limit);
    EventMovesEntry(TrackedAfter(front, limit), e, limit, id);
    assert events[..|events|] == events;
    if Follows(front, id, limit) {
      r, last := FollowedSinceRecorded(front, id, limit);
      assert front[..r] == events[..r];
      assert forall i :: r < i <= n ==> front[..i] == events[..i];
      if IsListingOf(e, id) {
        last := n;
      }
    } else {
      r, last := n, n;
    }
  }

  lemma NothingTracked(id: string, limit: nat)
    ensures !Follows([], id, limit)
  {
  }

  /** Between two recorded removals of a listing there is a recorded listing of it. */
  lemma RemovalsAlternate(events: seq<Event>, i: nat, j: nat, limit: nat) returns (r: nat)
    requires i < j < |events| && events[i].Removal? && events[j].Removal? && events[i].id == events[j].id
    requires ResultAt(events, i, limit).RecordedRemoval? && ResultAt(events, j, limit).RecordedRemoval?
    ensures i < r < j && IsListingOf(events[r], events[i].id) && ResultAt(events, r, limit).RecordedListing?
  {
    hide OnListing;
    var id := events[i].id;
    var before := events[..j];
    assert Follows(before, id, limit);
    var last;
    r, last := FollowedSinceRecorded(before, id, limit);
    assert before[..r] == events[..r];
    TrackedDistinct(events[..i], limit);
    EventMovesEntry(TrackedAfter(events[..i], limit), events[i], limit, id);
    assert before[..i + 1] == events[..i + 1] && events[..i + 1][..i] == events[..i];
    assert !Follows(before[..i + 1], id, limit);
  }

  /**
   An update of a followed listing is recorded exactly when it is judged worth recording and strictly cheaper than the
   listing's previous price on the feed.
   */
  lemma UpdatesCutThePrice(events: seq<Event>, i: nat, limit: nat) returns (previous: nat)
    requires i < |events| && events[i].Listing? && events[i].update && Follows(events[..i], events[i].id, limit)
    ensures previous < i && IsListingOf(events[previous], events[i].id)
    ensures forall k :: previous < k < i ==> !IsListingOf(events[k], events[i].id)
    ensures ResultAt(events, i, limit).RecordedListing?
      <==> events[i].outcome == Scoring.Recorded && events[i].priceCents < events[previous].priceCents
  {
    hide Lookup;
    hide BoundedPut;
    hide Without;
    hide TrackedAfter;
    var r;
    r, previous := FollowedSinceRecorded(events[..i], events[i].id, limit);
    assert forall k :: 0 <= k < i ==> events[..i][k] == events[k];
  }

  /** Any other listing event, new or of a listing not followed, is recorded exactly when it is judged worth it, as it is. */
  lemma OtherListingsAreJudged(events: seq<Event>, i: nat, limit: nat)
    requires i < |events| && events[i].Listing? && !(events[i].update && Follows(events[..i], events[i].id, limit))
    ensures ResultAt(events, i, limit) == if events[i].outcome == Scoring.Recorded
      then RecordedListing(events[i].name, events[i].priceCents) else Judged(events[i].outcome)
  {
  }

  /** A removal is recorded exactly of a followed listing with a valid tick, at its asking price, or else its latest price. */
  lemma RemovalIsRecordedIff(events: seq<Event>, i: nat, limit: nat) returns (last: nat)
    requires i < |events| && events[i].Removal?
    ensures ResultAt(events, i, limit).RecordedRemoval? <==> events[i].validTick && Follows(events[..i], events[i].id, limit)
    ensures ResultAt(events, i, limit).RecordedRemoval? ==>
      && last < i && IsListingOf(events[last], events[i].id)
      && (forall k :: last < k < i ==> !IsListingOf(events[k], events[i].id))
      && var ask := events[i].askCents.GetOr(0);
      ResultAt(events, i, limit) == RecordedRemoval(events[last].name, if ask != 0 then ask else events[last].priceCents)
  {
    last := 0;
    if Follows(events[..i], events[i].id, limit) {
      var r;
      r, last := FollowedSinceRecorded(events[..i], events[i].id, limit);
    }
  }

  // ---- Which listings are followed ----

  datatype Op = Track(id: string, entry: Followed) | Untrack(id: string)

  /** What the filter does to its list at an event, if anything. */
  function OpOf(t: Tracked, e: Event): Option<Op> {
    match e
    case Listing(update, id, name, priceCents, outcome) =>
      if outcome == Scoring.Recorded || (Lookup(t, id).Some? && update) then Some(Track(id, Followed(name, priceCents)))
      else Some(Untrack(id))
    case Removal(id, _, _) => Some(Untrack(id))
    case Malformed => None
  }

  function Applied(t: Tracked, op: Op): Tracked {
    match op
    case Track(id, entry) => Put(t, id, entry)
    case Untrack(id) => Without(t, id)
  }

  /** The list after the events if nothing were ever evicted. */
  function Unevicted(events: seq<Event>, limit: nat): Tracked {
    if events == [] then []
    else
      var front, op := events[..|events| - 1], OpOf(TrackedAfter(events[..|events| - 1], limit), events[|events| - 1]);
      if op.None? then Unevicted(front, limit) else Applied(Unevicted(front, limit), op.value)
  }

  /** The event applies its operation, then trims. */
  lemma EventApplies(t: Tracked, e: Event, limit: nat)
    requires |t| <= limit
    ensures OnEvent(t, e, limit).0 == match OpOf(t, e) case None => t case Some(op) => LastN(Applied(t, op), limit)
    ensures |OnEvent(t, e, limit).0| <= limit
  {
    if e.Listing? || e.Removal? {
      WithoutKeys(t, e.id);
      if e.Removal? && Lookup(t, e.id).None? {
        LookupMissing(t, e.id);
        WithoutAbsent(t, e.id);
      }
    }
  }

  ghost predicate IsEnd(t: Tracked, all: Tracked) {
    |t| <= |all| && t == all[|all| - |t|..]
  }

  lemma EndOfConcat(early: Tracked, late: Tracked)
    ensures IsEnd(late, early + late)
  {
  }

  lemma TrimmedIsEnd(t: Tracked, all: Tracked, limit: nat)
    requires IsEnd(t, all)
    ensures IsEnd(LastN(t, limit), all)
  {
    var kept := LastN(t, limit);
    assert all == (all[..|all| - |t|] + t[..|t| - |kept|]) + kept;
  }

  lemma WithoutKeepsEnd(t: Tracked, all: Tracked, id: string)
    requires IsEnd(t, all)
    ensures IsEnd(Without(t, id), Without(all, id))
  {
    var early := all[..|all| - |t|];
    assert all == early + t;
    WithoutConcat(early, t, id);
    EndOfConcat(Without(early, id), Without(t, id));
  }

  lemma SnocKeepsEnd(t: Tracked, all: Tracked, item: Item<string, Followed>)
    requires IsEnd(t, all)
    ensures IsEnd(t + [item], all + [item])
  {
    var early := all[..|all| - |t|];
    assert all + [item] == early + (t + [item]);
    EndOfConcat(early, t + [item]);
  }

  lemma AppliedKeepsEnd(t: Tracked, all: Tracked, op: Op, limit: nat)
    requires IsEnd(t, all) && Distinct(all)
    ensures IsEnd(LastN(Applied(t, op), limit), Applied(all, op)) && Distinct(Applied(all, op))
  {
    hide IsEnd;
    hide LastN;
    hide Without;
    hide Distinct;
    WithoutKeepsEnd(t, all, op.id);
    WithoutDistinct(all, op.id);
    if op.Track? {
      SnocKeepsEnd(Without(t, op.id), Without(all, op.id), Item(op.id, op.entry));
      PutBasics(all, op.id, op.entry);
    }
    TrimmedIsEnd(Applied(t, op), Applied(all, op), limit);
  }

  /** The followed listings are always the newest part of the unevicted list. */
  lemma {:induction false} TrackedIsEnd(events: seq<Event>, limit: nat)
    ensures IsEnd(TrackedAfter(events, limit), Unevicted(events, limit))
    ensures Distinct(Unevicted(events, limit)) && |TrackedAfter(events, limit)| <= limit
  {
    hide OnEvent;
    hide Applied;
    if events != [] {
      var front, e := events[..|events| - 1], events[|events| - 1];
      TrackedIsEnd(front, limit);
      var t := TrackedAfter(front, limit);
      EventApplies(t, e, limit);
      if OpOf(t, e).Some? {
        AppliedKeepsEnd(t, Unevicted(front, limit), OpOf(t, e).value, limit);
      }
    }
  }

  /** The entries tracked more recently than `id`. */
  function Newer(all: Tracked, id: string): Tracked {
    if all == [] || all[|all| - 1].key == id then [] else Newer(all[..|all| - 1], id) + [all[|all| - 1]]
  }

  lemma {:induction false} NewerIsTail(all: Tracked, i: nat)
    requires Distinct(all) && i < |all|
    ensures Newer(all, all[i].key) == all[i + 1..]
  {
    if i < |all| - 1 {
      NewerIsTail(all[..|all| - 1], i);
      assert all[i + 1..] == all[..|all| - 1][i + 1..] + [all[|all| - 1]];
    }
  }

  /** Membership in the end of a list is a matter of how much is newer. */
  lemma InEndIff(t: Tracked, all: Tracked, id: string)
    requires IsEnd(t, all) && Distinct(all)
    ensures id in Keys(t) <==> id in Keys(all) && |Newer(all, id)| < |t|
  {
    KeysOfEnd(t, all, id);
    if id in Keys(all) {
      var i :| 0 <= i < |all| && all[i].key == id;
      NewerIsTail(all, i);
      AtIndex(t, all, i);
    }
  }

  lemma KeysOfEnd(t: Tracked, all: Tracked, id: string)
    requires IsEnd(t, all)
    ensures id in Keys(t) ==> id in Keys(all)
  {
    if id in Keys(t) {
      var k :| 0 <= k < |t| && t[k].key == id;
      assert all[k + |all| - |t|] == t[k];
    }
  }

  lemma AtIndex(t: Tracked, all: Tracked, i: nat)
    requires IsEnd(t, all) && Distinct(all) && i < |all|
    ensures all[i].key in Keys(t) <==> i >= |all| - |t|
  {
    var shift := |all| - |t|;
    if i >= shift {
      assert t[i - shift] == all[i];
    } else {
      forall k | 0 <= k < |t| ensures t[k].key != all[i].key {
        assert t[k] == all[k + shift];
      }
    }
  }

  /** Since it was last tracked, fewer than `limit` listings of the unevicted list were ever newer. */
  predicate NeverPushedOut(events: seq<Event>, id: string, limit: nat) {
    events != [] &&
    var front, op := events[..|events| - 1], OpOf(TrackedAfter(events[..|events| - 1], limit), events[|events| - 1]);
    if op.Some? && op.value.id == id then op.value.Track? && limit > 0
    else NeverPushedOut(front, id, limit) && |Newer(Unevicted(events, limit), id)| < limit
  }

  lemma AppliedNewer(t: Tracked, all: Tracked, op: Op, id: string, limit: nat)
    requires IsEnd(t, all) && Distinct(all) && op.id != id && |t| <= limit
    ensures id in Keys(LastN(Applied(t, op), limit)) <==> id in Keys(t) && |Newer(Applied(all, op), id)| < limit
  {
    var t', all' := Applied(t, op), Applied(all, op);
    AppliedKeepsEnd(t, all, op, limit);
    AppliedKeepsEnd(t, all, op, |t| + 1);
    AppliedSize(t, op);
    assert LastN(t', |t| + 1) == t';
    InEndIff(LastN(t', limit), all', id);
    InEndIff(t', all', id);
    AppliedKeys(t, op);
  }

  lemma AppliedSize(t: Tracked, op: Op)
    ensures |Applied(t, op)| <= |t| + 1
  {
    WithoutKeys(t, op.id);
  }

  lemma AppliedKeys(t: Tracked, op: Op)
    ensures forall id :: id != op.id ==> (id in Keys(Applied(t, op)) <==> id in Keys(t))
  {
    WithoutKeys(t, op.id);
    if op.Track? {
      KeysConcat(Without(t, op.id), [Item(op.id, op.entry)]);
    }
  }

  lemma OwnOp(t: Tracked, op: Op, limit: nat)
    requires Distinct(t)
    ensures op.id in Keys(LastN(Applied(t, op), limit)) <==> op.Track? && limit > 0
  {
    WithoutKeys(t, op.id);
    var t' := Applied(t, op);
    if op.Track? && limit > 0 {
      var kept := LastN(t', limit);
      assert kept[|kept| - 1] == t'[|t'| - 1] == Item(op.id, op.entry);
    } else {
      assert forall item :: item in LastN(t', limit) ==> item in t';
    }
  }

  /**
   Exactly which listings are followed: those never pushed out since they were last tracked. Being among the `limit` most
   recently tracked listings now is not enough, because a later removal does not bring back what was evicted.
   */
  lemma {:induction false} FollowedIff(events: seq<Event>, id: string, limit: nat)
    ensures id in Keys(TrackedAfter(events, limit)) <==> NeverPushedOut(events, id, limit)
  {
    hide OnEvent;
    hide Applied;
    hide OpOf;
    if events != [] {
      var front, e := events[..|events| - 1], events[|events| - 1];
      var t, all := TrackedAfter(front, limit), Unevicted(front, limit);
      FollowedIff(front, id, limit);
      TrackedIsEnd(front, limit);
      EventApplies(t, e, limit);
      if OpOf(t, e).None? {
        InEndIff(t, all, id);
      } else {
        var op := OpOf(t, e).value;
        TrackedDistinct(front, limit);
        if op.id == id {
          OwnOp(t, op, limit);
        } else {
          AppliedNewer(t, all, op, id, limit);
        }
      }
    }
  }

  lemma ThreeTracked()
    ensures var f := Followed("item", 1);
      var events := [Sample("a"), Sample("b"), Sample("c")];
      && Unevicted(events, 2) == [Item("a", f), Item("b", f), Item("c", f)]
      && TrackedAfter(events, 2) == [Item("b", f), Item("c", f)]
  {
    hide Without;
    hide Lookup;
    hide TrackedAfter;
    hide Unevicted;
    var f := Followed("item", 1);
    var a, b, c := Sample("a"), Sample("b"), Sample("c");
    var ia, ib, ic := Item("a", f), Item("b", f), Item("c", f);
    StepOf([], a);
    StepOf([a], b);
    StepOf([a, b], c);
    assert [] + [a] == [a];
    assert [a] + [b] == [a, b];
    assert [a, b] + [c] == [a, b, c];
    PutNew([], "a", f);
    PutNew([ia], "b", f);
    PutNew([ia, ib], "c", f);
    assert [] + [ia] == [ia];
    assert [ia] + [ib] == [ia, ib];
    assert [ia, ib] + [ic] == [ia, ib, ic];
    assert LastN([ia, ib, ic], 2) == [ib, ic];
  }

  /** The literal reading fails: of three tracked listings the third evicts the first and is removed; only one stays followed. */
  lemma MostRecentIsNotEnough()
    ensures var events := [Sample("a"), Sample("b"), Sample("c"), Removal("c", None, true)];
      && Unevicted(events, 2) == [Item("a", Followed("item", 1)), Item("b", Followed("item", 1))]
      && TrackedAfter(events, 2) == [Item("b", Followed("item", 1))]
  {
    hide Without;
    hide Lookup;
    hide TrackedAfter;
    hide Unevicted;
    var f := Followed("item", 1);
    var front, r := [Sample("a"), Sample("b"), Sample("c")], Removal("c", None, true);
    ThreeTracked();
    StepOf(front, r);
    assert front + [r] == [Sample("a"), Sample("b"), Sample("c"), r];
    var ia, ib, ic := Item("a", f), Item("b", f), Item("c", f);
    RemoveLast([ib], ic);
    RemoveLast([ia, ib], ic);
    assert [ib] + [ic] == [ib, ic];
    assert [ia, ib] + [ic] == [ia, ib, ic];
  }

  function Sample(id: string): Event {
    Listing(false, id, "item", 1, Scoring.Recorded)
  }

  lemma StepOf(front: seq<Event>, e: Event)
    ensures TrackedAfter(front + [e], 2) == OnEvent(TrackedAfter(front, 2), e, 2).0
    ensures var op := OpOf(TrackedAfter(front, 2), e);
      Unevicted(front + [e], 2) == if op.None? then Unevicted(front, 2) else Applied(Unevicted(front, 2), op.value)
    ensures TrackedAfter([], 2) == [] && Unevicted([], 2) == []
  {
    assert (front + [e])[..|front|] == front;
  }

  lemma PutNew(d: Tracked, id: string, f: Followed)
    requires forall i :: 0 <= i < |d| ==> d[i].key != id
    ensures Put(d, id, f) == d + [Item(id, f)]
  {
    WithoutAbsent(d, id);
  }

  lemma {:induction false} RemoveLast(d: Tracked, item: Item<string, Followed>)
    requires forall i :: 0 <= i < |d| ==> d[i].key != item.key
    ensures Without(d + [item], item.key) == d && Lookup(d + [item], item.key) == Some(item.value)
  {
    WithoutAbsent(d, item.key);
    assert (d + [item])[..|d|] == d;
  }

  // ---- The filter, changed in place ----

  class Filter {
    var tracked: Tracked
    const maxTracked: nat

    constructor (maxTracked: nat)
      ensures tracked == [] && this.maxTracked == maxTracked
    {
      tracked := [];
      this.maxTracked := maxTracked;
    }

    method Track(id: string, entry: Followed)
      modifies this
      ensures tracked == BoundedPut(old(tracked), id, entry, maxTracked)
    {
      var all := Put(tracked, id, entry);
      tracked := all;
      ghost var dropped := 0;
      while |tracked| > maxTracked
        invariant dropped <= |all| && tracked == all[dropped..] && (dropped > 0 ==> |tracked| >= maxTracked)
        decreases |tracked|
      {
        tracked := tracked[1..];
        dropped := dropped + 1;
      }
    }

    method OnListingEvent(e: Event) returns (result: Result)
      requires e.Listing?
      modifies this
      ensures (tracked, result) == OnListing(old(tracked), e, maxTracked)
    {
      hide BoundedPut;
      var followed := Lookup(tracked, e.id);
      if followed.Some? && e.update {
        Track(e.id, Followed(e.name, e.priceCents));
        if e.priceCents >= followed.value.priceCents {
          return NotAPriceCut;
        }
        return if e.outcome == Scoring.Recorded then RecordedListing(e.name, e.priceCents) else Judged(e.outcome);
      }
      if e.outcome != Scoring.Recorded {
        tracked := Without(tracked, e.id);
        return Judged(e.outcome);
      }
      Track(e.id, Followed(e.name, e.priceCents));
      result := RecordedListing(e.name, e.priceCents);
    }

    method OnRemovalEvent(e: Event) returns (result: Result)
      requires e.Removal?
      modifies this
      ensures (tracked, result) == OnRemoval(old(tracked), e)
    {
      var followed := Lookup(tracked, e.id);
      if followed.None? {
        return UntrackedRemoval;
      }
      tracked := Without(tracked, e.id);
      if !e.validTick {
        return Refused;
      }
      var priceCents := if e.askCents.Some? && e.askCents.value != 0 then e.askCents.value else followed.value.priceCents;
      result := RecordedRemoval(followed.value.name, priceCents);
    }
  }
}
