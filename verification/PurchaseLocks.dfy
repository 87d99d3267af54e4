/**
 Concurrent trade requests on the backend: a lock on venue, item and price, the snapshot check, the insert under the unique
 indexes, the commit. Under any interleaving the committed table never holds a purchase twice.
 */
module PurchaseLocks {
  import opened Texts
  import opened Purchases

  /** Where a transaction stands. An insert holds its index entry until the transaction ends. */
  datatype Phase = Started | Locked | Checked(repeat: bool) | Inserted(stored: bool)

  datatype Transaction = Transaction(order: Purchase, phase: Phase) {
    predicate HoldsLock() {
      !phase.Started?
    }

    predicate WillStore() {
      phase == Inserted(true)
    }
  }

  datatype Backend = Backend(table: seq<Purchase>, open: map<nat, Transaction>)

  predicate SameLock(p: Purchase, q: Purchase) {
    p.venue == q.venue && p.name == q.name && p.priceCents == q.priceCents
  }

  /** The two orders would break a unique index together. */
  predicate IndexClash(p: Purchase, q: Purchase) {
    SameListing(p, q) || (p.listingId.None? && q.listingId.None? && SameSnapshot(p, q))
  }

  datatype Step =
    | Begin(id: nat, order: Purchase)
    | Lock(id: nat)
    | Check(id: nat)
    | Insert(id: nat)
    | Commit(id: nat)
    | Rollback(id: nat)

  /** A lock waits for its holder, and an insert for an uncommitted row of the same index key. */
  ghost predicate Allowed(b: Backend, s: Step) {
    match s
    case Begin(id, _) => id !in b.open
    case Lock(id) =>
      id in b.open && b.open[id].phase.Started?
      && forall other :: other in b.open && b.open[other].HoldsLock() ==> !SameLock(b.open[id].order, b.open[other].order)
    case Check(id) => id in b.open && b.open[id].phase.Locked?
    case Insert(id) =>
      id in b.open && b.open[id].phase.Checked?
      && forall other :: other in b.open && b.open[other].WillStore() ==> !IndexClash(b.open[id].order, b.open[other].order)
    case Commit(id) => id in b.open && b.open[id].phase.Inserted?
    case Rollback(id) => id in b.open
  }

  /** `snapshot_already_bought`, on what is committed. */
  predicate AlreadyBought(p: Purchase, table: seq<Purchase>) {
    p.listingId.None? && exists row :: row in table && SameSnapshot(p, row)
  }

  function Taken(b: Backend, s: Step): Backend {
    match s
    case Begin(id, order) => b.(open := b.open[id := Transaction(order, Started)])
    case Lock(id) => if id in b.open then b.(open := b.open[id := b.open[id].(phase := Locked)]) else b
    case Check(id) =>
      if id !in b.open then b
      else b.(open := b.open[id := b.open[id].(phase := Checked(AlreadyBought(b.open[id].order, b.table)))])
    case Insert(id) =>
      if id !in b.open || !b.open[id].phase.Checked? then b
      else
        var t := b.open[id];
        var stored := !t.phase.repeat && !exists row :: row in b.table && IndexClash(t.order, row);
        b.(open := b.open[id := t.(phase := Inserted(stored))])
    case Commit(id) =>
      if id !in b.open then b
      else Backend(if b.open[id].WillStore() then b.table + [b.open[id].order] else b.table, b.open - {id})
    case Rollback(id) => b.(open := b.open - {id})
  }

  ghost predicate LocksExclusive(b: Backend) {
    forall i, j :: i in b.open && j in b.open && i != j && b.open[i].HoldsLock() && b.open[j].HoldsLock() ==>
      !SameLock(b.open[i].order, b.open[j].order)
  }

  /** A snapshot order past its check still has no committed row of its item, price and day. */
  ghost predicate ChecksHold(b: Backend) {
    forall i :: i in b.open && b.open[i].order.listingId.None? && (b.open[i].phase == Checked(false) || b.open[i].WillStore()) ==>
      !AlreadyBought(b.open[i].order, b.table)
  }

  /** An uncommitted insert clashes with no committed row and no other insert. */
  ghost predicate InsertsUnique(b: Backend) {
    && (forall i, row :: i in b.open && b.open[i].WillStore() && row in b.table ==> !IndexClash(b.open[i].order, row))
    && (forall i, j :: i in b.open && j in b.open && i != j && b.open[i].WillStore() && b.open[j].WillStore() ==>
          !IndexClash(b.open[i].order, b.open[j].order))
  }

  /** The rule of `Purchases.Repeats`, on the committed rows. */
  ghost predicate Inv(b: Backend) {
    LocksExclusive(b) && ChecksHold(b) && InsertsUnique(b) && RepeatFree(b.table)
  }

  lemma CommitKeepsTable(b: Backend, id: nat)
    requires Inv(b) && id in b.open && b.open[id].WillStore()
    ensures RepeatFree(b.table + [b.open[id].order])
  {
    var p := b.open[id].order;
    var table := b.table + [p];
    assert table[..|b.table|] == b.table;
    assert !Repeats(p, b.table) by {
      assert forall row :: row in b.table ==> !IndexClash(p, row);
      assert p.listingId.None? ==> !AlreadyBought(p, b.table);
    }
    forall i | 0 <= i < |table| ensures !Repeats(table[i], table[..i]) {
      if i < |b.table| {
        assert table[i] == b.table[i] && table[..i] == b.table[..i];
      }
    }
  }

  lemma CommitKeepsChecks(b: Backend, id: nat)
    requires Inv(b) && id in b.open && b.open[id].WillStore()
    ensures ChecksHold(Taken(b, Commit(id)))
  {
    hide RepeatFree;
    var b' := Taken(b, Commit(id));
    var p := b.open[id].order;
    forall i | i in b'.open && b'.open[i].order.listingId.None? && (b'.open[i].phase == Checked(false) || b'.open[i].WillStore())
      ensures !AlreadyBought(b'.open[i].order, b'.table)
    {
      assert i in b.open && b.open[i] == b'.open[i];
      assert !SameLock(b.open[i].order, p);
      assert forall row :: row in b'.table <==> row in b.table || row == p;
    }
  }

  lemma CommitKeepsInserts(b: Backend, id: nat)
    requires Inv(b) && id in b.open && b.open[id].WillStore()
    ensures InsertsUnique(Taken(b, Commit(id)))
  {
    hide RepeatFree;
    var b' := Taken(b, Commit(id));
    assert forall row :: row in b'.table <==> row in b.table || row == b.open[id].order;
    assert forall i :: i in b'.open ==> i in b.open && i != id && b'.open[i] == b.open[i];
  }

  lemma LocksKept(b: Backend, s: Step)
    requires LocksExclusive(b) && Allowed(b, s)
    ensures LocksExclusive(Taken(b, s))
  {
    hide SameLock;
    hide IndexClash;
    hide AlreadyBought;
    LockSymmetric();
  }

  lemma ChecksKept(b: Backend, s: Step)
    requires ChecksHold(b) && Allowed(b, s) && Taken(b, s).table == b.table
    ensures ChecksHold(Taken(b, s))
  {
    hide SameLock;
    hide IndexClash;
    hide AlreadyBought;
  }

  lemma InsertsKept(b: Backend, s: Step)
    requires InsertsUnique(b) && Allowed(b, s) && Taken(b, s).table == b.table
    ensures InsertsUnique(Taken(b, s))
  {
    hide SameLock;
    hide IndexClash;
    hide AlreadyBought;
    ClashSymmetric();
  }

  lemma StepKeeps(b: Backend, s: Step)
    requires Inv(b) && Allowed(b, s)
    ensures Inv(Taken(b, s))
  {
    hide RepeatFree;
    LocksKept(b, s);
    if s.Commit? && b.open[s.id].WillStore() {
      CommitKeepsTable(b, s.id);
      CommitKeepsChecks(b, s.id);
      CommitKeepsInserts(b, s.id);
    } else {
      hide LocksExclusive;
      hide ChecksHold;
      hide InsertsUnique;
      ChecksKept(b, s);
      InsertsKept(b, s);
    }
  }

  lemma ClashSymmetric()
    ensures forall p, q :: IndexClash(p, q) == IndexClash(q, p)
  {
  }

  lemma LockSymmetric()
    ensures forall p, q :: SameLock(p, q) == SameLock(q, p)
  {
  }

  // ---- Every interleaving ----

  ghost predicate Follows(b: Backend, b': Backend) {
    exists s :: Allowed(b, s) && b' == Taken(b, s)
  }

  ghost predicate IsRun(run: seq<Backend>) {
    run != [] && run[0] == Backend([], map[]) && forall i :: 0 <= i < |run| - 1 ==> Follows(run[i], run[i + 1])
  }

  lemma {:induction false} InvariantHolds(run: seq<Backend>, i: nat)
    requires IsRun(run) && i < |run|
    ensures Inv(run[i])
    decreases i
  {
    if i > 0 {
      InvariantHolds(run, i - 1);
      assert Follows(run[i - 1], run[i - 1 + 1]);
      var s :| Allowed(run[i - 1], s) && run[i] == Taken(run[i - 1], s);
      StepKeeps(run[i - 1], s);
    }
  }

  /** Buy once under concurrency: no listing twice, and no snapshot after another buy of its item, price and day. */
  lemma NoDoubleBuy(run: seq<Backend>, n: nat, i: nat, j: nat)
    requires IsRun(run) && n < |run| && i < j < |run[n].table|
    ensures var early, late := run[n].table[i], run[n].table[j];
      && !SameListing(late, early)
      && (late.listingId.None? ==> !SameSnapshot(late, early))
  {
    hide IsRun;
    InvariantHolds(run, n);
    var table := run[n].table;
    assert table[i] in table[..j] by { assert table[..j][i] == table[i]; }
    assert !Repeats(table[j], table[..j]);
  }

  /** The lock is needed: the same steps without it store a snapshot after a listing of its item, price and day. */
  lemma WithoutLockBothAreStored(day: Day)
    ensures var listing := Purchase("skinport", "item", 10, Some("1"), day);
      var snapshot := listing.(listingId := None);
      var checked := Taken(Taken(Taken(Backend([], map[]), Begin(1, snapshot)), Begin(2, listing)), Check(1));
      var bought := Taken(Taken(Taken(checked, Check(2)), Insert(2)), Commit(2));
      Taken(Taken(bought, Insert(1)), Commit(1)).table == [listing, snapshot] && !RepeatFree([listing, snapshot])
  {
    var listing := Purchase("skinport", "item", 10, Some("1"), day);
    var snapshot := listing.(listingId := None);
    var checked := Taken(Taken(Taken(Backend([], map[]), Begin(1, snapshot)), Begin(2, listing)), Check(1));
    assert checked.open[1] == Transaction(snapshot, Checked(false)) && checked.open[2] == Transaction(listing, Started);
    var bought := Taken(Taken(Taken(checked, Check(2)), Insert(2)), Commit(2));
    assert bought.table == [listing] && bought.open[1] == Transaction(snapshot, Checked(false));
    hide Taken;
    SecondRepeats(listing, snapshot);
  }

  lemma SecondRepeats(first: Purchase, second: Purchase)
    requires second.listingId.None? && SameSnapshot(second, first)
    ensures !RepeatFree([first, second])
  {
    assert [first, second][..1] == [first] && first in [first];
    assert Repeats([first, second][1], [first, second][..1]);
  }

  // ---- One request among others ----

  /** Another purchase: of another venue, item or price, and not of the same listing. */
  predicate Unrelated(p: Purchase, q: Purchase) {
    (p.venue != q.venue || p.name != q.name || p.priceCents != q.priceCents) && !SameListing(p, q) && !SameListing(q, p)
  }

  ghost predicate OthersUnrelated(b: Backend, id: nat, order: Purchase) {
    forall other :: other in b.open && other != id ==> Unrelated(order, b.open[other].order)
  }

  /** The states a request goes through, from its lock to its commit. */
  function Served(b: Backend, id: nat): seq<Backend> {
    var locked := Taken(b, Lock(id));
    var checked := Taken(locked, Check(id));
    var inserted := Taken(checked, Insert(id));
    [b, locked, checked, inserted, Taken(inserted, Commit(id))]
  }

  /**
   A request waits for none but those of its own purchase: among others, however far they are, it can go on to its commit,
   and leaves what the rule says of its purchase and the committed rows, with the others where they were.
   */
  lemma ServedIsRule(b: Backend, id: nat)
    requires id in b.open && b.open[id].phase.Started? && OthersUnrelated(b, id, b.open[id].order)
    ensures var order, states := b.open[id].order, Served(b, id);
      && Allowed(states[0], Lock(id)) && Allowed(states[1], Check(id))
      && Allowed(states[2], Insert(id)) && Allowed(states[3], Commit(id))
      && states[4].table == (if Repeats(order, b.table) then b.table else b.table + [order])
      && states[4].open == b.open - {id}
  {
    var order, states := b.open[id].order, Served(b, id);
    var stored := !AlreadyBought(order, b.table) && !exists row :: row in b.table && IndexClash(order, row);
    assert states[1].open == b.open[id := Transaction(order, Locked)];
    assert states[2].open == b.open[id := Transaction(order, Checked(AlreadyBought(order, b.table)))];
    assert states[3].open == b.open[id := Transaction(order, Inserted(stored))];
    StoredIffNew(order, b.table);
    hide Repeats;
    hide AlreadyBought;
  }

  /** A transaction that is rolled back leaves no row, no lock and no index entry, and the others as they were. */
  lemma RollbackLeavesNothing(b: Backend, id: nat, other: nat)
    ensures var b' := Taken(b, Rollback(id));
      b'.table == b.table && id !in b'.open && (other != id && other in b.open ==> other in b'.open && b'.open[other] == b.open[other])
  {
  }

  /** The check and the indexes together refuse exactly what repeats a committed row. */
  lemma StoredIffNew(p: Purchase, table: seq<Purchase>)
    ensures AlreadyBought(p, table) || (exists row :: row in table && IndexClash(p, row)) <==> Repeats(p, table)
  {
  }
}
