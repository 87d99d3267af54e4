/**
 Python's OrderedDict used as an LRU: entries oldest first, `put` makes its key the newest, and entries over
 the limit are dropped from the old end. The dedup caches, the poller's read listings and the recording
 filter's followed listings are all this structure.

 Reference: over a whole history of puts, a key is held exactly when it was put and fewer than `limit` other
 keys were put after its last put.
 */
module OrderedDict {
  import opened Texts
  import opened Ranks

  datatype Item<K, V> = Item(key: K, value: V)

  type Dict<K, V> = seq<Item<K, V>>

  ghost function Keys<K, V>(d: Dict<K, V>): set<K> {
    set item | item in d :: item.key
  }

  ghost predicate Distinct<K, V>(d: Dict<K, V>) {
    forall i, j :: 0 <= i < j < |d| ==> d[i].key != d[j].key
  }

  function Lookup<K(==), V>(d: Dict<K, V>, k: K): Option<V> {
    if d == [] then None
    else if d[|d| - 1].key == k then Some(d[|d| - 1].value)
    else Lookup(d[..|d| - 1], k)
  }

  /** `pop(k, None)`. */
  function Without<K(==), V>(d: Dict<K, V>, k: K): Dict<K, V> {
    if d == [] then []
    else if d[|d| - 1].key == k then Without(d[..|d| - 1], k)
    else Without(d[..|d| - 1], k) + [d[|d| - 1]]
  }

  /** `d[k] = v; d.move_to_end(k)`. */
  function Put<K(==), V>(d: Dict<K, V>, k: K, v: V): Dict<K, V> {
    Without(d, k) + [Item(k, v)]
  }

  /** `Put`, then `popitem(last=False)` while over the limit. */
  function BoundedPut<K(==), V>(d: Dict<K, V>, k: K, v: V, limit: nat): Dict<K, V> {
    LastN(Put(d, k, v), limit)
  }

  lemma KeysConcat<K, V>(a: Dict<K, V>, b: Dict<K, V>)
    ensures Keys(a + b) == Keys(a) + Keys(b)
  {
  }

  lemma {:induction false} WithoutKeys<K, V>(d: Dict<K, V>, k: K)
    ensures Keys(Without(d, k)) == Keys(d) - {k}
    ensures |Without(d, k)| <= |d|
  {
    if d != [] {
      var front, last := d[..|d| - 1], d[|d| - 1];
      WithoutKeys(front, k);
      assert d == front + [last];
      KeysConcat(front, [last]);
      KeysConcat(Without(front, k), [last]);
    }
  }

  lemma {:induction false} WithoutAbsent<K, V>(d: Dict<K, V>, k: K)
    requires k !in Keys(d)
    ensures Without(d, k) == d
  {
    if d != [] {
      var front, last := d[..|d| - 1], d[|d| - 1];
      assert d == front + [last];
      KeysConcat(front, [last]);
      WithoutAbsent(front, k);
    }
  }

  lemma DistinctSnoc<K, V>(front: Dict<K, V>, last: Item<K, V>)
    ensures Distinct(front + [last]) <==> Distinct(front) && last.key !in Keys(front)
  {
    var d := front + [last];
    if Distinct(d) {
      forall i, j | 0 <= i < j < |front| ensures front[i].key != front[j].key {
        assert d[i].key != d[j].key;
      }
      forall i | 0 <= i < |front| ensures front[i].key != last.key {
        assert d[i].key != d[|front|].key;
      }
    } else if Distinct(front) {
      var i, j :| 0 <= i < j < |d| && d[i].key == d[j].key;
      assert front[i].key == last.key;
    }
  }

  lemma {:induction false} WithoutDistinct<K, V>(d: Dict<K, V>, k: K)
    requires Distinct(d)
    ensures Distinct(Without(d, k)) && |d| <= |Without(d, k)| + 1
  {
    if d != [] {
      var front, last := d[..|d| - 1], d[|d| - 1];
      assert d == front + [last];
      DistinctSnoc(front, last);
      if last.key == k {
        WithoutAbsent(front, k);
      } else {
        WithoutDistinct(front, k);
        WithoutKeys(front, k);
        DistinctSnoc(Without(front, k), last);
      }
    }
  }

  lemma {:induction false} WithoutConcat<K, V>(a: Dict<K, V>, b: Dict<K, V>, k: K)
    ensures Without(a + b, k) == Without(a, k) + Without(b, k)
  {
    if b == [] {
      assert a + b == a;
    } else {
      var front := b[..|b| - 1];
      assert (a + b)[..|a + b| - 1] == a + front;
      WithoutConcat(a, front, k);
    }
  }

  lemma {:induction false} LookupFound<K, V>(d: Dict<K, V>, i: nat)
    requires i < |d| && Distinct(d)
    ensures Lookup(d, d[i].key) == Some(d[i].value)
  {
    if i != |d| - 1 {
      LookupFound(d[..|d| - 1], i);
    }
  }

  lemma {:induction false} LookupMissing<K, V>(d: Dict<K, V>, k: K)
    ensures Lookup(d, k) == None <==> k !in Keys(d)
  {
    if d != [] {
      LookupMissing(d[..|d| - 1], k);
      assert d == d[..|d| - 1] + [d[|d| - 1]];
    }
  }

  lemma {:induction false} LookupWithout<K, V>(d: Dict<K, V>, k: K, other: K)
    ensures Lookup(Without(d, k), other) == if other == k then None else Lookup(d, other)
  {
    if d != [] {
      var front, last := d[..|d| - 1], d[|d| - 1];
      LookupWithout(front, k, other);
      if last.key != k {
        assert (Without(front, k) + [last])[..|Without(front, k)|] == Without(front, k);
      }
    }
  }

  lemma PutBasics<K, V>(d: Dict<K, V>, k: K, v: V)
    requires Distinct(d)
    ensures Distinct(Put(d, k, v)) && Keys(Put(d, k, v)) == Keys(d) + {k}
    ensures |d| <= |Put(d, k, v)| <= |d| + 1
  {
    WithoutDistinct(d, k);
    WithoutKeys(d, k);
    DistinctSnoc(Without(d, k), Item(k, v));
    KeysConcat(Without(d, k), [Item(k, v)]);
  }

  lemma LookupPut<K, V>(d: Dict<K, V>, k: K, v: V, other: K)
    ensures Lookup(Put(d, k, v), other) == if other == k then Some(v) else Lookup(d, other)
  {
    var rest := Without(d, k);
    assert (rest + [Item(k, v)])[..|rest|] == rest;
    LookupWithout(d, k, other);
  }

  lemma LastNBasics<K, V>(d: Dict<K, V>, n: nat)
    requires Distinct(d)
    ensures Distinct(LastN(d, n)) && Keys(LastN(d, n)) <= Keys(d)
  {
    assert forall item :: item in LastN(d, n) ==> item in d;
  }

  /** Everything ever put, each key once, in order of its last put. */
  function Unbounded<K(==), V>(history: seq<Item<K, V>>): Dict<K, V> {
    if history == [] then []
    else Put(Unbounded(history[..|history| - 1]), history[|history| - 1].key, history[|history| - 1].value)
  }

  /** The LRU after a history of puts. */
  function Bounded<K(==), V>(history: seq<Item<K, V>>, limit: nat): Dict<K, V> {
    if history == [] then []
    else BoundedPut(Bounded(history[..|history| - 1], limit), history[|history| - 1].key, history[|history| - 1].value, limit)
  }

  lemma {:induction false} UnboundedDistinct<K, V>(history: seq<Item<K, V>>)
    ensures Distinct(Unbounded(history)) && Keys(Unbounded(history)) == Keys(history)
  {
    if history != [] {
      var front, last := history[..|history| - 1], history[|history| - 1];
      UnboundedDistinct(front);
      PutBasics(Unbounded(front), last.key, last.value);
      assert history == front + [last];
    }
  }

  lemma TrimThenPut<K, V>(d: Dict<K, V>, k: K, v: V, limit: nat)
    requires Distinct(d)
    ensures BoundedPut(LastN(d, limit), k, v, limit) == LastN(Put(d, k, v), limit)
  {
    if |d| > limit {
      var early, kept := d[..|d| - limit], d[|d| - limit..];
      assert d == early + kept;
      WithoutConcat(early, kept, k);
      LastNBasics(d, limit);
      WithoutDistinct(kept, k);
      var tail := Without(kept, k) + [Item(k, v)];
      assert Put(d, k, v) == Without(early, k) + tail;
      assert |tail| >= limit;
    }
  }

  /** Evicting as it goes, the LRU holds the newest `limit` keys of the whole history. */
  lemma {:induction false} BoundedIsNewest<K, V>(history: seq<Item<K, V>>, limit: nat)
    ensures Bounded(history, limit) == LastN(Unbounded(history), limit)
  {
    if history != [] {
      var front, last := history[..|history| - 1], history[|history| - 1];
      BoundedIsNewest(front, limit);
      UnboundedDistinct(front);
      TrimThenPut(Unbounded(front), last.key, last.value, limit);
    }
  }

  /** The value of the last put of `k`. */
  function LastValue<K(==), V>(history: seq<Item<K, V>>, k: K): Option<V> {
    if history == [] then None
    else if history[|history| - 1].key == k then Some(history[|history| - 1].value)
    else LastValue(history[..|history| - 1], k)
  }

  /** The keys put after the last put of `k` (every key when `k` was never put). */
  function PutSince<K(==), V>(history: seq<Item<K, V>>, k: K): set<K> {
    if history == [] || history[|history| - 1].key == k then {}
    else PutSince(history[..|history| - 1], k) + {history[|history| - 1].key}
  }

  lemma KeysFrom<K, V>(front: Dict<K, V>, last: Item<K, V>, i: nat)
    requires i <= |front|
    ensures Keys((front + [last])[i..]) == Keys(front[i..]) + {last.key}
  {
    assert (front + [last])[i..] == front[i..] + [last];
    KeysConcat(front[i..], [last]);
  }

  lemma {:induction false} PositionOf<K, V>(history: seq<Item<K, V>>, i: nat)
    requires i < |Unbounded(history)|
    ensures var d := Unbounded(history);
      && Keys(d[i + 1..]) == PutSince(history, d[i].key)
      && LastValue(history, d[i].key) == Some(d[i].value)
  {
    hide Without;
    var front, last := history[..|history| - 1], history[|history| - 1];
    var before, d := Unbounded(front), Unbounded(history);
    if i == |d| - 1 {
      assert d[i + 1..] == [];
      assert Keys<K, V>([]) == {};
    } else {
      var rest := Without(before, last.key);
      assert d == rest + [Item(last.key, last.value)];
      KeysFrom(rest, Item(last.key, last.value), i + 1);
      hide Keys;
      var j := WithoutIndex(before, last.key, i);
      PositionOf(front, j);
      WithoutKeys(before[j + 1..], last.key);
    }
  }

  lemma {:induction false} WithoutIndex<K, V>(d: Dict<K, V>, k: K, i: nat) returns (j: nat)
    requires i < |Without(d, k)|
    ensures j < |d| && d[j] == Without(d, k)[i] && d[j].key != k
    ensures Without(d, k)[i + 1..] == Without(d[j + 1..], k)
  {
    var front, last := d[..|d| - 1], d[|d| - 1];
    if last.key != k && i == |Without(front, k)| {
      j := |d| - 1;
      assert d[j + 1..] == [];
    } else {
      j := WithoutIndex(front, k, i);
      assert d[j + 1..] == front[j + 1..] + [last];
      assert d[j + 1..][..|d[j + 1..]| - 1] == front[j + 1..];
    }
  }

  lemma {:induction false} DistinctCount<K, V>(d: Dict<K, V>)
    requires Distinct(d)
    ensures |Keys(d)| == |d|
  {
    if d != [] {
      var front, last := d[..|d| - 1], d[|d| - 1];
      DistinctCount(front);
      assert d == front + [last];
      assert Keys(d) == Keys(front) + {last.key};
      assert last.key !in Keys(front);
    }
  }

  lemma LookupNewest<K, V>(d: Dict<K, V>, i: nat, limit: nat)
    requires Distinct(d) && i < |d|
    ensures Lookup(LastN(d, limit), d[i].key) == if |d| - 1 - i < limit then Some(d[i].value) else None
  {
    var held := LastN(d, limit);
    LastNBasics(d, limit);
    var shift := |d| - |held|;
    if |d| - 1 - i < limit {
      assert held[i - shift] == d[i];
      LookupFound(held, i - shift);
    } else {
      forall m | 0 <= m < |held| ensures held[m].key != d[i].key {
        assert held[m] == d[m + shift];
      }
      LookupMissing(held, d[i].key);
    }
  }

  /** The LRU answers from the whole history: a key is held until `limit` other keys were put after it. */
  lemma LruAnswers<K, V>(history: seq<Item<K, V>>, k: K, limit: nat)
    ensures Lookup(Bounded(history, limit), k)
      == if |PutSince(history, k)| < limit then LastValue(history, k) else None
  {
    BoundedIsNewest(history, limit);
    UnboundedDistinct(history);
    LastValueMissing(history, k);
    var d := Unbounded(history);
    if k in Keys(d) {
      var i :| 0 <= i < |d| && d[i].key == k;
      PositionOf(history, i);
      DistinctCount(d[i + 1..]);
      LookupNewest(d, i, limit);
    } else {
      LastNBasics(d, limit);
      LookupMissing(LastN(d, limit), k);
    }
  }

  lemma {:induction false} LastValueMissing<K, V>(history: seq<Item<K, V>>, k: K)
    ensures LastValue(history, k) == None <==> k !in Keys(history)
    ensures PutSince(history, k) <= Keys(history)
  {
    if history != [] {
      var front, last := history[..|history| - 1], history[|history| - 1];
      LastValueMissing(front, k);
      assert history == front + [last];
      assert Keys(history) == Keys(front) + {last.key};
    }
  }

  /** While the distinct keys fit, nothing is ever forgotten. */
  lemma NothingForgotten<K, V>(history: seq<Item<K, V>>, k: K, limit: nat)
    requires |Keys(history)| <= limit
    ensures Lookup(Bounded(history, limit), k) == LastValue(history, k)
  {
    LruAnswers(history, k, limit);
    LastValueMissing(history, k);
    if LastValue(history, k).Some? {
      SinceExcludes(history, k);
      SubsetSize(PutSince(history, k) + {k}, Keys(history));
    }
  }

  lemma {:induction false} SinceExcludes<K, V>(history: seq<Item<K, V>>, k: K)
    ensures k !in PutSince(history, k)
  {
    if history != [] {
      SinceExcludes(history[..|history| - 1], k);
    }
  }

  lemma {:induction false} SubsetSize<T>(a: set<T>, b: set<T>)
    requires a <= b
    ensures |a| <= |b|
  {
    if a != {} {
      var x :| x in a;
      SubsetSize(a - {x}, b - {x});
    }
  }
}
