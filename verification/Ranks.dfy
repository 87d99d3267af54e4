/**
 The order of a Redis sorted set: members rank by (score, member bytes). The same order sorts sales by
 (time, listing ID). A finite set of ranks has exactly one sorted sequence, and keeping the newest `n` after
 every insertion keeps the newest `n` of everything inserted.

 `SortedOf` is the specification of sorting, independent of any algorithm; whatever is in order and has the same members is
 equal to it.
 */
module Ranks {
  import opened Texts

  datatype Rank = Rank(score: int, member: string)

  predicate Less(a: Rank, b: Rank) {
    a.score < b.score || (a.score == b.score && LexLess(a.member, b.member))
  }

  lemma LessTrichotomy(a: Rank, b: Rank)
    ensures Less(a, b) || a == b || Less(b, a)
    ensures !(Less(a, b) && Less(b, a))
    ensures !Less(a, a)
  {
    LexTrichotomy(a.member, b.member);
    LexTrichotomy(a.member, a.member);
  }

  lemma LessTransitive(a: Rank, b: Rank, c: Rank)
    requires Less(a, b) && Less(b, c)
    ensures Less(a, c)
  {
    if a.score == b.score == c.score {
      LexTransitive(a.member, b.member, c.member);
    }
  }

  ghost predicate Sorted(s: seq<Rank>) {
    forall i, j :: 0 <= i < j < |s| ==> Less(s[i], s[j])
  }

  function Elements(s: seq<Rank>): set<Rank> {
    set r | r in s
  }

  predicate IsLeast(s: set<Rank>, least: Rank) {
    least in s && forall r :: r in s ==> r == least || Less(least, r)
  }

  lemma {:induction false} LeastExists(s: set<Rank>) returns (least: Rank)
    requires s != {}
    ensures IsLeast(s, least)
  {
    var first :| first in s;
    var others := s - {first};
    least := first;
    assert forall r :: r in s ==> r == first || r in others;
    if others != {} {
      var rest := LeastExists(others);
      LessTrichotomy(first, rest);
      if Less(rest, first) {
        least := rest;
      } else {
        forall r | r in s && r != first ensures Less(first, r) {
          assert r in others;
          if r != rest {
            LessTransitive(first, rest, r);
          }
        }
      }
    }
  }

  lemma LeastUnique(s: set<Rank>)
    ensures forall a, b :: IsLeast(s, a) && IsLeast(s, b) ==> a == b
  {
    forall a, b | IsLeast(s, a) && IsLeast(s, b) ensures a == b {
      LessTrichotomy(a, b);
    }
  }

  function Least(s: set<Rank>): (least: Rank)
    requires s != {}
    ensures IsLeast(s, least)
  {
    assert exists least :: IsLeast(s, least) by {
      var least := LeastExists(s);
    }
    LeastUnique(s);
    var least :| least in s && IsLeast(s, least);
    least
  }

  /** The members of a finite set in ascending order (Python's `sorted` with the (score, bytes) key). */
  function SortedOf(s: set<Rank>): (q: seq<Rank>) {
    if s == {} then [] else [Least(s)] + SortedOf(s - {Least(s)})
  }

  lemma SortedCons(x: Rank, rest: seq<Rank>)
    requires Sorted(rest) && forall r :: r in Elements(rest) ==> Less(x, r)
    ensures Sorted([x] + rest) && Elements([x] + rest) == {x} + Elements(rest)
  {
    forall i | 0 <= i < |rest| ensures Less(x, rest[i]) {
      assert rest[i] in Elements(rest);
    }
  }

  lemma {:induction false} SortedOfSpec(s: set<Rank>)
    ensures Elements(SortedOf(s)) == s && Sorted(SortedOf(s)) && |SortedOf(s)| == |s|
  {
    if s != {} {
      var least := Least(s);
      SortedOfSpec(s - {least});
      SortedCons(least, SortedOf(s - {least}));
    }
  }

  /** A sorted sequence is determined by its elements. */
  lemma {:induction false} SortedUnique(a: seq<Rank>, b: seq<Rank>)
    requires Sorted(a) && Sorted(b) && Elements(a) == Elements(b)
    ensures a == b
  {
    if a == [] {
      assert forall i :: 0 <= i < |b| ==> b[i] in Elements(b);
    } else {
      assert a[0] in Elements(b) && b[0] in Elements(a);
      LessTrichotomy(a[0], b[0]);
      assert a[0] == b[0];
      TailElements(a);
      TailElements(b);
      SortedUnique(a[1..], b[1..]);
      assert a == [a[0]] + a[1..] && b == [b[0]] + b[1..];
    }
  }

  lemma TailElements(s: seq<Rank>)
    requires s != [] && Sorted(s)
    ensures Elements(s[1..]) == Elements(s) - {s[0]} && Sorted(s[1..])
  {
    LessTrichotomy(s[0], s[0]);
    forall r ensures r in Elements(s[1..]) <==> r in Elements(s) - {s[0]} {
      if r in Elements(s) - {s[0]} {
        var i :| 0 <= i < |s| && s[i] == r;
        assert s[1..][i - 1] == r;
      }
    }
  }

  function Insert(s: seq<Rank>, r: Rank): seq<Rank> {
    if s == [] then [r]
    else if s[0] == r then s
    else if Less(r, s[0]) then [r] + s
    else [s[0]] + Insert(s[1..], r)
  }

  lemma ElementsCons(x: Rank, s: seq<Rank>)
    ensures Elements([x] + s) == {x} + Elements(s)
  {
  }

  lemma {:induction false} InsertElements(s: seq<Rank>, r: Rank)
    ensures Elements(Insert(s, r)) == Elements(s) + {r} && |Insert(s, r)| >= |s|
  {
    hide Less;
    if s != [] && s[0] != r {
      InsertElements(s[1..], r);
      assert s == [s[0]] + s[1..];
      ElementsCons(s[0], s[1..]);
      ElementsCons(s[0], Insert(s[1..], r));
      ElementsCons(r, s);
      hide Elements;
    } else if s == [] {
      ElementsCons(r, s);
    }
  }

  lemma {:induction false} InsertSorted(s: seq<Rank>, r: Rank)
    requires Sorted(s)
    ensures Sorted(Insert(s, r)) && Elements(Insert(s, r)) == Elements(s) + {r}
    ensures |Insert(s, r)| >= |s|
  {
    hide Less;
    InsertElements(s, r);
    if s != [] && s[0] != r {
      LessTrichotomy(r, s[0]);
      if Less(r, s[0]) {
        forall x | x in Elements(s) ensures Less(r, x) {
          var j :| 0 <= j < |s| && s[j] == x;
          if j > 0 { LessTransitive(r, s[0], s[j]); }
        }
        SortedCons(r, s);
      } else {
        InsertSorted(s[1..], r);
        SortedCons(s[0], Insert(s[1..], r));
      }
    }
  }

  lemma SortedOfAdd(s: set<Rank>, r: Rank)
    ensures SortedOf(s + {r}) == Insert(SortedOf(s), r)
  {
    SortedOfSpec(s);
    SortedOfSpec(s + {r});
    InsertSorted(SortedOf(s), r);
    SortedUnique(SortedOf(s + {r}), Insert(SortedOf(s), r));
  }

  /** The last `n` elements: what is left after the oldest are dropped. */
  function LastN<T>(s: seq<T>, n: nat): (r: seq<T>)
    ensures |r| == if |s| <= n then |s| else n
  {
    if |s| <= n then s else s[|s| - n..]
  }

  lemma InsertSmall(s: seq<Rank>, r: Rank)
    requires forall i :: 0 <= i < |s| ==> Less(r, s[i])
    ensures Insert(s, r) == [r] + s
  {
    if s != [] {
      LessTrichotomy(r, s[0]);
    }
  }

  lemma InsertedIsTrimmed(s: seq<Rank>, r: Rank, n: nat)
    requires |s| > n && Sorted(s) && (s[0] == r || Less(r, s[0]))
    ensures LastN(Insert(LastN(s, n), r), n) == LastN(Insert(s, r), n)
  {
    hide LexLess;
    var kept := LastN(s, n);
    forall j | 0 <= j < |kept| ensures Less(r, kept[j]) {
      assert kept[j] == s[j + |s| - n] && Less(s[0], s[j + |s| - n]);
      if r != s[0] { LessTransitive(r, s[0], kept[j]); }
    }
    InsertSmall(kept, r);
    assert LastN([r] + kept, n) == kept;
    assert LastN([r] + s, n) == kept;
  }

  lemma LastNCons<T>(x: T, s: seq<T>, n: nat)
    requires |s| >= n
    ensures LastN([x] + s, n) == LastN(s, n)
  {
  }

  /** Trimming before an insertion changes nothing once the result is trimmed too. */
  lemma {:induction false} TrimThenInsert(s: seq<Rank>, r: Rank, n: nat)
    requires Sorted(s)
    ensures LastN(Insert(LastN(s, n), r), n) == LastN(Insert(s, r), n)
  {
    hide Less;
    if |s| > n {
      if s[0] == r || Less(r, s[0]) {
        InsertedIsTrimmed(s, r, n);
      } else {
        var t := s[1..];
        assert s == [s[0]] + t;
        LastNCons(s[0], t, n);
        TrimThenInsert(t, r, n);
        InsertSorted(t, r);
        hide Sorted;
        assert Insert(s, r) == [s[0]] + Insert(t, r);
        LastNCons(s[0], Insert(t, r), n);
      }
    } else {
      assert LastN(s, n) == s;
    }
  }
}
