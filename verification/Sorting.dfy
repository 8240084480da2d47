/** `Array.prototype.sort` with a comparator, as an insertion sort over
    a "strictly precedes" relation, and the database's `sort({ createdAt: -1 })`
    as the same sort on creation time. */
module Sorting {

  /** `before(a, b)` holds when the comparator puts `a` strictly ahead of `b`;
      the comparator is consistent when that relation is a strict weak order. */
  ghost predicate StrictWeakOrder<T(!new)>(before: (T, T) -> bool) {
    && (forall a, b :: before(a, b) ==> !before(b, a))
    && (forall a, b, c :: !before(a, b) && !before(b, c) ==> !before(a, c))
  }

  /** No element strictly precedes one placed ahead of it. */
  ghost predicate Sorted<T>(s: seq<T>, before: (T, T) -> bool) {
    forall i, j :: 0 <= i < j < |s| ==> !before(s[j], s[i])
  }

  /** Places `x` after every element that strictly precedes it and ahead of
      the rest, so that `x` stays in front of its equals. */
  function Insert<T>(x: T, s: seq<T>, before: (T, T) -> bool): (r: seq<T>)
    ensures multiset(r) == multiset(s) + multiset{x}
    ensures |r| == |s| + 1
  {
    if s == [] then [x]
    else
      assert s == [s[0]] + s[1..];
      if before(s[0], x) then [s[0]] + Insert(x, s[1..], before)
      else [x] + s
  }

  /** Insertion sort: a permutation of the input, in comparator order by
      `SortBySorted`. Each element is inserted ahead of its equals; that the
      result is stable is not proved. */
  function SortBy<T>(s: seq<T>, before: (T, T) -> bool): (r: seq<T>)
    ensures multiset(r) == multiset(s)
    ensures |r| == |s|
  {
    if s == [] then []
    else
      assert s == [s[0]] + s[1..];
      Insert(s[0], SortBy(s[1..], before), before)
  }

  /** Inserting into a sorted sequence keeps it sorted. */
  lemma {:induction false} InsertSorted<T(!new)>(x: T, s: seq<T>, before: (T, T) -> bool)
    requires StrictWeakOrder(before)
    requires Sorted(s, before)
    ensures Sorted(Insert(x, s, before), before)
  {
    var r := Insert(x, s, before);
    if s == [] {
    } else if before(s[0], x) {
      var t := Insert(x, s[1..], before);
      InsertSorted(x, s[1..], before);
      assert multiset(t) == multiset(s[1..]) + multiset{x};
      forall j | 0 < j < |r|
        ensures !before(r[j], r[0])
      {
        assert r[j] == t[j - 1];
        assert r[j] in multiset(t);
        if r[j] != x {
          assert r[j] in multiset(s[1..]);
          var k :| 0 <= k < |s[1..]| && s[1..][k] == r[j];
          assert s[k + 1] == r[j];
        }
      }
    } else {
      forall i, j | 0 <= i < j < |r|
        ensures !before(r[j], r[i])
      {
        if i == 0 {
          assert r[j] == s[j - 1];
          if j > 1 {
            assert !before(s[j - 1], s[0]);
          }
        } else {
          assert r[i] == s[i - 1] && r[j] == s[j - 1];
        }
      }
    }
  }

  /** The sort's output is in comparator order. */
  lemma {:induction false} SortBySorted<T(!new)>(s: seq<T>, before: (T, T) -> bool)
    requires StrictWeakOrder(before)
    ensures Sorted(SortBy(s, before), before)
  {
    if s != [] {
      SortBySorted(s[1..], before);
      InsertSorted(s[0], SortBy(s[1..], before), before);
    }
  }

  /** Sorting a sequence that is already in comparator order changes
      nothing, so sorting twice is sorting once. */
  lemma {:induction false} SortBySortedIsIdentity<T>(s: seq<T>, before: (T, T) -> bool)
    requires Sorted(s, before)
    ensures SortBy(s, before) == s
  {
    if s != [] {
      assert Sorted(s[1..], before) by {
        forall i, j | 0 <= i < j < |s[1..]|
          ensures !before(s[1..][j], s[1..][i])
        {
          assert s[1..][j] == s[j + 1] && s[1..][i] == s[i + 1];
        }
      }
      SortBySortedIsIdentity(s[1..], before);
      if |s| > 1 {
        assert !before(s[1], s[0]);
        assert s[1..][0] == s[1];
      }
      assert [s[0]] + s[1..] == s;
    }
  }

  /** Descending order on a numeric key (`sort({ key: -1 })`, or the
      comparator `(a, b) => key(b) - key(a)`). */
  function NewestFirst<T>(key: T -> int): (before: (T, T) -> bool) {
    (a: T, b: T) => key(a) > key(b)
  }

  /** Ordering by a key, newest first, is a consistent comparator. */
  lemma {:induction false} NewestFirstIsStrictWeak<T(!new)>(key: T -> int)
    ensures StrictWeakOrder(NewestFirst(key))
  {
  }

  /** Sorting on a key, newest first: a permutation whose keys never
      increase along the sequence. */
  function SortNewestFirst<T(!new)>(s: seq<T>, key: T -> int): (r: seq<T>)
    ensures multiset(r) == multiset(s)
    ensures forall i, j :: 0 <= i < j < |r| ==> key(r[i]) >= key(r[j])
  {
    NewestFirstIsStrictWeak(key);
    SortBySorted(s, NewestFirst(key));
    SortBy(s, NewestFirst(key))
  }
}
