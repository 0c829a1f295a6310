/**
 * Sorting a list of `[order, obj]` pairs by order. Python 2 places None before every
 * integer; ties are kept in list order (the source breaks them by comparing objects,
 * which fixes no particular order).
 */
module Sorting {
  import opened Wrappers

  /** `a <= b` on orders, None first. */
  predicate KeyLe(a: Option<int>, b: Option<int>)
  {
    a.None? || (b.Some? && a.value <= b.value)
  }

  predicate SortedBy<T>(s: seq<T>, key: T -> Option<int>)
  {
    forall i, j :: 0 <= i < j < |s| ==> KeyLe(key(s[i]), key(s[j]))
  }

  /** Insert `x` before the first element whose order is not below its own. */
  function Insert<T>(x: T, s: seq<T>, key: T -> Option<int>): seq<T>
    decreases |s|
  {
    if |s| == 0 || KeyLe(key(x), key(s[0])) then [x] + s else [s[0]] + Insert(x, s[1..], key)
  }

  /** Stable insertion sort by order. */
  function SortBy<T>(s: seq<T>, key: T -> Option<int>): seq<T>
    decreases |s|
  {
    if |s| == 0 then [] else Insert(s[0], SortBy(s[1..], key), key)
  }

  lemma {:induction false} InsertPermutes<T>(x: T, s: seq<T>, key: T -> Option<int>)
    ensures multiset(Insert(x, s, key)) == multiset{x} + multiset(s)
    decreases |s|
  {
    if |s| == 0 || KeyLe(key(x), key(s[0])) {
    } else {
      InsertPermutes(x, s[1..], key);
      assert s == [s[0]] + s[1..];
    }
  }

  lemma {:induction false} InsertSorted<T>(x: T, s: seq<T>, key: T -> Option<int>)
    requires SortedBy(s, key)
    ensures SortedBy(Insert(x, s, key), key)
    decreases |s|
  {
    if |s| == 0 || KeyLe(key(x), key(s[0])) {
      var r := Insert(x, s, key);
      forall i, j | 0 <= i < j < |r| ensures KeyLe(key(r[i]), key(r[j])) {
        if i == 0 && j > 1 {
          assert r[j] == s[j - 1];
        }
      }
    } else {
      var t := s[1..];
      InsertSorted(x, t, key);
      InsertPermutes(x, t, key);
      var r := Insert(x, s, key);
      var it := Insert(x, t, key);
      assert r == [s[0]] + it;
      forall i, j | 0 <= i < j < |r| ensures KeyLe(key(r[i]), key(r[j])) {
        if i == 0 {
          var y := it[j - 1];
          assert y in multiset(it);
          assert y == x || y in multiset(t);
          if y != x {
            var k :| 0 <= k < |t| && t[k] == y;
            assert s[k + 1] == y;
          }
        }
      }
    }
  }

  /** The sorted list is ordered by order... */
  lemma {:induction false} SortSorted<T>(s: seq<T>, key: T -> Option<int>)
    ensures SortedBy(SortBy(s, key), key)
    decreases |s|
  {
    if |s| > 0 {
      SortSorted(s[1..], key);
      InsertSorted(s[0], SortBy(s[1..], key), key);
    }
  }

  /** ...and holds exactly the elements it was given. */
  lemma {:induction false} SortPermutes<T>(s: seq<T>, key: T -> Option<int>)
    ensures multiset(SortBy(s, key)) == multiset(s)
    ensures |SortBy(s, key)| == |s|
    decreases |s|
  {
    if |s| > 0 {
      SortPermutes(s[1..], key);
      InsertPermutes(s[0], SortBy(s[1..], key), key);
      assert s == [s[0]] + s[1..];
    }
    calc {
      |SortBy(s, key)|;
      |multiset(SortBy(s, key))|;
      |multiset(s)|;
      |s|;
    }
  }

  /** Membership survives sorting. */
  lemma SortKeeps<T>(s: seq<T>, key: T -> Option<int>, x: T)
    ensures x in SortBy(s, key) <==> x in s
  {
    SortPermutes(s, key);
    assert x in SortBy(s, key) <==> x in multiset(SortBy(s, key));
    assert x in s <==> x in multiset(s);
  }
}
