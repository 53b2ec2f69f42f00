/** Stable insertion sort: the meaning given to the library calls that sort by a key. */
module Sorting {

  function Insert<T>(s: seq<T>, x: T, less: (T, T) -> bool): seq<T> {
    if s == [] || !less(x, s[|s| - 1]) then s + [x]
    else Insert(s[..|s| - 1], x, less) + [s[|s| - 1]]
  }

  function Sort<T>(s: seq<T>, less: (T, T) -> bool): seq<T> {
    if s == [] then [] else Insert(Sort(s[..|s| - 1], less), s[|s| - 1], less)
  }

  ghost predicate InOrder<T>(s: seq<T>, less: (T, T) -> bool, i: int, j: int)
    requires 0 <= i < j < |s|
  {
    !less(s[j], s[i])
  }

  ghost predicate Sorted<T>(s: seq<T>, less: (T, T) -> bool) {
    forall i, j :: 0 <= i < j < |s| ==> InOrder(s, less, i, j)
  }

  /** A strict weak order: irreflexive through asymmetry, and "not before" composes. */
  ghost predicate Orders<T(!new)>(less: (T, T) -> bool) {
    (forall a, b :: less(a, b) ==> !less(b, a)) &&
    (forall a, b, c :: !less(b, a) && !less(c, b) ==> !less(c, a))
  }

  lemma {:induction false} InsertKeepsElements<T>(s: seq<T>, x: T, less: (T, T) -> bool)
    ensures multiset(Insert(s, x, less)) == multiset(s) + multiset{x}
  {
    if s != [] && less(x, s[|s| - 1]) {
      var front, last := s[..|s| - 1], s[|s| - 1];
      InsertKeepsElements(front, x, less);
      assert s == front + [last];
    }
  }

  lemma {:induction false} SortKeepsElements<T>(s: seq<T>, less: (T, T) -> bool)
    ensures multiset(Sort(s, less)) == multiset(s)
  {
    if s != [] {
      var front, last := s[..|s| - 1], s[|s| - 1];
      SortKeepsElements(front, less);
      InsertKeepsElements(Sort(front, less), last, less);
      assert s == front + [last];
    }
  }

  lemma {:induction false} SameElements<T>(s: seq<T>, less: (T, T) -> bool, x: T)
    ensures x in Sort(s, less) <==> x in s
  {
    SortKeepsElements(s, less);
    assert x in Sort(s, less) <==> x in multiset(Sort(s, less));
    assert x in s <==> x in multiset(s);
  }

  lemma {:induction false} InsertSorts<T(!new)>(s: seq<T>, x: T, less: (T, T) -> bool)
    requires Orders(less) && Sorted(s, less)
    ensures Sorted(Insert(s, x, less), less)
  {
    var r := Insert(s, x, less);
    if s == [] {
    } else if !less(x, s[|s| - 1]) {
      forall i, j | 0 <= i < j < |r| ensures InOrder(r, less, i, j) {
        if j < |s| {
          assert InOrder(s, less, i, j);
        } else if i < |s| - 1 {
          assert InOrder(s, less, i, |s| - 1);
        }
      }
    } else {
      var front, last := s[..|s| - 1], s[|s| - 1];
      forall i, j | 0 <= i < j < |front| ensures InOrder(front, less, i, j) {
        assert InOrder(s, less, i, j);
      }
      InsertSorts(front, x, less);
      var inner := Insert(front, x, less);
      forall i, j | 0 <= i < j < |r| ensures InOrder(r, less, i, j) {
        if j < |inner| {
          assert InOrder(inner, less, i, j);
        } else {
          InsertMember(front, x, less, inner[i]);
          if inner[i] != x {
            var k :| 0 <= k < |front| && front[k] == inner[i];
            assert InOrder(s, less, k, |s| - 1);
          }
        }
      }
    }
  }

  lemma {:induction false} InsertMember<T>(s: seq<T>, x: T, less: (T, T) -> bool, y: T)
    requires y in Insert(s, x, less)
    ensures y == x || y in s
  {
    InsertKeepsElements(s, x, less);
    assert y in multiset(Insert(s, x, less));
  }

  lemma {:induction false} SortSorts<T(!new)>(s: seq<T>, less: (T, T) -> bool)
    requires Orders(less)
    ensures Sorted(Sort(s, less), less)
  {
    if s != [] {
      SortSorts(s[..|s| - 1], less);
      InsertSorts(Sort(s[..|s| - 1], less), s[|s| - 1], less);
    }
  }

  /** Sorting does nothing to what is already in order. */
  lemma {:induction false} SortedIsFixed<T>(s: seq<T>, less: (T, T) -> bool)
    requires Sorted(s, less)
    ensures Sort(s, less) == s
  {
    if s != [] {
      var n := |s| - 1;
      forall i, j | 0 <= i < j < n ensures InOrder(s[..n], less, i, j) {
        assert InOrder(s, less, i, j);
      }
      SortedIsFixed(s[..n], less);
      assert n > 0 ==> InOrder(s, less, n - 1, n);
      assert s == s[..n] + [s[n]];
    }
  }

  // ---- Sorting by a key that tells all elements apart ----

  ghost predicate KeysDiffer<T>(s: seq<T>, key: T -> int, i: int, j: int)
    requires 0 <= i < |s| && 0 <= j < |s|
  {
    key(s[i]) != key(s[j])
  }

  ghost predicate DistinctKeys<T>(s: seq<T>, key: T -> int) {
    forall i, j :: 0 <= i < j < |s| ==> KeysDiffer(s, key, i, j)
  }

  lemma {:induction false} SortedDistinctKeys<T>(s: seq<T>, less: (T, T) -> bool, key: T -> int)
    requires DistinctKeys(s, key)
    ensures DistinctKeys(Sort(s, less), key)
  {
    var r := Sort(s, less);
    SortKeepsElements(s, less);
    forall i, j | 0 <= i < j < |r| ensures KeysDiffer(r, key, i, j) {
      if r[i] == r[j] {
        TwiceInMultiset(r, i, j);
        OnceInMultiset(s, key, r[i]);
      } else {
        assert r[i] in multiset(s) && r[j] in multiset(s);
        var a :| 0 <= a < |s| && s[a] == r[i];
        var b :| 0 <= b < |s| && s[b] == r[j];
        assert a < b ==> KeysDiffer(s, key, a, b);
        assert b < a ==> KeysDiffer(s, key, b, a);
      }
    }
  }

  lemma {:induction false} TwiceInMultiset<T>(s: seq<T>, i: nat, j: nat)
    requires i < j < |s| && s[i] == s[j]
    ensures multiset(s)[s[i]] >= 2
  {
    assert s == s[..i] + [s[i]] + s[i + 1..j] + [s[j]] + s[j + 1..];
  }

  lemma {:induction false} OnceInMultiset<T>(s: seq<T>, key: T -> int, x: T)
    requires DistinctKeys(s, key)
    ensures multiset(s)[x] <= 1
  {
    if s != [] {
      var front, last := s[..|s| - 1], s[|s| - 1];
      assert s == front + [last];
      forall i, j | 0 <= i < j < |front| ensures KeysDiffer(front, key, i, j) {
        assert KeysDiffer(s, key, i, j);
      }
      OnceInMultiset(front, key, x);
      forall i | 0 <= i < |front| ensures front[i] != last {
        assert KeysDiffer(s, key, i, |front|);
      }
    }
  }
}
