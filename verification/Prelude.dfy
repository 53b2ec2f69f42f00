/** Result types and sequence vocabulary shared by every module. */
module Prelude {

  datatype Option<+T> = None | Some(value: T)

  /** The error classes callers of the repository and the services can tell apart. */
  datatype Error = NotFound | Conflict | Unavailable | ShuttingDown | QueueFull

  datatype Outcome<+T> = Success(value: T) | Failure(error: Error)

  function Min(a: int, b: int): int {
    if a <= b then a else b
  }

  function Max(a: int, b: int): int {
    if a >= b then a else b
  }

  ghost predicate NoDuplicates<T>(s: seq<T>) {
    forall i, j :: 0 <= i < j < |s| ==> s[i] != s[j]
  }

  ghost function Elements<T>(s: seq<T>): set<T> {
    set x | x in s
  }

  ghost function Pick<T(!new)>(s: set<T>): (x: T)
    requires |s| > 0
    ensures x in s
  {
    var x :| x in s;
    x
  }

  ghost function KeyFor<K(!new), V>(m: map<K, V>, v: V): (k: K)
    requires v in m.Values
    ensures k in m && m[k] == v
  {
    var k :| k in m && m[k] == v;
    k
  }

  /** The elements of a set in some order: how a map is walked through, with no order promised. */
  method InSomeOrder<T(==, !new)>(s: set<T>) returns (order: seq<T>)
    ensures NoDuplicates(order) && Elements(order) == s && |order| == |s|
  {
    order := [];
    var rest := s;
    while rest != {}
      invariant NoDuplicates(order) && Elements(order) + rest == s && Elements(order) !! rest
      invariant |order| + |rest| == |s|
      decreases |rest|
    {
      var x :| x in rest;
      ElementsSnoc(order, x);
      order := order + [x];
      rest := rest - {x};
    }
  }

  lemma {:induction false} ElementsSnoc<T>(s: seq<T>, x: T)
    ensures Elements(s + [x]) == Elements(s) + {x}
  {
    assert (s + [x])[|s|] == x;
    forall y | y in s ensures y in s + [x] {
      var i :| 0 <= i < |s| && s[i] == y;
      assert (s + [x])[i] == y;
    }
  }

  lemma {:induction false} ElementsNext<T>(s: seq<T>, i: nat)
    requires i < |s|
    ensures Elements(s[..i + 1]) == Elements(s[..i]) + {s[i]}
  {
    assert s[..i + 1] == s[..i] + [s[i]];
    ElementsSnoc(s[..i], s[i]);
  }

  /** Removing one of several distinct elements. */
  lemma {:induction false} RemovedAt<T>(s: seq<T>, i: nat)
    requires NoDuplicates(s) && i < |s|
    ensures NoDuplicates(s[..i] + s[i + 1..]) && Elements(s[..i] + s[i + 1..]) == Elements(s) - {s[i]}
  {
    var r := s[..i] + s[i + 1..];
    assert forall k :: 0 <= k < |r| ==> r[k] == s[if k < i then k else k + 1];
    forall x | x in Elements(s) && x != s[i] ensures x in r {
      var k :| 0 <= k < |s| && s[k] == x;
      assert r[if k < i then k else k - 1] == x;
    }
  }

  lemma {:induction false} ElementsWhole<T>(s: seq<T>)
    ensures Elements<T>(s[..0]) == {} && Elements(s[..|s|]) == Elements(s)
  {
    assert s[..|s|] == s;
  }

  /** The page of a list that starts at `offset`; a limit of zero or less means everything that is left. */
  function Page<T>(items: seq<T>, offset: int, limit: int): seq<T> {
    var from := if offset < 0 then 0 else offset;
    if from >= |items| then []
    else if limit <= 0 || from + limit > |items| then items[from..]
    else items[from..from + limit]
  }

  /** A page and everything after it make up everything from its offset on; a limit of zero is all of that, and from
      offset zero on it is the whole list. Every page but the last is full. */
  lemma {:induction false} PagesMakeUpTheList<T>(items: seq<T>, offset: nat, limit: nat)
    ensures Page(items, offset, limit) + (if limit == 0 then [] else Page(items, offset + limit, 0)) ==
            Page(items, offset, 0)
    ensures Page(items, 0, 0) == items && |Page(items, offset, 0)| == Max(0, |items| - offset)
    ensures limit > 0 ==> |Page(items, offset, limit)| == Min(limit, Max(0, |items| - offset))
  {
    if limit > 0 && offset + limit <= |items| {
      assert items[offset..] == items[offset..offset + limit] + items[offset + limit..];
    }
  }

  /** The present elements, in order. */
  function Somes<T>(items: seq<Option<T>>): seq<T> {
    if items == [] then []
    else Somes(items[..|items| - 1]) + if items[|items| - 1].Some? then [items[|items| - 1].value] else []
  }

  lemma {:induction false} AllSome<T>(items: seq<Option<T>>, values: seq<T>)
    requires |items| == |values| && forall i :: 0 <= i < |items| ==> items[i] == Some(values[i])
    ensures Somes(items) == values
  {
    if items != [] {
      AllSome(items[..|items| - 1], values[..|items| - 1]);
    }
  }

  function Concat<T>(ss: seq<seq<T>>): seq<T> {
    if ss == [] then [] else ss[0] + Concat(ss[1..])
  }

  lemma {:induction false} ConcatAppend<T>(a: seq<seq<T>>, b: seq<seq<T>>)
    ensures Concat(a + b) == Concat(a) + Concat(b)
  {
    if a == [] {
      assert a + b == b;
    } else {
      assert (a + b)[0] == a[0] && (a + b)[1..] == a[1..] + b;
      ConcatAppend(a[1..], b);
    }
  }

  lemma {:induction false} ConcatSnoc<T>(a: seq<seq<T>>, s: seq<T>)
    ensures Concat(a + [s]) == Concat(a) + s
  {
    ConcatAppend(a, [s]);
    assert Concat([s]) == s + [];
  }
}
