/**
  Sequence operations the view components borrow from JavaScript and lodash:
  `Array.prototype.sort` with a comparison, lodash `reverse`, and the
  de-duplication that turns a list of keys into the keys of an object.
*/
module Sequences {

  /** `lt` is a strict total order on T. */
  ghost predicate StrictTotalOrder<T(!new)>(lt: (T, T) -> bool) {
    && (forall x :: !lt(x, x))
    && (forall x, y, z :: lt(x, y) && lt(y, z) ==> lt(x, z))
    && (forall x, y :: x != y ==> lt(x, y) || lt(y, x))
  }

  ghost predicate Ascending<T>(s: seq<T>, lt: (T, T) -> bool) {
    forall i, j :: 0 <= i < j < |s| ==> lt(s[i], s[j])
  }

  ghost predicate Descending<T>(s: seq<T>, lt: (T, T) -> bool) {
    forall i, j :: 0 <= i < j < |s| ==> lt(s[j], s[i])
  }

  predicate Distinct<T(==)>(s: seq<T>) {
    forall i, j :: 0 <= i < j < |s| ==> s[i] != s[j]
  }

  /** Inserts x in front of the first element that is not below it. */
  function Insert<T>(x: T, s: seq<T>, lt: (T, T) -> bool): (r: seq<T>)
    ensures multiset(r) == multiset(s) + multiset{x}
  {
    if s == [] then [x]
    else if lt(s[0], x) then
      assert s == [s[0]] + s[1..];
      [s[0]] + Insert(x, s[1..], lt)
    else [x] + s
  }

  /** Sorting: the result is a permutation of the input. */
  function Sort<T>(s: seq<T>, lt: (T, T) -> bool): (r: seq<T>)
    ensures multiset(r) == multiset(s)
  {
    if s == [] then []
    else
      assert s == [s[0]] + s[1..];
      Insert(s[0], Sort(s[1..], lt), lt)
  }

  function Reverse<T>(s: seq<T>): (r: seq<T>)
    ensures |r| == |s|
    ensures forall i :: 0 <= i < |s| ==> r[i] == s[|s| - 1 - i]
    ensures multiset(r) == multiset(s)
  {
    if s == [] then []
    else
      assert s == [s[0]] + s[1..];
      Reverse(s[1..]) + [s[0]]
  }

  /** Keeps the first occurrence of every element, in order. */
  function Dedup<T(==,!new)>(s: seq<T>): (r: seq<T>)
    ensures Distinct(r)
    ensures forall x :: x in r <==> x in s
  {
    if s == [] then []
    else
      var d := Dedup(s[..|s| - 1]);
      assert forall x :: x in s <==> x in s[..|s| - 1] || x == s[|s| - 1];
      if s[|s| - 1] in d then d else d + [s[|s| - 1]]
  }

  lemma {:induction false} InsertAscending<T(!new)>(x: T, s: seq<T>, lt: (T, T) -> bool)
    requires StrictTotalOrder(lt)
    requires Ascending(s, lt) && x !in s
    ensures Ascending(Insert(x, s, lt), lt)
  {
    if s != [] && lt(s[0], x) {
      InsertAscending(x, s[1..], lt);
      var t := Insert(x, s[1..], lt);
      forall k | 0 <= k < |t| ensures lt(s[0], t[k]) {
        assert t[k] in multiset(t);
        assert t[k] == x || t[k] in s[1..];
      }
    }
  }

  /** Sorting distinct elements with a strict total order yields a strictly ascending list. */
  lemma {:induction false} SortAscending<T(!new)>(s: seq<T>, lt: (T, T) -> bool)
    requires StrictTotalOrder(lt) && Distinct(s)
    ensures Ascending(Sort(s, lt), lt)
  {
    if s != [] {
      SortAscending(s[1..], lt);
      var t := Sort(s[1..], lt);
      assert s[0] !in s[1..];
      assert s[0] !in multiset(t);
      InsertAscending(s[0], t, lt);
    }
  }

  lemma ReverseAscending<T>(s: seq<T>, lt: (T, T) -> bool)
    requires Ascending(s, lt)
    ensures Descending(Reverse(s), lt)
  {
  }

  lemma DescendingDistinct<T(!new)>(s: seq<T>, lt: (T, T) -> bool)
    requires StrictTotalOrder(lt) && Descending(s, lt)
    ensures Distinct(s)
  {
  }

  /** Every element of a descending list is its head or below it. */
  lemma HeadIsGreatest<T>(a: seq<T>, x: T, lt: (T, T) -> bool)
    requires Descending(a, lt) && x in a
    ensures x == a[0] || lt(x, a[0])
  {
    var i :| 0 <= i < |a| && a[i] == x;
  }

  lemma BothEmptyOrNot<T>(a: seq<T>, b: seq<T>)
    requires forall x :: x in a <==> x in b
    ensures a == [] <==> b == []
  {
    if a != [] { assert a[0] in b; }
    if b != [] { assert b[0] in a; }
  }

  /** A strictly descending list is determined by the set of its elements. */
  lemma {:induction false} DescendingUnique<T(!new)>(a: seq<T>, b: seq<T>, lt: (T, T) -> bool)
    requires StrictTotalOrder(lt)
    requires Descending(a, lt) && Descending(b, lt)
    requires forall x :: x in a <==> x in b
    ensures a == b
  {
    BothEmptyOrNot(a, b);
    if a != [] {
      HeadIsGreatest(a, b[0], lt);
      HeadIsGreatest(b, a[0], lt);
      assert a[0] == b[0];
      forall x ensures x in a[1..] <==> x in b[1..] {
        if x in a[1..] {
          var i :| 1 <= i < |a| && a[i] == x;
          assert x in b && x != b[0];
        }
        if x in b[1..] {
          var i :| 1 <= i < |b| && b[i] == x;
          assert x in a && x != a[0];
        }
      }
      DescendingUnique(a[1..], b[1..], lt);
      assert a == [a[0]] + a[1..] && b == [b[0]] + b[1..];
    }
  }

  /**
    Descending order under `lt` of distinct elements: the reverse of their
    ascending sort, and the only descending list of those elements.
  */
  function SortDescending<T(==,!new)>(s: seq<T>, lt: (T, T) -> bool): (r: seq<T>)
  {
    Reverse(Sort(Dedup(s), lt))
  }

  lemma SortDescendingSpec<T(!new)>(s: seq<T>, lt: (T, T) -> bool)
    requires StrictTotalOrder(lt)
    ensures Descending(SortDescending(s, lt), lt)
    ensures Distinct(SortDescending(s, lt))
    ensures forall x :: x in SortDescending(s, lt) <==> x in s
  {
    var d := Dedup(s);
    SortAscending(d, lt);
    var t := Sort(d, lt);
    ReverseAscending(t, lt);
    var r := Reverse(t);
    DescendingDistinct(r, lt);
    forall x ensures x in r <==> x in s {
      assert x in r <==> x in multiset(r);
      assert x in t <==> x in multiset(t);
      assert x in d <==> x in multiset(d);
    }
  }

}
