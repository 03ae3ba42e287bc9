/**
 Filtering sequences, and sequences without repetition.
 */
module Sequences {
  predicate Distinct<T(==)>(items: seq<T>) {
    forall i, j :: 0 <= i < j < |items| ==> items[i] != items[j]
  }

  function Filter<T>(items: seq<T>, keep: T -> bool): (kept: seq<T>)
    ensures |kept| <= |items|
  {
    if items == [] then []
    else
      var last := items[|items| - 1];
      Filter(items[..|items| - 1], keep) + if keep(last) then [last] else []
  }

  lemma {:induction false} FilterMembers<T(!new)>(items: seq<T>, keep: T -> bool)
    ensures forall x :: x in Filter(items, keep) <==> x in items && keep(x)
  {
    if items != [] {
      FilterMembers(items[..|items| - 1], keep);
      assert items == items[..|items| - 1] + [items[|items| - 1]];
    }
  }

  lemma {:induction false} FilterDistinct<T(!new)>(items: seq<T>, keep: T -> bool)
    requires Distinct(items)
    ensures Distinct(Filter(items, keep))
  {
    if items != [] {
      var rest := items[..|items| - 1];
      FilterDistinct(rest, keep);
      FilterMembers(rest, keep);
      assert forall i :: 0 <= i < |rest| ==> rest[i] != items[|items| - 1];
    }
  }

  lemma DistinctAppend<T>(left: seq<T>, right: seq<T>)
    requires Distinct(left) && Distinct(right) && forall x :: x in left ==> x !in right
    ensures Distinct(left + right)
  {
    forall i, j | 0 <= i < j < |left + right|
      ensures (left + right)[i] != (left + right)[j]
    {
      if i < |left| <= j {
        assert left[i] in left && right[j - |left|] in right;
      }
    }
  }

  /** No two positions have the same key. */
  ghost predicate DistinctBy<T(!new), K>(items: seq<T>, key: T -> K) {
    forall i, j :: 0 <= i < j < |items| ==> key(items[i]) != key(items[j])
  }

  lemma {:induction false} FilterDistinctBy<T(!new), K>(items: seq<T>, keep: T -> bool, key: T -> K)
    requires DistinctBy(items, key)
    ensures DistinctBy(Filter(items, keep), key)
  {
    if items != [] {
      var rest := items[..|items| - 1];
      FilterDistinctBy(rest, keep, key);
      FilterMembers(rest, keep);
      forall x | x in Filter(rest, keep)
        ensures key(x) != key(items[|items| - 1])
      {
        var i :| 0 <= i < |rest| && rest[i] == x;
      }
    }
  }

  /** Two positions with the same element count twice. */
  lemma Twice<T>(items: seq<T>, i: nat, j: nat)
    requires i < j < |items| && items[i] == items[j]
    ensures multiset(items)[items[i]] >= 2
  {
    assert items == items[..j] + [items[j]] + items[j + 1..];
    assert items[..j][i] == items[i];
    assert items[i] in multiset(items[..j]);
  }

  /** With distinct keys no element counts twice. */
  lemma {:induction false} Once<T(!new), K>(items: seq<T>, item: T, key: T -> K)
    requires DistinctBy(items, key)
    ensures multiset(items)[item] <= 1
  {
    if items != [] {
      var rest, last := items[..|items| - 1], items[|items| - 1];
      Once(rest, item, key);
      assert items == rest + [last];
      if last == item {
        assert forall i :: 0 <= i < |rest| ==> key(items[i]) != key(items[|rest|]);
        assert item !in rest;
      }
    }
  }

  lemma {:induction false} SubsetSize<T>(small: set<T>, large: set<T>)
    requires small <= large
    ensures |small| <= |large|
  {
    if small != {} {
      var x :| x in small;
      SubsetSize(small - {x}, large - {x});
    }
  }
}
