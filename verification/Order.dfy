/**
 Byte-wise text order and sorting by a text key, as Go's slices.SortFunc with strings.Compare.
 */
module Order {

  predicate Le(left: string, right: string) {
    left == [] || (right != [] && (left[0] < right[0] || (left[0] == right[0] && Le(left[1..], right[1..]))))
  }

  lemma {:induction false} LeTotal(left: string, right: string)
    ensures Le(left, right) || Le(right, left)
  {
    if left != [] && right != [] && left[0] == right[0] {
      LeTotal(left[1..], right[1..]);
    }
  }

  lemma {:induction false} LeTransitive(left: string, middle: string, right: string)
    requires Le(left, middle) && Le(middle, right)
    ensures Le(left, right)
  {
    if left != [] && left[0] == middle[0] && middle[0] == right[0] {
      LeTransitive(left[1..], middle[1..], right[1..]);
    }
  }

  lemma {:induction false} LeAntisymmetric(left: string, right: string)
    requires Le(left, right) && Le(right, left)
    ensures left == right
  {
    if left != [] {
      LeAntisymmetric(left[1..], right[1..]);
      assert left == [left[0]] + left[1..];
      assert right == [right[0]] + right[1..];
    }
  }

  ghost predicate SortedBy<T(!new)>(items: seq<T>, key: T -> string) {
    forall i, j :: 0 <= i < j < |items| ==> Le(key(items[i]), key(items[j]))
  }

  function Insert<T>(item: T, items: seq<T>, key: T -> string): seq<T> {
    if items == [] || Le(key(item), key(items[0])) then [item] + items
    else [items[0]] + Insert(item, items[1..], key)
  }

  /** Insertion sort: equal keys keep their order. */
  function Sort<T>(items: seq<T>, key: T -> string): seq<T> {
    if items == [] then [] else Insert(items[0], Sort(items[1..], key), key)
  }

  lemma {:induction false} InsertKeepsItems<T>(item: T, items: seq<T>, key: T -> string)
    ensures multiset(Insert(item, items, key)) == multiset{item} + multiset(items)
  {
    if items != [] && !Le(key(item), key(items[0])) {
      InsertKeepsItems(item, items[1..], key);
      assert items == [items[0]] + items[1..];
    }
  }

  lemma {:induction false} InsertSorts<T(!new)>(item: T, items: seq<T>, key: T -> string)
    requires SortedBy(items, key)
    ensures SortedBy(Insert(item, items, key), key)
  {
    if items == [] {
    } else if Le(key(item), key(items[0])) {
      forall i | 0 <= i < |items|
        ensures Le(key(item), key(items[i]))
      {
        if i > 0 {
          LeTransitive(key(item), key(items[0]), key(items[i]));
        }
      }
    } else {
      LeTotal(key(item), key(items[0]));
      var rest := Insert(item, items[1..], key);
      InsertSorts(item, items[1..], key);
      InsertKeepsItems(item, items[1..], key);
      forall i | 0 <= i < |rest|
        ensures Le(key(items[0]), key(rest[i]))
      {
        assert rest[i] in multiset(rest);
        if rest[i] != item {
          assert rest[i] in items[1..];
          var j :| 0 <= j < |items[1..]| && items[1..][j] == rest[i];
          assert items[j + 1] == rest[i];
        }
      }
    }
  }

  lemma {:induction false} SortCorrect<T(!new)>(items: seq<T>, key: T -> string)
    ensures SortedBy(Sort(items, key), key)
    ensures multiset(Sort(items, key)) == multiset(items)
  {
    if items != [] {
      SortCorrect(items[1..], key);
      InsertSorts(items[0], Sort(items[1..], key), key);
      InsertKeepsItems(items[0], Sort(items[1..], key), key);
      assert items == [items[0]] + items[1..];
    }
  }

  lemma SortMembers<T(!new)>(items: seq<T>, key: T -> string)
    ensures |Sort(items, key)| == |items|
    ensures forall x :: x in Sort(items, key) <==> x in items
  {
    SortCorrect(items, key);
    assert |multiset(Sort(items, key))| == |multiset(items)|;
    forall x
      ensures x in Sort(items, key) <==> x in items
    {
      assert x in Sort(items, key) <==> x in multiset(Sort(items, key));
      assert x in items <==> x in multiset(items);
    }
  }

  /** In a sorted sequence, equal keys are neighbours. */
  lemma DistinctNeighbours<T(!new)>(items: seq<T>, key: T -> string)
    requires SortedBy(items, key)
    requires forall i :: 0 < i < |items| ==> key(items[i - 1]) != key(items[i])
    ensures forall i, j :: 0 <= i < j < |items| ==> key(items[i]) != key(items[j])
  {
    forall i, j | 0 <= i < j < |items|
      ensures key(items[i]) != key(items[j])
    {
      if key(items[i]) == key(items[j]) && i + 1 < j {
        LeAntisymmetric(key(items[i]), key(items[i + 1]));
      }
    }
  }

  /** Sorted without repetition. */
  ghost predicate StrictlySortedBy<T(!new)>(items: seq<T>, key: T -> string) {
    SortedBy(items, key) && forall i, j :: 0 <= i < j < |items| ==> key(items[i]) != key(items[j])
  }

  lemma HasMember<T>(items: seq<T>)
    ensures items == [] || exists x :: x in items
  {
    if items != [] {
      assert items[0] in items;
    }
  }

  /** A strictly sorted sequence is determined by its members. */
  lemma {:induction false} SameStrictlySorted<T(!new)>(left: seq<T>, right: seq<T>, key: T -> string)
    requires StrictlySortedBy(left, key) && StrictlySortedBy(right, key)
    requires forall x :: x in left <==> x in right
    ensures left == right
  {
    HasMember(right);
    if left != [] {
      assert left[0] in left;
      SameFirst(left, right, key);
      SameRest(left, right, key);
      SameStrictlySorted(left[1..], right[1..], key);
      assert left == [left[0]] + left[1..] && right == [right[0]] + right[1..];
    }
  }

  lemma SameFirst<T(!new)>(left: seq<T>, right: seq<T>, key: T -> string)
    requires StrictlySortedBy(left, key) && StrictlySortedBy(right, key) && left != [] && right != []
    requires forall x :: x in left <==> x in right
    ensures left[0] == right[0]
  {
    assert left[0] in left && right[0] in right;
    var i :| 0 <= i < |right| && right[i] == left[0];
    var j :| 0 <= j < |left| && left[j] == right[0];
    if i > 0 && j > 0 {
      LeAntisymmetric(key(left[0]), key(right[0]));
    }
  }

  lemma SameRest<T(!new)>(left: seq<T>, right: seq<T>, key: T -> string)
    requires StrictlySortedBy(left, key) && StrictlySortedBy(right, key) && left != [] && right != []
    requires left[0] == right[0] && forall x :: x in left <==> x in right
    ensures forall x :: x in left[1..] <==> x in right[1..]
  {
    forall x
      ensures x in left[1..] <==> x in right[1..]
    {
      assert x in left[1..] ==> x in left && key(x) != key(left[0]);
      assert x in right[1..] ==> x in right && key(x) != key(right[0]);
      assert x in left && x != left[0] ==> x in left[1..];
      assert x in right && x != right[0] ==> x in right[1..];
    }
  }
}
