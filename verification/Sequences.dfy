/** Sequences without repetitions, and taking an element out of one. */
module Sequences {
  ghost predicate NoDuplicates<T>(items: seq<T>) {
    forall i, j :: 0 <= i < j < |items| ==> items[i] != items[j]
  }

  function Without<T(==)>(items: seq<T>, elem: T): seq<T> {
    if items == [] then []
    else Without(items[..|items| - 1], elem) + if items[|items| - 1] == elem then [] else [items[|items| - 1]]
  }

  lemma {:induction false} WithoutSnoc<T>(items: seq<T>, last: T, elem: T)
    ensures Without(items + [last], elem) == Without(items, elem) + if last == elem then [] else [last]
  {
    assert (items + [last])[..|items|] == items;
  }

  lemma {:induction false} WithoutAbsent<T>(items: seq<T>, elem: T)
    requires elem !in items
    ensures Without(items, elem) == items
  {
    if items != [] {
      WithoutAbsent(items[..|items| - 1], elem);
    }
  }

  lemma {:induction false} WithoutAt<T>(items: seq<T>, elem: T, i: nat)
    requires i < |items| && items[i] == elem && NoDuplicates(items)
    ensures Without(items, elem) == items[..i] + items[i + 1..]
    decreases |items|
  {
    var n := |items| - 1;
    if i == n {
      WithoutAbsent(items[..n], elem);
      assert items[..n] + [] == items[..n];
    } else {
      WithoutAt(items[..n], elem, i);
      assert items[..n][..i] + items[..n][i + 1..] + [items[n]] == items[..i] + items[i + 1..];
    }
  }

  lemma {:induction false} WithoutMembers<T>(items: seq<T>, elem: T)
    ensures forall x :: x in Without(items, elem) ==> x in items && x != elem
    ensures forall x :: x in items && x != elem ==> x in Without(items, elem)
  {
    if items != [] {
      WithoutMembers(items[..|items| - 1], elem);
    }
  }

  /** What is left keeps its members and its order free of repetitions. */
  lemma {:induction false} WithoutKeeps<T>(items: seq<T>, elem: T)
    requires NoDuplicates(items)
    ensures forall x :: x in Without(items, elem) ==> x in items && x != elem
    ensures forall x :: x in items && x != elem ==> x in Without(items, elem)
    ensures NoDuplicates(Without(items, elem))
  {
    if items != [] {
      var rest, last := items[..|items| - 1], items[|items| - 1];
      WithoutKeeps(rest, elem);
      assert last !in rest;
    }
  }
}
