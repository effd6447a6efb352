/** Stable sorting, as `slice::sort_by` promises it. */
module Sorting {

  /** `before` is a comparator: "not before" is a total preorder. */
  ghost predicate Comparator<T(!new)>(before: (T, T) -> bool) {
    && (forall a, b :: before(a, b) ==> !before(b, a))
    && (forall a, b, c :: !before(b, a) && !before(c, b) ==> !before(c, a))
  }

  function Insert<T>(x: T, xs: seq<T>, before: (T, T) -> bool): seq<T> {
    if xs == [] || !before(xs[0], x) then [x] + xs else [xs[0]] + Insert(x, xs[1..], before)
  }

  function SortBy<T>(xs: seq<T>, before: (T, T) -> bool): seq<T> {
    if xs == [] then [] else Insert(xs[0], SortBy(xs[1..], before), before)
  }

  ghost predicate Ordered<T>(xs: seq<T>, before: (T, T) -> bool) {
    forall i, j :: 0 <= i < j < |xs| ==> !before(xs[j], xs[i])
  }

  function Filter<T(!new)>(xs: seq<T>, p: T -> bool): (ys: seq<T>)
    ensures forall y :: y in ys <==> y in xs && p(y)
  {
    if xs == [] then [] else (if p(xs[0]) then [xs[0]] else []) + Filter(xs[1..], p)
  }

  lemma {:induction false} InsertMultiset<T>(x: T, xs: seq<T>, before: (T, T) -> bool)
    ensures multiset(Insert(x, xs, before)) == multiset{x} + multiset(xs)
  {
    if xs != [] {
      assert xs == [xs[0]] + xs[1..];
      InsertMultiset(x, xs[1..], before);
    }
  }

  lemma {:induction false} SortMultiset<T>(xs: seq<T>, before: (T, T) -> bool)
    ensures multiset(SortBy(xs, before)) == multiset(xs)
  {
    if xs != [] {
      assert xs == [xs[0]] + xs[1..];
      SortMultiset(xs[1..], before);
      InsertMultiset(xs[0], SortBy(xs[1..], before), before);
    }
  }

  lemma SortKeeps<T(!new)>(xs: seq<T>, before: (T, T) -> bool)
    ensures |SortBy(xs, before)| == |xs|
    ensures forall x :: x in SortBy(xs, before) <==> x in xs
  {
    SortMultiset(xs, before);
    assert |multiset(SortBy(xs, before))| == |multiset(xs)|;
    forall x ensures x in SortBy(xs, before) <==> x in xs {
      assert x in multiset(xs) <==> x in multiset(SortBy(xs, before));
    }
  }

  lemma {:induction false} InsertOrdered<T(!new)>(x: T, xs: seq<T>, before: (T, T) -> bool)
    requires Comparator(before) && Ordered(xs, before)
    ensures Ordered(Insert(x, xs, before), before)
  {
    if xs != [] {
      if before(xs[0], x) {
        InsertOrdered(x, xs[1..], before);
        InsertMultiset(x, xs[1..], before);
        var r := Insert(x, xs[1..], before);
        forall j | 0 <= j < |r| ensures !before(r[j], xs[0]) {
          assert r[j] in multiset(r);
          assert r[j] == x || r[j] in xs[1..];
        }
      } else {
        forall j | 0 <= j < |xs| ensures !before(xs[j], x) {
          assert !before(xs[j], xs[0]);
        }
      }
    }
  }

  lemma {:induction false} SortOrdered<T(!new)>(xs: seq<T>, before: (T, T) -> bool)
    requires Comparator(before)
    ensures Ordered(SortBy(xs, before), before)
  {
    if xs != [] {
      SortOrdered(xs[1..], before);
      InsertOrdered(xs[0], SortBy(xs[1..], before), before);
    }
  }

  /** The head of a stable sort is the first of the elements that nothing precedes. */
  lemma {:induction false} SortHead<T(!new)>(xs: seq<T>, before: (T, T) -> bool) returns (i: nat)
    requires Comparator(before) && xs != []
    ensures SortBy(xs, before) != [] && i < |xs| && SortBy(xs, before)[0] == xs[i]
    ensures forall j :: 0 <= j < |xs| ==> !before(xs[j], xs[i])
    ensures forall j :: 0 <= j < i ==> before(xs[i], xs[j])
  {
    if |xs| == 1 {
      i := 0;
      assert SortBy(xs[1..], before) == [];
    } else {
      var k := SortHead(xs[1..], before);
      if before(xs[k + 1], xs[0]) {
        i := k + 1;
        forall j | 0 <= j < |xs| ensures !before(xs[j], xs[i]) {
          assert j == 0 || xs[j] == xs[1..][j - 1];
        }
        forall j | 0 <= j < i ensures before(xs[i], xs[j]) {
          assert j == 0 || xs[j] == xs[1..][j - 1];
        }
      } else {
        i := 0;
        forall j | 0 <= j < |xs| ensures !before(xs[j], xs[0]) {
          assert j == 0 || !before(xs[1..][j - 1], xs[k + 1]);
        }
      }
    }
  }

  lemma HeadIsFirst<T(!new)>(xs: seq<T>, y: T, before: (T, T) -> bool)
    requires Ordered(xs, before) && y in xs
    ensures !before(y, xs[0]) || y == xs[0]
  {
  }

  lemma DropHead<T>(xs: seq<T>)
    requires xs != []
    ensures multiset(xs[1..]) == multiset(xs) - multiset{xs[0]}
  {
    assert xs == [xs[0]] + xs[1..];
  }

  /** Two ordered sequences with the same elements are equal when the comparator separates distinct elements. */
  lemma {:induction false} OrderedUnique<T(!new)>(xs: seq<T>, ys: seq<T>, before: (T, T) -> bool)
    requires forall a, b :: a != b ==> before(a, b) || before(b, a)
    requires Ordered(xs, before) && Ordered(ys, before) && multiset(xs) == multiset(ys)
    ensures xs == ys
  {
    assert |xs| == |multiset(xs)| == |multiset(ys)| == |ys|;
    if xs != [] {
      var x, y := xs[0], ys[0];
      assert x in multiset(xs) && y in multiset(ys);
      HeadIsFirst(xs, y, before);
      HeadIsFirst(ys, x, before);
      DropHead(xs);
      DropHead(ys);
      OrderedUnique(xs[1..], ys[1..], before);
      assert xs == [x] + xs[1..] && ys == [y] + ys[1..];
    }
  }
}
