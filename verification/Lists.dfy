/** Lists built item by item, and what is in them. */
module Lists {
  import opened Sorting

  function FlatMap<T, U>(xs: seq<T>, f: T -> seq<U>): seq<U> {
    if xs == [] then [] else FlatMap(xs[..|xs| - 1], f) + f(xs[|xs| - 1])
  }

  lemma FlatMapNext<T, U>(xs: seq<T>, i: nat, f: T -> seq<U>)
    requires i < |xs|
    ensures FlatMap(xs[..i + 1], f) == FlatMap(xs[..i], f) + f(xs[i])
  {
    assert xs[..i + 1][..i] == xs[..i];
  }

  lemma {:induction false} FlatMapSource<T, U>(xs: seq<T>, f: T -> seq<U>, y: U) returns (x: T)
    requires y in FlatMap(xs, f)
    ensures x in xs && y in f(x)
  {
    if y in f(xs[|xs| - 1]) {
      x := xs[|xs| - 1];
    } else {
      x := FlatMapSource(xs[..|xs| - 1], f, y);
    }
  }

  function Map<T, U>(xs: seq<T>, f: T -> U): (ys: seq<U>)
    ensures |ys| == |xs| && forall i :: 0 <= i < |xs| ==> ys[i] == f(xs[i])
  {
    seq(|xs|, i requires 0 <= i < |xs| => f(xs[i]))
  }

  lemma MapAppend<T, U>(xs: seq<T>, ys: seq<T>, f: T -> U)
    ensures Map(xs + ys, f) == Map(xs, f) + Map(ys, f)
  {
  }

  lemma WithoutOne<T, U>(ys: seq<T>, k: nat, f: T -> U) returns (rest: seq<T>)
    requires k < |ys|
    ensures multiset(rest) == multiset(ys) - multiset{ys[k]} && |rest| == |ys| - 1
    ensures multiset(Map(ys, f)) == multiset(Map(rest, f)) + multiset{f(ys[k])}
  {
    var a, c := ys[..k], ys[k + 1..];
    rest := a + c;
    assert ys == a + [ys[k]] + c;
    assert Map(ys, f) == Map(a, f) + [f(ys[k])] + Map(c, f);
    MapAppend(a, c, f);
  }

  /** The image of a list as a multiset depends only on the list as a multiset. */
  lemma {:induction false} MapMultiset<T, U>(xs: seq<T>, ys: seq<T>, f: T -> U)
    requires multiset(xs) == multiset(ys)
    ensures multiset(Map(xs, f)) == multiset(Map(ys, f))
    decreases |xs|
  {
    assert |xs| == |multiset(xs)| == |multiset(ys)| == |ys|;
    if xs != [] {
      assert xs[0] in multiset(ys);
      var k :| 0 <= k < |ys| && ys[k] == xs[0];
      var xs' := WithoutOne(xs, 0, f);
      var ys' := WithoutOne(ys, k, f);
      MapMultiset(xs', ys', f);
    }
  }

  lemma {:induction false} FilterAppend<T(!new)>(xs: seq<T>, ys: seq<T>, p: T -> bool)
    ensures Filter(xs + ys, p) == Filter(xs, p) + Filter(ys, p)
  {
    if xs == [] {
      assert xs + ys == ys;
    } else {
      assert (xs + ys)[1..] == xs[1..] + ys;
      FilterAppend(xs[1..], ys, p);
    }
  }

  lemma {:induction false} FilterCount<T(!new)>(xs: seq<T>, p: T -> bool, x: T)
    ensures multiset(Filter(xs, p))[x] == if p(x) then multiset(xs)[x] else 0
  {
    if xs != [] {
      assert xs == [xs[0]] + xs[1..];
      FilterCount(xs[1..], p, x);
    }
  }

  lemma FilterMultiset<T(!new)>(xs: seq<T>, ys: seq<T>, p: T -> bool)
    requires multiset(xs) == multiset(ys)
    ensures multiset(Filter(xs, p)) == multiset(Filter(ys, p))
  {
    forall x: T ensures multiset(Filter(xs, p))[x] == multiset(Filter(ys, p))[x] {
      FilterCount(xs, p, x);
      FilterCount(ys, p, x);
    }
  }

  lemma {:induction false} FilterAll<T(!new)>(xs: seq<T>, p: T -> bool)
    ensures (forall x :: x in xs ==> p(x)) ==> Filter(xs, p) == xs
    ensures (forall x :: x in xs ==> !p(x)) ==> Filter(xs, p) == []
  {
    if xs != [] {
      assert xs == [xs[0]] + xs[1..];
      FilterAll(xs[1..], p);
    }
  }

  lemma {:induction false} FilterOrdered<T(!new)>(xs: seq<T>, p: T -> bool, before: (T, T) -> bool)
    requires Ordered(xs, before)
    ensures Ordered(Filter(xs, p), before)
  {
    if xs != [] {
      FilterOrdered(xs[1..], p, before);
      var rest := Filter(xs[1..], p);
      forall j | 0 <= j < |rest| ensures !before(rest[j], xs[0]) {
        assert rest[j] in xs[1..];
      }
    }
  }
}
