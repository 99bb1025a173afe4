/** slice::sort_by as its contract says: a stable sort by a total preorder. */
module StableSort {

  function Insert<T>(leq: (T, T) -> bool, x: T, xs: seq<T>): seq<T> {
    if xs == [] || leq(x, xs[0]) then [x] + xs else [xs[0]] + Insert(leq, x, xs[1..])
  }

  function Sort<T>(leq: (T, T) -> bool, xs: seq<T>): seq<T> {
    if xs == [] then [] else Insert(leq, xs[0], Sort(leq, xs[1..]))
  }

  ghost predicate Preorder<T(!new)>(leq: (T, T) -> bool) {
    && (forall a, b :: leq(a, b) || leq(b, a))
    && (forall a, b, c :: leq(a, b) && leq(b, c) ==> leq(a, c))
  }

  ghost predicate Ordered<T>(leq: (T, T) -> bool, xs: seq<T>) {
    forall i, j :: 0 <= i < j < |xs| ==> leq(xs[i], xs[j])
  }

  lemma {:induction false} InsertOrders<T(!new)>(leq: (T, T) -> bool, x: T, xs: seq<T>)
    requires Preorder(leq) && Ordered(leq, xs)
    ensures Ordered(leq, Insert(leq, x, xs))
    ensures multiset(Insert(leq, x, xs)) == multiset(xs) + multiset{x}
  {
    if xs == [] {
    } else if leq(x, xs[0]) {
      PrependOrdered(leq, x, xs);
    } else {
      var rest := Insert(leq, x, xs[1..]);
      InsertOrders(leq, x, xs[1..]);
      assert xs == [xs[0]] + xs[1..];
      forall y | y in rest
        ensures leq(xs[0], y)
      {
        assert y in multiset(rest);
        assert y == x || y in xs[1..];
      }
      hide Insert;
      BelowAll(leq, xs[0], rest);
    }
  }

  lemma PrependOrdered<T(!new)>(leq: (T, T) -> bool, x: T, xs: seq<T>)
    requires Preorder(leq) && Ordered(leq, xs) && xs != [] && leq(x, xs[0])
    ensures Ordered(leq, [x] + xs)
  {
    forall y | y in xs
      ensures leq(x, y)
    {
      var i :| 0 <= i < |xs| && xs[i] == y;
      assert i == 0 || leq(xs[0], xs[i]);
    }
    BelowAll(leq, x, xs);
  }

  lemma BelowAll<T>(leq: (T, T) -> bool, x: T, xs: seq<T>)
    requires Ordered(leq, xs) && forall y :: y in xs ==> leq(x, y)
    ensures Ordered(leq, [x] + xs)
  {
    var r := [x] + xs;
    forall i, j | 0 <= i < j < |r|
      ensures leq(r[i], r[j])
    {
      assert r[j] == xs[j - 1] && xs[j - 1] in xs;
      if i > 0 {
        assert r[i] == xs[i - 1];
      }
    }
  }

  /** Sorting permutes and orders. */
  lemma {:induction false} SortOrders<T(!new)>(leq: (T, T) -> bool, xs: seq<T>)
    requires Preorder(leq)
    ensures Ordered(leq, Sort(leq, xs)) && multiset(Sort(leq, xs)) == multiset(xs)
  {
    if xs != [] {
      SortOrders(leq, xs[1..]);
      InsertOrders(leq, xs[0], Sort(leq, xs[1..]));
      assert xs == [xs[0]] + xs[1..];
    }
  }

  lemma SortMembers<T(!new)>(leq: (T, T) -> bool, xs: seq<T>, x: T)
    requires Preorder(leq)
    ensures x in Sort(leq, xs) <==> x in xs
    ensures |Sort(leq, xs)| == |xs|
  {
    SortOrders(leq, xs);
    assert x in Sort(leq, xs) <==> x in multiset(Sort(leq, xs));
    assert x in xs <==> x in multiset(xs);
    assert |multiset(xs)| == |xs| && |multiset(Sort(leq, xs))| == |Sort(leq, xs)|;
  }

  function Filter<T>(p: T -> bool, xs: seq<T>): seq<T> {
    if xs == [] then [] else (if p(xs[0]) then [xs[0]] else []) + Filter(p, xs[1..])
  }

  lemma {:induction false} InsertStable<T>(leq: (T, T) -> bool, p: T -> bool, x: T, xs: seq<T>)
    requires forall i :: 0 <= i < |xs| && p(x) && p(xs[i]) ==> leq(x, xs[i])
    ensures Filter(p, Insert(leq, x, xs)) == (if p(x) then [x] else []) + Filter(p, xs)
  {
    var r := Insert(leq, x, xs);
    if xs == [] || leq(x, xs[0]) {
      assert r[1..] == xs;
    } else {
      InsertStable(leq, p, x, xs[1..]);
      assert r[1..] == Insert(leq, x, xs[1..]);
    }
  }

  /** Stability: elements that a class cannot tell apart keep their order. */
  lemma {:induction false} SortStable<T(!new)>(leq: (T, T) -> bool, p: T -> bool, xs: seq<T>)
    requires Preorder(leq) && forall a, b :: p(a) && p(b) ==> leq(a, b)
    ensures Filter(p, Sort(leq, xs)) == Filter(p, xs)
  {
    if xs != [] {
      SortStable(leq, p, xs[1..]);
      InsertStable(leq, p, xs[0], Sort(leq, xs[1..]));
    }
  }
}
