/** Insertion sort by a total order, and the order on strings that the models sort by. */
module Sorting {

  ghost predicate TotalOrder<T(!new)>(leq: (T, T) -> bool) {
    && (forall x, y :: leq(x, y) || leq(y, x))
    && (forall x, y, z :: leq(x, y) && leq(y, z) ==> leq(x, z))
  }

  predicate Sorted<T>(xs: seq<T>, leq: (T, T) -> bool) {
    forall i, j | 0 <= i < j < |xs| :: leq(xs[i], xs[j])
  }

  function Insert<T>(x: T, xs: seq<T>, leq: (T, T) -> bool): seq<T> {
    if |xs| == 0 || leq(x, xs[0]) then [x] + xs else [xs[0]] + Insert(x, xs[1..], leq)
  }

  function Sort<T>(xs: seq<T>, leq: (T, T) -> bool): seq<T> {
    if |xs| == 0 then [] else Insert(xs[0], Sort(xs[1..], leq), leq)
  }

  lemma {:induction false} InsertHolds<T>(x: T, xs: seq<T>, leq: (T, T) -> bool)
    ensures multiset(Insert(x, xs, leq)) == multiset{x} + multiset(xs)
  {
    if |xs| > 0 && !leq(x, xs[0]) {
      InsertHolds(x, xs[1..], leq);
      assert xs == [xs[0]] + xs[1..];
    }
  }

  lemma {:induction false} InsertKeeps<T(!new)>(x: T, xs: seq<T>, leq: (T, T) -> bool)
    requires TotalOrder(leq) && Sorted(xs, leq)
    ensures Sorted(Insert(x, xs, leq), leq)
  {
    if |xs| > 0 && !leq(x, xs[0]) {
      InsertKeeps(x, xs[1..], leq);
      InsertHolds(x, xs[1..], leq);
      assert xs == [xs[0]] + xs[1..];
      var rest := Insert(x, xs[1..], leq);
      forall i | 0 <= i < |rest|
        ensures leq(xs[0], rest[i])
      {
        assert rest[i] in multiset(rest);
      }
    }
  }

  /** The result is sorted and holds exactly the elements of the input. */
  lemma {:induction false} SortSorts<T(!new)>(xs: seq<T>, leq: (T, T) -> bool)
    requires TotalOrder(leq)
    ensures Sorted(Sort(xs, leq), leq)
    ensures multiset(Sort(xs, leq)) == multiset(xs)
    ensures |Sort(xs, leq)| == |xs|
  {
    if |xs| > 0 {
      SortSorts(xs[1..], leq);
      InsertKeeps(xs[0], Sort(xs[1..], leq), leq);
      InsertHolds(xs[0], Sort(xs[1..], leq), leq);
      assert xs == [xs[0]] + xs[1..];
    }
    assert |multiset(Sort(xs, leq))| == |multiset(xs)|;
  }

  ghost predicate AntisymmetricOn<T(!new)>(xs: seq<T>, leq: (T, T) -> bool) {
    forall x, y :: x in xs && y in xs && leq(x, y) && leq(y, x) ==> x == y
  }

  lemma FirstRemoved<T>(xs: seq<T>)
    requires |xs| > 0
    ensures multiset(xs[1..]) == multiset(xs) - multiset{xs[0]}
  {
    assert xs == [xs[0]] + xs[1..];
  }

  lemma FirstIsLeast<T(!new)>(xs: seq<T>, y: T, leq: (T, T) -> bool)
    requires TotalOrder(leq) && Sorted(xs, leq) && |xs| > 0 && y in multiset(xs)
    ensures leq(xs[0], y)
  {
    var i :| 0 <= i < |xs| && xs[i] == y;
  }

  /** Two sorted arrangements start alike. */
  lemma SameFirst<T(!new)>(xs: seq<T>, ys: seq<T>, leq: (T, T) -> bool)
    requires TotalOrder(leq) && AntisymmetricOn(xs, leq) && |xs| > 0
    requires Sorted(xs, leq) && Sorted(ys, leq) && multiset(xs) == multiset(ys)
    ensures |ys| == |xs| && xs[0] == ys[0] && multiset(xs[1..]) == multiset(ys[1..])
  {
    hide TotalOrder, Sorted;
    assert |multiset(xs)| == |xs| && |multiset(ys)| == |ys|;
    assert xs[0] in multiset(ys) && ys[0] in multiset(xs);
    FirstIsLeast(xs, ys[0], leq);
    FirstIsLeast(ys, xs[0], leq);
    FirstRemoved(xs);
    FirstRemoved(ys);
  }

  /** Two sorted arrangements of the same elements are the same list. */
  lemma {:induction false} SortedUnique<T(!new)>(xs: seq<T>, ys: seq<T>, leq: (T, T) -> bool)
    requires TotalOrder(leq) && AntisymmetricOn(xs, leq)
    requires Sorted(xs, leq) && Sorted(ys, leq) && multiset(xs) == multiset(ys)
    ensures xs == ys
  {
    assert |multiset(xs)| == |xs| && |multiset(ys)| == |ys|;
    if |xs| > 0 {
      SameFirst(xs, ys, leq);
      SortedUnique(xs[1..], ys[1..], leq);
      assert xs == [xs[0]] + xs[1..] && ys == [ys[0]] + ys[1..];
    }
  }

  /** Sorting forgets the order its input came in. */
  lemma SortCanonical<T(!new)>(xs: seq<T>, ys: seq<T>, leq: (T, T) -> bool)
    requires TotalOrder(leq) && AntisymmetricOn(xs, leq) && multiset(xs) == multiset(ys)
    ensures Sort(xs, leq) == Sort(ys, leq)
  {
    SortSorts(xs, leq);
    SortSorts(ys, leq);
    forall x | x in Sort(xs, leq)
      ensures x in xs
    {
      assert x in multiset(Sort(xs, leq));
    }
    SortedUnique(Sort(xs, leq), Sort(ys, leq), leq);
  }

  /** Lexicographic order by character code. */
  predicate StringLeq(s: string, t: string) {
    || |s| == 0
    || (|t| > 0 && (s[0] < t[0] || (s[0] == t[0] && StringLeq(s[1..], t[1..]))))
  }

  lemma {:induction false} StringLeqTotal(s: string, t: string)
    ensures StringLeq(s, t) || StringLeq(t, s)
  {
    if |s| > 0 && |t| > 0 {
      StringLeqTotal(s[1..], t[1..]);
    }
  }

  lemma {:induction false} StringLeqTransitive(s: string, t: string, u: string)
    requires StringLeq(s, t) && StringLeq(t, u)
    ensures StringLeq(s, u)
  {
    if |s| > 0 && s[0] == t[0] == u[0] {
      StringLeqTransitive(s[1..], t[1..], u[1..]);
    }
  }

  lemma {:induction false} StringLeqAntisymmetric(s: string, t: string)
    requires StringLeq(s, t) && StringLeq(t, s)
    ensures s == t
  {
    if |s| > 0 {
      StringLeqAntisymmetric(s[1..], t[1..]);
      assert s == [s[0]] + s[1..] && t == [t[0]] + t[1..];
    }
  }
}
