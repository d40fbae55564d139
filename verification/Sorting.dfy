/** Stable sorting by a total order, for the sorts of the source's languages. */
module Sorting {

  /** Every two values compare, and comparisons chain. */
  ghost predicate Order<T(!new)>(le: (T, T) -> bool) {
    && (forall a, b :: le(a, b) || le(b, a))
    && forall a, b, c :: le(a, b) && le(b, c) ==> le(a, c)
  }

  predicate Sorted<T>(xs: seq<T>, le: (T, T) -> bool) {
    forall i, j :: 0 <= i < j < |xs| ==> le(xs[i], xs[j])
  }

  /** After the last element that is not above it. */
  function Insert<T>(xs: seq<T>, x: T, le: (T, T) -> bool): seq<T>
    decreases |xs|
  {
    if xs == [] || le(xs[|xs| - 1], x) then xs + [x]
    else Insert(xs[..|xs| - 1], x, le) + [xs[|xs| - 1]]
  }

  function Sort<T>(xs: seq<T>, le: (T, T) -> bool): seq<T>
    decreases |xs|
  {
    if xs == [] then [] else Insert(Sort(xs[..|xs| - 1], le), xs[|xs| - 1], le)
  }

  lemma {:induction false} InsertKeeps<T>(xs: seq<T>, x: T, le: (T, T) -> bool)
    ensures multiset(Insert(xs, x, le)) == multiset(xs) + multiset{x}
    decreases |xs|
  {
    if xs != [] {
      assert xs == xs[..|xs| - 1] + [xs[|xs| - 1]];
      InsertKeeps(xs[..|xs| - 1], x, le);
    }
  }

  lemma {:induction false} SortKeeps<T>(xs: seq<T>, le: (T, T) -> bool)
    ensures multiset(Sort(xs, le)) == multiset(xs)
    decreases |xs|
  {
    if xs != [] {
      assert xs == xs[..|xs| - 1] + [xs[|xs| - 1]];
      SortKeeps(xs[..|xs| - 1], le);
      InsertKeeps(Sort(xs[..|xs| - 1], le), xs[|xs| - 1], le);
    }
  }

  lemma SameElements<T>(xs: seq<T>, ys: seq<T>)
    requires multiset(xs) == multiset(ys)
    ensures |xs| == |ys| && forall x :: x in xs <==> x in ys
  {
    assert |multiset(xs)| == |xs| && |multiset(ys)| == |ys|;
    forall x ensures x in xs <==> x in ys {
      assert x in xs <==> x in multiset(xs);
      assert x in ys <==> x in multiset(ys);
    }
  }

  lemma InsertMembers<T>(xs: seq<T>, x: T, le: (T, T) -> bool)
    ensures forall y :: y in Insert(xs, x, le) <==> y in xs || y == x
  {
    InsertKeeps(xs, x, le);
    forall y ensures y in Insert(xs, x, le) <==> y in xs || y == x {
      assert y in Insert(xs, x, le) <==> y in multiset(Insert(xs, x, le));
      assert y in xs <==> y in multiset(xs);
    }
  }

  lemma SortMembers<T>(xs: seq<T>, le: (T, T) -> bool)
    ensures |Sort(xs, le)| == |xs| && forall y :: y in Sort(xs, le) <==> y in xs
  {
    SortKeeps(xs, le);
    SameElements(Sort(xs, le), xs);
  }

  ghost predicate AllAtMost<T>(xs: seq<T>, bound: T, le: (T, T) -> bool) {
    forall x <- xs :: le(x, bound)
  }

  lemma SortedMore<T>(xs: seq<T>, x: T, le: (T, T) -> bool)
    requires Sorted(xs, le) && AllAtMost(xs, x, le)
    ensures Sorted(xs + [x], le)
  {
  }

  lemma {:induction false} InsertSorts<T(!new)>(xs: seq<T>, x: T, le: (T, T) -> bool)
    requires Order(le) && Sorted(xs, le)
    ensures Sorted(Insert(xs, x, le), le)
    decreases |xs|
  {
    var n := |xs| - 1;
    if xs == [] || le(xs[n], x) {
      assert AllAtMost(xs, x, le);
      SortedMore(xs, x, le);
    } else {
      var rest := Insert(xs[..n], x, le);
      InsertSorts(xs[..n], x, le);
      InsertKeeps(xs[..n], x, le);
      forall y <- rest ensures le(y, xs[n]) {
        assert y in multiset(rest);
        assert y == x || y in xs[..n];
      }
      SortedMore(rest, xs[n], le);
    }
  }

  lemma {:induction false} SortSorts<T(!new)>(xs: seq<T>, le: (T, T) -> bool)
    requires Order(le)
    ensures Sorted(Sort(xs, le), le)
    decreases |xs|
  {
    if xs != [] {
      SortSorts(xs[..|xs| - 1], le);
      InsertSorts(Sort(xs[..|xs| - 1], le), xs[|xs| - 1], le);
    }
  }

  lemma LastIsGreatest<T(!new)>(xs: seq<T>, x: T, le: (T, T) -> bool)
    requires Order(le) && Sorted(xs, le) && x in xs
    ensures le(x, xs[|xs| - 1])
  {
    var i :| 0 <= i < |xs| && xs[i] == x;
    if i == |xs| - 1 { assert le(x, x) || le(x, x); }
  }

  lemma WithoutLast<T>(xs: seq<T>, ys: seq<T>)
    requires xs != [] && ys != [] && multiset(xs) == multiset(ys) && xs[|xs| - 1] == ys[|ys| - 1]
    ensures multiset(xs[..|xs| - 1]) == multiset(ys[..|ys| - 1])
  {
    var x := xs[|xs| - 1];
    assert xs == xs[..|xs| - 1] + [x] && ys == ys[..|ys| - 1] + [x];
    assert multiset(xs[..|xs| - 1]) == multiset(xs) - multiset{x};
    assert multiset(ys[..|ys| - 1]) == multiset(ys) - multiset{x};
  }

  /** Under an antisymmetric order the elements alone determine the sorted list. */
  lemma {:induction false} SortedUnique<T(!new)>(xs: seq<T>, ys: seq<T>, le: (T, T) -> bool)
    requires Order(le) && forall a, b :: le(a, b) && le(b, a) ==> a == b
    requires Sorted(xs, le) && Sorted(ys, le) && multiset(xs) == multiset(ys)
    ensures xs == ys
    decreases |xs|
  {
    SameElements(xs, ys);
    if xs != [] {
      var n := |xs| - 1;
      LastIsGreatest(ys, xs[n], le);
      LastIsGreatest(xs, ys[n], le);
      WithoutLast(xs, ys);
      SortedUnique(xs[..n], ys[..n], le);
      assert xs == xs[..n] + [xs[n]] && ys == ys[..n] + [ys[n]];
    }
  }

  // ---------------------------------------------------------------- text

  /** Comparison by code points, as of str in Python. */
  predicate TextAtMost(a: string, b: string)
    decreases |a|
  {
    a == "" || (b != "" && (a[0] < b[0] || (a[0] == b[0] && TextAtMost(a[1..], b[1..]))))
  }

  lemma {:induction false} TextTotal(a: string, b: string)
    ensures TextAtMost(a, b) || TextAtMost(b, a)
    ensures TextAtMost(a, b) && TextAtMost(b, a) ==> a == b
    decreases |a|
  {
    if a != "" && b != "" && a[0] == b[0] {
      TextTotal(a[1..], b[1..]);
      assert a == [a[0]] + a[1..] && b == [b[0]] + b[1..];
    }
  }

  lemma {:induction false} TextChains(a: string, b: string, c: string)
    requires TextAtMost(a, b) && TextAtMost(b, c)
    ensures TextAtMost(a, c)
    decreases |a|
  {
    if a != "" && a[0] == b[0] && b[0] == c[0] { TextChains(a[1..], b[1..], c[1..]); }
  }

  function ByText(): (string, string) -> bool {
    (a, b) => TextAtMost(a, b)
  }

  lemma TextOrder()
    ensures Order(ByText()) && forall a, b :: ByText()(a, b) && ByText()(b, a) ==> a == b
  {
    forall a, b ensures ByText()(a, b) || ByText()(b, a)
      ensures ByText()(a, b) && ByText()(b, a) ==> a == b
    {
      TextTotal(a, b);
    }
    forall a, b, c | ByText()(a, b) && ByText()(b, c) ensures ByText()(a, c) { TextChains(a, b, c); }
  }
}
