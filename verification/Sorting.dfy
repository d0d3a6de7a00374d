/** Insertion sort under a comparator, and the fact that a sorted arrangement is unique. Stands
    for `Array.prototype.sort`. */
module Sorting {

  ghost predicate Sorted<T(!new)>(before: (T, T) -> bool, xs: seq<T>) {
    forall i, j :: 0 <= i < j < |xs| ==> before(xs[i], xs[j])
  }

  ghost predicate Distinct<T(!new)>(xs: seq<T>) {
    forall i, j :: 0 <= i < j < |xs| ==> xs[i] != xs[j]
  }

  /** The comparator is a linear order on the elements of `xs`. */
  ghost predicate Linear<T(!new)>(before: (T, T) -> bool, xs: seq<T>) {
    && (forall a, b :: a in xs && b in xs ==> before(a, b) || before(b, a))
    && (forall a, b :: a in xs && b in xs && before(a, b) && before(b, a) ==> a == b)
    && (forall a, b, c :: a in xs && b in xs && c in xs && before(a, b) && before(b, c) ==> before(a, c))
  }

  ghost predicate SameElements<T(!new)>(xs: seq<T>, ys: seq<T>) {
    forall x :: x in xs <==> x in ys
  }

  function Insert<T>(before: (T, T) -> bool, x: T, xs: seq<T>): seq<T> {
    if xs == [] || before(x, xs[0]) then [x] + xs else [xs[0]] + Insert(before, x, xs[1..])
  }

  function Sort<T>(before: (T, T) -> bool, xs: seq<T>): seq<T> {
    if xs == [] then [] else Insert(before, xs[0], Sort(before, xs[1..]))
  }

  lemma {:induction false} InsertElements<T(!new)>(before: (T, T) -> bool, x: T, xs: seq<T>)
    requires Distinct(xs) && x !in xs
    ensures SameElements(Insert(before, x, xs), [x] + xs)
    ensures Distinct(Insert(before, x, xs))
  {
    if !(xs == [] || before(x, xs[0])) {
      var rest := xs[1..];
      assert xs == [xs[0]] + rest;
      InsertElements(before, x, rest);
      assert xs[0] !in Insert(before, x, rest);
    }
  }

  lemma LinearOnFewer<T(!new)>(before: (T, T) -> bool, xs: seq<T>, ys: seq<T>)
    requires Linear(before, xs) && forall y :: y in ys ==> y in xs
    ensures Linear(before, ys)
  {
  }

  lemma {:induction false} InsertSorted<T(!new)>(before: (T, T) -> bool, x: T, xs: seq<T>)
    requires Sorted(before, xs) && Distinct(xs) && x !in xs && Linear(before, [x] + xs)
    ensures Sorted(before, Insert(before, x, xs))
  {
    if xs == [] {
    } else if before(x, xs[0]) {
      forall i | 0 <= i < |xs| ensures before(x, xs[i]) {
        assert x in [x] + xs && xs[0] in [x] + xs && xs[i] in [x] + xs;
      }
    } else {
      var rest := xs[1..];
      assert xs == [xs[0]] + rest;
      assert x in [x] + xs && xs[0] in [x] + xs;
      LinearOnFewer(before, [x] + xs, [x] + rest);
      InsertSorted(before, x, rest);
      InsertElements(before, x, rest);
      forall y | y in Insert(before, x, rest) ensures before(xs[0], y) {
        assert y in [x] + rest;
      }
    }
  }

  lemma {:induction false} SortIsSorted<T(!new)>(before: (T, T) -> bool, xs: seq<T>)
    requires Distinct(xs) && Linear(before, xs)
    ensures Sorted(before, Sort(before, xs)) && Distinct(Sort(before, xs)) && SameElements(Sort(before, xs), xs)
  {
    if xs != [] {
      var rest := xs[1..];
      assert xs == [xs[0]] + rest;
      LinearOnFewer(before, xs, rest);
      SortIsSorted(before, rest);
      LinearOnFewer(before, xs, [xs[0]] + Sort(before, rest));
      InsertElements(before, xs[0], Sort(before, rest));
      InsertSorted(before, xs[0], Sort(before, rest));
    }
  }

  /** Two sorted arrangements of the same distinct elements are the same. */
  lemma {:induction false} SortedIsUnique<T(!new)>(before: (T, T) -> bool, xs: seq<T>, ys: seq<T>)
    requires Linear(before, xs) && Distinct(xs) && Distinct(ys) && SameElements(xs, ys)
    requires Sorted(before, xs) && Sorted(before, ys)
    ensures xs == ys
  {
    assert |ys| > 0 ==> ys[0] in ys;
    if xs != [] {
      assert xs[0] in xs && xs[0] in ys;
      var i :| 0 <= i < |ys| && ys[i] == xs[0];
      assert ys[0] in ys && ys[0] in xs;
      var j :| 0 <= j < |xs| && xs[j] == ys[0];
      assert xs[0] == ys[0];
      var xs', ys' := xs[1..], ys[1..];
      assert xs == [xs[0]] + xs' && ys == [ys[0]] + ys';
      forall x ensures x in xs' <==> x in ys' {
        assert x in xs' ==> x in xs && x != xs[0];
        assert x in ys' ==> x in ys && x != ys[0];
      }
      LinearOnFewer(before, xs, xs');
      SortedIsUnique(before, xs', ys');
    }
  }

  /** Sorting depends only on which elements there are, not on the order they come in. */
  lemma SortIgnoresOrder<T(!new)>(before: (T, T) -> bool, xs: seq<T>, ys: seq<T>)
    requires Linear(before, xs) && Distinct(xs) && Distinct(ys) && SameElements(xs, ys)
    ensures Sort(before, xs) == Sort(before, ys)
  {
    LinearOnFewer(before, xs, ys);
    SortIsSorted(before, xs);
    SortIsSorted(before, ys);
    LinearOnFewer(before, xs, Sort(before, xs));
    SortedIsUnique(before, Sort(before, xs), Sort(before, ys));
  }

  function Filter<T>(keep: T -> bool, xs: seq<T>): seq<T> {
    if xs == [] then []
    else (if keep(xs[0]) then [xs[0]] else []) + Filter(keep, xs[1..])
  }

  lemma {:induction false} FilterKeeps<T(!new)>(keep: T -> bool, xs: seq<T>)
    ensures forall x :: x in Filter(keep, xs) <==> x in xs && keep(x)
    ensures Distinct(xs) ==> Distinct(Filter(keep, xs))
  {
    if xs != [] {
      assert xs == [xs[0]] + xs[1..];
      FilterKeeps(keep, xs[1..]);
      if Distinct(xs) {
        assert xs[0] !in Filter(keep, xs[1..]);
      }
    }
  }
}
