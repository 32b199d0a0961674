/**
 `Array.prototype.sort` with a comparator. The comparators of the repository are strict
 total orders on what they sort, so the result does not depend on the sorting algorithm:
 any sorted rearrangement is the one computed here.
 */
module Sorting {

  type Order<!T> = (T, T) -> bool

  ghost predicate StrictTotalOn<T(!new)>(less: Order<T>, s: set<T>) {
    && (forall a | a in s :: !less(a, a))
    && (forall a, b | a in s && b in s && a != b :: less(a, b) || less(b, a))
    && (forall a, b, c | a in s && b in s && c in s && less(a, b) && less(b, c) :: less(a, c))
  }

  ghost predicate Ascending<T(!new)>(less: Order<T>, xs: seq<T>) {
    forall i, j | 0 <= i < j < |xs| :: less(xs[i], xs[j])
  }

  predicate Distinct<T(==)>(xs: seq<T>) {
    forall i, j | 0 <= i < j < |xs| :: xs[i] != xs[j]
  }

  function Elements<T>(xs: seq<T>): set<T> {
    set x | x in xs
  }

  lemma NonEmptyHasMember<T>(xs: seq<T>)
    ensures xs != [] ==> exists x :: x in xs
  {
    if xs != [] {
      assert xs[0] in xs;
    }
  }

  function Insert<T>(less: Order<T>, x: T, sorted: seq<T>): seq<T> {
    if sorted == [] || less(x, sorted[0]) then [x] + sorted
    else [sorted[0]] + Insert(less, x, sorted[1..])
  }

  function SortBy<T>(less: Order<T>, xs: seq<T>): seq<T> {
    if xs == [] then [] else Insert(less, xs[0], SortBy(less, xs[1..]))
  }

  lemma {:induction false} InsertKeepsElements<T>(less: Order<T>, x: T, sorted: seq<T>)
    ensures multiset(Insert(less, x, sorted)) == multiset{x} + multiset(sorted)
  {
    if sorted != [] && !less(x, sorted[0]) {
      InsertKeepsElements(less, x, sorted[1..]);
      assert sorted == [sorted[0]] + sorted[1..];
    }
  }

  /** Sorting rearranges: every element keeps its multiplicity. */
  lemma {:induction false} SortRearranges<T>(less: Order<T>, xs: seq<T>)
    ensures multiset(SortBy(less, xs)) == multiset(xs)
    ensures |SortBy(less, xs)| == |xs|
    ensures forall x :: x in SortBy(less, xs) <==> x in xs
  {
    if xs != [] {
      SortRearranges(less, xs[1..]);
      InsertKeepsElements(less, xs[0], SortBy(less, xs[1..]));
      assert xs == [xs[0]] + xs[1..];
    }
    SameMultiset(SortBy(less, xs), xs);
  }

  lemma SameMultiset<T>(xs: seq<T>, ys: seq<T>)
    requires multiset(xs) == multiset(ys)
    ensures |xs| == |ys| && forall x :: x in xs <==> x in ys
  {
    assert |multiset(xs)| == |multiset(ys)|;
    forall x
      ensures x in xs <==> x in ys
    {
      assert x in xs <==> x in multiset(xs);
    }
  }

  lemma {:induction false} InsertAscending<T(!new)>(less: Order<T>, x: T, sorted: seq<T>, s: set<T>)
    requires StrictTotalOn(less, s) && x in s && x !in sorted && forall y | y in sorted :: y in s
    requires Ascending(less, sorted)
    ensures Ascending(less, Insert(less, x, sorted))
  {
    if sorted != [] && !less(x, sorted[0]) {
      InsertAscending(less, x, sorted[1..], s);
      InsertKeepsElements(less, x, sorted[1..]);
      var r := Insert(less, x, sorted[1..]);
      forall j | 0 <= j < |r|
        ensures less(sorted[0], r[j])
      {
        assert r[j] in multiset(r);
        if r[j] != x {
          assert r[j] in sorted[1..];
          var k :| 0 <= k < |sorted[1..]| && sorted[1..][k] == r[j];
          assert less(sorted[0], sorted[k + 1]);
        }
      }
    } else if sorted != [] {
      assert forall j | 0 < j < |sorted| :: less(sorted[0], sorted[j]);
    }
  }

  lemma {:induction false} SortAscending<T(!new)>(less: Order<T>, xs: seq<T>)
    requires StrictTotalOn(less, Elements(xs)) && Distinct(xs)
    ensures Ascending(less, SortBy(less, xs))
  {
    if xs != [] {
      assert Elements(xs[1..]) <= Elements(xs);
      assert StrictTotalOn(less, Elements(xs[1..]));
      SortAscending(less, xs[1..]);
      SortRearranges(less, xs[1..]);
      InsertAscending(less, xs[0], SortBy(less, xs[1..]), Elements(xs));
    }
  }

  lemma SameLeast<T(!new)>(less: Order<T>, xs: seq<T>, ys: seq<T>)
    requires StrictTotalOn(less, Elements(xs)) && multiset(xs) == multiset(ys) && xs != [] && ys != []
    requires Ascending(less, xs) && Ascending(less, ys)
    ensures xs[0] == ys[0]
  {
    SameMultiset(xs, ys);
    assert xs[0] in xs && ys[0] in ys;
    var k :| 0 <= k < |ys| && ys[k] == xs[0];
    var l :| 0 <= l < |xs| && xs[l] == ys[0];
    assert xs[0] in Elements(xs) && ys[0] in Elements(xs);
  }

  lemma RestOfMultiset<T(!new)>(xs: seq<T>)
    requires xs != []
    ensures multiset(xs[1..]) == multiset(xs) - multiset{xs[0]}
  {
    assert xs == [xs[0]] + xs[1..];
  }

  /** Two ascending sequences with the same elements are the same sequence. */
  lemma {:induction false} AscendingIsUnique<T(!new)>(less: Order<T>, xs: seq<T>, ys: seq<T>)
    requires StrictTotalOn(less, Elements(xs)) && multiset(xs) == multiset(ys)
    requires Ascending(less, xs) && Ascending(less, ys)
    ensures xs == ys
  {
    SameMultiset(xs, ys);
    if xs != [] {
      SameLeast(less, xs, ys);
      RestOfMultiset(xs);
      RestOfMultiset(ys);
      assert Elements(xs[1..]) <= Elements(xs);
      AscendingIsUnique(less, xs[1..], ys[1..]);
      assert xs == [xs[0]] + xs[1..] && ys == [ys[0]] + ys[1..];
    }
  }

  lemma DistinctFollowsMultiset<T(!new)>(xs: seq<T>, ys: seq<T>)
    requires multiset(xs) == multiset(ys) && Distinct(xs)
    ensures Distinct(ys)
  {
    if i, j :| 0 <= i < j < |ys| && ys[i] == ys[j] {
      TwoOccurrences(ys, i, j);
      var x := ys[i];
      OneOccurrence(xs, x);
    }
  }

  lemma TwoOccurrences<T>(ys: seq<T>, i: nat, j: nat)
    requires i < j < |ys| && ys[i] == ys[j]
    ensures multiset(ys)[ys[i]] >= 2
  {
    assert ys == ys[..j] + ys[j..];
    assert ys[..j][i] == ys[i] && ys[j..][0] == ys[i];
    assert ys[i] in multiset(ys[..j]) && ys[i] in multiset(ys[j..]);
  }

  lemma {:induction false} OneOccurrence<T(!new)>(xs: seq<T>, x: T)
    requires Distinct(xs)
    ensures multiset(xs)[x] <= 1
  {
    if xs != [] {
      assert xs == [xs[0]] + xs[1..];
      OneOccurrence(xs[1..], x);
      if xs[0] == x {
        assert x !in xs[1..];
      }
    }
  }

  /** The sorted sequence depends only on the elements, not on the order they came in. */
  lemma SortIgnoresInputOrder<T(!new)>(less: Order<T>, xs: seq<T>, ys: seq<T>)
    requires StrictTotalOn(less, Elements(xs)) && Distinct(xs) && multiset(xs) == multiset(ys)
    ensures SortBy(less, xs) == SortBy(less, ys)
  {
    SameMultiset(xs, ys);
    DistinctFollowsMultiset(xs, ys);
    assert Elements(xs) == Elements(ys);
    SortAscending(less, xs);
    SortAscending(less, ys);
    SortRearranges(less, xs);
    SortRearranges(less, ys);
    assert Elements(SortBy(less, xs)) == Elements(xs);
    AscendingIsUnique(less, SortBy(less, xs), SortBy(less, ys));
  }
}
