/** Stable sorting by a real key, shared by retrieval and loop selection. */
module Sorting {
  /** Stable insertion: after every element whose key is not larger. */
  function Insert<T>(xs: seq<T>, x: T, key: T -> real): seq<T> {
    if xs == [] || key(xs[|xs| - 1]) <= key(x) then xs + [x]
    else Insert(xs[..|xs| - 1], x, key) + [xs[|xs| - 1]]
  }

  /** A stable sort by key. */
  function SortBy<T>(xs: seq<T>, key: T -> real): seq<T> {
    if xs == [] then [] else Insert(SortBy(xs[..|xs| - 1], key), xs[|xs| - 1], key)
  }

  predicate SortedBy<T>(xs: seq<T>, key: T -> real) {
    forall i, j :: 0 <= i < j < |xs| ==> key(xs[i]) <= key(xs[j])
  }

  lemma {:induction false} InsertPermutes<T>(xs: seq<T>, x: T, key: T -> real)
    ensures multiset(Insert(xs, x, key)) == multiset(xs) + multiset{x}
  {
    if xs != [] && key(xs[|xs| - 1]) > key(x) {
      assert xs == xs[..|xs| - 1] + [xs[|xs| - 1]];
      InsertPermutes(xs[..|xs| - 1], x, key);
    }
  }

  lemma {:induction false} InsertMembers<T>(xs: seq<T>, x: T, key: T -> real, y: T)
    requires y in Insert(xs, x, key)
    ensures y in xs || y == x
  {
    if xs != [] && key(xs[|xs| - 1]) > key(x) && y != xs[|xs| - 1] {
      InsertMembers(xs[..|xs| - 1], x, key, y);
    }
  }

  lemma {:induction false} InsertSorted<T>(xs: seq<T>, x: T, key: T -> real)
    requires SortedBy(xs, key)
    ensures SortedBy(Insert(xs, x, key), key)
  {
    if xs != [] && key(xs[|xs| - 1]) > key(x) {
      var init, last := xs[..|xs| - 1], xs[|xs| - 1];
      InsertSorted(init, x, key);
      var r := Insert(init, x, key);
      forall i | 0 <= i < |r| ensures key(r[i]) <= key(last) {
        InsertMembers(init, x, key, r[i]);
        if r[i] in init {
          var j :| 0 <= j < |init| && init[j] == r[i];
          assert xs[j] == r[i];
        }
      }
    }
  }

  /** Sorting yields an ascending permutation. */
  lemma {:induction false} SortIsSorted<T>(xs: seq<T>, key: T -> real)
    ensures SortedBy(SortBy(xs, key), key) && multiset(SortBy(xs, key)) == multiset(xs)
  {
    if xs != [] {
      var init, last := xs[..|xs| - 1], xs[|xs| - 1];
      assert xs == init + [last];
      SortIsSorted(init, key);
      InsertSorted(SortBy(init, key), last, key);
      InsertPermutes(SortBy(init, key), last, key);
    }
  }

  function First<T>(xs: seq<T>, n: nat): seq<T> {
    if |xs| <= n then xs else xs[..n]
  }

  predicate Distinct<T(==)>(xs: seq<T>) {
    forall i, j :: 0 <= i < j < |xs| ==> xs[i] != xs[j]
  }

  lemma {:induction false} DistinctMultiset<T>(xs: seq<T>)
    ensures Distinct(xs) <==> forall x :: x in xs ==> multiset(xs)[x] == 1
  {
    if xs != [] {
      var init, last := xs[..|xs| - 1], xs[|xs| - 1];
      assert xs == init + [last];
      DistinctMultiset(init);
      if Distinct(xs) {
        assert Distinct(init) && last !in init;
      } else if Distinct(init) {
        assert last in init;
        assert multiset(init)[last] >= 1;
        assert multiset(xs)[last] >= 2;
      } else {
        var x :| x in init && multiset(init)[x] != 1;
        assert multiset(init)[x] >= 1;
        assert multiset(xs)[x] >= 2;
      }
    }
  }

  /** Sorting keeps elements distinct and keeps membership. */
  lemma SortKeepsMembers<T>(xs: seq<T>, key: T -> real)
    ensures Distinct(xs) ==> Distinct(SortBy(xs, key))
    ensures |SortBy(xs, key)| == |xs| && forall x :: x in SortBy(xs, key) <==> x in xs
  {
    SortIsSorted(xs, key);
    DistinctMultiset(xs);
    DistinctMultiset(SortBy(xs, key));
    assert |multiset(SortBy(xs, key))| == |multiset(xs)|;
    forall x ensures x in SortBy(xs, key) <==> x in xs {
      assert x in multiset(xs) <==> x in xs;
      assert x in multiset(SortBy(xs, key)) <==> x in SortBy(xs, key);
    }
  }
}
