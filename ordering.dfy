/**
 * The store's `orderBy` on one numeric column, ascending or descending,
 * made concrete as an insertion sort over the column's value. The order
 * among rows with equal values is the model's own choice; the store does
 * not fix one.
 */
module Ordering {

  predicate Ascending<T>(xs: seq<T>, key: T -> real) {
    forall i, j :: 0 <= i < j < |xs| ==> key(xs[i]) <= key(xs[j])
  }

  predicate Descending<T>(xs: seq<T>, key: T -> real) {
    forall i, j :: 0 <= i < j < |xs| ==> key(xs[i]) >= key(xs[j])
  }

  /** In an ascending list, an element no greater than the head can go in front. */
  lemma PrependAscending<T>(a: T, xs: seq<T>, key: T -> real)
    requires Ascending(xs, key)
    requires xs == [] || key(a) <= key(xs[0])
    ensures Ascending([a] + xs, key)
  {
    var r := [a] + xs;
    forall i, j | 0 <= i < j < |r| ensures key(r[i]) <= key(r[j]) {
      if i == 0 {
        assert r[j] == xs[j - 1];
        assert key(xs[0]) <= key(xs[j - 1]);
      } else {
        assert r[i] == xs[i - 1] && r[j] == xs[j - 1];
      }
    }
  }

  lemma PrependDescending<T>(a: T, xs: seq<T>, key: T -> real)
    requires Descending(xs, key)
    requires xs == [] || key(a) >= key(xs[0])
    ensures Descending([a] + xs, key)
  {
    var r := [a] + xs;
    forall i, j | 0 <= i < j < |r| ensures key(r[i]) >= key(r[j]) {
      if i == 0 {
        assert r[j] == xs[j - 1];
        assert key(xs[0]) >= key(xs[j - 1]);
      } else {
        assert r[i] == xs[i - 1] && r[j] == xs[j - 1];
      }
    }
  }

  /** The tail of an ascending list is ascending. */
  lemma TailAscending<T>(xs: seq<T>, key: T -> real)
    requires xs != [] && Ascending(xs, key)
    ensures Ascending(xs[1..], key)
  {
    forall i, j | 0 <= i < j < |xs| - 1 ensures key(xs[1..][i]) <= key(xs[1..][j]) {
      assert xs[1..][i] == xs[i + 1] && xs[1..][j] == xs[j + 1];
    }
  }

  /** The tail of a descending list is descending. */
  lemma TailDescending<T>(xs: seq<T>, key: T -> real)
    requires xs != [] && Descending(xs, key)
    ensures Descending(xs[1..], key)
  {
    forall i, j | 0 <= i < j < |xs| - 1 ensures key(xs[1..][i]) >= key(xs[1..][j]) {
      assert xs[1..][i] == xs[i + 1] && xs[1..][j] == xs[j + 1];
    }
  }

  function InsertAscending<T>(x: T, xs: seq<T>, key: T -> real): (r: seq<T>)
    requires Ascending(xs, key)
    ensures |r| == |xs| + 1
    ensures r[0] == x || (xs != [] && r[0] == xs[0])
    ensures multiset(r) == multiset(xs) + multiset{x}
    ensures Ascending(r, key)
  {
    if xs == [] || key(x) <= key(xs[0]) then
      PrependAscending(x, xs, key);
      [x] + xs
    else
      assert multiset(xs) == multiset{xs[0]} + multiset(xs[1..]) by { assert xs == [xs[0]] + xs[1..]; }
      TailAscending(xs, key);
      var rest := InsertAscending(x, xs[1..], key);
      assert rest[0] == x || rest[0] == xs[1];
      assert key(xs[0]) <= key(rest[0]);
      PrependAscending(xs[0], rest, key);
      assert multiset([xs[0]] + rest) == multiset{xs[0]} + multiset(rest);
      [xs[0]] + rest
  }

  function InsertDescending<T>(x: T, xs: seq<T>, key: T -> real): (r: seq<T>)
    requires Descending(xs, key)
    ensures |r| == |xs| + 1
    ensures r[0] == x || (xs != [] && r[0] == xs[0])
    ensures multiset(r) == multiset(xs) + multiset{x}
    ensures Descending(r, key)
  {
    if xs == [] || key(x) >= key(xs[0]) then
      PrependDescending(x, xs, key);
      [x] + xs
    else
      assert multiset(xs) == multiset{xs[0]} + multiset(xs[1..]) by { assert xs == [xs[0]] + xs[1..]; }
      TailDescending(xs, key);
      var rest := InsertDescending(x, xs[1..], key);
      assert rest[0] == x || rest[0] == xs[1];
      assert key(xs[0]) >= key(rest[0]);
      PrependDescending(xs[0], rest, key);
      assert multiset([xs[0]] + rest) == multiset{xs[0]} + multiset(rest);
      [xs[0]] + rest
  }

  /** `orderBy: { column: "asc" }`: a permutation of the rows, ascending in the column. */
  function SortAscending<T>(xs: seq<T>, key: T -> real): (r: seq<T>)
    ensures multiset(r) == multiset(xs)
    ensures Ascending(r, key)
  {
    if xs == [] then [] else
      assert xs == [xs[0]] + xs[1..];
      InsertAscending(xs[0], SortAscending(xs[1..], key), key)
  }

  /** `orderBy: { column: "desc" }`: a permutation of the rows, descending in the column. */
  function SortDescending<T>(xs: seq<T>, key: T -> real): (r: seq<T>)
    ensures multiset(r) == multiset(xs)
    ensures Descending(r, key)
  {
    if xs == [] then [] else
      assert xs == [xs[0]] + xs[1..];
      InsertDescending(xs[0], SortDescending(xs[1..], key), key)
  }

  /** A sorted list has as many rows as it was given, each one of them. */
  lemma SortedMembers<T>(xs: seq<T>, r: seq<T>)
    requires multiset(r) == multiset(xs)
    ensures |r| == |xs|
    ensures forall x :: x in r <==> x in xs
  {
    assert |r| == |multiset(r)| == |multiset(xs)| == |xs|;
    forall x ensures x in r <==> x in xs {
      assert x in r <==> x in multiset(r);
      assert x in xs <==> x in multiset(xs);
    }
  }
}
