/**
 The answer of a query with ORDER BY: the rows of a set, each once, none before one that the order puts
 ahead of it. Rows the order does not separate may come either way round.
 */
module Listings {
  ghost predicate IsListing<T(!new)>(rows: set<T>, out: seq<T>, before: (T, T) -> bool) {
    && multiset(out) == multiset(rows)
    && forall i, j :: 0 <= i < j < |out| ==> !before(out[j], out[i])
  }

  /** The order separates any two of the rows, one way. */
  ghost predicate Separates<T(!new)>(rows: set<T>, before: (T, T) -> bool) {
    forall a, b :: a in rows && b in rows && a != b ==> before(a, b) != before(b, a)
  }

  ghost predicate Strict<T(!new)>(xs: seq<T>, before: (T, T) -> bool) {
    forall i, j :: 0 <= i < j < |xs| ==> before(xs[i], xs[j]) && !before(xs[j], xs[i]) && xs[i] != xs[j]
  }

  lemma CountTwo<T>(xs: seq<T>, i: nat, j: nat)
    requires i < j < |xs| && xs[i] == xs[j]
    ensures multiset(xs)[xs[i]] >= 2
  {
    assert xs == xs[..j] + [xs[j]] + xs[j + 1..];
    assert xs[i] == xs[..j][i];
    assert xs[i] in multiset(xs[..j]);
  }

  lemma Elements<T(!new)>(rows: set<T>, out: seq<T>, before: (T, T) -> bool)
    requires IsListing(rows, out, before)
    ensures forall r :: r in out <==> r in rows
    ensures forall i, j :: 0 <= i < j < |out| ==> out[i] != out[j]
    ensures |out| == |rows|
  {
    forall r ensures r in out <==> r in rows {
      assert r in multiset(out) <==> r in multiset(rows);
    }
    forall i, j | 0 <= i < j < |out| ensures out[i] != out[j] {
      if out[i] == out[j] {
        CountTwo(out, i, j);
      }
    }
    assert |multiset(out)| == |out| && |multiset(rows)| == |rows|;
  }

  lemma ListingIsStrict<T(!new)>(rows: set<T>, out: seq<T>, before: (T, T) -> bool)
    requires IsListing(rows, out, before) && Separates(rows, before)
    ensures Strict(out, before)
  {
    Elements(rows, out, before);
    forall i, j | 0 <= i < j < |out|
      ensures before(out[i], out[j]) && !before(out[j], out[i]) && out[i] != out[j]
    {
      assert out[i] in rows && out[j] in rows;
    }
  }

  lemma SameLast<T(!new)>(xs: seq<T>, ys: seq<T>, before: (T, T) -> bool)
    requires Strict(xs, before) && Strict(ys, before) && |xs| > 0 && |ys| > 0
    requires xs[|xs| - 1] in ys && ys[|ys| - 1] in xs
    ensures xs[|xs| - 1] == ys[|ys| - 1]
  {
    var x, y := xs[|xs| - 1], ys[|ys| - 1];
    var i :| 0 <= i < |xs| && xs[i] == y;
    var j :| 0 <= j < |ys| && ys[j] == x;
    assert i < |xs| - 1 ==> before(y, x) && !before(x, y);
    assert j < |ys| - 1 ==> before(x, y) && !before(y, x);
  }

  lemma WithoutLast<T(!new)>(xs: seq<T>, before: (T, T) -> bool, r: T)
    requires Strict(xs, before) && |xs| > 0
    ensures r in xs[..|xs| - 1] <==> r in xs && r != xs[|xs| - 1]
  {
    assert xs == xs[..|xs| - 1] + [xs[|xs| - 1]];
    if r in xs[..|xs| - 1] {
      var k :| 0 <= k < |xs| - 1 && xs[k] == r;
      assert xs[k] != xs[|xs| - 1];
    }
  }

  /** Two strictly ordered sequences with the same elements are the same. */
  lemma {:induction false} StrictIsUnique<T(!new)>(xs: seq<T>, ys: seq<T>, before: (T, T) -> bool)
    requires Strict(xs, before) && Strict(ys, before)
    requires forall r :: r in xs <==> r in ys
    ensures xs == ys
  {
    assert |xs| > 0 ==> xs[0] in xs;
    assert |ys| > 0 ==> ys[0] in ys;
    if |xs| > 0 {
      assert xs[|xs| - 1] in ys && |ys| > 0 && ys[|ys| - 1] in xs;
      SameLast(xs, ys, before);
      var front, other := xs[..|xs| - 1], ys[..|ys| - 1];
      forall r ensures r in front <==> r in other {
        WithoutLast(xs, before, r);
        WithoutLast(ys, before, r);
      }
      StrictIsUnique(front, other, before);
      assert xs == front + [xs[|xs| - 1]] && ys == other + [ys[|ys| - 1]];
    }
  }

  /** When the order separates the rows, the query has one answer. */
  lemma ListingIsUnique<T(!new)>(rows: set<T>, xs: seq<T>, ys: seq<T>, before: (T, T) -> bool)
    requires IsListing(rows, xs, before) && IsListing(rows, ys, before) && Separates(rows, before)
    ensures xs == ys
  {
    Elements(rows, xs, before);
    Elements(rows, ys, before);
    ListingIsStrict(rows, xs, before);
    ListingIsStrict(rows, ys, before);
    StrictIsUnique(xs, ys, before);
  }
}
