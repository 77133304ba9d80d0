/**
 The library sorts: the result is a permutation, in order when the comparison is a strict weak order, with ties
 left as they were. (JavaScript promises the last; Go does not, and nothing about Go code below relies on it.)
 */
module Sorting {
  function InsertBy<T>(less: (T, T) -> bool, x: T, xs: seq<T>): seq<T> {
    if xs == [] || !less(xs[0], x) then [x] + xs else [xs[0]] + InsertBy(less, x, xs[1..])
  }

  function SortBy<T>(less: (T, T) -> bool, xs: seq<T>): seq<T> {
    if xs == [] then [] else InsertBy(less, xs[0], SortBy(less, xs[1..]))
  }

  /** What a library sort asks of the comparison, on the elements it is given: a strict weak order. */
  ghost predicate WeakOrderOn<T>(less: (T, T) -> bool, xs: seq<T>) {
    Asymmetric(less, xs) && TiesCarryOver(less, xs)
  }

  ghost predicate Asymmetric<T>(less: (T, T) -> bool, xs: seq<T>) {
    forall x, y | x in xs && y in xs :: less(x, y) ==> !less(y, x)
  }

  ghost predicate TiesCarryOver<T>(less: (T, T) -> bool, xs: seq<T>) {
    forall x, y, z | x in xs && y in xs && z in xs :: !less(x, y) && !less(y, z) ==> !less(x, z)
  }

  /** No element is strictly before one that precedes it. */
  ghost predicate InOrder<T>(less: (T, T) -> bool, xs: seq<T>) {
    forall i, j | 0 <= i < j < |xs| :: !less(xs[j], xs[i])
  }

  lemma {:induction false} InsertPermutes<T>(less: (T, T) -> bool, x: T, xs: seq<T>)
    ensures multiset(InsertBy(less, x, xs)) == multiset{x} + multiset(xs)
  {
    if xs != [] && less(xs[0], x) {
      InsertPermutes(less, x, xs[1..]);
      assert xs == [xs[0]] + xs[1..];
    }
  }

  lemma {:induction false} SortPermutes<T>(less: (T, T) -> bool, xs: seq<T>)
    ensures multiset(SortBy(less, xs)) == multiset(xs)
    ensures |SortBy(less, xs)| == |xs|
  {
    if xs != [] {
      SortPermutes(less, xs[1..]);
      InsertPermutes(less, xs[0], SortBy(less, xs[1..]));
      assert xs == [xs[0]] + xs[1..];
    }
    assert |multiset(SortBy(less, xs))| == |SortBy(less, xs)|;
  }

  lemma {:induction false} InsertKeepsOrder<T>(less: (T, T) -> bool, x: T, xs: seq<T>)
    requires WeakOrderOn(less, [x] + xs) && InOrder(less, xs)
    ensures InOrder(less, InsertBy(less, x, xs))
  {
    if xs != [] && less(xs[0], x) {
      var rest := InsertBy(less, x, xs[1..]);
      assert forall y | y in [x] + xs[1..] :: y in [x] + xs;
      InsertKeepsOrder(less, x, xs[1..]);
      InsertPermutes(less, x, xs[1..]);
      forall k | 0 <= k < |rest|
        ensures !less(rest[k], xs[0])
      {
        assert rest[k] in multiset(rest);
        assert rest[k] == x || rest[k] in xs[1..];
      }
    } else if xs != [] {
      forall k | 0 <= k < |xs|
        ensures !less(xs[k], x)
      {
        assert k == 0 || !less(xs[k], xs[0]);
        assert xs[k] in [x] + xs && xs[0] in [x] + xs && x in [x] + xs;
      }
    }
  }

  lemma SameMembers<T>(xs: seq<T>, ys: seq<T>)
    requires multiset(xs) == multiset(ys)
    ensures forall x :: x in xs <==> x in ys
  {
    assert forall x :: x in xs <==> x in multiset(xs);
    assert forall x :: x in ys <==> x in multiset(ys);
  }

  lemma WeakOrderWithin<T>(less: (T, T) -> bool, xs: seq<T>, ys: seq<T>)
    requires WeakOrderOn(less, xs) && forall y | y in ys :: y in xs
    ensures WeakOrderOn(less, ys)
  {
  }

  lemma {:induction false} SortOrders<T>(less: (T, T) -> bool, xs: seq<T>)
    requires WeakOrderOn(less, xs)
    ensures InOrder(less, SortBy(less, xs))
  {
    if xs == [] {
    } else {
      hide WeakOrderOn, InOrder;
      var rest, sorted := xs[1..], SortBy(less, xs[1..]);
      WeakOrderWithin(less, xs, rest);
      SortOrders(less, rest);
      SortPermutes(less, rest);
      forall y | y in [xs[0]] + sorted ensures y in xs {
        assert y == xs[0] || y in sorted;
        assert xs == [xs[0]] + rest && (y in sorted <==> y in multiset(sorted));
      }
      WeakOrderWithin(less, xs, [xs[0]] + sorted);
      InsertKeepsOrder(less, xs[0], sorted);
    }
  }

  /** Inserting never repairs a disorder. */
  lemma {:induction false} InsertKeepsDisorder<T>(less: (T, T) -> bool, x: T, xs: seq<T>)
    requires !InOrder(less, xs)
    ensures !InOrder(less, InsertBy(less, x, xs))
  {
    var i, j :| 0 <= i < j < |xs| && less(xs[j], xs[i]);
    var r := InsertBy(less, x, xs);
    if less(xs[0], x) {
      var rest := InsertBy(less, x, xs[1..]);
      if i > 0 {
        assert less(xs[1..][j - 1], xs[1..][i - 1]);
        InsertKeepsDisorder(less, x, xs[1..]);
        var k, l :| 0 <= k < l < |rest| && less(rest[l], rest[k]);
        assert less(r[l + 1], r[k + 1]);
      } else {
        InsertPermutes(less, x, xs[1..]);
        assert xs[j] == xs[1..][j - 1] && xs[j] in multiset(rest);
        var l :| 0 <= l < |rest| && rest[l] == xs[j];
        assert less(r[l + 1], r[0]);
      }
    } else {
      assert less(r[j + 1], r[i + 1]);
    }
  }

  lemma {:induction false} SortKeepsDisorder<T>(less: (T, T) -> bool, before: seq<T>, xs: seq<T>)
    requires !InOrder(less, SortBy(less, xs))
    ensures !InOrder(less, SortBy(less, before + xs))
  {
    if before == [] {
      assert before + xs == xs;
    } else {
      assert (before + xs)[1..] == before[1..] + xs;
      SortKeepsDisorder(less, before[1..], xs);
      InsertKeepsDisorder(less, before[0], SortBy(less, before[1..] + xs));
    }
  }

  /** Elements that tie one after the other but not across come out as they went in, and out of order. */
  lemma TiesMislead<T>(less: (T, T) -> bool, x: T, y: T, z: T)
    requires !less(x, y) && !less(y, z) && less(x, z)
    ensures !InOrder(less, SortBy(less, [z, y, x]))
  {
    assert [z, y, x][1..] == [y, x] && [y, x][1..] == [x] && [x][1..] == [];
    assert SortBy(less, [x]) == [x] + [];
    assert SortBy(less, [y, x]) == InsertBy(less, y, [x]) == [y, x];
    assert SortBy(less, [z, y, x]) == InsertBy(less, z, [y, x]) == [z, y, x];
    assert less([z, y, x][2], [z, y, x][0]);
  }

  lemma TakeOut<T>(xs: seq<T>, x: T) returns (rest: seq<T>)
    requires x in xs
    ensures multiset(xs) == multiset(rest) + multiset{x}
    ensures forall y | y in xs && y != x :: y in rest
  {
    var i :| 0 <= i < |xs| && xs[i] == x;
    rest := xs[..i] + xs[i + 1..];
    assert xs == xs[..i] + [x] + xs[i + 1..];
  }

  /** The sort orders every arrangement of some elements iff the comparison is a strict weak order on them. */
  lemma SortsEveryArrangementIff<T(!new)>(less: (T, T) -> bool, xs: seq<T>)
    requires Asymmetric(less, xs)
    ensures (forall ys | multiset(ys) == multiset(xs) :: InOrder(less, SortBy(less, ys))) <==> WeakOrderOn(less, xs)
  {
    if WeakOrderOn(less, xs) {
      forall ys | multiset(ys) == multiset(xs) ensures InOrder(less, SortBy(less, ys)) {
        SameMembers(ys, xs);
        SortOrders(less, ys);
      }
    } else {
      var x, y, z :| x in xs && y in xs && z in xs && !less(x, y) && !less(y, z) && less(x, z);
      var ys := Misled(less, xs, x, y, z);
    }
  }

  lemma Misled<T>(less: (T, T) -> bool, xs: seq<T>, x: T, y: T, z: T) returns (ys: seq<T>)
    requires Asymmetric(less, xs) && x in xs && y in xs && z in xs
    requires !less(x, y) && !less(y, z) && less(x, z)
    ensures multiset(ys) == multiset(xs) && !InOrder(less, SortBy(less, ys))
  {
    hide SortBy, InOrder;
    assert x != y && y != z && x != z;
    var without := TakeOut(xs, x);
    without := TakeOut(without, y);
    without := TakeOut(without, z);
    ys := without + [z, y, x];
    TiesMislead(less, x, y, z);
    SortKeepsDisorder(less, without, [z, y, x]);
    assert multiset(ys) == multiset(without) + multiset{z, y, x};
  }

  /** What is already in order is left as it is. */
  lemma {:induction false} SortLeavesSorted<T>(less: (T, T) -> bool, xs: seq<T>)
    requires InOrder(less, xs)
    ensures SortBy(less, xs) == xs
  {
    if xs != [] {
      SortLeavesSorted(less, xs[1..]);
      assert |xs| > 1 ==> xs[1..][0] == xs[1];
    }
  }
}
