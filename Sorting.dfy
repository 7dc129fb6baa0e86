/**
 * A stable sort by a "strictly before" relation. JavaScript's `Array.prototype.sort` is
 * stable, and for a comparator that describes a strict weak order every stable sort returns
 * the same sequence, so insertion sort stands for it here. `before(a, b)` means that the
 * comparator returns a negative number for `(a, b)`.
 */
module Sorting {

  /** Inserts `x` in front of the first element that does not strictly precede it. */
  function Insert<T>(x: T, s: seq<T>, before: (T, T) -> bool): seq<T>
  {
    if s == [] then [x]
    else if before(s[0], x) then [s[0]] + Insert(x, s[1..], before)
    else [x] + s
  }

  function InsertionSort<T>(s: seq<T>, before: (T, T) -> bool): seq<T>
  {
    if s == [] then [] else Insert(s[0], InsertionSort(s[1..], before), before)
  }

  /** No element is strictly before an element that precedes it. */
  ghost predicate SortedBy<T>(s: seq<T>, before: (T, T) -> bool)
  {
    forall i, j :: 0 <= i < j < |s| ==> !before(s[j], s[i])
  }

  /** `before` is asymmetric on the values of `u`. */
  ghost predicate AsymmetricOn<T>(u: seq<T>, before: (T, T) -> bool)
  {
    forall a, b :: a in u && b in u && before(a, b) ==> !before(b, a)
  }

  /** `order` is a strict weak order on the values of `u`: asymmetric, and "not before" is transitive. */
  ghost predicate StrictWeakOn<T>(u: seq<T>, order: (T, T) -> bool)
  {
    && AsymmetricOn(u, order)
    && forall a, b, c :: a in u && b in u && c in u && !order(a, b) && !order(b, c) ==> !order(a, c)
  }

  /** On the values of `u`, whatever `coarse` puts first, `before` puts first too. */
  ghost predicate RefinesOn<T>(u: seq<T>, coarse: (T, T) -> bool, before: (T, T) -> bool)
  {
    forall a, b :: a in u && b in u && coarse(a, b) ==> before(a, b)
  }

  lemma {:induction false} InsertPermutes<T>(x: T, s: seq<T>, before: (T, T) -> bool)
    ensures multiset(Insert(x, s, before)) == multiset{x} + multiset(s)
  {
    if s != [] && before(s[0], x) {
      InsertPermutes(x, s[1..], before);
      assert s == [s[0]] + s[1..];
    }
  }

  /** Sorting returns a permutation of its input. */
  lemma {:induction false} InsertionSortPermutes<T>(s: seq<T>, before: (T, T) -> bool)
    ensures multiset(InsertionSort(s, before)) == multiset(s)
    ensures |InsertionSort(s, before)| == |s|
  {
    if s != [] {
      InsertionSortPermutes(s[1..], before);
      InsertPermutes(s[0], InsertionSort(s[1..], before), before);
      assert s == [s[0]] + s[1..];
    }
    calc {
      |InsertionSort(s, before)|;
      |multiset(InsertionSort(s, before))|;
      |multiset(s)|;
      |s|;
    }
  }

  lemma {:induction false} InsertOrders<T>(x: T, s: seq<T>, before: (T, T) -> bool, coarse: (T, T) -> bool, u: seq<T>)
    requires x in u && forall y :: y in s ==> y in u
    requires AsymmetricOn(u, before) && StrictWeakOn(u, coarse) && RefinesOn(u, coarse, before)
    requires SortedBy(s, coarse)
    ensures SortedBy(Insert(x, s, before), coarse)
  {
    if s == [] {
    } else if before(s[0], x) {
      var rest := Insert(x, s[1..], before);
      InsertOrders(x, s[1..], before, coarse, u);
      InsertPermutes(x, s[1..], before);
      var r := [s[0]] + rest;
      forall k | 0 < k < |r| ensures !coarse(r[k], s[0]) {
        assert r[k] in multiset(rest);
        if r[k] == x {
        } else {
          assert r[k] in s[1..];
          var m :| 0 <= m < |s[1..]| && s[1..][m] == r[k];
          assert s[m + 1] == r[k];
        }
      }
    } else {
      var r := [x] + s;
      forall k | 0 < k < |r| ensures !coarse(r[k], x) {
        assert r[k] == s[k - 1];
        if k > 1 {
          assert !coarse(s[k - 1], s[0]);
        }
      }
    }
  }

  /**
   * The result of sorting by `before` is ordered by every strict weak order `coarse` that
   * `before` refines; with `coarse == before` it is ordered by `before` itself.
   */
  lemma {:induction false} InsertionSortOrders<T>(s: seq<T>, before: (T, T) -> bool, coarse: (T, T) -> bool)
    requires AsymmetricOn(s, before) && StrictWeakOn(s, coarse) && RefinesOn(s, coarse, before)
    ensures SortedBy(InsertionSort(s, before), coarse)
  {
    if s != [] {
      var tail := s[1..];
      assert forall y :: y in tail ==> y in s;
      InsertionSortOrders(tail, before, coarse);
      InsertionSortPermutes(tail, before);
      var sorted := InsertionSort(tail, before);
      forall y | y in sorted ensures y in s {
        assert y in multiset(sorted);
      }
      InsertOrders(s[0], sorted, before, coarse, s);
    }
  }
}
