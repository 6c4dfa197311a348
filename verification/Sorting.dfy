/** Sorting by a strict order: the sorted list depends on what is in it alone. */
module Sorting {

  /** `less` orders the elements strictly, and any two different ones one way or the other. */
  ghost predicate Orders<T(!new)>(less: (T, T) -> bool, xs: set<T>) {
    && (forall a :: a in xs ==> !less(a, a))
    && (forall a, b :: a in xs && b in xs && a != b ==> less(a, b) || less(b, a))
    && (forall a, b, c :: a in xs && b in xs && c in xs && less(a, b) && less(b, c) ==> less(a, c))
  }

  function Insert<T>(less: (T, T) -> bool, sorted: seq<T>, x: T): seq<T> {
    if sorted == [] || !less(x, sorted[|sorted| - 1]) then sorted + [x]
    else Insert(less, sorted[..|sorted| - 1], x) + [sorted[|sorted| - 1]]
  }

  /** `sorted(xs, key=...)`. */
  function Sorted<T>(less: (T, T) -> bool, xs: seq<T>): seq<T> {
    if xs == [] then [] else Insert(less, Sorted(less, xs[..|xs| - 1]), xs[|xs| - 1])
  }

  function Elements<T>(xs: seq<T>): set<T> {
    set x | x in xs
  }

  /** Every element once. */
  predicate Once<T(==)>(xs: seq<T>) {
    forall i, j :: 0 <= i < j < |xs| ==> xs[i] != xs[j]
  }

  ghost predicate InOrder<T>(less: (T, T) -> bool, xs: seq<T>) {
    forall i, j :: 0 <= i < j < |xs| ==> less(xs[i], xs[j])
  }

  lemma {:induction false} InsertSorts<T(!new)>(less: (T, T) -> bool, sorted: seq<T>, x: T)
    requires InOrder(less, sorted) && x !in sorted && Orders(less, Elements(sorted + [x]))
    ensures InOrder(less, Insert(less, sorted, x))
    ensures forall y :: y in Insert(less, sorted, x) <==> y in sorted || y == x
  {
    if sorted != [] {
      var front, last := sorted[..|sorted| - 1], sorted[|sorted| - 1];
      assert sorted == front + [last];
      assert last in Elements(sorted + [x]) && x in Elements(sorted + [x]) && last != x;
      if less(x, last) {
        Smaller(less, Elements(sorted + [x]), Elements(front + [x]));
        InsertSorts(less, front, x);
        var r := Insert(less, front, x);
        forall i | 0 <= i < |r| ensures less(r[i], last) {
          assert r[i] in r;
          if r[i] != x {
            var j :| 0 <= j < |front| && front[j] == r[i];
            assert sorted[j] == r[i];
          }
        }
      } else {
        forall i | 0 <= i < |sorted| ensures less(sorted[i], x) {
          assert sorted[i] in Elements(sorted + [x]);
          if i < |sorted| - 1 {
            assert less(sorted[i], last);
          }
        }
      }
    }
  }

  lemma Smaller<T(!new)>(less: (T, T) -> bool, xs: set<T>, ys: set<T>)
    requires Orders(less, xs) && ys <= xs
    ensures Orders(less, ys)
  {
  }

  /** Sorting puts the same elements in order. */
  lemma {:induction false} SortSorts<T(!new)>(less: (T, T) -> bool, xs: seq<T>)
    requires Once(xs) && Orders(less, Elements(xs))
    ensures InOrder(less, Sorted(less, xs))
    ensures forall y :: y in Sorted(less, xs) <==> y in xs
  {
    if xs != [] {
      var front, last := xs[..|xs| - 1], xs[|xs| - 1];
      assert xs == front + [last];
      Smaller(less, Elements(xs), Elements(front));
      SortSorts(less, front);
      var sorted := Sorted(less, front);
      assert last !in front;
      assert Elements(sorted + [last]) == Elements(xs);
      InsertSorts(less, sorted, last);
    }
  }

  /** There is only one way to put elements in order. */
  lemma {:induction false} OneOrder<T(!new)>(less: (T, T) -> bool, a: seq<T>, b: seq<T>)
    requires InOrder(less, a) && InOrder(less, b) && Orders(less, Elements(a))
    requires forall x :: x in a <==> x in b
    ensures a == b
  {
    FirstIsIn(a);
    FirstIsIn(b);
    if a != [] {
      HeadsAgree(less, a, b);
      TailsAgree(less, a, b);
      Smaller(less, Elements(a), Elements(a[1..]));
      OneOrder(less, a[1..], b[1..]);
    }
  }

  lemma FirstIsIn<T>(a: seq<T>)
    ensures a != [] ==> a[0] in a
  {
  }

  lemma FirstIsLeast<T(!new)>(less: (T, T) -> bool, a: seq<T>, x: T)
    requires InOrder(less, a) && x in a
    ensures x == a[0] || less(a[0], x)
  {
  }

  lemma Asymmetric<T(!new)>(less: (T, T) -> bool, xs: set<T>, a: T, b: T)
    requires Orders(less, xs) && a in xs && b in xs
    ensures !less(a, b) || !less(b, a)
  {
  }

  lemma HeadsAgree<T(!new)>(less: (T, T) -> bool, a: seq<T>, b: seq<T>)
    requires InOrder(less, a) && InOrder(less, b) && Orders(less, Elements(a)) && a != []
    requires forall x :: x in a <==> x in b
    ensures b != [] && a[0] == b[0]
  {
    hide InOrder, Orders;
    FirstIsIn(a);
    FirstIsIn(b);
    FirstIsLeast(less, a, b[0]);
    FirstIsLeast(less, b, a[0]);
    Asymmetric(less, Elements(a), a[0], b[0]);
  }

  lemma TailsAgree<T(!new)>(less: (T, T) -> bool, a: seq<T>, b: seq<T>)
    requires InOrder(less, a) && InOrder(less, b) && Orders(less, Elements(a)) && a != [] && b != [] && a[0] == b[0]
    requires forall x :: x in a <==> x in b
    ensures forall x :: x in a[1..] <==> x in b[1..]
  {
    hide InOrder, Orders;
    NotAgain(less, a);
    assert Elements(b) == Elements(a);
    NotAgain(less, b);
    forall x ensures x in a[1..] <==> x in b[1..] {
      HeadOrTail(a, x);
      HeadOrTail(b, x);
    }
  }

  lemma HeadOrTail<T>(a: seq<T>, x: T)
    requires a != []
    ensures x in a <==> x == a[0] || x in a[1..]
  {
    assert a == [a[0]] + a[1..];
  }

  lemma NotAgain<T(!new)>(less: (T, T) -> bool, a: seq<T>)
    requires InOrder(less, a) && Orders(less, Elements(a)) && a != []
    ensures a[0] !in a[1..]
  {
    assert a[0] in Elements(a);
    forall i | 0 <= i < |a[1..]| ensures a[1..][i] != a[0] {
      assert a[1..][i] == a[i + 1] && less(a[0], a[i + 1]);
    }
  }

  /** Sorting forgets the order it started from. */
  lemma SortForgetsOrder<T(!new)>(less: (T, T) -> bool, a: seq<T>, b: seq<T>)
    requires Once(a) && Once(b) && Orders(less, Elements(a)) && forall x :: x in a <==> x in b
    ensures Sorted(less, a) == Sorted(less, b)
  {
    assert Elements(a) == Elements(b);
    SortSorts(less, a);
    SortSorts(less, b);
    assert Elements(Sorted(less, a)) == Elements(a);
    OneOrder(less, Sorted(less, a), Sorted(less, b));
  }

  // ---- strings ----

  /** Strings by their characters, a prefix first. */
  predicate Before(a: string, b: string) {
    b != [] && (a == [] || a[0] < b[0] || (a[0] == b[0] && Before(a[1..], b[1..])))
  }

  lemma {:induction false} BeforeOrders(a: string, b: string, c: string)
    ensures !Before(a, a)
    ensures a != b ==> Before(a, b) || Before(b, a)
    ensures Before(a, b) && Before(b, c) ==> Before(a, c)
    decreases |a|
  {
    if a != [] {
      BeforeOrders(a[1..], if b != [] then b[1..] else [], if c != [] then c[1..] else []);
      if b != [] && a[0] == b[0] && a != b {
        assert a == [a[0]] + a[1..] && b == [b[0]] + b[1..];
      }
    }
  }

  /** Up to some place the texts agree; there the first one ends, or has the smaller character. */
  ghost predicate BeforeAt(a: string, b: string, n: nat) {
    && n <= |a| && n < |b| && a[..n] == b[..n] && (n < |a| ==> a[n] < b[n])
  }

  lemma FirstAgrees(a: string, b: string, n: nat)
    requires BeforeAt(a, b, n)
    ensures n > 0 ==> a != [] && b != [] && a[0] == b[0]
  {
    if n > 0 {
      assert a[..n][0] == a[0] && b[..n][0] == b[0];
    }
  }

  lemma {:induction false} BeforeIs(a: string, b: string)
    ensures Before(a, b) <==> exists n: nat :: BeforeAt(a, b, n)
    decreases |a|
  {
    if a == [] || b == [] || a[0] != b[0] {
      if b != [] && (a == [] || a[0] < b[0]) {
        assert BeforeAt(a, b, 0);
      }
      forall n: nat | BeforeAt(a, b, n) ensures n == 0 {
        FirstAgrees(a, b, n);
      }
    } else {
      BeforeIs(a[1..], b[1..]);
      forall n: nat | BeforeAt(a[1..], b[1..], n) ensures BeforeAt(a, b, n + 1) {
        assert a[..n + 1] == [a[0]] + a[1..][..n] && b[..n + 1] == [b[0]] + b[1..][..n];
      }
      forall n: nat | BeforeAt(a, b, n) ensures n > 0 && BeforeAt(a[1..], b[1..], n - 1) {
        assert n > 0;
        assert a[1..][..n - 1] == a[..n][1..] && b[1..][..n - 1] == b[..n][1..];
      }
    }
  }
}
