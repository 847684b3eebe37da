/** Stable insertion sort, and counting how many intervals of a list cover a point, which
    sorting does not change. */
module Sorting {

  function Insert<T>(s: seq<T>, x: T, le: (T, T) -> bool): seq<T> {
    if s == [] then [x]
    else if le(s[0], x) then [s[0]] + Insert(s[1..], x, le)
    else [x] + s
  }

  /** Python's `sorted`: equal elements keep their order. */
  function Sort<T>(s: seq<T>, le: (T, T) -> bool): seq<T> {
    if s == [] then [] else Insert(Sort(s[..|s| - 1], le), s[|s| - 1], le)
  }

  ghost predicate TotalOrder<T(!new)>(le: (T, T) -> bool) {
    && (forall a, b :: le(a, b) || le(b, a))
    && (forall a, b, c :: le(a, b) && le(b, c) ==> le(a, c))
  }

  ghost predicate Ordered<T>(s: seq<T>, le: (T, T) -> bool) {
    forall i, j :: 0 <= i < j < |s| ==> le(s[i], s[j])
  }

  lemma {:induction false} InsertKeepsOrder<T(!new)>(s: seq<T>, x: T, le: (T, T) -> bool)
    requires TotalOrder(le) && Ordered(s, le)
    ensures Ordered(Insert(s, x, le), le)
    ensures forall y :: y in Insert(s, x, le) <==> y in s || y == x
  {
    if s != [] {
      assert s == [s[0]] + s[1..];
      if le(s[0], x) {
        InsertKeepsOrder(s[1..], x, le);
        var rest := Insert(s[1..], x, le);
        forall j | 0 <= j < |rest|
          ensures le(s[0], rest[j])
        {
          assert rest[j] in rest;
        }
      } else {
        forall j | 0 <= j < |s|
          ensures le(x, s[j])
        {
          assert j > 0 ==> le(s[0], s[j]);
        }
      }
    }
  }

  lemma {:induction false} SortIsOrdered<T(!new)>(s: seq<T>, le: (T, T) -> bool)
    requires TotalOrder(le)
    ensures Ordered(Sort(s, le), le)
    ensures forall y :: y in Sort(s, le) <==> y in s
  {
    if s != [] {
      SortIsOrdered(s[..|s| - 1], le);
      InsertKeepsOrder(Sort(s[..|s| - 1], le), s[|s| - 1], le);
      assert s == s[..|s| - 1] + [s[|s| - 1]];
    }
  }

  // ------------------------------------------------------------------ covering

  function One<T>(r: T, lo: T -> int, hi: T -> int, x: int): nat {
    if lo(r) <= x < hi(r) then 1 else 0
  }

  /** How many intervals of the list contain `x`. */
  function Cover<T>(s: seq<T>, lo: T -> int, hi: T -> int, x: int): nat {
    if s == [] then 0 else One(s[0], lo, hi, x) + Cover(s[1..], lo, hi, x)
  }

  lemma {:induction false} CoverAppend<T>(a: seq<T>, b: seq<T>, lo: T -> int, hi: T -> int, x: int)
    ensures Cover(a + b, lo, hi, x) == Cover(a, lo, hi, x) + Cover(b, lo, hi, x)
  {
    if a == [] {
      assert a + b == b;
    } else {
      assert (a + b)[1..] == a[1..] + b;
      CoverAppend(a[1..], b, lo, hi, x);
    }
  }

  lemma {:induction false} InsertKeepsCover<T>(s: seq<T>, y: T, le: (T, T) -> bool, lo: T -> int, hi: T -> int, x: int)
    ensures Cover(Insert(s, y, le), lo, hi, x) == Cover(s, lo, hi, x) + One(y, lo, hi, x)
  {
    if s != [] && le(s[0], y) {
      InsertKeepsCover(s[1..], y, le, lo, hi, x);
      assert Insert(s, y, le)[1..] == Insert(s[1..], y, le);
    } else {
      assert Insert(s, y, le)[1..] == s;
    }
  }

  lemma {:induction false} SortKeepsCover<T>(s: seq<T>, le: (T, T) -> bool, lo: T -> int, hi: T -> int, x: int)
    ensures Cover(Sort(s, le), lo, hi, x) == Cover(s, lo, hi, x)
  {
    if s != [] {
      var front, last := s[..|s| - 1], s[|s| - 1];
      SortKeepsCover(front, le, lo, hi, x);
      InsertKeepsCover(Sort(front, le), last, le, lo, hi, x);
      assert s == front + [last];
      CoverAppend(front, [last], lo, hi, x);
      assert Cover([last], lo, hi, x) == One(last, lo, hi, x);
    }
  }

  lemma {:induction false} CoverAt<T>(s: seq<T>, lo: T -> int, hi: T -> int, i: nat, x: int)
    requires i < |s| && lo(s[i]) <= x < hi(s[i])
    ensures Cover(s, lo, hi, x) >= 1
    decreases |s|
  {
    if i > 0 {
      CoverAt(s[1..], lo, hi, i - 1, x);
    }
  }

  lemma {:induction false} CoverTwice<T>(s: seq<T>, lo: T -> int, hi: T -> int, i: nat, j: nat, x: int)
    requires i < j < |s| && lo(s[i]) <= x < hi(s[i]) && lo(s[j]) <= x < hi(s[j])
    ensures Cover(s, lo, hi, x) >= 2
    decreases |s|
  {
    if i > 0 {
      CoverTwice(s[1..], lo, hi, i - 1, j - 1, x);
    } else {
      CoverAt(s[1..], lo, hi, j - 1, x);
    }
  }

  /** Each point of `[from, n)` is covered once, and no other point is covered. */
  ghost predicate CoversOnce<T>(s: seq<T>, lo: T -> int, hi: T -> int, from: int, n: int) {
    forall x :: Cover(s, lo, hi, x) == if from <= x < n then 1 else 0
  }

  /** The intervals follow each other without a gap, from `from` to `n`. */
  predicate Chained<T>(s: seq<T>, lo: T -> int, hi: T -> int, from: int, n: int) {
    if s == [] then from == n
    else lo(s[0]) == from && Chained(s[1..], lo, hi, hi(s[0]), n)
  }

  predicate NonEmpty<T>(s: seq<T>, lo: T -> int, hi: T -> int) {
    forall i :: 0 <= i < |s| ==> lo(s[i]) < hi(s[i])
  }

  ghost predicate ByStart<T>(s: seq<T>, lo: T -> int) {
    forall i, j :: 0 <= i < j < |s| ==> lo(s[i]) <= lo(s[j])
  }

  lemma {:induction false} NoCoverBefore<T>(s: seq<T>, lo: T -> int, hi: T -> int, x: int)
    requires forall i :: 0 <= i < |s| ==> x < lo(s[i])
    ensures Cover(s, lo, hi, x) == 0
  {
    if s != [] {
      NoCoverBefore(s[1..], lo, hi, x);
    }
  }

  /** Ordered by their starts, non-empty intervals cover every point once exactly when each
      starts where the one before it ends. */
  lemma {:induction false} ChainedCoversOnce<T>(s: seq<T>, lo: T -> int, hi: T -> int, from: int, n: int)
    requires ByStart(s, lo) && NonEmpty(s, lo, hi) && from <= n
    ensures Chained(s, lo, hi, from, n) <==> CoversOnce(s, lo, hi, from, n)
    ensures Chained(s, lo, hi, from, n) && s != [] ==> hi(s[0]) <= n
  {
    if s == [] {
      if from < n {
        assert Cover(s, lo, hi, from) == 0;
      }
    } else {
      var r, rest := s[0], s[1..];
      assert forall x :: Cover(s, lo, hi, x) == One(r, lo, hi, x) + Cover(rest, lo, hi, x);
      if Chained(s, lo, hi, from, n) {
        ChainEnd(rest, lo, hi, hi(r), n);
        ChainedCoversOnce(rest, lo, hi, hi(r), n);
      }
      if CoversOnce(s, lo, hi, from, n) {
        FirstStarts(s, lo, hi, from, n);
        forall x
          ensures Cover(rest, lo, hi, x) == if hi(r) <= x < n then 1 else 0
        {
          assert Cover(s, lo, hi, x) == if from <= x < n then 1 else 0;
        }
        ChainedCoversOnce(rest, lo, hi, hi(r), n);
      }
    }
  }

  lemma {:induction false} ChainEnd<T>(s: seq<T>, lo: T -> int, hi: T -> int, from: int, n: int)
    requires Chained(s, lo, hi, from, n) && NonEmpty(s, lo, hi)
    ensures from <= n
  {
    if s != [] {
      ChainEnd(s[1..], lo, hi, hi(s[0]), n);
    }
  }

  lemma FirstStarts<T>(s: seq<T>, lo: T -> int, hi: T -> int, from: int, n: int)
    requires s != [] && ByStart(s, lo) && NonEmpty(s, lo, hi) && from <= n && CoversOnce(s, lo, hi, from, n)
    ensures lo(s[0]) == from && hi(s[0]) <= n
  {
    assert Cover(s, lo, hi, lo(s[0])) >= 1;
    assert Cover(s, lo, hi, hi(s[0]) - 1) >= 1;
    if from < lo(s[0]) {
      NoCoverBefore(s, lo, hi, from);
    }
  }
}
