/**
 * A stable insertion sort over an arbitrary total preorder. It stands in for Python's
 * `sorted(..., key=...)` and Java's `Collections.sort`/`Arrays.sort`: elements with equal
 * keys keep their input order, because each new element is placed after every element
 * that is not greater than it.
 */
module Sorting {

  ghost predicate TotalPreorder<T(!new)>(le: (T, T) -> bool) {
    && (forall a, b :: le(a, b) || le(b, a))
    && (forall a, b, c :: le(a, b) && le(b, c) ==> le(a, c))
  }

  predicate SortedBy<T>(xs: seq<T>, le: (T, T) -> bool) {
    forall i, j :: 0 <= i < j < |xs| ==> le(xs[i], xs[j])
  }

  /** Places `x` after the longest prefix of `xs` whose elements are `le` to it. */
  function Insert<T>(x: T, xs: seq<T>, le: (T, T) -> bool): (r: seq<T>)
    ensures |r| == |xs| + 1
    ensures multiset(r) == multiset(xs) + multiset{x}
  {
    if |xs| == 0 then [x]
    else if le(xs[0], x) then
      assert xs == [xs[0]] + xs[1..];
      [xs[0]] + Insert(x, xs[1..], le)
    else [x] + xs
  }

  /** Stable sort: the input is consumed from the left, each element inserted into the
      sorted result of the elements before it. */
  function Sort<T>(xs: seq<T>, le: (T, T) -> bool): (r: seq<T>)
    ensures |r| == |xs|
    ensures multiset(r) == multiset(xs)
  {
    if |xs| == 0 then []
    else
      assert xs == xs[..|xs| - 1] + [xs[|xs| - 1]];
      Insert(xs[|xs| - 1], Sort(xs[..|xs| - 1], le), le)
  }

  /** Every element of `xs` is at least `a`. */
  predicate LeAll<T>(a: T, xs: seq<T>, le: (T, T) -> bool) {
    forall j :: 0 <= j < |xs| ==> le(a, xs[j])
  }

  lemma {:induction false} InsertLeAll<T>(a: T, x: T, xs: seq<T>, le: (T, T) -> bool)
    requires LeAll(a, xs, le) && le(a, x)
    ensures LeAll(a, Insert(x, xs, le), le)
  {
    if |xs| > 0 && le(xs[0], x) {
      InsertLeAll(a, x, xs[1..], le);
      assert Insert(x, xs, le) == [xs[0]] + Insert(x, xs[1..], le);
    }
  }

  lemma SortedCons<T>(xs: seq<T>, le: (T, T) -> bool)
    requires |xs| > 0
    ensures SortedBy(xs, le) <==> LeAll(xs[0], xs[1..], le) && SortedBy(xs[1..], le)
  {
    if LeAll(xs[0], xs[1..], le) && SortedBy(xs[1..], le) {
      forall i, j | 0 <= i < j < |xs| ensures le(xs[i], xs[j]) {
        if i == 0 {
          assert xs[j] == xs[1..][j - 1];
        } else {
          assert xs[i] == xs[1..][i - 1] && xs[j] == xs[1..][j - 1];
        }
      }
    }
  }

  lemma {:induction false} InsertSorted<T(!new)>(x: T, xs: seq<T>, le: (T, T) -> bool)
    requires TotalPreorder(le)
    requires SortedBy(xs, le)
    ensures SortedBy(Insert(x, xs, le), le)
  {
    if |xs| == 0 {
    } else if le(xs[0], x) {
      SortedCons(xs, le);
      InsertSorted(x, xs[1..], le);
      InsertLeAll(xs[0], x, xs[1..], le);
      var r := Insert(x, xs, le);
      assert r == [xs[0]] + Insert(x, xs[1..], le);
      SortedCons(r, le);
    } else {
      assert le(x, xs[0]);
      SortedCons(xs, le);
      forall j | 0 <= j < |xs| ensures le(x, xs[j]) {
        if j > 0 {
          assert le(xs[0], xs[j]);
        }
      }
      var r := Insert(x, xs, le);
      assert r == [x] + xs;
      assert r[1..] == xs;
      SortedCons(r, le);
    }
  }

  /** The sort's output is ordered. Together with the multiset ensures of `Sort` it is a
      sorted permutation of the input. */
  lemma {:induction false} SortSorted<T(!new)>(xs: seq<T>, le: (T, T) -> bool)
    requires TotalPreorder(le)
    ensures SortedBy(Sort(xs, le), le)
  {
    if |xs| > 0 {
      SortSorted(xs[..|xs| - 1], le);
      InsertSorted(xs[|xs| - 1], Sort(xs[..|xs| - 1], le), le);
    }
  }

  // ---------------------------------------------------------------- stability

  /** `a` and `b` have equal keys: each is `le` to the other. */
  predicate SameKey<T>(a: T, b: T, le: (T, T) -> bool) {
    le(a, b) && le(b, a)
  }

  /** The elements of `xs` whose key equals `p`'s, in their order in `xs`. */
  function KeyRun<T>(xs: seq<T>, p: T, le: (T, T) -> bool): (r: seq<T>)
    ensures |r| <= |xs|
    ensures forall i :: 0 <= i < |r| ==> SameKey(r[i], p, le)
    decreases |xs|
  {
    if |xs| == 0 then []
    else (if SameKey(xs[0], p, le) then [xs[0]] else []) + KeyRun(xs[1..], p, le)
  }

  lemma {:induction false} KeyRunAppend<T>(a: seq<T>, b: seq<T>, p: T, le: (T, T) -> bool)
    ensures KeyRun(a + b, p, le) == KeyRun(a, p, le) + KeyRun(b, p, le)
    decreases |a|
  {
    if |a| == 0 {
      assert a + b == b;
    } else {
      assert (a + b)[1..] == a[1..] + b;
      KeyRunAppend(a[1..], b, p, le);
    }
  }

  /** A sequence without an element of `p`'s key has an empty run. */
  lemma {:induction false} KeyRunNone<T>(xs: seq<T>, p: T, le: (T, T) -> bool)
    requires forall i :: 0 <= i < |xs| ==> !SameKey(xs[i], p, le)
    ensures KeyRun(xs, p, le) == []
    decreases |xs|
  {
    if |xs| > 0 {
      KeyRunNone(xs[1..], p, le);
    }
  }

  /** In a sorted sequence whose first element is above `x`, no element shares `x`'s key. */
  lemma AboveKey<T(!new)>(x: T, xs: seq<T>, p: T, le: (T, T) -> bool)
    requires TotalPreorder(le) && SortedBy(xs, le)
    requires |xs| > 0 && !le(xs[0], x) && SameKey(x, p, le)
    ensures KeyRun(xs, p, le) == []
  {
    forall i | 0 <= i < |xs| ensures !SameKey(xs[i], p, le) {
      // xs[0] <= xs[i], so xs[i] <= p <= x would put xs[0] under x
      if i > 0 {
        assert le(xs[0], xs[i]);
      }
    }
    KeyRunNone(xs, p, le);
  }

  /** Inserting into a sorted sequence puts `x` after every element of its key. */
  lemma {:induction false} InsertKeyRun<T(!new)>(x: T, xs: seq<T>, p: T, le: (T, T) -> bool)
    requires TotalPreorder(le) && SortedBy(xs, le)
    ensures KeyRun(Insert(x, xs, le), p, le)
            == KeyRun(xs, p, le) + (if SameKey(x, p, le) then [x] else [])
    decreases |xs|
  {
    if |xs| == 0 {
    } else if le(xs[0], x) {
      SortedCons(xs, le);
      InsertKeyRun(x, xs[1..], p, le);
      assert Insert(x, xs, le) == [xs[0]] + Insert(x, xs[1..], le);
      KeyRunAppend([xs[0]], Insert(x, xs[1..], le), p, le);
      KeyRunAppend([xs[0]], xs[1..], p, le);
      assert [xs[0]] + xs[1..] == xs;
    } else {
      assert Insert(x, xs, le) == [x] + xs;
      KeyRunAppend([x], xs, p, le);
      if SameKey(x, p, le) {
        AboveKey(x, xs, p, le);
      }
    }
  }

  /** `Sort` is stable: for every key, the elements with that key come out in the order
      they went in. */
  lemma {:induction false} SortStable<T(!new)>(xs: seq<T>, p: T, le: (T, T) -> bool)
    requires TotalPreorder(le)
    ensures KeyRun(Sort(xs, le), p, le) == KeyRun(xs, p, le)
    decreases |xs|
  {
    if |xs| > 0 {
      var init := xs[..|xs| - 1];
      var x := xs[|xs| - 1];
      SortStable(init, p, le);
      SortSorted(init, le);
      InsertKeyRun(x, Sort(init, le), p, le);
      StableStep(xs, Sort(init, le), p, le);
    }
  }

  /** The last element inserted after the run of its key extends that run as in `xs`. */
  lemma StableStep<T>(xs: seq<T>, sortedInit: seq<T>, p: T, le: (T, T) -> bool)
    requires |xs| > 0
    requires KeyRun(sortedInit, p, le) == KeyRun(xs[..|xs| - 1], p, le)
    requires KeyRun(Insert(xs[|xs| - 1], sortedInit, le), p, le)
             == KeyRun(sortedInit, p, le) + (if SameKey(xs[|xs| - 1], p, le) then [xs[|xs| - 1]] else [])
    ensures KeyRun(Insert(xs[|xs| - 1], sortedInit, le), p, le) == KeyRun(xs, p, le)
  {
    var x := xs[|xs| - 1];
    assert xs == xs[..|xs| - 1] + [x];
    KeyRunAppend(xs[..|xs| - 1], [x], p, le);
  }

  /** The order `<=` on integers. */
  function IntLe(a: int, b: int): bool { a <= b }

  lemma IntLeTotalPreorder()
    ensures TotalPreorder(IntLe)
  {
  }

  /** Sorting integers ascending. */
  function SortInts(xs: seq<int>): (r: seq<int>)
    ensures |r| == |xs| && multiset(r) == multiset(xs)
    ensures forall i, j :: 0 <= i < j < |r| ==> r[i] <= r[j]
  {
    IntLeTotalPreorder();
    SortSorted(xs, IntLe);
    Sort(xs, IntLe)
  }
}
