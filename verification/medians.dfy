/**
 * The two medians the filters and handlers use over a window of integer RSSI readings:
 * OutlierDeltaFilter.medianOfDeque (integer: floor of the mean of the two middles for an
 * even count) and the `median`/`smooth` of MedianRssiHandler and RobustMedianEmaHandler
 * (real: the mean of the two middles). Both sort a copy of the window first.
 */
module Medians {
  import opened Sorting

  /** Number of elements of `xs` satisfying `p`. */
  function Count(xs: seq<int>, p: int -> bool): nat
    ensures Count(xs, p) <= |xs|
  {
    if |xs| == 0 then 0 else (if p(xs[0]) then 1 else 0) + Count(xs[1..], p)
  }

  lemma {:induction false} CountAppend(a: seq<int>, b: seq<int>, p: int -> bool)
    ensures Count(a + b, p) == Count(a, p) + Count(b, p)
  {
    if |a| == 0 {
      assert a + b == b;
    } else {
      assert (a + b)[1..] == a[1..] + b;
      CountAppend(a[1..], b, p);
    }
  }

  /** The tail holds the multiset less one copy of the head. */
  lemma MultisetTail(a: seq<int>)
    requires |a| > 0
    ensures multiset(a[1..]) == multiset(a) - multiset{a[0]}
  {
    assert a == [a[0]] + a[1..];
  }

  /** Taking out the element at `k` takes one copy of it out of the multiset. */
  lemma MultisetRemoveAt(b: seq<int>, k: nat)
    requires k < |b|
    ensures multiset(b[..k] + b[k + 1..]) == multiset(b) - multiset{b[k]}
  {
    assert b == b[..k] + [b[k]] + b[k + 1..];
    assert multiset(b) == multiset(b[..k]) + multiset{b[k]} + multiset(b[k + 1..]);
  }

  /** Counting over a split sequence adds up. */
  lemma CountSplitAt(b: seq<int>, i: nat, p: int -> bool)
    requires i <= |b|
    ensures Count(b, p) == Count(b[..i], p) + Count(b[i..], p)
  {
    assert b[..i] + b[i..] == b;
    CountAppend(b[..i], b[i..], p);
  }

  /** One more element of the prefix adds one to the count exactly when it satisfies `p`. */
  lemma CountTakeOneMore(b: seq<int>, k: nat, p: int -> bool)
    requires k < |b|
    ensures Count(b[..k + 1], p) == Count(b[..k], p) + (if p(b[k]) then 1 else 0)
  {
    assert b[..k + 1] == b[..k] + [b[k]];
    assert [b[k]][1..] == [];
    CountAppend(b[..k], [b[k]], p);
  }

  /** Taking out the element at `k` lowers the count by one exactly when it satisfies `p`. */
  lemma CountRemoveAt(b: seq<int>, k: nat, p: int -> bool)
    requires k < |b|
    ensures Count(b, p) == Count(b[..k] + b[k + 1..], p) + (if p(b[k]) then 1 else 0)
  {
    CountSplitAt(b, k + 1, p);
    CountTakeOneMore(b, k, p);
    CountAppend(b[..k], b[k + 1..], p);
  }

  /** Counting does not depend on the order of the elements. */
  lemma {:induction false} CountPermutation(a: seq<int>, b: seq<int>, p: int -> bool)
    requires multiset(a) == multiset(b)
    ensures Count(a, p) == Count(b, p)
  {
    if |a| > 0 {
      assert a[0] in multiset(b);
      var k :| 0 <= k < |b| && b[k] == a[0];
      var rest := b[..k] + b[k + 1..];
      MultisetRemoveAt(b, k);
      MultisetTail(a);
      CountPermutation(a[1..], rest, p);
      CountRemoveAt(b, k, p);
    }
  }

  /** If the first `k` elements satisfy `p`, at least `k` elements do. */
  lemma CountPrefix(s: seq<int>, k: nat, p: int -> bool)
    requires k <= |s|
    requires forall i :: 0 <= i < k ==> p(s[i])
    ensures Count(s, p) >= k
  {
    CountAppend(s[..k], s[k..], p);
    assert s == s[..k] + s[k..];
    CountAll(s[..k], p);
  }

  /** If the elements from index `k` on satisfy `p`, at least `|s| - k` elements do. */
  lemma CountSuffix(s: seq<int>, k: nat, p: int -> bool)
    requires k <= |s|
    requires forall i :: k <= i < |s| ==> p(s[i])
    ensures Count(s, p) >= |s| - k
  {
    CountAppend(s[..k], s[k..], p);
    assert s == s[..k] + s[k..];
    CountAll(s[k..], p);
  }

  lemma {:induction false} CountAll(s: seq<int>, p: int -> bool)
    requires forall i :: 0 <= i < |s| ==> p(s[i])
    ensures Count(s, p) == |s|
  {
    if |s| > 0 {
      CountAll(s[1..], p);
    }
  }

  function SeqMin(xs: seq<int>): (m: int)
    requires |xs| > 0
    ensures forall i :: 0 <= i < |xs| ==> m <= xs[i]
    ensures m in xs
  {
    if |xs| == 1 then xs[0]
    else
      var r := SeqMin(xs[1..]);
      if xs[0] <= r then xs[0] else r
  }

  function SeqMax(xs: seq<int>): (m: int)
    requires |xs| > 0
    ensures forall i :: 0 <= i < |xs| ==> xs[i] <= m
    ensures m in xs
  {
    if |xs| == 1 then xs[0]
    else
      var r := SeqMax(xs[1..]);
      if xs[0] >= r then xs[0] else r
  }

  /** Median of a sorted copy that lies between the two middle elements (they are the same
      element for an odd count) is a median: at least half the window lies on either side. */
  lemma MiddleIsMedian(xs: seq<int>, s: seq<int>, m: real)
    requires |xs| > 0 && |s| == |xs| && multiset(s) == multiset(xs)
    requires forall i, j :: 0 <= i < j < |s| ==> s[i] <= s[j]
    requires s[(|s| - 1) / 2] as real <= m <= s[|s| / 2] as real
    ensures Count(xs, x => x as real <= m) >= (|xs| + 1) / 2
    ensures Count(xs, x => x as real >= m) >= (|xs| + 1) / 2
    ensures SeqMin(xs) as real <= m <= SeqMax(xs) as real
  {
    var n := |s|;
    CountPrefix(s, (n - 1) / 2 + 1, x => x as real <= m);
    CountSuffix(s, n / 2, x => x as real >= m);
    CountPermutation(s, xs, x => x as real <= m);
    CountPermutation(s, xs, x => x as real >= m);
    assert s[(n - 1) / 2] in multiset(xs) && s[n / 2] in multiset(xs);
  }

  predicate Ascending(s: seq<int>) {
    forall i, j :: 0 <= i < j < |s| ==> s[i] <= s[j]
  }

  /** The first element of an ascending sequence is at most every element. */
  lemma AscendingHead(a: seq<int>, x: int)
    requires Ascending(a) && x in a
    ensures a[0] <= x
  {
    var j :| 0 <= j < |a| && a[j] == x;
    if j > 0 {
      assert a[0] <= a[j];
    }
  }

  lemma AscendingTail(a: seq<int>)
    requires Ascending(a) && |a| > 0
    ensures Ascending(a[1..])
  {
    forall i, j | 0 <= i < j < |a| - 1
      ensures a[1..][i] <= a[1..][j]
    {
      assert a[1..][i] == a[i + 1] && a[1..][j] == a[j + 1];
    }
  }

  /** Two ascending orderings of the same non-empty readings start alike, and the rest of
      each holds the same readings. */
  lemma AscendingHeads(a: seq<int>, b: seq<int>)
    requires Ascending(a) && Ascending(b) && multiset(a) == multiset(b) && |a| > 0
    ensures |b| > 0 && a[0] == b[0] && multiset(a[1..]) == multiset(b[1..])
  {
    assert |b| == |multiset(b)| == |a|;
    assert a[0] in multiset(b) && b[0] in multiset(a);
    AscendingHead(a, b[0]);
    AscendingHead(b, a[0]);
    MultisetTail(a);
    MultisetTail(b);
  }

  /** Two ascending orderings of the same readings are the same sequence. */
  lemma {:induction false} AscendingUnique(a: seq<int>, b: seq<int>)
    requires Ascending(a) && Ascending(b) && multiset(a) == multiset(b)
    ensures a == b
    decreases |a|
  {
    if |a| == 0 {
      assert |multiset(b)| == 0;
    } else {
      AscendingHeads(a, b);
      AscendingTail(a);
      AscendingTail(b);
      AscendingUnique(a[1..], b[1..]);
      assert a == [a[0]] + a[1..] && b == [b[0]] + b[1..];
    }
  }

  /** Every ascending ordering of `xs` is the sorted copy. */
  lemma AscendingCopiesAreSorted(xs: seq<int>)
    ensures forall s {:trigger Ascending(s)} :: |s| == |xs| && multiset(s) == multiset(xs) && Ascending(s) ==> s == SortInts(xs)
  {
    forall s | |s| == |xs| && multiset(s) == multiset(xs) && Ascending(s)
      ensures s == SortInts(xs)
    {
      AscendingUnique(s, SortInts(xs));
    }
  }

  /** The middle element of an odd count, otherwise the floor of the two middle elements'
      mean (Java's `(int) Math.floor((a + b) / 2.0)`). */
  function FloorOfMiddles(s: seq<int>): int
    requires |s| > 0
  {
    var n := |s|;
    if n % 2 == 1 then s[n / 2] else (s[n / 2 - 1] + s[n / 2]) / 2
  }

  /** The middle element of an odd count, otherwise the exact mean of the two middle elements. */
  function MeanOfMiddles(s: seq<int>): real
    requires |s| > 0
  {
    var n := |s|;
    if n % 2 == 1 then s[n / 2] as real else (s[n / 2 - 1] + s[n / 2]) as real / 2.0
  }

  /** Both middles of an ascending sequence lie between its two middle elements. */
  lemma MiddlesBetween(s: seq<int>)
    requires |s| > 0 && Ascending(s)
    ensures s[(|s| - 1) / 2] <= FloorOfMiddles(s) <= s[|s| / 2]
    ensures s[(|s| - 1) / 2] as real <= MeanOfMiddles(s) <= s[|s| / 2] as real
  {
    var n := |s|;
    if n % 2 == 0 {
      assert s[n / 2 - 1] <= s[n / 2];
    }
  }

  /** The floored middle of the sorted copy is a median of `xs`, and every ascending ordering
      of `xs` has the same floored middle. */
  lemma FloorMiddleIsMedian(xs: seq<int>)
    requires |xs| > 0
    ensures var m := FloorOfMiddles(SortInts(xs));
            && Count(xs, x => x as real <= m as real) >= (|xs| + 1) / 2
            && Count(xs, x => x as real >= m as real) >= (|xs| + 1) / 2
            && SeqMin(xs) <= m <= SeqMax(xs)
            && forall s {:trigger Ascending(s)} :: |s| == |xs| && multiset(s) == multiset(xs) && Ascending(s) ==>
                 m == FloorOfMiddles(s)
  {
    var s := SortInts(xs);
    MiddlesBetween(s);
    MiddleIsMedian(xs, s, FloorOfMiddles(s) as real);
    AscendingCopiesAreSorted(xs);
  }

  /** The mean middle of the sorted copy is a median of `xs`, and every ascending ordering
      of `xs` has the same mean middle. */
  lemma MeanMiddleIsMedian(xs: seq<int>)
    requires |xs| > 0
    ensures var m := MeanOfMiddles(SortInts(xs));
            && Count(xs, x => x as real <= m) >= (|xs| + 1) / 2
            && Count(xs, x => x as real >= m) >= (|xs| + 1) / 2
            && SeqMin(xs) as real <= m <= SeqMax(xs) as real
            && forall s {:trigger Ascending(s)} :: |s| == |xs| && multiset(s) == multiset(xs) && Ascending(s) ==>
                 m == MeanOfMiddles(s)
  {
    var s := SortInts(xs);
    MiddlesBetween(s);
    MiddleIsMedian(xs, s, MeanOfMiddles(s));
    AscendingCopiesAreSorted(xs);
  }

  /** OutlierDeltaFilter.medianOfDeque: at least half the window on either side, and in any
      ascending ordering the middle element, or the floor of the two middles' mean. */
  function FloorMedian(xs: seq<int>): (m: int)
    requires |xs| > 0
    ensures Count(xs, x => x as real <= m as real) >= (|xs| + 1) / 2
    ensures Count(xs, x => x as real >= m as real) >= (|xs| + 1) / 2
    ensures SeqMin(xs) <= m <= SeqMax(xs)
    ensures forall s {:trigger Ascending(s)} :: |s| == |xs| && multiset(s) == multiset(xs) && Ascending(s) ==>
              m == FloorOfMiddles(s)
  {
    FloorMiddleIsMedian(xs);
    FloorOfMiddles(SortInts(xs))
  }

  /** The median of MedianRssiHandler.smooth and RobustMedianEmaHandler.median: at least half
      the window on either side, and in any ascending ordering the middle element, or the
      real mean of the two middles. */
  function MeanMedian(xs: seq<int>): (m: real)
    requires |xs| > 0
    ensures Count(xs, x => x as real <= m) >= (|xs| + 1) / 2
    ensures Count(xs, x => x as real >= m) >= (|xs| + 1) / 2
    ensures SeqMin(xs) as real <= m <= SeqMax(xs) as real
    ensures forall s {:trigger Ascending(s)} :: |s| == |xs| && multiset(s) == multiset(xs) && Ascending(s) ==>
              m == MeanOfMiddles(s)
  {
    MeanMiddleIsMedian(xs);
    MeanOfMiddles(SortInts(xs))
  }

  /** For a window of one reading, both medians are that reading. */
  lemma SingletonMedian(x: int)
    ensures FloorMedian([x]) == x && MeanMedian([x]) == x as real
  {
  }
}
