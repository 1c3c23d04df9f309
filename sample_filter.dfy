/** The noise-rejecting filter that ReadTemp applies to one batch of
    readings: sort, drop the lowest and highest thirds when the batch has
    more than five values, and average what is left. Temperatures are exact
    reals (an idealisation of float64). */
module SampleFilter {
  import opened Base

  /** Batches longer than this are trimmed before averaging. */
  const TrimThreshold := 5

  /** The linear conversion `(raw - 500) / 10` from an analog value to
      degrees Celsius; it is inverted by `10 * t + 500`. */
  function ToCelsius(raw: int): (t: real)
    ensures t * 10.0 + 500.0 == raw as real
  {
    (raw - 500) as real / 10.0
  }

  predicate Sorted(s: seq<real>) {
    forall i, j :: 0 <= i < j < |s| ==> s[i] <= s[j]
  }

  /** Dropping the head of an ascending sequence leaves it ascending. */
  lemma SortedTail(s: seq<real>)
    requires |s| > 0 && Sorted(s)
    ensures Sorted(s[1..])
  {
    var tail := s[1..];
    forall i, j | 0 <= i < j < |tail| ensures tail[i] <= tail[j] {
      assert tail[i] == s[i + 1] && tail[j] == s[j + 1];
    }
  }

  /** Inserts `x` before the first value of `s` that is not below it. */
  function Insert(x: real, s: seq<real>): (r: seq<real>)
    ensures |r| == |s| + 1
  {
    if s == [] || x <= s[0] then [x] + s
    else [s[0]] + Insert(x, s[1..])
  }

  /** Insertion adds exactly `x` to the values. */
  lemma {:induction false} InsertAddsValue(x: real, s: seq<real>)
    ensures multiset(Insert(x, s)) == multiset(s) + multiset{x}
  {
    if s != [] && x > s[0] {
      InsertAddsValue(x, s[1..]);
      assert s == [s[0]] + s[1..];
    }
  }

  /** Inserting into an ascending sequence keeps it ascending. */
  lemma {:induction false} InsertKeepsSorted(x: real, s: seq<real>)
    requires Sorted(s)
    ensures Sorted(Insert(x, s))
  {
    if s != [] && x > s[0] {
      var tail := s[1..];
      SortedTail(s);
      InsertKeepsSorted(x, tail);
      InsertAddsValue(x, tail);
      var rest := Insert(x, tail);
      forall k | 0 <= k < |rest| ensures s[0] <= rest[k] {
        assert rest[k] in multiset(tail) + multiset{x};
        if rest[k] != x {
          assert rest[k] in tail;
        }
      }
    }
  }

  /** The ascending copy of a batch (what `slices.Sort` leaves in the slice). */
  function SortedCopy(s: seq<real>): (r: seq<real>)
    ensures |r| == |s|
  {
    if s == [] then [] else Insert(s[0], SortedCopy(s[1..]))
  }

  /** The sorted copy is ascending and holds the same values. */
  lemma {:induction false} SortedCopyIsSortedPermutation(s: seq<real>)
    ensures Sorted(SortedCopy(s)) && multiset(SortedCopy(s)) == multiset(s)
  {
    if s != [] {
      SortedCopyIsSortedPermutation(s[1..]);
      InsertKeepsSorted(s[0], SortedCopy(s[1..]));
      InsertAddsValue(s[0], SortedCopy(s[1..]));
      assert s == [s[0]] + s[1..];
    }
  }

  /** The head of an ascending sequence is below every value in it. */
  lemma SortedHeadIsLeast(s: seq<real>, x: real)
    requires Sorted(s) && x in multiset(s)
    ensures s[0] <= x
  {
    var i :| 0 <= i < |s| && s[i] == x;
    assert i == 0 || s[0] <= s[i];
  }

  /** Two ascending orders of the same values are the same sequence: the
      result of sorting does not depend on the order the values came in. */
  lemma {:induction false} SortedPermutationUnique(a: seq<real>, b: seq<real>)
    requires Sorted(a) && Sorted(b) && multiset(a) == multiset(b)
    ensures a == b
  {
    assert |a| == |multiset(a)| == |multiset(b)| == |b|;
    if a != [] {
      SortedHeadIsLeast(b, a[0]);
      SortedHeadIsLeast(a, b[0]);
      var a', b' := a[1..], b[1..];
      assert a == [a[0]] + a';
      assert b == [b[0]] + b';
      assert multiset(a) == multiset([a[0]] + a') == multiset([a[0]]) + multiset(a');
      assert multiset(b) == multiset([b[0]] + b') == multiset([b[0]]) + multiset(b');
      assert a[0] == b[0];
      assert multiset(a') == multiset(a) - multiset([a[0]]);
      assert multiset(b') == multiset(b) - multiset([b[0]]);
      SortedTail(a);
      SortedTail(b);
      SortedPermutationUnique(a', b');
    }
  }

  function Sum(s: seq<real>): real {
    if s == [] then 0.0 else s[0] + Sum(s[1..])
  }

  /** `stat.Mean(s, nil)`: the sum divided by the count. */
  function Mean(s: seq<real>): (m: real)
    requires |s| > 0
    ensures m * |s| as real == Sum(s)
  {
    Sum(s) / |s| as real
  }

  function Min(s: seq<real>): (m: real)
    requires |s| > 0
    ensures m in s && forall x :: x in s ==> m <= x
  {
    if |s| == 1 then s[0]
    else
      var rest := Min(s[1..]);
      assert forall x :: x in s ==> x == s[0] || x in s[1..];
      if s[0] <= rest then s[0] else rest
  }

  function Max(s: seq<real>): (m: real)
    requires |s| > 0
    ensures m in s && forall x :: x in s ==> x <= m
  {
    if |s| == 1 then s[0]
    else
      var rest := Max(s[1..]);
      assert forall x :: x in s ==> x == s[0] || x in s[1..];
      if s[0] >= rest then s[0] else rest
  }

  /** One more value within the bounds keeps a bounded sum bounded. */
  lemma AddWithinBounds(total: real, x: real, n: real, m: real, lo: real, hi: real)
    requires n * lo <= total <= n * hi && lo <= x <= hi && m == n + 1.0
    ensures m * lo <= x + total <= m * hi
  {
    assert m * lo == n * lo + lo;
    assert m * hi == n * hi + hi;
  }

  lemma {:induction false} SumBounds(s: seq<real>, lo: real, hi: real)
    requires forall x :: x in s ==> lo <= x <= hi
    ensures |s| as real * lo <= Sum(s) <= |s| as real * hi
  {
    if s != [] {
      var tail := s[1..];
      assert forall x :: x in tail ==> x in s;
      SumBounds(tail, lo, hi);
      assert s[0] in s;
      assert Sum(s) == s[0] + Sum(tail);
      AddWithinBounds(Sum(tail), s[0], |tail| as real, |s| as real, lo, hi);
    }
  }

  /** Dividing by a positive count keeps an inequality. */
  lemma DivideBounds(total: real, n: real, lo: real, hi: real)
    requires n > 0.0 && n * lo <= total <= n * hi
    ensures lo <= total / n <= hi
  {
    assert (total - n * lo) / n == total / n - lo;
    assert (n * hi - total) / n == hi - total / n;
  }

  /** A mean lies between any lower and upper bound of the values averaged. */
  lemma MeanBetween(s: seq<real>, lo: real, hi: real)
    requires |s| > 0
    requires forall x :: x in s ==> lo <= x <= hi
    ensures lo <= Mean(s) <= hi
  {
    SumBounds(s, lo, hi);
    DivideBounds(Sum(s), |s| as real, lo, hi);
  }

  lemma {:induction false} SumAppend(a: seq<real>, b: seq<real>)
    ensures Sum(a + b) == Sum(a) + Sum(b)
  {
    if a != [] {
      assert (a + b)[0] == a[0] && (a + b)[1..] == a[1..] + b;
      SumAppend(a[1..], b);
    } else {
      assert a + b == b;
    }
  }

  /** Taking out the value at `k` takes it out of the sum. */
  lemma SumRemove(b: seq<real>, k: nat)
    requires k < |b|
    ensures Sum(b) == b[k] + Sum(b[..k] + b[k + 1..])
  {
    assert b == b[..k] + b[k..];
    SumAppend(b[..k], b[k..]);
    assert b[k..][0] == b[k] && b[k..][1..] == b[k + 1..];
    SumAppend(b[..k], b[k + 1..]);
  }

  /** Taking out the value at `k` takes it out of the multiset. */
  lemma MultisetRemove(b: seq<real>, k: nat)
    requires k < |b|
    ensures multiset(b[..k] + b[k + 1..]) == multiset(b) - multiset{b[k]}
  {
    assert b == b[..k] + [b[k]] + b[k + 1..];
  }

  /** If `a` and `b` hold the same values, `b` holds the head of `a`
      somewhere, and without it holds the same values as the tail of `a`. */
  lemma MatchHead(a: seq<real>, b: seq<real>) returns (k: nat)
    requires |a| > 0 && multiset(a) == multiset(b)
    ensures k < |b| && b[k] == a[0]
    ensures multiset(a[1..]) == multiset(b[..k] + b[k + 1..])
  {
    assert a[0] in multiset(b);
    k :| 0 <= k < |b| && b[k] == a[0];
    MultisetRemove(b, k);
    assert a == [a[0]] + a[1..];
    assert multiset(a[1..]) == multiset(a) - multiset{a[0]};
  }

  /** The sum, hence the mean, does not depend on the order of the values. */
  lemma {:induction false} SumPermutation(a: seq<real>, b: seq<real>)
    requires multiset(a) == multiset(b)
    ensures Sum(a) == Sum(b)
  {
    SameLength(a, b);
    if a != [] {
      var k := MatchHead(a, b);
      var rest := b[..k] + b[k + 1..];
      SumPermutation(a[1..], rest);
      SumRemove(b, k);
    }
  }

  /** How many values are dropped from EACH end of a batch of `n`. */
  function TrimCount(n: nat): (cut: nat)
    ensures n > TrimThreshold ==> 3 * cut <= n < 3 * cut + 3
    ensures n > TrimThreshold ==> 2 * cut < n && n - 2 * cut >= 2
    ensures n <= TrimThreshold ==> cut == 0
  {
    if n > TrimThreshold then n / 3 else 0
  }

  /** The values the mean is taken over: the whole batch when it has at most
      five values, otherwise the middle slice `[n/3, n - n/3)` of its
      ascending copy. */
  function Kept(batch: seq<real>): (k: seq<real>)
    ensures |batch| > 0 ==> |k| > 0
    ensures |k| == |batch| - 2 * TrimCount(|batch|)
  {
    if |batch| > TrimThreshold then
      var sorted := SortedCopy(batch);
      var cut := TrimCount(|batch|);
      assert sorted == sorted[..cut] + sorted[cut .. |batch| - cut] + sorted[|batch| - cut..];
      sorted[cut .. |batch| - cut]
    else
      batch
  }

  /** Every kept value is one of the batch's readings. */
  lemma KeptWithinBatch(batch: seq<real>)
    requires |batch| > 0
    ensures forall x :: x in Kept(batch) ==> Min(batch) <= x <= Max(batch)
  {
    var kept := Kept(batch);
    forall x | x in kept ensures Min(batch) <= x <= Max(batch) {
      if |batch| > TrimThreshold {
        var sorted := SortedCopy(batch);
        SortedCopyIsSortedPermutation(batch);
        var cut := TrimCount(|batch|);
        assert kept == sorted[cut .. |batch| - cut];
        assert x in sorted;
        assert x in multiset(sorted);
      }
      assert x in batch;
    }
  }

  /** The filtered temperature of one batch: an error for an empty batch,
      otherwise the mean of the kept values, which lies between the smallest
      and the largest reading of the batch. */
  function FilteredMean(batch: seq<real>): (r: Result<real>)
    ensures r.Err? <==> |batch| == 0
    ensures r.Err? ==> r.error == NoReadings
    ensures r.Ok? ==> Min(batch) <= r.value <= Max(batch)
  {
    if |batch| == 0 then Err(NoReadings)
    else
      KeptWithinBatch(batch);
      MeanBetween(Kept(batch), Min(batch), Max(batch));
      Ok(Mean(Kept(batch)))
  }

  /** At most five readings: the result is the plain mean of all of them. */
  lemma SmallBatchUntrimmed(batch: seq<real>)
    requires 0 < |batch| <= TrimThreshold
    ensures FilteredMean(batch) == Ok(Sum(batch) / |batch| as real)
  {
  }

  /** More than five readings: the mean is taken over the contiguous middle
      slice of the ascending order, which holds `n - 2*(n/3)` (at least two)
      values. */
  lemma LargeBatchTrimmed(batch: seq<real>)
    requires |batch| > TrimThreshold
    ensures var n := |batch|;
      var kept := SortedCopy(batch)[n / 3 .. n - n / 3];
      |kept| == n - 2 * (n / 3) >= 2 && FilteredMean(batch) == Ok(Mean(kept))
  {
    var n := |batch|;
    assert TrimCount(n) == n / 3;
    assert Kept(batch) == SortedCopy(batch)[n / 3 .. n - n / 3];
    assert FilteredMean(batch) == Ok(Mean(Kept(batch)));
  }

  /** Equal multisets have equal sizes. */
  lemma SameLength(a: seq<real>, b: seq<real>)
    requires multiset(a) == multiset(b)
    ensures |a| == |b|
  {
    assert |a| == |multiset(a)| && |b| == |multiset(b)|;
  }

  /** The mean does not depend on the order of the values. */
  lemma MeanIgnoresOrder(a: seq<real>, b: seq<real>)
    requires |a| > 0 && multiset(a) == multiset(b)
    ensures |b| > 0 && Mean(a) == Mean(b)
  {
    SameLength(a, b);
    SumPermutation(a, b);
  }

  /** For a batch long enough to be trimmed, the kept values do not depend
      on the order of the batch. */
  lemma KeptIgnoresOrder(a: seq<real>, b: seq<real>)
    requires multiset(a) == multiset(b) && |a| > TrimThreshold
    ensures Kept(a) == Kept(b)
  {
    SameLength(a, b);
    var sa, sb := SortedCopy(a), SortedCopy(b);
    SortedCopyIsSortedPermutation(a);
    SortedCopyIsSortedPermutation(b);
    SortedPermutationUnique(sa, sb);
    var n, cut := |a|, TrimCount(|a|);
    assert Kept(a) == sa[cut .. n - cut];
    assert Kept(b) == sb[cut .. n - cut];
  }

  /** The filter depends only on which values were read, not on their order. */
  lemma FilterIgnoresOrder(a: seq<real>, b: seq<real>)
    requires multiset(a) == multiset(b)
    ensures FilteredMean(a) == FilteredMean(b)
  {
    SameLength(a, b);
    if |a| > TrimThreshold {
      KeptIgnoresOrder(a, b);
    } else if |a| > 0 {
      MeanIgnoresOrder(a, b);
      assert Kept(a) == a && Kept(b) == b;
    }
  }

  /** Exchanges two cells of the first `n` cells of `a`. */
  method Swap(a: array<real>, i: nat, j: nat, n: nat)
    requires i < n && j < n && n <= a.Length
    modifies a
    ensures a[i] == old(a[j]) && a[j] == old(a[i])
    ensures forall k :: 0 <= k < a.Length && k != i && k != j ==> a[k] == old(a[k])
    ensures multiset(a[..n]) == multiset(old(a[..n]))
  {
    ghost var before := a[..n];
    a[i], a[j] := a[j], a[i];
    assert a[..n] == before[i := before[j]][j := before[i]];
    SwapKeepsValues(before, i, j);
  }

  /** Exchanging two values of a sequence keeps its values. */
  lemma SwapKeepsValues(s: seq<real>, i: nat, j: nat)
    requires i < |s| && j < |s|
    ensures multiset(s[i := s[j]][j := s[i]]) == multiset(s)
  {
    var t := s[i := s[j]];
    assert multiset(t) == multiset(s) - multiset{s[i]} + multiset{s[j]};
  }

  /** In-place ascending sort of the first `n` cells of `a` (the part of the
      backing array that the Go slice covers): afterwards they hold the
      ascending copy of what they held before. */
  method SortPrefix(a: array<real>, n: nat)
    requires n <= a.Length
    modifies a
    ensures a[..n] == SortedCopy(old(a[..n]))
    ensures a[n..] == old(a[n..])
  {
    ghost var before := a[..n];
    var i := 0;
    while i < n
      invariant 0 <= i <= n
      invariant forall p, q :: 0 <= p < q < i ==> a[p] <= a[q]
      invariant multiset(a[..n]) == multiset(before)
      invariant a[n..] == old(a[n..])
    {
      SiftLeft(a, i, n);
      i := i + 1;
    }
    ghost var after := a[..n];
    assert Sorted(after) by {
      forall p, q | 0 <= p < q < n ensures after[p] <= after[q] {
        assert after[p] == a[p] && after[q] == a[q];
      }
    }
    SortedCopyIsSortedPermutation(before);
    SortedPermutationUnique(after, SortedCopy(before));
  }

  /** One insertion step: the cell `i` moves left past every larger value,
      so that the first `i + 1` cells become ascending. */
  method SiftLeft(a: array<real>, i: nat, n: nat)
    requires i < n <= a.Length
    requires forall p, q :: 0 <= p < q < i ==> a[p] <= a[q]
    modifies a
    ensures forall p, q :: 0 <= p < q <= i ==> a[p] <= a[q]
    ensures multiset(a[..n]) == multiset(old(a[..n]))
    ensures a[n..] == old(a[n..])
  {
    var j := i;
    while j > 0 && a[j - 1] > a[j]
      invariant 0 <= j <= i
      invariant forall p, q :: 0 <= p < q <= i && p != j && q != j ==> a[p] <= a[q]
      invariant forall q :: j < q <= i ==> a[j] <= a[q]
      invariant multiset(a[..n]) == multiset(old(a[..n]))
      invariant a[n..] == old(a[n..])
    {
      Swap(a, j - 1, j, n);
      j := j - 1;
    }
  }
}
