/** `cdf(a)`: the empirical cumulative distribution function of the data `a`.
    The call sorts a copy `x` of `a`; the function it returns maps `z` to
    `searchsorted(x, z, 'right') / len(x)`, the share of data points `<= z`. */
module EmpiricalCdf {
  import opened Outcomes
  import opened Vectors
  import opened Sorting

  function RealLe(x: real, y: real): bool
  {
    x <= y
  }

  /** The number of data points `<= z`. */
  function CountLeq(a: seq<real>, z: real): (k: nat)
    ensures k <= |a|
  {
    if |a| == 0 then 0 else (if a[0] <= z then 1 else 0) + CountLeq(a[1..], z)
  }

  /** `np.searchsorted(x, z, 'right')` on a sorted `x`: the index that splits
      `x` into the points `<= z` and the points `> z`, found by bisection. */
  function SearchSortedRight(x: seq<real>, z: real, lo: nat, hi: nat): (k: nat)
    requires SortedBy(x, RealLe)
    requires lo <= hi <= |x|
    requires forall i :: 0 <= i < lo ==> x[i] <= z
    requires forall i :: hi <= i < |x| ==> x[i] > z
    ensures lo <= k <= hi
    ensures forall i :: 0 <= i < k ==> x[i] <= z
    ensures forall i :: k <= i < |x| ==> x[i] > z
    decreases hi - lo
  {
    if lo == hi then lo
    else
      var mid := (lo + hi) / 2;
      if x[mid] <= z then SearchSortedRight(x, z, mid + 1, hi)
      else SearchSortedRight(x, z, lo, mid)
  }

  /** `f(z) = searchsorted(x, z, 'right') * 1.0 / len(x)` on the sorted copy
      `x`; an empty `x` divides 0 by 0, which is not a number. */
  function CdfEval(x: seq<real>, z: real): (r: Option<real>)
    requires SortedBy(x, RealLe)
    ensures r.None? <==> |x| == 0
  {
    if |x| == 0 then None
    else Some(SearchSortedRight(x, z, 0, |x|) as real / |x| as real)
  }

  /** The share of the points of `a` that are `<= z`, for any order of `a`. */
  function EmpiricalShare(a: seq<real>, z: real): (r: Option<real>)
    ensures r.None? <==> |a| == 0
  {
    if |a| == 0 then None else Some(CountLeq(a, z) as real / |a| as real)
  }

  /** `cdf(a)`: `x = np.array(a, copy=True); x.sort()`. Returns the sorted
      copy `x` that `f` reads, at which `f` is the share of the points of `a`
      that are `<= z`; `a` itself is left as it was. */
  method Cdf(a: array<real>) returns (x: array<real>)
    ensures fresh(x)
    ensures SortedBy(x[..], RealLe)
    ensures multiset(x[..]) == multiset(a[..])
    ensures forall z :: CdfEval(x[..], z) == EmpiricalShare(a[..], z)
    ensures a[..] == old(a[..])
  {
    x := new real[a.Length];
    forall i | 0 <= i < a.Length {
      x[i] := a[i];
    }
    assert x[..] == a[..];
    RealLeTotalPreorder();
    InsertionSort(x, RealLe);
    forall z {
      CdfEvalIsShare(a[..], x[..], z);
    }
  }

  // ------------------------------------------------------------ lemmas

  lemma RealLeTotalPreorder()
    ensures TotalPreorder(RealLe) && Antisymmetric(RealLe)
  {
  }

  lemma {:induction false} CountLeqAppend(s: seq<real>, t: seq<real>, z: real)
    ensures CountLeq(s + t, z) == CountLeq(s, z) + CountLeq(t, z)
  {
    if |s| > 0 {
      assert (s + t)[1..] == s[1..] + t;
      CountLeqAppend(s[1..], t, z);
    } else {
      assert s + t == t;
    }
  }

  /** Dropping the point at `j` removes its own contribution to the count. */
  lemma CountLeqRemove(b: seq<real>, j: nat, z: real)
    requires j < |b|
    ensures CountLeq(b, z) == CountLeq(b[..j] + b[j + 1..], z) + (if b[j] <= z then 1 else 0)
  {
    assert b == b[..j] + [b[j]] + b[j + 1..];
    CountLeqAppend(b[..j] + [b[j]], b[j + 1..], z);
    CountLeqAppend(b[..j], [b[j]], z);
    CountLeqAppend(b[..j], b[j + 1..], z);
  }

  /** Removing the same value from two equal multisets. */
  lemma MultisetRemove(a: seq<real>, b: seq<real>, j: nat)
    requires |a| > 0 && j < |b| && b[j] == a[0]
    requires multiset(a) == multiset(b)
    ensures multiset(a[1..]) == multiset(b[..j] + b[j + 1..])
  {
    var rest := b[..j] + b[j + 1..];
    assert b == b[..j] + [b[j]] + b[j + 1..];
    assert multiset(b) == multiset(rest) + multiset{a[0]};
    assert a == [a[0]] + a[1..];
    assert multiset(a) == multiset(a[1..]) + multiset{a[0]};
    assert multiset(a[1..]) == multiset(a) - multiset{a[0]};
    assert multiset(rest) == multiset(b) - multiset{a[0]};
  }

  /** The count depends only on the multiset of the data: sorting keeps it. */
  lemma {:induction false} CountLeqPermutation(a: seq<real>, b: seq<real>, z: real)
    requires multiset(a) == multiset(b)
    ensures CountLeq(a, z) == CountLeq(b, z)
    decreases |a|
  {
    assert |a| == |multiset(a)| == |b|;
    if |a| > 0 {
      assert a[0] in multiset(b);
      var j :| 0 <= j < |b| && b[j] == a[0];
      MultisetRemove(a, b, j);
      CountLeqPermutation(a[1..], b[..j] + b[j + 1..], z);
      CountLeqRemove(b, j, z);
    }
  }

  /** On sorted data the points `<= z` form a prefix, whose length is the count. */
  lemma {:induction false} PrefixCount(x: seq<real>, z: real, k: nat)
    requires k <= |x|
    requires forall i :: 0 <= i < k ==> x[i] <= z
    requires forall i :: k <= i < |x| ==> x[i] > z
    ensures CountLeq(x, z) == k
  {
    if |x| > 0 {
      if k > 0 {
        PrefixCount(x[1..], z, k - 1);
      } else {
        PrefixCount(x[1..], z, 0);
      }
    }
  }

  /** `f(z)` is the share of the data `<= z`: evaluating on the sorted copy
      gives the count over the original data. */
  lemma CdfEvalIsShare(a: seq<real>, x: seq<real>, z: real)
    requires SortedBy(x, RealLe) && multiset(x) == multiset(a)
    ensures CdfEval(x, z) == EmpiricalShare(a, z)
  {
    assert |x| == |multiset(x)| == |a|;
    if |x| > 0 {
      PrefixCount(x, z, SearchSortedRight(x, z, 0, |x|));
      CountLeqPermutation(x, a, z);
    }
  }

  lemma {:induction false} CountLeqMonotone(a: seq<real>, z1: real, z2: real)
    requires z1 <= z2
    ensures CountLeq(a, z1) <= CountLeq(a, z2)
  {
    if |a| > 0 {
      CountLeqMonotone(a[1..], z1, z2);
    }
  }

  /** A share `k / n` with `k <= n` lies in [0, 1]. */
  lemma ShareBounds(k: nat, n: nat)
    requires 0 < n && k <= n
    ensures 0.0 <= k as real / n as real <= 1.0
  {
    var q := k as real / n as real;
    assert q * n as real == k as real;
    assert (1.0 - q) * n as real == n as real - k as real;
    NonNegativeFactor(q, n as real);
    NonNegativeFactor(1.0 - q, n as real);
  }

  /** `k1 / n <= k2 / n` when `k1 <= k2`. */
  lemma ShareMonotone(k1: nat, k2: nat, n: nat)
    requires 0 < n && k1 <= k2
    ensures k1 as real / n as real <= k2 as real / n as real
  {
    var q1 := k1 as real / n as real;
    var q2 := k2 as real / n as real;
    assert q1 * n as real == k1 as real && q2 * n as real == k2 as real;
    assert (q2 - q1) * n as real == k2 as real - k1 as real;
    NonNegativeFactor(q2 - q1, n as real);
  }

  /** The share never decreases as `z` grows. */
  lemma ShareMonotoneInZ(a: seq<real>, z1: real, z2: real)
    requires |a| > 0 && z1 <= z2
    ensures EmpiricalShare(a, z1).value <= EmpiricalShare(a, z2).value
  {
    CountLeqMonotone(a, z1, z2);
    ShareMonotone(CountLeq(a, z1), CountLeq(a, z2), |a|);
  }

  lemma ShareInUnitInterval(a: seq<real>, z: real)
    requires |a| > 0
    ensures 0.0 <= EmpiricalShare(a, z).value <= 1.0
  {
    ShareBounds(CountLeq(a, z), |a|);
  }

  lemma {:induction false} CountLeqAll(a: seq<real>, z: real)
    requires forall i :: 0 <= i < |a| ==> a[i] <= z
    ensures CountLeq(a, z) == |a|
  {
    if |a| > 0 {
      CountLeqAll(a[1..], z);
    }
  }

  lemma {:induction false} CountLeqNone(a: seq<real>, z: real)
    requires forall i :: 0 <= i < |a| ==> a[i] > z
    ensures CountLeq(a, z) == 0
  {
    if |a| > 0 {
      CountLeqNone(a[1..], z);
    }
  }

  /** At and above the largest point the share is 1. */
  lemma ShareAtMax(a: seq<real>, z: real)
    requires |a| > 0 && z >= MaxOf(a)
    ensures EmpiricalShare(a, z) == Some(1.0)
  {
    assert forall i :: 0 <= i < |a| ==> a[i] <= z;
    CountLeqAll(a, z);
    QuotientSelf(|a| as real);
  }

  /** Below the smallest point the share is 0. */
  lemma ShareBelowMin(a: seq<real>, z: real)
    requires |a| > 0 && forall i :: 0 <= i < |a| ==> z < a[i]
    ensures EmpiricalShare(a, z) == Some(0.0)
  {
    CountLeqNone(a, z);
  }

  /** `cdf([5, 10, 15])` at 5, 9, 13, 15 and 100. */
  lemma ExampleDistinct()
    ensures EmpiricalShare([5.0, 10.0, 15.0], 5.0) == Some(1.0 / 3.0)
    ensures EmpiricalShare([5.0, 10.0, 15.0], 9.0) == Some(1.0 / 3.0)
    ensures EmpiricalShare([5.0, 10.0, 15.0], 13.0) == Some(2.0 / 3.0)
    ensures EmpiricalShare([5.0, 10.0, 15.0], 15.0) == Some(1.0)
    ensures EmpiricalShare([5.0, 10.0, 15.0], 100.0) == Some(1.0)
  {
    var a := [5.0, 10.0, 15.0];
    assert a[1..] == [10.0, 15.0] && a[1..][1..] == [15.0];
  }

  /** `cdf([5, 5, 15])` at 0, 5 and 15: both copies of 5 count, p(x <= 5) = 2/3. */
  lemma ExampleTies()
    ensures EmpiricalShare([5.0, 5.0, 15.0], 0.0) == Some(0.0)
    ensures EmpiricalShare([5.0, 5.0, 15.0], 5.0) == Some(2.0 / 3.0)
    ensures EmpiricalShare([5.0, 5.0, 15.0], 15.0) == Some(1.0)
  {
    var a := [5.0, 5.0, 15.0];
    assert a[1..] == [5.0, 15.0] && a[1..][1..] == [15.0];
  }
}
