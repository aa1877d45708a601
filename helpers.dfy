/** The array helpers of `numpy_extras` that stay within exact arithmetic:
    `cumavg`, `normalize`, `lidstone`, `normalize_interval`, `assert_isdistr`
    and `assert_equal`. */
module Helpers {
  import opened Outcomes
  import opened Vectors
  import opened Distances

  /** The tolerance of `assert_isdistr` on the total. */
  const DistrTolerance: real := 0.000001

  // ------------------------------------------------------------- cumavg

  /** `np.cumsum(x)`: the running totals, entry `i` being the sum of the
      first `i + 1` entries. */
  function CumSum(x: seq<real>): (r: seq<real>)
    ensures |r| == |x|
    ensures forall i :: 0 <= i < |x| ==> r[i] == Sum(x[..i + 1])
  {
    if |x| == 0 then []
    else
      var init := x[..|x| - 1];
      var p := CumSum(init);
      var total := (if |p| == 0 then 0.0 else p[|p| - 1]) + x[|x| - 1];
      assert total == Sum(x) by {
        assert init + [x[|x| - 1]] == x;
        SumAppend(init, x[|x| - 1]);
        assert init[..|init|] == init;
      }
      assert x[..|x|] == x;
      assert forall i :: 0 <= i < |init| ==> p[i] == Sum(x[..i + 1]) by {
        forall i | 0 <= i < |init| ensures p[i] == Sum(x[..i + 1]) {
          assert init[..i + 1] == x[..i + 1];
        }
      }
      p + [total]
  }

  /** `cumavg(x) = np.cumsum(x) / np.arange(1.0, len(x) + 1)`: entry `i` is
      the mean of the first `i + 1` entries. */
  function CumAvg(x: seq<real>): (r: seq<real>)
    ensures |r| == |x|
    ensures forall i :: 0 <= i < |x| ==> r[i] == Mean(x[..i + 1])
  {
    var c := CumSum(x);
    seq(|x|, i requires 0 <= i < |x| => c[i] / (i + 1) as real)
  }

  /** The last running average is the mean of the whole vector. */
  lemma CumAvgLast(x: seq<real>)
    requires |x| > 0
    ensures CumAvg(x)[|x| - 1] == Mean(x)
  {
    assert x[..|x|] == x;
  }

  /** Running averages of entries in `[lo, hi]` stay in `[lo, hi]`. */
  lemma {:induction false} CumAvgBounds(x: seq<real>, lo: real, hi: real)
    requires forall i :: 0 <= i < |x| ==> lo <= x[i] <= hi
    ensures forall i :: 0 <= i < |x| ==> lo <= CumAvg(x)[i] <= hi
  {
    forall i | 0 <= i < |x| ensures lo <= CumAvg(x)[i] <= hi {
      MeanBounds(x[..i + 1], lo, hi);
    }
  }

  /** The doc-test: `cumavg([1,2,3,4,5])` is `[1, 1.5, 2, 2.5, 3]`. */
  lemma ExampleCumAvg()
    ensures CumAvg([1.0, 2.0, 3.0, 4.0, 5.0]) == [1.0, 1.5, 2.0, 2.5, 3.0]
  {
    var x := [1.0, 2.0, 3.0, 4.0, 5.0];
    assert x[..1] == [] + [1.0];
    SumAppend([], 1.0);
    forall k | 1 <= k < 5 ensures Sum(x[..k + 1]) == Sum(x[..k]) + x[k] {
      assert x[..k + 1] == x[..k] + [x[k]];
      SumAppend(x[..k], x[k]);
    }
  }

  // ------------------------------------------------- normalize and lidstone

  /** `v / s`, numpy's quotient of a vector by a scalar. */
  function Divide(v: seq<real>, s: real): (r: seq<real>)
    requires s != 0.0
    ensures |r| == |v| && forall i :: 0 <= i < |v| ==> r[i] == v[i] / s
  {
    seq(|v|, i requires 0 <= i < |v| => v[i] / s)
  }

  /** `p + delta`, numpy's sum of a vector and a scalar. */
  function Shift(v: seq<real>, d: real): (r: seq<real>)
    ensures |r| == |v| && forall i :: 0 <= i < |v| ==> r[i] == v[i] + d
  {
    seq(|v|, i requires 0 <= i < |v| => v[i] + d)
  }

  /** `data - shift`, numpy's difference of a vector and a scalar. */
  function Subtract(v: seq<real>, m: real): (r: seq<real>)
    ensures |r| == |v| && forall i :: 0 <= i < |v| ==> r[i] == v[i] - m
  {
    seq(|v|, i requires 0 <= i < |v| => v[i] - m)
  }

  /** `normalize(p) = p / p.sum()`. A zero total makes numpy divide by zero
      (NaN or infinity), which is `None` here. */
  function Normalize(p: seq<real>): (r: Option<seq<real>>)
    ensures r.None? <==> Sum(p) == 0.0
    ensures r.Some? ==> |r.value| == |p|
    ensures r.Some? ==> forall i :: 0 <= i < |p| ==> r.value[i] * Sum(p) == p[i]
    ensures r.Some? ==> Sum(r.value) == 1.0
  {
    var s := Sum(p);
    if s == 0.0 then None
    else
      SumDivide(p, s);
      QuotientSelfNonZero(s);
      Some(Divide(p, s))
  }

  /** `lidstone(p, delta) = normalize(p + delta)`: add `delta` to every
      entry, then normalise. */
  function Lidstone(p: seq<real>, delta: real): (r: Option<seq<real>>)
    ensures r.None? <==> Sum(p) + |p| as real * delta == 0.0
    ensures r.Some? ==> |r.value| == |p| && Sum(r.value) == 1.0
  {
    SumShift(p, delta);
    Normalize(Shift(p, delta))
  }

  /** `assert_isdistr(p)`: every entry is at least 0, every entry is at
      most 1, and the total is within `1e-6` of 1, asserted in that order. */
  function AssertIsDistr(p: seq<real>): (r: Result<()>)
    ensures r.Ok? <==>
      (forall i :: 0 <= i < |p| ==> 0.0 <= p[i] <= 1.0) && Abs(Sum(p) - 1.0) < DistrTolerance
    ensures r.Err? ==> r.error == AssertionFailed
  {
    if !(forall i :: 0 <= i < |p| ==> p[i] >= 0.0) then Err(AssertionFailed)
    else if !(forall i :: 0 <= i < |p| ==> p[i] <= 1.0) then Err(AssertionFailed)
    else if !(Abs(Sum(p) - 1.0) < DistrTolerance) then Err(AssertionFailed)
    else Ok(())
  }

  /** Normalising a non-negative vector that is not all zero gives a
      distribution that `assert_isdistr` accepts. */
  lemma {:induction false} NormalizeIsDistr(p: seq<real>)
    requires forall i :: 0 <= i < |p| ==> p[i] >= 0.0
    requires !IsZero(p)
    ensures Normalize(p).Some? && AssertIsDistr(Normalize(p).value).Ok?
  {
    PositiveTotal(p);
    SharesDistr(p, Normalize(p).value);
  }

  /** A non-negative vector that is not all zero has a positive total. */
  lemma {:induction false} PositiveTotal(p: seq<real>)
    requires forall i :: 0 <= i < |p| ==> p[i] >= 0.0
    requires !IsZero(p)
    ensures Sum(p) > 0.0
  {
    SumZeroIff(p);
    SumNonNegative(p);
  }

  /** Shares of a positive total of non-negative parts, summing to 1, pass
      `assert_isdistr`. */
  lemma {:induction false} SharesDistr(p: seq<real>, q: seq<real>)
    requires forall i :: 0 <= i < |p| ==> p[i] >= 0.0
    requires Sum(p) > 0.0 && |q| == |p|
    requires forall i :: 0 <= i < |p| ==> q[i] * Sum(p) == p[i]
    requires Sum(q) == 1.0
    ensures AssertIsDistr(q).Ok?
  {
    Shares(p, q);
    DistrAccepted(q);
  }

  /** Entries in `[0, 1]` that sum to exactly 1 pass `assert_isdistr`. */
  lemma {:induction false} DistrAccepted(q: seq<real>)
    requires forall i :: 0 <= i < |q| ==> 0.0 <= q[i] <= 1.0
    requires Sum(q) == 1.0
    ensures AssertIsDistr(q).Ok?
  {
  }

  /** Shares `q[i]` of a positive total of non-negative parts lie in `[0, 1]`. */
  lemma {:induction false} Shares(p: seq<real>, q: seq<real>)
    requires forall i :: 0 <= i < |p| ==> p[i] >= 0.0
    requires Sum(p) > 0.0 && |q| == |p|
    requires forall i :: 0 <= i < |p| ==> q[i] * Sum(p) == p[i]
    ensures forall i :: 0 <= i < |q| ==> 0.0 <= q[i] <= 1.0
  {
    forall i | 0 <= i < |q| ensures 0.0 <= q[i] <= 1.0 {
      EntryAtMostSum(p, i);
      UnitShare(q[i], p[i], Sum(p));
    }
  }

  /** Lidstone smoothing of a non-empty, non-negative vector with `delta > 0`
      gives a distribution that `assert_isdistr` accepts and in which every
      outcome has positive probability. */
  lemma {:induction false} LidstoneSmooths(p: seq<real>, delta: real)
    requires |p| > 0 && delta > 0.0
    requires forall i :: 0 <= i < |p| ==> p[i] >= 0.0
    ensures Lidstone(p, delta).Some?
    ensures AssertIsDistr(Lidstone(p, delta).value).Ok?
    ensures forall i :: 0 <= i < |p| ==> Lidstone(p, delta).value[i] > 0.0
  {
    var w := Shift(p, delta);
    assert Lidstone(p, delta) == Normalize(w);
    assert w[0] != 0.0;
    NormalizeIsDistr(w);
    NormalizePositive(w);
  }

  /** Normalising a vector of positive entries keeps every entry positive. */
  lemma {:induction false} NormalizePositive(w: seq<real>)
    requires |w| > 0
    requires forall i :: 0 <= i < |w| ==> w[i] > 0.0
    ensures Normalize(w).Some?
    ensures forall i :: 0 <= i < |w| ==> Normalize(w).value[i] > 0.0
  {
    SumNonNegative(w);
    EntryAtMostSum(w, 0);
    var s := Sum(w);
    var q := Normalize(w).value;
    forall i | 0 <= i < |w| ensures q[i] > 0.0 {
      PositiveShare(q[i], w[i], s);
    }
  }

  /** Smoothing the zero vector gives the uniform distribution. */
  lemma {:induction false} LidstoneUniform(p: seq<real>, delta: real)
    requires |p| > 0 && delta != 0.0 && IsZero(p)
    ensures Lidstone(p, delta).Some?
    ensures forall i :: 0 <= i < |p| ==> Lidstone(p, delta).value[i] == 1.0 / |p| as real
  {
    var w := Shift(p, delta);
    SumShift(p, delta);
    SumZeroIff(p);
    var n := |p| as real;
    assert Sum(w) == n * delta;
    ProductNonZeroAny(n, delta);
    assert Lidstone(p, delta) == Normalize(w);
    var q := Normalize(w).value;
    forall i | 0 <= i < |p| ensures q[i] == 1.0 / n {
      assert w[i] == delta;
      UniformShare(q[i], Sum(w), n, delta);
    }
  }

  /** Smoothing by 0 is plain normalisation. */
  lemma LidstoneZero(p: seq<real>)
    ensures Lidstone(p, 0.0) == Normalize(p)
  {
    assert Shift(p, 0.0) == p;
  }

  // -------------------------------------------------- normalize_interval

  /** numpy's `.min()` of a non-empty vector: a lower bound that is attained. */
  function MinOf(s: seq<real>): (m: real)
    requires |s| > 0
    ensures forall i :: 0 <= i < |s| ==> m <= s[i]
    ensures exists i :: 0 <= i < |s| && s[i] == m
  {
    if |s| == 1 then s[0]
    else
      var rest := MinOf(s[1..]);
      assert exists i :: 1 <= i < |s| && s[i] == rest by {
        var k :| 0 <= k < |s[1..]| && s[1..][k] == rest;
        assert s[k + 1] == rest;
      }
      if s[0] < rest then s[0] else rest
  }

  /** The divisor of `normalize_interval`: the range `ptp`, replaced by 1
      when it is 0. */
  function IntervalScale(v: seq<real>): (d: real)
    requires |v| > 0
    ensures d > 0.0
    ensures MaxOf(v) > MinOf(v) ==> d == MaxOf(v) - MinOf(v)
  {
    var lo := MinOf(v);
    var hi := MaxOf(v);
    assert lo <= v[0] <= hi;
    if hi - lo == 0.0 then 1.0 else hi - lo
  }

  /** Column `j` of `data`, an `n` by `m` matrix given by its rows. */
  function Column(data: seq<seq<real>>, m: nat, j: nat): (c: seq<real>)
    requires forall i :: 0 <= i < |data| ==> |data[i]| == m
    requires j < m
    ensures |c| == |data| && forall i :: 0 <= i < |data| ==> c[i] == data[i][j]
  {
    seq(|data|, i requires 0 <= i < |data| => data[i][j])
  }

  /** `normalize_interval(data)` for an `n` by `m` matrix: in each column,
      subtract the column's minimum, then divide by its range. numpy refuses
      the minimum along an axis of length 0. */
  function NormalizeInterval(data: seq<seq<real>>, m: nat): (r: Result<seq<seq<real>>>)
    requires forall i :: 0 <= i < |data| ==> |data[i]| == m
    ensures r.Err? <==> |data| == 0
    ensures r.Err? ==> r.error == EmptyArray
    ensures r.Ok? ==> |r.value| == |data| && forall i :: 0 <= i < |data| ==> |r.value[i]| == m
  {
    if |data| == 0 then Err(EmptyArray)
    else
      Ok(seq(|data|, i requires 0 <= i < |data| =>
        seq(m, j requires 0 <= j < m => IntervalRescaled(Column(data, m, j))[i])))
  }

  /** Each column of the result is that column of `data` rescaled on its own. */
  lemma NormalizeIntervalColumn(data: seq<seq<real>>, m: nat, j: nat)
    requires forall i :: 0 <= i < |data| ==> |data[i]| == m
    requires |data| > 0 && j < m
    ensures Column(NormalizeInterval(data, m).value, m, j) == IntervalRescaled(Column(data, m, j))
  {
  }

  /** Every entry of the result lies in `[0, 1]`. */
  lemma {:induction false} NormalizeIntervalRange(data: seq<seq<real>>, m: nat)
    requires forall i :: 0 <= i < |data| ==> |data[i]| == m
    requires |data| > 0
    ensures forall i, j :: 0 <= i < |data| && 0 <= j < m ==> 0.0 <= NormalizeInterval(data, m).value[i][j] <= 1.0
  {
    var r := NormalizeInterval(data, m).value;
    forall i, j | 0 <= i < |data| && 0 <= j < m ensures 0.0 <= r[i][j] <= 1.0 {
      var col := Column(data, m, j);
      ColumnRange(col);
      assert r[i][j] == IntervalRescaled(col)[i];
    }
  }

  /** `(x - x.min()) / rescale` for one non-empty column `x`. */
  function IntervalRescaled(v: seq<real>): (r: seq<real>)
    requires |v| > 0
    ensures |r| == |v|
  {
    Divide(Subtract(v, MinOf(v)), IntervalScale(v))
  }

  /** Each rescaled entry times the divisor gives back the shifted entry. */
  lemma IntervalQuotients(v: seq<real>)
    requires |v| > 0
    ensures Quotients(IntervalRescaled(v), v, MinOf(v), IntervalScale(v))
  {
    SubtractDivideTimes(v, MinOf(v), IntervalScale(v));
  }

  /** In a rescaled column every entry lies in `[0, 1]`; the minimum goes to
      0; the maximum goes to 1 unless all entries are equal, and then every
      entry goes to 0. */
  lemma {:induction false} ColumnRange(v: seq<real>)
    requires |v| > 0
    ensures forall i :: 0 <= i < |v| ==> 0.0 <= IntervalRescaled(v)[i] <= 1.0
    ensures exists i :: 0 <= i < |v| && IntervalRescaled(v)[i] == 0.0
    ensures MaxOf(v) > MinOf(v) ==> exists i :: 0 <= i < |v| && IntervalRescaled(v)[i] == 1.0
    ensures MaxOf(v) == MinOf(v) ==> forall i :: 0 <= i < |v| ==> IntervalRescaled(v)[i] == 0.0
  {
    IntervalQuotients(v);
    IntervalEntries(v, IntervalRescaled(v), MinOf(v), MaxOf(v), IntervalScale(v));
  }

  /** The facts of `ColumnRange`, for quotients `r[i]` of
      `v[i] - lo` by `d`, where `lo` and `hi` are the attained extremes. */
  lemma {:induction false} IntervalEntries(v: seq<real>, r: seq<real>, lo: real, hi: real, d: real)
    requires forall i :: 0 <= i < |v| ==> lo <= v[i]
    requires forall i :: 0 <= i < |v| ==> v[i] <= hi
    requires exists i :: 0 <= i < |v| && v[i] == lo
    requires exists i :: 0 <= i < |v| && v[i] == hi
    requires Quotients(r, v, lo, d)
    requires d > 0.0
    requires hi > lo ==> d == hi - lo
    ensures |r| == |v|
    ensures forall i :: 0 <= i < |v| ==> 0.0 <= r[i] <= 1.0
    ensures exists i :: 0 <= i < |v| && r[i] == 0.0
    ensures hi > lo ==> exists i :: 0 <= i < |v| && r[i] == 1.0
    ensures hi == lo ==> forall i :: 0 <= i < |v| ==> r[i] == 0.0
  {
    var k :| 0 <= k < |v| && v[k] == lo;
    var j :| 0 <= j < |v| && v[j] == hi;
    forall i | 0 <= i < |v| ensures 0.0 <= r[i] <= 1.0 && (hi == lo ==> r[i] == 0.0) {
      IntervalEntry(v[i], r[i], lo, hi, d);
    }
    IntervalEntry(v[k], r[k], lo, hi, d);
    IntervalEntry(v[j], r[j], lo, hi, d);
  }

  /** One entry of `IntervalEntries`: `r` is `x - lo` divided by `d`. */
  lemma IntervalEntry(x: real, r: real, lo: real, hi: real, d: real)
    requires lo <= x <= hi && d > 0.0 && r * d == x - lo
    requires hi > lo ==> d == hi - lo
    ensures 0.0 <= r <= 1.0
    ensures x == lo ==> r == 0.0
    ensures hi > lo && x == hi ==> r == 1.0
    ensures hi == lo ==> r == 0.0
  {
    if hi > lo {
      UnitShare(r, x - lo, d);
      if x == hi {
        assert (r - 1.0) * d == 0.0;
        ZeroShare(r - 1.0, d);
      }
    } else {
      ZeroShare(r, d);
    }
    if x == lo {
      ZeroShare(r, d);
    }
  }

  /** Rescaling a column keeps the order of its entries, in both directions. */
  lemma {:induction false} ColumnOrder(v: seq<real>)
    requires |v| > 0
    ensures forall i, j :: 0 <= i < |v| && 0 <= j < |v| ==>
      (v[i] <= v[j] <==> IntervalRescaled(v)[i] <= IntervalRescaled(v)[j])
  {
    var r := IntervalRescaled(v);
    var lo, d := MinOf(v), IntervalScale(v);
    forall i, j | 0 <= i < |v| && 0 <= j < |v| ensures v[i] <= v[j] <==> r[i] <= r[j] {
      DivideMonotone(v[i] - lo, v[j] - lo, d);
    }
  }

  // ------------------------------------------------------- assert_equal

  /** `assert_equal(a, b, verbose=verbose, throw=throw, tol=tol)`. Empty
      vectors fail at `inf_norm`. When `verbose` is set or the largest
      absolute difference `err` exceeds `tol`, the message is formatted with
      `%g`, which accepts a single number only: a vector of two or more
      entries raises `TypeError` there. Otherwise the call raises
      `AssertionError` when `throw` is set and `err > tol`, and prints
      its report when it does not raise. */
  function AssertEqual(a: seq<real>, b: seq<real>, tol: real, verbose: bool, throw: bool): (r: Result<()>)
    requires |a| == |b|
    ensures (r.Err? && r.error == EmptyArray) <==> |a| == 0
    ensures (r.Err? && r.error == FormatError) <==>
      |a| >= 2 && (verbose || exists i :: 0 <= i < |a| && Abs(a[i] - b[i]) > tol)
    ensures (r.Err? && r.error == AssertionFailed) <==>
      |a| == 1 && throw && Abs(a[0] - b[0]) > tol
    ensures r.Err? ==> r.error in {EmptyArray, FormatError, AssertionFailed}
  {
    match Linf(a, b)
    case Err(e) => Err(e)
    case Ok(err) =>
      if verbose || err > tol then
        if |a| >= 2 then Err(FormatError)
        else if throw && err > tol then Err(AssertionFailed)
        else Ok(())
      else Ok(())
  }

  /** Without `verbose`, `assert_equal` accepts whatever `equal` accepts, at
      every length and whatever `throw` is. With `throw` set it accepts more
      only when the largest difference is exactly `tol`. */
  lemma AssertEqualAgainstEqual(a: seq<real>, b: seq<real>, tol: real, throw: bool)
    requires |a| == |b| && |a| > 0
    ensures Equal(a, b, tol) == Ok(true) ==> AssertEqual(a, b, tol, false, throw).Ok?
    ensures throw && AssertEqual(a, b, tol, false, throw).Ok? && Equal(a, b, tol) == Ok(false) ==>
      Linf(a, b) == Ok(tol)
  {
  }

  /** A non-empty vector passes `assert_equal` against itself for every
      non-negative tolerance, except that `verbose` formats two or more
      entries with `%g` and raises there. */
  lemma AssertEqualSelf(a: seq<real>, tol: real, verbose: bool, throw: bool)
    requires |a| > 0 && tol >= 0.0
    ensures AssertEqual(a, a, tol, verbose, throw) ==
      (if verbose && |a| >= 2 then Err(FormatError) else Ok(()))
  {
    LinfSelf(a);
  }

  /** A failing comparison of two-entry vectors raises at the `%g`
      formatting, whether or not `throw` is set. */
  lemma ExampleAssertEqualTwoEntries(throw: bool)
    ensures AssertEqual([0.0, 0.0], [0.0, 1.0], 0.0000000001, false, throw) == Err(FormatError)
  {
    var a, b := [0.0, 0.0], [0.0, 1.0];
    assert Abs(a[1] - b[1]) > 0.0000000001;
  }

  /** A failing comparison of single numbers raises `AssertionError` exactly
      when `throw` is set. */
  lemma ExampleAssertEqualScalar(throw: bool)
    ensures AssertEqual([0.0], [1.0], 0.0000000001, false, throw) ==
      (if throw then Err(AssertionFailed) else Ok(()))
  {
  }

  // -------------------------------------------------------- arithmetic

  lemma {:induction false} SumAppend(s: seq<real>, x: real)
    ensures Sum(s + [x]) == Sum(s) + x
  {
    if |s| > 0 {
      assert (s + [x])[1..] == s[1..] + [x];
      SumAppend(s[1..], x);
    } else {
      assert s + [x] == [x];
    }
  }

  lemma {:induction false} SumDivide(s: seq<real>, c: real)
    requires c != 0.0
    ensures Sum(Divide(s, c)) == Sum(s) / c
  {
    if |s| > 0 {
      assert Divide(s, c)[1..] == Divide(s[1..], c);
      SumDivide(s[1..], c);
    }
  }

  lemma {:induction false} SumShift(s: seq<real>, d: real)
    ensures Sum(Shift(s, d)) == Sum(s) + |s| as real * d
  {
    if |s| > 0 {
      assert Shift(s, d)[1..] == Shift(s[1..], d);
      SumShift(s[1..], d);
    }
  }

  /** Among non-negative entries each is at most the total. */
  lemma {:induction false} EntryAtMostSum(s: seq<real>, i: nat)
    requires i < |s|
    requires forall j :: 0 <= j < |s| ==> s[j] >= 0.0
    ensures s[i] <= Sum(s)
  {
    SumNonNegative(s[1..]);
    if i > 0 {
      EntryAtMostSum(s[1..], i - 1);
    }
  }

  lemma QuotientSelfNonZero(s: real)
    requires s != 0.0
    ensures s / s == 1.0
  {
  }

  /** A share of a total, taken by a non-negative part, lies in `[0, 1]`. */
  lemma UnitShare(q: real, x: real, s: real)
    requires s > 0.0 && 0.0 <= x <= s && q * s == x
    ensures 0.0 <= q <= 1.0
  {
    NonNegativeFactor(q, s);
    NonNegativeFactor(1.0 - q, s);
  }

  /** `r[i]` is the quotient of `v[i] - lo` by `d`, at every index. */
  predicate Quotients(r: seq<real>, v: seq<real>, lo: real, d: real)
  {
    |r| == |v| && forall i :: 0 <= i < |v| ==> r[i] * d == v[i] - lo
  }

  lemma SubtractDivideTimes(v: seq<real>, lo: real, d: real)
    requires d != 0.0
    ensures Quotients(Divide(Subtract(v, lo), d), v, lo, d)
  {
    var w := Subtract(v, lo);
    forall i | 0 <= i < |v| ensures Divide(w, d)[i] * d == v[i] - lo {
      QuotientTimes(w[i], d);
    }
  }

  lemma QuotientTimes(x: real, d: real)
    requires d != 0.0
    ensures (x / d) * d == x
  {
  }

  lemma ZeroShare(q: real, d: real)
    requires d > 0.0 && q * d == 0.0
    ensures q == 0.0
  {
  }

  lemma PositiveShare(q: real, x: real, s: real)
    requires s > 0.0 && x > 0.0 && q * s == x
    ensures q > 0.0
  {
    NonNegativeFactor(q, s);
  }

  lemma ProductNonZeroAny(x: real, y: real)
    requires x != 0.0 && y != 0.0
    ensures x * y != 0.0
  {
  }

  lemma UniformShare(q: real, s: real, n: real, d: real)
    requires n > 0.0 && d != 0.0 && s == n * d && q * s == d
    ensures q == 1.0 / n
  {
    assert q * (n * d) == d;
    assert (q * n - 1.0) * d == 0.0;
    assert q * n == 1.0;
  }

  lemma DivideMonotone(x: real, y: real, d: real)
    requires d > 0.0
    ensures x <= y <==> x / d <= y / d
  {
    var p, q := x / d, y / d;
    assert p * d == x && q * d == y;
    if x <= y {
      NonNegativeFactor(q - p, d);
    } else {
      NonNegativeFactor(p - q, d);
      assert (p - q) * d > 0.0;
    }
  }
}
