/** The battery of checks run by `compare(expect, got, ...)`. */
module Comparison {
  import opened Outcomes
  import opened Vectors
  import opened Distances
  import LargestRelErrors

  /** How a check is shown: `True`/`1` green, `False`/`0` red, `2` yellow. */
  datatype Verdict = Pass | Fail | Info

  /** The value column of a check. */
  datatype Value =
    | Number(x: real)
    | NotANumber
    | Percent(p: real, agree: nat, n: nat)   // '%s%% (%s/%s)'
    | Progress(k: nat, n: nat)               // `progress(k, n)`
    | RegressionFit                          // the `lstsq` result

  /** One entry `[name, value, passed]` of the `tests` list. */
  datatype Check = Check(name: string, value: Value, verdict: Verdict)

  function Judge(passed: bool): Verdict
  {
    if passed then Pass else Fail
  }

  const CosineThreshold: real := 0.99999
  const LinfThreshold: real := 0.0000000001
  const RelErrorThreshold: real := 0.01
  const RescaledErrorThreshold: real := 0.00001

  // ------------------------------------------------------- relative error

  /** The entry of `rs`: the larger magnitude when both entries are nonzero,
      and 1 as soon as either entry is zero. */
  function RelDenominator(x: real, y: real): (d: real)
    ensures d > 0.0
    ensures x != 0.0 && y != 0.0 ==> d >= Abs(x) && d >= Abs(y) && (d == Abs(x) || d == Abs(y))
    ensures x == 0.0 || y == 0.0 ==> d == 1.0
  {
    if x != 0.0 && y != 0.0 then Max(Abs(x), Abs(y)) else 1.0
  }

  /** The entry of `r = np.abs(expected - got) / rs`: zero exactly when the two
      entries are equal. */
  function RelError(x: real, y: real): (e: real)
    ensures e >= 0.0
    ensures e == 0.0 <==> x == y
  {
    var d := RelDenominator(x, y);
    assert Abs(x - y) / d * d == Abs(x - y);
    Abs(x - y) / d
  }

  /** `r`: one non-negative error per index, zero exactly where the two
      vectors agree. */
  function RelErrors(a: seq<real>, b: seq<real>): (r: seq<real>)
    requires |a| == |b|
    ensures |r| == |a|
    ensures forall i :: 0 <= i < |a| ==> r[i] >= 0.0 && (r[i] == 0.0 <==> a[i] == b[i])
  {
    seq(|a|, i requires 0 <= i < |a| => RelError(a[i], b[i]))
  }

  /** `np.mean(r)`: every entry of `r` is finite over the reals, and the
      mean is non-negative. */
  function MeanRelError(a: seq<real>, b: seq<real>): (r: real)
    requires |a| == |b| > 0
    ensures r >= 0.0
  {
    var errs := RelErrors(a, b);
    SumNonNegative(errs);
    assert Mean(errs) * |errs| as real == Sum(errs);
    NonNegativeFactor(Mean(errs), |errs| as real);
    Mean(errs)
  }

  // ------------------------------------------------------ rescaled error

  /** `es` / `gs`: the largest magnitude, replaced by 1 when it is 0. */
  function RescaleFactor(v: seq<real>): (s: real)
    requires |v| > 0
    ensures s > 0.0
    ensures forall i :: 0 <= i < |v| ==> Abs(v[i]) <= s
    ensures IsZero(v) ==> s == 1.0
    ensures !IsZero(v) ==> LargestMagnitude(v, s)
  {
    var m := MaxAbs(v);
    if m == 0.0 then 1.0 else m
  }

  /** `E = expected / es`: every entry lies in [-1, 1]; a zero vector is
      left as it is, and otherwise its largest magnitude becomes 1. */
  function Rescaled(v: seq<real>): (r: seq<real>)
    requires |v| > 0
    ensures |r| == |v|
    ensures forall i :: 0 <= i < |v| ==> -1.0 <= r[i] <= 1.0
    ensures (forall i :: 0 <= i < |v| ==> v[i] == 0.0) ==> r == v
    ensures (exists i :: 0 <= i < |v| && v[i] != 0.0) ==> exists i :: 0 <= i < |v| && Abs(r[i]) == 1.0
  {
    var s := RescaleFactor(v);
    var r := seq(|v|, i requires 0 <= i < |v| => v[i] / s);
    assert forall i :: 0 <= i < |v| ==> -1.0 <= r[i] <= 1.0 by {
      forall i | 0 <= i < |v| {
        UnitQuotient(v[i], s);
      }
    }
    assert (exists i :: 0 <= i < |v| && v[i] != 0.0) ==> exists i :: 0 <= i < |v| && Abs(r[i]) == 1.0 by {
      if exists i :: 0 <= i < |v| && v[i] != 0.0 {
        var i :| 0 <= i < |v| && Abs(v[i]) == s;
        UnitAtScale(v[i], s);
        assert Abs(r[i]) == 1.0;
      }
    }
    r
  }

  /** `np.mean(np.abs(E - G))`: both rescaled vectors lie in [-1, 1], so
      the mean lies in [0, 2]. */
  function MeanRescaledError(a: seq<real>, b: seq<real>): (r: real)
    requires |a| == |b| > 0
    ensures 0.0 <= r <= 2.0
  {
    var d := AbsDiff(Rescaled(a), Rescaled(b));
    MeanBounds(d, 0.0, 2.0);
    Mean(d)
  }

  // -------------------------------------------------------------- checks

  /** The cosine entry: `nan` fails when exactly one vector is zero, two zero
      vectors pass with 1.0, and otherwise the quotient is held against
      0.99999. */
  function CosineCheck(expected: seq<real>, got: seq<real>, ratio: real): (r: Check)
    ensures r.name == "cosine-sim"
    ensures IsZero(expected) != IsZero(got) ==> r.value == NotANumber && r.verdict == Fail
    ensures IsZero(expected) && IsZero(got) ==> r.value == Number(1.0) && r.verdict == Pass
    ensures !IsZero(expected) && !IsZero(got) ==>
      r.value == Number(ratio) && (r.verdict == Pass <==> ratio > CosineThreshold)
  {
    match Cosine(expected, got, ratio)
    case None => Check("cosine-sim", NotANumber, Fail)   // NaN > 0.99999 is False
    case Some(c) => Check("cosine-sim", Number(c), Judge(c > CosineThreshold))
  }

  function LinfCheck(d: real): Check
  {
    Check("Linf", Number(d), Judge(d < LinfThreshold))
  }

  /** The share of indices that agree in sign, in percent. */
  function SameSignPercent(expected: seq<real>, got: seq<real>): real
    requires |expected| == |got| > 0
  {
    CountSameSign(expected, got) as real * 100.0 / |expected| as real
  }

  /** The same-sign entry passes exactly when every index agrees in sign. */
  function SameSignCheck(expected: seq<real>, got: seq<real>): (r: Check)
    requires |expected| == |got| > 0
    ensures r.verdict == Pass <==> forall i :: 0 <= i < |expected| ==> SameSign(expected[i], got[i])
  {
    PercentFull(CountSameSign(expected, got), |expected|);
    CountSameSignAll(expected, got);
    var p := SameSignPercent(expected, got);
    Check("same-sign", Percent(p, CountSameSign(expected, got), |expected|), Judge(p == 100.0))
  }

  /** The relative-error entry; equal vectors always pass it. */
  function RelErrorCheck(expected: seq<real>, got: seq<real>): (r: Check)
    requires |expected| == |got| > 0
    ensures expected == got ==> r.verdict == Pass
  {
    MeanRelErrorZeroIff(expected, got);
    var r := MeanRelError(expected, got);
    Check("mean relative error", Number(r), Judge(r <= RelErrorThreshold))
  }

  /** The rescaled-error entry; vectors that rescale to the same `E == G`
      always pass it. */
  function RescaledErrorCheck(expected: seq<real>, got: seq<real>): (r: Check)
    requires |expected| == |got| > 0
    ensures Rescaled(expected) == Rescaled(got) ==> r.verdict == Pass
  {
    MeanRescaledErrorZeroIff(expected, got);
    var r := MeanRescaledError(expected, got);
    Check("mean rescaled error", Number(r), Judge(r <= RescaledErrorThreshold))
  }

  const RegressionCheck: Check := Check("regression", RegressionFit, Info)

  /** The entry `[name, progress(count, n), 0]` appended when `count` reaches
      the share `pLarger` of `n`: a failure, at most once. */
  function BiasFlag(name: string, count: nat, n: nat, pLarger: real): (r: seq<Check>)
    ensures |r| <= 1
    ensures forall i :: 0 <= i < |r| ==> r[i] == Check(name, Progress(count, n), Fail)
  {
    if count as real >= pLarger * n as real then [Check(name, Progress(count, n), Fail)] else []
  }

  /** Flags one vector that is the larger at a share `pLarger` of the indices
      or more; at most two flags, both failures. */
  function BiasChecks(expected: seq<real>, got: seq<real>, pLarger: real): (r: seq<Check>)
    requires |expected| == |got|
    ensures |r| <= 2 && forall i :: 0 <= i < |r| ==> r[i].verdict == Fail
  {
    var n := |expected|;
    BiasFlag("expect is larger", CountGreater(expected, got), n, pLarger)
    + BiasFlag("got is larger", CountGreater(got, expected), n, pLarger)
  }

  /** The four checks run for every non-empty pair. */
  function FirstChecks(expected: seq<real>, got: seq<real>, ratio: real): (r: seq<Check>)
    requires |expected| == |got| > 0
    ensures |r| == 4
  {
    [CosineCheck(expected, got, ratio), LinfCheck(Linf(expected, got).value),
     SameSignCheck(expected, got), RelErrorCheck(expected, got)]
  }

  /** The rescaled error and the optional regression entry; nothing in it
      fails when the two vectors rescale to the same `E == G`. */
  function ScaleChecks(expected: seq<real>, got: seq<real>, regression: bool): (r: seq<Check>)
    requires |expected| == |got| > 0
    ensures 1 <= |r| <= 2
    ensures Rescaled(expected) == Rescaled(got) ==> NoFailure(r)
  {
    [RescaledErrorCheck(expected, got)] + (if regression then [RegressionCheck] else [])
  }

  /** The `tests` list of a non-empty pair of equal length. `ratio` stands
      for the quotient `cosine` computes when neither vector is zero. */
  function Tests(expected: seq<real>, got: seq<real>, ratio: real, pLarger: real, regression: bool)
    : (r: seq<Check>)
    requires |expected| == |got| > 0
    ensures |expected| == 1 ==> |r| == 4
    ensures |expected| >= 2 ==> 5 <= |r| <= 8
  {
    if |expected| < 2 then FirstChecks(expected, got, ratio)
    else
      FirstChecks(expected, got, ratio) + ScaleChecks(expected, got, regression)
      + BiasChecks(expected, got, pLarger)
  }

  /** What `compare(expect, got, P_LARGER=pLarger, regression=regression,
      alphabet=alphabet)` returns or raises. Vectors of different lengths
      raise; empty ones raise at `linf`; with an alphabet, a kept index past
      its end raises in `show_largest_rel_errors`. */
  function Report(expected: seq<real>, got: seq<real>, ratio: real, pLarger: real, regression: bool,
                  alphabet: Option<seq<string>>)
    : (r: Result<seq<Check>>)
    ensures r == Err(ShapeMismatch) <==> |expected| != |got|
    ensures r == Err(EmptyArray) <==> |expected| == |got| == 0
    ensures r == Err(IndexOutOfRange) <==>
      |expected| == |got| > 0 && alphabet.Some? &&
      (exists i :: 0 <= i < |expected| && |alphabet.value| <= i &&
                   LargestRelErrors.Kept(LargestRelErrors.ShowRelErr(expected[i], got[i])))
    ensures r.Ok? ==> r.value == Tests(expected, got, ratio, pLarger, regression)
  {
    if |expected| != |got| then Err(ShapeMismatch)
    else if |expected| == 0 then Err(EmptyArray)
    else
      match alphabet
      case None => Ok(Tests(expected, got, ratio, pLarger, regression))
      case Some(names) =>
        LargestRelErrors.KeptRowsErrIff(expected, got, names, |expected|);
        if LargestRelErrors.KeptRows(expected, got, names, |expected|).Err? then Err(IndexOutOfRange)
        else Ok(Tests(expected, got, ratio, pLarger, regression))
  }

  /** `E = expect / es` with `es = np.abs(expect).max()`, reassigned to 1
      when it is 0. */
  method Rescale(v: seq<real>) returns (e: seq<real>)
    requires |v| > 0
    ensures e == Rescaled(v)
  {
    var s := MaxAbs(v);
    if s == 0.0 {
      s := 1.0;
    }
    e := seq(|v|, i requires 0 <= i < |v| => v[i] / s);
  }

  /** The `n >= 2` block of `compare`: rescales both vectors, appends the mean
      rescaled error and, when asked, the regression entry. */
  method AppendScaleChecks(tests: seq<Check>, expected: seq<real>, got: seq<real>, regression: bool)
    returns (t: seq<Check>)
    requires |expected| == |got| > 0
    ensures t == tests + ScaleChecks(expected, got, regression)
  {
    var e := Rescale(expected);
    var g := Rescale(got);
    var rescaled := Mean(AbsDiff(e, g));
    t := tests + [Check("mean rescaled error", Number(rescaled),
                        Judge(rescaled <= RescaledErrorThreshold))];
    if regression {
      t := t + [RegressionCheck];
    }
  }

  /** One bias test of `compare`: appends `[name, progress(count, n), 0]` when
      `count` reaches the share `pLarger` of `n`. */
  method AppendBiasFlag(tests: seq<Check>, name: string, count: nat, n: nat, pLarger: real)
    returns (t: seq<Check>)
    ensures t == tests + BiasFlag(name, count, n, pLarger)
  {
    t := tests;
    if count as real >= pLarger * n as real {
      t := t + [Check(name, Progress(count, n), Fail)];
    }
  }

  /** The two bias tests of `compare`, in the order `compare` runs them. */
  method AppendBiasChecks(tests: seq<Check>, expected: seq<real>, got: seq<real>, pLarger: real)
    returns (t: seq<Check>)
    requires |expected| == |got|
    ensures t == tests + BiasChecks(expected, got, pLarger)
  {
    var n := |expected|;
    var t1 := AppendBiasFlag(tests, "expect is larger", CountGreater(expected, got), n, pLarger);
    t := AppendBiasFlag(t1, "got is larger", CountGreater(got, expected), n, pLarger);
    assert t == tests + (BiasFlag("expect is larger", CountGreater(expected, got), n, pLarger)
                         + BiasFlag("got is larger", CountGreater(got, expected), n, pLarger));
  }

  /** The first four checks of `compare`, appended one by one; `linf`
      raises on an empty pair. */
  method RunFirstChecks(expected: seq<real>, got: seq<real>, ratio: real)
    returns (r: Result<seq<Check>>)
    requires |expected| == |got|
    ensures |expected| == 0 ==> r == Err(EmptyArray)
    ensures |expected| > 0 ==> r == Ok(FirstChecks(expected, got, ratio))
  {
    var n := |expected|;
    var tests: seq<Check> := [];
    tests := tests + [CosineCheck(expected, got, ratio)];
    var d := Linf(expected, got);
    if d.Err? {
      return Err(d.error);
    }
    tests := tests + [LinfCheck(d.value)];
    var k := CountSameSign(expected, got);
    var p := k as real * 100.0 / n as real;
    var sameSign := Check("same-sign", Percent(p, k, n), Judge(p == 100.0));
    assert sameSign == SameSignCheck(expected, got);
    tests := tests + [sameSign];
    var rel := MeanRelError(expected, got);
    var relCheck := Check("mean relative error", Number(rel), Judge(rel <= RelErrorThreshold));
    assert relCheck == RelErrorCheck(expected, got);
    tests := tests + [relCheck];
    assert tests == FirstChecks(expected, got, ratio);
    return Ok(tests);
  }

  /** `if alphabet is not None: show_largest_rel_errors(expect, got, alphabet)`:
      the error that call raises, if any. */
  method ShowIfAlphabet(expected: seq<real>, got: seq<real>, alphabet: Option<seq<string>>)
    returns (raised: Option<Error>)
    requires |expected| == |got|
    ensures raised.Some? <==>
      alphabet.Some? && (exists i :: 0 <= i < |expected| && |alphabet.value| <= i &&
                          LargestRelErrors.Kept(LargestRelErrors.ShowRelErr(expected[i], got[i])))
    ensures raised.Some? ==> raised.value == IndexOutOfRange
  {
    raised := None;
    if alphabet.Some? {
      var shown := LargestRelErrors.ShowLargestRelErrors(expected, got, alphabet.value);
      LargestRelErrors.KeptRowsErrIff(expected, got, alphabet.value, |expected|);
      if shown.Err? {
        raised := Some(shown.error);
      }
    }
  }

  /** The checks of `compare` for two vectors of the same length, appended
      in the order `compare` runs them; `linf` raises on an empty pair. */
  method RunTests(expected: seq<real>, got: seq<real>, ratio: real, pLarger: real, regression: bool)
    returns (r: Result<seq<Check>>)
    requires |expected| == |got|
    ensures |expected| == 0 ==> r == Err(EmptyArray)
    ensures |expected| > 0 ==> r == Ok(Tests(expected, got, ratio, pLarger, regression))
  {
    var first := RunFirstChecks(expected, got, ratio);
    if first.Err? {
      return first;
    }
    var tests := first.value;
    if |expected| >= 2 {
      tests := AppendScaleChecks(tests, expected, got, regression);
      tests := AppendBiasChecks(tests, expected, got, pLarger);
    }
    return Ok(tests);
  }

  /** `compare(expect, got, P_LARGER=pLarger, regression=regression,
      alphabet=alphabet)`: runs the checks, hands the pair to
      `show_largest_rel_errors` when an alphabet is given, and returns the
      list. */
  method Compare(expected: seq<real>, got: seq<real>, ratio: real, pLarger: real, regression: bool,
                 alphabet: Option<seq<string>>)
    returns (r: Result<seq<Check>>)
    ensures r == Report(expected, got, ratio, pLarger, regression, alphabet)
  {
    if |expected| != |got| {
      return Err(ShapeMismatch);
    }
    r := RunTests(expected, got, ratio, pLarger, regression);
    if r.Err? {
      return r;
    }
    var raised := ShowIfAlphabet(expected, got, alphabet);
    if raised.Some? {
      r := Err(raised.value);
    }
  }

  // -------------------------------------------------------------- lemmas

  /** `p == 100.0` holds exactly when every index agrees in sign. */
  lemma PercentFull(k: nat, n: nat)
    requires 0 < n
    ensures k as real * 100.0 / n as real == 100.0 <==> k == n
  {
    var q := k as real * 100.0 / n as real;
    assert q * n as real == k as real * 100.0;
  }

  /** The relative error does not depend on which vector is the reference. */
  lemma RelErrorSymmetric(x: real, y: real)
    ensures RelError(x, y) == RelError(y, x)
  {
    assert Abs(x - y) == Abs(y - x);
    assert RelDenominator(x, y) == RelDenominator(y, x);
  }

  /** The mean relative error is zero exactly when the vectors are equal. */
  lemma MeanRelErrorZeroIff(a: seq<real>, b: seq<real>)
    requires |a| == |b| > 0
    ensures MeanRelError(a, b) == 0.0 <==> a == b
  {
    var r := RelErrors(a, b);
    MeanZeroIff(r);
    if MeanRelError(a, b) == 0.0 {
      assert forall i :: 0 <= i < |a| ==> a[i] == b[i] by {
        forall i | 0 <= i < |a| ensures a[i] == b[i] {
          assert r[i] == 0.0;
        }
      }
    }
  }

  /** A magnitude bounded by the positive factor `s` divides into [-1, 1]. */
  lemma UnitQuotient(x: real, s: real)
    requires s > 0.0 && Abs(x) <= s
    ensures -1.0 <= x / s <= 1.0
  {
    var q := x / s;
    assert q * s == x;
    assert (1.0 - q) * s == s - x;
    assert (1.0 + q) * s == s + x;
    NonNegativeFactor(1.0 - q, s);
    NonNegativeFactor(1.0 + q, s);
  }

  /** An entry whose magnitude is the scale divides to magnitude 1. */
  lemma UnitAtScale(x: real, s: real)
    requires s > 0.0 && Abs(x) == s
    ensures Abs(x / s) == 1.0
  {
    QuotientSelf(s);
    if x < 0.0 {
      assert x / s == -(s / s);
    }
  }

  /** The mean rescaled error is zero exactly when the rescaled vectors agree. */
  lemma MeanRescaledErrorZeroIff(a: seq<real>, b: seq<real>)
    requires |a| == |b| > 0
    ensures MeanRescaledError(a, b) == 0.0 <==> Rescaled(a) == Rescaled(b)
  {
    var ea := Rescaled(a);
    var eb := Rescaled(b);
    var r := AbsDiff(ea, eb);
    MeanZeroIff(r);
    if MeanRescaledError(a, b) == 0.0 {
      forall i | 0 <= i < |a| ensures ea[i] == eb[i] {
        assert r[i] == 0.0;
      }
    } else {
      var i :| 0 <= i < |a| && r[i] != 0.0;
      assert ea[i] != eb[i];
    }
  }

  /** Two disjoint counts out of `n` that each reach the share `p` of `n`
      leave `p` at most 1/2. */
  lemma TwoShares(l1: real, l2: real, n: real, p: real)
    requires n > 0.0 && l1 + l2 <= n
    requires l1 >= p * n && l2 >= p * n
    ensures p <= 0.5
  {
    assert (1.0 - 2.0 * p) * n == n - 2.0 * (p * n);
    NonNegativeFactor(1.0 - 2.0 * p, n);
  }

  /** Both bias entries can only appear together when `pLarger` is at most 1/2:
      no index counts for both directions. */
  lemma BiasFlagsBoth(expected: seq<real>, got: seq<real>, pLarger: real)
    requires |expected| == |got| > 0
    requires |BiasChecks(expected, got, pLarger)| == 2
    ensures pLarger <= 0.5
  {
    var n := |expected|;
    var l1 := CountGreater(expected, got);
    var l2 := CountGreater(got, expected);
    var f1 := BiasFlag("expect is larger", l1, n, pLarger);
    var f2 := BiasFlag("got is larger", l2, n, pLarger);
    assert |f1| == 1 && |f2| == 1 by {
      assert BiasChecks(expected, got, pLarger) == f1 + f2;
    }
    CountGreaterDisjoint(expected, got);
    TwoFlags("expect is larger", "got is larger", l1, l2, n, pLarger);
  }

  /** Two flags raised by disjoint counts out of `n` need a share of at
      most 1/2. */
  lemma TwoFlags(name1: string, name2: string, l1: nat, l2: nat, n: nat, pLarger: real)
    requires 0 < n && l1 + l2 <= n
    requires |BiasFlag(name1, l1, n, pLarger)| == 1 && |BiasFlag(name2, l2, n, pLarger)| == 1
    ensures pLarger <= 0.5
  {
    BiasFlagRaised(name1, l1, n, pLarger);
    BiasFlagRaised(name2, l2, n, pLarger);
    TwoShares(l1 as real, l2 as real, n as real, pLarger);
  }

  /** A share of 0 or less flags every count. */
  lemma BiasFlagAlways(name: string, count: nat, n: nat, pLarger: real)
    requires pLarger <= 0.0
    ensures |BiasFlag(name, count, n, pLarger)| == 1
  {
    if n > 0 {
      MulMonotone(n as real, pLarger, 0.0);
    }
  }

  /** A share above 1 flags no count out of `n`. */
  lemma BiasFlagNever(name: string, count: nat, n: nat, pLarger: real)
    requires pLarger > 1.0 && 0 < n && count <= n
    ensures BiasFlag(name, count, n, pLarger) == []
  {
    MulPositive(pLarger - 1.0, n as real);
  }

  lemma BiasFlagRaised(name: string, count: nat, n: nat, pLarger: real)
    requires |BiasFlag(name, count, n, pLarger)| == 1
    ensures count as real >= pLarger * n as real
  {
  }

  /** A vector compared with itself raises no bias entry for a positive `pLarger`. */
  lemma BiasChecksSelf(a: seq<real>, pLarger: real)
    requires |a| > 0 && pLarger > 0.0
    ensures BiasChecks(a, a, pLarger) == []
  {
    CountGreaterSelf(a);
    MulPositive(pLarger, |a| as real);
  }

  /** What each of the four leading verdicts of `compare` means. */
  lemma TestsVerdicts(expected: seq<real>, got: seq<real>, ratio: real, pLarger: real, regression: bool)
    requires |expected| == |got| > 0
    ensures var t := Tests(expected, got, ratio, pLarger, regression);
      |t| >= 4 &&
      (IsZero(expected) != IsZero(got) ==> t[0].verdict == Fail) &&
      (IsZero(expected) && IsZero(got) ==> t[0].verdict == Pass) &&
      (t[1].verdict == Pass <==>
         forall i :: 0 <= i < |expected| ==> Abs(expected[i] - got[i]) < LinfThreshold) &&
      (t[2].verdict == Pass <==>
         forall i :: 0 <= i < |expected| ==> SameSign(expected[i], got[i])) &&
      (expected == got ==> t[3].verdict == Pass)
  {
    TestsPrefix(expected, got, ratio, pLarger, regression);
    var t := Tests(expected, got, ratio, pLarger, regression);
    var first := FirstChecks(expected, got, ratio);
    assert t[0] == first[0] && t[1] == first[1] && t[2] == first[2] && t[3] == first[3] by {
      assert t[..4] == first;
    }
    LinfCheckPassIff(expected, got);
  }

  /** The list opens with the four checks every comparison makes. */
  lemma TestsPrefix(expected: seq<real>, got: seq<real>, ratio: real, pLarger: real, regression: bool)
    requires |expected| == |got| > 0
    ensures var t := Tests(expected, got, ratio, pLarger, regression);
      |t| >= 4 && t[..4] == FirstChecks(expected, got, ratio)
  {
  }

  /** The Linf check passes exactly when every entry differs by less than the
      threshold. */
  lemma LinfCheckPassIff(expected: seq<real>, got: seq<real>)
    requires |expected| == |got| > 0
    ensures LinfCheck(Linf(expected, got).value).verdict == Pass <==>
      forall i :: 0 <= i < |expected| ==> Abs(expected[i] - got[i]) < LinfThreshold
  {
    var d := Linf(expected, got).value;
    if d >= LinfThreshold {
      var i :| 0 <= i < |expected| && Abs(expected[i] - got[i]) == d;
      assert !(Abs(expected[i] - got[i]) < LinfThreshold);
    }
  }

  /** Comparing a vector with itself fails no check and raises nothing,
      whatever the alphabet. `ratio` is the cosine of the vector with
      itself, 1. */
  lemma SelfComparisonPasses(a: seq<real>, pLarger: real, regression: bool,
                             alphabet: Option<seq<string>>)
    requires |a| > 0 && pLarger > 0.0
    ensures Report(a, a, 1.0, pLarger, regression, alphabet).Ok?
    ensures NoFailure(Report(a, a, 1.0, pLarger, regression, alphabet).value)
  {
    if alphabet.Some? {
      LargestRelErrors.KeptRowsIdentical(a, alphabet.value, |a|);
    }
    var first := FirstChecks(a, a, 1.0);
    FirstChecksSelf(a);
    var t := Tests(a, a, 1.0, pLarger, regression);
    if |a| >= 2 {
      BiasChecksSelf(a, pLarger);
      var scale := ScaleChecks(a, a, regression);
      NoFailureConcat(first, scale);
      NoFailureConcat(first + scale, []);
      assert t == first + scale + [];
    }
    assert Report(a, a, 1.0, pLarger, regression, alphabet) == Ok(t);
  }

  predicate NoFailure(checks: seq<Check>)
  {
    forall i :: 0 <= i < |checks| ==> checks[i].verdict != Fail
  }

  lemma NoFailureConcat(s: seq<Check>, t: seq<Check>)
    requires NoFailure(s) && NoFailure(t)
    ensures NoFailure(s + t)
  {
    forall i | 0 <= i < |s + t|
      ensures (s + t)[i].verdict != Fail
    {
      if i < |s| {
        assert (s + t)[i] == s[i];
      } else {
        assert (s + t)[i] == t[i - |s|];
      }
    }
  }

  lemma FirstChecksSelf(a: seq<real>)
    requires |a| > 0
    ensures NoFailure(FirstChecks(a, a, 1.0))
  {
    LinfSelf(a);
  }

  /** Between two nonzero entries the relative error does not depend on the
      common scale. */
  lemma RelErrorScaleInvariant(c: real, x: real, y: real)
    requires c > 0.0 && x != 0.0 && y != 0.0
    ensures RelError(c * x, c * y) == RelError(x, y)
  {
    AbsScale(c, x - y);
    assert c * x - c * y == c * (x - y);
    RelDenominatorScaled(c, x, y);
    QuotientScaled(c, Abs(x - y), RelDenominator(x, y));
  }

  lemma RelDenominatorScaled(c: real, x: real, y: real)
    requires c > 0.0 && x != 0.0 && y != 0.0
    ensures RelDenominator(c * x, c * y) == c * RelDenominator(x, y)
  {
    AbsScale(c, x);
    AbsScale(c, y);
    ProductNonZero(c, x);
    ProductNonZero(c, y);
    MaxScaled(c, Abs(x), Abs(y));
  }

  /** Between two nonzero entries the error `show_largest_rel_errors` prints
      is the error `compare` averages. */
  lemma ShowRelErrMatchesRelError(x: real, y: real)
    requires x != 0.0 && y != 0.0
    ensures LargestRelErrors.ShowRelErr(x, y) == RelError(x, y)
  {
  }

  /** Against a zero entry the denominator is 1: the relative error is the
      absolute error, whatever the other entry's scale. */
  lemma RelErrorAgainstZero(y: real)
    ensures RelError(0.0, y) == Abs(y) && RelError(y, 0.0) == Abs(y)
  {
  }

  // ------------------------------------------------- scale invariance

  /** Rescaling forgets a positive scale: `c * v` and `v` rescale to the same
      vector. */
  lemma RescaledScaleInvariant(c: real, v: seq<real>)
    requires c > 0.0 && |v| > 0
    ensures Rescaled(Scale(c, v)) == Rescaled(v)
  {
    var w := Scale(c, v);
    if IsZero(v) {
      assert w == v;
    } else {
      ScaledZeroIff(c, v);
      ScaledQuotients(c, v, RescaleFactor(v), RescaleFactor(w));
    }
  }

  /** A vector against a positive multiple of itself has mean rescaled error
      0, so that entry passes. */
  lemma MeanRescaledErrorScaled(c: real, v: seq<real>)
    requires c > 0.0 && |v| > 0
    ensures MeanRescaledError(v, Scale(c, v)) == 0.0
    ensures RescaledErrorCheck(v, Scale(c, v)).verdict == Pass
  {
    RescaledScaleInvariant(c, v);
    MeanRescaledErrorZeroIff(v, Scale(c, v));
  }

  /** `[1, 2]` against `[100, 200]`: the same shape a hundred times larger. */
  lemma ExampleHundredfold()
    ensures MeanRescaledError([1.0, 2.0], [100.0, 200.0]) == 0.0
  {
    assert Scale(100.0, [1.0, 2.0]) == [100.0, 200.0];
    MeanRescaledErrorScaled(100.0, [1.0, 2.0]);
  }
}
