# Vector comparison in `arsenal.math.numpy_extras`, over exact reals

This project models the exact-arithmetic part of `arsenal/math/numpy_extras.py`:

- the battery of checks `compare(expect, got, ...)` builds (cosine similarity, L∞ distance, same-sign agreement, mean relative error, mean rescaled error, the optional regression entry, and the two bias flags);
- the distance helpers `linf`, `inf_norm` and `equal`;
- `show_largest_rel_errors`, which filters the indices by relative error and sorts the records `[e, name, x, y]` in descending order;
- `cdf`, the empirical cumulative distribution function. It sorts a copy of the data and evaluates by `searchsorted(..., 'right')`;
- the exact array helpers `cumavg`, `normalize`, `lidstone`, `normalize_interval`, `assert_isdistr` and `assert_equal`.

Numbers are Dafny `real`s. numpy's floating point, NaN and infinity are not modelled.

Modules, one per file:

- `Outcomes` (`outcomes.dfy`) holds `Option`, `Result` and the errors Python raises: vectors of different lengths, `.max()` of an empty array, an index past the end of `alphabet`, a failed assertion (`AssertionError`), and `%g` formatting of an array with more than one entry (`TypeError`). Vectors of different lengths are rejected by pandas when `compare` builds its `DataFrame` (line 79). They reach the assertion `expect.shape == got.shape` (line 81) only when the two labels coincide. Either way the call raises, and the model does not tell the two apart.
- `Vectors` (`vectors.dfy`) holds the element-wise numpy operations: `abs`, `.max()`, `sum`, `mean`, and the two counts `compare` takes.
- `Distances` (`distances.dfy`) holds `linf`/`inf_norm`, `equal`, and the case split of `cosine`.
- `Comparison` (`comparison.dfy`) holds the checks of `compare`.
  - The function `Tests` is the list of checks, and the function `Report` is what the call returns or raises, including the `IndexError` of `show_largest_rel_errors` when an `alphabet` is given.
  - The method `Compare` builds that list by appends, in the order `compare` runs its checks (`RunTests`, `RunFirstChecks`). Its `n >= 2` blocks are the methods `AppendScaleChecks` (with the reassigned scales `es`/`gs` in `Rescale`) and `AppendBiasChecks`. `ShowIfAlphabet` makes the call to `show_largest_rel_errors`.
- `Sorting` (`sorting.dfy`) is an in-place sort of an array by a caller's order. It stands in for `list.sort` and `ndarray.sort`.
- `LargestRelErrors` (`relerrors.dfy`) is the loop of `show_largest_rel_errors` that builds `df`, the descending sort, and the notes printed beside each record.
- `EmpiricalCdf` (`cdf.dfy`) covers `cdf`: the sorted copy, the bisection of `searchsorted(x, z, 'right')`, and the value `f(z)`.
- `Helpers` (`helpers.dfy`) holds the running average `cumavg`, the normalisations `normalize`, `lidstone` and `normalize_interval`, and the two assertion helpers `assert_isdistr` and `assert_equal`.

Two zero rules differ, and the model keeps them apart:

- `compare` divides by 1 as soon as *either* entry is zero (`Comparison.RelDenominator`).
- `show_largest_rel_errors` divides by 1 only when *both* entries are zero (`LargestRelErrors.ShowScale`).
- `Comparison.ShowRelErrMatchesRelError` and `LargestRelErrors.ShowRelErrAgainstZero` state where the two rules agree and where they differ.

## Model

| member | source | states |
|---|---|---|
| `Vectors.MaxAbs` | arsenal/math/numpy_extras.py:152-153 | `np.abs(v).max()` of a non-empty vector is non-negative, bounds every magnitude, and is the magnitude of some entry |
| `Vectors.MaxOf` | arsenal/math/numpy_extras.py:152-153 | `.max()` of a non-empty vector bounds every entry and is one of them |
| `Vectors.CountSameSign` | arsenal/math/numpy_extras.py:112 | the number of indices where `(x > 0) == (y > 0)` is at most `n` |
| `Vectors.CountSameSignAll` | arsenal/math/numpy_extras.py:112-114 | the agreeing count equals `n` exactly when every index passes `SameSign`, the test `(x > 0) == (y > 0)`: zero with zero agrees, zero with a positive value does not |
| `Vectors.CountGreater` | arsenal/math/numpy_extras.py:211 | the count of indices with `expect - got > 0` is at most `n` |
| `Vectors.CountGreaterDisjoint` | arsenal/math/numpy_extras.py:211-214 | no index counts for both bias directions, so the two counts sum to at most `n` |
| `Vectors.CountGreaterSelf` | arsenal/math/numpy_extras.py:211-214 | identical vectors give both bias counts 0 |
| `Vectors.MeanBounds` | arsenal/math/numpy_extras.py:162 | `Mean`, that is `np.mean`, of entries within `[lo, hi]` lies within `[lo, hi]` |
| `Vectors.MeanZeroIff` | arsenal/math/numpy_extras.py:119 | `Mean` of non-negative entries is 0 exactly when every entry is 0 |
| `Vectors.ScaledLargestMagnitude` | arsenal/math/numpy_extras.py:152-153 | the largest magnitude of `c * v`, for `c > 0`, is `c` times the largest magnitude of `v` |
| `Vectors.ScaledQuotients` | arsenal/math/numpy_extras.py:159-160 | dividing `c * v` by its largest magnitude gives the same entries as dividing `v` by its own |
| `Distances.Linf` | arsenal/math/numpy_extras.py:298-299 | `abs(a - b).max()` is an error for empty vectors; otherwise it bounds every absolute difference and equals one of them |
| `Distances.LinfSymmetric` | arsenal/math/numpy_extras.py:298-299 | `linf(a, b) == linf(b, a)` |
| `Distances.LinfSelf` | arsenal/math/numpy_extras.py:298-299 | `linf(a, a) == 0` for a non-empty `a` |
| `Distances.Equal` | arsenal/math/numpy_extras.py:558-564 | `equal(a, b, tol)` (through `inf_norm`) holds exactly when every absolute difference is below `tol`; an error for empty vectors |
| `Distances.EqualSymmetric` | arsenal/math/numpy_extras.py:558-560 | `equal` does not depend on the order of its arguments |
| `Distances.EqualSelf` | arsenal/math/numpy_extras.py:558-560 | a non-empty vector is `equal` to itself exactly when `tol > 0` |
| `Distances.Cosine` | arsenal/math/numpy_extras.py:302-312 | not a number exactly when one vector is zero and the other is not; 1.0 when both are zero; the quotient otherwise |
| `Distances.CosineCaseOf` | arsenal/math/numpy_extras.py:307-312 | the case is `BothZero`, `OneZero` or `NeitherZero` exactly when both, exactly one, or neither of the vectors is zero |
| `Distances.ScaledZeroIff` | arsenal/math/numpy_extras.py:154-157 | a positive multiple of a vector is zero exactly when the vector is, so `es` is reset to 1 for both or for neither |
| `Distances.CosineCaseSymmetric` | arsenal/math/numpy_extras.py:305-312 | the case `cosine` picks is the same for `(a, b)` and `(b, a)` |
| `Comparison.RelDenominator` | arsenal/math/numpy_extras.py:117 | each entry of `rs` is positive: the larger magnitude when both entries are nonzero, and 1.0 when either is zero |
| `Comparison.RelError` | arsenal/math/numpy_extras.py:118 | each relative error is non-negative and is zero exactly when the two entries are equal |
| `Comparison.RelErrors` | arsenal/math/numpy_extras.py:117-118 | `r` has one entry per index; each is non-negative and is zero exactly where `expect` and `got` agree |
| `Comparison.MeanRelError` | arsenal/math/numpy_extras.py:116-119 | the mean relative error is non-negative |
| `Comparison.RescaleFactor` | arsenal/math/numpy_extras.py:152-157 | `es` is positive and bounds every magnitude; it is 1 for a zero vector and otherwise the magnitude of some entry, so the largest one |
| `Comparison.Rescaled` | arsenal/math/numpy_extras.py:152-160 | every entry of `E = expect / es` lies in `[-1, 1]`; a zero vector is left unchanged, and otherwise some entry has magnitude exactly 1 |
| `Comparison.MeanRescaledError` | arsenal/math/numpy_extras.py:158-162 | the mean rescaled error lies in `[0, 2]` |
| `Comparison.CosineCheck` | arsenal/math/numpy_extras.py:101-102 | the cosine entry is `nan` and fails when exactly one vector is zero; it is 1.0 and passes when both are; otherwise it holds the quotient and passes exactly when the quotient exceeds 0.99999 |
| `Comparison.SameSignCheck` | arsenal/math/numpy_extras.py:110-114 | the same-sign entry passes exactly when every index agrees in sign |
| `Comparison.RelErrorCheck` | arsenal/math/numpy_extras.py:116-120 | equal vectors pass the relative-error entry |
| `Comparison.RescaledErrorCheck` | arsenal/math/numpy_extras.py:158-163 | two vectors that rescale to the same `E == G` pass the rescaled-error entry |
| `Comparison.BiasFlag` | arsenal/math/numpy_extras.py:211-216 | a bias test appends at most one entry, and that entry is `[name, progress(L, n), 0]`, a failure |
| `Comparison.BiasFlagAlways` | arsenal/math/numpy_extras.py:212-213 | a share `P_LARGER <= 0` flags every count |
| `Comparison.BiasFlagNever` | arsenal/math/numpy_extras.py:212-213 | a share `P_LARGER > 1` flags no count `L <= n` |
| `Comparison.BiasChecks` | arsenal/math/numpy_extras.py:208-216 | at most two bias entries are appended, and each one is a failure |
| `Comparison.FirstChecks` | arsenal/math/numpy_extras.py:101-120 | every non-empty comparison starts with four entries |
| `Comparison.ScaleChecks` | arsenal/math/numpy_extras.py:150-186 | the `n >= 2` block appends the rescaled error and at most the regression entry; nothing in it fails when `E == G` |
| `Comparison.Report` | arsenal/math/numpy_extras.py:79-238 | the call raises on vectors of different lengths, on an empty pair, and, with an `alphabet`, exactly when some index whose printed error exceeds 0.00001 lies past the end of `alphabet`; otherwise it returns `Tests` |
| `Comparison.Tests` | arsenal/math/numpy_extras.py:101-216 | one entry gives 4 checks; two or more give between 5 and 8 |
| `Comparison.Rescale` | arsenal/math/numpy_extras.py:152-160 | the scale reassigned to 1 when it is 0, then `expect / es`, is the rescaled vector |
| `Comparison.AppendScaleChecks` | arsenal/math/numpy_extras.py:150-186 | appends exactly the rescaled-error entry and, when `regression` is set, the regression entry |
| `Comparison.AppendBiasFlag` | arsenal/math/numpy_extras.py:212-213 | appends `[name, progress(L, n), 0]` exactly when `L >= P_LARGER * n` |
| `Comparison.AppendBiasChecks` | arsenal/math/numpy_extras.py:208-216 | appends the `expect is larger` test, then the `got is larger` test |
| `Comparison.Compare` | arsenal/math/numpy_extras.py:81-238 | the list built by successive appends, followed by the call to `show_largest_rel_errors`, is `Report`: same entries, same order, same errors |
| `Comparison.RunFirstChecks` | arsenal/math/numpy_extras.py:101-120 | raises on an empty pair (at `linf`); otherwise appends the cosine, Linf, same-sign and relative-error entries, in that order |
| `Comparison.RunTests` | arsenal/math/numpy_extras.py:101-216 | raises on an empty pair; otherwise the appended list is `Tests` |
| `Comparison.ShowIfAlphabet` | arsenal/math/numpy_extras.py:234-235 | raises `IndexError` exactly when an `alphabet` is given and some index whose printed error exceeds 0.00001 lies past its end |
| `Comparison.RelErrorSymmetric` | arsenal/math/numpy_extras.py:117-118 | swapping `expect` and `got` leaves each relative error unchanged |
| `Comparison.MeanRelErrorZeroIff` | arsenal/math/numpy_extras.py:116-120 | the mean relative error is 0 exactly when the two vectors are equal |
| `Comparison.TestsVerdicts` | arsenal/math/numpy_extras.py:101-120 | on a non-empty pair: the cosine entry fails when exactly one vector is zero and passes when both are; the Linf entry passes exactly when every entry differs by less than `1e-10`; the same-sign entry passes exactly when every index agrees in sign; equal vectors pass the relative-error entry |
| `Comparison.TestsPrefix` | arsenal/math/numpy_extras.py:101-120 | the list of a non-empty pair opens with the cosine, Linf, same-sign and relative-error entries, in that order |
| `Comparison.LinfCheckPassIff` | arsenal/math/numpy_extras.py:105-106 | `LinfCheck`, the Linf entry, passes exactly when no entry differs by `1e-10` or more |
| `Comparison.RelErrorScaleInvariant` | arsenal/math/numpy_extras.py:117-118 | between nonzero entries, scaling both by `c > 0` leaves the relative error unchanged |
| `Comparison.RelDenominatorScaled` | arsenal/math/numpy_extras.py:117 | between nonzero entries the denominator scales with the entries |
| `Comparison.RelErrorAgainstZero` | arsenal/math/numpy_extras.py:117-118 | against a zero entry the denominator is 1, so the relative error is the absolute error |
| `Comparison.MeanRescaledErrorZeroIff` | arsenal/math/numpy_extras.py:158-163 | the mean rescaled error is 0 exactly when `E == G` |
| `Comparison.RescaledScaleInvariant` | arsenal/math/numpy_extras.py:152-160 | `c * v` with `c > 0` rescales to the same `E` as `v` |
| `Comparison.MeanRescaledErrorScaled` | arsenal/math/numpy_extras.py:152-163 | a vector against a positive multiple of itself has mean rescaled error 0, so that entry passes |
| `Comparison.ExampleHundredfold` | arsenal/math/numpy_extras.py:158-163 | `[1, 2]` against `[100, 200]` has mean rescaled error 0 |
| `Comparison.BiasFlagsBoth` | arsenal/math/numpy_extras.py:208-216 | both bias entries appear only when `P_LARGER * 2 <= 1` |
| `Comparison.TwoFlags` | arsenal/math/numpy_extras.py:211-216 | two flags raised by disjoint counts out of `n` need `P_LARGER <= 1/2` |
| `Comparison.BiasChecksSelf` | arsenal/math/numpy_extras.py:208-216 | a vector compared with itself raises no bias entry when `P_LARGER > 0` |
| `Comparison.FirstChecksSelf` | arsenal/math/numpy_extras.py:101-120 | cosine, Linf, same-sign and relative error all pass for a vector against itself |
| `Comparison.SelfComparisonPasses` | arsenal/math/numpy_extras.py:81-238 | `compare(a, a)` succeeds on a non-empty `a` whatever the `alphabet`, and none of its entries fails |
| `Sorting.Insert` | arsenal/math/numpy_extras.py:271 | moving one element left by swaps extends the ordered prefix by one; the prefix keeps its elements and the rest of the array is unchanged |
| `Sorting.SiftLeft` | arsenal/math/numpy_extras.py:271 | the swaps leave the moved element ordered against the rest of the prefix, keep the elements, and do not touch the array past the prefix |
| `Sorting.InsertionSort` | arsenal/math/numpy_extras.py:271 | the array ends up ordered and holds the same multiset of elements |
| `Sorting.SortedUnique` | arsenal/math/numpy_extras.py:369 | under an antisymmetric order two ordered arrangements of one multiset are equal, so any sort gives the same result |
| `LargestRelErrors.ShowScale` | arsenal/math/numpy_extras.py:250-255 | `scale` is positive and bounds both magnitudes; it is 1 only when both entries are zero, otherwise one of the magnitudes |
| `LargestRelErrors.ShowRelErr` | arsenal/math/numpy_extras.py:256 | `e` is non-negative and is zero exactly when `x == y` |
| `LargestRelErrors.ZipLength` | arsenal/math/numpy_extras.py:249 | `zip` stops at the shorter vector |
| `LargestRelErrors.KeptRows` | arsenal/math/numpy_extras.py:249-264 | the loop raises only `IndexError`; otherwise it builds at most one record per index, each with error `> 0.00001` (`KeptRowsMembers` and `KeptRowsErrIff` give the records and the raising condition exactly) |
| `LargestRelErrors.ShowLargestRelErrors` | arsenal/math/numpy_extras.py:241-271 | the function returns `None` and prints `df`; the model returns the record list it prints. That list is an error exactly when the loop raises, and then the same error; otherwise it is sorted in descending order and is a permutation of the kept records |
| `LargestRelErrors.KeptRowsErrPersists` | arsenal/math/numpy_extras.py:249-264 | once `alphabet[i]` has raised, the call raises that error |
| `LargestRelErrors.KeptRowsErrIff` | arsenal/math/numpy_extras.py:249-264 | the call raises `IndexError` exactly when a kept index has no entry in `alphabet` |
| `LargestRelErrors.KeptRowsMembers` | arsenal/math/numpy_extras.py:249-264 | every record has error `> 0.00001` and belongs to a kept index, and every kept index has its record |
| `LargestRelErrors.KeptRowsIdentical` | arsenal/math/numpy_extras.py:249-264 | identical inputs keep no index, whatever the alphabet |
| `LargestRelErrors.StrLeq` | arsenal/math/numpy_extras.py:271 | on names, a prefix comes first, and a longer name never comes before its own prefix |
| `LargestRelErrors.RowLeq` | arsenal/math/numpy_extras.py:271 | records compare first by error: a smaller error comes first, a record `<=` another never has the larger error, and every record is `<=` itself |
| `LargestRelErrors.RowGeq` | arsenal/math/numpy_extras.py:271 | the order of `df.sort(reverse=1)` puts a larger error first and never puts a smaller error before a larger one |
| `LargestRelErrors.StrLeqTotal` | arsenal/math/numpy_extras.py:271 | any two names are comparable |
| `LargestRelErrors.StrLeqTransitive` | arsenal/math/numpy_extras.py:271 | name comparison is transitive |
| `LargestRelErrors.StrLeqAntisymmetric` | arsenal/math/numpy_extras.py:271 | two names each `<=` the other are equal |
| `LargestRelErrors.RowGeqTotalPreorder` | arsenal/math/numpy_extras.py:271 | the descending order on records is total and transitive |
| `LargestRelErrors.RowGeqAntisymmetric` | arsenal/math/numpy_extras.py:271 | two records each `>=` the other are the same record, so the sorted `df` is unique |
| `LargestRelErrors.SortedErrorsNonIncreasing` | arsenal/math/numpy_extras.py:271 | along the sorted `df` the errors never increase |
| `Comparison.ShowRelErrMatchesRelError` | arsenal/math/numpy_extras.py:250-256 | between nonzero entries the printed error is the error `compare` averages |
| `LargestRelErrors.ShowRelErrAgainstZero` | arsenal/math/numpy_extras.py:250-256 | against a zero entry the printed error is 1 |
| `LargestRelErrors.Sign` | arsenal/math/numpy_extras.py:285 | `np.sign(x)` is -1, 0 or 1, with `sign(x) * abs(x) == x`, and is 0 exactly when `x` is |
| `LargestRelErrors.NoteOf` | arsenal/math/numpy_extras.py:278-290 | `wrong sign` is printed exactly when the entries have opposite signs or exactly one of them is zero |
| `LargestRelErrors.WrongSignIsBad` | arsenal/math/numpy_extras.py:278-290 | a record marked `wrong sign` has error at least 1, so it is printed as `bad` |
| `EmpiricalCdf.CountLeq` | arsenal/math/numpy_extras.py:372 | the number of points `<= z` is at most the number of points |
| `EmpiricalCdf.SearchSortedRight` | arsenal/math/numpy_extras.py:372 | on sorted `x`, the bisection returns the index with every point before it `<= z` and every point from it on `> z` |
| `EmpiricalCdf.CdfEval` | arsenal/math/numpy_extras.py:371-372 | `f(z)` is not a number exactly when the data are empty |
| `EmpiricalCdf.EmpiricalShare` | arsenal/math/numpy_extras.py:344-347 | the share of points `<= z` is undefined exactly for empty data |
| `EmpiricalCdf.Cdf` | arsenal/math/numpy_extras.py:368-374 | the copy is sorted and a permutation of `a`; at every `z`, `f` gives the share of the points of `a` that are `<= z`; `a` is unchanged |
| `EmpiricalCdf.CountLeqAppend` | arsenal/math/numpy_extras.py:372 | the count over a concatenation is the sum of the counts |
| `EmpiricalCdf.CountLeqRemove` | arsenal/math/numpy_extras.py:372 | removing one point lowers the count by that point's contribution |
| `EmpiricalCdf.CountLeqPermutation` | arsenal/math/numpy_extras.py:368-369 | sorting the copy does not change the count of points `<= z` |
| `EmpiricalCdf.PrefixCount` | arsenal/math/numpy_extras.py:372 | on sorted data the points `<= z` form a prefix whose length is the count |
| `EmpiricalCdf.CdfEvalIsShare` | arsenal/math/numpy_extras.py:368-372 | `searchsorted(x, z, 'right') / len(x)` on the sorted copy equals `len([v for v in a if v <= z]) / len(a)` |
| `EmpiricalCdf.CountLeqMonotone` | arsenal/math/numpy_extras.py:372 | the count of points `<= z` grows with `z` |
| `EmpiricalCdf.ShareMonotoneInZ` | arsenal/math/numpy_extras.py:371-372 | `f` never decreases |
| `EmpiricalCdf.ShareInUnitInterval` | arsenal/math/numpy_extras.py:371-372 | `f(z)` lies in `[0, 1]` |
| `EmpiricalCdf.CountLeqAll` | arsenal/math/numpy_extras.py:372 | when every point is `<= z` the count is the number of points |
| `EmpiricalCdf.CountLeqNone` | arsenal/math/numpy_extras.py:372 | when every point is `> z` the count is 0 |
| `EmpiricalCdf.ShareAtMax` | arsenal/math/numpy_extras.py:371-372 | `f(z) == 1` at and above the largest point |
| `EmpiricalCdf.ShareBelowMin` | arsenal/math/numpy_extras.py:371-372 | `f(z) == 0` below the smallest point |
| `EmpiricalCdf.ExampleDistinct` | arsenal/math/numpy_extras.py:349-354 | `cdf([5, 10, 15])` at 5, 9, 13, 15 and 100 is 1/3, 1/3, 2/3, 1, 1 |
| `EmpiricalCdf.ExampleTies` | arsenal/math/numpy_extras.py:359-364 | `cdf([5, 5, 15])` at 0, 5 and 15 is 0, 2/3, 1: ties count in full |
| `Helpers.CumSum` | arsenal/math/numpy_extras.py:400 | entry `i` of `np.cumsum(x)` is the sum of the first `i + 1` entries |
| `Helpers.CumAvg` | arsenal/math/numpy_extras.py:392-400 | entry `i` of `cumavg(x)` is the mean of the first `i + 1` entries |
| `Helpers.CumAvgLast` | arsenal/math/numpy_extras.py:400 | the last running average is the mean of the whole vector |
| `Helpers.CumAvgBounds` | arsenal/math/numpy_extras.py:400 | running averages of entries in `[lo, hi]` stay in `[lo, hi]` |
| `Helpers.ExampleCumAvg` | arsenal/math/numpy_extras.py:394-395 | the doc-test: `cumavg([1,2,3,4,5])` is `[1, 1.5, 2, 2.5, 3]` |
| `Helpers.Normalize` | arsenal/math/numpy_extras.py:434-435 | `p / p.sum()` is undefined exactly when the total is 0; otherwise each entry times the total gives back `p[i]`, and the entries sum to 1 |
| `Helpers.Lidstone` | arsenal/math/numpy_extras.py:438-442 | `normalize(p + delta)` is undefined exactly when `sum(p) + n * delta == 0`; otherwise its entries sum to 1 |
| `Helpers.LidstoneZero` | arsenal/math/numpy_extras.py:438-442 | smoothing by `delta = 0` is plain `normalize` |
| `Helpers.AssertIsDistr` | arsenal/math/numpy_extras.py:552-555 | passes exactly when every entry lies in `[0, 1]` and the total is within `1e-6` of 1; otherwise raises `AssertionError` |
| `Helpers.NormalizeIsDistr` | arsenal/math/numpy_extras.py:434-435 | normalising a non-negative vector that is not all zero gives a vector `assert_isdistr` accepts |
| `Helpers.NormalizePositive` | arsenal/math/numpy_extras.py:434-435 | normalising positive entries keeps every entry positive |
| `Helpers.LidstoneSmooths` | arsenal/math/numpy_extras.py:438-442 | smoothing a non-empty non-negative vector with `delta > 0` gives a vector `assert_isdistr` accepts, with every entry positive |
| `Helpers.LidstoneUniform` | arsenal/math/numpy_extras.py:438-442 | smoothing the zero vector gives the uniform distribution `1/n` |
| `Helpers.MinOf` | arsenal/math/numpy_extras.py:417 | `.min()` of a non-empty vector bounds every entry from below and is one of them |
| `Helpers.IntervalScale` | arsenal/math/numpy_extras.py:418-419 | the divisor is positive, and it is the range `max - min` whenever the range is not 0 |
| `Helpers.NormalizeInterval` | arsenal/math/numpy_extras.py:413-422 | an empty matrix raises at `data.min(axis=0)`; otherwise the result has the shape of `data` |
| `Helpers.NormalizeIntervalColumn` | arsenal/math/numpy_extras.py:417-421 | each column of the result is that column of `data`, shifted by its own minimum and divided by its own range |
| `Helpers.NormalizeIntervalRange` | arsenal/math/numpy_extras.py:413-422 | every entry of the result lies in `[0, 1]` |
| `Helpers.ColumnRange` | arsenal/math/numpy_extras.py:417-421 | within a column the minimum goes to 0 and the maximum to 1; a constant column goes to all zeros |
| `Helpers.ColumnOrder` | arsenal/math/numpy_extras.py:417-421 | rescaling a column keeps the order of its entries, in both directions |
| `Helpers.AssertEqual` | arsenal/math/numpy_extras.py:567-576 | an empty pair fails at `inf_norm`. When `verbose` is set or some absolute difference exceeds `tol`, a vector of two or more entries raises `TypeError` at the `%g` formatting; a single entry raises `AssertionError` exactly when `throw` is set and its difference exceeds `tol`; every other call returns |
| `Helpers.ExampleAssertEqualTwoEntries` | arsenal/math/numpy_extras.py:571-572 | `[0, 0]` against `[0, 1]` with `tol = 1e-10` raises `TypeError`, whether or not `throw` is set |
| `Helpers.ExampleAssertEqualScalar` | arsenal/math/numpy_extras.py:571-576 | `[0]` against `[1]` with `tol = 1e-10` raises `AssertionError` when `throw` is set, and otherwise returns |
| `Helpers.AssertEqualAgainstEqual` | arsenal/math/numpy_extras.py:558-576 | without `verbose`, `assert_equal` accepts whatever `equal` accepts, at every length and whatever `throw` is; with `throw` set it accepts more only when the largest difference is exactly `tol` |
| `Helpers.AssertEqualSelf` | arsenal/math/numpy_extras.py:567-576 | a non-empty vector passes `assert_equal` against itself for every `tol >= 0`, except that `verbose` with two or more entries raises `TypeError` at the formatting |

## Left out

- Floating point: NaN, infinities, rounding and the 64-bit width of numpy's numbers are not modelled; all arithmetic is exact over `real`.
  - The entries `got finite` and `expect finite` (lines 87-90) never arise over the reals.
  - Removing non-finite errors before the mean (line 119) is not modelled either: no relative error is infinite over the reals.
- Distances.Cosine: the quotient `a.dot(b) / (norm(a) * norm(b))` needs square roots. It is passed in as the parameter `ratio`, so the model proves only the case split of `cosine` and nothing about the value. Over the reals, `norm(v) == 0` holds exactly for the zero vector, and the model uses that to decide the cases.
- Comparison.SelfComparisonPasses: it takes the cosine of a vector with itself to be 1, the value of the quotient that the model does not compute.
- Comparison.FirstChecksSelf: its cosine entry passes because the cosine of a vector with itself is supplied as 1; the model does not compute that quotient.
- Distances.Linf, Distances.Equal: both require vectors of equal length. numpy would broadcast a vector of length 1, or raise on other mismatched shapes; that is not modelled.
- The least-squares fit (`scipy.linalg.lstsq`, lines 165-186) is a foreign call. Its entry is appended with the placeholder value `RegressionFit` and the verdict `Info` (`2`). Its NaN branch never arises over the reals.
- The text forms of values are kept as data, not formatted:
  - the same-sign string `'%s%% (%s/%s)'` is the triple `Percent(p, k, n)`;
  - `progress(L, n)` is `Progress(L, n)`.
- Printing, terminal colours and plotting (pylab, seaborn) are left out.
  - The notes printed beside each relative-error record are modelled (`LargestRelErrors.NoteOf`). The printing itself is not.
  - When an `alphabet` is given, `compare` prints its report and then calls `show_largest_rel_errors` (lines 234-235). The model keeps that call's `IndexError` (`Comparison.Report`, `Comparison.ShowIfAlphabet`), but not the report printed before it.
- The column path of `compare` (`data` given, lines 55-67) is left out. It asserts that `expect` and `got` are column names (lines 56-59) and reads those two columns of `data`. The array path (lines 69-79) is modelled with the vectors as sequences; its `DataFrame` is used only for plotting, apart from rejecting vectors of different lengths.
- `alphabet` is a sequence of strings. A dictionary alphabet raising `KeyError` is the same error case.
- Python's comparison of two names is modelled as the lexicographic comparison of their characters.
- Sorting algorithm:
  - Python's Timsort and numpy's quicksort are not modelled step by step; insertion sort stands in for them.
  - Both orders used are antisymmetric, and `Sorting.SortedUnique` shows that every sort gives the same sequence. So only the order of equal elements could differ, and equal elements are identical values.
- `searchsorted` is modelled as a bisection over the sorted copy. numpy's own C search is not modelled.
- `f` applied to an array of points, as in the doc-tests, is `f` at each point separately.
- `cdf` of empty data divides 0 by 0. The model returns `None` (not a number) and does not model numpy's warning.
- The randomised and transcendental helpers of the file are left out:
  - `Mixture`, `spherical`, `sample` and `log_sample` draw random numbers.
  - `mean_confidence_interval` needs scipy's Student t quantile.
  - `logsumexp`, `exp_normalize`, `entropy`, `kl_divergence`, `mutual_information` and `cross_entropy` need `exp` or `log`.
  - `normalize_zscore` needs a standard deviation, which is a square root.
- Helpers.NormalizeInterval: takes an `n` by `m` matrix of floating-point numbers, given by its rows.
  - For a one-dimensional array, `data.ptp(axis=0)` is a numpy scalar, and the assignment into it at line 419 is not supported; that input is not modelled.
  - Only float data is modelled. For an integer array, `x = data - shift` stays integer, and the in-place `x /= rescale` at line 421 then raises `TypeError` (numpy 1.10 and later) or truncates the quotients (earlier numpy). The model divides exactly.
- Helpers.AssertEqual: the message, its `name` prefix and the printed `ok`/`fail` line are not modelled; only which exception the call raises, or that it returns. Scalars are modelled as vectors of one entry.
- Helpers.Normalize, Helpers.Lidstone: a zero total makes numpy divide by zero and return NaN or infinity with a warning. The model returns `None` and does not model the warning.
- Also left out: the `__main__` demo, and `gcal/gcal-quickadd.py`, a network client with no logic to verify.
