/** Element-wise vector arithmetic over exact reals, the numpy operations the
    comparison code is built from. */
module Vectors {

  function Abs(x: real): (r: real)
    ensures r >= 0.0 && (r == x || r == -x)
  {
    if x < 0.0 then -x else x
  }

  /** Python's built-in `max` of two numbers. */
  function Max(x: real, y: real): (m: real)
    ensures m >= x && m >= y && (m == x || m == y)
  {
    if x < y then y else x
  }

  /** numpy's `.max()` of a non-empty vector: an upper bound that is attained. */
  function MaxOf(s: seq<real>): (m: real)
    requires |s| > 0
    ensures forall i :: 0 <= i < |s| ==> s[i] <= m
    ensures exists i :: 0 <= i < |s| && s[i] == m
  {
    if |s| == 1 then s[0]
    else
      var rest := MaxOf(s[1..]);
      assert exists i :: 1 <= i < |s| && s[i] == rest by {
        var k :| 0 <= k < |s[1..]| && s[1..][k] == rest;
        assert s[k + 1] == rest;
      }
      Max(s[0], rest)
  }

  /** `np.abs(v)` */
  function AbsAll(v: seq<real>): (r: seq<real>)
    ensures |r| == |v| && forall i :: 0 <= i < |v| ==> r[i] == Abs(v[i])
  {
    seq(|v|, i requires 0 <= i < |v| => Abs(v[i]))
  }

  /** `np.abs(a - b)` */
  function AbsDiff(a: seq<real>, b: seq<real>): (r: seq<real>)
    requires |a| == |b|
    ensures |r| == |a| && forall i :: 0 <= i < |a| ==> r[i] == Abs(a[i] - b[i])
  {
    seq(|a|, i requires 0 <= i < |a| => Abs(a[i] - b[i]))
  }

  /** `np.abs(v).max()` */
  function MaxAbs(v: seq<real>): (m: real)
    requires |v| > 0
    ensures m >= 0.0
    ensures forall i :: 0 <= i < |v| ==> Abs(v[i]) <= m
    ensures exists i :: 0 <= i < |v| && Abs(v[i]) == m
  {
    var r := AbsAll(v);
    assert Abs(v[0]) == r[0];
    MaxOf(r)
  }

  /** `c * v`, numpy's product of a scalar and a vector. */
  function Scale(c: real, v: seq<real>): (r: seq<real>)
    ensures |r| == |v| && forall i :: 0 <= i < |v| ==> r[i] == c * v[i]
  {
    seq(|v|, i requires 0 <= i < |v| => c * v[i])
  }

  function Sum(s: seq<real>): real
  {
    if |s| == 0 then 0.0 else s[0] + Sum(s[1..])
  }

  /** `np.mean(s)` of a non-empty vector. */
  function Mean(s: seq<real>): real
    requires |s| > 0
  {
    Sum(s) / |s| as real
  }

  /** `(x > 0) == (y > 0)`: the sign test of the same-sign check. */
  predicate SameSign(x: real, y: real)
  {
    (x > 0.0) == (y > 0.0)
  }

  /** `(~((a > 0) ^ (b > 0))).sum()` */
  function CountSameSign(a: seq<real>, b: seq<real>): (k: nat)
    requires |a| == |b|
    ensures k <= |a|
  {
    if |a| == 0 then 0
    else (if SameSign(a[0], b[0]) then 1 else 0) + CountSameSign(a[1..], b[1..])
  }

  /** `((a - b) > 0).sum()`: the number of indices where `a` is the larger. */
  function CountGreater(a: seq<real>, b: seq<real>): (k: nat)
    requires |a| == |b|
    ensures k <= |a|
  {
    if |a| == 0 then 0
    else (if a[0] - b[0] > 0.0 then 1 else 0) + CountGreater(a[1..], b[1..])
  }

  // ---------------------------------------------------------------- lemmas

  /** A sum of entries in `[lo, hi]` lies between `n * lo` and `n * hi`. */
  lemma {:induction false} SumBounds(s: seq<real>, lo: real, hi: real)
    requires forall i :: 0 <= i < |s| ==> lo <= s[i] <= hi
    ensures |s| as real * lo <= Sum(s) <= |s| as real * hi
  {
    if |s| > 0 {
      SumBounds(s[1..], lo, hi);
      assert (|s| - 1) as real * lo + lo == |s| as real * lo;
      assert (|s| - 1) as real * hi + hi == |s| as real * hi;
    }
  }

  /** A sum of non-negative entries is non-negative. */
  lemma {:induction false} SumNonNegative(s: seq<real>)
    requires forall i :: 0 <= i < |s| ==> s[i] >= 0.0
    ensures Sum(s) >= 0.0
  {
    if |s| > 0 {
      SumNonNegative(s[1..]);
    }
  }

  /** A sum of non-negative entries is zero exactly when every entry is zero. */
  lemma {:induction false} SumZeroIff(s: seq<real>)
    requires forall i :: 0 <= i < |s| ==> s[i] >= 0.0
    ensures Sum(s) == 0.0 <==> forall i :: 0 <= i < |s| ==> s[i] == 0.0
  {
    if |s| > 0 {
      var rest := s[1..];
      assert forall i :: 0 <= i < |rest| ==> rest[i] == s[i + 1];
      SumZeroIff(rest);
      SumNonNegative(rest);
      if Sum(s) == 0.0 {
        forall i | 0 <= i < |s| ensures s[i] == 0.0 {
          if i > 0 { assert s[i] == rest[i - 1]; }
        }
      }
    }
  }

  /** The mean of entries in `[lo, hi]` lies in `[lo, hi]`. */
  lemma MeanBounds(s: seq<real>, lo: real, hi: real)
    requires |s| > 0
    requires forall i :: 0 <= i < |s| ==> lo <= s[i] <= hi
    ensures lo <= Mean(s) <= hi
  {
    SumBounds(s, lo, hi);
    var n := |s| as real;
    assert Mean(s) * n == Sum(s);
  }

  /** The mean of non-negative entries is zero exactly when every entry is zero. */
  lemma MeanZeroIff(s: seq<real>)
    requires |s| > 0
    requires forall i :: 0 <= i < |s| ==> s[i] >= 0.0
    ensures Mean(s) == 0.0 <==> forall i :: 0 <= i < |s| ==> s[i] == 0.0
  {
    SumZeroIff(s);
    assert Mean(s) * |s| as real == Sum(s);
  }

  /** Every index agrees in sign exactly when the agreeing count is the length. */
  lemma {:induction false} CountSameSignAll(a: seq<real>, b: seq<real>)
    requires |a| == |b|
    ensures CountSameSign(a, b) == |a| <==> forall i :: 0 <= i < |a| ==> SameSign(a[i], b[i])
  {
    if |a| > 0 {
      CountSameSignAll(a[1..], b[1..]);
      if forall i :: 0 <= i < |a| ==> SameSign(a[i], b[i]) {
        assert forall i :: 0 <= i < |a| - 1 ==> a[1..][i] == a[i + 1] && b[1..][i] == b[i + 1];
      }
      if CountSameSign(a, b) == |a| {
        forall i | 0 <= i < |a| ensures SameSign(a[i], b[i]) {
          if i > 0 { assert a[i] == a[1..][i - 1] && b[i] == b[1..][i - 1]; }
        }
      }
    }
  }

  /** No index has `a[i] > b[i]` and `b[i] > a[i]` at once, so the two bias
      counts together never exceed the length. */
  lemma {:induction false} CountGreaterDisjoint(a: seq<real>, b: seq<real>)
    requires |a| == |b|
    ensures CountGreater(a, b) + CountGreater(b, a) <= |a|
  {
    if |a| > 0 {
      CountGreaterDisjoint(a[1..], b[1..]);
    }
  }

  /** Identical vectors have no index where one is the larger. */
  lemma {:induction false} CountGreaterSelf(a: seq<real>)
    ensures CountGreater(a, a) == 0
  {
    if |a| > 0 {
      CountGreaterSelf(a[1..]);
    }
  }

  /** Two upper bounds of the magnitudes that are both attained are equal. */
  lemma AttainedBoundsEqual(v: seq<real>, t: real, u: real)
    requires forall i :: 0 <= i < |v| ==> Abs(v[i]) <= t && Abs(v[i]) <= u
    requires exists i :: 0 <= i < |v| && Abs(v[i]) == t
    requires exists i :: 0 <= i < |v| && Abs(v[i]) == u
    ensures t == u
  {
    var i :| 0 <= i < |v| && Abs(v[i]) == t;
    var j :| 0 <= j < |v| && Abs(v[j]) == u;
  }

  /** Magnitudes bounded by `s` are bounded by `c * s` once scaled by `c`,
      and one at the bound stays at the bound. */
  lemma ScaledBounds(c: real, v: seq<real>, s: real)
    requires c > 0.0 && forall j :: 0 <= j < |v| ==> Abs(v[j]) <= s
    ensures forall j :: 0 <= j < |v| ==> Abs(Scale(c, v)[j]) <= c * s
    ensures forall j :: 0 <= j < |v| && Abs(v[j]) == s ==> Abs(Scale(c, v)[j]) == c * s
  {
    var w := Scale(c, v);
    forall j | 0 <= j < |v|
      ensures Abs(w[j]) <= c * s && (Abs(v[j]) == s ==> Abs(w[j]) == c * s)
    {
      AbsScale(c, v[j]);
      MulMonotone(c, Abs(v[j]), s);
    }
  }

  /** `m` is the largest magnitude of `v`: it bounds every magnitude and is
      one of them. */
  predicate LargestMagnitude(v: seq<real>, m: real)
  {
    (forall i :: 0 <= i < |v| ==> Abs(v[i]) <= m) &&
    exists i :: 0 <= i < |v| && Abs(v[i]) == m
  }

  /** The largest magnitude of `c * v` is `c` times the largest magnitude
      of `v`. */
  lemma ScaledLargestMagnitude(c: real, v: seq<real>, s: real, t: real)
    requires c > 0.0
    requires LargestMagnitude(v, s) && LargestMagnitude(Scale(c, v), t)
    ensures t == c * s
  {
    var w := Scale(c, v);
    ScaledBounds(c, v, s);
    var k :| 0 <= k < |v| && Abs(v[k]) == s;
    assert Abs(w[k]) == c * s;
    AttainedBoundsEqual(w, t, c * s);
  }

  /** Dividing `c * v` by its largest magnitude gives the same quotients as
      dividing `v` by its own. */
  lemma ScaledQuotients(c: real, v: seq<real>, s: real, t: real)
    requires c > 0.0 && s > 0.0
    requires LargestMagnitude(v, s) && LargestMagnitude(Scale(c, v), t)
    ensures forall i :: 0 <= i < |v| ==> Scale(c, v)[i] / t == v[i] / s
  {
    ScaledLargestMagnitude(c, v, s, t);
    ScaledQuotientsBy(c, v, s, t);
  }

  /** Dividing `c * v` by `c * s` is dividing `v` by `s`. */
  lemma ScaledQuotientsBy(c: real, v: seq<real>, s: real, t: real)
    requires c > 0.0 && s > 0.0 && t == c * s
    ensures forall i :: 0 <= i < |v| ==> Scale(c, v)[i] / t == v[i] / s
  {
    forall i | 0 <= i < |v|
      ensures Scale(c, v)[i] / t == v[i] / s
    {
      QuotientScaledAt(c, v[i], s, Scale(c, v)[i], t);
    }
  }

  lemma QuotientScaledAt(c: real, x: real, s: real, cx: real, cs: real)
    requires c > 0.0 && s > 0.0 && cx == c * x && cs == c * s
    ensures cx / cs == x / s
  {
    QuotientScaled(c, x, s);
  }

  lemma MulPositive(x: real, y: real)
    requires x > 0.0 && y > 0.0
    ensures x * y > 0.0
  {
  }

  /** A product is negative exactly when its factors have opposite signs. */
  lemma ProductNegative(x: real, y: real)
    ensures x * y < 0.0 <==> (x < 0.0 && y > 0.0) || (x > 0.0 && y < 0.0)
  {
    if x < 0.0 && y < 0.0 {
      MulPositive(-x, -y);
      assert -x * -y == x * y;
    } else if x < 0.0 && y > 0.0 {
      MulPositive(-x, y);
      assert -x * y == -(x * y);
    } else if x > 0.0 && y < 0.0 {
      MulPositive(x, -y);
      assert x * -y == -(x * y);
    } else if x > 0.0 && y > 0.0 {
      MulPositive(x, y);
    }
  }

  lemma ProductNonZero(c: real, x: real)
    requires c > 0.0 && x != 0.0
    ensures c * x != 0.0
  {
    if x < 0.0 {
      MulPositive(c, -x);
      assert c * -x == -(c * x);
    } else {
      MulPositive(c, x);
    }
  }

  /** A product with a positive factor keeps the sign of the other factor. */
  lemma NonNegativeFactor(a: real, s: real)
    requires s > 0.0 && a * s >= 0.0
    ensures a >= 0.0
  {
  }

  /** Multiplying by a positive constant keeps an inequality. */
  lemma MulMonotone(c: real, x: real, y: real)
    requires c > 0.0 && x <= y
    ensures c * x <= c * y
  {
    if x < y {
      MulPositive(c, y - x);
      assert c * y - c * x == c * (y - x);
    }
  }

  /** A positive factor comes out of `max`. */
  lemma MaxScaled(c: real, x: real, y: real)
    requires c > 0.0
    ensures Max(c * x, c * y) == c * Max(x, y)
  {
    if x < y {
      MulPositive(c, y - x);
      assert c * y - c * x == c * (y - x);
    } else {
      MulMonotone(c, y, x);
    }
  }

  lemma QuotientSelf(a: real)
    requires a > 0.0
    ensures a / a == 1.0
  {
    var q := a / a;
    assert q * a == a;
    assert (q - 1.0) * a == 0.0 && (1.0 - q) * a == 0.0;
    NonNegativeFactor(q - 1.0, a);
    NonNegativeFactor(1.0 - q, a);
  }

  /** A common positive factor cancels from a quotient. */
  lemma QuotientScaled(c: real, a: real, d: real)
    requires c > 0.0 && d > 0.0
    ensures (c * a) / (c * d) == a / d
  {
    var q := a / d;
    assert q * d == a;
    assert q * (c * d) == c * a;
    MulPositive(c, d);
  }

  /** A positive factor comes out of a magnitude. */
  lemma AbsScale(c: real, x: real)
    requires c > 0.0
    ensures Abs(c * x) == c * Abs(x)
  {
    if x < 0.0 {
      assert c * x == -(c * -x);
      MulPositive(c, -x);
    } else if x > 0.0 {
      MulPositive(c, x);
    }
  }
}
