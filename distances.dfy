/** The distance primitives `linf`, `inf_norm`, `equal` and the case analysis
    of `cosine`. */
module Distances {
  import opened Outcomes
  import opened Vectors

  /** `linf(a, b) = abs(a - b).max()`. numpy refuses the maximum of an empty
      array, so an empty pair is an error. `inf_norm` has the same body. */
  function Linf(a: seq<real>, b: seq<real>): (r: Result<real>)
    requires |a| == |b|
    ensures r.Err? <==> |a| == 0
    ensures r.Err? ==> r.error == EmptyArray
    ensures r.Ok? ==> forall i :: 0 <= i < |a| ==> Abs(a[i] - b[i]) <= r.value
    ensures r.Ok? ==> exists i :: 0 <= i < |a| && Abs(a[i] - b[i]) == r.value
  {
    if |a| == 0 then Err(EmptyArray)
    else
      var d := AbsDiff(a, b);
      var m := MaxOf(d);
      assert exists i :: 0 <= i < |a| && Abs(a[i] - b[i]) == m by {
        var k :| 0 <= k < |d| && d[k] == m;
      }
      Ok(m)
  }

  /** `equal(a, b, tol)`: the largest absolute difference is below `tol`,
      which is the same as every absolute difference being below `tol`. */
  function Equal(a: seq<real>, b: seq<real>, tol: real): (r: Result<bool>)
    requires |a| == |b|
    ensures r.Err? <==> |a| == 0
    ensures r.Ok? ==> (r.value <==> forall i :: 0 <= i < |a| ==> Abs(a[i] - b[i]) < tol)
  {
    match Linf(a, b)
    case Err(e) => Err(e)
    case Ok(d) => Ok(d < tol)
  }

  /** `linf` does not depend on the order of its arguments. */
  lemma LinfSymmetric(a: seq<real>, b: seq<real>)
    requires |a| == |b|
    ensures Linf(a, b) == Linf(b, a)
  {
    assert AbsDiff(a, b) == AbsDiff(b, a) by {
      forall i | 0 <= i < |a| ensures AbsDiff(a, b)[i] == AbsDiff(b, a)[i] {
        assert Abs(a[i] - b[i]) == Abs(b[i] - a[i]);
      }
    }
  }

  /** The distance of a non-empty vector to itself is zero. */
  lemma LinfSelf(a: seq<real>)
    requires |a| > 0
    ensures Linf(a, a) == Ok(0.0)
  {
    var i :| 0 <= i < |a| && Abs(a[i] - a[i]) == Linf(a, a).value;
  }

  /** `equal` does not depend on the order of its arguments. */
  lemma EqualSymmetric(a: seq<real>, b: seq<real>, tol: real)
    requires |a| == |b|
    ensures Equal(a, b, tol) == Equal(b, a, tol)
  {
    LinfSymmetric(a, b);
  }

  /** A non-empty vector is `equal` to itself for every positive tolerance,
      and for no other. */
  lemma EqualSelf(a: seq<real>, tol: real)
    requires |a| > 0
    ensures Equal(a, a, tol) == Ok(tol > 0.0)
  {
    LinfSelf(a);
  }

  /** The cases `cosine` distinguishes once both vectors are finite:
      `norm(v) == 0` holds over the reals exactly for the zero vector. */
  datatype CosineCase = BothZero | OneZero | NeitherZero

  predicate IsZero(v: seq<real>)
  {
    forall i :: 0 <= i < |v| ==> v[i] == 0.0
  }

  /** A positive multiple of a vector is zero exactly when the vector is. */
  lemma ScaledZeroIff(c: real, v: seq<real>)
    requires c > 0.0
    ensures IsZero(Scale(c, v)) <==> IsZero(v)
  {
    if !IsZero(v) {
      var i :| 0 <= i < |v| && v[i] != 0.0;
      ProductNonZero(c, v[i]);
      assert Scale(c, v)[i] != 0.0;
    }
  }

  function CosineCaseOf(a: seq<real>, b: seq<real>): (c: CosineCase)
    ensures c == BothZero <==> IsZero(a) && IsZero(b)
    ensures c == OneZero <==> IsZero(a) != IsZero(b)
    ensures c == NeitherZero <==> !IsZero(a) && !IsZero(b)
  {
    if IsZero(a) && IsZero(b) then BothZero
    else if !IsZero(a) && !IsZero(b) then NeitherZero
    else OneZero
  }

  /** `cosine(a, b)`, with `None` for NaN. The quotient
      `a.dot(b) / (norm(a) * norm(b))` needs square roots and is taken as the
      parameter `ratio`; it is only used when neither vector is zero. */
  function Cosine(a: seq<real>, b: seq<real>, ratio: real): (r: Option<real>)
    ensures r.None? <==> (IsZero(a) != IsZero(b))
    ensures IsZero(a) && IsZero(b) ==> r == Some(1.0)
    ensures !IsZero(a) && !IsZero(b) ==> r == Some(ratio)
  {
    match CosineCaseOf(a, b)
    case BothZero => Some(1.0)
    case NeitherZero => Some(ratio)
    case OneZero => None
  }

  /** The case split is symmetric: swapping the vectors never changes it. */
  lemma CosineCaseSymmetric(a: seq<real>, b: seq<real>)
    ensures CosineCaseOf(a, b) == CosineCaseOf(b, a)
  {
  }
}
