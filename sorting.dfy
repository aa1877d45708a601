/** In-place sorting by a caller-supplied order, the effect of Python's
    `list.sort` and numpy's `ndarray.sort` on the values they reorder. */
module Sorting {

  /** `le` compares every pair and is transitive. */
  ghost predicate TotalPreorder<T(!new)>(le: (T, T) -> bool)
  {
    (forall x, y :: le(x, y) || le(y, x)) &&
    (forall x, y, z :: le(x, y) && le(y, z) ==> le(x, z))
  }

  /** `le` relates two distinct values in at most one direction. */
  ghost predicate Antisymmetric<T(!new)>(le: (T, T) -> bool)
  {
    forall x, y :: le(x, y) && le(y, x) ==> x == y
  }

  /** Every earlier element is `le` every later one. */
  predicate SortedBy<T>(s: seq<T>, le: (T, T) -> bool)
  {
    forall i, j :: 0 <= i < j < |s| ==> le(s[i], s[j])
  }

  /** Sorts `a` in place by insertion; the result is ordered by `le` and
      holds the same elements as before. */
  method InsertionSort<T(!new)>(a: array<T>, le: (T, T) -> bool)
    requires TotalPreorder(le)
    modifies a
    ensures SortedBy(a[..], le)
    ensures multiset(a[..]) == multiset(old(a[..]))
  {
    if a.Length == 0 {
      return;
    }
    var i := 1;
    while i < a.Length
      invariant 1 <= i <= a.Length
      invariant SortedBy(a[..i], le)
      invariant multiset(a[..]) == multiset(old(a[..]))
    {
      Insert(a, i, le);
      i := i + 1;
    }
    assert a[..] == a[..a.Length];
  }

  /** Moves `a[i]` left by adjacent swaps until the prefix `a[..i + 1]` is
      ordered; the prefix keeps its elements and the rest of `a` is not
      touched. */
  method Insert<T(!new)>(a: array<T>, i: nat, le: (T, T) -> bool)
    requires TotalPreorder(le)
    requires i < a.Length && SortedBy(a[..i], le)
    modifies a
    ensures SortedBy(a[..i + 1], le)
    ensures multiset(a[..i + 1]) == multiset(old(a[..i + 1]))
    ensures a[i + 1..] == old(a[i + 1..])
    ensures multiset(a[..]) == multiset(old(a[..]))
  {
    var j := SiftLeft(a, i, le);
    ghost var s := a[..];
    ghost var s0 := old(a[..]);
    InsertedPrefixSorted(s, i, j, le);
    PrefixMultiset(s, s0, i + 1);
    assert a[..i + 1] == s[..i + 1] && a[i + 1..] == s[i + 1..];
    assert old(a[..i + 1]) == s0[..i + 1] && old(a[i + 1..]) == s0[i + 1..];
  }

  /** The swap loop of `Insert`: returns the final position `j` of the moved
      element, which is ordered against the rest of `a[..i + 1]`. */
  method SiftLeft<T(!new)>(a: array<T>, i: nat, le: (T, T) -> bool) returns (j: nat)
    requires TotalPreorder(le)
    requires i < a.Length && SortedBy(a[..i], le)
    modifies a
    ensures j <= i
    ensures forall p, q :: 0 <= p < q <= i && p != j && q != j ==> le(a[p], a[q])
    ensures forall q :: j < q <= i ==> le(a[j], a[q])
    ensures j > 0 ==> le(a[j - 1], a[j])
    ensures multiset(a[..]) == multiset(old(a[..]))
    ensures forall k :: i < k < a.Length ==> a[k] == old(a[k])
  {
    j := i;
    while j > 0 && !le(a[j - 1], a[j])
      invariant 0 <= j <= i
      invariant forall p, q :: 0 <= p < q <= i && p != j && q != j ==> le(a[p], a[q])
      invariant forall q :: j < q <= i ==> le(a[j], a[q])
      invariant multiset(a[..]) == multiset(old(a[..]))
      invariant forall k :: i < k < a.Length ==> a[k] == old(a[k])
    {
      SwapAdjacent(a, j, i);
      j := j - 1;
    }
  }

  /** After the last swap, `a[j]` sits between its neighbours, and the prefix
      `s[..i + 1]` is ordered. */
  lemma InsertedPrefixSorted<T(!new)>(s: seq<T>, i: nat, j: nat, le: (T, T) -> bool)
    requires TotalPreorder(le)
    requires j <= i < |s|
    requires forall p, q :: 0 <= p < q <= i && p != j && q != j ==> le(s[p], s[q])
    requires forall q :: j < q <= i ==> le(s[j], s[q])
    requires j > 0 ==> le(s[j - 1], s[j])
    ensures SortedBy(s[..i + 1], le)
  {
    forall p, q | 0 <= p < q <= i
      ensures le(s[p], s[q])
    {
      if q == j && p < j - 1 {
        assert le(s[p], s[j - 1]) && le(s[j - 1], s[j]);
      }
    }
  }

  /** Exchanges `a[j - 1]` and `a[j]`, inside the prefix `a[..i + 1]`. */
  method SwapAdjacent<T>(a: array<T>, j: nat, i: nat)
    requires 0 < j <= i < a.Length
    modifies a
    ensures a[j - 1] == old(a[j]) && a[j] == old(a[j - 1])
    ensures forall k :: 0 <= k < a.Length && k != j - 1 && k != j ==> a[k] == old(a[k])
    ensures multiset(a[..]) == multiset(old(a[..]))
  {
    a[j - 1], a[j] := a[j], a[j - 1];
  }

  /** Two arrangements of one multiset that agree from `k` on agree as
      multisets before `k`. */
  lemma PrefixMultiset<T>(s: seq<T>, t: seq<T>, k: nat)
    requires k <= |s| == |t|
    requires forall n :: k <= n < |s| ==> s[n] == t[n]
    requires multiset(s) == multiset(t)
    ensures s[k..] == t[k..]
    ensures multiset(s[..k]) == multiset(t[..k])
  {
    assert s[k..] == t[k..];
    assert s == s[..k] + s[k..] && t == t[..k] + t[k..];
    assert multiset(s) == multiset(s[..k]) + multiset(s[k..]);
    assert multiset(t) == multiset(t[..k]) + multiset(t[k..]);
    assert multiset(s[..k]) == multiset(s) - multiset(s[k..]);
    assert multiset(t[..k]) == multiset(t) - multiset(t[k..]);
  }

  /** Under an antisymmetric order there is one sorted arrangement of a
      multiset: every sorting algorithm gives the same sequence. */
  lemma {:induction false} SortedUnique<T(!new)>(s: seq<T>, t: seq<T>, le: (T, T) -> bool)
    requires Antisymmetric(le)
    requires SortedBy(s, le) && SortedBy(t, le)
    requires multiset(s) == multiset(t)
    ensures s == t
    decreases |s|
  {
    assert |s| == |multiset(s)| == |t|;
    if |s| > 0 {
      assert s[0] in multiset(t) && t[0] in multiset(s);
      var i :| 0 <= i < |s| && s[i] == t[0];
      var j :| 0 <= j < |t| && t[j] == s[0];
      if i != 0 && j != 0 {
        assert le(s[0], s[i]) && le(t[0], t[j]);
      }
      assert s[0] == t[0];
      MultisetTail(s, t);
      SortedUnique(s[1..], t[1..], le);
    }
  }

  /** Removing an equal first element from two equal multisets. */
  lemma MultisetTail<T>(s: seq<T>, t: seq<T>)
    requires |s| > 0 && |t| > 0 && s[0] == t[0]
    requires multiset(s) == multiset(t)
    ensures multiset(s[1..]) == multiset(t[1..])
  {
    assert s == [s[0]] + s[1..];
    assert t == [t[0]] + t[1..];
    assert multiset(s) == multiset{s[0]} + multiset(s[1..]);
    assert multiset(t) == multiset{t[0]} + multiset(t[1..]);
    assert multiset(s[1..]) == multiset(s) - multiset{s[0]};
    assert multiset(t[1..]) == multiset(t) - multiset{t[0]};
  }
}
