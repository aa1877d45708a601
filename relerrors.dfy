/** `show_largest_rel_errors(expect, got, alphabet)`: the indices whose
    relative error exceeds 0.00001, as records `[e, alphabet[i], x, y]` sorted
    in descending order, and the notes printed beside each record. */
module LargestRelErrors {
  import opened Outcomes
  import opened Vectors
  import opened Sorting

  /** A record `[e, name, x, y]` of `df`. */
  datatype Row = Row(err: real, name: string, expected: real, got: real)

  const KeepThreshold: real := 0.00001
  const OkThreshold: real := 0.01

  // ------------------------------------------------------------ per index

  /** `scale`: the larger magnitude, replaced by 1 only when both entries
      are zero. */
  function ShowScale(x: real, y: real): (s: real)
    ensures s > 0.0
    ensures s >= Abs(x) && s >= Abs(y)
    ensures x == 0.0 && y == 0.0 ==> s == 1.0
    ensures x != 0.0 || y != 0.0 ==> s == Abs(x) || s == Abs(y)
  {
    var m := Max(Abs(x), Abs(y));
    if m == 0.0 then 1.0 else m
  }

  /** `e = np.abs(x - y) / scale` */
  function ShowRelErr(x: real, y: real): (e: real)
    ensures e >= 0.0
    ensures e == 0.0 <==> x == y
  {
    var s := ShowScale(x, y);
    assert Abs(x - y) / s * s == Abs(x - y);
    Abs(x - y) / s
  }

  predicate Kept(e: real)
  {
    e > KeepThreshold
  }

  // ------------------------------------------------------------ the list

  /** Python's `zip` stops at the shorter vector. */
  function ZipLength(expected: seq<real>, got: seq<real>): (n: nat)
    ensures n <= |expected| && n <= |got|
    ensures n == |expected| || n == |got|
  {
    if |expected| <= |got| then |expected| else |got|
  }

  /** `df` after the first `n` iterations of the loop, or the lookup error
      `alphabet[i]` raises for a kept index past the end of `alphabet`. */
  function KeptRows(expected: seq<real>, got: seq<real>, alphabet: seq<string>, n: nat)
    : (r: Result<seq<Row>>)
    requires n <= |expected| && n <= |got|
    ensures r.Err? ==> r.error == IndexOutOfRange
    ensures r.Ok? ==> |r.value| <= n && forall k :: 0 <= k < |r.value| ==> Kept(r.value[k].err)
  {
    if n == 0 then Ok([])
    else
      match KeptRows(expected, got, alphabet, n - 1)
      case Err(error) => Err(error)
      case Ok(rows) =>
        var x, y := expected[n - 1], got[n - 1];
        var e := ShowRelErr(x, y);
        if !Kept(e) then Ok(rows)
        else if n - 1 >= |alphabet| then Err(IndexOutOfRange)
        else Ok(rows + [Row(e, alphabet[n - 1], x, y)])
  }

  // ------------------------------------------------------------ the order

  /** Python's `<=` on two strings: the first differing character decides,
      and a prefix comes first. */
  function StrLeq(s: string, t: string): (b: bool)
    ensures |s| <= |t| && s == t[..|s|] ==> b
    ensures |t| < |s| && t == s[..|t|] ==> !b
  {
    |s| == 0 || (|t| > 0 && (s[0] < t[0] || (s[0] == t[0] && StrLeq(s[1..], t[1..]))))
  }

  /** Python's `<=` on two lists `[e, name, x, y]`: compared entry by entry. */
  function RowLeq(r: Row, s: Row): (b: bool)
    ensures r.err < s.err ==> b
    ensures b ==> r.err <= s.err
    ensures r == s ==> b
  {
    r.err < s.err || (r.err == s.err &&
      ((r.name != s.name && StrLeq(r.name, s.name)) ||
       (r.name == s.name && (r.expected < s.expected ||
         (r.expected == s.expected && r.got <= s.got)))))
  }

  /** The order `df.sort(reverse=1)` leaves `df` in. */
  function RowGeq(r: Row, s: Row): (b: bool)
    ensures r.err > s.err ==> b
    ensures b ==> r.err >= s.err
  {
    RowLeq(s, r)
  }

  // ------------------------------------------------------------ the notes

  /** `np.sign` */
  function Sign(x: real): (s: int)
    ensures -1 <= s <= 1
    ensures s as real * Abs(x) == x
    ensures s == 0 <==> x == 0.0
  {
    if x > 0.0 then 1 else if x < 0.0 then -1 else 0
  }

  /** What is printed beside a record: `ok` or `bad`, `bigger` or `smaller`,
      and `wrong sign`. */
  datatype Note = Note(ok: bool, bigger: bool, wrongSign: bool)

  /** `wrong sign` is printed when the entries have opposite signs or
      exactly one of them is zero. */
  function NoteOf(r: Row): (n: Note)
    ensures n.wrongSign <==>
      r.expected * r.got < 0.0 || (r.expected == 0.0) != (r.got == 0.0)
  {
    ProductNegative(r.expected, r.got);
    Note(r.err <= OkThreshold, r.expected < r.got, Sign(r.expected) != Sign(r.got))
  }

  // ------------------------------------------------------------ the method

  /** The loop over `zip(expect, got)` that builds `df`, then `df.sort(reverse=1)`.
      Returns the sorted `df`, or the error of the first kept index with no
      label. */
  method ShowLargestRelErrors(expected: seq<real>, got: seq<real>, alphabet: seq<string>)
    returns (r: Result<seq<Row>>)
    ensures var kept := KeptRows(expected, got, alphabet, ZipLength(expected, got));
      (r.Err? <==> kept.Err?) && (r.Err? ==> r.error == kept.error) &&
      (r.Ok? ==> SortedBy(r.value, RowGeq) && multiset(r.value) == multiset(kept.value))
  {
    var df: seq<Row> := [];
    var n := ZipLength(expected, got);
    for i := 0 to n
      invariant KeptRows(expected, got, alphabet, i) == Ok(df)
    {
      var x, y := expected[i], got[i];
      var scale := Max(Abs(x), Abs(y));
      if scale == 0.0 {
        scale := 1.0;
      }
      var e := Abs(x - y) / scale;
      assert e == ShowRelErr(x, y);
      if e <= KeepThreshold {
        continue;
      }
      if i >= |alphabet| {
        KeptRowsErrPersists(expected, got, alphabet, i + 1, n);
        return Err(IndexOutOfRange);
      }
      df := df + [Row(e, alphabet[i], x, y)];
    }
    var rows := new Row[|df|](k requires 0 <= k < |df| => df[k]);
    assert rows[..] == df;
    RowGeqTotalPreorder();
    InsertionSort(rows, RowGeq);
    return Ok(rows[..]);
  }

  // ------------------------------------------------------------ lemmas

  /** Once the loop has raised, the whole call raises the same error. */
  lemma {:induction false} KeptRowsErrPersists(expected: seq<real>, got: seq<real>,
                                              alphabet: seq<string>, m: nat, n: nat)
    requires m <= n <= |expected| && n <= |got|
    requires KeptRows(expected, got, alphabet, m).Err?
    ensures KeptRows(expected, got, alphabet, n) == KeptRows(expected, got, alphabet, m)
    decreases n - m
  {
    if m < n {
      KeptRowsErrPersists(expected, got, alphabet, m, n - 1);
    }
  }

  lemma {:induction false} StrLeqTotal(s: string, t: string)
    ensures StrLeq(s, t) || StrLeq(t, s)
  {
    if |s| > 0 && |t| > 0 && s[0] == t[0] {
      StrLeqTotal(s[1..], t[1..]);
    }
  }

  lemma {:induction false} StrLeqTransitive(s: string, t: string, u: string)
    requires StrLeq(s, t) && StrLeq(t, u)
    ensures StrLeq(s, u)
  {
    if |s| > 0 && s[0] == t[0] && t[0] == u[0] {
      StrLeqTransitive(s[1..], t[1..], u[1..]);
    }
  }

  lemma {:induction false} StrLeqAntisymmetric(s: string, t: string)
    requires StrLeq(s, t) && StrLeq(t, s)
    ensures s == t
  {
    if |s| > 0 {
      StrLeqAntisymmetric(s[1..], t[1..]);
      assert s == [s[0]] + s[1..] && t == [t[0]] + t[1..];
    }
  }

  /** The order on records is total and transitive, so `df.sort` is
      well-defined. */
  lemma RowGeqTotalPreorder()
    ensures TotalPreorder(RowGeq)
  {
    forall r: Row, s: Row
      ensures RowLeq(r, s) || RowLeq(s, r)
    {
      StrLeqTotal(r.name, s.name);
    }
    forall r: Row, s: Row, t: Row | RowLeq(r, s) && RowLeq(s, t)
      ensures RowLeq(r, t)
    {
      if r.err == s.err == t.err && r.name != s.name && s.name != t.name {
        StrLeqTransitive(r.name, s.name, t.name);
        if r.name == t.name {
          StrLeqAntisymmetric(r.name, s.name);
        }
      }
    }
  }

  /** Two records each `<=` the other are the same record, so the sorted
      `df` is the one sorted arrangement of its records (`SortedUnique`). */
  lemma RowGeqAntisymmetric()
    ensures Antisymmetric(RowGeq)
  {
    forall r: Row, s: Row | RowLeq(r, s) && RowLeq(s, r)
      ensures r == s
    {
      if r.name != s.name {
        StrLeqAntisymmetric(r.name, s.name);
      }
    }
  }

  // ------------------------------------------------ the list, all at once

  /** The record the loop builds for a kept index `i`. */
  function RowAt(expected: seq<real>, got: seq<real>, alphabet: seq<string>, i: nat): Row
    requires i < |expected| && i < |got| && i < |alphabet|
  {
    Row(ShowRelErr(expected[i], got[i]), alphabet[i], expected[i], got[i])
  }

  /** The loop raises exactly when some kept index has no entry in `alphabet`. */
  lemma {:induction false} KeptRowsErrIff(expected: seq<real>, got: seq<real>,
                                         alphabet: seq<string>, n: nat)
    requires n <= |expected| && n <= |got|
    ensures KeptRows(expected, got, alphabet, n).Err? <==>
      exists i :: 0 <= i < n && |alphabet| <= i && Kept(ShowRelErr(expected[i], got[i]))
  {
    if n > 0 {
      KeptRowsErrIff(expected, got, alphabet, n - 1);
      if KeptRows(expected, got, alphabet, n - 1).Err? {
        var i :| 0 <= i < n - 1 && |alphabet| <= i && Kept(ShowRelErr(expected[i], got[i]));
        assert 0 <= i < n;
      }
    }
  }

  /** The rows are exactly the records of the kept indices, each with its
      error above 0.00001. */
  lemma {:induction false} KeptRowsMembers(expected: seq<real>, got: seq<real>,
                                          alphabet: seq<string>, n: nat)
    requires n <= |expected| && n <= |got|
    requires KeptRows(expected, got, alphabet, n).Ok?
    ensures var rows := KeptRows(expected, got, alphabet, n).value;
      (forall k :: 0 <= k < |rows| ==>
         Kept(rows[k].err) &&
         exists i :: 0 <= i < n && i < |alphabet| && rows[k] == RowAt(expected, got, alphabet, i)) &&
      (forall i :: 0 <= i < n && Kept(ShowRelErr(expected[i], got[i])) ==>
         i < |alphabet| && RowAt(expected, got, alphabet, i) in rows)
  {
    if n > 0 {
      KeptRowsMembers(expected, got, alphabet, n - 1);
      var rows := KeptRows(expected, got, alphabet, n - 1).value;
      var e := ShowRelErr(expected[n - 1], got[n - 1]);
      if Kept(e) {
        var row := RowAt(expected, got, alphabet, n - 1);
        var all := rows + [row];
        assert KeptRows(expected, got, alphabet, n).value == all;
        forall k | 0 <= k < |all|
          ensures Kept(all[k].err) &&
            exists i :: 0 <= i < n && i < |alphabet| && all[k] == RowAt(expected, got, alphabet, i)
        {
          if k < |rows| {
            assert all[k] == rows[k];
          } else {
            assert all[k] == RowAt(expected, got, alphabet, n - 1);
          }
        }
        assert all[|rows|] == row;
      }
    }
  }

  /** Two identical vectors keep no index, whatever the alphabet. */
  lemma {:induction false} KeptRowsIdentical(a: seq<real>, alphabet: seq<string>, n: nat)
    requires n <= |a|
    ensures KeptRows(a, a, alphabet, n) == Ok([])
  {
    if n > 0 {
      KeptRowsIdentical(a, alphabet, n - 1);
    }
  }

  /** Along a list sorted by `df.sort(reverse=1)` the errors never increase. */
  lemma SortedErrorsNonIncreasing(rows: seq<Row>)
    requires SortedBy(rows, RowGeq)
    ensures forall i, j :: 0 <= i < j < |rows| ==> rows[i].err >= rows[j].err
  {
    forall i, j | 0 <= i < j < |rows|
      ensures rows[i].err >= rows[j].err
    {
      assert RowGeq(rows[i], rows[j]);
    }
  }

  /** Against a zero entry the scale is the other magnitude, so the error is
      1, where `compare` divides by 1 instead. */
  lemma ShowRelErrAgainstZero(y: real)
    requires y != 0.0
    ensures ShowRelErr(0.0, y) == 1.0 && ShowRelErr(y, 0.0) == 1.0
  {
    QuotientSelf(Abs(y));
  }

  lemma QuotientAtLeastOne(a: real, d: real)
    requires d > 0.0 && a >= d
    ensures a / d >= 1.0
  {
    var q := a / d;
    assert q * d == a;
    assert (q - 1.0) * d == a - d;
    NonNegativeFactor(q - 1.0, d);
  }

  /** A record whose entries differ in sign has an error of at least 1, so it
      is always printed as `bad`. */
  lemma WrongSignIsBad(r: Row)
    requires r.err == ShowRelErr(r.expected, r.got)
    requires NoteOf(r).wrongSign
    ensures r.err >= 1.0 && !NoteOf(r).ok
  {
    var x, y := r.expected, r.got;
    assert Abs(x - y) >= ShowScale(x, y);
    QuotientAtLeastOne(Abs(x - y), ShowScale(x, y));
  }
}
