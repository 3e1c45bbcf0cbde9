/**
  The reductions the engine performs with pandas `groupby` and `pivot_table`:
  the records of a group are collected, missing values are skipped, and the
  remaining values are summed or averaged.
 */
module Aggregate {
  import opened Series

  /** The key under which a reduction collects records. */
  datatype Group = ByYear(year: nat) | ByMonth(month: Month) | ByYearMonth(year: nat, month: Month)

  predicate InGroup(r: Record, g: Group)
  {
    match g
    case ByYear(y) => r.year == y
    case ByMonth(m) => r.month == m
    case ByYearMonth(y, m) => r.year == y && r.month == m
  }

  /**
    The present values of the records of group `g`, in input order: what a
    pandas reduction sees once it has skipped NaN.
   */
  function Observations(recs: seq<Record>, g: Group): (xs: seq<real>)
    ensures |xs| <= |recs|
  {
    if recs == [] then []
    else
      var here := if InGroup(recs[0], g) && recs[0].value.Some? then [recs[0].value.value] else [];
      here + Observations(recs[1..], g)
  }

  /** A value is observed in a group exactly when some record of the group holds it. */
  lemma {:induction false} ObservationsMembers(recs: seq<Record>, g: Group, x: real)
    ensures x in Observations(recs, g) <==>
              exists i :: 0 <= i < |recs| && InGroup(recs[i], g) && recs[i].value == Some(x)
  {
    if recs != [] {
      ObservationsMembers(recs[1..], g, x);
      if exists i :: 0 <= i < |recs| && InGroup(recs[i], g) && recs[i].value == Some(x) {
        var i :| 0 <= i < |recs| && InGroup(recs[i], g) && recs[i].value == Some(x);
        if i > 0 {
          assert recs[1..][i - 1] == recs[i];
        }
      }
    }
  }

  /** A group has no observation exactly when every one of its records is missing. */
  lemma {:induction false} ObservationsEmpty(recs: seq<Record>, g: Group)
    ensures Observations(recs, g) == [] <==>
              forall i :: 0 <= i < |recs| && InGroup(recs[i], g) ==> recs[i].value.None?
  {
    if recs != [] {
      ObservationsEmpty(recs[1..], g);
      assert forall i :: 1 <= i < |recs| ==> recs[1..][i - 1] == recs[i];
    }
  }

  /** Group reductions distribute over a concatenation of record runs. */
  lemma {:induction false} ObservationsAppend(a: seq<Record>, b: seq<Record>, g: Group)
    ensures Observations(a + b, g) == Observations(a, g) + Observations(b, g)
  {
    if a == [] {
      assert a + b == b;
    } else {
      var c := a + b;
      assert c[0] == a[0] && c[1..] == a[1..] + b;
      ObservationsAppend(a[1..], b, g);
    }
  }

  /** A record whose value is missing contributes to no group. */
  lemma MissingRecordObservesNothing(a: seq<Record>, r: Record, b: seq<Record>, g: Group)
    requires r.value.None?
    ensures Observations(a + [r] + b, g) == Observations(a + b, g)
  {
    ObservationsAppend(a + [r], b, g);
    ObservationsAppend(a, [r], g);
    ObservationsAppend(a, b, g);
    assert Observations([r], g) == [];
  }

  /** A record of one month lies in the year group and in the (year, month) cell of its date. */
  lemma {:induction false} CellObservationIsYearObservation(recs: seq<Record>, y: nat, m: Month)
    requires Observations(recs, ByYearMonth(y, m)) != []
    ensures Observations(recs, ByYear(y)) != []
    ensures Observations(recs, ByMonth(m)) != []
  {
    var x := Observations(recs, ByYearMonth(y, m))[0];
    ObservationsMembers(recs, ByYearMonth(y, m), x);
    var i :| 0 <= i < |recs| && InGroup(recs[i], ByYearMonth(y, m)) && recs[i].value == Some(x);
    ObservationsMembers(recs, ByYear(y), x);
    ObservationsMembers(recs, ByMonth(m), x);
  }

  /** A year with an observation has an observation in the cell of one of its months. */
  lemma {:induction false} YearObservationHasCell(recs: seq<Record>, y: nat) returns (m: Month)
    requires Observations(recs, ByYear(y)) != []
    ensures Observations(recs, ByYearMonth(y, m)) != []
  {
    var x := Observations(recs, ByYear(y))[0];
    ObservationsMembers(recs, ByYear(y), x);
    var i :| 0 <= i < |recs| && InGroup(recs[i], ByYear(y)) && recs[i].value == Some(x);
    m := recs[i].month;
    ObservationsMembers(recs, ByYearMonth(y, m), x);
  }

  /** A month with an observation has an observation in the cell of one of the years. */
  lemma {:induction false} MonthObservationHasYear(recs: seq<Record>, m: Month) returns (y: nat)
    requires Observations(recs, ByMonth(m)) != []
    ensures Observations(recs, ByYear(y)) != []
  {
    var x := Observations(recs, ByMonth(m))[0];
    ObservationsMembers(recs, ByMonth(m), x);
    var i :| 0 <= i < |recs| && InGroup(recs[i], ByMonth(m)) && recs[i].value == Some(x);
    y := recs[i].year;
    ObservationsMembers(recs, ByYear(y), x);
  }

  /**
    A group with one present record observes exactly that record's value,
    whatever missing records the group also holds.
   */
  lemma {:induction false} ObservationsOnePresent(recs: seq<Record>, g: Group, k: nat, v: real)
    requires k < |recs| && InGroup(recs[k], g) && recs[k].value == Some(v)
    requires forall j :: 0 <= j < |recs| && InGroup(recs[j], g) && j != k ==> recs[j].value.None?
    ensures Observations(recs, g) == [v]
  {
    if k == 0 {
      assert forall i :: 0 <= i < |recs[1..]| ==> recs[1..][i] == recs[i + 1];
      ObservationsEmpty(recs[1..], g);
    } else {
      assert recs[1..][k - 1] == recs[k];
      assert forall i :: 0 <= i < |recs[1..]| ==> recs[1..][i] == recs[i + 1];
      ObservationsOnePresent(recs[1..], g, k - 1, v);
    }
  }

  /** The sum reduction; the sum of no value is 0. */
  function Sum(xs: seq<real>): real
  {
    if xs == [] then 0.0 else xs[0] + Sum(xs[1..])
  }

  /** A sum of values lying between lo and hi lies between |xs|*lo and |xs|*hi. */
  lemma {:induction false} SumBounds(xs: seq<real>, lo: real, hi: real)
    requires forall k :: 0 <= k < |xs| ==> lo <= xs[k] <= hi
    ensures |xs| as real * lo <= Sum(xs) <= |xs| as real * hi
  {
    if xs != [] {
      SumBounds(xs[1..], lo, hi);
    }
  }

  /** The mean reduction; the mean of no value is missing, never zero. */
  function Mean(xs: seq<real>): (r: Option<real>)
    ensures r.None? <==> xs == []
  {
    if xs == [] then None else Some(Sum(xs) / |xs| as real)
  }

  /** The mean of values lying between lo and hi lies between lo and hi. */
  lemma MeanBounds(xs: seq<real>, lo: real, hi: real)
    requires xs != []
    requires forall k :: 0 <= k < |xs| ==> lo <= xs[k] <= hi
    ensures lo <= Mean(xs).value <= hi
  {
    var n := |xs| as real;
    SumBounds(xs, lo, hi);
    assert n * lo <= Sum(xs) <= n * hi;
    assert Sum(xs) / n >= lo by {
      assert Sum(xs) - n * lo >= 0.0;
      assert (Sum(xs) - n * lo) / n >= 0.0;
    }
    assert Sum(xs) / n <= hi by {
      assert n * hi - Sum(xs) >= 0.0;
      assert (n * hi - Sum(xs)) / n >= 0.0;
    }
  }

  /** The mean of a single value is that value. */
  lemma MeanSingleton(v: real)
    ensures Mean([v]) == Some(v)
  {
    assert Sum([v]) == v + Sum([]);
  }

  predicate Ascending(ys: seq<nat>)
  {
    forall i, j :: 0 <= i < j < |ys| ==> ys[i] < ys[j]
  }

  /** Adds one year to an ascending list of distinct years. */
  function InsertYear(ys: seq<nat>, y: nat): (r: seq<nat>)
    requires Ascending(ys)
    ensures Ascending(r)
    ensures forall z :: z in r <==> z in ys || z == y
  {
    if ys == [] then [y]
    else if y < ys[0] then [y] + ys
    else if y == ys[0] then ys
    else
      var rest := InsertYear(ys[1..], y);
      assert forall z :: z in ys[1..] ==> ys[0] < z;
      assert forall k :: 0 <= k < |rest| ==> rest[k] in rest;
      [ys[0]] + rest
  }

  /**
    The row index of the pivot table: the years that hold at least one present
    value, ascending. pandas drops the (year, month) groups whose mean is NaN,
    so a year whose every value is missing yields no row.
   */
  function Years(recs: seq<Record>): (ys: seq<nat>)
    ensures Ascending(ys)
    ensures forall y :: y in ys <==> Observations(recs, ByYear(y)) != []
  {
    if recs == [] then []
    else if recs[0].value.Some? then InsertYear(Years(recs[1..]), recs[0].year)
    else Years(recs[1..])
  }

  /** A record whose value is missing adds no year to the row index. */
  lemma {:induction false} YearsSkipMissing(a: seq<Record>, r: Record, b: seq<Record>)
    requires r.value.None?
    ensures Years(a + [r] + b) == Years(a + b)
  {
    if a == [] {
      assert a + [r] + b == [r] + b && ([r] + b)[1..] == b && a + b == b;
    } else {
      assert (a + [r] + b)[1..] == a[1..] + [r] + b;
      assert (a + b)[1..] == a[1..] + b;
      YearsSkipMissing(a[1..], r, b);
    }
  }
}
