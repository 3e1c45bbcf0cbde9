/**
  Properties of the reorganised table: what its cells mean in terms of the
  input records, and how the sentinel, the empty cells and the slices of the
  source shape it.
 */
module EngineProperties {
  import opened Series
  import opened Aggregate
  import opened Engine

  /** Every successfully reorganised series yields at least one year row. */
  lemma {:induction false} TableHasYearRow(raw: seq<Record>, monthNames: seq<string>)
    requires |monthNames| == 12 && Reorganize(raw, monthNames).Success?
    ensures |Reorganize(raw, monthNames).value.rows| >= 1
  {
    var y := MonthObservationHasYear(Normalize(raw), 1);
    assert y in RowYears(Reorganize(raw, monthNames).value.rows);
  }

  /**
    The cells of the table in terms of the records: a year row holds the mean of
    each (year, month) and the sum of the year; the mean row holds the mean of
    each month over all years.
   */
  lemma TableCells(raw: seq<Record>, monthNames: seq<string>, i: nat, m: Month)
    requires |monthNames| == 12 && Reorganize(raw, monthNames).Success?
    requires i < |Reorganize(raw, monthNames).value.rows|
    ensures var t := Reorganize(raw, monthNames).value;
            && t.rows[i].cells[m - 1] == PivotCell(Normalize(raw), t.rows[i].year, m)
            && t.rows[i].annualSum == AnnualSum(Normalize(raw), t.rows[i].year)
            && t.monthlyMeans[m - 1] == MonthlyMean(Normalize(raw), m)
  {
  }

  lemma YearRowCongruent(r1: seq<Record>, r2: seq<Record>, y: nat)
    requires Observations(r1, ByYear(y)) == Observations(r2, ByYear(y))
    requires forall m: Month :: Observations(r1, ByYearMonth(y, m)) == Observations(r2, ByYearMonth(y, m))
    ensures YearRowOf(r1, y) == YearRowOf(r2, y)
  {
    var c1, c2 := YearRowOf(r1, y).cells, YearRowOf(r2, y).cells;
    forall k | 0 <= k < 12 ensures c1[k] == c2[k] {
      assert c1[k] == PivotCell(r1, y, k + 1) && c2[k] == PivotCell(r2, y, k + 1);
      assert Observations(r1, ByYearMonth(y, k + 1)) == Observations(r2, ByYearMonth(y, k + 1));
    }
    assert c1 == c2;
    assert AnnualSum(r1, y) == AnnualSum(r2, y);
  }

  lemma MonthlyMeansCongruent(r1: seq<Record>, r2: seq<Record>)
    requires forall m: Month :: Observations(r1, ByMonth(m)) == Observations(r2, ByMonth(m))
    ensures MonthlyMeans(r1) == MonthlyMeans(r2)
  {
    forall k | 0 <= k < 12 ensures MonthlyMeans(r1)[k] == MonthlyMeans(r2)[k] {
      assert Observations(r1, ByMonth(k + 1)) == Observations(r2, ByMonth(k + 1));
    }
  }

  /** The table depends on the series only through its group observations and its year index. */
  lemma SummarizeCongruent(r1: seq<Record>, r2: seq<Record>, monthNames: seq<string>)
    requires |monthNames| == 12
    requires forall g :: Observations(r1, g) == Observations(r2, g)
    requires Years(r1) == Years(r2)
    ensures Summarize(r1, monthNames) == Summarize(r2, monthNames)
  {
    assert AllMonthsObserved(r1) == AllMonthsObserved(r2);
    MonthlyMeansCongruent(r1, r2);
    var years := Years(r1);
    var rows1 := seq(|years|, i requires 0 <= i < |years| => YearRowOf(r1, years[i]));
    var rows2 := seq(|years|, i requires 0 <= i < |years| => YearRowOf(r2, years[i]));
    forall i | 0 <= i < |years| ensures rows1[i] == rows2[i] {
      YearRowCongruent(r1, r2, years[i]);
    }
    assert rows1 == rows2;
  }

  /**
    A record whose cell is empty or holds the sentinel changes nothing: the
    table is the one built without it (as long as some record remains, since
    an empty sheet fails).
   */
  lemma UnobservedRecordIsInert(a: seq<Record>, r: Record, b: seq<Record>, monthNames: seq<string>)
    requires |monthNames| == 12 && a + b != []
    requires r.value.None? || r.value == Some(Sentinel)
    ensures Reorganize(a + [r] + b, monthNames) == Reorganize(a + b, monthNames)
  {
    NormalizeAppend(a + [r], b);
    NormalizeAppend(a, [r]);
    NormalizeAppend(a, b);
    var r' := Normalize([r])[0];
    assert Normalize([r]) == [r'];
    var left, right := Normalize(a + [r] + b), Normalize(a + b);
    assert left == Normalize(a) + [r'] + Normalize(b);
    forall g ensures Observations(left, g) == Observations(right, g) {
      MissingRecordObservesNothing(Normalize(a), r', Normalize(b), g);
    }
    YearsSkipMissing(Normalize(a), r', Normalize(b));
    SummarizeCongruent(left, right, monthNames);
  }

  /** The sentinel code never reaches a reduction, whatever the group. */
  lemma SentinelNeverObserved(raw: seq<Record>, g: Group)
    ensures Sentinel !in Observations(Normalize(raw), g)
  {
    ObservationsMembers(Normalize(raw), g, Sentinel);
  }

  /**
    Round trip: when a (year, month) has exactly one present record, whatever
    empty or -9999 records it also holds, that year has a row and the row's
    cell for the month is the original value.
   */
  lemma SingleRecordRoundTrip(raw: seq<Record>, monthNames: seq<string>, k: nat) returns (i: nat)
    requires |monthNames| == 12 && Reorganize(raw, monthNames).Success?
    requires k < |raw| && raw[k].value.Some? && raw[k].value != Some(Sentinel)
    requires forall j :: 0 <= j < |raw| && j != k && raw[j].year == raw[k].year && raw[j].month == raw[k].month ==>
               raw[j].value.None? || raw[j].value == Some(Sentinel)
    ensures var t := Reorganize(raw, monthNames).value;
            && i < |t.rows| && t.rows[i].year == raw[k].year
            && t.rows[i].cells[raw[k].month - 1] == raw[k].value
  {
    var recs := Normalize(raw);
    var y, m, v := raw[k].year, raw[k].month, raw[k].value.value;
    ObservationsOnePresent(recs, ByYearMonth(y, m), k, v);
    MeanSingleton(v);
    CellObservationIsYearObservation(recs, y, m);
    var t := Reorganize(raw, monthNames).value;
    assert y in RowYears(t.rows);
    i :| 0 <= i < |t.rows| && t.rows[i].year == y;
    TableCells(raw, monthNames, i, m);
  }

  /**
    The sum of a year whose records are all missing is 0, never missing, while
    each of its month cells is missing; pandas drops such a year from the
    pivot, so it has no row.
   */
  lemma UnobservedYear(raw: seq<Record>, y: nat, m: Month)
    requires forall i :: 0 <= i < |raw| && raw[i].year == y ==>
               raw[i].value.None? || raw[i].value == Some(Sentinel)
    ensures AnnualSum(Normalize(raw), y) == 0.0
    ensures PivotCell(Normalize(raw), y, m) == None
    ensures y !in Years(Normalize(raw))
  {
    var recs := Normalize(raw);
    ObservationsEmpty(recs, ByYear(y));
    ObservationsEmpty(recs, ByYearMonth(y, m));
  }

  /**
    A month cell of the mean row is present and lies within the range of the
    present values dated in that month.
   */
  lemma MonthlyMeanInRange(raw: seq<Record>, monthNames: seq<string>, m: Month, lo: real, hi: real)
    requires |monthNames| == 12 && Reorganize(raw, monthNames).Success?
    requires forall i :: 0 <= i < |raw| && raw[i].month == m && raw[i].value.Some? && raw[i].value != Some(Sentinel) ==>
               lo <= raw[i].value.value <= hi
    ensures var mean := Reorganize(raw, monthNames).value.monthlyMeans[m - 1];
            mean.Some? && lo <= mean.value <= hi
  {
    var recs := Normalize(raw);
    var xs := Observations(recs, ByMonth(m));
    forall k | 0 <= k < |xs| ensures lo <= xs[k] <= hi {
      ObservationsMembers(recs, ByMonth(m), xs[k]);
    }
    MeanBounds(xs, lo, hi);
  }

  /**
    A year row's month cell is missing exactly when that (year, month) has no
    present value, and otherwise lies within the range of its present values.
   */
  lemma PivotCellInRange(raw: seq<Record>, monthNames: seq<string>, i: nat, m: Month, lo: real, hi: real)
    requires |monthNames| == 12 && Reorganize(raw, monthNames).Success?
    requires i < |Reorganize(raw, monthNames).value.rows|
    requires var y := Reorganize(raw, monthNames).value.rows[i].year;
             forall j :: 0 <= j < |raw| && raw[j].year == y && raw[j].month == m
                         && raw[j].value.Some? && raw[j].value != Some(Sentinel) ==>
               lo <= raw[j].value.value <= hi
    ensures var t := Reorganize(raw, monthNames).value;
            var cell := t.rows[i].cells[m - 1];
            && (cell.None? <==> Observations(Normalize(raw), ByYearMonth(t.rows[i].year, m)) == [])
            && (cell.Some? ==> lo <= cell.value <= hi)
  {
    var recs := Normalize(raw);
    var y := Reorganize(raw, monthNames).value.rows[i].year;
    var xs := Observations(recs, ByYearMonth(y, m));
    TableCells(raw, monthNames, i, m);
    if xs != [] {
      forall k | 0 <= k < |xs| ensures lo <= xs[k] <= hi {
        ObservationsMembers(recs, ByYearMonth(y, m), xs[k]);
      }
      MeanBounds(xs, lo, hi);
    }
  }

  /**
    The corner cell averages the annual sums of every year row but the earliest,
    because the slice from position 2 skips the header row and the first year;
    with a single year it is missing.
   */
  lemma MeanOfSumsSkipsEarliestYear(raw: seq<Record>, monthNames: seq<string>)
    requires |monthNames| == 12 && Reorganize(raw, monthNames).Success?
    ensures var t := Reorganize(raw, monthNames).value;
            && (|t.rows| == 1 ==> t.meanOfSums == None)
            && (|t.rows| >= 2 ==>
                  t.meanOfSums == Some(Sum(AnnualSums(t.rows)[1..]) / (|t.rows| - 1) as real))
  {
    TableHasYearRow(raw, monthNames);
    var t := Reorganize(raw, monthNames).value;
    assert AnnualSums(t.rows)[1..] == AnnualSums(t.rows[1..]);
  }
}
