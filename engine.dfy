/**
  The pivot engine of `reorganize_ods`: a long (date, value) series becomes a
  year-by-month table with an annual-sum column, a monthly-mean row and, in the
  corner cell, the mean of the annual sums.
 */
module Engine {
  import opened Series
  import opened Aggregate

  const AnnualSumLabel: string := "Suma Anual"
  const MonthlyMeanLabel: string := "Media Mensual"

  /** The index key under which the header row is inserted before the sort. */
  const HeaderKey: real := -1.0

  /** A year row: the year, its twelve month cells (January first) and its annual sum. */
  datatype YearRow = YearRow(year: nat, cells: seq<Option<real>>, annualSum: real)

  /**
    The reorganised table, with its three kinds of rows kept apart: the header
    row (twelve month names, then the annual-sum label), the year rows in index
    order, and the monthly-mean row, whose last cell is the mean of the annual sums.
   */
  datatype Table = Table(header: seq<string>, rows: seq<YearRow>, monthlyMeans: seq<Option<real>>, meanOfSums: Option<real>)

  /**
    The ways the engine fails: an empty sheet has no date column to find, and a
    month without any present value leaves the pivot with fewer than twelve
    columns, so the twelve month names cannot be written as a row.
   */
  datatype EngineError = EmptySeries | MonthWithoutData

  /** A cell of the saved sheet. */
  datatype Cell = Text(text: string) | Number(x: real) | NaN

  predicate Shaped(t: Table)
  {
    && |t.header| == 13
    && |t.monthlyMeans| == 12
    && forall i :: 0 <= i < |t.rows| ==> |t.rows[i].cells| == 12
  }

  function RowYears(rows: seq<YearRow>): (ys: seq<nat>)
    ensures |ys| == |rows| && forall i :: 0 <= i < |rows| ==> ys[i] == rows[i].year
  {
    seq(|rows|, i requires 0 <= i < |rows| => rows[i].year)
  }

  function AnnualSums(rows: seq<YearRow>): (sums: seq<real>)
    ensures |sums| == |rows| && forall i :: 0 <= i < |rows| ==> sums[i] == rows[i].annualSum
  {
    seq(|rows|, i requires 0 <= i < |rows| => rows[i].annualSum)
  }

  /** A pivot cell: the mean of the present values of one (year, month), pivot_table's default aggregation. */
  function PivotCell(recs: seq<Record>, y: nat, m: Month): Option<real>
  {
    Mean(Observations(recs, ByYearMonth(y, m)))
  }

  /** A year's total: the sum of its present values, taken from the records and not from the pivot cells. */
  function AnnualSum(recs: seq<Record>, y: nat): real
  {
    Sum(Observations(recs, ByYear(y)))
  }

  /** A month's long-run mean: the mean of the present values dated in that month, over all years. */
  function MonthlyMean(recs: seq<Record>, m: Month): Option<real>
  {
    Mean(Observations(recs, ByMonth(m)))
  }

  function YearRowOf(recs: seq<Record>, y: nat): (row: YearRow)
    ensures row.year == y && |row.cells| == 12
  {
    YearRow(y, seq(12, k requires 0 <= k < 12 => PivotCell(recs, y, k + 1)), AnnualSum(recs, y))
  }

  function MonthlyMeans(recs: seq<Record>): (means: seq<Option<real>>)
    ensures |means| == 12
  {
    seq(12, k requires 0 <= k < 12 => MonthlyMean(recs, k + 1))
  }

  /**
    The corner cell: the mean of the annual-sum column sliced from position 2,
    which skips the header row and the earliest year row; the monthly-mean row's
    own cell in that column is NaN and is skipped by the mean.
   */
  function MeanOfSums(rows: seq<YearRow>): Option<real>
  {
    if rows == [] then None else Mean(AnnualSums(rows[1..]))
  }

  /** Every calendar month holds at least one present value, so the pivot has twelve columns. */
  predicate AllMonthsObserved(recs: seq<Record>)
  {
    forall m: int :: 1 <= m <= 12 ==> Observations(recs, ByMonth(m)) != []
  }

  /** The table built from a normalised, non-empty series. */
  function Summarize(recs: seq<Record>, monthNames: seq<string>): Result<Table, EngineError>
    requires |monthNames| == 12
  {
    if !AllMonthsObserved(recs) then Failure(MonthWithoutData)
    else
      var years := Years(recs);
      var rows := seq(|years|, i requires 0 <= i < |years| => YearRowOf(recs, years[i]));
      Success(Table(monthNames + [AnnualSumLabel], rows, MonthlyMeans(recs), MeanOfSums(rows)))
  }

  /**
    `reorganize_ods` without the file read and write: normalise the sentinel,
    pivot by (year, month), and add the header row, the annual-sum column, the
    monthly-mean row and the corner cell.
   */
  function Reorganize(raw: seq<Record>, monthNames: seq<string>): (r: Result<Table, EngineError>)
    requires |monthNames| == 12
    ensures raw == [] ==> r == Failure(EmptySeries)
    ensures r.Failure? <==> raw == [] || exists m: Month :: Observations(Normalize(raw), ByMonth(m)) == []
    ensures r.Failure? && raw != [] ==> r.error == MonthWithoutData
    ensures r.Success? ==> Shaped(r.value) && r.value.header == monthNames + [AnnualSumLabel]
    ensures r.Success? ==> Ascending(RowYears(r.value.rows))
    ensures r.Success? ==>
              forall y :: y in RowYears(r.value.rows) <==> Observations(Normalize(raw), ByYear(y)) != []
  {
    if raw == [] then Failure(EmptySeries)
    else
      var recs := Normalize(raw);
      var result := Summarize(recs, monthNames);
      assert result.Success? ==> RowYears(result.value.rows) == Years(recs);
      result
  }

  function CellOf(v: Option<real>): Cell
  {
    match v
    case None => NaN
    case Some(x) => Number(x)
  }

  function CellsOf(vs: seq<Option<real>>): (cs: seq<Cell>)
    ensures |cs| == |vs| && forall k :: 0 <= k < |vs| ==> cs[k] == CellOf(vs[k])
  {
    seq(|vs|, k requires 0 <= k < |vs| => CellOf(vs[k]))
  }

  function TextsOf(names: seq<string>): (cs: seq<Cell>)
    ensures |cs| == |names| && forall k :: 0 <= k < |names| ==> cs[k] == Text(names[k])
  {
    seq(|names|, k requires 0 <= k < |names| => Text(names[k]))
  }

  /**
    The rows handed to the sheet writer: the index becomes the first column, and
    the header row's first cell is replaced by the variable's label.
   */
  function SheetOf(t: Table, variableLabel: string): (sheet: seq<seq<Cell>>)
    requires Shaped(t)
    ensures |sheet| == |t.rows| + 2
    ensures forall i :: 0 <= i < |sheet| ==> |sheet[i]| == 14
    ensures sheet[0][0] == Text(variableLabel) && sheet[0][13] == Text(t.header[12])
    ensures forall k :: 1 <= k <= 12 ==> sheet[0][k] == Text(t.header[k - 1])
    ensures forall i :: 0 <= i < |t.rows| ==>
              sheet[i + 1][0] == Number(t.rows[i].year as real) && sheet[i + 1][13] == Number(t.rows[i].annualSum)
    ensures sheet[|t.rows| + 1][0] == Text(MonthlyMeanLabel) && sheet[|t.rows| + 1][13] == CellOf(t.meanOfSums)
    ensures forall i, k :: 0 <= i < |t.rows| && 0 <= k < 12 ==> sheet[i + 1][k + 1] == CellOf(t.rows[i].cells[k])
    ensures forall k :: 0 <= k < 12 ==> sheet[|t.rows| + 1][k + 1] == CellOf(t.monthlyMeans[k])
  {
    [[Text(variableLabel)] + TextsOf(t.header)]
    + seq(|t.rows|, i requires 0 <= i < |t.rows| =>
            [Number(t.rows[i].year as real)] + CellsOf(t.rows[i].cells) + [Number(t.rows[i].annualSum)])
    + [[Text(MonthlyMeanLabel)] + CellsOf(t.monthlyMeans) + [CellOf(t.meanOfSums)]]
  }

  /** The numbers of a column, skipping NaN, as `astype(float).mean()` reads them. */
  function Numbers(cells: seq<Cell>): seq<real>
  {
    if cells == [] then []
    else (if cells[0].Number? then [cells[0].x] else []) + Numbers(cells[1..])
  }

  lemma {:induction false} NumbersAppend(a: seq<Cell>, b: seq<Cell>)
    ensures Numbers(a + b) == Numbers(a) + Numbers(b)
  {
    if a == [] {
      assert a + b == b;
    } else {
      var c := a + b;
      assert c[0] == a[0] && c[1..] == a[1..] + b;
      NumbersAppend(a[1..], b);
    }
  }

  /** A column made only of numbers reads back as those numbers. */
  lemma {:induction false} NumbersOfNumbers(cells: seq<Cell>, xs: seq<real>)
    requires |cells| == |xs| && forall k :: 0 <= k < |xs| ==> cells[k] == Number(xs[k])
    ensures Numbers(cells) == xs
  {
    if xs != [] {
      NumbersOfNumbers(cells[1..], xs[1..]);
    }
  }

  /** Column assignment: every row gains the cell of the new column at its own position. */
  function AppendColumn(rows: seq<seq<Cell>>, column: seq<Cell>): (r: seq<seq<Cell>>)
    requires |column| == |rows|
    ensures |r| == |rows| && forall i :: 0 <= i < |rows| ==> r[i] == rows[i] + [column[i]]
  {
    seq(|rows|, i requires 0 <= i < |rows| => rows[i] + [column[i]])
  }

  /** `reset_index`: the index becomes the first column. */
  function AppendColumnLeft(index: seq<Cell>, rows: seq<seq<Cell>>): (r: seq<seq<Cell>>)
    requires |index| == |rows|
    ensures |r| == |rows| && forall i :: 0 <= i < |rows| ==> r[i] == [index[i]] + rows[i]
  {
    seq(|rows|, i requires 0 <= i < |rows| => [index[i]] + rows[i])
  }

  /** Overwrites one cell and leaves every other cell as it was. */
  function SetCell(rows: seq<seq<Cell>>, i: nat, j: nat, c: Cell): (r: seq<seq<Cell>>)
    requires i < |rows| && j < |rows[i]|
    ensures |r| == |rows| && r[i] == rows[i][j := c]
    ensures forall k :: 0 <= k < |rows| && k != i ==> r[k] == rows[k]
  {
    rows[i := rows[i][j := c]]
  }

  /** The cells of column `j`, top to bottom. */
  function Column(rows: seq<seq<Cell>>, j: nat): (col: seq<Cell>)
    requires forall i :: 0 <= i < |rows| ==> j < |rows[i]|
    ensures |col| == |rows| && forall i :: 0 <= i < |rows| ==> col[i] == rows[i][j]
  {
    seq(|rows|, i requires 0 <= i < |rows| => rows[i][j])
  }

  function AnnualSumColumn(rows: seq<YearRow>): (col: seq<Cell>)
    ensures |col| == |rows| && forall i :: 0 <= i < |rows| ==> col[i] == Number(rows[i].annualSum)
  {
    seq(|rows|, i requires 0 <= i < |rows| => Number(rows[i].annualSum))
  }

  /**
    The frame just before the corner cell is written: the header row, one row
    per year with its twelve cells and its sum, and the monthly-mean row whose
    annual-sum cell is NaN.
   */
  ghost predicate Framed(body: seq<seq<Cell>>, rows: seq<YearRow>, means: seq<Option<real>>, monthNames: seq<string>)
  {
    && |body| == |rows| + 2
    && body[0] == TextsOf(monthNames + [AnnualSumLabel])
    && (forall i :: 0 <= i < |rows| ==>
          body[i + 1] == CellsOf(rows[i].cells) + [Number(rows[i].annualSum)])
    && body[|rows| + 1] == CellsOf(means) + [NaN]
  }

  /**
    The annual-sum column below the first two rows, as the corner-cell step reads
    it, yields the sums of every year row but the earliest.
   */
  lemma CornerColumn(body: seq<seq<Cell>>, rows: seq<YearRow>, means: seq<Option<real>>, monthNames: seq<string>)
    requires |rows| >= 1 && |monthNames| == 12 && |means| == 12
    requires forall i :: 0 <= i < |rows| ==> |rows[i].cells| == 12
    requires Framed(body, rows, means, monthNames)
    ensures forall i :: 0 <= i < |body| ==> |body[i]| == 13
    ensures Numbers(Column(body[2..], 12)) == AnnualSums(rows[1..])
  {
    var n := |rows|;
    assert forall i :: 1 <= i <= n ==> |body[i]| == 13 by {
      forall i | 1 <= i <= n ensures |body[i]| == 13 {
        assert body[(i - 1) + 1] == CellsOf(rows[i - 1].cells) + [Number(rows[i - 1].annualSum)];
      }
    }
    var column := Column(body[2..], 12);
    var sums := column[..n - 1];
    forall i | 0 <= i < n - 1 ensures sums[i] == Number(rows[i + 1].annualSum) {
      assert body[2..][i] == body[(i + 1) + 1];
    }
    assert column == sums + [NaN];
    NumbersAppend(sums, [NaN]);
    NumbersOfNumbers(sums, AnnualSums(rows[1..]));
  }

  /**
    `reorganize_ods` without the file read and write, step by step as the source
    builds its data frame: normalise the sentinel, pivot, and hand the pivot rows
    and the monthly means to `BuildSheet`. The result is the sheet of the table
    `Reorganize` describes, or the same failure.
   */
  method ReorganizeOds(raw: seq<Record>, variableLabel: string, monthNames: seq<string>)
    returns (res: Result<seq<seq<Cell>>, EngineError>)
    requires |monthNames| == 12
    ensures Reorganize(raw, monthNames).Failure? ==> res == Failure(Reorganize(raw, monthNames).error)
    ensures Reorganize(raw, monthNames).Success? ==> res == Success(SheetOf(Reorganize(raw, monthNames).value, variableLabel))
  {
    if raw == [] {
      return Failure(EmptySeries);
    }
    var recs := Normalize(raw);
    if !AllMonthsObserved(recs) {
      return Failure(MonthWithoutData);
    }
    // The pivot: one row per year holding a present value, one column per month,
    // and the annual sums and monthly means taken from the records.
    var years := Years(recs);
    ghost var someYear := MonthObservationHasYear(recs, 1);
    assert someYear in years;
    var rows := seq(|years|, i requires 0 <= i < |years| => YearRowOf(recs, years[i]));
    var means := MonthlyMeans(recs);
    assert RowYears(rows) == years;
    var sheet := BuildSheet(rows, means, monthNames, variableLabel);
    assert Reorganize(raw, monthNames) == Success(Table(monthNames + [AnnualSumLabel], rows, means, MeanOfSums(rows)));
    res := Success(sheet);
  }

  /** Index keys that are numbers in strictly ascending order, as `sort_index` leaves them. */
  predicate KeysAscending(keys: seq<Cell>)
  {
    forall i, j :: 0 <= i < j < |keys| ==> keys[i].Number? && keys[j].Number? && keys[i].x < keys[j].x
  }

  /**
    The header key -1 lies below every year, so placing it in front of the
    pivot's ascending year keys yields keys in ascending order.
   */
  lemma HeaderKeyFirst(rows: seq<YearRow>, keys: seq<Cell>)
    requires Ascending(RowYears(rows))
    requires |keys| == |rows| + 1 && keys[0] == Number(HeaderKey)
    requires forall i :: 0 <= i < |rows| ==> keys[i + 1] == Number(rows[i].year as real)
    ensures KeysAscending(keys)
  {
    forall i, j | 0 <= i < j < |keys| ensures keys[i].Number? && keys[j].Number? && keys[i].x < keys[j].x {
      assert keys[(j - 1) + 1] == Number(rows[j - 1].year as real);
      if i > 0 {
        assert keys[(i - 1) + 1] == Number(rows[i - 1].year as real);
        assert RowYears(rows)[i - 1] < RowYears(rows)[j - 1];
      }
    }
  }

  /** Writing the annual-sum label over the NaN that ends the header row completes the header. */
  lemma HeaderLabelled(monthNames: seq<string>)
    requires |monthNames| == 12
    ensures (TextsOf(monthNames) + [NaN])[12 := Text(AnnualSumLabel)] == TextsOf(monthNames + [AnnualSumLabel])
  {
    var written := (TextsOf(monthNames) + [NaN])[12 := Text(AnnualSumLabel)];
    assert forall k :: 0 <= k < 13 ==> written[k] == TextsOf(monthNames + [AnnualSumLabel])[k];
  }

  /**
    The in-place steps of `reorganize_ods` after the pivot, on the cells of the
    frame: the month names as a row under key -1, the sort, the annual-sum column
    and its label, and the monthly-mean row. The corner cell is still NaN. The
    same steps on the row index are `FrameIndex`.
   */
  method FrameTable(rows: seq<YearRow>, means: seq<Option<real>>, monthNames: seq<string>)
    returns (body: seq<seq<Cell>>)
    requires |means| == 12 && |monthNames| == 12
    requires forall i :: 0 <= i < |rows| ==> |rows[i].cells| == 12
    ensures Framed(body, rows, means, monthNames)
  {
    var n := |rows|;
    body := seq(n, i requires 0 <= i < n => CellsOf(rows[i].cells));
    // The month names as a new row under key -1.
    body := body + [TextsOf(monthNames)];
    // The sort moves the header row to the front: its key -1 is below every year (see FrameIndex).
    body := [body[n]] + body[..n];
    assert |body| == n + 1 && body[0] == TextsOf(monthNames);
    assert forall i :: 0 <= i < n ==> body[i + 1] == CellsOf(rows[i].cells);
    // The annual-sum column, aligned on the year index; the header row gets NaN, then the column's label.
    body := AppendColumn(body, [NaN] + AnnualSumColumn(rows));
    assert forall i :: 0 <= i < n ==> body[i + 1] == CellsOf(rows[i].cells) + [Number(rows[i].annualSum)];
    ghost var headerRow := body[0];
    assert headerRow == TextsOf(monthNames) + [NaN];
    body := SetCell(body, 0, 12, Text(AnnualSumLabel));
    HeaderLabelled(monthNames);
    assert body[0] == TextsOf(monthNames + [AnnualSumLabel]);
    assert forall i :: 0 <= i < n ==> body[i + 1] == CellsOf(rows[i].cells) + [Number(rows[i].annualSum)];
    ghost var labelled := body;
    // The monthly-mean row, aligned on the month columns; its annual-sum cell is NaN.
    body := body + [CellsOf(means) + [NaN]];
    MeanRowAppended(labelled, rows, means, monthNames);
  }

  /** Appending the monthly-mean row to the labelled year rows completes the frame. */
  lemma MeanRowAppended(labelled: seq<seq<Cell>>, rows: seq<YearRow>, means: seq<Option<real>>, monthNames: seq<string>)
    requires |labelled| == |rows| + 1 && labelled[0] == TextsOf(monthNames + [AnnualSumLabel])
    requires forall i :: 0 <= i < |rows| ==> labelled[i + 1] == CellsOf(rows[i].cells) + [Number(rows[i].annualSum)]
    ensures Framed(labelled + [CellsOf(means) + [NaN]], rows, means, monthNames)
  {
    var body := labelled + [CellsOf(means) + [NaN]];
    assert forall i :: 0 <= i < |labelled| ==> body[i] == labelled[i];
  }

  /**
    The row index through the steps of `FrameTable`: key -1 for the header row,
    the sort, and the key of the monthly-mean row. The keys up to the last year
    are in ascending order, as `sort_index` leaves them.
   */
  method FrameIndex(rows: seq<YearRow>) returns (index: seq<Cell>)
    requires Ascending(RowYears(rows))
    ensures |index| == |rows| + 2 && index[0] == Number(HeaderKey) && index[|rows| + 1] == Text(MonthlyMeanLabel)
    ensures forall i :: 0 <= i < |rows| ==> index[i + 1] == Number(rows[i].year as real)
    ensures KeysAscending(index[..|rows| + 1])
  {
    var n := |rows|;
    index := seq(n, i requires 0 <= i < n => Number(rows[i].year as real));
    index := index + [Number(HeaderKey)];
    // The sort: every year exceeds -1, and the pivot already lists the years in
    // ascending order, so the header key moves to the front.
    index := [index[n]] + index[..n];
    HeaderKeyFirst(rows, index);
    ghost var sorted := index;
    index := index + [Text(MonthlyMeanLabel)];
    assert index[..n + 1] == sorted;
  }

  /**
    The remaining steps: the mean of the annual-sum column from position 2 on
    written into the corner cell, `reset_index`, and the variable's label in the
    first cell.
   */
  method BuildSheet(rows: seq<YearRow>, means: seq<Option<real>>, monthNames: seq<string>, variableLabel: string)
    returns (sheet: seq<seq<Cell>>)
    requires |rows| >= 1 && |means| == 12 && |monthNames| == 12
    requires forall i :: 0 <= i < |rows| ==> |rows[i].cells| == 12
    requires Ascending(RowYears(rows))
    ensures sheet == SheetOf(Table(monthNames + [AnnualSumLabel], rows, means, MeanOfSums(rows)), variableLabel)
  {
    var n := |rows|;
    var index := FrameIndex(rows);
    var body := FrameTable(rows, means, monthNames);
    CornerColumn(body, rows, means, monthNames);
    var meanYearlySum := Mean(Numbers(Column(body[2..], 12)));
    ghost var framed := body;
    body := SetCell(body, n + 1, 12, CellOf(meanYearlySum));
    assert meanYearlySum == MeanOfSums(rows);
    assert body[n + 1] == CellsOf(means) + [CellOf(meanYearlySum)] by {
      assert forall k :: 0 <= k < 13 ==> body[n + 1][k] == (CellsOf(means) + [CellOf(meanYearlySum)])[k];
    }
    // reset_index, then the label in the first cell.
    sheet := AppendColumnLeft(index, body);
    sheet := SetCell(sheet, 0, 0, Text(variableLabel));
    assert sheet[0] == [Text(variableLabel)] + framed[0];
    assert forall i :: 1 <= i <= n ==> sheet[i] == [index[i]] + framed[i];
    assert sheet[n + 1] == [index[n + 1]] + body[n + 1];
    SheetFromFrame(rows, means, monthNames, variableLabel, index, framed, sheet);
  }

  /**
    The frame with its index put in front, the corner cell filled and the label
    in the first cell is the sheet of the table.
   */
  lemma SheetFromFrame(rows: seq<YearRow>, means: seq<Option<real>>, monthNames: seq<string>, variableLabel: string,
                       index: seq<Cell>, framed: seq<seq<Cell>>, sheet: seq<seq<Cell>>)
    requires |rows| >= 1 && |means| == 12 && |monthNames| == 12
    requires forall i :: 0 <= i < |rows| ==> |rows[i].cells| == 12
    requires Framed(framed, rows, means, monthNames)
    requires |index| == |rows| + 2 && index[|rows| + 1] == Text(MonthlyMeanLabel)
    requires forall i :: 0 <= i < |rows| ==> index[i + 1] == Number(rows[i].year as real)
    requires |sheet| == |rows| + 2
    requires sheet[0] == [Text(variableLabel)] + framed[0]
    requires forall i :: 1 <= i <= |rows| ==> sheet[i] == [index[i]] + framed[i]
    requires sheet[|rows| + 1] == [index[|rows| + 1]] + CellsOf(means) + [CellOf(MeanOfSums(rows))]
    ensures sheet == SheetOf(Table(monthNames + [AnnualSumLabel], rows, means, MeanOfSums(rows)), variableLabel)
  {
    var n := |rows|;
    var t := Table(monthNames + [AnnualSumLabel], rows, means, MeanOfSums(rows));
    var expected := SheetOf(t, variableLabel);
    forall i | 1 <= i <= n ensures sheet[i] == expected[i] {
      assert framed[(i - 1) + 1] == CellsOf(rows[i - 1].cells) + [Number(rows[i - 1].annualSum)];
    }
  }
}
