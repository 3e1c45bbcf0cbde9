/**
  The data behind `create_graph`'s bar chart of one year: the twelve month
  values of the year's row in the reorganised table, the month names under the
  bars, the axis label and title, the value annotations and the axis bounds.
  Nothing is drawn; the model keeps what is handed to the plotting calls.
 */
module Chart {
  import opened Series
  import opened Aggregate
  import opened Engine
  import opened EngineProperties

  /** The variable label that receives the rain unit and the rain remark. */
  const RainLabel: string := "Chuvia"
  const RainUnit: string := " (lluvia) [litros/m2]"
  const RainRemark: string := " (lluvia)"
  const YearPhrase: string := " en el año "

  const BarWidth: real := 0.8
  const PaddingFactor: real := 0.1
  const MonthPadding: real := 0.7

  /**
    Why no chart is produced: the year is not in the table's index (a KeyError,
    caught and reported), the year is -1 and selects the header row whose month
    names do not convert to numbers (a ValueError), or the year has no present
    value so the minimum and maximum of an empty array are undefined (a ValueError).
   */
  datatype ChartError = YearNotFound(year: int) | HeaderNotNumeric | NoPresentValues

  /** A value printed on top of the bar at `position`. */
  datatype Mark = Mark(position: nat, value: real)

  datatype ChartData = ChartData(
    categories: seq<string>,
    values: seq<Option<real>>,
    yLabel: string,
    title: string,
    xLimits: (real, real),
    yLimits: (real, real))

  /** The failures of the whole pipeline: the table cannot be built, or the chart cannot be drawn from it. */
  datatype GraphError = TableFailed(engine: EngineError) | ChartFailed(chart: ChartError)

  // ---------------------------------------------------------------- row lookup

  /** The position of the year row keyed `year`, if any. */
  function FindRow(rows: seq<YearRow>, year: int): (r: Option<nat>)
    ensures r.None? <==> forall i :: 0 <= i < |rows| ==> rows[i].year != year
    ensures r.Some? ==> r.value < |rows| && rows[r.value].year == year
    ensures r.Some? ==> forall i :: 0 <= i < r.value ==> rows[i].year != year
  {
    if rows == [] then None
    else if rows[0].year == year then Some(0)
    else
      var rest := FindRow(rows[1..], year);
      if rest.None? then None else Some(rest.value + 1)
  }

  /**
    `loc[year]` on the table as `reorganize_ods` returns it: the header row is
    keyed -1 and holds the twelve month names and the annual-sum label; a year
    row holds its twelve month cells and its annual sum.
   */
  function LocRow(t: Table, year: int): (r: Option<seq<Cell>>)
    requires Shaped(t)
    ensures r.None? <==> year != -1 && year !in RowYears(t.rows)
    ensures r.Some? ==> |r.value| == 13
    ensures year == -1 ==> r == Some(TextsOf(t.header))
    ensures forall i :: 0 <= i < |t.rows| && t.rows[i].year == year && Ascending(RowYears(t.rows)) ==>
              r == Some(CellsOf(t.rows[i].cells) + [Number(t.rows[i].annualSum)])
  {
    if year == -1 then Some(TextsOf(t.header))
    else
      var found := FindRow(t.rows, year);
      if found.None? then
        assert forall y :: y in RowYears(t.rows) ==> y != year;
        None
      else
        var row := t.rows[found.value];
        assert forall i :: 0 <= i < |t.rows| && t.rows[i].year == year && Ascending(RowYears(t.rows)) ==>
                 i == found.value by {
          forall i | 0 <= i < |t.rows| && t.rows[i].year == year && Ascending(RowYears(t.rows))
            ensures i == found.value
          {
            var ys := RowYears(t.rows);
            assert ys[i] == ys[found.value];
          }
        }
        Some(CellsOf(row.cells) + [Number(row.annualSum)])
  }

  /** `astype(float)`: a number stays, NaN is missing, and a text cell cannot be converted. */
  function AsFloats(cells: seq<Cell>): (r: Option<seq<Option<real>>>)
    ensures r.None? <==> exists k :: 0 <= k < |cells| && cells[k].Text?
    ensures r.Some? ==> |r.value| == |cells|
    ensures r.Some? ==> forall k :: 0 <= k < |cells| ==> (r.value[k].None? <==> cells[k].NaN?)
    ensures r.Some? ==> forall k :: 0 <= k < |cells| && cells[k].Number? ==> r.value[k] == Some(cells[k].x)
  {
    if cells == [] then Some([])
    else
      var rest := AsFloats(cells[1..]);
      assert forall k :: 1 <= k < |cells| ==> cells[k] == cells[1..][k - 1];
      match cells[0]
      case Text(_) => None
      case NaN => if rest.None? then None else Some([None] + rest.value)
      case Number(x) => if rest.None? then None else Some([Some(x)] + rest.value)
  }

  /** The categories under the bars: each month column number `m` is shown as `monthNames[m - 1]`. */
  function Categories(columns: seq<Month>, monthNames: seq<string>): (names: seq<string>)
    requires |monthNames| == 12
    ensures |names| == |columns| && forall k :: 0 <= k < |columns| ==> names[k] == monthNames[columns[k] - 1]
  {
    seq(|columns|, k requires 0 <= k < |columns| => monthNames[columns[k] - 1])
  }

  /** The month columns of the table, in calendar order. */
  function MonthColumns(): (cols: seq<Month>)
    ensures |cols| == 12 && forall k :: 0 <= k < 12 ==> cols[k] == k + 1
  {
    seq(12, k requires 0 <= k < 12 => k + 1)
  }

  /** Under the month columns in calendar order, the categories are the month names themselves. */
  lemma CategoriesAreMonthNames(monthNames: seq<string>)
    requires |monthNames| == 12
    ensures Categories(MonthColumns(), monthNames) == monthNames
  {
  }

  // ---------------------------------------------------------------- labels

  /** The y-axis label: the variable label, with the rain unit appended for rain only. */
  function YLabel(variableLabel: string): (r: string)
    ensures |r| >= |variableLabel| && r[..|variableLabel|] == variableLabel
    ensures r == variableLabel <==> variableLabel != RainLabel
    ensures variableLabel == RainLabel ==> r == "Chuvia (lluvia) [litros/m2]"
  {
    if variableLabel == RainLabel then variableLabel + RainUnit else variableLabel
  }

  function DigitChar(d: int): (c: char)
    requires 0 <= d < 10
    ensures '0' <= c <= '9' && c as int - '0' as int == d
  {
    ('0' as int + d) as char
  }

  predicate AllDigits(s: string)
  {
    forall k :: 0 <= k < |s| ==> '0' <= s[k] <= '9'
  }

  /** The decimal digits of a natural number, as `str` writes them: no leading zero. */
  function NatText(n: nat): (s: string)
    ensures |s| >= 1 && AllDigits(s)
    ensures n > 0 ==> s[0] != '0'
  {
    if n < 10 then [DigitChar(n)] else NatText(n / 10) + [DigitChar(n % 10)]
  }

  /** An integer as an f-string writes it: a minus sign before the digits of a negative number. */
  function IntText(n: int): (s: string)
    ensures |s| >= 1
  {
    if n < 0 then "-" + NatText(-n) else NatText(n)
  }

  /** The value of a string of decimal digits. */
  function DigitsValue(s: string): nat
    requires AllDigits(s)
  {
    if s == [] then 0
    else
      assert '0' <= s[|s| - 1] <= '9';
      DigitsValue(s[..|s| - 1]) * 10 + (s[|s| - 1] as int - '0' as int)
  }

  /** Reads an integer back from its decimal text; `None` when the text is not one. */
  function ParseInt(s: string): (r: Option<int>)
    ensures r.Some? ==> s != []
  {
    if s == [] then None
    else if s[0] == '-' then
      if |s| >= 2 && AllDigits(s[1..]) then
        var magnitude: int := DigitsValue(s[1..]);
        Some(-magnitude)
      else None
    else if AllDigits(s) then Some(DigitsValue(s)) else None
  }

  lemma {:induction false} NatTextValue(n: nat)
    ensures DigitsValue(NatText(n)) == n
  {
    if n >= 10 {
      NatTextValue(n / 10);
      var s := NatText(n);
      assert s[..|s| - 1] == NatText(n / 10);
    }
  }

  /** The digits of a natural number read back through `ParseInt`. */
  lemma NatTextParses(n: nat)
    ensures ParseInt(NatText(n)) == Some(n)
  {
    var s := NatText(n);
    NatTextValue(n);
    assert s[0] != '-';
  }

  /** A minus sign before decimal digits reads back as the negated value of the digits. */
  lemma SignedDigitsParse(digits: string, v: nat)
    requires digits != [] && AllDigits(digits) && DigitsValue(digits) == v
    ensures ParseInt("-" + digits) == Some(-(v as int))
  {
    var s := "-" + digits;
    assert s[0] == '-' && s[1..] == digits;
  }

  /** The year written into the title reads back as the year. */
  lemma IntTextRoundTrip(n: int)
    ensures ParseInt(IntText(n)) == Some(n)
  {
    if n < 0 {
      var v: nat := -n;
      NatTextValue(v);
      SignedDigitsParse(NatText(v), v);
      assert IntText(n) == "-" + NatText(v);
    } else {
      NatTextParses(n);
    }
  }

  /** The chart title: the label, the rain remark for rain only, and the year. */
  function Title(variableLabel: string, year: int): (r: string)
    ensures variableLabel == RainLabel ==> r == variableLabel + RainRemark + YearPhrase + IntText(year)
    ensures variableLabel != RainLabel ==> r == variableLabel + YearPhrase + IntText(year)
  {
    var subject := if variableLabel == RainLabel then variableLabel + RainRemark else variableLabel;
    subject + YearPhrase + IntText(year)
  }

  /** The title begins with the variable label and ends with the year, which reads back from it. */
  lemma TitleNamesLabelAndYear(variableLabel: string, year: int)
    ensures var title := Title(variableLabel, year);
            var digits := |IntText(year)|;
            && |title| >= |variableLabel| + digits
            && title[..|variableLabel|] == variableLabel
            && ParseInt(title[|title| - digits..]) == Some(year)
  {
    var title := Title(variableLabel, year);
    assert title[|title| - |IntText(year)|..] == IntText(year);
    IntTextRoundTrip(year);
  }

  // ---------------------------------------------------------------- bounds

  /** The present values of a series, in order: `values[~np.isnan(values)]`. */
  function PresentValues(values: seq<Option<real>>): (xs: seq<real>)
    ensures |xs| <= |values|
  {
    if values == [] then []
    else (if values[0].Some? then [values[0].value] else []) + PresentValues(values[1..])
  }

  /** The present values are exactly the values of the present cells. */
  lemma {:induction false} PresentValuesMembers(values: seq<Option<real>>)
    ensures forall k :: 0 <= k < |values| && values[k].Some? ==> values[k].value in PresentValues(values)
    ensures forall x :: x in PresentValues(values) ==> exists k :: 0 <= k < |values| && values[k] == Some(x)
  {
    if values != [] {
      PresentValuesMembers(values[1..]);
      assert forall k :: 1 <= k < |values| ==> values[k] == values[1..][k - 1];
      forall x | x in PresentValues(values) ensures exists k :: 0 <= k < |values| && values[k] == Some(x) {
        if x !in PresentValues(values[1..]) {
          assert values[0] == Some(x);
        } else {
          var k :| 0 <= k < |values[1..]| && values[1..][k] == Some(x);
          assert values[k + 1] == Some(x);
        }
      }
    }
  }

  function MaxOf(xs: seq<real>): (m: real)
    requires xs != []
    ensures m in xs && forall x :: x in xs ==> x <= m
  {
    if |xs| == 1 then xs[0]
    else
      var rest := MaxOf(xs[1..]);
      assert forall x :: x in xs ==> x == xs[0] || x in xs[1..];
      if xs[0] >= rest then xs[0] else rest
  }

  function MinOf(xs: seq<real>): (m: real)
    requires xs != []
    ensures m in xs && forall x :: x in xs ==> m <= x
  {
    if |xs| == 1 then xs[0]
    else
      var rest := MinOf(xs[1..]);
      assert forall x :: x in xs ==> x == xs[0] || x in xs[1..];
      if xs[0] <= rest then xs[0] else rest
  }

  /**
    The y-axis range: from 0 up to the largest present value padded by a tenth of
    the spread and a tenth of the largest value. No present value, no range.
   */
  function YLimits(values: seq<Option<real>>): (r: Result<(real, real), ChartError>)
    ensures r.Failure? <==> forall k :: 0 <= k < |values| ==> values[k].None?
    ensures r.Failure? ==> r.error == NoPresentValues
    ensures r.Success? ==> PresentValues(values) != []
    ensures r.Success? ==> r.value.0 == 0.0
    ensures r.Success? ==>
              var p := PresentValues(values);
              r.value.1 == MaxOf(p) + (MaxOf(p) - MinOf(p)) * PaddingFactor + MaxOf(p) * PaddingFactor
    ensures r.Success? ==>
              var high := MaxOf(PresentValues(values));
              && r.value.1 >= high + PaddingFactor * high
              && (r.value.1 == high + PaddingFactor * high <==> MinOf(PresentValues(values)) == high)
  {
    var present := PresentValues(values);
    PresentValuesMembers(values);
    if present == [] then
      Failure(NoPresentValues)
    else
      assert present[0] in present;
      var low, high := MinOf(present), MaxOf(present);
      var padding := (high - low) * PaddingFactor;
      Success((0.0, high + padding + high * PaddingFactor))
  }

  /**
    With a non-negative maximum, no present value rises above the top of the
    y-range; a negative value lies below its bottom, 0.
   */
  lemma YLimitsContainValues(values: seq<Option<real>>)
    requires YLimits(values).Success?
    requires MaxOf(PresentValues(values)) >= 0.0
    ensures forall k :: 0 <= k < |values| && values[k].Some? ==> values[k].value <= YLimits(values).value.1
    ensures forall k :: 0 <= k < |values| && values[k].Some? && values[k].value < 0.0 ==>
              values[k].value < YLimits(values).value.0
  {
    var present := PresentValues(values);
    var high := MaxOf(present);
    var top := YLimits(values).value.1;
    assert high <= top;
    PresentValuesMembers(values);
    forall k | 0 <= k < |values| && values[k].Some? ensures values[k].value <= top {
      assert values[k].value in present;
    }
  }

  /** The x-axis range: 0.7 of a position of empty space before the first and after the last category. */
  function XLimits(count: nat): (r: (real, real))
    ensures count >= 1 ==> r.0 == 0.0 - MonthPadding && r.1 == (count - 1) as real + MonthPadding
  {
    (-MonthPadding, (count - 1) as real + MonthPadding)
  }

  /**
    Every bar of a chart lies strictly inside its x-range: bar p spans p - 0.4 to
    p + 0.4, and the first and last bars keep 0.3 of free space to the border.
   */
  lemma BarsInsideXLimits(count: nat, p: nat)
    requires p < count
    ensures XLimits(count).0 < p as real - BarWidth / 2.0
    ensures p as real + BarWidth / 2.0 < XLimits(count).1
  {
  }

  // ---------------------------------------------------------------- the chart

  /**
    The chart of `year` drawn from a reorganised table: the year's row without
    its annual sum, converted to numbers, under the month names.
   */
  function ChartOf(t: Table, variableLabel: string, year: int, monthNames: seq<string>): (r: Result<ChartData, ChartError>)
    requires Shaped(t) && |monthNames| == 12 && Ascending(RowYears(t.rows))
    ensures r == Failure(YearNotFound(year)) <==> year != -1 && year !in RowYears(t.rows)
    ensures year == -1 ==> r == Failure(HeaderNotNumeric)
    ensures r.Success? ==>
              && year in RowYears(t.rows)
              && r.value.categories == monthNames
              && r.value.yLabel == YLabel(variableLabel)
              && r.value.title == Title(variableLabel, year)
              && r.value.xLimits == (-0.7, 11.7)
              && r.value.yLimits.0 == 0.0
    ensures r.Success? ==> YLimits(r.value.values).Success? && r.value.yLimits == YLimits(r.value.values).value
    ensures forall i :: 0 <= i < |t.rows| && t.rows[i].year == year ==>
              (r.Success? <==> exists m :: 0 <= m < 12 && t.rows[i].cells[m].Some?)
              && (r.Success? ==> r.value.values == t.rows[i].cells)
    ensures year in RowYears(t.rows) && r.Failure? ==> r.error == NoPresentValues
  {
    var row := LocRow(t, year);
    if row.None? then Failure(YearNotFound(year))
    else
      // The month cells: everything but the last, annual-sum, column.
      var values := AsFloats(row.value[..12]);
      if values.None? then
        assert year == -1 ==> row.value[..12][0] == Text(t.header[0]);
        Failure(HeaderNotNumeric)
      else
        assert year != -1;
        var cells := values.value;
        assert forall i :: 0 <= i < |t.rows| && t.rows[i].year == year ==> cells == t.rows[i].cells by {
          forall i | 0 <= i < |t.rows| && t.rows[i].year == year ensures cells == t.rows[i].cells {
            assert row.value[..12] == CellsOf(t.rows[i].cells);
            assert forall k :: 0 <= k < 12 ==> cells[k] == t.rows[i].cells[k];
          }
        }
        var categories := Categories(MonthColumns(), monthNames);
        CategoriesAreMonthNames(monthNames);
        var yLimits := YLimits(cells);
        if yLimits.Failure? then Failure(yLimits.error)
        else Success(ChartData(categories, cells, YLabel(variableLabel), Title(variableLabel, year), XLimits(|categories|), yLimits.value))
  }

  /**
    `create_graph` without the drawing: reorganise the series, then chart the
    requested year of the resulting table.
   */
  function CreateGraph(raw: seq<Record>, variableLabel: string, year: int, monthNames: seq<string>): (r: Result<ChartData, GraphError>)
    requires |monthNames| == 12
    ensures Reorganize(raw, monthNames).Failure? ==> r == Failure(TableFailed(Reorganize(raw, monthNames).error))
    ensures Reorganize(raw, monthNames).Success? ==> r.Success? || r.error.ChartFailed?
    ensures Reorganize(raw, monthNames).Success? ==>
              var c := ChartOf(Reorganize(raw, monthNames).value, variableLabel, year, monthNames);
              r == (if c.Success? then Success(c.value) else Failure(ChartFailed(c.error)))
  {
    var table := Reorganize(raw, monthNames);
    if table.Failure? then Failure(TableFailed(table.error))
    else
      var chart := ChartOf(table.value, variableLabel, year, monthNames);
      if chart.Failure? then Failure(ChartFailed(chart.error)) else Success(chart.value)
  }

  /**
    Every year row of a reorganised table has a present value, so charting a
    table built by the engine never meets an empty array of values.
   */
  lemma CreateGraphHasPresentValues(raw: seq<Record>, variableLabel: string, year: int, monthNames: seq<string>)
    requires |monthNames| == 12
    ensures CreateGraph(raw, variableLabel, year, monthNames) != Failure(ChartFailed(NoPresentValues))
  {
    var table := Reorganize(raw, monthNames);
    if table.Success? && year in RowYears(table.value.rows) {
      var t := table.value;
      var i :| 0 <= i < |t.rows| && t.rows[i].year == year;
      var m := YearObservationHasCell(Normalize(raw), t.rows[i].year);
      // The row's cell for month m is that cell's pivot mean, which is present.
      TableCells(raw, monthNames, i, m);
      assert t.rows[i].cells[m - 1].Some?;
      var chart := ChartOf(t, variableLabel, year, monthNames);
      assert chart.Success?;
    }
  }

  /**
    Charting a year of a reorganised series: the requested year must hold a
    present value (else the year is not found), and the bars are that year's
    pivot cells, month by month.
   */
  lemma CreateGraphValues(raw: seq<Record>, variableLabel: string, year: int, monthNames: seq<string>)
    requires |monthNames| == 12 && Reorganize(raw, monthNames).Success?
    ensures var r := CreateGraph(raw, variableLabel, year, monthNames);
            && (r == Failure(ChartFailed(YearNotFound(year))) <==>
                  year < -1 || (year >= 0 && Observations(Normalize(raw), ByYear(year)) == []))
            && (r.Success? ==> forall m: Month :: r.value.values[m - 1] == PivotCell(Normalize(raw), year, m))
  {
    var t := Reorganize(raw, monthNames).value;
    var r := CreateGraph(raw, variableLabel, year, monthNames);
    CreateGraphHasPresentValues(raw, variableLabel, year, monthNames);
    if r.Success? {
      assert year in RowYears(t.rows);
      var i :| 0 <= i < |t.rows| && t.rows[i].year == year;
      forall m: Month ensures r.value.values[m - 1] == PivotCell(Normalize(raw), year, m) {
        TableCells(raw, monthNames, i, m);
      }
    }
  }

  /**
    The annotation loop: one value printed over each bar whose value is present,
    from left to right; a missing month is never annotated.
   */
  method Annotate(values: seq<Option<real>>) returns (marks: seq<Mark>)
    ensures forall i, j :: 0 <= i < j < |marks| ==> marks[i].position < marks[j].position
    ensures forall k :: 0 <= k < |marks| ==>
              marks[k].position < |values| && values[marks[k].position] == Some(marks[k].value)
    ensures forall p :: 0 <= p < |values| && values[p].Some? ==>
              exists k :: 0 <= k < |marks| && marks[k].position == p
  {
    marks := [];
    var i := 0;
    while i < |values|
      invariant 0 <= i <= |values|
      invariant forall a, b :: 0 <= a < b < |marks| ==> marks[a].position < marks[b].position
      invariant forall k :: 0 <= k < |marks| ==>
                  marks[k].position < i && values[marks[k].position] == Some(marks[k].value)
      invariant forall p :: 0 <= p < i && values[p].Some? ==>
                  exists k :: 0 <= k < |marks| && marks[k].position == p
    {
      if values[i].Some? {
        ghost var before := marks;
        marks := marks + [Mark(i, values[i].value)];
        assert forall k :: 0 <= k < |before| ==> marks[k] == before[k];
        assert marks[|marks| - 1].position == i;
      }
      i := i + 1;
    }
  }
}
