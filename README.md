# MeteoGalicia series reorganisation, modelled in Dafny

MeteoGalicia-Application turns one meteorological series into a summary
spreadsheet and then draws a bar chart of one year. The series is a sheet of
(date, value) rows for a single variable, such as rain ("Chuvia").
Two functions hold the logic, and both exist word for word in
`copy9_ods_and_graphs.py` and `gui.py`:

- `reorganize_ods` is the pivot engine. It replaces the code -9999 by a missing
  value and pivots the series into one row per year with twelve month cells.
  The month names are inserted as a header row before the sort, the
  "Suma Anual" column with each year's total and the "Media Mensual" row with
  each month's long-run mean. The corner cell gets the mean of the annual sums
  of every year but the earliest. Last, the variable's label replaces the
  header row's first cell.
- `create_graph` turns one year's row of that table into chart data: the twelve
  bar values, the month names under the bars, the axis label and title, the
  value annotations and the axis bounds.

The model has five modules:

- `Series` (series.dfy): records and the sentinel clean-up.
- `Aggregate` (aggregate.dfy): the pandas reductions. These are the group
  observations, sum, mean and the row index of years.
- `Engine` (engine.dfy): the table as a value (`Reorganize`). It also has the
  step-by-step construction of the saved sheet (`ReorganizeOds`, `FrameTable`, `FrameIndex`,
  `BuildSheet`), which is proved equal to the sheet of that table.
- `EngineProperties` (engine_props.dfy): what the table's cells mean in terms
  of the input records.
- `Chart` (chart.dfy): the chart data of one year, and the annotation loop.

Behaviour of the code worth knowing:

- `pivot_table` aggregates by mean, so several records in one (year, month)
  are averaged in the pivot cell.
- The slice `iloc[2:]` skips the header row and the earliest year row, so the
  corner cell averages the annual sums of every year but the first.
- `pivot_table` drops all-NaN groups, so a year whose every value is missing
  has no row, although its annual sum would be 0.
- A month with no present value in any year leaves fewer than twelve columns.
  Writing the twelve month names as a row then raises, so the engine fails
  with `MonthWithoutData`.
- Asking for year -1 selects the header row. Converting the month names to
  numbers raises a ValueError, which is not caught (`HeaderNotNumeric`). Only
  a year that is absent from the index (a KeyError) is caught and reported.

## Model

| member | source | states |
|---|---|---|
| Series.NormalizeValue | copy9_ods_and_graphs.py:58 | a cell becomes missing exactly when it is empty or holds -9999; any other value is kept |
| Series.Normalize | copy9_ods_and_graphs.py:57-61 | every record keeps its position, year and month; its value is missing iff it was empty or -9999; no -9999 survives |
| Series.NormalizeIdempotent | copy9_ods_and_graphs.py:58 | replacing -9999 a second time changes nothing |
| Series.NormalizeKeepsSentinelFree | copy9_ods_and_graphs.py:58 | a series without -9999 is left as it is |
| Series.NormalizeAppend | copy9_ods_and_graphs.py:58 | the replacement works record by record, so it distributes over concatenation |
| Aggregate.Observations | copy9_ods_and_graphs.py:71-72 | a group reduction sees at most one value per record |
| Aggregate.ObservationsMembers | copy9_ods_and_graphs.py:71-72 | a value is seen by a group iff some record of the group holds it as a present value |
| Aggregate.ObservationsEmpty | copy9_ods_and_graphs.py:71-72 | a group sees nothing iff every record of the group is missing |
| Aggregate.ObservationsAppend | copy9_ods_and_graphs.py:81 | group reductions distribute over concatenated runs of records |
| Aggregate.MissingRecordObservesNothing | copy9_ods_and_graphs.py:81 | a missing record contributes to no group |
| Aggregate.CellObservationIsYearObservation | copy9_ods_and_graphs.py:71-72 | a present (year, month) value is also a present value of the year and of the month |
| Aggregate.YearObservationHasCell | copy9_ods_and_graphs.py:71-72 | a year with a present value has a present value in one of its (year, month) cells |
| Aggregate.MonthObservationHasYear | copy9_ods_and_graphs.py:71-72 | a month with a present value has it in some year |
| Aggregate.ObservationsOnePresent | copy9_ods_and_graphs.py:71-72 | a group with one present record sees exactly its value, whatever missing records it also holds |
| Aggregate.SumBounds | copy9_ods_and_graphs.py:81 | n values between lo and hi sum to between n*lo and n*hi |
| Aggregate.Mean | copy9_ods_and_graphs.py:85 | the mean is missing exactly when there is no value, never 0 |
| Aggregate.MeanBounds | copy9_ods_and_graphs.py:85 | the mean of values between lo and hi lies between lo and hi |
| Aggregate.MeanSingleton | copy9_ods_and_graphs.py:71-72 | the mean of one value is that value |
| Aggregate.InsertYear | copy9_ods_and_graphs.py:71-72 | adding a year to an ascending year index keeps it ascending and adds exactly that year |
| Aggregate.Years | copy9_ods_and_graphs.py:71-72 | the pivot's row index is strictly ascending and holds exactly the years with a present value |
| Aggregate.YearsSkipMissing | copy9_ods_and_graphs.py:71-72 | a missing record adds no year to the row index |
| Engine.YearRowOf | copy9_ods_and_graphs.py:71-81 | a year row is keyed by its year and has twelve month cells |
| Engine.MonthlyMeans | copy9_ods_and_graphs.py:85 | the mean row has twelve month cells |
| Engine.Reorganize | copy9_ods_and_graphs.py:52-94 | empty input fails with EmptySeries; otherwise the table is built iff every month has a present value, else MonthWithoutData; the header is the month names then "Suma Anual"; the year rows are strictly ascending and are exactly the years with a present value |
| Engine.SheetOf | copy9_ods_and_graphs.py:97-100 | the saved sheet: the label in the first cell, the month names and "Suma Anual" in the header row, each year's key, its twelve month cells and its sum, "Media Mensual", the twelve monthly means and the corner cell on the last row, 14 columns everywhere |
| Engine.NumbersAppend | copy9_ods_and_graphs.py:91 | reading the numbers of a column distributes over concatenation |
| Engine.NumbersOfNumbers | copy9_ods_and_graphs.py:91 | a column of numbers reads back as those numbers |
| Engine.CornerColumn | copy9_ods_and_graphs.py:88-91 | the annual-sum column read from position 2 yields the sums of every year row but the earliest; the NaN of the mean row is skipped |
| Engine.FrameTable | copy9_ods_and_graphs.py:76-85 | after the header row, the sort, the annual-sum column and its label, and the mean row: the header row (month names, then "Suma Anual") is first, the year rows follow in order with their cells and sums, the mean row is last with NaN in the sum column |
| Engine.FrameIndex | copy9_ods_and_graphs.py:77-85 | on the pivot's ascending years, the index is key -1, then the years, then "Media Mensual", and the keys through the last year are strictly ascending, as `sort_index` leaves them |
| Engine.HeaderKeyFirst | copy9_ods_and_graphs.py:77-78 | key -1 lies below every year, so putting it in front of ascending years gives ascending keys |
| Engine.HeaderLabelled | copy9_ods_and_graphs.py:82 | writing "Suma Anual" over the header row's NaN sum cell gives the month names followed by "Suma Anual" |
| Engine.MeanRowAppended | copy9_ods_and_graphs.py:85 | appending the mean row, with NaN in the sum column, after the labelled year rows gives the complete frame |
| Engine.SheetFromFrame | copy9_ods_and_graphs.py:97-100 | the frame with its index in front, the corner cell filled and the label in the first cell is the sheet of the table |
| Engine.BuildSheet | copy9_ods_and_graphs.py:88-100 | the corner cell, `reset_index` and the label yield exactly the sheet of the table |
| Engine.ReorganizeOds | copy9_ods_and_graphs.py:57-100 | the step-by-step construction fails exactly as `Reorganize` does, and otherwise produces the sheet of `Reorganize`'s table |
| EngineProperties.TableHasYearRow | copy9_ods_and_graphs.py:71-72 | a table that is built has at least one year row |
| EngineProperties.TableCells | copy9_ods_and_graphs.py:71-85 | a year row's cell is the mean of its (year, month) values; its sum is the sum of the year's values; a mean cell is the mean of the month's values over all years |
| EngineProperties.YearRowCongruent | copy9_ods_and_graphs.py:71-81 | a year row depends only on what the year's groups see |
| EngineProperties.MonthlyMeansCongruent | copy9_ods_and_graphs.py:85 | the mean row depends only on what the month groups see |
| EngineProperties.SummarizeCongruent | copy9_ods_and_graphs.py:71-94 | the table depends only on the group observations and the year index |
| EngineProperties.UnobservedRecordIsInert | copy9_ods_and_graphs.py:58 | removing a record that is empty or holds -9999 from a non-empty series leaves the table unchanged |
| EngineProperties.SentinelNeverObserved | copy9_ods_and_graphs.py:58 | -9999 never reaches a pivot cell, an annual sum or a monthly mean |
| EngineProperties.SingleRecordRoundTrip | copy9_ods_and_graphs.py:70-72 | when a (year, month) has exactly one present record, whatever empty or -9999 records it also holds, its year has a row and that row's cell is the original value |
| EngineProperties.UnobservedYear | copy9_ods_and_graphs.py:81 | a year whose records are all missing sums to 0, its cells are missing, and it has no row |
| EngineProperties.MonthlyMeanInRange | copy9_ods_and_graphs.py:85 | each mean-row cell is present and lies within the range of that month's present values |
| EngineProperties.PivotCellInRange | copy9_ods_and_graphs.py:71-72 | a year row's cell is missing iff its (year, month) has no present value, and otherwise lies within their range |
| EngineProperties.MeanOfSumsSkipsEarliestYear | copy9_ods_and_graphs.py:88-94 | the corner cell is missing with one year, and otherwise is the sum of the annual sums of all years but the earliest, divided by the number of years less one |
| Chart.FindRow | copy9_ods_and_graphs.py:131-134 | finds the first row keyed by the year, or reports that none is |
| Chart.LocRow | copy9_ods_and_graphs.py:131-134 | a row is found iff the key is -1 or a year of the table; -1 gives the header row; a year gives its twelve cells and its sum |
| Chart.AsFloats | copy9_ods_and_graphs.py:136 | the conversion fails iff a text cell is present; otherwise numbers stay and NaN becomes missing |
| Chart.Categories | copy9_ods_and_graphs.py:139-140 | month column m is shown as month name m-1 |
| Chart.CategoriesAreMonthNames | copy9_ods_and_graphs.py:135-140 | the bars are labelled with the twelve month names in calendar order |
| Chart.YLabel | copy9_ods_and_graphs.py:153-155 | the y label starts with the variable label and equals it unless the label is "Chuvia", which gets " (lluvia) [litros/m2]" |
| Chart.DigitChar | copy9_ods_and_graphs.py:161 | a digit's character is that digit |
| Chart.NatText | copy9_ods_and_graphs.py:161 | a number is written with at least one decimal digit, and a positive number without a leading zero, as `str` writes it |
| Chart.IntText | copy9_ods_and_graphs.py:161 | an integer's text is never empty |
| Chart.ParseInt | copy9_ods_and_graphs.py:161 | only a non-empty text reads back as an integer |
| Chart.NatTextValue | copy9_ods_and_graphs.py:161 | the digits of a natural number read back as that number |
| Chart.NatTextParses | copy9_ods_and_graphs.py:161 | the text of a non-negative year reads back as that year |
| Chart.SignedDigitsParse | copy9_ods_and_graphs.py:161 | a minus sign before digits reads back as the negated value of the digits |
| Chart.IntTextRoundTrip | copy9_ods_and_graphs.py:161-163 | the year written in the title reads back as the year |
| Chart.Title | copy9_ods_and_graphs.py:159-163 | the title is "<label> (lluvia) en el año <year>" for "Chuvia" and "<label> en el año <year>" otherwise |
| Chart.TitleNamesLabelAndYear | copy9_ods_and_graphs.py:159-163 | the title starts with the label and ends with text that reads back as the year |
| Chart.PresentValues | copy9_ods_and_graphs.py:177 | the present values are no more than the values |
| Chart.PresentValuesMembers | copy9_ods_and_graphs.py:177 | the present values are exactly the values of the present cells |
| Chart.MaxOf | copy9_ods_and_graphs.py:179 | the maximum is one of the values and no value exceeds it |
| Chart.MinOf | copy9_ods_and_graphs.py:178 | the minimum is one of the values and no value is below it |
| Chart.YLimits | copy9_ods_and_graphs.py:176-181 | no range exists iff every value is missing; otherwise the bottom is 0 and the top is max + (max - min) * 0.1 + max * 0.1 over the present values, so at least 1.1 times the maximum, with equality iff all present values are equal |
| Chart.YLimitsContainValues | copy9_ods_and_graphs.py:181 | with a non-negative maximum, no present value is above the top; a negative value is below the bottom |
| Chart.XLimits | copy9_ods_and_graphs.py:184-185 | the x range runs from -0.7 to n-1+0.7 |
| Chart.BarsInsideXLimits | copy9_ods_and_graphs.py:148-185 | each bar of width 0.8 lies strictly inside the x range |
| Chart.ChartOf | copy9_ods_and_graphs.py:130-185 | YearNotFound iff the year is neither -1 nor a row key; -1 fails with HeaderNotNumeric; a year's chart exists iff its row has a present cell, and otherwise fails with NoPresentValues; the values are the row's twelve cells, under the month names, with the derived label and title, the x range [-0.7, 11.7] and the y range `YLimits` gives for those values |
| Chart.CreateGraph | copy9_ods_and_graphs.py:124-191 | a table failure is passed on; otherwise the result is the chart `ChartOf` draws from the reorganised table, or its failure |
| Chart.CreateGraphHasPresentValues | copy9_ods_and_graphs.py:177-179 | a table built by the engine never yields a year without present values |
| Chart.CreateGraphValues | copy9_ods_and_graphs.py:131-136 | YearNotFound iff the year is below -1 or has no present value; the bars are that year's pivot cells |
| Chart.Annotate | copy9_ods_and_graphs.py:168-170 | one mark per present value, left to right, carrying that value; missing months get none |

`gui.py` repeats both functions verbatim: `reorganize_ods` at lines 37-114 and
`create_graph` at lines 117-197. Every line cited above in
`copy9_ods_and_graphs.py` is six lines earlier than its copy in `gui.py`.

## Left out

- Reading and writing the spreadsheet files and the progress `print` calls are left out. `ReorganizeOds` takes the records, the month names and the variable label as values and returns the sheet rows instead of saving them. `Reorganize` returns the `Table`, which stands for the frame `reorganize_ods` returns at line 108 and `create_graph` reads at line 134.
- The date column search (`select_dtypes`), date parsing and the second header cell as the label are not modelled. Records arrive with their year and month already extracted; a sheet without a date column is not modelled.
- The locale setting and `calendar.month_name` are passed in as the twelve month names.
- The intermediate `Suma Anual` column at line 64 and the `Media Mensual` row at lines 67-68 are never read back into the table, so they are left out. That row holds missing values, which turns the year keys into floats; the sheet's year cells are therefore written as `Number(year as real)`.
- All matplotlib drawing (bars, ticks, fonts, layout, the window) is left out. Only the data handed to it is modelled.
- The Tk user interface in `gui.py` (styles, language switching, file dialogs, its messages) is left out; it has no algorithmic content.
- Floating point is modelled by exact reals. NaN is `None` or the `NaN` cell. The text of an annotation (`str(v)`) is not modelled; a mark carries the value itself.
- Values are modelled as numbers or empty cells. A data cell holding text is not modelled, nor is a text cell that `astype(float)` could parse.
- Chart.ChartOf: requires the table's years to be ascending and distinct, as every table built by `Reorganize` is. A table with duplicate year keys, where `loc` returns several rows, is not modelled.
- The message printed for the caught KeyError is not modelled; the failure is returned as `YearNotFound`. The exceptions `create_graph` does not catch are returned as values rather than propagated: the ValueErrors at lines 136 and 178-179 as `HeaderNotNumeric` and `NoPresentValues`, and the engine's IndexError at line 52 and ValueError at line 77 as `TableFailed(EmptySeries)` and `TableFailed(MonthWithoutData)`.
