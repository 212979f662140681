# COVID dashboard: filter-and-shape pipeline and Europe extract

This project is a Dafny model of the two scripts of a small COVID data
dashboard, with proofs about the model.

- `DataSetProject.py` is a Streamlit page. It normalises a chosen date
  column. Rows whose date does not parse are dropped, and a year column
  `Yıl` and an English month-name column `Ay` are derived. It then computes
  the date bounds and narrows the table by an inclusive date range and a
  categorical multiselect. Finally it turns the chart settings into a
  Plotly figure: a sunburst, a density heatmap, or a bar, pie or scatter
  chart.
- `filter.py` keeps the rows whose `continent` is `Europe` and projects
  them onto ten fixed columns.

A table is a `Frame`: an ordered list of column names and an ordered list
of rows. Each row is a `map<string, Value>`. A `Value` is missing, text, an
integer or a timestamp. A `Timestamp` is a calendar `Date` (year, month,
day) plus a time of day. Dates are ordered lexicographically.

Date parsing is an uninterpreted function parameter `parse: Value ->
Option<Timestamp>`. Cells that already hold a timestamp pass through it
unchanged, and missing cells stay missing, as with `pd.to_datetime`.

Widget answers are plain parameters: `Controls` for the filters and
`Roles` for the chart settings. The plotting calls are replaced by a
`Figure` value.

Modules:

- `Opt`: the option type.
- `Text`: decimal rendering of the year and `str.join`.
- `Calendar`: dates, timestamps, their orders and the month-name table.
- `Tables`: the pandas idioms both scripts use: boolean-mask selection,
  column assignment, projection and `unique()`.
- `Dashboard`: lines 31-63 of `DataSetProject.py`.
- `Charts`: lines 73-141 of `DataSetProject.py`.
- `Europe`: `filter.py`.

In `Dashboard.Pipeline`, the table is threaded through the script's
statements one at a time (parse, drop, add year, add month, range filter,
selection filter). The method is proved equal to a reference definition,
`Survivors`: a row survives iff its date parses, its calendar date lies in
the range (when a two-date range is given) and its category is selected
(when the selection is non-empty). The row order is kept. Similarly,
`Charts.Render` builds the sunburst path by appending, as the script does,
and is proved equal to `Charts.Plan`, whose contract states the readiness
rules.

Behaviour of the code worth noting, which the model follows:

- An empty multiselect filters nothing (line 63 `if sel:`); it does not
  exclude every row.
- A bar, pie or scatter figure needs only the x axis to be bound; y is
  passed on as it is.
- Line and Histogram charts bind their axes, but no figure is drawn for
  them: the fallback branch sets no `fig` for them.
- The sunburst colour is always the first layer.
- No check for negative slice values exists in the code, so none is
  modelled.
- The multiselect's options come from the original table (line 61), not
  from the filtered one.

## Model

| member | source | states |
|---|---|---|
| `Text.NatToString` | DataSetProject.py:46 | the year text is a non-empty string of decimal digits, with a leading zero only for 0 |
| `Text.NatToStringInverse` | DataSetProject.py:46 | reading the year text back as a decimal number gives the year |
| `Text.NatToStringInjective` | DataSetProject.py:46 | different years give different `Yıl` texts |
| `Calendar.DateLeTotalOrder` | DataSetProject.py:53-56 | the date order used for the bounds and the range test is a total order |
| `Calendar.StampLeTotalOrder` | DataSetProject.py:53 | the timestamp order used by `min`/`max` is a total order |
| `Calendar.StampLeDate` | DataSetProject.py:53 | taking `.date()` of ordered timestamps keeps them ordered |
| `Calendar.MonthName` | DataSetProject.py:47 | a month's name is one of the twelve English month names |
| `Calendar.MonthNameInjective` | DataSetProject.py:47 | different months have different names |
| `Tables.Column` | DataSetProject.py:61 | the column has one value per row, value i is row i's cell, and its values are exactly the rows' cells |
| `Tables.MapRows` | DataSetProject.py:41 | a per-row transformation keeps the row count, and row i of the result is the transform of row i |
| `Tables.Select` | DataSetProject.py:42 | a mask selection never adds rows, and a row is in the result iff it was in the input and passes the mask |
| `Tables.SelectAppend` | DataSetProject.py:56 | mask selection distributes over concatenation, so relative order is preserved |
| `Tables.SelectSelect` | DataSetProject.py:56-63 | two selections in a row are one selection by the conjunction of the masks |
| `Tables.SelectAll` | DataSetProject.py:63 | a mask every row passes returns the table unchanged |
| `Tables.SelectSame` | DataSetProject.py:63 | masks that agree on every row select the same rows |
| `Tables.Filter` | filter.py:28 | `df[mask]` keeps the columns, selects the rows and keeps the table well formed |
| `Tables.AddColumnName` | DataSetProject.py:46-47 | after assigning a column, the column set gains exactly that name, the old columns keep their order, and names stay distinct |
| `Tables.WithColumn` | DataSetProject.py:46-47 | assigning a column sets that cell in every row, leaves row count and the other cells unchanged, and keeps the table well formed |
| `Tables.Restrict` | filter.py:31 | a projected row has exactly the listed columns, each holding the original row's value |
| `Tables.Project` | filter.py:31 | `df[cols]` has exactly the listed columns in the listed order, one output row per input row, each the projected input row |
| `Tables.Uniques` | DataSetProject.py:61 | the unique values hold each column value exactly once and nothing else |
| `Tables.UniquesPrefix` | DataSetProject.py:61 | unique values come in first-appearance order |
| `Dashboard.ToDatetime` | DataSetProject.py:41 | coercion keeps an existing timestamp and leaves a missing cell unparsed |
| `Dashboard.ParseDates` | DataSetProject.py:41 | coercion keeps the row count and the columns, and leaves every date cell a timestamp or NaT; `NormalizeStagesMatch` places it in the normalisation |
| `Dashboard.DropUnparsed` | DataSetProject.py:42 | `dropna` keeps the columns and exactly the rows whose date cell is not missing; `NormalizeStagesMatch` places it in the normalisation |
| `Dashboard.AddYear` | DataSetProject.py:46 | the year column exists afterwards and every row with a timestamp has `Yıl` set to its year as text; `NormalizeStagesMatch` places it in the normalisation |
| `Dashboard.AddMonth` | DataSetProject.py:47 | the month column exists afterwards and every row with a timestamp has `Ay` set to its English month name; `NormalizeStagesMatch` places it in the normalisation |
| `Dashboard.NormalizedColumns` | DataSetProject.py:50 | the refreshed column list holds the old columns first, in order, plus `Yıl` and `Ay`, with no duplicates; `Pipeline` returns it as the column list |
| `Dashboard.InRange` | DataSetProject.py:56 | a row passes the range mask only if its date cell is a timestamp and lo <= hi; `InRangeIgnoresTime` states its inclusive, date-only meaning |
| `Dashboard.RestrictToRange` | DataSetProject.py:56 | a row is kept iff its calendar date lies in [lo, hi]; the columns stay; `Pipeline` ties it to `Survivors` |
| `Dashboard.RestrictToSelection` | DataSetProject.py:63 | a row is kept iff its cell in the filter column is one of the selected values; the columns stay; `Pipeline` ties it to `Survivors` |
| `Dashboard.NormalizeRows` | DataSetProject.py:41-47 | normalisation never adds rows; every surviving row holds a timestamp, with `Yıl` its year as text and `Ay` its English month name |
| `Dashboard.NormalizeStagesMatch` | DataSetProject.py:41-47 | the four statements parse, `dropna`, add year and add month compute the row-by-row reference normalisation |
| `Dashboard.NormalizeAppend` | DataSetProject.py:41-42 | normalisation works row by row and keeps relative order |
| `Dashboard.NormalizeKeepsParsed` | DataSetProject.py:42 | every row whose date parses survives, in its derived form |
| `Dashboard.NormalizeOnlyParsed` | DataSetProject.py:42 | every surviving row is the derived form of an input row whose date parsed |
| `Dashboard.NormalizeKeepsOtherCells` | DataSetProject.py:41-47 | cells outside the date and derived columns come from the original table |
| `Dashboard.NormalizeIdempotent` | DataSetProject.py:41-47 | normalising an already normalised table on the same column changes nothing |
| `Dashboard.Earliest` | DataSetProject.py:53 | the minimum timestamp is the timestamp of some row and is at most every row's timestamp |
| `Dashboard.Latest` | DataSetProject.py:53 | the maximum timestamp is the timestamp of some row and is at least every row's timestamp |
| `Dashboard.BoundsOf` | DataSetProject.py:52-53 | the bounds satisfy lo <= hi, both are dates of surviving rows, and every row's date lies between them |
| `Dashboard.InRangeIgnoresTime` | DataSetProject.py:56 | the range test is inclusive at both ends and looks only at the calendar date, never the time of day |
| `Dashboard.Survivors` | DataSetProject.py:42-63 | a row survives iff it was normalised (when a date column is chosen), lies in the range (when applied) and is selected (when the selection is non-empty) |
| `Dashboard.SurvivorsAppend` | DataSetProject.py:42-63 | the combined filter works row by row and keeps relative order |
| `Dashboard.NoFiltersKeepTable` | DataSetProject.py:31 | with no date column and no effective selection, the table passes through unchanged |
| `Dashboard.EmptySelectionIsNoFilter` | DataSetProject.py:63 | an empty multiselect gives the same result as no categorical filter, not an empty table |
| `Dashboard.DefaultSelectionKeepsEveryRow` | DataSetProject.py:61-63 | the default selection, all unique values of the original column, filters nothing |
| `Dashboard.Pipeline` | DataSetProject.py:31-63 | the staged pipeline returns exactly the reference survivors with the normalised column list and stays well formed; bounds exist iff a date column is chosen and rows survive normalisation; options are the original column's unique values |
| `Charts.Configure` | DataSetProject.py:79-100 | only a sunburst binds layers and value; Histogram never binds y; unimplemented chart types bind nothing; other types bind the x axis and colour answers |
| `Charts.Plan` | DataSetProject.py:108-141 | the result is "incomplete" iff no sunburst is ready, no heatmap is ready and x is unbound; a sunburst is drawn iff layer 1 and value are bound; a heatmap is drawn with z summed iff x, y and z are bound; otherwise, with x bound, a Bar, Pie or Scatter is always drawn and its figure kind follows the chart type, while every other type draws nothing; Bar and Scatter carry x, y and colour, a pie uses x as names and y as values; no drawn figure lacks a required column |
| `Text.Join` | DataSetProject.py:119 | joining one part gives that part; joining two gives them with the separator between; `SunburstShape` uses it for the title |
| `Charts.SunburstTitle` | DataSetProject.py:119 | the title is the one-layer path, or the two layers joined by " > ", inside the fixed Turkish wording around the value column; `SunburstShape` shows it is the drawn title |
| `Charts.SunburstShape` | DataSetProject.py:110-120 | the sunburst path is exactly [layer1] or [layer1, layer2], colour is layer 1, and the title joins the path with " > " |
| `Charts.LineAndHistogramDrawNothing` | DataSetProject.py:97-139 | Line and Histogram settings never produce a figure |
| `Charts.UnimplementedAlwaysIncomplete` | DataSetProject.py:73-76 | Treemap, Sankey, Network and Geo Map always show the settings message |
| `Charts.SunburstDrawnIffBound` | DataSetProject.py:83-108 | through the settings panel, a sunburst is drawn exactly when layer 1 and value are chosen |
| `Charts.Render` | DataSetProject.py:107-141 | the if/elif drawing section, with the path built by appending, produces exactly the planned outcome |
| `Europe.KeptColumnsDistinct` | filter.py:9-20 | the ten kept column names are distinct |
| `Europe.InTarget` | filter.py:28 | a row matches only if it has a `continent` cell equal to "Europe", so a missing continent never matches; `Extract` applies it |
| `Europe.Extract` | filter.py:28-31 | the output has exactly the ten columns in order, no more rows than the input, only rows whose continent is Europe, and every European input row cut to those columns with its values unchanged |
| `Europe.ExtractAppend` | filter.py:28-31 | the extract works row by row, keeping the input's relative order |
| `Europe.ExtractOne` | filter.py:28-31 | a single row is kept, cut to the ten columns, iff its continent equals "Europe" |

## Left out

- Streamlit UI: the page configuration, CSS, sidebar, expanders, subheaders and hints (DataSetProject.py:8-23, 35-38, 65-71, 84, 89, 105). Widget answers are parameters.
- The date-range widget's clamping of choices to the bounds (DataSetProject.py:54). The model accepts any returned tuple and applies the filter only to a two-date tuple.
- CSV reading and writing and the `st.cache_data` cache (DataSetProject.py:26-30, filter.py:25, 34).
- Plotly drawing: the `px.*` calls, `update_traces(textinfo=...)`, the "Magma" colour scale and `st.plotly_chart` (DataSetProject.py:115-124, 130-139). The model returns the figure description instead.
- The `ValueError` catch around the sunburst call (DataSetProject.py:125-126). The failure happens inside the plotting library, and the script itself checks no values.
- `pd.to_datetime`'s real parsing rules are not modelled: the parser is an uninterpreted parameter applied cell by cell. Format inference across the whole column and time zones are also left out.
- Days are limited to 1-31 but not checked against the month; the parser is abstract anyway.
- Floating-point cells and pandas NaN semantics inside `isin` and `unique` are left out. Numbers are integers, and values are compared by plain equality.
- Dashboard.Pipeline: compares the selection with the filter column by plain equality. When the filter column is the date column, pandas `isin` casts selected texts that all parse to timestamps and can match them; the model compares text with timestamps and keeps no row there.
- Dashboard.Pipeline: requires the categorical filter column to exist in the original table. Otherwise line 61 raises `KeyError`, e.g. when a derived `Yıl` or `Ay` is picked.
- Dashboard.Pipeline: requires the date column not to be named `Yıl` or `Ay`. With `Yıl`, line 46 turns the date column into text, so the `.dt` accessor at line 47 always raises, with or without rows. With `Ay`, line 47 overwrites the date column with month names, and line 53 raises once a row survives. The model also excludes the harmless case of `Ay` with no parsable cell: there the `df_filtered.empty` guard at line 52 skips line 53 and the script carries on with an empty table.
- Europe.Extract: requires the ten kept columns to exist; otherwise filter.py:28 or 31 raises `KeyError`.
- Dashboard.DefaultSelectionKeepsEveryRow: assumes the filter column is neither the date column nor a derived column, whose cells normalisation rewrites. pandas' own conversions inside `isin` are not modelled.
- The copy at DataSetProject.py:31 and the in-place column assignments are modelled as values. The original table cannot change in the model, so aliasing is not represented.
- The unused `networkx` and `plotly.graph_objects` imports (DataSetProject.py:4-5).
