# Busan port cargo-volume dashboard: loader and summary figures

`busan.py` is a Streamlit dashboard over a CSV file of Busan port cargo volumes. The file has one row per year and port. It records the total volume and six volume breakdowns, in tonnes. This project models the two parts of the script that compute something, and proves what they promise.

* **Loading** (`load_data`, `loader.dfy`, `text.dfy`). The file is read with the encodings `utf-8-sig`, `cp949` and `euc-kr`, in that order. The first attempt whose whole `try` body succeeds wins; when every attempt fails, the sentinel `None` is returned.
  - Inside the `try`, the headers are stripped with Python's `str.strip()`.
  - Then, for each of the seven volume columns that is present, a column `<col>_만톤` is assigned that column divided by 10,000.
  - The bare `except: continue` also catches errors raised by that loop. Two things raise there and send the loop on to the next encoding. One is a volume column holding text cells: the division raises, while a text column with no cells, as in a header-only file, divides to an empty column. The other is a volume column appearing twice, unless `<col>_만톤` appears as many times: `df[col]` is then a frame, which pandas assigns column by column to an equal number of `<col>_만톤` columns and refuses otherwise.
  - Repeated names can arise because `str.strip()` can make two headers equal (`총계` and ` 총계`). Assignment to a repeated name follows pandas 2's `DataFrame.__setitem__`. When `<col>_만톤` names n > 1 columns and the frame has exactly n rows, the single divided column counts as one value per column: the j-th `<col>_만톤` is filled with its j-th cell.
  - The frame is a `DataFrame` class whose column list the methods update in place. `LoadData` is the imperative encoding loop, proved against the function `Load`.
  - `LoadCache` models `@st.cache_data` as a map from path to stored result.
* **Summary figures** (`aggregator.dfy`, `breakdown.dfy`). These are pure functions over the table as a sequence of `Record`s in file order:
  - the latest year and its rows
  - that year's and the previous year's total, the delta and the growth rate with its zero guard
  - the ▲/▼ badge
  - the top port by `idxmax` (first occurrence)
  - the per-year totals of `groupby('년도')`
  - the five-type breakdown chart: sorted ascending by value, then relabelled through `comp_map`

Volumes are exact `real`s, so sums have no rounding. `read_csv` does not appear: each encoding attempt's parse is a parameter `read: Encoding -> Option<Table>`.

## Model

| member | source | states |
|---|---|---|
| Text.Strip | busan.py:27 | the result is the header with a run of whitespace (Python `str.isspace`) removed at each end, and it has no whitespace at either end |
| Text.StripOfUnique | busan.py:27 | any string that is the header minus whitespace runs at both ends, with none left at either end, is exactly `Strip` of it |
| Text.StripIdempotent | busan.py:27 | stripping a stripped name changes nothing |
| Text.StripAll | busan.py:27 | `Index.str.strip()`: one stripped name per header, in the same order |
| Loader.Select | busan.py:31-32 | what `df[col]` denotes: nothing, the one column of that name, or a frame when the name repeats (its contract is Loader.NamedNonEmpty) |
| Loader.StripNames | busan.py:27 | `df.columns = df.columns.str.strip()` on values: each column renamed to its stripped header, cells kept (its contract is LoaderProperties.PreparedNames) |
| Loader.Assign | busan.py:32 | `df[key] = c` on values: append a new `key`; with n > 1 columns named `key` and n cells in `c`, hand the j-th of them cell j; otherwise replace every column of that name (its contract is Loader.NamedAssign) |
| Loader.AssignFrame | busan.py:32 | `df[key] = frame` on values: the frame's columns go in order to the columns named `key` when the counts agree, a one-column frame to a new `key`, and any other count raises (its contract is Loader.NamedAssignFrame) |
| Loader.Quotient | busan.py:32 | `df[col] / 10000`: numeric cells each divided by 10,000; an empty text column gives an empty column; a text column with cells raises (None) |
| Loader.Quotients | busan.py:32 | `frame / 10000`: raises exactly when some column has a text cell; otherwise column i is the quotient of column i |
| Loader.Derive | busan.py:31-32 | one pass of the derive loop: an absent column changes nothing; a text column with cells raises; a single column is assigned its quotient with `Assign`; a repeated one has its quotient frame assigned with `AssignFrame` (its contracts are LoaderProperties.DeriveExtends and DeriveNoneIff) |
| Loader.Convert | busan.py:30-32 | the derive loop over the seven volume columns, stopping at the first exception (its contracts are LoaderProperties.ConvertExtends and ConvertNoneIff) |
| Loader.Prepare | busan.py:27-33 | the body of the `try` after a successful parse: strip the headers, then run the derive loop (its contracts are the LoaderProperties.Prepared… lemmas) |
| Loader.Attempt | busan.py:25-35 | one turn of the encoding loop: no table when the parse or the `try` body fails |
| Loader.Load | busan.py:23-36 | `load_data` as a function: the first attempt's table in the order utf-8-sig, cp949, euc-kr, or None (its contracts are LoaderProperties.LoadIsFirstSuccess and LoadNoneIffAllFail) |
| Loader.DataFrame.constructor | busan.py:26 | the new frame holds the parsed table |
| Loader.DataFrame.SetNames | busan.py:27 | `df.columns = names` renames each column in place and keeps its cells |
| Loader.DataFrame.SetItem | busan.py:32 | `df[key] = c` updates the frame in place to `Assign` of it: a new column, one cell per column for n > 1 copies of `key` and n cells, or every column named `key` replaced |
| Loader.DataFrame.SetFrame | busan.py:32 | `df[key] = frame` updates the frame in place to `AssignFrame` of it, or reports the raise and leaves the frame as it was |
| Loader.Replace | busan.py:32 | assigning to an existing name keeps every name and position, and gives the new cells to exactly the columns of that name |
| Loader.NamedNonEmpty | busan.py:31 | `col in df.columns` holds exactly when `df[col]` selects at least one column |
| Loader.NamedAssign | busan.py:32 | after `df[key] = c`, `df[x]` is unchanged for every other name; `key` names exactly one column when it named none before, and as many as before otherwise; each holds `c`, except that n > 1 copies of `key` and n cells in `c` give the j-th copy cell j throughout |
| Loader.NamedAssignFrame | busan.py:32 | after `df[key] = frame` succeeds, `df[x]` is unchanged for every other name, the columns named `key` are the frame's columns in order, and the frame had as many columns as `key` named (one for a new `key`) |
| Loader.AddDerivedColumns | busan.py:29-32 | the derive loop returns false exactly when the model of the loop raises; on success the frame holds that model's result |
| Loader.LoadData | busan.py:23-36 | returns null exactly when `Load` gives no data; otherwise a fresh frame holding `Load`'s table |
| Loader.LoadCache.Get | busan.py:22-23 | returns what `load_data` would; a hit stores nothing new; a miss stores the result; every stored result stays equal to loading its path |
| Loader.LoadCache.Hit | busan.py:22-23 | a hit changes nothing and hands out a fresh frame holding the stored result, which is what loading the path gives |
| Loader.LoadCache.Miss | busan.py:22-23 | a miss loads the path, stores the result under it, and keeps every stored result correct |
| LoaderProperties.FirstSomeIff | busan.py:24-35 | the encoding loop returns `t` exactly when `t` is the first successful outcome, after only failures |
| LoaderProperties.LoadIsFirstSuccess | busan.py:24-35 | `load_data` returns `t` exactly when some encoding's attempt gives `t` and every earlier encoding's attempt failed |
| LoaderProperties.LoadNoneIffAllFail | busan.py:24-36 | `None` comes back exactly when the utf-8-sig, cp949 and euc-kr attempts all fail |
| LoaderProperties.LoadedFromParse | busan.py:24-33 | a returned table came from a successful parse under one encoding, processed by the `try` body, after all earlier encodings failed |
| LoaderProperties.LoadedNamesTrimmed | busan.py:27 | no column name of a returned table has whitespace at either end |
| LoaderProperties.TargetColsGood | busan.py:29 | the seven volume columns are distinct, and none ends in `_만톤` |
| LoaderProperties.DeriveExtends | busan.py:31-32 | one derive step changes only `<col>_만톤`. A single column's quotient fills `<col>_만톤`: exactly one new column when there was none, as many as before otherwise, with the one-cell-per-copy case of `Assign`. A repeated column's quotients go in order to as many `<col>_만톤` columns |
| LoaderProperties.DeriveNoneIff | busan.py:31-32 | a derive step raises exactly when a selected column has a text cell, or a repeated column meets a different number of `<col>_만톤` columns |
| LoaderProperties.ConvertExtends | busan.py:30-32 | across the whole derive loop, original columns keep their place, names and cells, except those with a derived name; added columns have derived names; every volume column's `<col>_만톤` columns are as DeriveExtends states; an absent one leaves `<col>_만톤` as it was |
| LoaderProperties.ConvertNoneIff | busan.py:30-35 | the derive loop raises exactly when some volume column has a text cell, or appears n > 1 times while `<col>_만톤` does not appear exactly n times |
| LoaderProperties.PreparedNames | busan.py:27-32 | column `k` of a prepared table is header `k` stripped; later columns have derived names; no name has surrounding whitespace |
| LoaderProperties.PreparedKeepsOriginals | busan.py:27-32 | columns that do not have a derived name keep their cells, and `df[x]` is unchanged for every such name |
| LoaderProperties.PreparedDerived | busan.py:29-32 | for each volume column present after stripping, the `<col>_만톤` columns hold its cells divided by 10,000, as DeriveExtends states, counts included; an absent column leaves `<col>_만톤` as the file had it |
| LoaderProperties.PrepareNoneIff | busan.py:27-35 | after a successful parse, the `try` fails exactly when some stripped volume column has a text cell, or appears n > 1 times while `<col>_만톤` does not appear exactly n times |
| LoaderProperties.HeaderOnlyPrepares | busan.py:27-33 | a header-only file (every column empty) whose volume columns are not repeated passes the `try` |
| LoaderProperties.HeaderOnlyExample | busan.py:23-33 | the header-only file `년도,총계` loads under the first encoding |
| LoaderProperties.RepeatedColumnExample | busan.py:31-32 | two `총계` and two `총계_만톤` columns: the step succeeds, and the j-th `총계_만톤` holds the j-th `총계` divided by 10,000 |
| LoaderProperties.RepeatedTargetExample | busan.py:32 | one `총계` over two rows and two `총계_만톤` columns: each `총계_만톤` is filled with one cell of the quotient |
| LoaderProperties.LoadFirstEncoding | busan.py:24-33 | when the utf-8-sig attempt succeeds, `load_data` returns its table |
| LoaderProperties.PreparedRectangular | busan.py:29-32 | every column, original or derived, has as many cells as the file has rows |
| Aggregator.FieldsAreTargets | busan.py:29 | the record's seven volume fields are the loader's volume columns, in order |
| Aggregator.MaxYear | busan.py:129 | `latest_year` is at least every row's year, and is some row's year |
| Aggregator.YearRows | busan.py:130 | `latest_df`: only rows of the given year, no more rows than the table (its contracts are YearRowsMembers, YearRowsCount, YearRowsAppend and YearRowPosition) |
| Aggregator.Sum | busan.py:131 | `frame['<col>_만톤'].sum()`, 0 on no rows (its contracts are Aggregator.SumOfYearRows and SumOverAllYears) |
| Aggregator.YearRowsMembers | busan.py:130 | the year filter keeps exactly the rows of that year |
| Aggregator.YearRowsCount | busan.py:130 | the year filter keeps each row of that year as often as the table has it, and no other |
| Aggregator.YearRowsAppend | busan.py:130 | the year filter keeps file order: it distributes over concatenation |
| Aggregator.YearRowPosition | busan.py:130 | the k-th filtered row sits at a table position before which exactly the first k filtered rows occur |
| Aggregator.SumOfYearRows | busan.py:131-132 | summing the filtered rows equals the masked sum over the whole table |
| Aggregator.YearTotal | busan.py:131-132 | a year's `총계_만톤` total is the masked sum of that year |
| Aggregator.SumWhereAbsent | busan.py:132 | a year without rows totals 0, as `prev_val` does for the earliest year |
| Aggregator.GrowthRate | busan.py:134 | with a non-zero previous total, rate × previous total = delta × 100; otherwise the rate is 0 |
| Aggregator.GrowthSign | busan.py:133-134 | against a positive previous total, the rate is non-negative exactly when the year did not fall, and 0 exactly when it stayed equal |
| Aggregator.DeltaBadge | busan.py:142-143 | the badge's magnitude is non-negative, and it points up exactly when delta >= 0 |
| Aggregator.BadgeRoundTrip | busan.py:142-143 | the badge shows ▲ and class `delta-up` when delta >= 0, ▼ and `delta-down` otherwise, with magnitude `abs(delta)`, and gives back delta |
| Aggregator.TopIndex | busan.py:135 | `idxmax`: a row whose total is at least every row's total, and strictly more than every earlier row's |
| Aggregator.TopPort | busan.py:135 | the port of the `idxmax` row (its contract is Aggregator.TopIndex) |
| Aggregator.TopOfYearRows | busan.py:135 | the latest rows' `idxmax` row is, in the whole table, the first row of that year with the largest total |
| Aggregator.TopPortOfYear | busan.py:135 | `top_port` is the port of the first row of the year, in file order, whose total is at least every row of that year |
| Aggregator.Summarize | busan.py:129-135 | the metric cards: latest year, its masked total, the previous year's masked total, their difference, the guarded growth rate and the first-occurrence top port |
| Aggregator.Example | busan.py:129-135 | on two ports over 2022 and 2023 the cards are 2023, 130, 110, +20, 18.18…% and 신항 |
| Aggregator.Years | busan.py:171 | the group keys: each year of the table exactly once, strictly ascending |
| Aggregator.SumOverAllYears | busan.py:171 | summing each year's masked total over a list of distinct years that covers every row gives the table's total |
| Aggregator.YearlyTotals | busan.py:171 | `groupby('년도')['총계_만톤'].sum()`: one (year, total) pair per group key (its contract is Aggregator.YearlyTotalsFacts) |
| Aggregator.YearlyTotalsFacts | busan.py:171 | per-year totals are keyed by each table year once, ascending; each value is that year's masked sum; together they add up to the whole table's total |
| Breakdown.CompMapFacts | busan.py:194 | `comp_map` sends the derived column of each of the five cargo types to its label, and has no other key or label |
| Breakdown.ComponentTotals | busan.py:195 | `latest_df[list(comp_map.keys())].sum()`: five (column, sum) pairs, in key order |
| Breakdown.Chart | busan.py:195-196 | the sums sorted ascending, then relabelled through `comp_map` (its contracts are Breakdown.ChartFacts, ChartIsSortedTotals and ChartLabels) |
| Breakdown.LatestChart | busan.py:195-196 | the chart on `latest_df`, the latest year's rows (its contract is Breakdown.LatestChartIsSorted) |
| Breakdown.SortByValue | busan.py:195 | `sort_values()`: ascending by value, and a permutation of its input |
| Breakdown.Relabel | busan.py:196 | each pair keeps its place and value and gets its key's label |
| Breakdown.RelabelSort | busan.py:195-196 | sorting then relabelling gives the same as relabelling then sorting |
| Breakdown.ChartIsSortedTotals | busan.py:194-196 | the chart is the five labelled sums, sorted ascending |
| Breakdown.ChartFacts | busan.py:194-196 | the chart has five bars, is ascending, and is a permutation of the five labelled sums |
| Breakdown.ChartLabels | busan.py:194-196 | every bar's label is a `comp_map` label, and every `comp_map` label has a bar |
| Breakdown.LabelledOfYear | busan.py:195 | summing each cargo type over the year's rows equals its masked sum over the table |
| Breakdown.LatestChartIsSorted | busan.py:195-196 | the drawn chart is the latest year's five labelled masked sums, sorted ascending, and a permutation of them |
| Breakdown.ChartAddsUp | busan.py:195 | when each row's total is the sum of its five cargo types, the bars add up to the rows' total |

## Left out

- Streamlit page layout, CSS, tabs, expanders, the port `multiselect` widget and all plotly figures (busan.py:38-127, 137-205 apart from the lines above): presentation only.
- Font selection through `platform.system()` and matplotlib (busan.py:9-19): depends on the operating system and a foreign library.
- `pd.read_csv` and byte decoding: each encoding's parse is the parameter `read`, with results of success (a table) or failure.
- Column dtypes beyond numeric and text, NaN values, and `max`/`idxmax` on NaN: volumes are exact reals, and cells are never missing.
- Floating-point rounding and number formatting (`:,.0f`, `:.1f`, `%`): arithmetic is exact.
- The conversion of the loaded frame to `Record`s: the aggregator takes the rows it reads (`년도`, `항구분` and the seven volumes) as a sequence of records.
- Aggregator.Summarize: requires a non-empty table. On an empty one, `max` gives NaN and `idxmax` raises, and the model does not follow pandas there.
- Aggregator.TopPort: requires a non-empty row set, for the same reason.
- Breakdown.SortByValue: a stable insertion sort. Its contract states only ascending order and permutation, because pandas' default sort does not promise an order for equal values.
- Breakdown.ChartAddsUp: assumes each row's total equals the sum of its five cargo types. The source neither checks nor relies on this.
- Loader.LoadCache.Get: assumes the file at a path does not change while the process runs. Cache expiry and hashing of arguments are left out.
- Assignment to a repeated column name follows pandas 2 (`__setitem__`, `_set_item_frame_value`, `_iset_not_inplace`). Earlier pandas versions behave differently there, and the model follows only pandas 2.
- Loader.LoadData: the frame a failed attempt leaves behind is dropped, as in the source. The model does not describe memory or aliasing beyond `fresh`.
