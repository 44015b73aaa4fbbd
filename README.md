# Space mission dashboard: the data pipeline

This project models the data pipeline of the space mission dashboard, `space.py`. The pipeline runs as follows:

1. It loads the mission table.
2. It derives new columns in place, one assignment at a time:
   - `Date` and `Time` are slices of `Datum`;
   - `LocationPart` and `Country` come from splitting `Location` at its last `", "`;
   - `RocketName` and `Mission` come from splitting `Detail` at its first `'|'`;
   - `Year` is parsed from `Date` with the format `'%a %b %d, %Y'`.
3. It keeps the rows whose country is selected, and stops when none is left.
4. It computes the total, success and failure metrics over the whole table.
5. It counts the groups for the line chart, the map and the two pie charts.
6. It builds the two "Top 15" bar charts, by rocket and by company.

Modules:

- `Wrappers` (`wrappers.dfy`): `Option`, `Result`, `Outcome`.
- `Fields` (`fields.dfy`): the string operations of lines 25-30, each with its defining property.
  - `split('|', 1)` and `rsplit(', ', 1)`.
  - Python's clipped slices.
  - The date parser for the exact shape `Www Mmm DD, YYYY`, with a formatter it round-trips with.
- `Missions` (`missions.dfy`): the raw and derived records, plus `DeriveAll`, the derivation of the whole table as values.
  - The class `MissionTable` holds the table as one `seq` field per column.
  - Its methods add the derived columns in place, as lines 25-30 do.
  - `Derive` runs them and is proved equal to `DeriveAll`.
- `Keys` (`keys.dfy`): the group keys (a number, a text or a pair), which pandas sorts in lexicographic order.
- `Groups` (`groups.dfy`): `groupby().count()`/`sum()` as a tally over key-sorted groups, the descending sort, `nlargest` and `isin`.
- `Dashboard` (`dashboard.dfy`): the country filter, the metrics, the six groupings, the top-15 charts and the whole page.
  - `Render` works on a derived table.
  - `Page` and `DefaultPage` work on the raw file.

A few behaviours of the code are easy to miss, and the model follows the code in each:

- **A split that matches no row fails.** When no row contains the separator, the lambda's results form a one-column frame, and the two-column assignment raises. An empty table fails the same way: `apply` on an empty column returns an empty Series, which has no columns for the two names.
  - This is `ColumnCountMismatch`, checked for the location first and then for the detail.
  - When only some rows lack the separator, those rows get a missing `Country` or `Mission`.
  - So a row without the separator degrades silently only when some other row has it.
- **One bad date stops the derivation.** `pd.to_datetime(..., format=...)` raises on the first date that does not parse. `UnparsedDate(row)` names the first such row.
- **Counts can be zero.** `groupby(...)['Mission'].count()` counts only present `Mission` cells. A group whose every row lacks a mission still appears, with count 0 (`MissionlessGroupListed`). Counts are guaranteed positive only when `RocketName` is counted, at line 171 (`RocketCountsPositive`).
- **Groups come out in key order, and missing keys are dropped.** A row with no country is in no group of the map.
- **Ties in the top 15 go by key order, not input order.** `nlargest(15)` runs on the key-sorted sums and keeps the first of equal totals, so a tie goes to the smaller key, not to the earlier row.
- **A missing country is selectable.** The selection options are `df["Country"].unique()`, and pandas' `isin` matches a missing value against a missing value.
  - The default selection lists every country once, missing included.
  - The default selection keeps every row.

## Model

| member | source | states |
|---|---|---|
| Fields.FindFirst | space.py:28 | the position found holds the separator and none comes before it; no position means no separator |
| Fields.SplitFirst | space.py:28 | the head holds no separator; the mission is missing exactly when the detail has no separator, and then the head is the whole detail; otherwise head + separator + tail is the detail |
| Fields.SplitFirstOfJoin | space.py:28 | joining a separator-free head with any tail (later pipes kept) splits back into that head and tail |
| Fields.FindLast | space.py:27 | the position found is an occurrence with none after it; no position means no occurrence |
| Fields.SplitLast | space.py:27 | the country is missing exactly when the location has no ", ", and then the part is the whole location; otherwise part + ", " + country is the location and the country has no ", " |
| Fields.SplitLastOfJoin | space.py:27 | joining any part with a country free of ", " splits back into that part and country |
| Fields.Slice | space.py:25-26 | a Python slice clipped to the string: its length and the characters it copies |
| Fields.DatePart | space.py:25 | the date is a prefix of the datum, of length min(16, length) |
| Fields.TimePart | space.py:26 | the time is empty when the datum has at most 17 characters, else characters 17 up to min(22, length) |
| Fields.DatumLayout | space.py:25-26 | a datum of 22 or more characters is its date, one character, its time and the rest |
| Fields.IndexOf | space.py:30 | the index found names the month; no index means no such month name |
| Fields.ParseDate | space.py:30 | a parsed date is a valid calendar date, from a 16-character string with a weekday name, the month's own name, two day digits and four year digits that are its day and year |
| Fields.Format2Decimal | space.py:30 | a two-digit field reads back as its number |
| Fields.Format4Decimal | space.py:30 | a four-digit field reads back as its number |
| Fields.MonthIndex | space.py:30 | each month name is found at its own position |
| Fields.FormatDateLayout | space.py:30 | the formatted date has the layout `%a %b %d, %Y` |
| Fields.ParseFormatDate | space.py:30 | every valid date, formatted with any weekday, parses back to itself |
| Fields.DecimalFormat4 | space.py:30 | four digits re-format to themselves |
| Fields.ParsedDateIsFormatted | space.py:30 | every string that parses is the formatting of the date it parses to, so the parser accepts exactly the formatted strings |
| Keys.LessTrichotomy | space.py:98 | the key order groupby sorts by is a strict total order |
| Groups.AscendingIsDistinct | space.py:98 | key-sorted groups have distinct keys |
| Groups.TallySpec | space.py:98 | the tally is key-sorted, has the items' keys, and keeps every sum and the total of the items |
| Groups.RankSpec | space.py:208 | the descending sort is ranked, a permutation of its input, and keeps keys and sums |
| Groups.LeadersSpec | space.py:210 | `nlargest(n)` keeps min(n, groups) distinct keys from the totals, ranked, each outranking every dropped key |
| Groups.HeadsSpec | space.py:210 | summing per first key component gives each rocket's (or company's) total, over exactly the keys that occur |
| Groups.KeepSpec | space.py:211 | `isin` keeps exactly the rows whose first key component is kept, keeps the ranking order, and keeps the sums of kept keys |
| Groups.TopSpec | space.py:208-211 | the full top-N chain: ranked permutation, totals per key, leaders, and the shown rows with the per-status counts adding up to each leader's total |
| Missions.FirstUnparsed | space.py:30 | the row found is the first date that does not parse; no row means every date parses |
| Missions.DeriveAllSpec | space.py:25-30 | the derivation fails on the location split (always so for an empty table), on the detail split, or on the first unparsed date, exactly under those conditions; otherwise the table has rows and each row is derived from its raw row |
| Missions.UnparsedDateFails | space.py:30 | once both splits yield their columns, a row whose date does not parse, with every earlier date parsing, fails the whole derivation at that row |
| Missions.AssembleIsDerived | space.py:25-30 | columns derived cell by cell assemble into the whole-table derivation |
| Missions.MissionTable.RecordsAreDerived | space.py:25-30 | a fully derived table reads back as the derivation of its raw rows |
| Missions.MissionTable.Load | space.py:20-24 | the loaded table holds exactly the raw rows, with no derived column yet |
| Missions.MissionTable.AddDateAndTime | space.py:25-26 | the `Date` and `Time` columns are the slices of every `Datum` |
| Missions.MissionTable.SplitLocation | space.py:27 | fails exactly when no location has ", " (so also on an empty table), leaving the columns unchanged; otherwise sets `LocationPart` and `Country` to the split of every location |
| Missions.MissionTable.SplitDetail | space.py:28 | fails exactly when no detail has '\|' (so also on an empty table), leaving the columns unchanged; otherwise sets `RocketName` and `Mission` to the split of every detail |
| Missions.MissionTable.AddYear | space.py:30 | fails on the first date that does not parse, leaving `Year` unchanged; otherwise `Year` is every parsed year |
| Missions.MissionTable.DeriveInPlace | space.py:25-30 | the error conditions in source order, and on success a fully derived table |
| Missions.Derive | space.py:24-30 | running the assignments in place gives exactly the whole-table derivation, error included |
| Dashboard.Countries | space.py:42-43 | the options are exactly the countries of the table, each once |
| Dashboard.SelectSpec | space.py:46-48 | the view holds exactly the rows whose country is selected, each as often as in the table |
| Dashboard.SelectAppend | space.py:46-48 | the filter works row by row and keeps the table's order |
| Dashboard.SelectAll | space.py:46-48 | a selection covering every row's country keeps the table |
| Dashboard.DefaultSelectionKeepsAll | space.py:40-48 | the default selection keeps every row |
| Dashboard.SelectEmpty | space.py:46-51 | the view is empty exactly when no row's country is selected |
| Dashboard.CountTwoStatuses | space.py:63-65 | two different statuses together count at most the rows |
| Dashboard.CountStatusAppend | space.py:63-65 | status counts add over concatenated tables |
| Dashboard.MetricsBounds | space.py:61-65 | total is the row count, and success + failure is at most the total |
| Dashboard.ItemsKeys | space.py:98 | the keys counted are exactly the keys of the rows |
| Dashboard.GroupCountSpec | space.py:98 | for every grouping: key-sorted groups, exactly the rows' keys, each count the number of that key's rows whose counted cell is present, and the counts adding up to all such rows |
| Dashboard.RowsAtPositive | space.py:124 | a key with a present counted cell has a positive count |
| Dashboard.RocketCountsPositive | space.py:171 | counting `RocketName`, every group's count is positive |
| Dashboard.MissingMissionCountsZero | space.py:153 | a group whose row has no `Mission` is still listed, with count 0 |
| Dashboard.MissionlessGroupListed | space.py:98 | counting `Mission`, a key that occurs but whose every row lacks a mission is listed with count 0 |
| Dashboard.TopTotals | space.py:210 | each total is the number of the key's rows with a mission |
| Dashboard.TopLeaders | space.py:210 | at most 15 distinct keys are kept, min(15, keys) of them, each with a total at least every dropped key's, the smaller key first on a tie |
| Dashboard.TopShown | space.py:211 | the chart shows exactly the (key, status) counts of the kept keys, in descending order, adding up to each kept key's total |
| Dashboard.RenderSpec | space.py:46-65 | the page stops exactly when no row is selected, and always for the empty selection; otherwise the metrics are those of the whole table |
| Dashboard.DefaultRender | space.py:40-248 | with the default selection the page stops exactly on an empty table, and otherwise every chart (metrics, year lines, map, both pies, both top-15 charts) is computed from the whole table |
| Dashboard.PageSpec | space.py:24-248 | for any selection: a derivation error is reported as it is; otherwise the page renders the derived table and stops exactly when no derived row's country is selected |
| Dashboard.DefaultPageSpec | space.py:24-65 | the opening page shows charts exactly when the file has rows and derives, reports a derivation error as it is, and counts every raw row in its total |

## Left out

- Streamlit page setup, CSS, images, the sidebar widget, metric display, expanders and download buttons (lines 9-15, 31-38, 57-58, 68-77, 189-204, 236-240): user-interface glue with no data logic. The selection widget becomes the `selection` parameter.
- The Plotly chart specifications, colour maps and layouts, including the x-axis range at line 100: library configuration.
- `pd.read_csv` and `@st.cache_data` (lines 19-22): file input and caching. The model starts from the rows already read, as a parameter.
- The CSV export (`to_csv(...).encode('utf-8')`) and the `print` calls (lines 62-66): output only.
- `df.iloc[:, 2:]` (line 29) and columns the pipeline never reads: the record types carry only the six raw columns the pipeline uses (`Company Name`, `Location`, `Datum`, `Detail`, `Status Rocket`, `Status Mission`) and the seven derived ones.
- Missing raw cells. `str(x)` turns a missing `Location` or `Detail` into the text `"nan"`, which the model does not distinguish from other text. Every raw column is modelled as present text.
- Fields.ParseDate: does not accept what `strptime` also accepts beyond the canonical 16-character shape (a one-digit day, other letter case, extra whitespace), nor pandas' nanosecond timestamp bounds. It also does not check that the weekday name is the true weekday, which `strptime` does not check either.
- Dashboard.TopLeaders, Groups.RankSpec: `sort_values` uses an unstable quicksort in pandas. The model ranks by count descending with the smaller key first on a tie, so it fixes one of the orders pandas may produce.
- Dashboard.GroupCountSpec: does not claim that every count is positive, because the code counts only present `Mission` cells and a group can have count 0 (`MissionlessGroupListed`).
- Dashboard.Countries: states which countries are offered and that each appears once, but not their first-appearance order, which only affects how the widget lists them.
