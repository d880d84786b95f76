# US–China trade data reconciliation, modelled in Dafny

This project models the data-collection core of the US–China trade analysis
script (`Alison_Huang_HW5.py`) and of its earlier version
(`old/Alison_Huang_HW4.py`). The core does five things:

1. It compiles the monthly UN Comtrade CSV files into one table with one row
   per `RefPeriodId`, holding the summed `ExportValue` and `ImportValue`.
2. It computes month-over-month percentage changes. A left-to-right loop then
   zeroes every change up to the last infinite one.
3. It builds the CurrencyBeacon request for each month and reads the CNY rate.
   A probe request decides whether the API is usable. It also computes the
   rate's own change column.
4. It builds a New York Times search URL for each month and reads the article
   count from the search-status text.
5. It merges the three tables with two inner joins on the period key and
   converts the key to a date. In scrape mode, only the last six months are
   kept, and the first of them serves only as the change baseline.

## How the model is organised

- `Wrappers` holds `Option`, the Python exceptions the core can raise as
  `Result` failures, and `ApplyEach`. `ApplyEach` models `Series.apply`: it
  stops at the first exception.
- `Text` models the Python string operations the core relies on: slicing with
  clamped bounds, `str(n)`, `int(s)`, `split(':')[0]`, the first match of
  `\d+`, and ASCII `lower()`.
- `Calendar` models `calendar.monthrange` and `pd.to_datetime(format='%Y%m%d')`.
- `Numeric` models `round(x, 3)` (round half to even on exact reals) and the
  percentage change under IEEE rules. The rules are that x/0 is ±inf, 0/0 is
  NaN, and NaN propagates.
- `Compile` models `compile_data`. The directory listing and the CSV reader
  are parameters.
- `TradeChange` models `calculate_export_import_change`. The zeroing loop is a
  method on an `array`, and the whole function is a method that allocates the
  two change columns.
- `ExchangeRate` models `get_request_params`, the answer handling of
  `api_call`, and `get_exchange_rate`.
- `News` models `get_news_from` and `get_news`.
- `Merge` models `merge_df`.
- `Pipeline` models `default_function`, `scrape_function` and the data
  collection of `evaluation_metrics`, each up to the merge.
- `Legacy` models where the earlier script differs:
  - the API key;
  - `symbol="CNY"` as a default;
  - an `api_call` that always reads the CNY rate;
  - a query fixed to China;
  - article counts kept as digit strings.

Missing cells are `None`. This covers both pandas NaN and a failed rate
request. A change is `Fin(x)`, `PosInf`, `NegInf` or `NaN`.

The outside world is passed in as parameters:
- the directory listing and `pd.read_csv`, as `listing` and `readCsv`;
- the HTTP round trip to the rate API, as `respond`, which either fails or
  yields the `response.rates` object;
- the page fetch and BeautifulSoup lookup, as `scrape`, which yields the
  status paragraph's text or `None`;
- the saved `exchange_rates.csv`, as `backup`.

A first-month value of 0 gives 0/0 = NaN, and the zeroing loop leaves that
NaN in place (`TradeChange.FirstRowChange`, `TradeChange.ZeroFirstMonthStaysNaN`).
The same holds for a first-month exchange rate of 0 (`ExchangeRate.RateChangeRows`).

## Model

| member | source | states |
|---|---|---|
| Wrappers.ApplyEach | Alison_Huang_HW5.py:122 | Applying a call to each key in order either yields one result per key, each equal to the call's value on that key, or fails with the error of the first key whose call raises. Every earlier key succeeded. |
| Text.NatToDigits | Alison_Huang_HW5.py:140 | `str(n)` of a natural number is a non-empty digit string with no leading zero. |
| Text.NatToDigitsValue | Alison_Huang_HW5.py:140 | Reading back the digits of `str(n)` gives `n`. |
| Text.IntToStringRoundTrip | Alison_Huang_HW5.py:122 | `int(str(n)) == n` for every integer, negative ones included. |
| Text.NatToDigitsTwoDigits | Alison_Huang_HW5.py:140 | A number from 10 to 99 prints as exactly its tens digit and its units digit. |
| Text.ParseInt | Alison_Huang_HW5.py:139 | `int(s)` succeeds exactly on a digit string, optionally after one `+` or `-`. Its value is the digits' value, negated after `-`. Any failure is a ValueError. |
| Text.IntToString | Alison_Huang_HW5.py:122 | `str(n)` of a non-negative number is a digit string worth `n`. For a negative number it is `-` followed by a digit string worth `-n`. |
| Text.Slice | Alison_Huang_HW5.py:100-101 | `s[lo:hi]` has at most `hi - lo` characters. It is the exact slice when `hi` is within the string, the suffix from `lo` when only `lo` is, and empty when `lo` is past the end. |
| Text.SliceFrom | Alison_Huang_HW5.py:102 | `s[lo:]` is the suffix from `lo`, or empty when `lo` is past the end. |
| Text.AsciiLower | Alison_Huang_HW5.py:142 | `lower()` keeps the length. Each upper-case letter becomes its lower-case letter, every other character is unchanged, and no upper-case letter remains. |
| Text.AsciiLowerIdempotent | Alison_Huang_HW5.py:142 | Lower-casing twice is lower-casing once. |
| Text.BeforeFirst | Alison_Huang_HW5.py:149 | `split(c)[0]` is a prefix of the string without `c`, and it ends exactly at the first `c` when there is one. |
| Text.BeforeFirstAppend | Alison_Huang_HW5.py:149 | A prefix containing no `c` is kept whole by `split(c)[0]`. |
| Text.FirstDigitIndex | Alison_Huang_HW5.py:147-149 | The search for `\d` stops at the first digit. Everything before it is a non-digit. |
| Text.LeadingDigits | Alison_Huang_HW5.py:147-149 | A `\d+` match extends over the longest run of digits at that point. |
| Text.FirstDigitRun | Alison_Huang_HW5.py:147-149 | `re.findall(r"\d+", s)[0]` exists exactly when `s` has a digit, and it is a non-empty digit string. |
| Text.FirstDigitRunIsFirstMaximalRun | Alison_Huang_HW5.py:147-149 | Any digit block with no digit before it and a non-digit (or the end) after it is the first match. |
| Calendar.DaysInMonth | Alison_Huang_HW5.py:139 | A month has 28 to 31 days. February has 29 exactly in Gregorian leap years. The 31-day months are exactly 1, 3, 5, 7, 8, 10 and 12. |
| Calendar.MonthRangeDays | Alison_Huang_HW5.py:139 | `monthrange(year, month)[1]` raises IllegalMonthError exactly for months outside 1..12. Otherwise it is the month's Gregorian day count, from 28 to 31. |
| Calendar.ParsePeriodKey | Alison_Huang_HW5.py:166 | A parsed key is a real calendar date with a four-digit year whose `YYYYMMDD` writing is the key, and it lies within the nanosecond timestamp range 1677-09-22 to 2262-04-11. Any failure is a ValueError. |
| Calendar.ParsePeriodKeyRoundTrip | Alison_Huang_HW5.py:166 | Every valid date within the timestamp range is parsed back from its key. |
| Numeric.RoundHalfEven | Alison_Huang_HW5.py:65 | Rounding to an integer moves the value by at most one half. |
| Numeric.Round3 | Alison_Huang_HW5.py:65 | `round(x, 3)` is within 0.0005 of `x`. |
| Numeric.Round3Exact | Alison_Huang_HW5.py:65 | A value with at most three decimals is unchanged by `round(x, 3)`. |
| Numeric.RoundCell | Alison_Huang_HW5.py:122 | Rounding keeps NaN as NaN, and otherwise moves the value by at most 0.0005. |
| Numeric.PercentChange | Alison_Huang_HW5.py:65-66 | `(cur - prev) / prev * 100` is infinite exactly when `prev` is 0 and `cur` is not. It is +inf exactly when `cur` is positive. It is NaN exactly for 0/0 or a missing operand. Otherwise it is finite, with a non-zero `prev`, and within 0.0005 of the exact quotient. |
| Numeric.PercentChangeAgainstItself | Alison_Huang_HW5.py:125-127 | A value compared with itself gives 0, except that 0 gives NaN. |
| Compile.JoinPath | Alison_Huang_HW5.py:25 | `os.path.join(folder, name)` is the folder, a `/` unless the folder is empty or already ends in `/`, and then the name. |
| Compile.Separator | Alison_Huang_HW5.py:25 | The separator is empty exactly when the folder is empty or ends in `/`, and is `/` otherwise. |
| Compile.CsvPaths | Alison_Huang_HW5.py:21-26 | The collected paths are at most as many as the listed names. |
| Compile.CsvPathsSound | Alison_Huang_HW5.py:23-26 | Every collected path joins the folder with a listed name that ends in `.csv`. |
| Compile.CsvPathsComplete | Alison_Huang_HW5.py:23-26 | Every listed name that ends in `.csv` is collected, joined to the folder. |
| Compile.CsvPathsMembers | Alison_Huang_HW5.py:23-26 | A path is collected exactly when some listed name ends in `.csv` and joins to that path. |
| Compile.CsvFileNames | Alison_Huang_HW5.py:21-26 | The append loop collects exactly the `.csv` paths, in listing order. |
| Compile.KeepColumns | Alison_Huang_HW5.py:30-31 | Keeping the three columns preserves the row count, and each record carries its row's period, flow and value. |
| Compile.Periods | Alison_Huang_HW5.py:122 | The `RefPeriodId` column lists each row's period, in row order. |
| Compile.ConsIncreasing | Alison_Huang_HW5.py:33 | A period smaller than the first keeps the list strictly increasing when put in front, and adds exactly that period. |
| Compile.InsertSorted | Alison_Huang_HW5.py:33 | Inserting a period keeps the periods strictly increasing, and adds exactly that period. |
| Compile.SortedPeriods | Alison_Huang_HW5.py:33-39 | The pivot index is strictly increasing and holds exactly the input's periods. |
| Compile.Pivot | Alison_Huang_HW5.py:35-48 | The pivoted rows have strictly increasing periods, exactly those of the records. |
| Compile.CompileData | Alison_Huang_HW5.py:18-52 | `compile_data` fails with "No objects to concatenate" exactly when no `.csv` file is listed. Otherwise it is the pivot of all rows read. |
| Compile.CompiledTableShape | Alison_Huang_HW5.py:33-48 | The table has one row per distinct input period, in strictly ascending order. Each cell is the sum of `PrimaryValue` over that period's rows with that flow, or NaN when there are none. A flow column exists exactly when some row has that flow. |
| Compile.CompiledRows | Alison_Huang_HW5.py:33-48 | The rows of the compiled table are one per distinct input period, in strictly ascending order, each cell the sum of that period's values with that flow, or NaN when there are none. |
| Compile.CompiledFlowColumns | Alison_Huang_HW5.py:30-48 | A flow column of the pivot exists exactly when some input row has that flow. |
| Compile.FlowSumAppend | Alison_Huang_HW5.py:28 | A group's sum over concatenated files is the sum of the per-file sums. |
| Compile.RemoveAt | Alison_Huang_HW5.py:33 | Removing a matched element from two permuted sequences leaves permuted sequences. |
| Compile.FlowSumPermutation | Alison_Huang_HW5.py:33-39 | A group's sum does not depend on the row order. |
| Compile.IncreasingDeterminedByElements | Alison_Huang_HW5.py:33 | Two strictly increasing period lists with the same periods are equal. |
| Compile.CompileIgnoresRowOrder | Alison_Huang_HW5.py:23-39 | The compiled table does not depend on the order of the input rows, and so not on the order in which the directory lists the files. |
| Compile.KeepColumnsAppend | Alison_Huang_HW5.py:28-31 | Dropping columns commutes with concatenation. |
| Compile.KeepColumnsPermutation | Alison_Huang_HW5.py:30-33 | Reordering the rows reorders the kept records the same way. |
| Compile.CompileIgnoresOtherColumns | Alison_Huang_HW5.py:30-48 | Inputs that agree on period, flow and value give the same table. |
| TradeChange.ExportValues | Alison_Huang_HW5.py:60 | The export column has each row's export value, in row order. |
| TradeChange.ImportValues | Alison_Huang_HW5.py:61 | The import column has each row's import value, in row order. |
| TradeChange.RawTradeChanges | Alison_Huang_HW5.py:58-66 | The formula keeps one change per row. |
| TradeChange.LastInfinite | Alison_Huang_HW5.py:68-74 | The position found holds an infinity and nothing after it is infinite, or it is -1 when no entry is infinite. |
| TradeChange.Zeros | Alison_Huang_HW5.py:70 | `df.loc[0:i] = [0]` writes zeros. |
| TradeChange.ZeroedThroughLastInfinite | Alison_Huang_HW5.py:68-74 | After the loop no entry is infinite. Entries up to the last infinite one are 0, and later entries are unchanged. |
| TradeChange.ZeroThroughLastInfinite | Alison_Huang_HW5.py:68-70 | The in-place loop over a change column leaves exactly what `ZeroedThroughLastInfinite` describes. |
| TradeChange.ColumnChanges | Alison_Huang_HW5.py:58-74 | A returned change column has one entry per row, and none of them is infinite. |
| TradeChange.WithChanges | Alison_Huang_HW5.py:65-66 | Attaching the change columns keeps the row count. |
| TradeChange.ChangeTable | Alison_Huang_HW5.py:55-80 | An empty table raises IndexError. Otherwise a missing Export column raises KeyError("ExportValue"), and then a missing Import column raises KeyError("ImportValue"). Nothing else fails, and the result keeps the row count. |
| TradeChange.CalculateExportImportChange | Alison_Huang_HW5.py:55-80 | The method, which fills and zeroes two column arrays, returns `ChangeTable` of its input. |
| TradeChange.ColumnChangeAt | old/Alison_Huang_HW4.py:65-81 | Entry i is 0 up to the last infinite raw change, and the raw change after it. The raw change is the formula against the previous value, with 0 as row 0's previous value. |
| TradeChange.ChangeTableRows | Alison_Huang_HW5.py:58-66 | Every row keeps its period and values and carries its column changes. |
| TradeChange.FirstRowChange | Alison_Huang_HW5.py:62-74 | Row 0's change is 0 when its value is non-zero. It is NaN when its value is 0 or missing, unless a later infinity zeroes it. |
| TradeChange.InfinityZeroesPrefix | Alison_Huang_HW5.py:68-74 | A zero followed by a non-zero value zeroes every change up to that row. |
| TradeChange.LaterChangesUntouched | Alison_Huang_HW5.py:65-74 | When no raw change from row i on is infinite, row i keeps the formula's value against row i-1. |
| TradeChange.TwoMonthExample | Alison_Huang_HW5.py:60-74 | Exports 100 then 150 with imports 50 then 50 give export changes 0 and 50 and import changes 0 and 0. |
| TradeChange.ZeroFirstMonthStaysNaN | old/Alison_Huang_HW4.py:69-81 | A lone month with value 0 keeps a NaN change, because 0/0 is not infinite. |
| ExchangeRate.ApiDate | Alison_Huang_HW5.py:100-103 | An 8-character period becomes `YYYY-MM-DD` from its slices. |
| ExchangeRate.WithoutDashes | Alison_Huang_HW5.py:103 | The dash-free form contains no dash. |
| ExchangeRate.WithoutDashesAppend | Alison_Huang_HW5.py:103 | Removing dashes distributes over concatenation. |
| ExchangeRate.WithoutDashesIdentity | Alison_Huang_HW5.py:103 | A string without dashes is unchanged by removing them. |
| ExchangeRate.ApiDateRoundTrip | Alison_Huang_HW5.py:99-103 | Removing the two dashes from the request date gives back the period string. |
| ExchangeRate.ApiDateOfEightCharacters | Alison_Huang_HW5.py:99-103 | An 8-character period gives a 10-character date with dashes at 4 and 7, around the year, month and day. |
| ExchangeRate.GetRequestParams | Alison_Huang_HW5.py:99-112 | The URL is the historical endpoint, the key is the empty placeholder, the base is always USD and the symbol is passed through. The date is `ApiDate(tp)`, the `YYYY-MM-DD` form of the period, and it round-trips to the period. |
| ExchangeRate.ReadRate | Alison_Huang_HW5.py:86-97 | A failed request gives None, and nothing else does. KeyError(symbol) is raised exactly when the answer lacks the symbol. Otherwise the result is the symbol's rate. |
| ExchangeRate.ApiCall | Alison_Huang_HW5.py:83-97 | For the request `get_request_params` builds, a failed request gives None, and nothing else does. KeyError(symbol) is raised exactly when the answer lacks the symbol. Otherwise the result is the symbol's rate. |
| ExchangeRate.FetchRates | Alison_Huang_HW5.py:122 | The per-period calls yield one rate per period, or the error of the first period whose call raises. |
| ExchangeRate.RateChanges | Alison_Huang_HW5.py:124-127 | The change column has one entry per rate. Entry i is the change of rate i against rate i-1, and entry 0 is against rate 0 itself. |
| ExchangeRate.RateTable | Alison_Huang_HW5.py:122-129 | The rate table has one row per period. Row i carries period i, the rounded fetched rate, and the change of that rate against row i-1's rate, or row 0's own rate for row 0. |
| ExchangeRate.GetExchangeRateWith | Alison_Huang_HW5.py:115-131 | An empty frame raises IndexError. The result is None exactly when the probe call returns None. It fails exactly on an empty frame, a raising probe, or a raising per-period call after a successful probe, with that error. A table has one row per period, holding the rounded rate of that period's call. |
| ExchangeRate.GetExchangeRate | Alison_Huang_HW5.py:115-131 | `get_exchange_rate(df, symbol)` raises IndexError on an empty frame, and otherwise only KeyError(symbol). It is None exactly when the probe request fails. A table holds, for each period, the rounded rate `api_call` returns for that period and symbol. |
| ExchangeRate.SymbolCallErrors | Alison_Huang_HW5.py:115-131 | The rate table for one symbol fails only with IndexError or KeyError for that symbol. |
| ExchangeRate.RateTableRow | Alison_Huang_HW5.py:122-127 | Row i holds the rounded rate of its fetch. Its change is against row i-1's rate, or row 0's own rate for row 0. |
| ExchangeRate.RateChangeRows | Alison_Huang_HW5.py:124-127 | Row i's change is taken against row i-1's rate, and row 0's against its own rate. Row 0 is therefore 0 for a non-zero rate and NaN for a zero rate. |
| ExchangeRate.RateChangeKeepsInfinity | Alison_Huang_HW5.py:127 | Unlike the trade changes, rate changes keep their infinities: rates 0 then 2 give NaN then +inf. |
| News.EndDate | Alison_Huang_HW5.py:135-140 | The end date fails only with ValueError or IllegalMonthError. On success it ends in a two-digit day from 28 to 31. |
| News.NewsQuery | Alison_Huang_HW5.py:142 | The query is `us%20`, the lower-cased country, then `%20trade`, 13 characters longer than the country. |
| News.NewsUrl | Alison_Huang_HW5.py:137-142 | The URL is the search prefix, the end date, `&query=` with the country's query, `&sort=best&startDate=`, and the period string as the start date. The lower-cased country sits right after `&query=us%20`. |
| News.ReadCount | Alison_Huang_HW5.py:147-149 | The count fails with IndexError exactly when no digit precedes the first colon. Otherwise it is a non-empty digit string. |
| News.GetNewsFromWith | Alison_Huang_HW5.py:134-151 | An end-date error propagates. A page without the status paragraph raises AttributeError. Otherwise the result is the count read from the status text. |
| News.ArticleCount | Alison_Huang_HW5.py:155-156 | `to_numeric` of a period's count is the value of its digits, and a failure is the scrape's failure. |
| News.GetNews | Alison_Huang_HW5.py:154-158 | One row per period, in order, carrying that period's article count. Otherwise the error is that of the first period whose search failed, and every earlier period succeeded. |
| News.EndDateOfPeriod | old/Alison_Huang_HW4.py:142-147 | For an 8-digit period, the end date fails exactly when the month is outside 1..12, with IllegalMonthError. Otherwise it is the year and month followed by the month's last valid day. |
| News.CountStopsAtSeparator | old/Alison_Huang_HW4.py:154-156 | A thousands separator cuts the count: the digits before the comma are the count. |
| News.CountMissing | old/Alison_Huang_HW4.py:154-156 | A status with no digit before its first colon raises IndexError, whatever follows. |
| News.ChinaQuery | Alison_Huang_HW5.py:142 | The query for China is `us%20china%20trade`. |
| Merge.Matching | Alison_Huang_HW5.py:163 | The matching right rows are exactly those whose key is the given one. |
| Merge.InnerJoin | Alison_Huang_HW5.py:163-164 | A pair is in the inner join exactly when its left row and right row come from the inputs and share the key. |
| Merge.KeysOf | Alison_Huang_HW5.py:163 | The key set holds exactly the keys of the table's rows. |
| Merge.KeepKeyed | Alison_Huang_HW5.py:163 | Filtering by key never adds rows. |
| Merge.Firsts | Alison_Huang_HW5.py:163 | Projecting the joined pairs keeps one left row per pair. |
| Merge.Combine | Alison_Huang_HW5.py:166 | Converting a row succeeds exactly when its period key parses, and fails with the parse's ValueError. A converted row carries a valid date with a four-digit year whose key is the row's period. |
| Merge.CombineOutcome | Alison_Huang_HW5.py:166 | Converting all joined rows succeeds exactly when every period parses. Otherwise it fails with the error of the first period that does not. |
| Merge.MergeDf | Alison_Huang_HW5.py:161-168 | The merge succeeds exactly when every joined period key parses. Otherwise it fails with the ValueError of the first key that does not. Every merged row comes from one trade, one rate and one news row with the same period, and carries their columns and the date of that period. |
| Merge.JoinedRowsFromInputs | Alison_Huang_HW5.py:163-164 | Each joined row is made of one row of each table, all with the same period. |
| Merge.JoinKeepsLeftOrder | Alison_Huang_HW5.py:163 | With unique keys on the right, the join's left rows are the left rows whose key the right table has, in left order. |
| Merge.MatchingKeys | Alison_Huang_HW5.py:163 | A key with a match is a key of the table. |
| Merge.MatchingUnique | Alison_Huang_HW5.py:163 | A key matches at most one row of a table with unique keys. |
| Merge.KeepKeyedAddKey | Alison_Huang_HW5.py:163 | Filtering by one more key adds exactly the rows with that key. |
| Merge.KeepKeyedNone | Alison_Huang_HW5.py:163 | Filtering by no key keeps nothing. |
| Merge.JoinCountsRight | Alison_Huang_HW5.py:163 | With unique left keys, the join has exactly one row per right row whose key the left table has. |
| Merge.JoinAtMostRight | Alison_Huang_HW5.py:163 | With unique left keys, the join has at most as many rows as the right table. |
| Merge.JoinAtMostLeft | Alison_Huang_HW5.py:163-164 | With unique right keys, the join has at most as many rows as the left table. |
| Merge.MergedPeriods | Alison_Huang_HW5.py:161-164 | With unique rate and news keys, the merged rows are the trade rows whose period also occurs in the rates and the news, in trade order. |
| Merge.KeepKeyedFirsts | Alison_Huang_HW5.py:164 | Filtering joined pairs by trade key filters their trade rows the same way. |
| Merge.MergedDatesRoundTrip | Alison_Huang_HW5.py:166 | Each merged date is the year, month and day of the period key it was joined on. |
| Pipeline.Tail | Alison_Huang_HW5.py:386-402 | `tail(n)` is the last min(n, length) rows. |
| Pipeline.Window | Alison_Huang_HW5.py:386-387 | The scrape window is the last min(6, n) rows of the table, and it keeps the flow columns. |
| Pipeline.ScrapeRates | Alison_Huang_HW5.py:398-405 | The rate step of scrape mode raises IndexError on an empty window. |
| Pipeline.ScrapeCore | Alison_Huang_HW5.py:386-414 | Every month reported by scrape mode is one of the window's months after the first. |
| Pipeline.MergedWithinWindow | Alison_Huang_HW5.py:386-414 | Every month merged from the window's changes without their first row is one of the window's months after the first. |
| Pipeline.RunScrape | Alison_Huang_HW5.py:386-414 | Running the scrape steps one after the other gives `ScrapeCore`. |
| Pipeline.ScrapeMode | Alison_Huang_HW5.py:383-418 | Scrape mode is the compile step followed by the scrape core, and a compile failure ends it. |
| Pipeline.DefaultCore | Alison_Huang_HW5.py:333-356 | Every month reported by default mode is a compiled month. |
| Pipeline.MergedWithinTable | Alison_Huang_HW5.py:333-356 | Every month merged from a table's changes is one of that table's months. |
| Pipeline.RunDefault | Alison_Huang_HW5.py:333-356 | Running the default steps one after the other gives `DefaultCore`. |
| Pipeline.DefaultMode | Alison_Huang_HW5.py:330-356 | Default mode is the compile step followed by the default core, and a compile failure ends it. |
| Pipeline.EvaluationFrom | Alison_Huang_HW5.py:262-287 | The Mexico sample, read with the MXN rate, the Mexico news search and the whole saved MXN table as the fallback, reports only compiled months. |
| Pipeline.EvaluationMode | Alison_Huang_HW5.py:258-287 | `evaluation_metrics` is the compile step followed by the default steps for MXN and Mexico, and a compile failure ends it. |
| Pipeline.ScrapeRatesFetched | Alison_Huang_HW5.py:404 | With a working API, scrape mode uses the fetched rates without the first month. Their changes are taken against the month before, so the first reported change has a real predecessor. |
| Pipeline.ScrapeRatesFallback | old/Alison_Huang_HW4.py:226-231 | When the probe fails, the rates are the last five saved rows, so there are at most five. |
| Pipeline.KeepKeyedAll | Alison_Huang_HW5.py:163 | A filter that keeps every key changes nothing. |
| Pipeline.MergeOfAlignedTables | Alison_Huang_HW5.py:163-164 | Three tables with the same strictly increasing periods merge to the trade rows, in order. |
| Pipeline.DefaultKeepsEveryMonth | Alison_Huang_HW5.py:333-356 | With a working API and increasing periods, default mode reports every compiled month, in order. |
| Pipeline.WindowIncreasing | Alison_Huang_HW5.py:386 | The window's periods are still strictly increasing. |
| Pipeline.MergeAtMostTrade | old/Alison_Huang_HW4.py:167-170 | With unique rate and news keys, the merge has at most one row per trade row. |
| Pipeline.ScrapeRatesUnique | Alison_Huang_HW5.py:398-405 | The rate table scrape mode uses has unique periods when the saved table does. |
| Pipeline.ReportedUnique | Alison_Huang_HW5.py:386-414 | The trade rows scrape mode reports, all but the window's first, have distinct periods. |
| Pipeline.ScrapeRatesAtMostFive | Alison_Huang_HW5.py:398-405 | The rate table of scrape mode has at most five rows: the fetched rates of six months without the first, or the last five saved rows. |
| Pipeline.MergeAtMostRates | Alison_Huang_HW5.py:161-164 | With distinct trade periods and one news row per period, the merge has at most one row per rate row, even when rate periods repeat. |
| Pipeline.NewsUnique | Alison_Huang_HW5.py:154-155 | The news rows carry the distinct periods they were asked for. |
| Pipeline.ScrapeAtMostFive | old/Alison_Huang_HW4.py:213-241 | Scrape mode reports at most five months, whatever periods the saved rate table holds. |
| Legacy.GetRequestParamsV4 | old/Alison_Huang_HW4.py:106-119 | The earlier request uses the placeholder key, base USD and the given symbol, which defaults to CNY. Its date is `ApiDate(tp)`, the `YYYY-MM-DD` form of the period, and it round-trips to the period. |
| Legacy.ApiCallV4 | old/Alison_Huang_HW4.py:90-104 | The earlier call always reads CNY. A failed request gives None, and nothing else does. KeyError("CNY") is raised exactly when the answer lacks CNY. Otherwise the result is the CNY rate. |
| Legacy.GetExchangeRateV4 | old/Alison_Huang_HW4.py:122-138 | The earlier rate table raises IndexError on an empty frame and otherwise only KeyError("CNY"). It is None exactly when the probe request fails. A table holds each period's rounded CNY rate. |
| Legacy.RateCallV4Errors | old/Alison_Huang_HW4.py:122-138 | The earlier rate table fails only with IndexError or KeyError("CNY"). |
| Legacy.ApiCallV4MatchesCurrent | old/Alison_Huang_HW4.py:90-104 | Where the server answers the earlier request as it answers the current one for CNY, the earlier call equals the current call for CNY. |
| Legacy.GetNewsFromV4 | old/Alison_Huang_HW4.py:141-158 | The earlier count is a non-empty digit string. |
| Legacy.GetNewsV4 | old/Alison_Huang_HW4.py:161-164 | The earlier news table has one row per period, in order, each holding a non-empty digit string, with no numeric conversion. Otherwise the error is that of the first period whose search failed, and every earlier period succeeded. |
| Legacy.ScrapeModeV4 | old/Alison_Huang_HW4.py:210-241 | Earlier scrape mode is the compile step followed by the scrape core, with the CNY-reading call. |
| Legacy.DefaultModeV4 | old/Alison_Huang_HW4.py:176-201 | Earlier default mode is the compile step followed by the default core, with the CNY-reading call. |
| Legacy.RequestDiffersOnlyInKey | old/Alison_Huang_HW4.py:102-119 | The earlier request differs from the current one only in its API key. |
| Legacy.NewsFromMatchesCurrent | old/Alison_Huang_HW4.py:149 | The earlier fixed query equals the current query for China, so the earlier count is the current one. |
| Legacy.NewsCountsMatchCurrent | old/Alison_Huang_HW4.py:161-162 | The earlier digit-string counts succeed exactly when the current numeric ones do, and their values are the current counts. |

## Left out

- The HTTP requests of `api_call` and `get_news_from` and the BeautifulSoup lookup are not modelled. They are parameters, so time-outs, status codes and page contents are not modelled.
- `os.listdir`, `pd.read_csv` and every `to_csv`, including `old/Alison_Huang_HW4.py:55`, are not modelled. The listing and the rows read are parameters. A malformed CSV file and its parser errors are not modelled.
- `regression_analysis`, `pearsons_correl`, `analyze_data`, `line_graph` and `histogram_distribution` are not modelled. They compute correlations, fit regressions and draw plots with statsmodels, scipy, matplotlib and seaborn. `evaluation_metrics` is modelled up to its merge (`Pipeline.EvaluationMode`); its closing `regression_analysis` call is not.
- `static_function` is not modelled. It reads a finished CSV file, prints column means and calls `analyze_data` and `regression_analysis`.
- The descriptive statistics, the `print` output and the argument dispatch are not modelled.
- IEEE floating point is not modelled. Values are exact reals, so overflow, signed zero and the order-dependence of float sums are not modelled. `round` is round half to even on the exact value.
- `ExchangeRate.ApiCall`: an answered request is assumed to carry a JSON body with a `response.rates` object. The other errors of `result['response']['rates'][symbol]` are not modelled: KeyError('response') or KeyError('rates'), TypeError when `response` is not an object, and the decode error of `response.json()`.
- `ExchangeRate.GetExchangeRate`: its promise of only IndexError or KeyError(symbol) holds under the `ApiCall` assumption about the answer body.
- `Legacy.ApiCallV4`: the same assumption about the answer body as `ExchangeRate.ApiCall`, with CNY as the key read.
- `Legacy.GetExchangeRateV4`: its promise of only IndexError or KeyError("CNY") holds under that assumption.
- `ExchangeRate.FetchRates`: a failed per-period request (`None`) becomes a missing cell. A non-numeric rate in the answer is not modelled.
- `Compile.CompileData`: the `strip()` of the column names is not modelled. Flow labels are taken as exactly `Export` and `Import`, and other flow columns are dropped. The model covers only the two columns the rest of the script reads.
- `Text.AsciiLower`: `str.lower()` is modelled on ASCII letters only. Non-ASCII letters and the multi-character lower-casings of Unicode are not modelled.
- `Text.ParseInt`: `int()` accepts an optional sign and ASCII digits only. Surrounding whitespace, underscores and non-ASCII digits are not modelled. `\d` and `lower()` are treated as ASCII.
- `Calendar.ParsePeriodKey`: only keys of eight digits with a four-digit year are parsed. Other keys raise ValueError, so `to_datetime`'s other accepted forms are not modelled. Dates outside pandas' nanosecond range (1677-09-22 to 2262-04-11) raise ValueError, as `OutOfBoundsDatetime` does.
- The columns that `calculate_export_import_change`, `get_exchange_rate` and `get_news` add to the frame they are given are not modelled. `default_function` and `evaluation_metrics` pass their compiled frame itself to `calculate_export_import_change` (Alison_Huang_HW5.py:262-263 and 333). Afterwards they read only its `RefPeriodId` column, which the call does not change, so the results are modelled as new values.
- The pandas index is not modelled. It is taken as a 0-based RangeIndex, which `reset_index` and `copy` give both callers.
