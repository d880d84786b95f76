/** The two collection modes of the script: the default mode, which works on
    every compiled month, and the scrape mode, which works on the five most
    recent months. Each mode computes the trade changes, fetches the exchange
    rates (or falls back to a saved rate table), counts the news articles and
    merges the three tables. The evaluation step runs the default mode's
    steps on a second sample, for MXN and Mexico. */
module Pipeline {
  import opened Wrappers
  import opened Numeric
  import opened Calendar
  import opened Compile
  import opened TradeChange
  import opened ExchangeRate
  import opened News
  import opened Merge

  const Symbol := "CNY"
  const Country := "China"
  /** The symbol and country of the second sample `evaluation_metrics` collects. */
  const EvaluationSymbol := "MXN"
  const EvaluationCountry := "Mexico"
  /** `data.tail(n=5+1)`: five reported months and the month before them. */
  const WindowSize := 6
  /** `df_exchange_rate.tail(n=5)` of the saved rate table. */
  const BackupRows := 5

  /** `DataFrame.tail(n)`. */
  function Tail<T>(s: seq<T>, n: nat): (t: seq<T>)
    ensures |t| == if |s| <= n then |s| else n
    ensures t == s[|s| - |t|..]
  {
    if |s| <= n then s else s[|s| - n..]
  }

  /** The trade table cut down to its last min(6, n) months (`reset_index` renumbers
      the rows from 0, which the model's positions already do). */
  function Window(data: TradeTable): (w: TradeTable)
    ensures |w.rows| <= WindowSize
    ensures w.rows == Tail(data.rows, WindowSize)
    ensures w.hasExport == data.hasExport && w.hasImport == data.hasImport
  {
    TradeTable(Tail(data.rows, WindowSize), data.hasExport, data.hasImport)
  }

  // ---------------------------------------------------------------- scrape mode

  /** The rate table scrape mode merges: the fetched rates without the window's
      first month, or, when the probe call fails, the last five saved rows. */
  function ScrapeRates(periods: seq<int>, rateCall: string -> Result<Option<real>>, backup: seq<RateRow>): (r: Result<seq<RateRow>>)
    ensures |periods| == 0 ==> r == Failure(IndexError)
  {
    var fetched :- GetExchangeRateWith(periods, rateCall);
    if fetched.None? then Success(Tail(backup, BackupRows)) else Success(fetched.value[1..])
  }

  /** `scrape_function` after `compile_data`, with the rate call and the news
      fetch as parameters: every reported month is one of the window's last
      five, so the first month, whose changes have no real predecessor, is
      never reported. */
  function ScrapeCore<A(!new)>(
    data: TradeTable,
    rateCall: string -> Result<Option<real>>,
    fetchNews: seq<int> -> Result<seq<NewsRow<A>>>,
    backup: seq<RateRow>): (r: Result<seq<MergedRow<A>>>)
    ensures r.Success? ==> |data.rows| > 0 && forall i :: 0 <= i < |r.value| ==>
      DateKey(r.value[i].refPeriod) in Periods(Window(data).rows)[1..]
  {
    var window := Window(data);
    var trade :- ChangeTable(window);
    var periods := Periods(window.rows);
    var rates :- ScrapeRates(periods, rateCall, backup);
    var news :- fetchNews(periods[1..]);
    var merged :- MergeDf(trade[1..], rates, news);
    MergedWithinWindow(window, trade, rates, news, merged);
    Success(merged)
  }

  /** Every merged month is one of the window's months after the first. */
  lemma MergedWithinWindow<A(!new)>(window: TradeTable, trade: seq<ChangeRow>, rates: seq<RateRow>, news: seq<NewsRow<A>>, merged: seq<MergedRow<A>>)
    requires ChangeTable(window) == Success(trade)
    requires MergeDf(trade[1..], rates, news) == Success(merged)
    ensures forall i :: 0 <= i < |merged| ==> DateKey(merged[i].refPeriod) in Periods(window.rows)[1..]
  {
    var periods := Periods(window.rows);
    forall i | 0 <= i < |merged| ensures DateKey(merged[i].refPeriod) in periods[1..] {
      var p := Joined(trade[1..], rates, news)[i];
      var k :| 0 <= k < |trade[1..]| && trade[1..][k] == p.0.0;
      ChangeTableRows(window, k + 1);
      assert periods[1..][k] == periods[k + 1];
    }
  }

  /** The steps of `scrape_function` after `compile_data`, one after the other. */
  method RunScrape<A(!new)>(
    data: TradeTable,
    rateCall: string -> Result<Option<real>>,
    fetchNews: seq<int> -> Result<seq<NewsRow<A>>>,
    backup: seq<RateRow>) returns (r: Result<seq<MergedRow<A>>>)
    ensures r == ScrapeCore(data, rateCall, fetchNews, backup)
  {
    var window := Window(data);
    var trade :- CalculateExportImportChange(window);
    var periods := Periods(window.rows);
    var rates :- ScrapeRates(periods, rateCall, backup);
    var news :- fetchNews(periods[1..]);
    r := MergeDf(trade[1..], rates, news);
  }

  /** `api_call(time_period, "CNY")` of the current script, as the pipeline applies it. */
  function RateCall(respond: Request -> ApiResponse): string -> Result<Option<real>>
  {
    SymbolCall(respond, Symbol)
  }

  /** `get_news(df, "China")` of the current script, as the pipeline applies it. */
  function NewsFetch(scrape: string -> Option<string>): seq<int> -> Result<seq<NewsRow<nat>>>
  {
    ps => GetNews(ps, Country, scrape)
  }

  /** `scrape_function` of the current script after `compile_data`. */
  function ScrapeFrom(data: TradeTable, respond: Request -> ApiResponse, scrape: string -> Option<string>, backup: seq<RateRow>): Result<seq<MergedRow<nat>>>
  {
    ScrapeCore(data, RateCall(respond), NewsFetch(scrape), backup)
  }

  /** `scrape_function()`, with the folder listing, the CSV reader, the rate API,
      the news search and the saved rate table as parameters. */
  method ScrapeMode(
    folder: string, listing: seq<string>, readCsv: string -> seq<CsvRow>,
    respond: Request -> ApiResponse, scrape: string -> Option<string>, backup: seq<RateRow>)
    returns (r: Result<seq<MergedRow<nat>>>)
    ensures CompiledData(folder, listing, readCsv).Failure? ==> r == Failure(CompiledData(folder, listing, readCsv).error)
    ensures CompiledData(folder, listing, readCsv).Success? ==> r == ScrapeFrom(CompiledData(folder, listing, readCsv).value, respond, scrape, backup)
  {
    var data :- CompileData(folder, listing, readCsv);
    r := RunScrape(data, RateCall(respond), NewsFetch(scrape), backup);
  }

  // ---------------------------------------------------------------- default mode

  /** `default_function` after `compile_data`, up to the merge: every month of
      the compiled table, the fetched rates or the whole saved table. */
  function DefaultCore<A(!new)>(
    data: TradeTable,
    rateCall: string -> Result<Option<real>>,
    fetchNews: seq<int> -> Result<seq<NewsRow<A>>>,
    backup: seq<RateRow>): (r: Result<seq<MergedRow<A>>>)
    ensures r.Success? ==> forall i :: 0 <= i < |r.value| ==> DateKey(r.value[i].refPeriod) in Periods(data.rows)
  {
    var trade :- ChangeTable(data);
    var periods := Periods(data.rows);
    var fetched :- GetExchangeRateWith(periods, rateCall);
    var rates := if fetched.None? then backup else fetched.value;
    var news :- fetchNews(periods);
    var merged :- MergeDf(trade, rates, news);
    MergedWithinTable(data, trade, rates, news, merged);
    Success(merged)
  }

  /** Every merged month is one of the table's months. */
  lemma MergedWithinTable<A(!new)>(data: TradeTable, trade: seq<ChangeRow>, rates: seq<RateRow>, news: seq<NewsRow<A>>, merged: seq<MergedRow<A>>)
    requires ChangeTable(data) == Success(trade)
    requires MergeDf(trade, rates, news) == Success(merged)
    ensures forall i :: 0 <= i < |merged| ==> DateKey(merged[i].refPeriod) in Periods(data.rows)
  {
    forall i | 0 <= i < |merged| ensures DateKey(merged[i].refPeriod) in Periods(data.rows) {
      var p := Joined(trade, rates, news)[i];
      var k :| 0 <= k < |trade| && trade[k] == p.0.0;
      ChangeTableRows(data, k);
    }
  }

  /** The steps of `default_function` after `compile_data`, one after the other. */
  method RunDefault<A(!new)>(
    data: TradeTable,
    rateCall: string -> Result<Option<real>>,
    fetchNews: seq<int> -> Result<seq<NewsRow<A>>>,
    backup: seq<RateRow>) returns (r: Result<seq<MergedRow<A>>>)
    ensures r == DefaultCore(data, rateCall, fetchNews, backup)
  {
    var trade :- CalculateExportImportChange(data);
    var periods := Periods(data.rows);
    var fetched :- GetExchangeRateWith(periods, rateCall);
    var rates := if fetched.None? then backup else fetched.value;
    var news :- fetchNews(periods);
    r := MergeDf(trade, rates, news);
  }

  /** `default_function` of the current script after `compile_data`. */
  function DefaultFrom(data: TradeTable, respond: Request -> ApiResponse, scrape: string -> Option<string>, backup: seq<RateRow>): Result<seq<MergedRow<nat>>>
  {
    DefaultCore(data, RateCall(respond), NewsFetch(scrape), backup)
  }

  /** `default_function()` up to the merge; writing the files, the statistics
      and the plots are not part of the model. */
  method DefaultMode(
    folder: string, listing: seq<string>, readCsv: string -> seq<CsvRow>,
    respond: Request -> ApiResponse, scrape: string -> Option<string>, backup: seq<RateRow>)
    returns (r: Result<seq<MergedRow<nat>>>)
    ensures CompiledData(folder, listing, readCsv).Failure? ==> r == Failure(CompiledData(folder, listing, readCsv).error)
    ensures CompiledData(folder, listing, readCsv).Success? ==> r == DefaultFrom(CompiledData(folder, listing, readCsv).value, respond, scrape, backup)
  {
    var data :- CompileData(folder, listing, readCsv);
    r := RunDefault(data, RateCall(respond), NewsFetch(scrape), backup);
  }

  // ---------------------------------------------------------------- evaluation

  /** `get_news(df, "Mexico")`, as `evaluation_metrics` applies it. */
  function EvaluationNewsFetch(scrape: string -> Option<string>): seq<int> -> Result<seq<NewsRow<nat>>>
  {
    ps => GetNews(ps, EvaluationCountry, scrape)
  }

  /** `evaluation_metrics` after `compile_data`, up to the merge: the default
      steps for the Mexico sample, with the MXN rate, the Mexico news search and
      the whole saved `exchange_rates_mxn.csv` as the fallback. */
  function EvaluationFrom(data: TradeTable, respond: Request -> ApiResponse, scrape: string -> Option<string>, backup: seq<RateRow>): (r: Result<seq<MergedRow<nat>>>)
    ensures r.Success? ==> forall i :: 0 <= i < |r.value| ==> DateKey(r.value[i].refPeriod) in Periods(data.rows)
  {
    DefaultCore(data, SymbolCall(respond, EvaluationSymbol), EvaluationNewsFetch(scrape), backup)
  }

  /** `evaluation_metrics()` up to the merge; the regression is not part of the model. */
  method EvaluationMode(
    folder: string, listing: seq<string>, readCsv: string -> seq<CsvRow>,
    respond: Request -> ApiResponse, scrape: string -> Option<string>, backup: seq<RateRow>)
    returns (r: Result<seq<MergedRow<nat>>>)
    ensures CompiledData(folder, listing, readCsv).Failure? ==> r == Failure(CompiledData(folder, listing, readCsv).error)
    ensures CompiledData(folder, listing, readCsv).Success? ==> r == EvaluationFrom(CompiledData(folder, listing, readCsv).value, respond, scrape, backup)
  {
    var data :- CompileData(folder, listing, readCsv);
    r := RunDefault(data, SymbolCall(respond, EvaluationSymbol), EvaluationNewsFetch(scrape), backup);
  }

  // ---------------------------------------------------------------- properties

  /** When the rate API answers, the rates scrape mode merges are those of the
      window's last months, each change taken against the month before it —
      for the first reported month that is the sixth-latest month, not itself. */
  lemma ScrapeRatesFetched(periods: seq<int>, rateCall: string -> Result<Option<real>>, backup: seq<RateRow>, i: nat)
    requires GetExchangeRateWith(periods, rateCall).Success? && GetExchangeRateWith(periods, rateCall).value.Some?
    requires i + 1 < |periods|
    ensures var fetched := GetExchangeRateWith(periods, rateCall).value.value;
      var rates := ScrapeRates(periods, rateCall, backup).value;
      && |rates| == |periods| - 1
      && rates[i].refPeriodId == periods[i + 1]
      && rates[i].changeInExchangeRate == PercentChange(rates[i].exchangeRate, fetched[i].exchangeRate)
  {
    RateChangeRows(periods, rateCall, i + 1);
  }

  /** When the probe call fails, the rates come from the last five saved rows only. */
  lemma ScrapeRatesFallback(periods: seq<int>, rateCall: string -> Result<Option<real>>, backup: seq<RateRow>)
    requires |periods| > 0 && rateCall(ProbePeriod) == Success(None)
    ensures ScrapeRates(periods, rateCall, backup) == Success(backup[|backup| - |Tail(backup, BackupRows)|..])
    ensures |ScrapeRates(periods, rateCall, backup).value| <= BackupRows
  {
  }

  /** A filter that keeps every key changes nothing. */
  lemma {:induction false} KeepKeyedAll<L>(left: seq<L>, lkey: L -> int, keys: set<int>)
    requires forall i :: 0 <= i < |left| ==> lkey(left[i]) in keys
    ensures KeepKeyed(left, lkey, keys) == left
  {
    if |left| > 0 {
      KeepKeyedAll(left[1..], lkey, keys);
      assert [left[0]] + left[1..] == left;
    }
  }

  /** When the three tables hold the same strictly increasing periods in the
      same order, the merge keeps every trade row once, in order. */
  lemma MergeOfAlignedTables<A(!new)>(trade: seq<ChangeRow>, rates: seq<RateRow>, news: seq<NewsRow<A>>)
    requires |rates| == |trade| && |news| == |trade|
    requires forall i :: 0 <= i < |trade| ==> rates[i].refPeriodId == trade[i].refPeriodId == news[i].refPeriodId
    requires forall i, j :: 0 <= i < j < |trade| ==> trade[i].refPeriodId < trade[j].refPeriodId
    ensures Firsts(Firsts(Joined(trade, rates, news))) == trade
  {
    assert UniqueKeys(rates, RateKey);
    assert UniqueKeys(news, NewsKey);
    MergedPeriods(trade, rates, news);
    assert forall i :: 0 <= i < |trade| ==> TradeKey(trade[i]) in KeysOf(rates, RateKey) by {
      forall i | 0 <= i < |trade| ensures TradeKey(trade[i]) in KeysOf(rates, RateKey) { assert RateKey(rates[i]) == TradeKey(trade[i]); }
    }
    KeepKeyedAll(trade, TradeKey, KeysOf(rates, RateKey));
    assert forall i :: 0 <= i < |trade| ==> TradeKey(trade[i]) in KeysOf(news, NewsKey) by {
      forall i | 0 <= i < |trade| ensures TradeKey(trade[i]) in KeysOf(news, NewsKey) { assert NewsKey(news[i]) == TradeKey(trade[i]); }
    }
    KeepKeyedAll(trade, TradeKey, KeysOf(news, NewsKey));
  }

  /** In default mode, when the rate API answers and the compiled periods
      strictly increase, the merge keeps every month once, in order. */
  lemma DefaultKeepsEveryMonth(data: TradeTable, respond: Request -> ApiResponse, scrape: string -> Option<string>, backup: seq<RateRow>)
    requires StrictlyIncreasing(Periods(data.rows))
    requires GetExchangeRate(Periods(data.rows), Symbol, respond).Success?
    requires GetExchangeRate(Periods(data.rows), Symbol, respond).value.Some?
    requires DefaultFrom(data, respond, scrape, backup).Success?
    ensures var rows := DefaultFrom(data, respond, scrape, backup).value;
      && |rows| == |data.rows|
      && forall i :: 0 <= i < |rows| ==> DateKey(rows[i].refPeriod) == data.rows[i].refPeriodId
  {
    var periods := Periods(data.rows);
    var trade := ChangeTable(data).value;
    var rates := GetExchangeRate(periods, Symbol, respond).value.value;
    var news := GetNews(periods, Country, scrape).value;
    assert forall i :: 0 <= i < |trade| ==> trade[i].refPeriodId == periods[i] by {
      forall i | 0 <= i < |trade| ensures trade[i].refPeriodId == periods[i] { ChangeTableRows(data, i); }
    }
    MergeOfAlignedTables(trade, rates, news);
    var joined := Joined(trade, rates, news);
    var rows := DefaultFrom(data, respond, scrape, backup).value;
    assert rows == MergeDf(trade, rates, news).value;
    forall i | 0 <= i < |rows| ensures DateKey(rows[i].refPeriod) == data.rows[i].refPeriodId {
      assert Firsts(Firsts(joined))[i] == joined[i].0.0;
    }
  }

  /** The window's periods are the last periods of the table, so they strictly
      increase when the table's do. */
  lemma WindowIncreasing(data: TradeTable)
    requires StrictlyIncreasing(Periods(data.rows))
    ensures StrictlyIncreasing(Periods(Window(data).rows))
  {
    var w := Window(data).rows;
    var off := |data.rows| - |w|;
    var ps, pw := Periods(data.rows), Periods(w);
    forall i, j | 0 <= i < j < |pw| ensures pw[i] < pw[j] {
      assert pw[i] == w[i].refPeriodId == data.rows[off + i].refPeriodId == ps[off + i];
      assert pw[j] == w[j].refPeriodId == data.rows[off + j].refPeriodId == ps[off + j];
    }
  }

  /** The merge yields at most one row per trade row when the rate and news
      tables have one row per period. */
  lemma MergeAtMostTrade<A(!new)>(trade: seq<ChangeRow>, rates: seq<RateRow>, news: seq<NewsRow<A>>)
    requires UniqueKeys(rates, RateKey) && UniqueKeys(news, NewsKey)
    requires MergeDf(trade, rates, news).Success?
    ensures |MergeDf(trade, rates, news).value| <= |trade|
  {
    MergedPeriods(trade, rates, news);
    assert |Joined(trade, rates, news)| == |Firsts(Firsts(Joined(trade, rates, news)))|;
  }

  /** The rates scrape mode merges have one row per period when the saved table does. */
  lemma ScrapeRatesUnique(periods: seq<int>, rateCall: string -> Result<Option<real>>, backup: seq<RateRow>)
    requires StrictlyIncreasing(periods)
    requires UniqueKeys(backup, RateKey)
    requires ScrapeRates(periods, rateCall, backup).Success?
    ensures UniqueKeys(ScrapeRates(periods, rateCall, backup).value, RateKey)
  {
    var fetched := GetExchangeRateWith(periods, rateCall).value;
    var rates := ScrapeRates(periods, rateCall, backup).value;
    if fetched.None? {
      var off := |backup| - |rates|;
      assert forall i :: 0 <= i < |rates| ==> rates[i] == backup[off + i];
    } else {
      assert forall i :: 0 <= i < |rates| ==> rates[i].refPeriodId == periods[i + 1];
    }
  }

  /** The news rows of `get_news` carry the periods they were asked for. */
  lemma NewsUnique(periods: seq<int>, country: string, scrape: string -> Option<string>)
    requires StrictlyIncreasing(periods)
    requires GetNews(periods, country, scrape).Success?
    ensures UniqueKeys(GetNews(periods, country, scrape).value, NewsKey)
  {
  }

  /** The trade rows after the first have distinct periods when the table's
      periods strictly increase. */
  lemma ReportedUnique(window: TradeTable, trade: seq<ChangeRow>)
    requires StrictlyIncreasing(Periods(window.rows))
    requires ChangeTable(window) == Success(trade)
    ensures UniqueKeys(trade[1..], TradeKey)
  {
    var reported := trade[1..];
    forall i, j | 0 <= i < j < |reported| ensures TradeKey(reported[i]) != TradeKey(reported[j]) {
      ChangeTableRows(window, i + 1);
      ChangeTableRows(window, j + 1);
    }
  }

  /** Scrape mode's rate table has at most five rows. */
  lemma ScrapeRatesAtMostFive(periods: seq<int>, rateCall: string -> Result<Option<real>>, backup: seq<RateRow>)
    requires |periods| <= WindowSize
    requires ScrapeRates(periods, rateCall, backup).Success?
    ensures |ScrapeRates(periods, rateCall, backup).value| <= BackupRows
  {
  }

  /** With distinct trade periods and one news row per period, the merge has
      at most one row per rate row, whatever periods the rates repeat. */
  lemma MergeAtMostRates<A(!new)>(trade: seq<ChangeRow>, rates: seq<RateRow>, news: seq<NewsRow<A>>)
    requires UniqueKeys(trade, TradeKey) && UniqueKeys(news, NewsKey)
    requires MergeDf(trade, rates, news).Success?
    ensures |MergeDf(trade, rates, news).value| <= |rates|
  {
    var first := InnerJoin(trade, rates, TradeKey, RateKey);
    JoinAtMostRight(trade, rates, TradeKey, RateKey);
    JoinAtMostLeft(first, news, PairKey, NewsKey);
  }

  /** Scrape mode reports at most five months, whatever the saved rate table
      holds: the reported trade rows have distinct periods, so each rate row
      joins at most one of them, there are at most five rate rows, and the
      news rows, one per period, add no rows. */
  lemma ScrapeAtMostFive(data: TradeTable, respond: Request -> ApiResponse, scrape: string -> Option<string>, backup: seq<RateRow>)
    requires StrictlyIncreasing(Periods(data.rows))
    requires ScrapeFrom(data, respond, scrape, backup).Success?
    ensures |ScrapeFrom(data, respond, scrape, backup).value| <= BackupRows
  {
    var window := Window(data);
    var trade := ChangeTable(window).value;
    var periods := Periods(window.rows);
    WindowIncreasing(data);
    ReportedUnique(window, trade);
    assert StrictlyIncreasing(periods[1..]);
    NewsUnique(periods[1..], Country, scrape);
    ScrapeRatesAtMostFive(periods, RateCall(respond), backup);
    var rates := ScrapeRates(periods, RateCall(respond), backup).value;
    var news := NewsFetch(scrape)(periods[1..]).value;
    MergeAtMostRates(trade[1..], rates, news);
  }
}
