/** The earlier version of the script. Its trade compilation, change
    computation, rate table and merge are those of the current script; it
    differs in the API key, in always reading the CNY rate, in a search query
    fixed to China, and in keeping the article counts as digit strings. */
module Legacy {
  import opened Wrappers
  import opened Text
  import opened Numeric
  import opened Compile
  import opened TradeChange
  import opened ExchangeRate
  import opened News
  import opened Merge
  import opened Pipeline

  /** The key placeholder of the earlier script. */
  const ApiKeyV4 := "your_api_key_here"
  const ChinaQueryV4 := "us%20china%20trade"

  /** `get_request_params(time_period, symbol="CNY")` of the earlier script. */
  function GetRequestParamsV4(tp: string, symbol: string := "CNY"): (r: Request)
    ensures r.url == HistoricalUrl && r.params.base == "USD" && r.params.symbols == symbol
    ensures r.params.apiKey == ApiKeyV4
    ensures r.params.date == ApiDate(tp)
    ensures '-' !in tp ==> WithoutDashes(r.params.date) == tp
  {
    var r := RequestFor(ApiKeyV4, tp, symbol);
    if '-' !in tp then ApiDateRoundTrip(tp); r else r
  }

  /** `api_call(time_period)` of the earlier script: the request uses the default
      symbol and the answer is always read at CNY. */
  function ApiCallV4(respond: Request -> ApiResponse, tp: string): (r: Result<Option<real>>)
    ensures var response := respond(GetRequestParamsV4(tp));
      && (r == Success(None) <==> response.RequestFailed?)
      && (r.Failure? <==> response.Answered? && "CNY" !in response.rates)
      && (r.Failure? ==> r.error == KeyError("CNY"))
      && (r.Success? && r.value.Some? ==> "CNY" in response.rates && r.value.value == response.rates["CNY"])
  {
    ReadRate(respond(GetRequestParamsV4(tp)), "CNY")
  }

  /** The per-period call `get_exchange_rate` applies in the earlier script. */
  function RateCallV4(respond: Request -> ApiResponse): string -> Result<Option<real>>
  {
    tp => ApiCallV4(respond, tp)
  }

  /** `get_exchange_rate(df)` of the earlier script. */
  function GetExchangeRateV4(periods: seq<int>, respond: Request -> ApiResponse): (r: Result<Option<seq<RateRow>>>)
    ensures |periods| == 0 ==> r == Failure(IndexError)
    ensures r.Failure? ==> r.error == IndexError || r.error == KeyError("CNY")
    ensures r == Success(None) <==> |periods| > 0 && respond(GetRequestParamsV4(ProbePeriod)).RequestFailed?
    ensures r.Success? && r.value.Some? ==>
      var rows := r.value.value;
      && |rows| == |periods|
      && forall i :: 0 <= i < |periods| ==>
           && rows[i].refPeriodId == periods[i]
           && ApiCallV4(respond, IntToString(periods[i])).Success?
           && rows[i].exchangeRate == RoundCell(ApiCallV4(respond, IntToString(periods[i])).value)
  {
    RateCallV4Errors(periods, respond);
    GetExchangeRateWith(periods, RateCallV4(respond))
  }

  /** The earlier rate table fails only on no periods or a missing CNY rate. */
  lemma RateCallV4Errors(periods: seq<int>, respond: Request -> ApiResponse)
    ensures var r := GetExchangeRateWith(periods, RateCallV4(respond));
      r.Failure? ==> r.error == IndexError || r.error == KeyError("CNY")
  {
    var call := RateCallV4(respond);
    if |periods| > 0 && call(ProbePeriod).Success? && call(ProbePeriod).value.Some? && FetchRates(periods, call).Failure? {
      var i :| 0 <= i < |periods| && call(IntToString(periods[i])) == Failure(FetchRates(periods, call).error);
    }
  }

  /** The search URL of the earlier script, with the query written out. */
  function NewsUrlV4(start: string, end: string): string {
    SearchUrl + end + "&query=" + ChinaQueryV4 + "&sort=best&startDate=" + start
  }

  /** `get_news_from(time_period)` of the earlier script. */
  function GetNewsFromV4(tp: string, scrape: string -> Option<string>): (r: Result<string>)
    ensures r.Success? ==> 1 <= |r.value| && AllDigits(r.value)
  {
    var end :- EndDate(tp);
    var status := scrape(NewsUrlV4(tp, end));
    if status.None? then Failure(AttributeError("text")) else ReadCount(status.value)
  }

  /** `get_news(df)` of the earlier script: the counts stay strings. */
  function GetNewsV4(periods: seq<int>, scrape: string -> Option<string>): (r: Result<seq<NewsRow<string>>>)
    ensures r.Success? ==> |r.value| == |periods|
    ensures r.Success? ==> forall i :: 0 <= i < |periods| ==>
      && r.value[i].refPeriodId == periods[i]
      && GetNewsFromV4(IntToString(periods[i]), scrape) == Success(r.value[i].articlesWritten)
      && 1 <= |r.value[i].articlesWritten| && AllDigits(r.value[i].articlesWritten)
    ensures r.Failure? ==> exists i :: 0 <= i < |periods| && GetNewsFromV4(IntToString(periods[i]), scrape) == Failure(r.error)
                              && forall j :: 0 <= j < i ==> GetNewsFromV4(IntToString(periods[j]), scrape).Success?
  {
    var counts :- ApplyEach(periods, p => GetNewsFromV4(IntToString(p), scrape));
    Success(seq(|periods|, i requires 0 <= i < |periods| => NewsRow(periods[i], counts[i])))
  }

  /** The news step of the earlier script, as the pipeline applies it. */
  function NewsFetchV4(scrape: string -> Option<string>): seq<int> -> Result<seq<NewsRow<string>>>
  {
    ps => GetNewsV4(ps, scrape)
  }

  /** `scrape_function` of the earlier script after `compile_data`. */
  function ScrapeFromV4(data: TradeTable, respond: Request -> ApiResponse, scrape: string -> Option<string>, backup: seq<RateRow>): Result<seq<MergedRow<string>>>
  {
    ScrapeCore(data, RateCallV4(respond), NewsFetchV4(scrape), backup)
  }

  /** `default_function` of the earlier script after `compile_data`. */
  function DefaultFromV4(data: TradeTable, respond: Request -> ApiResponse, scrape: string -> Option<string>, backup: seq<RateRow>): Result<seq<MergedRow<string>>>
  {
    DefaultCore(data, RateCallV4(respond), NewsFetchV4(scrape), backup)
  }

  /** `scrape_function()` of the earlier script. */
  method ScrapeModeV4(
    folder: string, listing: seq<string>, readCsv: string -> seq<CsvRow>,
    respond: Request -> ApiResponse, scrape: string -> Option<string>, backup: seq<RateRow>)
    returns (r: Result<seq<MergedRow<string>>>)
    ensures CompiledData(folder, listing, readCsv).Failure? ==> r == Failure(CompiledData(folder, listing, readCsv).error)
    ensures CompiledData(folder, listing, readCsv).Success? ==> r == ScrapeFromV4(CompiledData(folder, listing, readCsv).value, respond, scrape, backup)
  {
    var data :- CompileData(folder, listing, readCsv);
    r := RunScrape(data, RateCallV4(respond), NewsFetchV4(scrape), backup);
  }

  /** `default_function()` of the earlier script up to the merge. */
  method DefaultModeV4(
    folder: string, listing: seq<string>, readCsv: string -> seq<CsvRow>,
    respond: Request -> ApiResponse, scrape: string -> Option<string>, backup: seq<RateRow>)
    returns (r: Result<seq<MergedRow<string>>>)
    ensures CompiledData(folder, listing, readCsv).Failure? ==> r == Failure(CompiledData(folder, listing, readCsv).error)
    ensures CompiledData(folder, listing, readCsv).Success? ==> r == DefaultFromV4(CompiledData(folder, listing, readCsv).value, respond, scrape, backup)
  {
    var data :- CompileData(folder, listing, readCsv);
    r := RunDefault(data, RateCallV4(respond), NewsFetchV4(scrape), backup);
  }

  // ---------------------------------------------------------------- properties

  /** The earlier request differs from the current one only in its API key. */
  lemma RequestDiffersOnlyInKey(tp: string, symbol: string)
    ensures GetRequestParamsV4(tp, symbol).params == GetRequestParams(tp, symbol).params.(apiKey := ApiKeyV4)
    ensures GetRequestParamsV4(tp, symbol).url == GetRequestParams(tp, symbol).url
  {
  }

  /** Where the server answers the earlier request as it answers the current
      one, the earlier call returns what the current call returns for CNY. */
  lemma ApiCallV4MatchesCurrent(respond: Request -> ApiResponse, tp: string)
    requires respond(GetRequestParamsV4(tp)) == respond(GetRequestParams(tp, "CNY"))
    ensures ApiCallV4(respond, tp) == ApiCall(respond, tp, "CNY")
  {
  }

  /** The fixed query is the current script's query for China, so the earlier
      news search is the current one with country "China". */
  lemma NewsFromMatchesCurrent(tp: string, scrape: string -> Option<string>)
    ensures GetNewsFromV4(tp, scrape) == GetNewsFromWith(tp, "China", scrape)
  {
    if EndDate(tp).Success? {
      var end := EndDate(tp).value;
      ChinaQuery();
      assert NewsUrlV4(tp, end) == NewsUrl(tp, end, "China");
    }
  }

  /** The earlier counts are the digit strings whose values the current script
      reports. */
  lemma NewsCountsMatchCurrent(periods: seq<int>, scrape: string -> Option<string>)
    ensures GetNewsV4(periods, scrape).Success? <==> GetNews(periods, "China", scrape).Success?
    ensures GetNewsV4(periods, scrape).Success? ==>
      forall i :: 0 <= i < |periods| ==>
        DigitsValue(GetNewsV4(periods, scrape).value[i].articlesWritten) == GetNews(periods, "China", scrape).value[i].articlesWritten
  {
    forall i | 0 <= i < |periods| {
      NewsFromMatchesCurrent(IntToString(periods[i]), scrape);
    }
  }
}
