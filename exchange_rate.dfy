/** The exchange-rate side: `get_request_params`, the answer handling of
    `api_call`, and `get_exchange_rate` after the rates are fetched. */
module ExchangeRate {
  import opened Wrappers
  import opened Text
  import opened Numeric

  const HistoricalUrl := "https://api.currencybeacon.com/v1/historical"
  const BaseCurrency := "USD"
  /** The period of the probe call that tests whether the API answers. */
  const ProbePeriod := "20220801"
  /** The key placeholder of the current script. */
  const ApiKey := ""

  datatype RequestParams = RequestParams(apiKey: string, base: string, date: string, symbols: string)
  datatype Request = Request(url: string, params: RequestParams)

  /** The rate API's answer as `api_call` sees it: the request raised (or had an
      error status), or the `response.rates` object of the JSON body. */
  datatype ApiResponse = RequestFailed | Answered(rates: map<string, real>)

  /** A rate row: `RefPeriodId`, `ExchangeRate` (NaN when the call failed) and
      `ChangeInExchangeRate`. */
  datatype RateRow = RateRow(refPeriodId: int, exchangeRate: Option<real>, changeInExchangeRate: Change)

  // ---------------------------------------------------------------- request

  /** `year + "-" + month + "-" + day` from `tp[:4]`, `tp[4:6]` and `tp[6:]`. */
  function ApiDate(tp: string): (d: string)
    ensures |tp| == 8 ==> d == tp[..4] + "-" + tp[4..6] + "-" + tp[6..]
  {
    Slice(tp, 0, 4) + "-" + Slice(tp, 4, 6) + "-" + SliceFrom(tp, 6)
  }

  function WithoutDashes(s: string): (r: string)
    ensures '-' !in r
  {
    if |s| == 0 then "" else (if s[0] == '-' then "" else [s[0]]) + WithoutDashes(s[1..])
  }

  lemma {:induction false} WithoutDashesAppend(a: string, b: string)
    ensures WithoutDashes(a + b) == WithoutDashes(a) + WithoutDashes(b)
  {
    if |a| > 0 {
      assert (a + b)[0] == a[0] && (a + b)[1..] == a[1..] + b;
      WithoutDashesAppend(a[1..], b);
    } else {
      assert a + b == b;
    }
  }

  lemma {:induction false} WithoutDashesIdentity(s: string)
    requires '-' !in s
    ensures WithoutDashes(s) == s
  {
    if |s| > 0 {
      WithoutDashesIdentity(s[1..]);
    }
  }

  /** Removing the two dashes gives the period string back: the date is the
      period with separators inserted and nothing else changed. */
  lemma ApiDateRoundTrip(tp: string)
    requires '-' !in tp
    ensures WithoutDashes(ApiDate(tp)) == tp
  {
    var a, b, c := Slice(tp, 0, 4), Slice(tp, 4, 6), SliceFrom(tp, 6);
    assert a + b + c == tp;
    WithoutDashesAppend(a + "-" + b + "-", c);
    WithoutDashesAppend(a + "-" + b, "-");
    WithoutDashesAppend(a + "-", b);
    WithoutDashesAppend(a, "-");
    WithoutDashesIdentity(a);
    WithoutDashesIdentity(b);
    WithoutDashesIdentity(c);
  }

  /** An 8-character `YYYYMMDD` becomes the 10-character `YYYY-MM-DD`. */
  lemma ApiDateOfEightCharacters(tp: string)
    requires |tp| == 8
    ensures var d := ApiDate(tp);
      |d| == 10 && d[4] == '-' && d[7] == '-' && d[..4] == tp[..4] && d[5..7] == tp[4..6] && d[8..] == tp[6..]
  {
  }

  /** `get_request_params` with the API key as a parameter: the URL is fixed, the
      base is always USD and the symbol is passed through. */
  function RequestFor(apiKey: string, tp: string, symbol: string): (r: Request)
  {
    Request(HistoricalUrl, RequestParams(apiKey, BaseCurrency, ApiDate(tp), symbol))
  }

  /** `get_request_params(time_period, symbol)` of the current script. */
  function GetRequestParams(tp: string, symbol: string): (r: Request)
    ensures r.url == HistoricalUrl && r.params.base == "USD" && r.params.symbols == symbol
    ensures r.params.apiKey == ApiKey
    ensures r.params.date == ApiDate(tp)
    ensures '-' !in tp ==> WithoutDashes(r.params.date) == tp
  {
    var r := RequestFor(ApiKey, tp, symbol);
    if '-' !in tp then ApiDateRoundTrip(tp); r else r
  }

  // ---------------------------------------------------------------- api_call

  /** What `api_call` returns for an answer: None when the request failed,
      otherwise `rates[symbol]`, which raises KeyError when the symbol is absent. */
  function ReadRate(response: ApiResponse, symbol: string): (r: Result<Option<real>>)
    ensures r == Success(None) <==> response.RequestFailed?
    ensures r.Failure? <==> response.Answered? && symbol !in response.rates
    ensures r.Failure? ==> r.error == KeyError(symbol)
    ensures r.Success? && r.value.Some? ==> symbol in response.rates && r.value.value == response.rates[symbol]
  {
    match response
    case RequestFailed => Success(None)
    case Answered(rates) => if symbol in rates then Success(Some(rates[symbol])) else Failure(KeyError(symbol))
  }

  /** `api_call(time_period, symbol)`, with the HTTP round trip as `respond`. */
  function ApiCall(respond: Request -> ApiResponse, tp: string, symbol: string): (r: Result<Option<real>>)
    ensures var response := respond(GetRequestParams(tp, symbol));
      && (r == Success(None) <==> response.RequestFailed?)
      && (r.Failure? <==> response.Answered? && symbol !in response.rates)
      && (r.Failure? ==> r.error == KeyError(symbol))
      && (r.Success? && r.value.Some? ==> symbol in response.rates && r.value.value == response.rates[symbol])
  {
    ReadRate(respond(GetRequestParams(tp, symbol)), symbol)
  }

  // ---------------------------------------------------------------- get_exchange_rate

  /** `df['RefPeriodId'].apply(lambda p: api_call(str(p)))`: one call per period,
      in order; the first call that raises ends the step with its exception. */
  function FetchRates(periods: seq<int>, call: string -> Result<Option<real>>): (r: Result<seq<Option<real>>>)
    ensures r.Success? ==> |r.value| == |periods|
    ensures r.Success? ==> forall i :: 0 <= i < |periods| ==> call(IntToString(periods[i])) == Success(r.value[i])
    ensures r.Failure? ==> exists i :: 0 <= i < |periods| && call(IntToString(periods[i])) == Failure(r.error)
                              && forall j :: 0 <= j < i ==> call(IntToString(periods[j])).Success?
  {
    ApplyEach(periods, p => call(IntToString(p)))
  }

  /** The change column of the rates: row 0's previous value is its own rate,
      row i's is row i-1's. */
  function RateChanges(rates: seq<Option<real>>): (c: seq<Change>)
    ensures |c| == |rates|
    ensures forall i :: 0 <= i < |rates| ==> c[i] == PercentChange(rates[i], rates[if i == 0 then 0 else i - 1])
  {
    seq(|rates|, i requires 0 <= i < |rates| => PercentChange(rates[i], if i == 0 then rates[0] else rates[i - 1]))
  }

  /** `df['ExchangeRate']` and `df['ChangeInExchangeRate']` beside the periods:
      each rounded rate, and its change against the previous row's rate. */
  function RateTable(periods: seq<int>, fetched: seq<Option<real>>): (rows: seq<RateRow>)
    requires |fetched| == |periods|
    ensures |rows| == |periods|
    ensures forall i :: 0 <= i < |periods| ==>
      && rows[i].refPeriodId == periods[i]
      && rows[i].exchangeRate == RoundCell(fetched[i])
      && rows[i].changeInExchangeRate == PercentChange(rows[i].exchangeRate, rows[if i == 0 then 0 else i - 1].exchangeRate)
  {
    var rates := seq(|fetched|, i requires 0 <= i < |fetched| => RoundCell(fetched[i]));
    var changes := RateChanges(rates);
    seq(|periods|, i requires 0 <= i < |periods| => RateRow(periods[i], rates[i], changes[i]))
  }

  /** `get_exchange_rate` with the per-period call as a parameter: IndexError on
      no periods, None when the probe call fails, else the rate table. */
  function GetExchangeRateWith(periods: seq<int>, call: string -> Result<Option<real>>): (r: Result<Option<seq<RateRow>>>)
    ensures |periods| == 0 ==> r == Failure(IndexError)
    ensures r == Success(None) <==> |periods| > 0 && call(ProbePeriod) == Success(None)
    ensures r.Failure? <==> |periods| == 0 || call(ProbePeriod).Failure?
                            || (call(ProbePeriod).Success? && call(ProbePeriod).value.Some? && FetchRates(periods, call).Failure?)
    ensures |periods| > 0 && call(ProbePeriod).Failure? ==> r == Failure(call(ProbePeriod).error)
    ensures |periods| > 0 && call(ProbePeriod).Success? && call(ProbePeriod).value.Some? && FetchRates(periods, call).Failure? ==>
      r == Failure(FetchRates(periods, call).error)
    ensures r.Success? && r.value.Some? ==> call(ProbePeriod).Success? && call(ProbePeriod).value.Some?
    ensures r.Success? && r.value.Some? ==>
      var rows := r.value.value;
      && |rows| == |periods|
      && forall i :: 0 <= i < |periods| ==>
           && rows[i].refPeriodId == periods[i]
           && call(IntToString(periods[i])).Success?
           && rows[i].exchangeRate == RoundCell(call(IntToString(periods[i])).value)
  {
    if |periods| == 0 then Failure(IndexError)
    else
      var probe :- call(ProbePeriod);
      if probe.None? then Success(None)
      else
        var fetched :- FetchRates(periods, call);
        Success(Some(RateTable(periods, fetched)))
  }

  /** The call `get_exchange_rate` applies to each period: `api_call(tp, symbol)`. */
  function SymbolCall(respond: Request -> ApiResponse, symbol: string): string -> Result<Option<real>>
  {
    tp => ApiCall(respond, tp, symbol)
  }

  /** `get_exchange_rate(df, symbol)` of the current script. */
  function GetExchangeRate(periods: seq<int>, symbol: string, respond: Request -> ApiResponse): (r: Result<Option<seq<RateRow>>>)
    ensures |periods| == 0 ==> r == Failure(IndexError)
    ensures r.Failure? ==> r.error == IndexError || r.error == KeyError(symbol)
    ensures r == Success(None) <==> |periods| > 0 && respond(GetRequestParams(ProbePeriod, symbol)).RequestFailed?
    ensures r.Success? && r.value.Some? ==>
      var rows := r.value.value;
      && |rows| == |periods|
      && forall i :: 0 <= i < |periods| ==>
           && rows[i].refPeriodId == periods[i]
           && ApiCall(respond, IntToString(periods[i]), symbol).Success?
           && rows[i].exchangeRate == RoundCell(ApiCall(respond, IntToString(periods[i]), symbol).value)
  {
    SymbolCallErrors(periods, respond, symbol);
    GetExchangeRateWith(periods, SymbolCall(respond, symbol))
  }

  /** A rate table for one symbol fails only on no periods or on that symbol's missing rate. */
  lemma SymbolCallErrors(periods: seq<int>, respond: Request -> ApiResponse, symbol: string)
    ensures var r := GetExchangeRateWith(periods, SymbolCall(respond, symbol));
      r.Failure? ==> r.error == IndexError || r.error == KeyError(symbol)
  {
    var call := SymbolCall(respond, symbol);
    if |periods| > 0 && call(ProbePeriod).Success? && call(ProbePeriod).value.Some? && FetchRates(periods, call).Failure? {
      var i :| 0 <= i < |periods| && call(IntToString(periods[i])) == Failure(FetchRates(periods, call).error);
    }
  }

  // ---------------------------------------------------------------- properties

  /** Row i of a rate table: its rounded rate and that rate's change against
      the previous row's (row 0's against its own). */
  lemma RateTableRow(periods: seq<int>, fetched: seq<Option<real>>, i: nat)
    requires |fetched| == |periods| && i < |periods|
    ensures var rows := RateTable(periods, fetched);
      && rows[i].exchangeRate == RoundCell(fetched[i])
      && rows[i].changeInExchangeRate == PercentChange(rows[i].exchangeRate, if i == 0 then rows[0].exchangeRate else rows[i - 1].exchangeRate)
  {
    var rates := seq(|fetched|, k requires 0 <= k < |fetched| => RoundCell(fetched[k]));
    var rows := RateTable(periods, fetched);
    var prev := if i == 0 then 0 else i - 1;
    assert rows[i] == RateRow(periods[i], rates[i], RateChanges(rates)[i]);
    assert rows[prev].exchangeRate == rates[prev];
    assert RateChanges(rates)[i] == PercentChange(rates[i], rates[prev]);
  }

  /** Each row's change is taken against the previous row's rate, and row 0's
      against its own rate, so row 0 is 0 unless its rate is 0 (NaN) or missing. */
  lemma RateChangeRows(periods: seq<int>, call: string -> Result<Option<real>>, i: nat)
    requires GetExchangeRateWith(periods, call).Success? && GetExchangeRateWith(periods, call).value.Some?
    requires i < |periods|
    ensures var rows := GetExchangeRateWith(periods, call).value.value;
      && rows[i].changeInExchangeRate == PercentChange(rows[i].exchangeRate, if i == 0 then rows[0].exchangeRate else rows[i - 1].exchangeRate)
      && (i == 0 && rows[0].exchangeRate.Some? && rows[0].exchangeRate.value != 0.0 ==> rows[0].changeInExchangeRate == Fin(0.0))
      && (i == 0 && rows[0].exchangeRate == Some(0.0) ==> rows[0].changeInExchangeRate == NaN)
  {
    var fetched := FetchRates(periods, call).value;
    var rows := GetExchangeRateWith(periods, call).value.value;
    assert rows == RateTable(periods, fetched);
    RateTableRow(periods, fetched, i);
    RateTableRow(periods, fetched, 0);
    if rows[0].exchangeRate.Some? {
      PercentChangeAgainstItself(rows[0].exchangeRate.value);
    }
  }

  /** Unlike the trade changes, the rate changes are not corrected: a zero rate
      followed by a positive one leaves an infinite change. */
  lemma RateChangeKeepsInfinity()
    ensures RateChanges([Some(0.0), Some(2.0)]) == [NaN, PosInf]
  {
  }
}
