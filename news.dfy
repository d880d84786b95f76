/** The news side: `get_news_from` builds a New York Times search URL for one
    month and reads the result count from the page's search-status text;
    `get_news` does that for every period. */
module News {
  import opened Wrappers
  import opened Text
  import opened Calendar

  const SearchUrl := "https://www.nytimes.com/search?dropmab=false&endDate="

  /** A row of the news frame: `RefPeriodId` and `ArticlesWritten`. */
  datatype NewsRow<A> = NewsRow(refPeriodId: int, articlesWritten: A)

  /** `year + month + str(calendar.monthrange(int(year), int(month))[1])` with
      `year = tp[:4]` and `month = tp[4:6]`. */
  function EndDate(tp: string): (r: Result<string>)
    ensures r.Failure? ==> r.error.ValueError? || r.error.IllegalMonthError?
    ensures r.Success? ==> 2 <= |r.value| && AllDigits(r.value[|r.value| - 2..])
    ensures r.Success? ==> 28 <= DigitsValue(r.value[|r.value| - 2..]) <= 31
  {
    var year :- ParseInt(Slice(tp, 0, 4));
    var month :- ParseInt(Slice(tp, 4, 6));
    var days :- MonthRangeDays(year, month);
    NatToDigitsTwoDigits(days);
    var d := NatToDigits(days);
    var e := Slice(tp, 0, 4) + Slice(tp, 4, 6) + d;
    assert e[|e| - 2..] == d;
    NatToDigitsValue(days);
    Success(e)
  }

  /** The query of the search: `"us%20" + country.lower() + "%20trade"`. */
  function NewsQuery(country: string): (q: string)
    ensures |q| == |country| + 13
    ensures q[..5] == "us%20" && q[|q| - 8..] == "%20trade"
    ensures q[5..|q| - 8] == AsciiLower(country)
  {
    var q := "us%20" + AsciiLower(country) + "%20trade";
    assert q[5..|q| - 8] == AsciiLower(country);
    q
  }

  /** The search URL: the month's end date, the query, and the period string
      itself as the start date. */
  function NewsUrl(start: string, end: string, country: string): (u: string)
    ensures |SearchUrl| + |end| + |start| <= |u|
    ensures u[..|SearchUrl|] == SearchUrl && u[|SearchUrl|..|SearchUrl| + |end|] == end
    ensures u[|u| - |start|..] == start
    ensures |u| == |SearchUrl| + |end| + |country| + 41 + |start|
    ensures u[|SearchUrl| + |end|..|u| - |start|] == "&query=" + NewsQuery(country) + "&sort=best&startDate="
    ensures u[|SearchUrl| + |end| + 12..|SearchUrl| + |end| + 12 + |country|] == AsciiLower(country)
  {
    var pre := SearchUrl + end;
    var middle := QueryPart(country);
    PartsOfConcat(SearchUrl, end, "");
    PartsOfConcat(pre, middle, start);
    SliceOfSlice(pre + middle + start, |pre|, |pre| + |middle|, 12, 12 + |country|);
    pre + middle + start
  }

  /** The part of the URL between the end date and the start date. */
  function QueryPart(country: string): (middle: string)
    ensures middle == "&query=" + NewsQuery(country) + "&sort=best&startDate="
    ensures |middle| == |country| + 41 && middle[12..12 + |country|] == AsciiLower(country)
  {
    var q := NewsQuery(country);
    var middle := "&query=" + q + "&sort=best&startDate=";
    PartsOfConcat("&query=", q, "&sort=best&startDate=");
    SliceOfSlice(middle, 7, 7 + |q|, 5, 5 + |country|);
    middle
  }

  /** The three parts of a concatenation are its slices. */
  lemma PartsOfConcat(a: string, b: string, c: string)
    ensures (a + b + c)[..|a|] == a
    ensures (a + b + c)[|a|..|a| + |b|] == b
    ensures (a + b + c)[|a| + |b|..] == c
  {
  }

  lemma SliceOfSlice(s: string, i: nat, j: nat, k: nat, l: nat)
    requires i <= j <= |s| && k <= l <= j - i
    ensures s[i..j][k..l] == s[i + k..i + l]
  {
    assert forall x :: 0 <= x < l - k ==> s[i..j][k..l][x] == s[i + k + x];
  }

  /** `re.findall(r"\d+", status.split(':')[0])[0]`: the first run of digits
      before the first colon, or IndexError when there is none. */
  function ReadCount(status: string): (r: Result<string>)
    ensures r.Failure? <==> NoDigits(BeforeFirst(status, ':'))
    ensures r.Failure? ==> r.error == IndexError
    ensures r.Success? ==> 1 <= |r.value| && AllDigits(r.value)
  {
    match FirstDigitRun(BeforeFirst(status, ':'))
    case None => Failure(IndexError)
    case Some(count) => Success(count)
  }

  /** `get_news_from(time_period, country)`, with the fetch-and-parse of the
      page as `scrape`: it yields the text of the `SearchForm-status` paragraph,
      or None when the page has no such paragraph. The count is the first run of
      digits before the first colon of that text. */
  function GetNewsFromWith(tp: string, country: string, scrape: string -> Option<string>): (r: Result<string>)
    ensures EndDate(tp).Failure? ==> r == Failure(EndDate(tp).error)
    ensures EndDate(tp).Success? ==>
      var status := scrape(NewsUrl(tp, EndDate(tp).value, country));
      && (status.None? ==> r == Failure(AttributeError("text")))
      && (status.Some? ==> r == ReadCount(status.value))
    ensures r.Success? ==> 1 <= |r.value| && AllDigits(r.value)
  {
    var end :- EndDate(tp);
    var status := scrape(NewsUrl(tp, end, country));
    if status.None? then Failure(AttributeError("text"))
    else ReadCount(status.value)
  }

  /** One period's count after `pd.to_numeric`. */
  function ArticleCount(tp: string, country: string, scrape: string -> Option<string>): (r: Result<nat>)
    ensures r.Success? <==> GetNewsFromWith(tp, country, scrape).Success?
    ensures r.Success? ==> r.value == DigitsValue(GetNewsFromWith(tp, country, scrape).value)
    ensures r.Failure? ==> r.error == GetNewsFromWith(tp, country, scrape).error
  {
    var count :- GetNewsFromWith(tp, country, scrape);
    Success(DigitsValue(count))
  }

  /** `get_news(df, country)`: one search per period, in order, and
      `pd.to_numeric` of the digit strings. */
  function GetNews(periods: seq<int>, country: string, scrape: string -> Option<string>): (r: Result<seq<NewsRow<nat>>>)
    ensures r.Success? ==> |r.value| == |periods|
    ensures r.Success? ==> forall i :: 0 <= i < |periods| ==>
      && r.value[i].refPeriodId == periods[i]
      && ArticleCount(IntToString(periods[i]), country, scrape) == Success(r.value[i].articlesWritten)
    ensures r.Failure? ==> exists i :: 0 <= i < |periods| && ArticleCount(IntToString(periods[i]), country, scrape) == Failure(r.error)
                              && forall j :: 0 <= j < i ==> ArticleCount(IntToString(periods[j]), country, scrape).Success?
  {
    var counts :- ApplyEach(periods, p => ArticleCount(IntToString(p), country, scrape));
    Success(seq(|periods|, i requires 0 <= i < |periods| => NewsRow(periods[i], counts[i])))
  }

  // ---------------------------------------------------------------- properties

  /** For an 8-digit period whose month is 1..12 the end date keeps the year
      and month and names the last day of that month; any other month raises
      IllegalMonthError. */
  lemma EndDateOfPeriod(tp: string)
    requires |tp| == 8 && AllDigits(tp)
    ensures var year, month := DigitsValue(tp[..4]), DigitsValue(tp[4..6]);
      && (EndDate(tp).Failure? <==> !(1 <= month <= 12))
      && (EndDate(tp).Failure? ==> EndDate(tp).error == IllegalMonthError(month))
      && (EndDate(tp).Success? ==>
            && EndDate(tp).value == tp[..6] + NatToDigits(DaysInMonth(year, month))
            && |EndDate(tp).value| == 8
            && ValidDate(Date(year, month, DaysInMonth(year, month)))
            && !ValidDate(Date(year, month, DaysInMonth(year, month) + 1)))
  {
    var y, m := tp[..4], tp[4..6];
    assert Slice(tp, 0, 4) == y && Slice(tp, 4, 6) == m;
    assert AllDigits(y) && AllDigits(m);
    assert ParseInt(y) == Success(DigitsValue(y)) by { assert y[0] != '-' && y[0] != '+' by { assert IsDigit(y[0]); } }
    assert ParseInt(m) == Success(DigitsValue(m)) by { assert m[0] != '-' && m[0] != '+' by { assert IsDigit(m[0]); } }
    var month := DigitsValue(m);
    if 1 <= month <= 12 {
      var days := DaysInMonth(DigitsValue(y), month);
      NatToDigitsTwoDigits(days);
      assert y + m == tp[..6];
    }
  }

  /** The count is read only up to the first non-digit, so a thousands
      separator cuts it short: "Showing 1,234 results" yields "1". */
  lemma {:induction false} CountStopsAtSeparator(prefix: string, digits: string, rest: string)
    requires NoDigits(prefix) && ':' !in prefix
    requires 1 <= |digits| && AllDigits(digits)
    ensures ReadCount(prefix + digits + "," + rest) == Success(digits)
  {
    assert ':' !in digits by {
      forall k | 0 <= k < |digits| ensures digits[k] != ':' { assert IsDigit(digits[k]); }
    }
    var head := prefix + digits + ",";
    assert ':' !in head;
    BeforeFirstAppend(head, rest, ':');
    var s := head + BeforeFirst(rest, ':');
    var i, j := |prefix|, |prefix| + |digits|;
    assert s[..i] == prefix && s[i..j] == digits && s[j] == ',';
    FirstDigitRunIsFirstMaximalRun(s, i, j);
  }

  /** A status with no digit before its first colon raises IndexError, whatever
      follows the colon. */
  lemma {:induction false} CountMissing(prefix: string, rest: string)
    requires NoDigits(prefix) && ':' !in prefix
    ensures ReadCount(prefix + ":" + rest) == Failure(IndexError)
  {
    BeforeFirstAppend(prefix, ":" + rest, ':');
    assert prefix + ":" + rest == prefix + (":" + rest);
    assert BeforeFirst(":" + rest, ':') == "";
    assert prefix + "" == prefix;
  }

  /** The query of the script's country. */
  lemma ChinaQuery()
    ensures NewsQuery("China") == "us%20china%20trade"
  {
  }
}
