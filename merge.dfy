/** `merge_df`: two inner joins on `RefPeriodId` and the conversion of the key
    to a date. */
module Merge {
  import opened Wrappers
  import opened Numeric
  import opened Calendar
  import opened TradeChange
  import opened ExchangeRate
  import opened News

  /** A row of the final data set. */
  datatype MergedRow<A> = MergedRow(
    refPeriod: Date,
    exportValue: Option<real>,
    importValue: Option<real>,
    changeInExport: Change,
    changeInImport: Change,
    exchangeRate: Option<real>,
    changeInExchangeRate: Change,
    articlesWritten: A)

  /** The rows of `right` whose key is `k`, in their order. */
  function Matching<R(!new)>(right: seq<R>, rkey: R -> int, k: int): (m: seq<R>)
    ensures |m| <= |right|
    ensures forall r :: r in m <==> r in right && rkey(r) == k
  {
    if |right| == 0 then []
    else (if rkey(right[0]) == k then [right[0]] else []) + Matching(right[1..], rkey, k)
  }

  /** `pd.merge(left, right, on=key)` with the default inner join: for each left
      row in order, one output row per matching right row, in the right's order. */
  function InnerJoin<L(!new), R(!new)>(left: seq<L>, right: seq<R>, lkey: L -> int, rkey: R -> int): (j: seq<(L, R)>)
    ensures forall l, r :: (l, r) in j <==> l in left && r in right && lkey(l) == rkey(r)
  {
    if |left| == 0 then []
    else
      var m := Matching(right, rkey, lkey(left[0]));
      var rest := InnerJoin(left[1..], right, lkey, rkey);
      var here := seq(|m|, i requires 0 <= i < |m| => (left[0], m[i]));
      assert forall r :: (left[0], r) in here <==> r in m by {
        forall r ensures (left[0], r) in here <==> r in m {
          if r in m {
            var i :| 0 <= i < |m| && m[i] == r;
            assert here[i] == (left[0], r);
          }
        }
      }
      assert forall l :: l in left <==> l == left[0] || l in left[1..] by {
        assert left == [left[0]] + left[1..];
      }
      here + rest
  }

  /** The keys of a table. */
  function KeysOf<R>(rows: seq<R>, key: R -> int): (ks: set<int>)
    ensures forall k :: k in ks <==> exists i :: 0 <= i < |rows| && key(rows[i]) == k
  {
    set i | 0 <= i < |rows| :: key(rows[i])
  }

  /** The left rows whose key occurs in `keys`, in their order. */
  function KeepKeyed<L>(left: seq<L>, lkey: L -> int, keys: set<int>): (kept: seq<L>)
    ensures |kept| <= |left|
  {
    if |left| == 0 then []
    else (if lkey(left[0]) in keys then [left[0]] else []) + KeepKeyed(left[1..], lkey, keys)
  }

  predicate UniqueKeys<R>(rows: seq<R>, key: R -> int) {
    forall i, j :: 0 <= i < j < |rows| ==> key(rows[i]) != key(rows[j])
  }

  function Firsts<L, R>(j: seq<(L, R)>): (ls: seq<L>)
    ensures |ls| == |j| && forall i :: 0 <= i < |j| ==> ls[i] == j[i].0
  {
    seq(|j|, i requires 0 <= i < |j| => j[i].0)
  }

  function TradeKey(t: ChangeRow): int { t.refPeriodId }
  function RateKey(r: RateRow): int { r.refPeriodId }
  function NewsKey<A>(n: NewsRow<A>): int { n.refPeriodId }
  function PairKey(p: (ChangeRow, RateRow)): int { p.0.refPeriodId }

  /** The rows of the two joins, before the key is converted. */
  function Joined<A(!new)>(trade: seq<ChangeRow>, rates: seq<RateRow>, news: seq<NewsRow<A>>): seq<((ChangeRow, RateRow), NewsRow<A>)>
  {
    InnerJoin(InnerJoin(trade, rates, TradeKey, RateKey), news, PairKey, NewsKey)
  }

  /** One joined row with `pd.to_datetime(RefPeriodId, format='%Y%m%d')` applied. */
  function Combine<A>(p: ((ChangeRow, RateRow), NewsRow<A>)): (r: Result<MergedRow<A>>)
    ensures r.Success? ==> DateKey(r.value.refPeriod) == p.0.0.refPeriodId && ValidDate(r.value.refPeriod)
    ensures r.Success? ==> 1000 <= r.value.refPeriod.year <= 9999
    ensures r.Failure? ==> r.error.ValueError?
    ensures r.Success? <==> ParsePeriodKey(p.0.0.refPeriodId).Success?
    ensures r.Failure? ==> r.error == ParsePeriodKey(p.0.0.refPeriodId).error
  {
    var t, x, n := p.0.0, p.0.1, p.1;
    var d :- ParsePeriodKey(t.refPeriodId);
    Success(MergedRow(d, t.exportValue, t.importValue, t.changeInExport, t.changeInImport,
                      x.exchangeRate, x.changeInExchangeRate, n.articlesWritten))
  }

  /** Combining the joined rows succeeds exactly when every period parses, and
      otherwise fails with the first period that does not. */
  lemma CombineOutcome<A>(joined: seq<((ChangeRow, RateRow), NewsRow<A>)>)
    ensures var rows := ApplyEach(joined, Combine);
      && (rows.Success? <==> forall i :: 0 <= i < |joined| ==> ParsePeriodKey(joined[i].0.0.refPeriodId).Success?)
      && (rows.Failure? ==> exists i :: 0 <= i < |joined| && ParsePeriodKey(joined[i].0.0.refPeriodId) == Failure(rows.error)
                                && forall j :: 0 <= j < i ==> ParsePeriodKey(joined[j].0.0.refPeriodId).Success?)
  {
    var rows := ApplyEach(joined, Combine);
    if rows.Success? {
      forall i | 0 <= i < |joined| ensures ParsePeriodKey(joined[i].0.0.refPeriodId).Success? {
        assert Combine(joined[i]).Success?;
      }
    } else {
      var i :| 0 <= i < |joined| && Combine(joined[i]) == Failure(rows.error) && forall j :: 0 <= j < i ==> Combine(joined[j]).Success?;
      assert ParsePeriodKey(joined[i].0.0.refPeriodId) == Failure(rows.error);
    }
  }

  /** `merge_df(df1, df2, df3)`: every merged row carries one trade row, one rate
      row and one news row that share its period, and its date is that period;
      a period that is not a `YYYYMMDD` date raises ValueError. */
  function MergeDf<A(!new)>(trade: seq<ChangeRow>, rates: seq<RateRow>, news: seq<NewsRow<A>>): (r: Result<seq<MergedRow<A>>>)
    ensures r.Failure? ==> r.error.ValueError?
    ensures r.Success? <==> forall i :: 0 <= i < |Joined(trade, rates, news)| ==>
      ParsePeriodKey(Joined(trade, rates, news)[i].0.0.refPeriodId).Success?
    ensures r.Failure? ==>
      exists i :: 0 <= i < |Joined(trade, rates, news)|
        && ParsePeriodKey(Joined(trade, rates, news)[i].0.0.refPeriodId) == Failure(r.error)
        && forall j :: 0 <= j < i ==> ParsePeriodKey(Joined(trade, rates, news)[j].0.0.refPeriodId).Success?
    ensures r.Success? ==> |r.value| == |Joined(trade, rates, news)|
    ensures r.Success? ==> forall i :: 0 <= i < |r.value| ==>
      var row, p := r.value[i], Joined(trade, rates, news)[i];
      && JoinedRowOk(trade, rates, news, p)
      && p.0.0.refPeriodId == DateKey(row.refPeriod)
      && ValidDate(row.refPeriod) && 1000 <= row.refPeriod.year <= 9999
      && row == MergedRow(row.refPeriod, p.0.0.exportValue, p.0.0.importValue, p.0.0.changeInExport,
                          p.0.0.changeInImport, p.0.1.exchangeRate, p.0.1.changeInExchangeRate, p.1.articlesWritten)
  {
    var joined := Joined(trade, rates, news);
    var rows := ApplyEach(joined, Combine);
    CombineOutcome(joined);
    if rows.Success? then
      assert forall i :: 0 <= i < |joined| ==> JoinedRowOk(trade, rates, news, joined[i]) by {
        forall i | 0 <= i < |joined| ensures JoinedRowOk(trade, rates, news, joined[i]) {
          JoinedRowsFromInputs(trade, rates, news, i);
        }
      }
      rows
    else
      var i :| 0 <= i < |joined| && Combine(joined[i]) == Failure(rows.error);
      rows
  }

  predicate JoinedRowOk<A(==)>(trade: seq<ChangeRow>, rates: seq<RateRow>, news: seq<NewsRow<A>>, p: ((ChangeRow, RateRow), NewsRow<A>)) {
    && p.0.0 in trade && p.0.1 in rates && p.1 in news
    && p.0.0.refPeriodId == p.0.1.refPeriodId == p.1.refPeriodId
  }

  /** Each joined row is made of one row of each table, all with the same period. */
  lemma JoinedRowsFromInputs<A(!new)>(trade: seq<ChangeRow>, rates: seq<RateRow>, news: seq<NewsRow<A>>, i: nat)
    requires i < |Joined(trade, rates, news)|
    ensures JoinedRowOk(trade, rates, news, Joined(trade, rates, news)[i])
  {
    var first := InnerJoin(trade, rates, TradeKey, RateKey);
    var p := Joined(trade, rates, news)[i];
    assert (p.0, p.1) in Joined(trade, rates, news);
    assert (p.0.0, p.0.1) in first;
  }

  // ---------------------------------------------------------------- properties

  /** With unique keys on the right, the join has one row per left row whose key
      the right has, in the left's order. */
  lemma {:induction false} JoinKeepsLeftOrder<L(!new), R(!new)>(left: seq<L>, right: seq<R>, lkey: L -> int, rkey: R -> int)
    requires UniqueKeys(right, rkey)
    ensures Firsts(InnerJoin(left, right, lkey, rkey)) == KeepKeyed(left, lkey, KeysOf(right, rkey))
  {
    if |left| > 0 {
      var k := lkey(left[0]);
      var m := Matching(right, rkey, k);
      MatchingUnique(right, rkey, k);
      JoinKeepsLeftOrder(left[1..], right, lkey, rkey);
      var here := seq(|m|, i requires 0 <= i < |m| => (left[0], m[i]));
      var rest := InnerJoin(left[1..], right, lkey, rkey);
      assert InnerJoin(left, right, lkey, rkey) == here + rest;
      FirstsAppend(here, rest);
      if k in KeysOf(right, rkey) {
        var i :| 0 <= i < |right| && rkey(right[i]) == k;
        assert right[i] in m;
        assert |m| == 1;
        assert Firsts(here) == [left[0]];
      } else {
        MatchingKeys(right, rkey, k);
        assert |m| == 0;
        assert Firsts(here) == [];
      }
    }
  }

  /** Projecting a concatenation projects each part. */
  lemma FirstsAppend<L, R>(a: seq<(L, R)>, b: seq<(L, R)>)
    ensures Firsts(a + b) == Firsts(a) + Firsts(b)
  {
    assert forall i :: 0 <= i < |a + b| ==> Firsts(a + b)[i] == (Firsts(a) + Firsts(b))[i];
  }

  /** A key with a match is a key of the table. */
  lemma MatchingKeys<R(!new)>(right: seq<R>, rkey: R -> int, k: int)
    ensures |Matching(right, rkey, k)| > 0 ==> k in KeysOf(right, rkey)
  {
    var m := Matching(right, rkey, k);
    if |m| > 0 {
      assert m[0] in right;
      var i :| 0 <= i < |right| && right[i] == m[0];
    }
  }

  /** Filtering by one more key adds exactly that key's rows. */
  lemma {:induction false} KeepKeyedAddKey<R(!new)>(right: seq<R>, rkey: R -> int, keys: set<int>, k: int)
    requires k !in keys
    ensures |KeepKeyed(right, rkey, keys + {k})| == |Matching(right, rkey, k)| + |KeepKeyed(right, rkey, keys)|
  {
    if |right| > 0 {
      KeepKeyedAddKey(right[1..], rkey, keys, k);
    }
  }

  /** Filtering by no key keeps nothing. */
  lemma {:induction false} KeepKeyedNone<R>(right: seq<R>, rkey: R -> int)
    ensures KeepKeyed(right, rkey, {}) == []
  {
    if |right| > 0 {
      KeepKeyedNone(right[1..], rkey);
    }
  }

  /** With unique left keys, the join has one row per right row whose key the
      left table has. */
  lemma {:induction false} JoinCountsRight<L(!new), R(!new)>(left: seq<L>, right: seq<R>, lkey: L -> int, rkey: R -> int)
    requires UniqueKeys(left, lkey)
    ensures |InnerJoin(left, right, lkey, rkey)| == |KeepKeyed(right, rkey, KeysOf(left, lkey))|
  {
    if |left| == 0 {
      assert KeysOf(left, lkey) == {};
      KeepKeyedNone(right, rkey);
    } else {
      var rest := left[1..];
      assert UniqueKeys(rest, lkey) by {
        forall i, j | 0 <= i < j < |rest| ensures lkey(rest[i]) != lkey(rest[j]) {
          assert rest[i] == left[i + 1] && rest[j] == left[j + 1];
        }
      }
      JoinCountsRight(rest, right, lkey, rkey);
      var k := lkey(left[0]);
      assert k !in KeysOf(rest, lkey) by {
        forall i | 0 <= i < |rest| ensures lkey(rest[i]) != k {
          assert rest[i] == left[i + 1];
        }
      }
      assert KeysOf(left, lkey) == KeysOf(rest, lkey) + {k} by {
        forall x ensures x in KeysOf(left, lkey) <==> x in KeysOf(rest, lkey) + {k} {
          if x in KeysOf(left, lkey) && x != k {
            var i :| 0 <= i < |left| && lkey(left[i]) == x;
            assert rest[i - 1] == left[i];
          }
          if x in KeysOf(rest, lkey) {
            var i :| 0 <= i < |rest| && lkey(rest[i]) == x;
            assert left[i + 1] == rest[i];
          }
        }
      }
      KeepKeyedAddKey(right, rkey, KeysOf(rest, lkey), k);
    }
  }

  /** With unique left keys, the join has at most as many rows as the right table. */
  lemma JoinAtMostRight<L(!new), R(!new)>(left: seq<L>, right: seq<R>, lkey: L -> int, rkey: R -> int)
    requires UniqueKeys(left, lkey)
    ensures |InnerJoin(left, right, lkey, rkey)| <= |right|
  {
    JoinCountsRight(left, right, lkey, rkey);
  }

  /** With unique right keys, the join has at most as many rows as the left table. */
  lemma {:induction false} JoinAtMostLeft<L(!new), R(!new)>(left: seq<L>, right: seq<R>, lkey: L -> int, rkey: R -> int)
    requires UniqueKeys(right, rkey)
    ensures |InnerJoin(left, right, lkey, rkey)| <= |left|
  {
    if |left| > 0 {
      MatchingUnique(right, rkey, lkey(left[0]));
      JoinAtMostLeft(left[1..], right, lkey, rkey);
    }
  }

  /** A key occurs at most once in a table with unique keys. */
  lemma {:induction false} MatchingUnique<R(!new)>(right: seq<R>, rkey: R -> int, k: int)
    requires UniqueKeys(right, rkey)
    ensures |Matching(right, rkey, k)| <= 1
  {
    if |right| > 0 {
      assert UniqueKeys(right[1..], rkey) by {
        forall i, j | 0 <= i < j < |right[1..]| ensures rkey(right[1..][i]) != rkey(right[1..][j]) {
          assert right[1..][i] == right[i + 1] && right[1..][j] == right[j + 1];
        }
      }
      MatchingUnique(right[1..], rkey, k);
      assert forall x :: x in right[1..] ==> rkey(x) != rkey(right[0]) by {
        forall x | x in right[1..] ensures rkey(x) != rkey(right[0]) {
          var j :| 0 <= j < |right[1..]| && right[1..][j] == x;
          assert right[j + 1] == x;
        }
      }
      var m := Matching(right[1..], rkey, k);
      assert |m| > 0 ==> m[0] in right[1..] && rkey(m[0]) == k;
    }
  }

  /** The merged rows follow the trade rows that the other two tables also
      have, in the trade table's order, when the rate and news tables have one
      row per period. */
  lemma MergedPeriods<A(!new)>(trade: seq<ChangeRow>, rates: seq<RateRow>, news: seq<NewsRow<A>>)
    requires UniqueKeys(rates, RateKey) && UniqueKeys(news, NewsKey)
    ensures Firsts(Firsts(Joined(trade, rates, news)))
         == KeepKeyed(KeepKeyed(trade, TradeKey, KeysOf(rates, RateKey)), TradeKey, KeysOf(news, NewsKey))
  {
    var first := InnerJoin(trade, rates, TradeKey, RateKey);
    JoinKeepsLeftOrder(trade, rates, TradeKey, RateKey);
    JoinKeepsLeftOrder(first, news, PairKey, NewsKey);
    KeepKeyedFirsts(first, KeysOf(news, NewsKey));
  }

  /** Filtering the joined pairs by their trade key filters their trade rows. */
  lemma {:induction false} KeepKeyedFirsts(j: seq<(ChangeRow, RateRow)>, keys: set<int>)
    ensures Firsts(KeepKeyed(j, PairKey, keys)) == KeepKeyed(Firsts(j), TradeKey, keys)
  {
    if |j| > 0 {
      KeepKeyedFirsts(j[1..], keys);
      assert Firsts(j)[1..] == Firsts(j[1..]);
      var head: seq<(ChangeRow, RateRow)> := if PairKey(j[0]) in keys then [j[0]] else [];
      assert Firsts(head + KeepKeyed(j[1..], PairKey, keys)) == Firsts(head) + Firsts(KeepKeyed(j[1..], PairKey, keys));
    }
  }

  /** The date each merged row carries is the period it was joined on, so the
      key is recovered from the date. */
  lemma MergedDatesRoundTrip<A(!new)>(trade: seq<ChangeRow>, rates: seq<RateRow>, news: seq<NewsRow<A>>, i: nat)
    requires MergeDf(trade, rates, news).Success? && i < |MergeDf(trade, rates, news).value|
    ensures var d := MergeDf(trade, rates, news).value[i].refPeriod;
      ParsePeriodKey(DateKey(d)) == Success(d)
  {
    ParsePeriodKeyRoundTrip(MergeDf(trade, rates, news).value[i].refPeriod);
  }
}
