/** `calculate_export_import_change`: month-over-month percentage change of the
    export and import values, with row 0 measured against 0 and the in-place
    loop that zeroes every entry up to an infinite one. */
module TradeChange {
  import opened Wrappers
  import opened Numeric
  import opened Compile

  /** A row of the returned frame: the pivoted row plus its two change columns. */
  datatype ChangeRow = ChangeRow(
    refPeriodId: int,
    exportValue: Option<real>,
    importValue: Option<real>,
    changeInExport: Change,
    changeInImport: Change)

  function ExportValues(rows: seq<TradeRow>): (v: seq<Option<real>>)
    ensures |v| == |rows| && forall i :: 0 <= i < |rows| ==> v[i] == rows[i].exportValue
  {
    seq(|rows|, i requires 0 <= i < |rows| => rows[i].exportValue)
  }

  function ImportValues(rows: seq<TradeRow>): (v: seq<Option<real>>)
    ensures |v| == |rows| && forall i :: 0 <= i < |rows| ==> v[i] == rows[i].importValue
  {
    seq(|rows|, i requires 0 <= i < |rows| => rows[i].importValue)
  }

  /** The change column before the loop: `shift(1)` with row 0's previous value
      overwritten by 0, then `round((cur - prev) / prev * 100, 3)`. */
  function RawTradeChanges(values: seq<Option<real>>): (c: seq<Change>)
    ensures |c| == |values|
  {
    seq(|values|, i requires 0 <= i < |values| =>
      PercentChange(values[i], if i == 0 then Some(0.0) else values[i - 1]))
  }

  /** The position of the last infinite entry, or -1 when there is none. */
  function LastInfinite(s: seq<Change>): (k: int)
    ensures -1 <= k < |s|
    ensures k >= 0 ==> s[k].IsInf()
    ensures forall j :: k < j < |s| ==> !s[j].IsInf()
  {
    if |s| == 0 then -1
    else if s[|s| - 1].IsInf() then |s| - 1
    else LastInfinite(s[..|s| - 1])
  }

  function Zeros(n: nat): (z: seq<Change>)
    ensures |z| == n && forall j :: 0 <= j < n ==> z[j] == Fin(0.0)
  {
    seq(n, _ => Fin(0.0))
  }

  /** What the zeroing loop leaves: defined from the end, where the last infinite
      entry wipes out everything before it. */
  function ZeroedThroughLastInfinite(s: seq<Change>): (r: seq<Change>)
    ensures |r| == |s|
    ensures forall j :: 0 <= j < |s| ==> !r[j].IsInf()
    ensures forall j :: 0 <= j <= LastInfinite(s) ==> r[j] == Fin(0.0)
    ensures forall j :: LastInfinite(s) < j < |s| ==> r[j] == s[j]
  {
    if |s| == 0 then []
    else if s[|s| - 1].IsInf() then Zeros(|s|)
    else ZeroedThroughLastInfinite(s[..|s| - 1]) + [s[|s| - 1]]
  }

  /** The loop `for i, value in enumerate(col): if math.isinf(value):
      df.loc[0:i, col] = 0`, in place on the column. */
  method ZeroThroughLastInfinite(a: array<Change>)
    modifies a
    ensures a[..] == ZeroedThroughLastInfinite(old(a[..]))
  {
    ghost var s := a[..];
    var i := 0;
    while i < a.Length
      invariant 0 <= i <= a.Length
      invariant forall j :: 0 <= j < i ==> a[j] == (if j <= LastInfinite(s[..i]) then Fin(0.0) else s[j])
      invariant forall j :: i <= j < a.Length ==> a[j] == s[j]
    {
      assert s[..i + 1][..i] == s[..i];
      if a[i].IsInf() {
        forall j | 0 <= j <= i {
          a[j] := Fin(0.0);
        }
      }
      i := i + 1;
    }
    assert s[..i] == s;
  }

  /** One change column as the function returns it. */
  function ColumnChanges(values: seq<Option<real>>): (c: seq<Change>)
    ensures |c| == |values|
    ensures forall i :: 0 <= i < |c| ==> !c[i].IsInf()
  {
    ZeroedThroughLastInfinite(RawTradeChanges(values))
  }

  function WithChanges(rows: seq<TradeRow>, ce: seq<Change>, ci: seq<Change>): (r: seq<ChangeRow>)
    requires |ce| == |rows| && |ci| == |rows|
    ensures |r| == |rows|
  {
    seq(|rows|, i requires 0 <= i < |rows| =>
      ChangeRow(rows[i].refPeriodId, rows[i].exportValue, rows[i].importValue, ce[i], ci[i]))
  }

  /** The frame `calculate_export_import_change` returns: IndexError on an empty
      frame (`df.index[0]`), KeyError for a missing value column. */
  function ChangeTable(t: TradeTable): (r: Result<seq<ChangeRow>>)
    ensures r.Failure? <==> |t.rows| == 0 || !t.hasExport || !t.hasImport
    ensures |t.rows| == 0 ==> r == Failure(IndexError)
    ensures |t.rows| > 0 && !t.hasExport ==> r == Failure(KeyError("ExportValue"))
    ensures |t.rows| > 0 && t.hasExport && !t.hasImport ==> r == Failure(KeyError("ImportValue"))
    ensures r.Success? ==> |r.value| == |t.rows|
  {
    if |t.rows| == 0 then Failure(IndexError)
    else if !t.hasExport then Failure(KeyError("ExportValue"))
    else if !t.hasImport then Failure(KeyError("ImportValue"))
    else Success(WithChanges(t.rows, ColumnChanges(ExportValues(t.rows)), ColumnChanges(ImportValues(t.rows))))
  }

  /** The function itself: both change columns are computed whole, then each is
      corrected in place by the zeroing loop. */
  method CalculateExportImportChange(t: TradeTable) returns (r: Result<seq<ChangeRow>>)
    ensures r == ChangeTable(t)
  {
    var n := |t.rows|;
    if n == 0 {
      return Failure(IndexError);
    }
    if !t.hasExport {
      return Failure(KeyError("ExportValue"));
    }
    if !t.hasImport {
      return Failure(KeyError("ImportValue"));
    }
    var rawExport := RawTradeChanges(ExportValues(t.rows));
    var rawImport := RawTradeChanges(ImportValues(t.rows));
    var changeInExport := new Change[n](i requires 0 <= i < n => rawExport[i]);
    var changeInImport := new Change[n](i requires 0 <= i < n => rawImport[i]);
    assert changeInExport[..] == rawExport;
    assert changeInImport[..] == rawImport;
    ZeroThroughLastInfinite(changeInExport);
    ZeroThroughLastInfinite(changeInImport);
    r := Success(WithChanges(t.rows, changeInExport[..], changeInImport[..]));
  }

  // ---------------------------------------------------------------- properties

  /** Entry i of a change column: 0 up to the last infinite raw change, the
      change against the previous value (against 0 for row 0) after it. */
  lemma ColumnChangeAt(values: seq<Option<real>>, i: nat)
    requires i < |values|
    ensures ColumnChanges(values)[i] ==
      (if i <= LastInfinite(RawTradeChanges(values)) then Fin(0.0)
       else PercentChange(values[i], if i == 0 then Some(0.0) else values[i - 1]))
  {
    var raw := RawTradeChanges(values);
    assert raw[i] == PercentChange(values[i], if i == 0 then Some(0.0) else values[i - 1]);
  }

  /** Every row keeps its period and values and gets the column changes at its
      position; no change is infinite. */
  lemma ChangeTableRows(t: TradeTable, i: nat)
    requires t.hasExport && t.hasImport && i < |t.rows|
    ensures var row := ChangeTable(t).value[i];
      && row.refPeriodId == t.rows[i].refPeriodId
      && row.exportValue == t.rows[i].exportValue
      && row.importValue == t.rows[i].importValue
      && row.changeInExport == ColumnChanges(ExportValues(t.rows))[i]
      && row.changeInImport == ColumnChanges(ImportValues(t.rows))[i]
      && !row.changeInExport.IsInf() && !row.changeInImport.IsInf()
  {
    var ce, ci := ColumnChanges(ExportValues(t.rows)), ColumnChanges(ImportValues(t.rows));
    assert ChangeTable(t).value == WithChanges(t.rows, ce, ci);
  }

  /** Row 0 is measured against 0: a non-zero first value gives an infinity that
      the loop turns into 0, while a zero or missing first value gives NaN, which
      stays unless a later entry is infinite. */
  lemma FirstRowChange(values: seq<Option<real>>)
    requires |values| > 0
    ensures values[0].Some? && values[0].value != 0.0 ==> ColumnChanges(values)[0] == Fin(0.0)
    ensures values[0].None? || values[0] == Some(0.0) ==>
      (ColumnChanges(values)[0] == NaN <==> forall j :: 0 < j < |values| ==> !RawTradeChanges(values)[j].IsInf())
  {
    var raw := RawTradeChanges(values);
    if values[0].None? || values[0] == Some(0.0) {
      assert raw[0] == NaN;
      if forall j :: 0 < j < |values| ==> !raw[j].IsInf() {
        assert LastInfinite(raw) == -1;
      } else {
        var j :| 0 < j < |values| && raw[j].IsInf();
        assert LastInfinite(raw) >= j;
      }
    }
  }

  /** A zero previous value followed by a non-zero one gives an infinity, so the
      row — and every row before it — ends up at 0. */
  lemma InfinityZeroesPrefix(values: seq<Option<real>>, i: nat)
    requires 0 < i < |values|
    requires values[i - 1] == Some(0.0) && values[i].Some? && values[i].value != 0.0
    ensures forall j :: 0 <= j <= i ==> ColumnChanges(values)[j] == Fin(0.0)
  {
    var raw := RawTradeChanges(values);
    assert raw[i].IsInf();
    assert LastInfinite(raw) >= i;
  }

  /** Entries after the last infinite one keep the value the formula gave them. */
  lemma LaterChangesUntouched(values: seq<Option<real>>, i: nat)
    requires 0 < i < |values|
    requires forall j :: i <= j < |values| ==> !RawTradeChanges(values)[j].IsInf()
    ensures ColumnChanges(values)[i] == PercentChange(values[i], values[i - 1])
  {
    var raw := RawTradeChanges(values);
    assert LastInfinite(raw) < i;
  }

  /** The worked example: exports 100 then 150 and imports 50 then 50 give
      changes 0 and 50 for exports and 0 and 0 for imports. */
  lemma TwoMonthExample()
    ensures ChangeTable(TradeTable([TradeRow(20100101, Some(100.0), Some(50.0)),
                                    TradeRow(20100201, Some(150.0), Some(50.0))], true, true))
         == Success([ChangeRow(20100101, Some(100.0), Some(50.0), Fin(0.0), Fin(0.0)),
                     ChangeRow(20100201, Some(150.0), Some(50.0), Fin(50.0), Fin(0.0))])
  {
    var rows := [TradeRow(20100101, Some(100.0), Some(50.0)), TradeRow(20100201, Some(150.0), Some(50.0))];
    var rawEx := RawTradeChanges(ExportValues(rows));
    var rawIm := RawTradeChanges(ImportValues(rows));
    Round3Exact(50000);
    Round3Exact(0);
    assert rawEx == [PosInf, Fin(50.0)];
    assert rawIm == [PosInf, Fin(0.0)];
    assert LastInfinite(rawEx) == 0;
    assert LastInfinite(rawIm) == 0;
    assert ColumnChanges(ExportValues(rows)) == [Fin(0.0), Fin(50.0)];
    assert ColumnChanges(ImportValues(rows)) == [Fin(0.0), Fin(0.0)];
    var expected := [ChangeRow(20100101, Some(100.0), Some(50.0), Fin(0.0), Fin(0.0)),
                     ChangeRow(20100201, Some(150.0), Some(50.0), Fin(50.0), Fin(0.0))];
    assert WithChanges(rows, [Fin(0.0), Fin(50.0)], [Fin(0.0), Fin(0.0)]) == expected;
  }

  /** A single month whose value is 0 keeps a NaN change: 0/0 is not infinite. */
  lemma ZeroFirstMonthStaysNaN()
    ensures ColumnChanges([Some(0.0)]) == [NaN]
  {
    assert RawTradeChanges([Some(0.0)]) == [NaN];
  }
}
