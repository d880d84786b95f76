/** `compile_data`: the customs CSV files of a folder are concatenated, reduced
    to three columns, summed by (period, flow) and pivoted so that each period
    becomes one row with an `ExportValue` and an `ImportValue` column. */
module Compile {
  import opened Wrappers
  import opened Text

  /** One row of a customs CSV file: the three columns the pipeline keeps and
      every other column, which it drops. */
  datatype CsvRow = CsvRow(refPeriodId: int, flowDesc: string, primaryValue: real, otherColumns: map<string, string>)

  /** A row after `data_concat[['RefPeriodId', 'FlowDesc', 'PrimaryValue']]`. */
  datatype Record = Record(refPeriodId: int, flowDesc: string, primaryValue: real)

  /** One row of the pivoted table; a cell is None (NaN) when the period has no
      row of that flow. */
  datatype TradeRow = TradeRow(refPeriodId: int, exportValue: Option<real>, importValue: Option<real>)

  /** The pivoted table. A flow that occurs in no row at all gives no column:
      `hasExport` / `hasImport` say whether the column exists. */
  datatype TradeTable = TradeTable(rows: seq<TradeRow>, hasExport: bool, hasImport: bool)

  const ExportFlow := "Export"
  const ImportFlow := "Import"
  const CsvSuffix := ".csv"

  // ---------------------------------------------------------------- files

  /** `os.path.join(folder, name)` for a name without a separator (as
      `os.listdir` yields): the folder, a `/` unless the folder is empty or
      already ends in one, then the name. */
  function JoinPath(folder: string, name: string): (p: string)
    ensures EndsWith(p, name)
    ensures p == folder + Separator(folder) + name
  {
    if folder == "" || EndsWith(folder, "/") then folder + name else folder + "/" + name
  }

  /** What `os.path.join` puts between the folder and the name: nothing when
      the folder is empty or already ends in `/`, otherwise one `/`. */
  function Separator(folder: string): (sep: string)
    ensures sep == "" <==> folder == "" || folder[|folder| - 1] == '/'
    ensures sep != "" ==> sep == "/"
  {
    if folder == "" || EndsWith(folder, "/") then "" else "/"
  }

  /** The paths the append loop collects: the `.csv` names of the listing, in
      listing order, joined to the folder. */
  function CsvPaths(folder: string, listing: seq<string>): (paths: seq<string>)
    ensures |paths| <= |listing|
  {
    if |listing| == 0 then []
    else
      var name := listing[|listing| - 1];
      CsvPaths(folder, listing[..|listing| - 1]) + (if EndsWith(name, CsvSuffix) then [JoinPath(folder, name)] else [])
  }

  /** Every collected path comes from a listed `.csv` name. */
  lemma {:induction false} CsvPathsSound(folder: string, listing: seq<string>, p: string)
    requires p in CsvPaths(folder, listing)
    ensures exists k :: 0 <= k < |listing| && EndsWith(listing[k], CsvSuffix) && p == JoinPath(folder, listing[k])
  {
    var init := listing[..|listing| - 1];
    if p in CsvPaths(folder, init) {
      CsvPathsSound(folder, init, p);
      var k :| 0 <= k < |init| && EndsWith(init[k], CsvSuffix) && p == JoinPath(folder, init[k]);
      assert listing[k] == init[k];
    } else {
      assert EndsWith(listing[|listing| - 1], CsvSuffix) && p == JoinPath(folder, listing[|listing| - 1]);
    }
  }

  /** Every listed `.csv` name is collected. */
  lemma {:induction false} CsvPathsComplete(folder: string, listing: seq<string>, k: nat)
    requires k < |listing| && EndsWith(listing[k], CsvSuffix)
    ensures JoinPath(folder, listing[k]) in CsvPaths(folder, listing)
  {
    var init := listing[..|listing| - 1];
    if k < |init| {
      assert init[k] == listing[k];
      CsvPathsComplete(folder, init, k);
    }
  }

  /** A path is collected exactly when some listed name ends in `.csv` and joins to it. */
  lemma CsvPathsMembers(folder: string, listing: seq<string>, p: string)
    ensures p in CsvPaths(folder, listing) <==>
            exists k :: 0 <= k < |listing| && EndsWith(listing[k], CsvSuffix) && p == JoinPath(folder, listing[k])
  {
    if p in CsvPaths(folder, listing) {
      CsvPathsSound(folder, listing, p);
    }
    if exists k :: 0 <= k < |listing| && EndsWith(listing[k], CsvSuffix) && p == JoinPath(folder, listing[k]) {
      var k :| 0 <= k < |listing| && EndsWith(listing[k], CsvSuffix) && p == JoinPath(folder, listing[k]);
      CsvPathsComplete(folder, listing, k);
    }
  }

  /** The loop of lines 23-26: keep the names ending in `.csv`, joined to the folder. */
  method CsvFileNames(folder: string, listing: seq<string>) returns (csvFiles: seq<string>)
    ensures csvFiles == CsvPaths(folder, listing)
  {
    csvFiles := [];
    var i := 0;
    while i < |listing|
      invariant 0 <= i <= |listing|
      invariant csvFiles == CsvPaths(folder, listing[..i])
    {
      var file := listing[i];
      assert listing[..i + 1][..i] == listing[..i];
      if EndsWith(file, CsvSuffix) {
        csvFiles := csvFiles + [JoinPath(folder, file)];
      }
      i := i + 1;
    }
    assert listing[..i] == listing;
  }

  /** `pd.concat([pd.read_csv(f) for f in paths])`, with the reader as a parameter. */
  function ReadAll(paths: seq<string>, readCsv: string -> seq<CsvRow>): seq<CsvRow>
  {
    if |paths| == 0 then [] else readCsv(paths[0]) + ReadAll(paths[1..], readCsv)
  }

  // ---------------------------------------------------------------- pivot

  function KeepColumns(rows: seq<CsvRow>): (recs: seq<Record>)
    ensures |recs| == |rows|
    ensures forall i :: 0 <= i < |rows| ==>
      recs[i] == Record(rows[i].refPeriodId, rows[i].flowDesc, rows[i].primaryValue)
  {
    seq(|rows|, i requires 0 <= i < |rows| => Record(rows[i].refPeriodId, rows[i].flowDesc, rows[i].primaryValue))
  }

  function PeriodSet(recs: seq<Record>): set<int> {
    set r | r in recs :: r.refPeriodId
  }

  function Periods(rows: seq<TradeRow>): (ps: seq<int>)
    ensures |ps| == |rows|
    ensures forall i :: 0 <= i < |rows| ==> ps[i] == rows[i].refPeriodId
  {
    seq(|rows|, i requires 0 <= i < |rows| => rows[i].refPeriodId)
  }

  predicate StrictlyIncreasing(s: seq<int>) {
    forall i, j :: 0 <= i < j < |s| ==> s[i] < s[j]
  }

  function Elements(s: seq<int>): set<int> {
    set x | x in s
  }

  /** Putting a smaller element in front keeps a sequence strictly increasing. */
  lemma ConsIncreasing(x: int, rest: seq<int>)
    requires StrictlyIncreasing(rest)
    requires |rest| > 0 ==> x < rest[0]
    ensures StrictlyIncreasing([x] + rest)
    ensures Elements([x] + rest) == {x} + Elements(rest)
  {
    var r := [x] + rest;
    forall i, j | 0 <= i < j < |r| ensures r[i] < r[j] {
      if i > 0 {
        assert r[i] == rest[i - 1] && r[j] == rest[j - 1];
      } else {
        assert r[j] == rest[j - 1] && rest[0] <= rest[j - 1];
      }
    }
  }

  /** Insert `p` into a strictly increasing sequence, unless already present. */
  function InsertSorted(s: seq<int>, p: int): (r: seq<int>)
    requires StrictlyIncreasing(s)
    ensures StrictlyIncreasing(r)
    ensures Elements(r) == Elements(s) + {p}
    ensures |r| > 0 && (r[0] == p || (|s| > 0 && r[0] == s[0]))
  {
    if |s| == 0 then [p]
    else if p < s[0] then ConsIncreasing(p, s); [p] + s
    else if p == s[0] then s
    else
      var rest := InsertSorted(s[1..], p);
      assert |s| > 1 ==> s[0] < s[1];
      ConsIncreasing(s[0], rest);
      ConsIncreasing(s[0], s[1..]);
      assert s == [s[0]] + s[1..];
      [s[0]] + rest
  }

  /** The distinct periods in ascending order, as `sort_values` and the pivot's
      index produce them. */
  function SortedPeriods(recs: seq<Record>): (ps: seq<int>)
    ensures StrictlyIncreasing(ps)
    ensures Elements(ps) == PeriodSet(recs)
  {
    if |recs| == 0 then []
    else
      var init := recs[..|recs| - 1];
      assert recs == init + [recs[|recs| - 1]];
      assert PeriodSet(recs) == PeriodSet(init) + {recs[|recs| - 1].refPeriodId};
      InsertSorted(SortedPeriods(init), recs[|recs| - 1].refPeriodId)
  }

  /** The sum of `PrimaryValue` over the records of one (period, flow) group. */
  function FlowSum(recs: seq<Record>, period: int, flow: string): real {
    if |recs| == 0 then 0.0
    else
      (if recs[0].refPeriodId == period && recs[0].flowDesc == flow then recs[0].primaryValue else 0.0)
      + FlowSum(recs[1..], period, flow)
  }

  predicate HasFlow(recs: seq<Record>, period: int, flow: string) {
    exists r :: r in recs && r.refPeriodId == period && r.flowDesc == flow
  }

  predicate AnyFlow(recs: seq<Record>, flow: string) {
    exists r :: r in recs && r.flowDesc == flow
  }

  /** One pivot cell under `aggfunc='sum'`: the group's sum, NaN for an empty group. */
  function PivotCell(recs: seq<Record>, period: int, flow: string): Option<real> {
    if HasFlow(recs, period, flow) then Some(FlowSum(recs, period, flow)) else None
  }

  /** `pd.pivot_table(..., index='RefPeriodId', columns='FlowDesc', aggfunc='sum')`
      followed by `reset_index` and the renaming to ExportValue/ImportValue. */
  function Pivot(recs: seq<Record>): (t: TradeTable)
    ensures StrictlyIncreasing(Periods(t.rows))
    ensures Elements(Periods(t.rows)) == PeriodSet(recs)
  {
    var ps := SortedPeriods(recs);
    var rows := seq(|ps|, i requires 0 <= i < |ps| =>
      TradeRow(ps[i], PivotCell(recs, ps[i], ExportFlow), PivotCell(recs, ps[i], ImportFlow)));
    assert Periods(rows) == ps;
    TradeTable(rows, AnyFlow(recs, ExportFlow), AnyFlow(recs, ImportFlow))
  }

  function Compile(rows: seq<CsvRow>): TradeTable {
    Pivot(KeepColumns(rows))
  }

  /** What `compile_data(folder)` returns, with the directory listing and the
      CSV reader as parameters. `pd.concat` of no frames raises ValueError. */
  function CompiledData(folder: string, listing: seq<string>, readCsv: string -> seq<CsvRow>): (r: Result<TradeTable>)
  {
    var paths := CsvPaths(folder, listing);
    if paths == [] then Failure(ValueError("No objects to concatenate"))
    else Success(Compile(ReadAll(paths, readCsv)))
  }

  /** `compile_data(folder)`: the file loop, then the concatenation and pivot. */
  method CompileData(folder: string, listing: seq<string>, readCsv: string -> seq<CsvRow>) returns (r: Result<TradeTable>)
    ensures r.Failure? <==> CsvPaths(folder, listing) == []
    ensures r.Failure? ==> r.error == ValueError("No objects to concatenate")
    ensures r.Success? ==> r.value == Compile(ReadAll(CsvPaths(folder, listing), readCsv))
    ensures r == CompiledData(folder, listing, readCsv)
  {
    var csvFiles := CsvFileNames(folder, listing);
    if csvFiles == [] {
      return Failure(ValueError("No objects to concatenate"));
    }
    var dataConcat := ReadAll(csvFiles, readCsv);
    r := Success(Compile(dataConcat));
  }

  // ---------------------------------------------------------------- properties

  /** The compiled table has exactly one row per distinct period of the input,
      in strictly ascending order, each cell is the group sum of its flow, and
      a flow column exists exactly when some input row has that flow. */
  lemma CompiledTableShape(rows: seq<CsvRow>)
    ensures var t := Compile(rows);
      && StrictlyIncreasing(Periods(t.rows))
      && (forall p :: p in Periods(t.rows) <==> exists row :: row in rows && row.refPeriodId == p)
      && (forall row :: row in t.rows ==>
            (row.exportValue.Some? <==> exists c :: c in rows && c.refPeriodId == row.refPeriodId && c.flowDesc == ExportFlow)
            && (row.importValue.Some? <==> exists c :: c in rows && c.refPeriodId == row.refPeriodId && c.flowDesc == ImportFlow)
            && (row.exportValue.Some? ==> row.exportValue.value == FlowSum(KeepColumns(rows), row.refPeriodId, ExportFlow))
            && (row.importValue.Some? ==> row.importValue.value == FlowSum(KeepColumns(rows), row.refPeriodId, ImportFlow)))
      && (t.hasExport <==> exists c :: c in rows && c.flowDesc == ExportFlow)
      && (t.hasImport <==> exists c :: c in rows && c.flowDesc == ImportFlow)
  {
    CompiledRows(rows);
    CompiledFlowColumns(rows, ExportFlow);
    CompiledFlowColumns(rows, ImportFlow);
  }

  /** The rows of the compiled table: its periods and its cells. */
  lemma CompiledRows(rows: seq<CsvRow>)
    ensures var t := Compile(rows);
      && StrictlyIncreasing(Periods(t.rows))
      && (forall p :: p in Periods(t.rows) <==> exists row :: row in rows && row.refPeriodId == p)
      && (forall row :: row in t.rows ==>
            (row.exportValue.Some? <==> exists c :: c in rows && c.refPeriodId == row.refPeriodId && c.flowDesc == ExportFlow)
            && (row.importValue.Some? <==> exists c :: c in rows && c.refPeriodId == row.refPeriodId && c.flowDesc == ImportFlow)
            && (row.exportValue.Some? ==> row.exportValue.value == FlowSum(KeepColumns(rows), row.refPeriodId, ExportFlow))
            && (row.importValue.Some? ==> row.importValue.value == FlowSum(KeepColumns(rows), row.refPeriodId, ImportFlow)))
  {
    var recs := KeepColumns(rows);
    var t := Compile(rows);
    forall p ensures p in Periods(t.rows) <==> exists row :: row in rows && row.refPeriodId == p {
      assert p in Periods(t.rows) <==> p in Elements(Periods(t.rows));
      if p in PeriodSet(recs) {
        var r :| r in recs && r.refPeriodId == p;
        var i :| 0 <= i < |recs| && recs[i] == r;
        assert rows[i] in rows;
      }
      if exists row :: row in rows && row.refPeriodId == p {
        var row :| row in rows && row.refPeriodId == p;
        var i :| 0 <= i < |rows| && rows[i] == row;
        assert recs[i] in recs;
      }
    }
    forall row, flow | row in t.rows && flow in {ExportFlow, ImportFlow}
      ensures HasFlow(recs, row.refPeriodId, flow) <==> exists c :: c in rows && c.refPeriodId == row.refPeriodId && c.flowDesc == flow
    {
      if HasFlow(recs, row.refPeriodId, flow) {
        var r :| r in recs && r.refPeriodId == row.refPeriodId && r.flowDesc == flow;
        var i :| 0 <= i < |recs| && recs[i] == r;
        assert rows[i] in rows;
      }
      if exists c :: c in rows && c.refPeriodId == row.refPeriodId && c.flowDesc == flow {
        var c :| c in rows && c.refPeriodId == row.refPeriodId && c.flowDesc == flow;
        var i :| 0 <= i < |rows| && rows[i] == c;
        assert recs[i] in recs;
      }
    }
  }

  /** A flow gets a column exactly when some input row has that flow. */
  lemma CompiledFlowColumns(rows: seq<CsvRow>, flow: string)
    ensures AnyFlow(KeepColumns(rows), flow) <==> exists c :: c in rows && c.flowDesc == flow
  {
    var recs := KeepColumns(rows);
    if AnyFlow(recs, flow) {
      var r :| r in recs && r.flowDesc == flow;
      var i :| 0 <= i < |recs| && recs[i] == r;
      assert rows[i] in rows;
    }
    if exists c :: c in rows && c.flowDesc == flow {
      var c :| c in rows && c.flowDesc == flow;
      var i :| 0 <= i < |rows| && rows[i] == c;
      assert recs[i] in recs;
    }
  }

  /** Summing distributes over concatenation. */
  lemma {:induction false} FlowSumAppend(a: seq<Record>, b: seq<Record>, period: int, flow: string)
    ensures FlowSum(a + b, period, flow) == FlowSum(a, period, flow) + FlowSum(b, period, flow)
  {
    if |a| > 0 {
      assert (a + b)[0] == a[0];
      assert (a + b)[1..] == a[1..] + b;
      FlowSumAppend(a[1..], b, period, flow);
    } else {
      assert a + b == b;
    }
  }

  /** Removing the element at `j` leaves the rest of the multiset. */
  lemma RemoveAt<T>(a: seq<T>, b: seq<T>, j: nat)
    requires |a| > 0 && multiset(a) == multiset(b)
    requires j < |b| && b[j] == a[0]
    ensures multiset(a[1..]) == multiset(b[..j] + b[j + 1..])
  {
    var x := a[0];
    assert a == [x] + a[1..];
    assert b == b[..j] + [x] + b[j + 1..];
    assert multiset(a[1..]) == multiset(a) - multiset{x};
    assert multiset(b[..j] + b[j + 1..]) == multiset(b) - multiset{x};
  }

  /** A group sum does not depend on the order of the records. */
  lemma {:induction false} FlowSumPermutation(a: seq<Record>, b: seq<Record>, period: int, flow: string)
    requires multiset(a) == multiset(b)
    ensures FlowSum(a, period, flow) == FlowSum(b, period, flow)
    decreases |a|
  {
    if |a| > 0 {
      var x := a[0];
      assert x in multiset(b);
      var j :| 0 <= j < |b| && b[j] == x;
      RemoveAt(a, b, j);
      FlowSumPermutation(a[1..], b[..j] + b[j + 1..], period, flow);
      FlowSumAppend(b[..j], b[j + 1..], period, flow);
      FlowSumAppend(b[..j], b[j..], period, flow);
      assert b[j..][1..] == b[j + 1..];
      assert b[..j] + b[j..] == b;
    } else {
      assert multiset(b) == multiset{};
    }
  }

  /** Two strictly increasing sequences with the same elements are equal. */
  lemma {:induction false} IncreasingDeterminedByElements(a: seq<int>, b: seq<int>)
    requires StrictlyIncreasing(a) && StrictlyIncreasing(b)
    requires Elements(a) == Elements(b)
    ensures a == b
    decreases |a|
  {
    assert |b| > 0 ==> b[0] in Elements(b);
    if |a| > 0 {
      assert a[0] in Elements(b);
      assert |b| > 0;
      assert b[0] in Elements(a);
      var i :| 0 <= i < |a| && a[i] == b[0];
      var j :| 0 <= j < |b| && b[j] == a[0];
      assert a[0] == b[0];
      assert Elements(a[1..]) == Elements(a) - {a[0]} by {
        assert a == [a[0]] + a[1..];
      }
      assert Elements(b[1..]) == Elements(b) - {b[0]} by {
        assert b == [b[0]] + b[1..];
      }
      IncreasingDeterminedByElements(a[1..], b[1..]);
      assert a == [a[0]] + a[1..] && b == [b[0]] + b[1..];
    }
  }

  /** The compiled table does not depend on the order in which the directory
      lists the files nor on the order of the rows inside them. */
  lemma CompileIgnoresRowOrder(a: seq<CsvRow>, b: seq<CsvRow>)
    requires multiset(a) == multiset(b)
    ensures Compile(a) == Compile(b)
  {
    var ra, rb := KeepColumns(a), KeepColumns(b);
    KeepColumnsPermutation(a, b);
    assert forall r :: r in ra <==> r in rb by {
      forall r ensures r in ra <==> r in rb {
        assert r in ra <==> r in multiset(ra);
        assert r in rb <==> r in multiset(rb);
      }
    }
    assert PeriodSet(ra) == PeriodSet(rb);
    IncreasingDeterminedByElements(SortedPeriods(ra), SortedPeriods(rb));
    forall p, f ensures PivotCell(ra, p, f) == PivotCell(rb, p, f) {
      FlowSumPermutation(ra, rb, p, f);
    }
    assert AnyFlow(ra, ExportFlow) == AnyFlow(rb, ExportFlow);
    assert AnyFlow(ra, ImportFlow) == AnyFlow(rb, ImportFlow);
  }

  /** Dropping columns commutes with concatenation. */
  lemma KeepColumnsAppend(a: seq<CsvRow>, b: seq<CsvRow>)
    ensures KeepColumns(a + b) == KeepColumns(a) + KeepColumns(b)
  {
  }

  /** Reordering the rows reorders the kept records the same way. */
  lemma {:induction false} KeepColumnsPermutation(a: seq<CsvRow>, b: seq<CsvRow>)
    requires multiset(a) == multiset(b)
    ensures multiset(KeepColumns(a)) == multiset(KeepColumns(b))
    decreases |a|
  {
    if |a| > 0 {
      var x := a[0];
      assert x in multiset(b);
      var j :| 0 <= j < |b| && b[j] == x;
      var rest := b[..j] + b[j + 1..];
      RemoveAt(a, b, j);
      assert b == b[..j] + [x] + b[j + 1..];
      assert a == [x] + a[1..];
      KeepColumnsPermutation(a[1..], rest);
      KeepColumnsAppend([x], a[1..]);
      KeepColumnsAppend(b[..j], b[j + 1..]);
      KeepColumnsAppend(b[..j] + [x], b[j + 1..]);
      KeepColumnsAppend(b[..j], [x]);
    }
  }

  /** Only the period, flow and value columns reach the compiled table: rows
      that agree on those three give the same table whatever else they hold. */
  lemma CompileIgnoresOtherColumns(a: seq<CsvRow>, b: seq<CsvRow>)
    requires |a| == |b|
    requires forall i :: 0 <= i < |a| ==>
      a[i].refPeriodId == b[i].refPeriodId && a[i].flowDesc == b[i].flowDesc && a[i].primaryValue == b[i].primaryValue
    ensures Compile(a) == Compile(b)
  {
    assert KeepColumns(a) == KeepColumns(b);
  }
}
