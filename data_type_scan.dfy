/**
 * `validate_data_types`: the SELECT statement issued for one table, and the
 * scan of the fetched rows that records one violation per cell whose value
 * fails its column's expected type.
 *
 * The database is not modelled: the rows the statement fetched are an input,
 * each holding one value per configured column, in declared order.
 */
module DataTypeScan {
  import opened PyValues
  import opened TypeValidation

  /** One entry of the ordered column map: (column name, expected-type name). */
  type Column = (string, string)

  /** A parameterised SQL statement: its text and the values bound to its `%s` markers. */
  datatype Statement = Statement(sql: string, params: seq<int>)

  /** The default number of most recent rows read per table. */
  const DefaultLimit: int := 1000

  const OrderAndLimit: string := " ORDER BY ref_date DESC LIMIT %s"

  // ---------------------------------------------------------------------------
  // Query text
  // ---------------------------------------------------------------------------

  /** `columns.keys()`, in declared order. */
  function ColumnNames(columns: seq<Column>): seq<string> {
    seq(|columns|, i requires 0 <= i < |columns| => columns[i].0)
  }

  /** `sep.join(parts)` */
  function Join(parts: seq<string>, sep: string): string {
    if |parts| == 0 then ""
    else if |parts| == 1 then parts[0]
    else parts[0] + sep + Join(parts[1..], sep)
  }

  /** The pieces of `s` between occurrences of ", ", read left to right. */
  function SplitOnCommaSpace(s: string): (pieces: seq<string>)
    ensures |pieces| >= 1
  {
    if |s| < 2 then [s]
    else if s[0] == ',' && s[1] == ' ' then [""] + SplitOnCommaSpace(s[2..])
    else
      var rest := SplitOnCommaSpace(s[1..]);
      [[s[0]] + rest[0]] + rest[1..]
  }

  /** The select list: the column names, in declared order, separated by ", ". */
  function SelectList(columns: seq<Column>): string {
    Join(ColumnNames(columns), ", ")
  }

  /** The statement issued for `table`, reading its `limit` most recent rows. */
  function SelectStatement(table: string, columns: seq<Column>, limit: int): Statement {
    Statement("SELECT " + SelectList(columns) + " FROM " + table + OrderAndLimit, [limit])
  }

  predicate NoComma(name: string) {
    ',' !in name
  }

  lemma {:induction false} SplitCommaFree(a: string)
    requires NoComma(a)
    ensures SplitOnCommaSpace(a) == [a]
    decreases |a|
  {
    if |a| >= 2 {
      SplitCommaFree(a[1..]);
      assert [a[0]] + a[1..] == a;
    }
  }

  lemma {:induction false} SplitAfterCommaFree(a: string, b: string)
    requires NoComma(a)
    ensures SplitOnCommaSpace(a + ", " + b) == [a] + SplitOnCommaSpace(b)
    decreases |a|
  {
    var s := a + ", " + b;
    if |a| == 0 {
      assert s[2..] == b;
    } else {
      assert s[1..] == a[1..] + ", " + b;
      SplitAfterCommaFree(a[1..], b);
      assert [a[0]] + a[1..] == a;
    }
  }

  /** Splitting a joined list of comma-free names at ", " gives the names back. */
  lemma {:induction false} JoinSplitRoundTrip(names: seq<string>)
    requires |names| >= 1
    requires forall i :: 0 <= i < |names| ==> NoComma(names[i])
    ensures SplitOnCommaSpace(Join(names, ", ")) == names
  {
    if |names| == 1 {
      SplitCommaFree(names[0]);
    } else {
      JoinSplitRoundTrip(names[1..]);
      SplitAfterCommaFree(names[0], Join(names[1..], ", "));
      assert names == [names[0]] + names[1..];
    }
  }

  /**
   * The statement selects exactly the configured columns, in declared order,
   * from `table`, newest `ref_date` first, with `limit` as its one parameter.
   */
  lemma QuerySelectsColumns(table: string, columns: seq<Column>, limit: int)
    requires |columns| >= 1
    requires forall i :: 0 <= i < |columns| ==> NoComma(columns[i].0)
    ensures SelectStatement(table, columns, limit).params == [limit]
    ensures exists list ::
      SelectStatement(table, columns, limit).sql
        == "SELECT " + list + " FROM " + table + " ORDER BY ref_date DESC LIMIT %s"
      && SplitOnCommaSpace(list) == ColumnNames(columns)
  {
    JoinSplitRoundTrip(ColumnNames(columns));
    var list := SelectList(columns);
    assert SplitOnCommaSpace(list) == ColumnNames(columns);
  }

  // ---------------------------------------------------------------------------
  // Violations
  // ---------------------------------------------------------------------------

  /** A failing cell, before its row is attached: (table, column, value, expected type). */
  datatype CellError = CellError(table: string, column: string, value: Value, expectedType: string)

  /** A failing cell with its full source row: (table, column, value, expected type, row). */
  datatype Violation = Violation(table: string, column: string, value: Value, expectedType: string, row: seq<Value>)

  /** `error + (row,)` */
  function WithRow(e: CellError, row: seq<Value>): Violation {
    Violation(e.table, e.column, e.value, e.expectedType, row)
  }

  /** Every fetched row has one value per configured column. */
  predicate RowsFit(columns: seq<Column>, rows: seq<seq<Value>>) {
    forall r :: 0 <= r < |rows| ==> |rows[r]| == |columns|
  }

  /** The value at column position `c` fails that column's expected type. */
  predicate CellFails(columns: seq<Column>, row: seq<Value>, c: int)
    requires |row| == |columns|
  {
    0 <= c < |columns| && !ValidateType(row[c], columns[c].1)
  }

  /** The errors a row produces in its first `n` columns, in column order. */
  function CellErrors(table: string, columns: seq<Column>, row: seq<Value>, n: nat): seq<CellError>
    requires n <= |columns| == |row|
  {
    if n == 0 then []
    else
      var c := n - 1;
      CellErrors(table, columns, row, c)
        + if ValidateType(row[c], columns[c].1) then [] else [CellError(table, columns[c].0, row[c], columns[c].1)]
  }

  function AttachRow(errors: seq<CellError>, row: seq<Value>): seq<Violation> {
    seq(|errors|, k requires 0 <= k < |errors| => WithRow(errors[k], row))
  }

  /** The violations of `rows`, row by row in fetch order, each row's in column order. */
  function ScanViolations(table: string, columns: seq<Column>, rows: seq<seq<Value>>): seq<Violation>
    requires RowsFit(columns, rows)
  {
    if |rows| == 0 then []
    else
      var last := rows[|rows| - 1];
      ScanViolations(table, columns, rows[..|rows| - 1])
        + AttachRow(CellErrors(table, columns, last, |columns|), last)
  }

  lemma CellErrorsExtend(table: string, columns: seq<Column>, row: seq<Value>, c: nat)
    requires c < |columns| == |row|
    ensures CellErrors(table, columns, row, c + 1)
      == CellErrors(table, columns, row, c)
         + if ValidateType(row[c], columns[c].1) then [] else [CellError(table, columns[c].0, row[c], columns[c].1)]
  {
  }

  lemma AttachRowExtend(errors: seq<CellError>, row: seq<Value>, j: nat)
    requires j < |errors|
    ensures AttachRow(errors[..j + 1], row) == AttachRow(errors[..j], row) + [WithRow(errors[j], row)]
  {
  }

  lemma ScanViolationsExtend(table: string, columns: seq<Column>, rows: seq<seq<Value>>, i: nat)
    requires RowsFit(columns, rows) && i < |rows|
    ensures RowsFit(columns, rows[..i]) && RowsFit(columns, rows[..i + 1])
    ensures ScanViolations(table, columns, rows[..i + 1])
      == ScanViolations(table, columns, rows[..i])
         + AttachRow(CellErrors(table, columns, rows[i], |columns|), rows[i])
  {
    assert rows[..i + 1][..i] == rows[..i];
  }

  /**
   * Issues the SELECT for `table` and scans the rows it fetched: for each row,
   * collects the failing cells in column order, then appends each with the row.
   */
  method ValidateDataTypes(table: string, columns: seq<Column>, rows: seq<seq<Value>>, limit: int := DefaultLimit)
    returns (query: Statement, validationErrors: seq<Violation>)
    requires RowsFit(columns, rows)
    ensures query == SelectStatement(table, columns, limit)
    ensures validationErrors == ScanViolations(table, columns, rows)
  {
    validationErrors := [];
    query := SelectStatement(table, columns, limit);
    for i := 0 to |rows|
      invariant validationErrors == ScanViolations(table, columns, rows[..i])
    {
      var row := rows[i];
      var rowErrors: seq<CellError> := [];
      for idx := 0 to |columns|
        invariant rowErrors == CellErrors(table, columns, row, idx)
      {
        var (column, expectedType) := columns[idx];
        var value := row[idx];
        if !ValidateType(value, expectedType) {
          rowErrors := rowErrors + [CellError(table, column, value, expectedType)];
        }
        CellErrorsExtend(table, columns, row, idx);
      }
      if |rowErrors| > 0 {
        ghost var before := validationErrors;
        for j := 0 to |rowErrors|
          invariant validationErrors == before + AttachRow(rowErrors[..j], row)
        {
          validationErrors := validationErrors + [WithRow(rowErrors[j], row)];
          AttachRowExtend(rowErrors, row, j);
        }
        assert rowErrors[..|rowErrors|] == rowErrors;
      }
      ScanViolationsExtend(table, columns, rows, i);
    }
    assert rows[..|rows|] == rows;
  }

  // ---------------------------------------------------------------------------
  // What the scan returns, cell by cell
  // ---------------------------------------------------------------------------

  /** The failing column positions among the first `n`, ascending. */
  ghost function FailingColumns(columns: seq<Column>, row: seq<Value>, n: nat): seq<int>
    requires n <= |columns| == |row|
  {
    if n == 0 then []
    else FailingColumns(columns, row, n - 1) + if CellFails(columns, row, n - 1) then [n - 1] else []
  }

  /** The failing (row, column) positions of `rows`, in row-major order. */
  ghost function FailingPositions(columns: seq<Column>, rows: seq<seq<Value>>): seq<(int, int)>
    requires RowsFit(columns, rows)
  {
    if |rows| == 0 then []
    else
      var r := |rows| - 1;
      var cs := FailingColumns(columns, rows[r], |columns|);
      FailingPositions(columns, rows[..r]) + seq(|cs|, k requires 0 <= k < |cs| => (r, cs[k]))
  }

  /** The set of failing cells, as (row, column) pairs. */
  ghost function FailingCells(columns: seq<Column>, rows: seq<seq<Value>>): set<(int, int)>
    requires RowsFit(columns, rows)
  {
    set r, c | 0 <= r < |rows| && 0 <= c < |columns| && CellFails(columns, rows[r], c) :: (r, c)
  }

  /** The violation the scan reports for the cell at `p`. */
  function ViolationAt(table: string, columns: seq<Column>, rows: seq<seq<Value>>, p: (int, int)): Violation
    requires RowsFit(columns, rows) && 0 <= p.0 < |rows| && 0 <= p.1 < |columns|
  {
    Violation(table, columns[p.1].0, rows[p.0][p.1], columns[p.1].1, rows[p.0])
  }

  predicate LexLess(p: (int, int), q: (int, int)) {
    p.0 < q.0 || (p.0 == q.0 && p.1 < q.1)
  }

  /** Positions in strictly increasing row-major order. */
  predicate RowMajor(ps: seq<(int, int)>) {
    forall i, j :: 0 <= i < j < |ps| ==> LexLess(ps[i], ps[j])
  }

  lemma {:induction false} FailingColumnsExact(columns: seq<Column>, row: seq<Value>, n: nat)
    requires n <= |columns| == |row|
    ensures forall c :: c in FailingColumns(columns, row, n) <==> 0 <= c < n && CellFails(columns, row, c)
    ensures forall i, j :: 0 <= i < j < |FailingColumns(columns, row, n)| ==>
      FailingColumns(columns, row, n)[i] < FailingColumns(columns, row, n)[j]
  {
    if n > 0 {
      var pre := FailingColumns(columns, row, n - 1);
      FailingColumnsExact(columns, row, n - 1);
      forall i | 0 <= i < |pre| ensures pre[i] < n - 1 {
        assert pre[i] in pre;
      }
      if CellFails(columns, row, n - 1) {
        assert FailingColumns(columns, row, n) == pre + [n - 1];
      } else {
        assert FailingColumns(columns, row, n) == pre;
      }
    }
  }

  lemma {:induction false} CellErrorsAt(table: string, columns: seq<Column>, row: seq<Value>, n: nat)
    requires n <= |columns| == |row|
    ensures var cs := FailingColumns(columns, row, n);
      |CellErrors(table, columns, row, n)| == |cs|
      && forall k :: 0 <= k < |cs| ==>
           (0 <= cs[k] < |columns|
            && CellErrors(table, columns, row, n)[k]
               == CellError(table, columns[cs[k]].0, row[cs[k]], columns[cs[k]].1))
  {
    if n > 0 {
      var c := n - 1;
      CellErrorsAt(table, columns, row, c);
      FailingColumnsExact(columns, row, c);
      CellErrorsExtend(table, columns, row, c);
      var pre := CellErrors(table, columns, row, c);
      var preCs := FailingColumns(columns, row, c);
      var es := CellErrors(table, columns, row, n);
      var cs := FailingColumns(columns, row, n);
      forall k | 0 <= k < |preCs| ensures 0 <= preCs[k] < c {
        assert preCs[k] in preCs;
      }
      if ValidateType(row[c], columns[c].1) {
        assert cs == preCs && es == pre;
      } else {
        assert cs == preCs + [c];
        assert es == pre + [CellError(table, columns[c].0, row[c], columns[c].1)];
        forall k | 0 <= k < |cs|
          ensures 0 <= cs[k] < |columns|
          ensures es[k] == CellError(table, columns[cs[k]].0, row[cs[k]], columns[cs[k]].1)
        {
          if k < |preCs| {
            assert cs[k] == preCs[k] && es[k] == pre[k];
          }
        }
      }
    }
  }

  /**
   * The k-th reported violation is the k-th failing cell in row-major order,
   * carrying its column name, value, expected type and full row.
   */
  lemma {:induction false} ScanViolationsAt(table: string, columns: seq<Column>, rows: seq<seq<Value>>)
    requires RowsFit(columns, rows)
    ensures var ps := FailingPositions(columns, rows);
      |ScanViolations(table, columns, rows)| == |ps|
      && forall k :: 0 <= k < |ps| ==>
           (0 <= ps[k].0 < |rows| && 0 <= ps[k].1 < |columns|
            && ScanViolations(table, columns, rows)[k] == ViolationAt(table, columns, rows, ps[k]))
  {
    if |rows| > 0 {
      var r := |rows| - 1;
      var prefix := rows[..r];
      ScanViolationsAt(table, columns, prefix);
      CellErrorsAt(table, columns, rows[r], |columns|);
      var ps := FailingPositions(columns, rows);
      var pre := FailingPositions(columns, prefix);
      forall k | 0 <= k < |ps|
        ensures 0 <= ps[k].0 < |rows| && 0 <= ps[k].1 < |columns|
        ensures ScanViolations(table, columns, rows)[k] == ViolationAt(table, columns, rows, ps[k])
      {
        if k < |pre| {
          assert rows[ps[k].0] == prefix[ps[k].0];
        }
      }
    }
  }

  /** The failing positions are exactly the failing cells, in strictly row-major order. */
  lemma {:induction false} FailingPositionsExact(columns: seq<Column>, rows: seq<seq<Value>>)
    requires RowsFit(columns, rows)
    ensures var ps := FailingPositions(columns, rows);
      (forall p :: p in ps <==> p in FailingCells(columns, rows))
      && RowMajor(ps)
  {
    if |rows| > 0 {
      var r := |rows| - 1;
      var prefix := rows[..r];
      FailingPositionsExact(columns, prefix);
      FailingColumnsExact(columns, rows[r], |columns|);
      var ps := FailingPositions(columns, rows);
      var pre := FailingPositions(columns, prefix);
      var cs := FailingColumns(columns, rows[r], |columns|);
      var tail := seq(|cs|, k requires 0 <= k < |cs| => (r, cs[k]));
      assert ps == pre + tail;
      FailingCellsExtend(columns, rows);
      forall p
        ensures p in ps <==> p in FailingCells(columns, rows)
      {
        if p in tail {
          var k :| 0 <= k < |tail| && tail[k] == p;
          assert p.0 == r && cs[k] in cs;
        }
        if p.0 == r && p.1 in cs {
          var k :| 0 <= k < |cs| && cs[k] == p.1;
          assert tail[k] == p;
        }
      }
      assert RowMajor(pre);
      forall i, j | 0 <= i < j < |ps|
        ensures LexLess(ps[i], ps[j])
      {
        if j < |pre| {
          assert ps[i] == pre[i] && ps[j] == pre[j];
        } else if i < |pre| {
          assert pre[i] in pre;
          assert pre[i] in FailingCells(columns, prefix);
          assert ps[i] == pre[i] && pre[i].0 < r;
          assert ps[j] == tail[j - |pre|];
          assert ps[j].0 == r;
        } else {
          assert ps[i] == tail[i - |pre|] && ps[j] == tail[j - |pre|];
          assert cs[i - |pre|] < cs[j - |pre|];
        }
      }
    }
  }

  /** The failing cells of `rows` are those of all rows but the last, plus the last row's failing columns. */
  lemma FailingCellsExtend(columns: seq<Column>, rows: seq<seq<Value>>)
    requires RowsFit(columns, rows) && |rows| > 0
    ensures var r := |rows| - 1;
      FailingCells(columns, rows)
        == FailingCells(columns, rows[..r])
           + (set c | c in FailingColumns(columns, rows[r], |columns|) :: (r, c))
  {
    var r := |rows| - 1;
    var prefix := rows[..r];
    var cs := FailingColumns(columns, rows[r], |columns|);
    FailingColumnsExact(columns, rows[r], |columns|);
    var last := set c | c in cs :: (r, c);
    forall p
      ensures p in FailingCells(columns, rows) <==> p in FailingCells(columns, prefix) + last
    {
      var (a, b) := p;
      if p in FailingCells(columns, rows) {
        if a < r {
          assert prefix[a] == rows[a];
          assert p in FailingCells(columns, prefix);
        } else {
          assert b in cs;
        }
      }
      if p in FailingCells(columns, prefix) {
        assert prefix[a] == rows[a];
        assert p in FailingCells(columns, rows);
      }
      if p in last {
        assert a == r && b in cs;
        assert p in FailingCells(columns, rows);
      }
    }
  }

  lemma {:induction false} DistinctCardinality<T>(s: seq<T>)
    requires forall i, j :: 0 <= i < j < |s| ==> s[i] != s[j]
    ensures |set x | x in s| == |s|
  {
    if |s| > 0 {
      var init := s[..|s| - 1];
      DistinctCardinality(init);
      assert (set x | x in s) == (set x | x in init) + {s[|s| - 1]};
    }
  }

  /** The scan reports exactly as many violations as there are failing cells. */
  lemma ScanCountsFailingCells(table: string, columns: seq<Column>, rows: seq<seq<Value>>)
    requires RowsFit(columns, rows)
    ensures |ScanViolations(table, columns, rows)| == |FailingCells(columns, rows)|
  {
    var ps := FailingPositions(columns, rows);
    ScanViolationsAt(table, columns, rows);
    FailingPositionsExact(columns, rows);
    DistinctCardinality(ps);
    assert (set x | x in ps) == FailingCells(columns, rows);
  }

  /** The scan reports nothing exactly when every cell passes its column's type. */
  lemma ScanEmptyIffAllValid(table: string, columns: seq<Column>, rows: seq<seq<Value>>)
    requires RowsFit(columns, rows)
    ensures ScanViolations(table, columns, rows) == [] <==>
      forall r, c :: 0 <= r < |rows| && 0 <= c < |columns| ==> ValidateType(rows[r][c], columns[c].1)
  {
    ScanCountsFailingCells(table, columns, rows);
    if exists r, c :: 0 <= r < |rows| && 0 <= c < |columns| && !ValidateType(rows[r][c], columns[c].1) {
      var r, c :| 0 <= r < |rows| && 0 <= c < |columns| && !ValidateType(rows[r][c], columns[c].1);
      assert (r, c) in FailingCells(columns, rows);
    } else {
      assert FailingCells(columns, rows) == {};
    }
  }
}
