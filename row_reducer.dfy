/** The row store: a pure reducer over the current page of rows and its
    pagination state. */
module RowReducer {
  import opened GridTypes

  /** `refreshPageFlag` and `sorts` are absent until the first action that sets them. */
  datatype RowState = RowState(
    rows: seq<Row>,
    page: int,
    rowsPerPage: int,
    totalRows: int,
    refreshPageFlag: Option<int>,
    sorts: Option<seq<Sort>>)

  datatype RowAction =
    | InitTable(table: Table)
    | SetPage(page: int)
    | SetRowsPerPage(rowsPerPage: int)
    | SetRows(rows: seq<Row>, totalRows: int)
    | AddRows(batch: seq<Row>)
    | AddNewRow(row: Row)
    | RemoveRows(ids: seq<Value>)
    | Unrecognised(tag: string)

  /** The known total never undercounts the rows held. */
  predicate CountsConsistent(s: RowState)
  {
    s.totalRows >= |s.rows|
  }

  /** The state before any action: no rows, first page, 100 rows per page. */
  function InitialState(): (s: RowState)
    ensures |s.rows| == 0 && s.page == 1 && s.rowsPerPage == 100 && s.totalRows == 0
    ensures s.refreshPageFlag.None? && s.sorts.None?
    ensures CountsConsistent(s)
  {
    RowState([], 1, 100, 0, None, None)
  }

  /** The `id` field of a row. */
  function RowId(row: Row): Value
  {
    Lookup(row, "id")
  }

  /** The rows whose `id` is not listed in `ids`, in their original order. */
  function KeepRows(rows: seq<Row>, ids: seq<Value>): (r: seq<Row>)
    ensures |r| <= |rows|
    ensures forall x :: x in r <==> x in rows && RowId(x) !in ids
  {
    if |rows| == 0 then []
    else if RowId(rows[0]) !in ids then [rows[0]] + KeepRows(rows[1..], ids)
    else KeepRows(rows[1..], ids)
  }

  /** The reducer. `defaultSorts` is the table's default sort order, computed
      outside this module. Every action leaves the fields it does not name alone. */
  function Reduce(s: RowState, a: RowAction, defaultSorts: Table -> seq<Sort>): (r: RowState)
    ensures a.InitTable? ==>
              r.sorts == Some(defaultSorts(a.table)) && r.(sorts := s.sorts) == s
    ensures a.SetPage? ==>
              r.page == a.page && r.refreshPageFlag == Some(-1) &&
              r.(page := s.page, refreshPageFlag := s.refreshPageFlag) == s
    ensures a.SetRowsPerPage? ==>
              r.rowsPerPage == a.rowsPerPage && r.refreshPageFlag == Some(-1) &&
              r.(rowsPerPage := s.rowsPerPage, refreshPageFlag := s.refreshPageFlag) == s
    ensures a.SetRows? ==>
              r.rows == a.rows && r.totalRows == a.totalRows && r.refreshPageFlag == Some(0) &&
              r.(rows := s.rows, totalRows := s.totalRows, refreshPageFlag := s.refreshPageFlag) == s
    ensures a.AddRows? ==>
              r.rows == s.rows + a.batch && r.totalRows == s.totalRows + |a.batch| &&
              r.(rows := s.rows, totalRows := s.totalRows) == s
    ensures a.AddNewRow? ==>
              r.rows == s.rows + [a.row] && r.totalRows == s.totalRows + 1 &&
              r.(rows := s.rows, totalRows := s.totalRows) == s
    ensures a.RemoveRows? ==>
              r.rows == KeepRows(s.rows, a.ids) &&
              (forall x :: x in r.rows <==> x in s.rows && RowId(x) !in a.ids) &&
              r.totalRows == s.totalRows - |a.ids| &&
              r.(rows := s.rows, totalRows := s.totalRows) == s
    ensures a.Unrecognised? ==> r == s
  {
    match a
    case InitTable(table) => s.(sorts := Some(defaultSorts(table)))
    case SetPage(page) => s.(page := page, refreshPageFlag := Some(-1))
    case SetRowsPerPage(n) => s.(rowsPerPage := n, refreshPageFlag := Some(-1))
    case SetRows(rows, totalRows) => s.(rows := rows, totalRows := totalRows, refreshPageFlag := Some(0))
    case AddRows(batch) => s.(rows := s.rows + batch, totalRows := s.totalRows + |batch|)
    case AddNewRow(row) => s.(rows := s.rows + [row], totalRows := s.totalRows + 1)
    case RemoveRows(ids) => s.(rows := KeepRows(s.rows, ids), totalRows := s.totalRows - |ids|)
    case Unrecognised(_) => s
  }

  /** Removal keeps order: it distributes over concatenation. */
  lemma {:induction false} KeepRowsAppend(a: seq<Row>, b: seq<Row>, ids: seq<Value>)
    ensures KeepRows(a + b, ids) == KeepRows(a, ids) + KeepRows(b, ids)
  {
    if |a| == 0 {
      assert a + b == b;
    } else {
      var ab := a + b;
      assert ab[0] == a[0] && ab[1..] == a[1..] + b;
      KeepRowsAppend(a[1..], b, ids);
      var rest := KeepRows(a[1..], ids) + KeepRows(b, ids);
      if RowId(a[0]) !in ids {
        assert KeepRows(ab, ids) == [a[0]] + rest;
        assert KeepRows(a, ids) == [a[0]] + KeepRows(a[1..], ids);
      } else {
        assert KeepRows(ab, ids) == rest;
        assert KeepRows(a, ids) == KeepRows(a[1..], ids);
      }
    }
  }

  /** Removing ids no row carries leaves the rows as they are. */
  lemma {:induction false} KeepRowsDisjoint(rows: seq<Row>, ids: seq<Value>)
    requires forall i :: 0 <= i < |rows| ==> RowId(rows[i]) !in ids
    ensures KeepRows(rows, ids) == rows
  {
    if |rows| > 0 {
      KeepRowsDisjoint(rows[1..], ids);
    }
  }

  /** A removal whose ids match no row keeps every row, yet still lowers the
      total by the number of ids given. */
  lemma RemoveRowsDisjoint(s: RowState, ids: seq<Value>, defaultSorts: Table -> seq<Sort>)
    requires forall i :: 0 <= i < |s.rows| ==> RowId(s.rows[i]) !in ids
    ensures var r := Reduce(s, RemoveRows(ids), defaultSorts);
      r.rows == s.rows && r.totalRows == s.totalRows - |ids|
  {
    KeepRowsDisjoint(s.rows, ids);
  }

  /** An input on which removal leaves fewer counted rows than rows held. */
  lemma RemoveRowsCanUndercount(defaultSorts: Table -> seq<Sort>)
    ensures var s := RowState([map["id" := Num(1)]], 1, 100, 1, None, None);
      var r := Reduce(s, RemoveRows([Num(2)]), defaultSorts);
      CountsConsistent(s) && !CountsConsistent(r)
  {
  }

  /** Applying `SET_ROWS` twice with one payload is the same as applying it once. */
  lemma SetRowsIdempotent(s: RowState, rows: seq<Row>, totalRows: int, defaultSorts: Table -> seq<Sort>)
    ensures var once := Reduce(s, SetRows(rows, totalRows), defaultSorts);
      Reduce(once, SetRows(rows, totalRows), defaultSorts) == once
  {
  }

  /** The ids of the rows. */
  function IdSet(rows: seq<Row>): (r: set<Value>)
    ensures forall x :: x in rows ==> RowId(x) in r
  {
    if |rows| == 0 then {} else {RowId(rows[0])} + IdSet(rows[1..])
  }

  /** No two rows share an id. */
  predicate DistinctIds(rows: seq<Row>)
  {
    |rows| > 0 ==> RowId(rows[0]) !in IdSet(rows[1..]) && DistinctIds(rows[1..])
  }

  function Elements(vs: seq<Value>): (r: set<Value>)
    ensures forall v :: v in r <==> v in vs
  {
    if |vs| == 0 then {} else {vs[0]} + Elements(vs[1..])
  }

  /** No value is listed twice. */
  predicate Distinct(vs: seq<Value>)
  {
    |vs| > 0 ==> vs[0] !in vs[1..] && Distinct(vs[1..])
  }

  lemma {:induction false} DistinctCardinality(vs: seq<Value>)
    requires Distinct(vs)
    ensures |Elements(vs)| == |vs|
  {
    if |vs| > 0 {
      DistinctCardinality(vs[1..]);
    }
  }

  /** With distinct row ids, the rows removed are those whose id is listed. */
  lemma {:induction false} RemovedCount(rows: seq<Row>, ids: seq<Value>)
    requires DistinctIds(rows)
    ensures |rows| - |KeepRows(rows, ids)| == |IdSet(rows) * Elements(ids)|
  {
    if |rows| > 0 {
      var rest := rows[1..];
      RemovedCount(rest, ids);
      var x := RowId(rows[0]);
      var both := IdSet(rows) * Elements(ids);
      var restBoth := IdSet(rest) * Elements(ids);
      if x in ids {
        assert both == {x} + restBoth;
      } else {
        assert both == restBoth;
      }
    }
  }

  /** When row ids are distinct and the payload lists distinct ids of held rows,
      removal drops exactly as many rows as it subtracts from the total. */
  lemma RemoveRowsExactCount(s: RowState, ids: seq<Value>, defaultSorts: Table -> seq<Sort>)
    requires DistinctIds(s.rows) && Distinct(ids)
    requires forall v :: v in ids ==> v in IdSet(s.rows)
    ensures var r := Reduce(s, RemoveRows(ids), defaultSorts);
      |r.rows| == |s.rows| - |ids| && r.totalRows - |r.rows| == s.totalRows - |s.rows|
  {
    RemovedCount(s.rows, ids);
    assert IdSet(s.rows) * Elements(ids) == Elements(ids);
    DistinctCardinality(ids);
  }

  /** Every action but `SET_ROWS` and `REMOVE_ROWS` keeps the total at or above the
      number of rows held; `SET_ROWS` does when its payload does, and `REMOVE_ROWS`
      when its ids are distinct ids of held rows. */
  lemma CountsStayConsistent(s: RowState, a: RowAction, defaultSorts: Table -> seq<Sort>)
    requires CountsConsistent(s)
    requires a.SetRows? ==> a.totalRows >= |a.rows|
    requires a.RemoveRows? ==>
               DistinctIds(s.rows) && Distinct(a.ids) && forall v :: v in a.ids ==> v in IdSet(s.rows)
    ensures CountsConsistent(Reduce(s, a, defaultSorts))
  {
    if a.RemoveRows? {
      RemoveRowsExactCount(s, a.ids, defaultSorts);
    }
  }
}
