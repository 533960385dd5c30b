/** The SQL row service: turns the grid's count, page-fetch, update and delete
    requests into query-builder chains, runs reads on the execution channel and
    hands writes to the write queue. */
module RowService {
  import opened GridTypes
  import opened QueryBuilder
  import opened JoinText

  /** What the execution channel answers: rows, an error, or (in principle) neither. */
  datatype Response = Response(data: Option<seq<Row>>, error: Option<Error>)

  /** The result of a write request: `{}` or `{ error }`. */
  datatype Outcome = Done | Fail(error: Error)

  const CountFailed := Error("fetch rows count failed")
  const NotImplemented := Error("not implemented")
  const PrimaryKeyMissing := Error("Can't find primary key")

  /** The filters that reach the builder: those whose value is non-empty, in order. */
  function ActiveFilters(filters: seq<Filter>): (r: seq<Filter>)
    ensures |r| <= |filters|
  {
    if |filters| == 0 then []
    else if filters[0].value != "" then [filters[0]] + ActiveFilters(filters[1..])
    else ActiveFilters(filters[1..])
  }

  /** A filter reaches the builder exactly when it is given with a non-empty value. */
  lemma {:induction false} ActiveFiltersMembers(filters: seq<Filter>)
    ensures forall f :: f in ActiveFilters(filters) <==> f in filters && f.value != ""
  {
    if |filters| > 0 {
      ActiveFiltersMembers(filters[1..]);
      assert filters == [filters[0]] + filters[1..];
    }
  }

  /** Filtering distributes over concatenation, so the kept filters keep their relative order. */
  lemma {:induction false} ActiveFiltersAppend(a: seq<Filter>, b: seq<Filter>)
    ensures ActiveFilters(a + b) == ActiveFilters(a) + ActiveFilters(b)
  {
    if |a| == 0 {
      assert a + b == b;
    } else {
      var ab := a + b;
      assert ab[0] == a[0] && ab[1..] == a[1..] + b;
      ActiveFiltersAppend(a[1..], b);
      var rest := ActiveFilters(a[1..]) + ActiveFilters(b);
      if a[0].value != "" {
        assert ActiveFilters(ab) == [a[0]] + rest;
        assert ActiveFilters(a) == [a[0]] + ActiveFilters(a[1..]);
      } else {
        assert ActiveFilters(ab) == rest;
        assert ActiveFilters(a) == ActiveFilters(a[1..]);
      }
    }
  }

  /** A filter list without empty values passes through whole. */
  lemma {:induction false} ActiveFiltersAllSet(filters: seq<Filter>)
    requires forall i :: 0 <= i < |filters| ==> filters[i].value != ""
    ensures ActiveFilters(filters) == filters
  {
    if |filters| > 0 {
      ActiveFiltersAllSet(filters[1..]);
    }
  }

  /** The primary-key columns of `columns`, in column order. */
  function KeyColumns(columns: seq<Column>): (r: seq<Column>)
    ensures |r| <= |columns|
    ensures forall c :: c in r <==> c in columns && c.isPrimaryKey
  {
    if |columns| == 0 then []
    else if columns[0].isPrimaryKey then [columns[0]] + KeyColumns(columns[1..])
    else KeyColumns(columns[1..])
  }

  /** Filtering distributes over concatenation, so key columns keep their column
      order and appear once per occurrence. */
  lemma {:induction false} KeyColumnsAppend(a: seq<Column>, b: seq<Column>)
    ensures KeyColumns(a + b) == KeyColumns(a) + KeyColumns(b)
  {
    if |a| == 0 {
      assert a + b == b;
    } else {
      var ab := a + b;
      assert ab[0] == a[0] && ab[1..] == a[1..] + b;
      KeyColumnsAppend(a[1..], b);
      var rest := KeyColumns(a[1..]) + KeyColumns(b);
      if a[0].isPrimaryKey {
        assert KeyColumns(ab) == [a[0]] + rest;
        assert KeyColumns(a) == [a[0]] + KeyColumns(a[1..]);
      } else {
        assert KeyColumns(ab) == rest;
        assert KeyColumns(a) == KeyColumns(a[1..]);
      }
    }
  }

  /** The columns' names, position by position. */
  function Names(columns: seq<Column>): (r: seq<string>)
    ensures |r| == |columns|
    ensures forall i :: 0 <= i < |columns| ==> r[i] == columns[i].name
  {
    seq(|columns|, i requires 0 <= i < |columns| => columns[i].name)
  }

  lemma NamesOfKeyColumns(columns: seq<Column>)
    ensures forall k :: k in Names(KeyColumns(columns)) <==>
              exists c :: c in columns && c.isPrimaryKey && c.name == k
  {
    var keyColumns := KeyColumns(columns);
    forall k ensures k in Names(keyColumns) <==> exists c :: c in columns && c.isPrimaryKey && c.name == k {
      if k in Names(keyColumns) {
        var i :| 0 <= i < |keyColumns| && Names(keyColumns)[i] == k;
        assert keyColumns[i] in keyColumns;
      }
      if exists c :: c in columns && c.isPrimaryKey && c.name == k {
        var c :| c in columns && c.isPrimaryKey && c.name == k;
        var i :| 0 <= i < |keyColumns| && keyColumns[i] == c;
        assert Names(keyColumns)[i] == k;
      }
    }
  }

  /** The names of the table's primary-key columns in column order, or an error
      when the table has none. */
  function PrimaryKeys(table: Table): (r: Result<seq<string>, Error>)
    ensures r.Failure? <==> forall c :: c in table.columns ==> !c.isPrimaryKey
    ensures r.Failure? ==> r.error == PrimaryKeyMissing
    ensures r.Success? ==> |r.value| > 0 && r.value == Names(KeyColumns(table.columns))
    ensures r.Success? ==> forall k :: k in r.value <==>
              exists c :: c in table.columns && c.isPrimaryKey && c.name == k
  {
    var keyColumns := KeyColumns(table.columns);
    if |keyColumns| == 0 then
      Failure(PrimaryKeyMissing)
    else
      assert keyColumns[0] in keyColumns;
      NamesOfKeyColumns(table.columns);
      Success(Names(keyColumns))
  }

  /** The zero-based inclusive row range of a page. Pages are one-based, page 0
      behaves as page 1, and a negative page is used as it is. */
  function PageRange(page: int, rowsPerPage: int): (b: Bounds)
    ensures b.to - b.from + 1 == rowsPerPage
    ensures page >= 1 ==> b.from == (page - 1) * rowsPerPage
    ensures page == 0 || page == 1 ==> b.from == 0
    ensures page >= 0 && rowsPerPage >= 0 ==> b.from >= 0
    ensures page < 0 ==> b.from == page * rowsPerPage
  {
    var pageFromZero := if page > 0 then page - 1 else page;
    assert (pageFromZero + 1) * rowsPerPage == pageFromZero * rowsPerPage + rowsPerPage;
    Bounds(pageFromZero * rowsPerPage, (pageFromZero + 1) * rowsPerPage - 1)
  }

  /** The query `count` runs: a count on the table with the non-empty filters only. */
  function CountQuery(table: Table, filters: seq<Filter>): (r: Query)
    ensures r.table == table.name && r.schema == table.schema && r.operation == Some(CountRows)
    ensures forall f :: f in r.filters <==> f in filters && f.value != ""
    ensures r.orders == [] && r.matches == map[] && r.range.None?
  {
    ActiveFiltersMembers(filters);
    Query(table.name, table.schema, Some(CountRows), ActiveFilters(filters), [], map[], None)
  }

  /** The query `fetchPage` runs: a select on the table with the non-empty filters,
      then the sorts in their declared order, then the page's range. */
  function SelectQuery(table: Table, page: int, rowsPerPage: int, filters: seq<Filter>, sorts: seq<Sort>): (r: Query)
    ensures r.table == table.name && r.schema == table.schema && r.operation == Some(SelectRows)
    ensures forall f :: f in r.filters <==> f in filters && f.value != ""
    ensures r.orders == sorts && r.matches == map[]
    ensures r.range.Some? && r.range.value.to - r.range.value.from + 1 == rowsPerPage
    ensures page >= 1 ==> r.range.value.from == (page - 1) * rowsPerPage
  {
    ActiveFiltersMembers(filters);
    Query(table.name, table.schema, Some(SelectRows), ActiveFilters(filters), sorts, map[],
          Some(PageRange(page, rowsPerPage)))
  }

  /** The row without its transient `idx` field. */
  function StripIdx(row: Row): (r: Row)
    ensures "idx" !in r && r.Keys == row.Keys - {"idx"}
    ensures forall k :: k in r ==> r[k] == row[k]
  {
    row - {"idx"}
  }

  /** One entry per primary-key column, holding the row's value for it. */
  function MatchValues(row: Row, keys: seq<string>): (r: map<string, Value>)
    ensures forall k :: k in r <==> k in keys
    ensures forall k :: k in keys && k in row ==> r[k] == row[k]
    ensures forall k :: k in keys && k !in row ==> r[k] == Undefined
  {
    map k | k in keys :: Lookup(row, k)
  }

  lemma MatchValuesStep(row: Row, keys: seq<string>, key: string)
    ensures MatchValues(row, keys + [key]) == MatchValues(row, keys)[key := Lookup(row, key)]
  {
  }

  /** The query `update` queues: an update of the table, scoped by a match on the
      key columns and by nothing else. */
  function UpdateQuery(table: Table, row: Row, keys: seq<string>): (r: Query)
    ensures r.table == table.name && r.schema == table.schema
    ensures r.operation.Some? && r.operation.value.UpdateRows?
    ensures r.filters == [] && r.orders == [] && r.range.None?
    ensures forall k :: k in r.matches <==> k in keys
  {
    Query(table.name, table.schema, Some(UpdateRows(StripIdx(row))), [], [], MatchValues(row, keys), None)
  }

  /** The update writes every field of the row but `idx`, and matches exactly the
      primary-key columns on the row's own values. */
  lemma UpdateQueryFacts(table: Table, row: Row, keys: seq<string>)
    ensures var q := UpdateQuery(table, row, keys);
      && q.operation.Some? && q.operation.value.UpdateRows?
      && "idx" !in q.operation.value.values
      && q.operation.value.values.Keys == row.Keys - {"idx"}
      && (forall k :: k in row && k != "idx" ==> q.operation.value.values[k] == row[k])
      && q.matches.Keys == set k | k in keys
      && (forall k :: k in keys && k in row ==> q.matches[k] == row[k])
      && q.filters == [] && q.range == None
  {
  }

  /** Column `key`'s values over all rows, joined with commas: empty for no rows,
      the one row's value for a single row, the first row's value first otherwise. */
  function KeyValues(rows: seq<Row>, key: string): (r: string)
    ensures |rows| == 0 ==> r == ""
    ensures |rows| == 1 ==> r == ValueText(Lookup(rows[0], key))
    ensures |rows| > 0 ==> ValueText(Lookup(rows[0], key)) <= r
  {
    Join(seq(|rows|, i requires 0 <= i < |rows| => ValueText(Lookup(rows[i], key))))
  }

  /** One `in` filter per primary-key column. */
  function DeleteFilters(rows: seq<Row>, keys: seq<string>): (r: seq<Filter>)
    ensures |r| == |keys|
    ensures forall i :: 0 <= i < |keys| ==> r[i] == Filter(keys[i], In, KeyValues(rows, keys[i]))
  {
    if |keys| == 0 then [] else DeleteFilters(rows, keys[..|keys| - 1]) + [Filter(keys[|keys| - 1], In, KeyValues(rows, keys[|keys| - 1]))]
  }

  /** The query `delete` queues: a delete of the table with one `in` filter per
      key column, in key order, and no other scoping. */
  function DeleteQuery(table: Table, rows: seq<Row>, keys: seq<string>): (r: Query)
    ensures r.table == table.name && r.schema == table.schema && r.operation == Some(DeleteRows)
    ensures |r.filters| == |keys|
    ensures forall i :: 0 <= i < |keys| ==> r.filters[i].column == keys[i] && r.filters[i].operator == In
    ensures r.orders == [] && r.matches == map[] && r.range.None?
  {
    Query(table.name, table.schema, Some(DeleteRows), DeleteFilters(rows, keys), [], map[], None)
  }

  /** When no row's value for `key` contains a comma (numbers never do), the `in`
      list of the delete names exactly those values, one per row, in row order. */
  lemma KeyValuesListsEveryRow(rows: seq<Row>, key: string)
    requires |rows| > 0
    requires forall i :: 0 <= i < |rows| ==> ',' !in ValueText(Lookup(rows[i], key))
    ensures var parts := Split(KeyValues(rows, key));
      |parts| == |rows| &&
      forall i :: 0 <= i < |rows| ==> parts[i] == ValueText(Lookup(rows[i], key))
  {
    var parts := seq(|rows|, i requires 0 <= i < |rows| => ValueText(Lookup(rows[i], key)));
    forall p | p in parts ensures ',' !in p {
      var i :| 0 <= i < |parts| && parts[i] == p;
    }
    SplitJoin(parts);
  }

  /** Row `index` of a fetched page: `{ idx: index, ...row }`. A field of the row
      named `idx` takes precedence over the stamp. */
  function Stamp(row: Row, index: int): (r: Row)
    ensures r.Keys == row.Keys + {"idx"}
    ensures forall k :: k in row ==> r[k] == row[k]
    ensures "idx" !in row ==> r["idx"] == Num(index)
  {
    map["idx" := Num(index)] + row
  }

  /** The fetched rows, each stamped with its position. */
  function StampRows(data: seq<Row>): (r: seq<Row>)
    ensures |r| == |data|
    ensures forall i :: 0 <= i < |data| ==> r[i].Keys == data[i].Keys + {"idx"}
    ensures forall i, k :: 0 <= i < |data| && k in data[i] ==> r[i][k] == data[i][k]
    ensures forall i :: 0 <= i < |data| && "idx" !in data[i] ==> r[i]["idx"] == Num(i)
  {
    seq(|data|, i requires 0 <= i < |data| => Stamp(data[i], i))
  }

  /** `create` is not implemented and says so. */
  function Create(row: Row): (r: Outcome)
    ensures r.Fail? && r.error == NotImplemented
  {
    Fail(NotImplemented)
  }

  class SqlRowService {
    const table: Table
    /** The write queue: jobs waiting to run, oldest first. */
    var queue: seq<Query>
    /** Every error handed to the error sink, oldest first. */
    var reported: seq<Error>

    constructor (table: Table)
      ensures this.table == table && queue == [] && reported == []
    {
      this.table := table;
      queue := [];
      reported := [];
    }

    /** Counts the rows matching the non-empty filters. */
    method Count(filters: seq<Filter>, exec: Query -> Response) returns (r: Result<Value, Error>)
      ensures var response := exec(CountQuery(table, filters));
        && (response.error.Some? ==> r == Failure(response.error.value))
        && (response.error.None? && response.data.Some? && |response.data.value| == 1 ==>
              r == Success(Lookup(response.data.value[0], "count")))
        && (response.error.None? && !(response.data.Some? && |response.data.value| == 1) ==>
              r == Failure(CountFailed))
    {
      var q := From(table.name, table.schema).Count();
      var active := ActiveFilters(filters);
      var i := 0;
      while i < |active|
        invariant 0 <= i <= |active|
        invariant q == Query(table.name, table.schema, Some(CountRows), active[..i], [], map[], None)
      {
        q := q.AddFilter(active[i].column, active[i].operator, active[i].value);
        i := i + 1;
      }
      assert active[..i] == active;
      var response := exec(q);
      if response.error.Some? {
        r := Failure(response.error.value);
      } else if response.data.Some? && |response.data.value| == 1 {
        r := Success(Lookup(response.data.value[0], "count"));
      } else {
        r := Failure(CountFailed);
      }
    }

    /** Fetches one page. A channel error goes to the error sink and yields no rows;
        `None` stands for the undefined row list of a reply with neither rows nor error. */
    method FetchPage(page: int, rowsPerPage: int, filters: seq<Filter>, sorts: seq<Sort>, exec: Query -> Response)
      returns (rows: Option<seq<Row>>)
      modifies this`reported
      ensures var response := exec(SelectQuery(table, page, rowsPerPage, filters, sorts));
        && (response.error.Some? ==>
              rows == Some([]) && reported == old(reported) + [response.error.value])
        && (response.error.None? ==>
              reported == old(reported) &&
              rows == if response.data.Some? then Some(StampRows(response.data.value)) else None)
    {
      var bounds := PageRange(page, rowsPerPage);
      var q := From(table.name, table.schema).Select();
      var active := ActiveFilters(filters);
      var i := 0;
      while i < |active|
        invariant 0 <= i <= |active|
        invariant q == Query(table.name, table.schema, Some(SelectRows), active[..i], [], map[], None)
      {
        q := q.AddFilter(active[i].column, active[i].operator, active[i].value);
        i := i + 1;
      }
      assert active[..i] == active;
      var j := 0;
      while j < |sorts|
        invariant 0 <= j <= |sorts|
        invariant q == Query(table.name, table.schema, Some(SelectRows), active, sorts[..j], map[], None)
      {
        q := q.Order(sorts[j].column, sorts[j].ascending, sorts[j].nullsFirst);
        j := j + 1;
      }
      assert sorts[..j] == sorts;
      q := q.Range(bounds.from, bounds.to);
      var response := exec(q);
      if response.error.Some? {
        reported := reported + [response.error.value];
        rows := Some([]);
      } else if response.data.Some? {
        rows := Some(StampRows(response.data.value));
      } else {
        rows := None;
      }
    }

    /** Queues an update of `row`, matched on its primary-key values. */
    method Update(row: Row) returns (r: Outcome)
      modifies this`queue
      ensures PrimaryKeys(table).Failure? ==>
                r == Fail(PrimaryKeyMissing) && queue == old(queue)
      ensures PrimaryKeys(table).Success? ==>
                r == Done && queue == old(queue) + [UpdateQuery(table, row, PrimaryKeys(table).value)]
    {
      var keys := PrimaryKeys(table);
      if keys.Failure? {
        return Fail(keys.error);
      }
      var primaryKeys := keys.value;
      var value := StripIdx(row);
      var matchValues: map<string, Value> := map[];
      var i := 0;
      while i < |primaryKeys|
        invariant 0 <= i <= |primaryKeys|
        invariant matchValues == MatchValues(row, primaryKeys[..i])
        invariant queue == old(queue)
      {
        assert primaryKeys[..i + 1] == primaryKeys[..i] + [primaryKeys[i]];
        MatchValuesStep(row, primaryKeys[..i], primaryKeys[i]);
        matchValues := matchValues[primaryKeys[i] := Lookup(row, primaryKeys[i])];
        i := i + 1;
      }
      assert primaryKeys[..i] == primaryKeys;
      var q := From(table.name, table.schema).Update(value).Match(matchValues);
      assert map[] + matchValues == matchValues;
      queue := queue + [q];
      r := Done;
    }

    /** Queues one delete of `rows`, with an `in` filter per primary-key column. */
    method Delete(rows: seq<Row>) returns (r: Outcome)
      modifies this`queue
      ensures PrimaryKeys(table).Failure? ==>
                r == Fail(PrimaryKeyMissing) && queue == old(queue)
      ensures PrimaryKeys(table).Success? ==>
                r == Done && queue == old(queue) + [DeleteQuery(table, rows, PrimaryKeys(table).value)]
    {
      var keys := PrimaryKeys(table);
      if keys.Failure? {
        return Fail(keys.error);
      }
      var primaryKeys := keys.value;
      var q := From(table.name, table.schema).Delete();
      var i := 0;
      while i < |primaryKeys|
        invariant 0 <= i <= |primaryKeys|
        invariant q == Query(table.name, table.schema, Some(DeleteRows), DeleteFilters(rows, primaryKeys[..i]), [], map[], None)
      {
        assert primaryKeys[..i + 1][..i] == primaryKeys[..i];
        q := q.AddFilter(primaryKeys[i], In, KeyValues(rows, primaryKeys[i]));
        i := i + 1;
      }
      assert primaryKeys[..i] == primaryKeys;
      queue := queue + [q];
      r := Done;
    }

    /** Runs the oldest queued job: its query goes to the channel and a failure
        goes to the error sink. Later jobs run regardless. */
    method RunNextJob(exec: Query -> Response) returns (ran: Option<Query>)
      modifies this`queue, this`reported
      ensures old(queue) == [] ==> ran == None && queue == old(queue) && reported == old(reported)
      ensures old(queue) != [] ==>
                && ran == Some(old(queue)[0])
                && queue == old(queue)[1..]
                && reported == old(reported) + (match exec(old(queue)[0]).error
                                                case Some(e) => [e]
                                                case None => [])
    {
      if queue == [] {
        return None;
      }
      var job := queue[0];
      queue := queue[1..];
      var response := exec(job);
      if response.error.Some? {
        reported := reported + [response.error.value];
      }
      ran := Some(job);
    }
  }

  /** Two updates run in the order they were submitted, after every job queued
      before them and in that job order. */
  method UpdatesRunInSubmissionOrder(service: SqlRowService, first: Row, second: Row, exec: Query -> Response)
    returns (ran: seq<Query>)
    requires PrimaryKeys(service.table).Success?
    modifies service
    ensures var keys := PrimaryKeys(service.table).value;
      ran == old(service.queue) + [UpdateQuery(service.table, first, keys), UpdateQuery(service.table, second, keys)]
    ensures service.queue == []
  {
    var keys := PrimaryKeys(service.table).value;
    ghost var submitted := old(service.queue) + [UpdateQuery(service.table, first, keys), UpdateQuery(service.table, second, keys)];
    var _ := service.Update(first);
    var _ := service.Update(second);
    ran := [];
    while service.queue != []
      invariant ran + service.queue == submitted
      decreases |service.queue|
    {
      var job := service.RunNextJob(exec);
      ran := ran + [job.value];
    }
  }
}
