/** The query builder as an accumulator record: what a chain of builder calls has
    collected, rather than the SQL text it renders to. */
module QueryBuilder {
  import opened GridTypes

  /** The terminal operation of a query. */
  datatype Operation = SelectRows | CountRows | UpdateRows(values: Row) | DeleteRows

  /** An inclusive, zero-based row range. */
  datatype Bounds = Bounds(from: int, to: int)

  datatype Query = Query(
    table: string,
    schema: Option<string>,
    operation: Option<Operation>,
    filters: seq<Filter>,
    orders: seq<Sort>,
    matches: map<string, Value>,
    range: Option<Bounds>)
  {
    function Select(): Query { this.(operation := Some(SelectRows)) }

    function Count(): Query { this.(operation := Some(CountRows)) }

    function Update(values: Row): Query { this.(operation := Some(UpdateRows(values))) }

    function Delete(): Query { this.(operation := Some(DeleteRows)) }

    /** Appends one predicate; predicates are conjoined in the order they were added. */
    function AddFilter(column: string, operator: Operator, value: string): Query
    {
      this.(filters := filters + [Filter(column, operator, value)])
    }

    /** Appends one sort key; earlier keys take precedence. */
    function Order(column: string, ascending: bool, nullsFirst: bool): Query
    {
      this.(orders := orders + [Sort(column, ascending, nullsFirst)])
    }

    /** Adds an equality predicate for every entry of `m`. */
    function Match(m: map<string, Value>): Query
    {
      this.(matches := matches + m)
    }

    function Range(from: int, to: int): Query
    {
      this.(range := Some(Bounds(from, to)))
    }
  }

  /** A fresh builder aimed at `schema.table`. */
  function From(table: string, schema: Option<string>): Query
  {
    Query(table, schema, None, [], [], map[], None)
  }
}
