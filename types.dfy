/** The grid's shared data model: cell values, rows, filters, sorts and table descriptors. */
module GridTypes {

  datatype Option<+T> = None | Some(value: T)

  datatype Result<+R, +E> = Success(value: R) | Failure(error: E)

  /** A service error, `{ message }`. */
  datatype Error = Error(message: string)

  /** A cell value. Numbers are modelled by their integer values. `Undefined` is what
      reading a missing field of a row gives. */
  datatype Value = Undefined | Null | Bool(b: bool) | Num(n: int) | Text(s: string)

  /** A row: column name to value. */
  type Row = map<string, Value>

  /** The value of field `key` of `row`, `Undefined` when the row has no such field. */
  function Lookup(row: Row, key: string): Value
  {
    if key in row then row[key] else Undefined
  }

  /** The nine filter operators the grid offers. */
  datatype Operator = Eq | Neq | Gt | Lt | Gte | Lte | Like | ILike | In

  /** The operator's value as the filter menu spells it. */
  function Symbol(op: Operator): string
  {
    match op
    case Eq => "="
    case Neq => "<>"
    case Gt => ">"
    case Lt => "<"
    case Gte => ">="
    case Lte => "<="
    case Like => "~~"
    case ILike => "~~*"
    case In => "in"
  }

  /** The operator spelt `s`, or `None` for a spelling outside the fixed set. */
  function ParseOperator(s: string): (r: Option<Operator>)
    ensures forall op :: r == Some(op) <==> Symbol(op) == s
  {
    match s
    case "=" => Some(Eq)
    case "<>" => Some(Neq)
    case ">" => Some(Gt)
    case "<" => Some(Lt)
    case ">=" => Some(Gte)
    case "<=" => Some(Lte)
    case "~~" => Some(Like)
    case "~~*" => Some(ILike)
    case "in" => Some(In)
    case _ => None
  }

  /** A filter `{ column, operator, value }`; an empty value makes it inert. */
  datatype Filter = Filter(column: string, operator: Operator, value: string)

  /** A sort key `{ column, ascending, nullsFirst }`. */
  datatype Sort = Sort(column: string, ascending: bool, nullsFirst: bool)

  /** The part of a column descriptor the row service reads. */
  datatype Column = Column(name: string, position: int, isIdentity: bool, isPrimaryKey: bool)

  /** A table descriptor; `schema` is absent when the table gives none. */
  datatype Table = Table(name: string, schema: Option<string>, columns: seq<Column>)
}
