# Grid row-data synchronisation core, in Dafny

This project models the row-data core of a spreadsheet-style data grid backed by a
SQL database. It has two parts.

- The **SQL row service** (`SqlRowService`) turns the grid's requests into query-builder
  chains. `count` and `fetchPage` run their query on an execution channel. `update` and
  `delete` put their query on the write queue. `create` is not implemented.
- The **row reducer** (`RowReducer`) is a pure `(state, action) -> state` function. Its
  state holds the current page of rows, the page number, the rows per page, the total row
  count, the refresh flag and the sort order.

Layout:

- `types.dfy` (`GridTypes`): cell values, rows as `map<string, Value>`, the nine filter
  operators, filters, sorts, and column and table descriptors.
- `query.dfy` (`QueryBuilder`): the query builder as a record of what a builder chain has
  collected: target table and schema, terminal operation, filters, sort keys, match map
  and range. SQL rendering is not modelled. The execution channel receives the record
  itself.
- `join.dfy` (`JoinText`): how a cell value becomes text and how `join(',')` builds the
  `in` list of a delete. The matching `split` shows that, for a non-empty list of
  comma-free values, the list can be read back.
- `row_service.dfy` (`RowService`): the class `SqlRowService`. Its write queue and its
  error sink are sequence fields, oldest first. The execution channel is a function
  parameter `exec: Query -> Response`. The function `CountQuery`, `SelectQuery`,
  `UpdateQuery` or `DeleteQuery` of each operation gives the exact query it builds.
- `row_reducer.dfy` (`RowReducer`): the reducer, the initial state and lemmas about
  `REMOVE_ROWS` and the row-count invariant.
- `countries.dfy` (`Countries`): scenarios on the sample `countries` table.

In these places the model follows the code as written:

- A negative page is not normalised. With `page = -1` the range starts at
  `-rowsPerPage` (`PageRange`). Only page 0 behaves like page 1.
- The row index is stamped as `{ idx: index, ...row }`. A fetched row that already has an
  `idx` field keeps its own value (`StampRows`, `Stamp`).
- `REMOVE_ROWS` subtracts the length of the id list from `totalRows`, not the number of
  rows removed. So an id list that matches no row still lowers `totalRows`
  (`RemoveRowsDisjoint`). This can leave `totalRows` below the number of rows held
  (`RemoveRowsCanUndercount`). The count is exact only when row ids are distinct and the
  list names distinct ids of rows held (`RemoveRowsExactCount`).
- A channel reply with neither rows nor an error makes `fetchPage` return an undefined
  row list. This is modelled as `None`.

## Model

| member | source | states |
|---|---|---|
| GridTypes.ParseOperator | src/components/header/filter/Filter.constants.ts:1-11 | a spelling parses to an operator exactly when it is that operator's spelling; anything outside the nine is rejected |
| JoinText.NatText | src/services/row/SqlRowService.ts:53 | a number's decimal text is non-empty, all digits, and starts with 0 only for zero |
| JoinText.DecimalValueOfNatText | src/services/row/SqlRowService.ts:53 | reading back a number's decimal text gives the number |
| JoinText.ValueText | src/services/row/SqlRowService.ts:53 | a number's text has no comma and is its decimal spelling (with a minus sign when negative); text values are used as they are; null and undefined join as the empty string |
| JoinText.Join | src/services/row/SqlRowService.ts:53 | joining no parts gives the empty string; otherwise the text starts with the first part, followed by a comma when more parts follow |
| JoinText.SplitJoin | src/services/row/SqlRowService.ts:53 | splitting a comma-joined, non-empty list of comma-free parts gives back the parts |
| RowService.ActiveFilters | src/services/row/SqlRowService.ts:21-25 | the filters that reach the builder are at most those given |
| RowService.ActiveFiltersMembers | src/services/row/SqlRowService.ts:21-25 | a filter reaches the builder exactly when it is given with a non-empty value |
| RowService.ActiveFiltersAppend | src/services/row/SqlRowService.ts:81-85 | dropping empty filters distributes over concatenation, so kept filters stay in their original order |
| RowService.ActiveFiltersAllSet | src/services/row/SqlRowService.ts:22 | a filter list with no empty value reaches the builder whole |
| RowService.KeyColumns | src/services/row/SqlRowService.ts:132 | a column is kept exactly when it is flagged as primary key |
| RowService.KeyColumnsAppend | src/services/row/SqlRowService.ts:132 | keeping key columns distributes over concatenation, so they stay in column order, once per occurrence |
| RowService.Names | src/services/row/SqlRowService.ts:136 | the name list has one entry per column, position by position |
| RowService.NamesOfKeyColumns | src/services/row/SqlRowService.ts:136 | a name is listed exactly when some primary-key column has it |
| RowService.PrimaryKeys | src/services/row/SqlRowService.ts:131-137 | fails with "Can't find primary key" exactly when no column is a primary key; otherwise returns the non-empty list of primary-key column names, in column order, one per key column |
| RowService.PageRange | src/services/row/SqlRowService.ts:75-77 | the range always spans rowsPerPage rows; page p >= 1 starts at (p-1)*rowsPerPage; pages 0 and 1 start at 0; a negative page p starts at p*rowsPerPage |
| RowService.CountQuery | src/services/row/SqlRowService.ts:18-25 | the count query targets the table and schema, carries exactly the non-empty filters, and has no sort, match or range |
| RowService.SelectQuery | src/services/row/SqlRowService.ts:78-89 | the select carries exactly the non-empty filters, the sorts in declared order and a range of rowsPerPage rows that starts at (page-1)*rowsPerPage for page >= 1 |
| RowService.StripIdx | src/services/row/SqlRowService.ts:109 | the update value has every field of the row except idx, with the same values |
| RowService.MatchValues | src/services/row/SqlRowService.ts:110-113 | the match map has an entry for exactly the key columns, holding the row's value or undefined when the row lacks it |
| RowService.UpdateQuery | src/services/row/SqlRowService.ts:114-118 | the update query targets the table and is scoped by a match on exactly the key columns, with no filter, sort or range |
| RowService.UpdateQueryFacts | src/services/row/SqlRowService.ts:109-118 | the update writes every field of the row except idx, and matches exactly the primary-key columns on the row's values |
| RowService.KeyValues | src/services/row/SqlRowService.ts:53 | no rows give the empty list, one row gives its own value, and the first row's value always comes first |
| RowService.DeleteQuery | src/services/row/SqlRowService.ts:49-55 | the delete query targets the table with one `in` filter per key column in key order and no sort, match or range |
| RowService.DeleteFilters | src/services/row/SqlRowService.ts:52-55 | one `in` filter per primary-key column, in key order, each holding that column's values over all rows joined with commas |
| RowService.KeyValuesListsEveryRow | src/services/row/SqlRowService.ts:53-54 | for at least one row, when no key value contains a comma (numbers never do), the `in` list names each row's value once, in row order |
| RowService.Stamp | src/services/row/SqlRowService.ts:97 | a stamped row keeps every field of the fetched row and gains idx = its position unless it already has an idx field |
| RowService.StampRows | src/services/row/SqlRowService.ts:96-98 | as many rows as fetched; every field of a fetched row is kept; row i gets idx = i unless it already has an idx field |
| RowService.Create | src/services/row/SqlRowService.ts:40-43 | create always fails with "not implemented" |
| RowService.SqlRowService.constructor | src/services/row/SqlRowService.ts:9-15 | a new service is bound to its table with an empty write queue and no reported errors |
| RowService.SqlRowService.Count | src/services/row/SqlRowService.ts:17-38 | runs the count query with the non-empty filters; a channel error is returned as it is; a single result row gives its count; any other reply gives "fetch rows count failed" |
| RowService.SqlRowService.FetchPage | src/services/row/SqlRowService.ts:69-101 | runs a select with filters, then sorts in order, then the page range; on a channel error reports it once and returns no rows; otherwise returns the fetched rows stamped with their positions |
| RowService.SqlRowService.Update | src/services/row/SqlRowService.ts:103-129 | without a primary key returns that error and queues nothing; otherwise queues exactly one update job at the end of the queue and returns success |
| RowService.SqlRowService.Delete | src/services/row/SqlRowService.ts:45-67 | without a primary key returns that error and queues nothing; otherwise queues exactly one delete job at the end of the queue and returns success |
| RowService.SqlRowService.RunNextJob | src/services/row/SqlRowService.ts:59-64 | the oldest job runs first and leaves the queue; its failure goes to the error sink; the remaining jobs stay queued |
| RowService.UpdatesRunInSubmissionOrder | src/services/row/SqlRowService.ts:121-126 | whatever the queue held before, its jobs run first in their order, then the two updates in submission order, and the queue ends empty |
| RowReducer.InitialState | src/store/reducers/row.ts:12-17 | the initial state has no rows, page 1, 100 rows per page and total 0 |
| RowReducer.KeepRows | src/store/reducers/row.ts:80 | a row survives removal exactly when its id is not listed |
| RowReducer.Reduce | src/store/reducers/row.ts:31-87 | per action: which fields change and to what, and that every other field is unchanged; REMOVE_ROWS keeps the rows KeepRows keeps and lowers the total by the number of ids; an unrecognised action changes nothing |
| RowReducer.KeepRowsAppend | src/store/reducers/row.ts:80 | removal distributes over concatenation, so the surviving rows keep their order |
| RowReducer.KeepRowsDisjoint | src/store/reducers/row.ts:80 | removing ids that no row carries keeps every row |
| RowReducer.RemoveRowsDisjoint | src/store/reducers/row.ts:76-83 | a removal that matches no row keeps the rows but still lowers the total by the number of ids |
| RowReducer.RemoveRowsCanUndercount | src/store/reducers/row.ts:77 | a concrete removal leaves the total below the number of rows held |
| RowReducer.SetRowsIdempotent | src/store/reducers/row.ts:53-59 | setting rows twice with one payload gives the same state as setting them once |
| RowReducer.RemovedCount | src/store/reducers/row.ts:80 | with distinct row ids, the number of rows removed is the number of held ids that are listed |
| RowReducer.RemoveRowsExactCount | src/store/reducers/row.ts:76-83 | with distinct row ids and a list of distinct held ids, the rows drop by exactly the amount subtracted from the total |
| RowReducer.CountsStayConsistent | src/store/reducers/row.ts:31-87 | every action keeps the total at or above the number of rows held, given a consistent SET_ROWS payload and, for REMOVE_ROWS, distinct held ids |
| Countries.EuropeFirstPage | example/countries.ts:107-115 | the Europe filter on page 1 of 100 rows selects rows 0 to 99 of public.countries with that one filter |
| Countries.UpdateCountryRefused | example/countries.ts:107-115 | the sample table flags no primary key, so an update is refused and nothing is queued |
| Countries.KeyedCountriesKey | example/countries.ts:3-18 | with id flagged as primary key, the key is id alone |
| Countries.TwoCountriesKeyValues | example/countries.ts:3-18 | the `in` list of ids 1 and 2 is "1,2" |
| Countries.DeleteCountriesRefused | example/countries.ts:107-115 | the sample table flags no primary key, so a delete is refused and nothing is queued |
| Countries.DeleteTwoCountries | example/countries.ts:3-18 | with `id` flagged as primary key (KeyedCountriesTable), deleting the rows with ids 1 and 2 queues one delete on public.countries filtered by id in "1,2" |

## Left out

- The query builder's implementation (`src/query`) is not part of this model. It is the
  record in `QueryBuilder`. SQL rendering (`toSql`) is not modelled, and the channel
  receives the record instead of the text.
- `getDefaultSorts` is not part of this model. `Reduce` takes it as the parameter
  `defaultSorts`.
- The execution channel and the error sink are external. The channel is the function
  parameter `exec`. The sink is the sequence `reported`.
- async/await, promises, `console.log` and concurrency are left out. The global write
  queue is one sequence field on the service, and `RunNextJob` runs one job at a time.
  A fetch that overlaps pending writes is not modelled.
- Numbers are modelled as integers. Floating-point pages, row counts and cell values are
  not modelled.
- A filter value is a string; JavaScript truthiness of other value types is not modelled.
- Cells holding objects, arrays or dates are not modelled. A `Value` is undefined, null,
  a boolean, a number or text.
- The composite-key delete and the `REMOVE_ROWS` arithmetic are modelled as written, not
  corrected.
- The JSON and text cell editors are user-interface code and are left out.
