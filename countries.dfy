/** Scenarios on the sample `countries` table: six columns in schema `public`,
    identity column `id`, no column flagged as primary key. */
module Countries {
  import opened GridTypes
  import opened QueryBuilder
  import opened RowService

  const CountriesColumns: seq<Column> := [
    Column("id", 1, true, false),
    Column("name", 2, false, false),
    Column("iso2", 3, false, false),
    Column("iso3", 4, false, false),
    Column("local_name", 5, false, false),
    Column("continent", 6, false, false)
  ]

  const CountriesTable := Table("countries", Some("public"), CountriesColumns)

  /** The same table with `id` flagged as its primary key. */
  const KeyedCountriesTable := Table("countries", Some("public"), CountriesColumns[0 := Column("id", 1, true, true)])

  /** Filtering on Europe, page 1 of 100 rows, selects rows 0 to 99 of public.countries. */
  lemma EuropeFirstPage()
    ensures SelectQuery(CountriesTable, 1, 100, [Filter("continent", Eq, "Europe")], [])
         == Query("countries", Some("public"), Some(SelectRows),
                  [Filter("continent", Eq, "Europe")], [], map[], Some(Bounds(0, 99)))
  {
  }

  /** As shipped, the table has no primary-key column, so an update is refused
      and nothing is queued. */
  method UpdateCountryRefused(row: Row) returns (r: Outcome, queued: seq<Query>)
    ensures r == Fail(PrimaryKeyMissing) && queued == []
  {
    var service := new SqlRowService(CountriesTable);
    r := service.Update(row);
    queued := service.queue;
  }

  /** With `id` flagged, the primary key is `id` alone. */
  lemma KeyedCountriesKey()
    ensures PrimaryKeys(KeyedCountriesTable) == Success(["id"])
  {
    var columns := KeyedCountriesTable.columns;
    assert KeyColumns(columns[1..]) == [] by {
      assert KeyColumns(columns[5..]) == [];
      assert KeyColumns(columns[4..]) == [];
      assert KeyColumns(columns[3..]) == [];
      assert KeyColumns(columns[2..]) == [];
    }
    assert KeyColumns(columns) == [columns[0]];
    assert Names([columns[0]]) == ["id"];
  }

  const TwoCountries: seq<Row> := [map["id" := Num(1)], map["id" := Num(2)]]

  /** The `in` list for ids 1 and 2 is `1,2`. */
  lemma TwoCountriesKeyValues()
    ensures KeyValues(TwoCountries, "id") == "1,2"
  {
    var rows := TwoCountries;
    assert JoinText.ValueText(Num(1)) == "1" && JoinText.ValueText(Num(2)) == "2";
    var parts := seq(|rows|, i requires 0 <= i < |rows| => JoinText.ValueText(Lookup(rows[i], "id")));
    assert parts == ["1", "2"];
    assert JoinText.Join(parts) == "1,2";
  }

  /** As shipped, the table has no primary-key column, so a delete is refused
      and nothing is queued. */
  method DeleteCountriesRefused(rows: seq<Row>) returns (r: Outcome, queued: seq<Query>)
    ensures r == Fail(PrimaryKeyMissing) && queued == []
  {
    var service := new SqlRowService(CountriesTable);
    r := service.Delete(rows);
    queued := service.queue;
  }

  /** With `id` flagged as primary key (`KeyedCountriesTable`), deleting the rows
      with ids 1 and 2 queues one delete with `id in 1,2`. */
  method DeleteTwoCountries() returns (r: Outcome, queued: seq<Query>)
    ensures r == Done
    ensures queued == [Query("countries", Some("public"), Some(DeleteRows),
                             [Filter("id", In, "1,2")], [], map[], None)]
  {
    var service := new SqlRowService(KeyedCountriesTable);
    KeyedCountriesKey();
    TwoCountriesKeyValues();
    assert DeleteFilters(TwoCountries, ["id"]) == [Filter("id", In, "1,2")];
    r := service.Delete(TwoCountries);
    queued := service.queue;
  }
}
