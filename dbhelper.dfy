/**
 * dbhelper.py: the database helpers on one module-level connection `dbcon`,
 * modelled as the ConfigTable every call is handed, and the two fixture rows.
 */
module DbHelper {
  import opened Runtime
  import opened Schema
  import opened ConfigStore

  /** The two fixture binding lists. */
  const FTSData: seq<string> := ["398915618868428811", "8627190921047572491", "file transfer", "127.0.0.1", "1234", "FTSpw", "127.0.0.2", "5678"]
  const TTData: seq<string> := ["783401696277168138", "983868264570576906", "tufties", "192.168.0.1", "69420", "TTpw", "192.168.0.2", "25565"]

  /** Each fixture is a full row, and the two fixtures are different guilds. */
  lemma FixtureShape()
    ensures |FTSData| == |Fields| && |TTData| == |Fields|
    ensures FTSData[0] != TTData[0]
  {
    SchemaShape();
    assert FTSData[0][0] != TTData[0][0];
  }

  /** `db_insert`: insert one full row in schema order; a duplicate guildid is skipped. */
  method DbInsert(db: ConfigTable, data: seq<string>) returns (r: Result<()>)
    requires db.Valid()
    modifies db
    ensures db.Valid()
    ensures (r, db.rows) == DbInsertEffect(old(db.rows), Columns, data)
  {
    SchemaShape();
    var fault := db.Insert(Columns, data);
    match fault
    case None => r := Ok(());
    case Some(IntegrityError) => r := Ok(());  // logged, not raised
    case Some(e) => r := Raise(e);
  }

  /**
   * Into an empty table, a full row `a` is stored as given, inserting it again
   * changes nothing, and a row `b` for another guild is appended after it.
   */
  lemma InsertTwoGuilds(a: seq<string>, b: seq<string>)
    requires |a| == |Fields| && |b| == |Fields| && a[0] != b[0]
    ensures ColumnList(Columns)
    ensures DbInsertEffect([], Columns, a) == (Ok(()), [a])
    ensures DbInsertEffect([a], Columns, a) == (Ok(()), [a])
    ensures DbInsertEffect([a], Columns, b) == (Ok(()), [a, b])
  {
    BindInSchemaOrder(a);
    BindInSchemaOrder(b);
    NewInsertAppends([], Columns, a);
    assert [a][0][0] == a[0];
    DuplicateInsertIsNoOp([a], Columns, a);
    NewInsertAppends([a], Columns, b);
    assert [a] + [b] == [a, b];
  }

  /** The fixtures: TT into an empty table, TT again, then FTS. */
  lemma FixtureInserts()
    ensures ColumnList(Columns)
    ensures DbInsertEffect([], Columns, TTData) == (Ok(()), [TTData])
    ensures DbInsertEffect([TTData], Columns, TTData) == (Ok(()), [TTData])
    ensures DbInsertEffect([TTData], Columns, FTSData) == (Ok(()), [TTData, FTSData])
  {
    FixtureShape();
    InsertTwoGuilds(TTData, FTSData);
  }

  /** `db_squery`: the named column of every row. */
  method DbSquery(db: ConfigTable, field: string) returns (r: Result<seq<string>>)
    requires db.Valid()
    ensures field !in Fields ==> r == Raise(NoSuchColumn(field))
    ensures field in Fields ==> r.Ok? && |r.value| == |db.rows|
    ensures field in Fields ==> forall i :: 0 <= i < |db.rows| ==> r.value[i] == db.rows[i][FieldIndex(field)]
  {
    r := db.SelectColumn(field);
  }

  /** `db_update`: set one cell of the row keyed `g`; exceptions propagate. */
  method DbUpdate(db: ConfigTable, field: string, v: string, g: string) returns (r: Result<()>)
    requires db.Valid()
    modifies db
    ensures db.Valid()
    ensures (r, db.rows) == UpdateEffect(old(db.rows), field, v, g)
  {
    r := db.Update(field, v, g);
  }

  // ---------------------------------------------------------------- db_rowquery

  /** What `db_getfieldnames` is given: a database file name, or an already closed connection. */
  datatype Handle = FileName | ClosedConnection

  /**
   * `db_getfieldnames(dbname)`: it opens its argument with `sl.connect`,
   * which accepts a path and raises TypeError for a Connection object.
   */
  function FieldNames(h: Handle): (r: Result<seq<string>>)
    ensures r.Ok? <==> h == FileName
    ensures r.Ok? ==> r.value == Fields && Distinct(r.value)
    ensures r.Raise? ==> r.fault == TypeError
  {
    SchemaShape();
    if h == FileName then Ok(Fields) else Raise(TypeError)
  }

  method DbGetFieldNames(db: ConfigTable, h: Handle) returns (r: Result<seq<string>>)
    ensures r == FieldNames(h)
  {
    if h == FileName {
      var names := db.Description();
      r := Ok(names);
    } else {
      r := Raise(TypeError);
    }
  }

  /**
   * A row query that fetches the row keyed `g` and then asks `h` for the
   * column names: the fetch fails first on an absent guild.
   */
  function RowQuery(rows: seq<Row>, g: string, h: Handle): (r: Result<map<string, string>>)
    requires Consistent(rows)
    ensures h == FileName ==> r == RowDict(rows, g)
    ensures h == ClosedConnection ==> r == Raise(if Registered(rows, g) then TypeError else IndexError)
  {
    match RowFor(rows, g)
    case Raise(e) => Raise(e)
    case Ok(records) =>
      match FieldNames(h)
      case Raise(e) => Raise(e)
      case Ok(fields) => Ok(Zip(fields, records))
  }

  /**
   * `db_rowquery` as written: the row's values are read in column order, then
   * the connection object, closed by then, is passed where a file name is
   * expected.
   */
  method DbRowQuery(db: ConfigTable, g: string) returns (records: Result<Row>, r: Result<map<string, string>>)
    requires db.Valid()
    ensures records == RowFor(db.rows, g)
    ensures r == RowQuery(db.rows, g, ClosedConnection)
  {
    var found := db.SelectRows(g);
    if found == [] {
      return Raise(IndexError), Raise(IndexError);
    }
    var row := found[0];
    records := Ok(row);
    var fields := DbGetFieldNames(db, ClosedConnection);
    match fields
    case Raise(e) => r := Raise(e);
    case Ok(names) => r := Ok(Zip(names, row));
  }

  /** `db_rowquery` with the field names read from the database file, as softbirdbot.py does. */
  method DbRowQueryFixed(db: ConfigTable, g: string) returns (r: Result<map<string, string>>)
    requires db.Valid()
    ensures r == RowQuery(db.rows, g, FileName)
    ensures r == RowDict(db.rows, g)
  {
    var found := db.SelectRows(g);
    if found == [] {
      return Raise(IndexError);
    }
    var fields := DbGetFieldNames(db, FileName);
    match fields
    case Raise(e) => r := Raise(e);
    case Ok(names) => r := Ok(Zip(names, found[0]));
  }

  /**
   * On a table holding the one row `a`, the query as written raises TypeError
   * although the guild is present, while the corrected query answers with the
   * stored row.
   */
  lemma RowQueryOnOneRow(a: seq<string>)
    requires |a| == |Fields|
    ensures Consistent([a])
    ensures RowQuery([a], a[0], ClosedConnection) == Raise(TypeError)
    ensures RowQuery([a], a[0], FileName).Ok?
    ensures RowQuery([a], a[0], FileName).value["guildname"] == a[2]
  {
    SchemaShape();
    assert [a][0] == a;
    assert RowFor([a], a[0]).value == a;
    assert Fields[2] == "guildname";
  }

  /** The TT fixture: present, yet the query as written fails; corrected, it names the guild. */
  lemma FixtureRowQuery()
    ensures Consistent([TTData])
    ensures RowQuery([TTData], TTData[0], ClosedConnection) == Raise(TypeError)
    ensures RowQuery([TTData], TTData[0], FileName).Ok?
    ensures RowQuery([TTData], TTData[0], FileName).value["guildname"] == "tufties"
  {
    FixtureShape();
    RowQueryOnOneRow(TTData);
  }
}
