/**
 * The CONFIG table abstracted from SQLite: a sequence of rows in storage
 * order, each row eight strings in column order, no two rows with the same
 * guildid. The pure functions give the meaning of the SQL statements the bot
 * issues; the class `ConfigTable` is the database those statements change.
 */
module ConfigStore {
  import opened Runtime
  import opened Schema

  predicate WellFormed(rows: seq<Row>) {
    forall i :: 0 <= i < |rows| ==> |rows[i]| == |Fields|
  }

  /** The PRIMARY KEY constraint. */
  predicate UniqueKeys(rows: seq<Row>)
    requires WellFormed(rows)
  {
    forall i, j :: 0 <= i < |rows| && 0 <= j < |rows| && i != j ==> rows[i][0] != rows[j][0]
  }

  predicate Consistent(rows: seq<Row>) {
    WellFormed(rows) && UniqueKeys(rows)
  }

  /** Some row has guildid `g`. */
  predicate Registered(rows: seq<Row>, g: string)
    requires WellFormed(rows)
  {
    exists i :: 0 <= i < |rows| && rows[i][0] == g
  }

  // ---------------------------------------------------------------- INSERT

  /** The row that `INSERT INTO CONFIG (cols) values(?, ..., ?)` stores for the bindings `data`. */
  function BindRow(cols: seq<Column>, data: seq<string>): (row: Row)
    requires ColumnList(cols) && |data| == |cols|
    ensures |row| == |Fields|
    ensures forall k :: 0 <= k < |cols| ==> row[Ordinal(cols[k])] == data[k]
  {
    var row := seq(|Columns|, j requires 0 <= j < |Columns| => data[Position(cols, Columns[j])]);
    assert forall k :: 0 <= k < |cols| ==> row[Ordinal(cols[k])] == data[k] by {
      forall k | 0 <= k < |cols| ensures row[Ordinal(cols[k])] == data[k] {
        assert Position(cols, cols[k]) == k;
      }
    }
    row
  }

  /** The guildid a binding list would insert. */
  function KeyOf(cols: seq<Column>, data: seq<string>): string
    requires ColumnList(cols) && |data| == |cols|
  {
    BindRow(cols, data)[0]
  }

  /**
   * `INSERT` of one parameter set: a wrong number of bindings is a
   * ProgrammingError, a taken guildid an IntegrityError; `with db:` rolls a
   * failed statement back, so on failure the table is unchanged.
   */
  function InsertResult(rows: seq<Row>, cols: seq<Column>, data: seq<string>): (r: Result<seq<Row>>)
    requires Consistent(rows) && ColumnList(cols)
    ensures r.Ok? ==> |data| == |cols| && Consistent(r.value) && Registered(r.value, KeyOf(cols, data))
    ensures r.Ok? ==> |r.value| == |rows| + 1 && r.value[..|rows|] == rows
    ensures |data| != |cols| ==> r == Raise(ProgrammingError)
    ensures |data| == |cols| && Registered(rows, KeyOf(cols, data)) ==> r == Raise(IntegrityError)
    ensures |data| == |cols| && !Registered(rows, KeyOf(cols, data)) ==> r == Ok(rows + [BindRow(cols, data)])
  {
    if |data| != |cols| then Raise(ProgrammingError)
    else
      var row := BindRow(cols, data);
      if Registered(rows, row[0]) then Raise(IntegrityError)
      else
        assert (rows + [row])[|rows|][0] == row[0];
        Ok(rows + [row])
  }

  /**
   * What every `db_insert` of the bot does: run the INSERT, catch and log an
   * IntegrityError, let any other exception through.
   */
  function DbInsertEffect(rows: seq<Row>, cols: seq<Column>, data: seq<string>): (out: (Result<()>, seq<Row>))
    requires Consistent(rows) && ColumnList(cols)
    ensures Consistent(out.1)
    ensures out.0.Raise? <==> |data| != |cols|
    ensures out.0.Raise? ==> out.0.fault == ProgrammingError && out.1 == rows
  {
    match InsertResult(rows, cols, data)
    case Ok(t) => (Ok(()), t)
    case Raise(IntegrityError) => (Ok(()), rows)
    case Raise(e) => (Raise(e), rows)
  }

  /** A duplicate guildid is swallowed: no exception, no change. */
  lemma DuplicateInsertIsNoOp(rows: seq<Row>, cols: seq<Column>, data: seq<string>)
    requires Consistent(rows) && ColumnList(cols) && |data| == |cols|
    requires Registered(rows, KeyOf(cols, data))
    ensures DbInsertEffect(rows, cols, data) == (Ok(()), rows)
  {
  }

  /** A new guildid appends exactly the bound row. */
  lemma NewInsertAppends(rows: seq<Row>, cols: seq<Column>, data: seq<string>)
    requires Consistent(rows) && ColumnList(cols) && |data| == |cols|
    requires !Registered(rows, KeyOf(cols, data))
    ensures DbInsertEffect(rows, cols, data) == (Ok(()), rows + [BindRow(cols, data)])
  {
  }

  /** In schema order the bound row is the binding list itself. */
  lemma BindInSchemaOrder(data: seq<string>)
    requires |data| == |Fields|
    ensures ColumnList(Columns) && BindRow(Columns, data) == data
  {
    SchemaShape();
    var row := BindRow(Columns, data);
    forall j | 0 <= j < |Fields| ensures row[j] == data[j] {
      assert Ordinal(Columns[j]) == j;
    }
  }

  // ---------------------------------------------------------------- UPDATE

  /** Column `k` of every row keyed `g` set to `v`. */
  function SetCell(rows: seq<Row>, k: nat, v: string, g: string): seq<Row>
    requires WellFormed(rows) && k < |Fields|
  {
    seq(|rows|, i requires 0 <= i < |rows| => if rows[i][0] == g then rows[i][k := v] else rows[i])
  }

  /**
   * `UPDATE CONFIG SET field=? WHERE guildid==?`: an unknown field is an
   * OperationalError; moving a row onto a guildid another row holds breaks
   * the PRIMARY KEY; otherwise every matching row gets the new cell.
   */
  function UpdateResult(rows: seq<Row>, field: string, v: string, g: string): (r: Result<seq<Row>>)
    requires Consistent(rows)
    ensures r.Ok? ==> Consistent(r.value) && |r.value| == |rows|
    ensures r.Raise? <==> field !in Fields || (field == KeyField && v != g && Registered(rows, g) && Registered(rows, v))
    ensures field !in Fields ==> r == Raise(NoSuchColumn(field))
    ensures field in Fields && r.Raise? ==> r == Raise(IntegrityError)
  {
    if field !in Fields then Raise(NoSuchColumn(field))
    else if field == KeyField && v != g && Registered(rows, g) && Registered(rows, v) then Raise(IntegrityError)
    else
      var t := SetCell(rows, FieldIndex(field), v, g);
      assert UniqueKeys(t) by {
        SchemaShape();
        forall i, j | 0 <= i < |t| && 0 <= j < |t| && i != j ensures t[i][0] != t[j][0] {
          if field == KeyField && rows[i][0] == g && rows[j][0] != g {
            assert t[j] == rows[j];
            assert rows[j][0] != v;
          } else if field == KeyField && rows[j][0] == g && rows[i][0] != g {
            assert t[i] == rows[i];
            assert rows[i][0] != v;
          }
        }
      }
      Ok(t)
  }

  /**
   * An update that succeeds, of any column including guildid, changes exactly
   * one cell: column `field` of the one row keyed `g`. Every other row and
   * every other column stays; with no such row nothing changes. An update of
   * a non-key column always succeeds.
   */
  lemma UpdateTouchesOneCell(rows: seq<Row>, field: string, v: string, g: string)
    requires Consistent(rows) && (UpdateResult(rows, field, v, g).Ok? || (field in Fields && field != KeyField))
    ensures UpdateResult(rows, field, v, g).Ok?
    ensures !Registered(rows, g) ==> UpdateResult(rows, field, v, g).value == rows
    ensures forall p :: 0 <= p < |rows| && rows[p][0] == g ==>
      UpdateResult(rows, field, v, g).value == rows[p := rows[p][FieldIndex(field) := v]]
  {
    var t := UpdateResult(rows, field, v, g).value;
    var k := FieldIndex(field);
    forall p | 0 <= p < |rows| && rows[p][0] == g
      ensures t == rows[p := rows[p][k := v]]
    {
      forall i | 0 <= i < |rows| ensures t[i] == rows[p := rows[p][k := v]][i] {
        if i != p { assert rows[i][0] != g; }
      }
    }
    if !Registered(rows, g) {
      forall i | 0 <= i < |rows| ensures t[i] == rows[i] {
        assert rows[i][0] != g;
      }
    }
  }

  /** What every `db_update` of the bot does: run the UPDATE; nothing is caught. */
  function UpdateEffect(rows: seq<Row>, field: string, v: string, g: string): (out: (Result<()>, seq<Row>))
    requires Consistent(rows)
    ensures Consistent(out.1)
    ensures out.0.Raise? <==> UpdateResult(rows, field, v, g).Raise?
    ensures out.0.Raise? ==> out.0 == Raise(UpdateResult(rows, field, v, g).fault) && out.1 == rows
  {
    match UpdateResult(rows, field, v, g)
    case Ok(t) => (Ok(()), t)
    case Raise(e) => (Raise(e), rows)
  }

  // ---------------------------------------------------------------- SELECT

  /** The rows `SELECT * FROM CONFIG WHERE guildid=g` returns, in storage order. */
  function MatchingRows(rows: seq<Row>, g: string): seq<Row>
    requires WellFormed(rows)
  {
    if rows == [] then []
    else
      var last := rows[|rows| - 1];
      MatchingRows(rows[..|rows| - 1], g) + (if last[0] == g then [last] else [])
  }

  lemma {:induction false} MatchingRowsShape(rows: seq<Row>, g: string)
    requires Consistent(rows)
    ensures Registered(rows, g) ==> exists p :: 0 <= p < |rows| && rows[p][0] == g && MatchingRows(rows, g) == [rows[p]]
    ensures !Registered(rows, g) ==> MatchingRows(rows, g) == []
    decreases |rows|
  {
    if rows != [] {
      var init := rows[..|rows| - 1];
      var last := rows[|rows| - 1];
      assert forall i :: 0 <= i < |init| ==> init[i] == rows[i];
      MatchingRowsShape(init, g);
      if last[0] == g {
        assert !Registered(init, g) by {
          forall i | 0 <= i < |init| ensures init[i][0] != g {
            assert rows[i][0] != rows[|rows| - 1][0];
          }
        }
        assert MatchingRows(rows, g) == [rows[|rows| - 1]];
      } else if Registered(init, g) {
        var p :| 0 <= p < |init| && init[p][0] == g && MatchingRows(init, g) == [init[p]];
        assert rows[p] == init[p];
      } else {
        assert !Registered(rows, g) by {
          forall i | 0 <= i < |rows| ensures rows[i][0] != g {
            if i < |init| { assert init[i] == rows[i]; }
          }
        }
      }
    }
  }

  /**
   * `list([x for x in cursor][0])` after `SELECT * ... WHERE guildid=g`:
   * the row keyed `g`, or an IndexError when there is none.
   */
  function RowFor(rows: seq<Row>, g: string): (r: Result<Row>)
    requires Consistent(rows)
    ensures r.Ok? <==> Registered(rows, g)
    ensures r.Raise? ==> r.fault == IndexError
    ensures r.Ok? ==> |r.value| == |Fields| && r.value[0] == g
    ensures r.Ok? ==> forall p :: 0 <= p < |rows| && rows[p][0] == g ==> r.value == rows[p]
  {
    var found := MatchingRows(rows, g);
    MatchingRowsShape(rows, g);
    if found == [] then Raise(IndexError) else Ok(found[0])
  }

  /**
   * `dict(zip(names, values))`: pairs up to the shorter list; a repeated name
   * keeps the value of its last occurrence.
   */
  function Zip(names: seq<string>, values: seq<string>): (d: map<string, string>)
    ensures forall i :: 0 <= i < |names| && i < |values| ==> names[i] in d
    ensures forall x :: x in d ==> exists i :: 0 <= i < |names| && i < |values| && names[i] == x
    ensures Distinct(names) ==> forall i :: 0 <= i < |names| && i < |values| ==> d[names[i]] == values[i]
    decreases |names|
  {
    if names == [] || values == [] then map[]
    else
      var rest := Zip(names[1..], values[1..]);
      if names[0] in rest then rest else rest[names[0] := values[0]]
  }

  /** `db_rowquery`/`get_guild_config`: the row keyed `g` as a column-name dictionary. */
  function RowDict(rows: seq<Row>, g: string): (r: Result<map<string, string>>)
    requires Consistent(rows)
    ensures r.Ok? <==> Registered(rows, g)
    ensures r.Raise? ==> r.fault == IndexError
    ensures r.Ok? ==> forall x :: x in r.value <==> x in Fields
    ensures r.Ok? ==> r.value[KeyField] == g
    ensures r.Ok? ==> forall j :: 0 <= j < |Fields| ==> r.value[Fields[j]] == RowFor(rows, g).value[j]
  {
    SchemaShape();
    match RowFor(rows, g)
    case Ok(row) => Ok(Zip(Fields, row))
    case Raise(e) => Raise(e)
  }

  // ---------------------------------------------------------------- the database

  /** One SQLite database file holding the CONFIG table. */
  class ConfigTable {
    var rows: seq<Row>

    ghost predicate Valid()
      reads this
    {
      Consistent(rows)
    }

    /** A freshly created, empty CONFIG table. */
    constructor ()
      ensures Valid() && rows == []
    {
      rows := [];
    }

    /** `cursor.description` after `SELECT * FROM CONFIG`: one entry per column, in schema order. */
    method Description() returns (names: seq<string>)
      ensures names == Fields
      ensures |names| == 8 && Distinct(names)
    {
      SchemaShape();
      names := Fields;
    }

    /** `INSERT INTO CONFIG (cols) values(?, ...)` with `data` bound, then commit. */
    method Insert(cols: seq<Column>, data: seq<string>) returns (fault: Option<Fault>)
      requires Valid() && ColumnList(cols)
      modifies this
      ensures Valid()
      ensures InsertResult(old(rows), cols, data).Ok? ==>
        fault == None && rows == InsertResult(old(rows), cols, data).value
      ensures InsertResult(old(rows), cols, data).Raise? ==>
        fault == Some(InsertResult(old(rows), cols, data).fault) && rows == old(rows)
    {
      var r := InsertResult(rows, cols, data);
      if r.Ok? {
        rows := r.value;
        fault := None;
      } else {
        fault := Some(r.fault);
      }
    }

    /** `UPDATE CONFIG SET field=? WHERE guildid==?` with `(v, g)` bound, then commit. */
    method Update(field: string, v: string, g: string) returns (r: Result<()>)
      requires Valid()
      modifies this
      ensures Valid()
      ensures (r, rows) == UpdateEffect(old(rows), field, v, g)
    {
      var u := UpdateResult(rows, field, v, g);
      if u.Ok? {
        rows := u.value;
        r := Ok(());
      } else {
        r := Raise(u.fault);
      }
    }

    /** `SELECT field FROM CONFIG` read through the cursor: the column, one value per row, in storage order (SQL itself leaves the order open). */
    method SelectColumn(field: string) returns (r: Result<seq<string>>)
      requires Valid()
      ensures field !in Fields ==> r == Raise(NoSuchColumn(field))
      ensures field in Fields ==> r.Ok? && |r.value| == |rows|
      ensures field in Fields ==> forall i :: 0 <= i < |rows| ==> r.value[i] == rows[i][FieldIndex(field)]
    {
      if field !in Fields {
        return Raise(NoSuchColumn(field));
      }
      var k := FieldIndex(field);
      var column: seq<string> := [];
      var i := 0;
      while i < |rows|
        invariant 0 <= i <= |rows|
        invariant |column| == i
        invariant forall j :: 0 <= j < i ==> column[j] == rows[j][k]
      {
        column := column + [rows[i][k]];
        i := i + 1;
      }
      r := Ok(column);
    }

    /** `SELECT * FROM CONFIG WHERE guildid=g` read through the cursor into a list. */
    method SelectRows(g: string) returns (found: seq<Row>)
      requires Valid()
      ensures found == MatchingRows(rows, g)
      ensures Registered(rows, g) ==> found == [RowFor(rows, g).value]
      ensures !Registered(rows, g) ==> found == []
    {
      found := [];
      var i := 0;
      while i < |rows|
        invariant 0 <= i <= |rows|
        invariant found == MatchingRows(rows[..i], g)
      {
        assert rows[..i + 1][..i] == rows[..i];
        if rows[i][0] == g {
          found := found + [rows[i]];
        }
        i := i + 1;
      }
      assert rows[..|rows|] == rows;
      MatchingRowsShape(rows, g);
    }

    /** `SELECT field FROM CONFIG WHERE guildid=g`: the cell of the row keyed `g`, if there is such a row. */
    method SelectCell(field: string, g: string) returns (r: Result<seq<string>>)
      requires Valid()
      ensures field !in Fields ==> r == Raise(NoSuchColumn(field))
      ensures field in Fields && !Registered(rows, g) ==> r == Ok([])
      ensures field in Fields && Registered(rows, g) ==> r == Ok([RowFor(rows, g).value[FieldIndex(field)]])
    {
      if field !in Fields {
        return Raise(NoSuchColumn(field));
      }
      var k := FieldIndex(field);
      var found := SelectRows(g);
      assert |found| <= 1 && forall j :: 0 <= j < |found| ==> |found[j]| == |Fields|;
      var cells: seq<string> := [];
      var i := 0;
      while i < |found|
        invariant 0 <= i <= |found|
        invariant |cells| == i
        invariant forall j :: 0 <= j < i ==> cells[j] == found[j][k]
      {
        cells := cells + [found[i][k]];
        i := i + 1;
      }
      if Registered(rows, g) {
        assert cells == [found[0][k]];
      }
      r := Ok(cells);
    }
  }
}
