/**
 * The schema of the CONFIG table: eight TEXT columns, `guildid` the PRIMARY KEY.
 * Every cell is a string; a row lists its cells in column order.
 */
module Schema {

  const KeyField: string := "guildid"
  const AdminRoleField: string := "adminroleid"

  /** The column names in the order of the CREATE TABLE statement. */
  const Fields: seq<string> :=
    ["guildid", "adminroleid", "guildname", "rconip", "rconport", "rconpw", "mcip", "mcport"]

  type Row = seq<string>

  predicate Distinct(names: seq<string>) {
    forall i, j :: 0 <= i < j < |names| ==> names[i] != names[j]
  }

  /** The position in the schema of the column called `name`. */
  function FieldIndex(name: string): (k: nat)
    requires name in Fields
    ensures k < |Fields| && Fields[k] == name
  {
    if name == "guildid" then 0
    else if name == "adminroleid" then 1
    else if name == "guildname" then 2
    else if name == "rconip" then 3
    else if name == "rconport" then 4
    else if name == "rconpw" then 5
    else if name == "mcip" then 6
    else 7
  }

  /** The columns as SQL identifiers, in schema order. */
  datatype Column = GuildId | AdminRoleId | GuildName | RconIp | RconPort | RconPw | McIp | McPort

  const Columns: seq<Column> := [GuildId, AdminRoleId, GuildName, RconIp, RconPort, RconPw, McIp, McPort]

  /** The position of a column in the schema. */
  function Ordinal(c: Column): (j: nat)
    ensures j < |Columns| && Columns[j] == c
  {
    match c
    case GuildId => 0
    case AdminRoleId => 1
    case GuildName => 2
    case RconIp => 3
    case RconPort => 4
    case RconPw => 5
    case McIp => 6
    case McPort => 7
  }

  /** Position of the first occurrence of `c` in the column list `cols`. */
  function Position(cols: seq<Column>, c: Column): (k: nat)
    requires c in cols
    ensures k < |cols| && cols[k] == c
    ensures forall j :: 0 <= j < k ==> cols[j] != c
  {
    if cols[0] == c then 0 else 1 + Position(cols[1..], c)
  }

  /**
   * A column list an INSERT statement may name: every column exactly once,
   * in some order.
   */
  predicate ColumnList(cols: seq<Column>) {
    && |cols| == |Columns|
    && (forall i, j :: 0 <= i < j < |cols| ==> cols[i] != cols[j])
    && (forall j :: 0 <= j < |Columns| ==> Columns[j] in cols)
  }

  /** The schema: eight distinct columns, the key first. */
  lemma SchemaShape()
    ensures |Fields| == 8 && Fields[0] == KeyField && Fields[1] == AdminRoleField
    ensures Distinct(Fields) && ColumnList(Columns)
  {
    // The only names of equal length are the three six-letter ones.
    assert "rconip"[4] != "rconpw"[4];
    assert "rconip"[0] != "mcport"[0];
    assert "rconpw"[0] != "mcport"[0];
  }

  /** Two eight-cell rows with the same cells are the same row. */
  lemma SameCells(row: Row, other: Row)
    requires |row| == 8 == |other|
    requires row[0] == other[0] && row[1] == other[1] && row[2] == other[2] && row[3] == other[3]
    requires row[4] == other[4] && row[5] == other[5] && row[6] == other[6] && row[7] == other[7]
    ensures row == other
  {
    assert forall i :: 0 <= i < 8 ==> row[i] == other[i];
  }
}
