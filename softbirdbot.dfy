/**
 * softbirdbot.py: the bot's database helpers, its guild registry, the
 * permission check, the field gates of `gset`/`gget` and the daytime label
 * of `status`. Each helper opens the database file by name; here that file
 * is the ConfigTable passed in.
 */
module SoftbirdBot {
  import opened Runtime
  import opened Schema
  import opened ConfigStore

  // ---------------------------------------------------------------- database helpers

  /** The column list of the INSERT in `db_insert`: schema order. */
  function InsertColumns(): (cols: seq<Column>)
    ensures ColumnList(cols) && cols == Columns
  {
    SchemaShape();
    [GuildId, AdminRoleId, GuildName, RconIp, RconPort, RconPw, McIp, McPort]
  }

  /** `db_insert`: insert one full row; a duplicate guildid is logged and skipped. */
  method DbInsert(db: ConfigTable, data: seq<string>) returns (r: Result<()>)
    requires db.Valid()
    modifies db
    ensures db.Valid()
    ensures (r, db.rows) == DbInsertEffect(old(db.rows), InsertColumns(), data)
  {
    var fault := db.Insert(InsertColumns(), data);
    match fault
    case None => r := Ok(());
    case Some(IntegrityError) => r := Ok(());  // logged as a warning, not raised
    case Some(e) => r := Raise(e);
  }

  /** `db_getfieldnames`: the table's column names. */
  method DbGetFieldNames(db: ConfigTable) returns (names: seq<string>)
    ensures names == Fields
  {
    names := db.Description();
  }

  /** `db_rowquery`: the row keyed `g` zipped with the column names; IndexError when there is none. */
  method DbRowQuery(db: ConfigTable, g: string) returns (r: Result<map<string, string>>)
    requires db.Valid()
    ensures r == RowDict(db.rows, g)
  {
    var found := db.SelectRows(g);
    if found == [] {
      return Raise(IndexError);
    }
    var records := found[0];
    var fields := DbGetFieldNames(db);
    r := Ok(Zip(fields, records));
  }

  /** `db_squery`: the named column of every row. */
  method DbSquery(db: ConfigTable, field: string) returns (r: Result<seq<string>>)
    requires db.Valid()
    ensures field !in Fields ==> r == Raise(NoSuchColumn(field))
    ensures field in Fields ==> r.Ok? && |r.value| == |db.rows|
    ensures field in Fields ==> forall i :: 0 <= i < |db.rows| ==> r.value[i] == db.rows[i][FieldIndex(field)]
  {
    r := db.SelectColumn(field);
  }

  /** `db_queryguildentry`: the named cell of the row keyed `g`, as a list of at most one value. */
  method DbQueryGuildEntry(db: ConfigTable, field: string, g: string) returns (r: Result<seq<string>>)
    requires db.Valid()
    ensures field !in Fields ==> r == Raise(NoSuchColumn(field))
    ensures field in Fields && !Registered(db.rows, g) ==> r == Ok([])
    ensures field in Fields && Registered(db.rows, g) ==> r == Ok([RowDict(db.rows, g).value[field]])
  {
    r := db.SelectCell(field, g);
  }

  /** `db_update`: set one cell of the row keyed `g`; exceptions propagate. */
  method DbUpdate(db: ConfigTable, field: string, v: string, g: string) returns (r: Result<()>)
    requires db.Valid()
    modifies db
    ensures db.Valid()
    ensures (r, db.rows) == UpdateEffect(old(db.rows), field, v, g)
  {
    r := db.Update(field, v, g);
  }

  /** Inserting a new guildid and reading it back gives each column the value at its position. */
  lemma InsertThenRowQuery(rows: seq<Row>, data: seq<string>)
    requires Consistent(rows) && |data| == |Fields| && !Registered(rows, data[0])
    ensures var after := DbInsertEffect(rows, InsertColumns(), data).1;
      RowDict(after, data[0]).Ok? &&
      forall j :: 0 <= j < |Fields| ==> RowDict(after, data[0]).value[Fields[j]] == data[j]
  {
    BindInSchemaOrder(data);
    NewInsertAppends(rows, InsertColumns(), data);
    var after := rows + [data];
    assert after[|rows|] == data;
  }

  // ---------------------------------------------------------------- guild registry

  function BlankRow(g: string): Row {
    [g, "", "", "", "", "", "", ""]
  }

  /**
   * `register_guild`: when the guild is not in the guildid column, insert a
   * row with only its guildid set and answer true; otherwise answer false.
   */
  function Registration(rows: seq<Row>, g: string): (out: (bool, seq<Row>))
    requires Consistent(rows)
    ensures Consistent(out.1) && Registered(out.1, g)
    ensures out.0 <==> !Registered(rows, g)
    ensures out.0 ==> out.1 == rows + [BlankRow(g)]
    ensures !out.0 ==> out.1 == rows
  {
    if Registered(rows, g) then (false, rows)
    else
      BindInSchemaOrder(BlankRow(g));
      NewInsertAppends(rows, InsertColumns(), BlankRow(g));
      assert (rows + [BlankRow(g)])[|rows|][0] == g;
      (true, DbInsertEffect(rows, InsertColumns(), BlankRow(g)).1)
  }

  /** Registering twice is registering once: the second call answers false and changes nothing. */
  lemma RegistrationIdempotent(rows: seq<Row>, g: string)
    requires Consistent(rows)
    ensures Registration(Registration(rows, g).1, g) == (false, Registration(rows, g).1)
  {
  }

  /** `check_guild_exists`: whether `g` is among the values of the guildid column. */
  method CheckGuildExists(db: ConfigTable, g: string) returns (found: bool)
    requires db.Valid()
    ensures found <==> Registered(db.rows, g)
  {
    var ids := DbSquery(db, KeyField);
    assert ids.Ok?;
    found := g in ids.value;
    assert found ==> Registered(db.rows, g) by {
      if found {
        var i :| 0 <= i < |ids.value| && ids.value[i] == g;
        assert db.rows[i][0] == g;
      }
    }
  }

  method RegisterGuild(db: ConfigTable, g: string) returns (added: bool)
    requires db.Valid()
    modifies db
    ensures db.Valid()
    ensures (added, db.rows) == Registration(old(db.rows), g)
  {
    var found := CheckGuildExists(db, g);
    if !found {
      var data := BlankRow(g);
      var ignored := DbInsert(db, data);
      added := true;
    } else {
      added := false;
    }
  }

  /**
   * `set_guild_config`: false and no change for an unregistered guild;
   * otherwise the update, true once it has run, its exception if it raised.
   */
  function ConfigChange(rows: seq<Row>, g: string, f: string, v: string): (out: (Result<bool>, seq<Row>))
    requires Consistent(rows)
    ensures Consistent(out.1)
    ensures !Registered(rows, g) ==> out == (Ok(false), rows)
    ensures Registered(rows, g) ==> (out.0 == Ok(true) <==> UpdateResult(rows, f, v, g).Ok?)
    ensures Registered(rows, g) && UpdateResult(rows, f, v, g).Raise? ==> out.0 == Raise(UpdateResult(rows, f, v, g).fault)
    ensures out.0 == Ok(true) ==> out.1 == UpdateResult(rows, f, v, g).value
    ensures out.0 != Ok(true) ==> out.1 == rows
  {
    if !Registered(rows, g) then (Ok(false), rows)
    else
      var (r, t) := UpdateEffect(rows, f, v, g);
      if r.Ok? then (Ok(true), t) else (Raise(r.fault), t)
  }

  /**
   * For a registered guild and an update that succeeds (any non-key column, or
   * guildid when the new id is free), set_guild_config answers true and
   * changes that one cell.
   */
  lemma ConfigChangeTouchesOneCell(rows: seq<Row>, g: string, f: string, v: string, p: nat)
    requires Consistent(rows) && (UpdateResult(rows, f, v, g).Ok? || (f in Fields && f != KeyField))
    requires p < |rows| && rows[p][0] == g
    ensures ConfigChange(rows, g, f, v) == (Ok(true), rows[p := rows[p][FieldIndex(f) := v]])
  {
    UpdateTouchesOneCell(rows, f, v, g);
  }

  method SetGuildConfig(db: ConfigTable, g: string, f: string, v: string) returns (r: Result<bool>)
    requires db.Valid()
    modifies db
    ensures db.Valid()
    ensures (r, db.rows) == ConfigChange(old(db.rows), g, f, v)
  {
    var found := CheckGuildExists(db, g);
    if found {
      var u := DbUpdate(db, f, v, g);
      if u.Raise? {
        r := Raise(u.fault);
      } else {
        r := Ok(true);
      }
    } else {
      r := Ok(false);
    }
  }

  // ---------------------------------------------------------------- permissions

  /** The number a string of decimal digits denotes, most significant digit first. */
  function DigitsValue(s: string): nat
    requires forall i :: 0 <= i < |s| ==> '0' <= s[i] <= '9'
  {
    if s == [] then 0 else DigitsValue(s[..|s| - 1]) * 10 + (s[|s| - 1] as int - '0' as int)
  }

  /** `str(n)` of a non-negative integer: its decimal digits, with no leading zero. */
  function Decimal(n: nat): (s: string)
    ensures |s| >= 1
    ensures forall i :: 0 <= i < |s| ==> '0' <= s[i] <= '9'
    ensures s[0] == '0' ==> s == "0"
    ensures DigitsValue(s) == n
    decreases n
  {
    var last := (('0' as int) + n % 10) as char;
    if n < 10 then [last]
    else
      var init := Decimal(n / 10);
      assert (init + [last])[..|init|] == init;
      init + [last]
  }

  /** Different ids print differently, so a stored role id matches at most one author role number. */
  lemma DecimalInjective(m: nat, n: nat)
    ensures Decimal(m) == Decimal(n) <==> m == n
  {
    if Decimal(m) == Decimal(n) {
      assert DigitsValue(Decimal(m)) == DigitsValue(Decimal(n));
    }
  }

  /** `[str(x.id) for x in author.roles]`: one id string per role, in role order, each denoting that role's number. */
  function RoleIds(roles: seq<nat>): (ids: seq<string>)
    ensures |ids| == |roles|
    ensures forall i :: 0 <= i < |roles| ==> ids[i] == Decimal(roles[i]) && DigitsValue(ids[i]) == roles[i]
    ensures forall i :: 0 <= i < |ids| ==> ids[i] != ""
  {
    seq(|roles|, i requires 0 <= i < |roles| => Decimal(roles[i]))
  }

  /**
   * `check_user_command_permissions`: "everyone" is granted; "admin" reads the
   * guild's row (IndexError when there is none) and is granted when its
   * adminroleid is one of the author's role ids, the function otherwise
   * falling off its end with None; any other level is refused.
   */
  function CheckUserCommandPermissions(rows: seq<Row>, roles: seq<nat>, g: string, level: string): (r: Result<PyValue>)
    requires Consistent(rows)
    ensures r == Ok(PyTrue) <==>
      level == "everyone" || (level == "admin" && Registered(rows, g) && RowFor(rows, g).value[1] in RoleIds(roles))
    ensures r == Ok(PyNone) <==>
      level == "admin" && Registered(rows, g) && RowFor(rows, g).value[1] !in RoleIds(roles)
    ensures r == Ok(PyFalse) <==> level != "admin" && level != "everyone"
    ensures r == Raise(IndexError) <==> level == "admin" && !Registered(rows, g)
  {
    if level == "admin" then
      match RowDict(rows, g)
      case Raise(e) => Raise(e)
      case Ok(guildcfg) =>
        SchemaShape();
        assert guildcfg[AdminRoleField] == guildcfg[Fields[1]];
        if guildcfg[AdminRoleField] in RoleIds(roles) then Ok(PyTrue) else Ok(PyNone)
    else if level == "everyone" then Ok(PyTrue)
    else Ok(PyFalse)
  }

  /**
   * A guild that has just been registered has an empty adminroleid, and no
   * role id prints as the empty string: no author passes the admin check.
   */
  lemma FreshGuildGrantsNoAdmin(rows: seq<Row>, g: string, roles: seq<nat>)
    requires Consistent(rows) && !Registered(rows, g)
    ensures CheckUserCommandPermissions(Registration(rows, g).1, roles, g, "admin") == Ok(PyNone)
  {
    var after := Registration(rows, g).1;
    assert after[|rows|] == BlankRow(g);
    assert RowFor(after, g).value == BlankRow(g);
    assert "" !in RoleIds(roles) by {
      forall i | 0 <= i < |roles| ensures RoleIds(roles)[i] != "" {
        assert |Decimal(roles[i])| >= 1;
      }
    }
  }

  // ---------------------------------------------------------------- gset / gget

  function UpdatedMessage(f: string, v: string): string {
    "Updated config: " + f + " set to " + v + "."
  }

  /**
   * `gset`: a name that is not a column gets no answer and no update;
   * `guildid` is refused; any other column goes through set_guild_config.
   */
  function GSetOutcome(rows: seq<Row>, g: string, f: string, v: string): (out: (Option<string>, seq<Row>))
    requires Consistent(rows)
    ensures Consistent(out.1)
    ensures f !in Fields ==> out == (None, rows)
    ensures f == KeyField ==> out == (Some("Cannot change guildid!"), rows)
    ensures f in Fields && f != KeyField && !Registered(rows, g) ==> out == (Some("Entry or guild not found!"), rows)
    ensures f in Fields && f != KeyField && Registered(rows, g) ==>
      out.0 == Some(UpdatedMessage(f, v)) &&
      forall p :: 0 <= p < |rows| && rows[p][0] == g ==> out.1 == rows[p := rows[p][FieldIndex(f) := v]]
  {
    if f in Fields then
      if f != KeyField then
        UpdateTouchesOneCell(rows, f, v, g);
        var (result, t) := ConfigChange(rows, g, f, v);
        if result == Ok(true) then (Some(UpdatedMessage(f, v)), t)
        else (Some("Entry or guild not found!"), t)
      else (Some("Cannot change guildid!"), rows)
    else (None, rows)
  }

  method GSet(db: ConfigTable, g: string, f: string, v: string) returns (reply: Option<string>)
    requires db.Valid()
    modifies db
    ensures db.Valid()
    ensures (reply, db.rows) == GSetOutcome(old(db.rows), g, f, v)
  {
    var fieldnamelist := DbGetFieldNames(db);
    if f in fieldnamelist {
      if f != KeyField {
        var result := SetGuildConfig(db, g, f, v);
        if result == Ok(true) {
          reply := Some(UpdatedMessage(f, v));
        } else {
          reply := Some("Entry or guild not found!");
        }
      } else {
        reply := Some("Cannot change guildid!");
      }
    } else {
      reply := None;
    }
  }

  /**
   * `gget`: "Field not found!" for a name that is not a column; otherwise the
   * guild's value of that column, or the IndexError of an unregistered guild.
   */
  function GGetReply(rows: seq<Row>, g: string, f: string): (r: Result<string>)
    requires Consistent(rows)
    ensures f !in Fields ==> r == Ok("Field not found!")
    ensures f in Fields && !Registered(rows, g) ==> r == Raise(IndexError)
    ensures f in Fields && Registered(rows, g) ==>
      r == Ok("Checked config: " + f + " is set to " + RowFor(rows, g).value[FieldIndex(f)] + ".")
  {
    if f in Fields then
      match RowDict(rows, g)
      case Ok(result) =>
        assert result[f] == result[Fields[FieldIndex(f)]];
        Ok("Checked config: " + f + " is set to " + result[f] + ".")
      case Raise(e) => Raise(e)
    else Ok("Field not found!")
  }

  method GGet(db: ConfigTable, g: string, f: string) returns (reply: Result<string>)
    requires db.Valid()
    ensures reply == GGetReply(db.rows, g, f)
  {
    var fieldnamelist := DbGetFieldNames(db);
    if f in fieldnamelist {
      var result := DbRowQuery(db, g);
      if result.Raise? {
        return Raise(result.fault);
      }
      reply := Ok("Checked config: " + f + " is set to " + result.value[f] + ".");
    } else {
      reply := Ok("Field not found!");
    }
  }

  // ---------------------------------------------------------------- status

  datatype Daytime = Sunrise | Morning | Afternoon | Sunset | Night | LateNight

  /** The tick range each label of `status` stands for. */
  predicate Within(d: Daytime, time: int) {
    match d
    case Sunrise => time >= 23000 || time < 1000
    case Morning => 1000 <= time < 6000
    case Afternoon => 6000 <= time < 12000
    case Sunset => 12000 <= time < 13000
    case Night => 13000 <= time < 18000
    case LateNight => 18000 <= time < 23000
  }

  /** The if-chain of `status` that names the time of day. */
  function DaytimeLabel(time: int): (d: Daytime)
    ensures Within(d, time)
  {
    if time >= 23000 || time < 1000 then Sunrise
    else if time >= 1000 && time < 6000 then Morning
    else if time >= 6000 && time < 12000 then Afternoon
    else if time >= 12000 && time < 13000 then Sunset
    else if time >= 13000 && time < 18000 then Night
    else LateNight
  }

  /** The ranges are disjoint and cover every integer: each tick value has exactly one label. */
  lemma DaytimePartition(time: int, d: Daytime)
    ensures Within(d, time) <==> d == DaytimeLabel(time)
  {
  }

  /** The word `status` prints for each label; different labels print different words. */
  function DaytimeName(d: Daytime): (s: string)
    ensures s == "sunrise" <==> d == Sunrise
    ensures s == "morning" <==> d == Morning
    ensures s == "afternoon" <==> d == Afternoon
    ensures s == "sunset" <==> d == Sunset
    ensures s == "night" <==> d == Night
    ensures s == "late night" <==> d == LateNight
  {
    match d
    case Sunrise => "sunrise"
    case Morning => "morning"
    case Afternoon => "afternoon"
    case Sunset => "sunset"
    case Night => "night"
    case LateNight => "late night"
  }

  /**
   * `timeWord`, given the hour and minute strings `convert_time` produced:
   * the clock reading, then the time-of-day word in parentheses.
   */
  function TimeWord(hours: string, minutes: string, time: int): (s: string)
    ensures |s| == |hours| + |minutes| + |DaytimeName(DaytimeLabel(time))| + 4
    ensures s[..|hours| + 1 + |minutes|] == hours + ":" + minutes
    ensures s[|hours| + 1 + |minutes|..] == " (" + DaytimeName(DaytimeLabel(time)) + ")"
  {
    var clock := hours + ":" + minutes;
    var word := " (" + DaytimeName(DaytimeLabel(time)) + ")";
    assert (clock + word)[..|clock|] == clock;
    assert (clock + word)[|clock|..] == word;
    clock + word
  }
}
