/**
 * softbirdbot2.py: a second copy of the bot. Its helpers match
 * softbirdbot.py except that its INSERT names the columns in another order
 * and its set_guild_config checks existence in the configured database
 * (CONFIGDB) but updates the one it was given. It also carries the
 * whitelist command that maps an operation to remote-console commands.
 */
module SoftbirdBot2 {
  import opened Runtime
  import opened Schema
  import opened ConfigStore
  import SoftbirdBot

  // ---------------------------------------------------------------- database helpers

  /** The column list of the INSERT in `db_insert`: guildname moved to the end. */
  function InsertColumns(): (cols: seq<Column>)
    ensures ColumnList(cols)
    ensures cols[0] == Columns[0] && cols[1] == Columns[1] && cols[7] == GuildName
    ensures forall k :: 2 <= k < 7 ==> cols[k] == Columns[k + 1]
  {
    [GuildId, AdminRoleId, RconIp, RconPort, RconPw, McIp, McPort, GuildName]
  }

  /** `db_insert`: insert one full row in this file's column order; a duplicate guildid is skipped. */
  method DbInsert(db: ConfigTable, data: seq<string>) returns (r: Result<()>)
    requires db.Valid()
    modifies db
    ensures db.Valid()
    ensures (r, db.rows) == DbInsertEffect(old(db.rows), InsertColumns(), data)
  {
    var fault := db.Insert(InsertColumns(), data);
    match fault
    case None => r := Ok(());
    case Some(IntegrityError) => r := Ok(());  // logged and printed, not raised
    case Some(e) => r := Raise(e);
  }

  /** The row this file's INSERT column list binds: schema position j takes the binding named Fields[j]. */
  lemma BindInFileOrder(data: seq<string>)
    requires |data| == |Fields|
    ensures BindRow(InsertColumns(), data) == [data[0], data[1], data[7], data[2], data[3], data[4], data[5], data[6]]
  {
    var cols := InsertColumns();
    var row := BindRow(cols, data);
    assert cols[0] == GuildId && cols[1] == AdminRoleId && cols[7] == GuildName && cols[2] == RconIp;
    assert cols[3] == RconPort && cols[4] == RconPw && cols[5] == McIp && cols[6] == McPort;
    assert row[0] == data[0] && row[1] == data[1] && row[2] == data[7] && row[3] == data[2];
    assert row[4] == data[3] && row[5] == data[4] && row[6] == data[5] && row[7] == data[6];
    SameCells(row, [data[0], data[1], data[7], data[2], data[3], data[4], data[5], data[6]]);
  }

  /**
   * What this file's INSERT stores: `data[i]` goes to the i-th column of its
   * list, so the row in schema order is data[0], data[1], data[7], data[2..7].
   */
  lemma InsertPlacement(rows: seq<Row>, data: seq<string>)
    requires Consistent(rows) && |data| == |Fields| && !Registered(rows, data[0])
    ensures var after := DbInsertEffect(rows, InsertColumns(), data).1;
      && after == rows + [[data[0], data[1], data[7], data[2], data[3], data[4], data[5], data[6]]]
      && RowDict(after, data[0]).Ok?
      && RowDict(after, data[0]).value["guildname"] == data[7]
      && RowDict(after, data[0]).value["rconip"] == data[2]
  {
    BindInFileOrder(data);
    var row := BindRow(InsertColumns(), data);
    NewInsertAppends(rows, InsertColumns(), data);
    var after := rows + [row];
    assert after[|rows|] == row;
    assert RowFor(after, data[0]).value == row;
    var d := RowDict(after, data[0]).value;
    assert Fields[2] == "guildname" && Fields[3] == "rconip";
    assert d[Fields[2]] == row[2] == data[7];
    assert d[Fields[3]] == row[3] == data[2];
  }

  /** Into an empty table, an insert stores the one row its column list binds. */
  lemma FreshInsert(cols: seq<Column>, data: seq<string>, row: Row)
    requires ColumnList(cols) && |data| == |cols| && BindRow(cols, data) == row
    ensures DbInsertEffect([], cols, data).1 == [row]
  {
    NewInsertAppends([], cols, data);
  }

  /**
   * The same schema-order binding list that softbirdbot.py stores as given
   * lands here with guildname and the connection fields shifted.
   */
  lemma InsertOrderDiffers(data: seq<string>)
    requires |data| == |Fields| && data[2] != data[3]
    ensures DbInsertEffect([], InsertColumns(), data).1 != DbInsertEffect([], SoftbirdBot.InsertColumns(), data).1
  {
    var row := [data[0], data[1], data[7], data[2], data[3], data[4], data[5], data[6]];
    BindInFileOrder(data);
    FreshInsert(InsertColumns(), data, row);
    BindInSchemaOrder(data);
    FreshInsert(SoftbirdBot.InsertColumns(), data, data);
    assert row[3] != data[3];
  }

  method DbGetFieldNames(db: ConfigTable) returns (names: seq<string>)
    ensures names == Fields
  {
    names := db.Description();
  }

  /** `db_rowquery`: the same zip of column names and row as in softbirdbot.py. */
  method DbRowQuery(db: ConfigTable, g: string) returns (r: Result<map<string, string>>)
    requires db.Valid()
    ensures r == RowDict(db.rows, g)
  {
    var found := db.SelectRows(g);
    if found == [] {
      return Raise(IndexError);
    }
    var fields := DbGetFieldNames(db);
    r := Ok(Zip(fields, found[0]));
  }

  method DbSquery(db: ConfigTable, field: string) returns (r: Result<seq<string>>)
    requires db.Valid()
    ensures field !in Fields ==> r == Raise(NoSuchColumn(field))
    ensures field in Fields ==> r.Ok? && |r.value| == |db.rows|
    ensures field in Fields ==> forall i :: 0 <= i < |db.rows| ==> r.value[i] == db.rows[i][FieldIndex(field)]
  {
    r := db.SelectColumn(field);
  }

  method DbUpdate(db: ConfigTable, field: string, v: string, g: string) returns (r: Result<()>)
    requires db.Valid()
    modifies db
    ensures db.Valid()
    ensures (r, db.rows) == UpdateEffect(old(db.rows), field, v, g)
  {
    r := db.Update(field, v, g);
  }

  // ---------------------------------------------------------------- guild registry

  method CheckGuildExists(db: ConfigTable, g: string) returns (found: bool)
    requires db.Valid()
    ensures found <==> Registered(db.rows, g)
  {
    var ids := DbSquery(db, KeyField);
    assert ids.Ok?;
    found := g in ids.value;
    assert found ==> Registered(db.rows, g) by {
      if found {
        var i :| 0 <= i < |ids.value| && ids.value[i] == g;
        assert db.rows[i][0] == g;
      }
    }
  }

  /**
   * `set_guild_config` as written here: existence is checked in `checked`
   * (the CONFIGDB database) while the update goes to `rows` (the database
   * named by the caller).
   */
  function ConfigChange(checked: seq<Row>, rows: seq<Row>, g: string, f: string, v: string): (out: (Result<bool>, seq<Row>))
    requires Consistent(checked) && Consistent(rows)
    ensures Consistent(out.1)
    ensures !Registered(checked, g) ==> out == (Ok(false), rows)
    ensures Registered(checked, g) ==> (out.0 == Ok(true) <==> UpdateResult(rows, f, v, g).Ok?)
    ensures Registered(checked, g) && UpdateResult(rows, f, v, g).Raise? ==> out.0 == Raise(UpdateResult(rows, f, v, g).fault)
    ensures out.0 == Ok(true) ==> out.1 == UpdateResult(rows, f, v, g).value
    ensures out.0 != Ok(true) ==> out.1 == rows
  {
    if !Registered(checked, g) then (Ok(false), rows)
    else
      var (r, t) := UpdateEffect(rows, f, v, g);
      if r.Ok? then (Ok(true), t) else (Raise(r.fault), t)
  }

  /** With one database in both roles this is softbirdbot.py's set_guild_config. */
  lemma ConfigChangeOnOneDatabase(rows: seq<Row>, g: string, f: string, v: string)
    requires Consistent(rows)
    ensures ConfigChange(rows, rows, g, f, v) == SoftbirdBot.ConfigChange(rows, g, f, v)
  {
  }

  /**
   * With two databases the answer can be true although nothing changed:
   * the guild is in CONFIGDB but not in the database that was updated.
   */
  lemma TrueWithoutChange(checked: seq<Row>, rows: seq<Row>, g: string, f: string, v: string)
    requires Consistent(checked) && Consistent(rows)
    requires Registered(checked, g) && !Registered(rows, g) && f in Fields && f != KeyField
    ensures ConfigChange(checked, rows, g, f, v) == (Ok(true), rows)
  {
    UpdateTouchesOneCell(rows, f, v, g);
  }

  method SetGuildConfig(configDb: ConfigTable, db: ConfigTable, g: string, f: string, v: string) returns (r: Result<bool>)
    requires configDb.Valid() && db.Valid()
    modifies db
    ensures db.Valid()
    ensures (r, db.rows) == ConfigChange(old(configDb.rows), old(db.rows), g, f, v)
  {
    var found := CheckGuildExists(configDb, g);
    if found {
      var u := DbUpdate(db, f, v, g);
      if u.Raise? {
        r := Raise(u.fault);
      } else {
        r := Ok(true);
      }
    } else {
      r := Ok(false);
    }
  }

  // ---------------------------------------------------------------- whitelist

  /** `len(args) < 11` bounds the multi-player operations. */
  const MultiLimit: nat := 11

  /** The remote-console commands a run sends, in order, and the exception it ends with, if any. */
  datatype Run = Run(sent: seq<string>, fault: Option<Fault>)

  /** `' '.join(args)`: the arguments in order, single spaces between them. */
  function Join(args: seq<string>): (s: string)
    ensures args == [] ==> s == ""
    ensures |args| == 1 ==> s == args[0]
    decreases |args|
  {
    if |args| == 0 then ""
    else if |args| == 1 then args[0]
    else args[0] + " " + Join(args[1..])
  }

  /** Joining two non-empty lists is joining each and putting one space between. */
  lemma {:induction false} JoinAppend(xs: seq<string>, ys: seq<string>)
    requires xs != [] && ys != []
    ensures Join(xs + ys) == Join(xs) + " " + Join(ys)
    decreases |xs|
  {
    if |xs| == 1 {
      assert (xs + ys)[1..] == ys;
    } else {
      assert (xs + ys)[1..] == xs[1..] + ys;
      JoinAppend(xs[1..], ys);
    }
  }

  /** `f"{prefix}{i}"` for each argument `i`, in argument order. */
  function EachCommand(prefix: string, args: seq<string>): (commands: seq<string>)
    ensures |commands| == |args|
    ensures forall i :: 0 <= i < |args| ==> commands[i] == prefix + args[i]
  {
    if args == [] then [] else [prefix + args[0]] + EachCommand(prefix, args[1..])
  }

  predicate IsMulti(operation: string) {
    operation == "multiadd" || operation == "multidel"
  }

  predicate IsSingle(operation: string) {
    operation in {"add", "del", "remove", "list", "reload"}
  }

  function MultiPrefix(operation: string): string {
    if operation == "multiadd" then "whitelist add " else "whitelist remove "
  }

  /**
   * `whitelist` as written: after the loop of `multiadd`/`multidel` the
   * handler goes on to send `arguments`, which those branches never assign.
   */
  function WhitelistAsWritten(operation: string, args: seq<string>): (run: Run)
    ensures IsMulti(operation) && |args| < MultiLimit ==>
      run == Run(EachCommand(MultiPrefix(operation), args), Some(UnboundLocal("arguments")))
    ensures IsSingle(operation) ==> run.fault == None && |run.sent| == 1
  {
    if operation == "add" then Run(["whitelist add " + Join(args)], None)
    else if operation == "del" || operation == "remove" then Run(["whitelist remove " + Join(args)], None)
    else if operation == "list" then Run(["whitelist list"], None)
    else if operation == "reload" then Run(["whitelist reload"], None)
    else if operation == "multiadd" then
      if |args| < MultiLimit then Run(EachCommand("whitelist add ", args), Some(UnboundLocal("arguments")))
      else Run([], Some(TooManyArguments))
    else if operation == "multidel" then
      if |args| < MultiLimit then Run(EachCommand("whitelist remove ", args), Some(UnboundLocal("arguments")))
      else Run([], Some(TooManyArguments))
    else Run([], Some(MissingRequiredArgument))
  }

  /** A multi-player operation that fits the limit ends in an UnboundLocalError after its commands. */
  lemma MultiCommandFallsThrough()
    ensures WhitelistAsWritten("multiadd", ["Steve"]) == Run(["whitelist add Steve"], Some(UnboundLocal("arguments")))
  {
    assert EachCommand("whitelist add ", ["Steve"]) == ["whitelist add " + "Steve"];
    assert "whitelist add " + "Steve" == "whitelist add Steve";
  }

  /**
   * `whitelist` as intended: a single-command operation sends one command;
   * a multi-player operation sends one command per argument and stops; too
   * many arguments or an unknown operation raise before anything is sent.
   */
  function WhitelistPlan(operation: string, args: seq<string>): (run: Run)
    ensures run.fault == None <==> IsSingle(operation) || (IsMulti(operation) && |args| < MultiLimit)
    ensures run.fault != None ==> run.sent == []
    ensures IsMulti(operation) && |args| >= MultiLimit ==> run.fault == Some(TooManyArguments)
    ensures !IsSingle(operation) && !IsMulti(operation) ==> run.fault == Some(MissingRequiredArgument)
    ensures operation == "add" ==> run.sent == ["whitelist add " + Join(args)]
    ensures operation == "del" || operation == "remove" ==> run.sent == ["whitelist remove " + Join(args)]
    ensures operation == "list" ==> run.sent == ["whitelist list"]
    ensures operation == "reload" ==> run.sent == ["whitelist reload"]
    ensures IsMulti(operation) && |args| < MultiLimit ==>
      |run.sent| == |args| && forall i :: 0 <= i < |args| ==> run.sent[i] == MultiPrefix(operation) + args[i]
  {
    var written := WhitelistAsWritten(operation, args);
    if IsMulti(operation) && |args| < MultiLimit then Run(written.sent, None) else written
  }

  /** The intended run differs from the written one only in the exception that ends a multi-player run. */
  lemma WhitelistFix(operation: string, args: seq<string>)
    ensures WhitelistPlan(operation, args).sent == WhitelistAsWritten(operation, args).sent
    ensures !(IsMulti(operation) && |args| < MultiLimit) ==> WhitelistPlan(operation, args) == WhitelistAsWritten(operation, args)
    ensures IsMulti(operation) && |args| < MultiLimit ==>
      WhitelistAsWritten(operation, args).fault == Some(UnboundLocal("arguments")) && WhitelistPlan(operation, args).fault == None
  {
  }

  /** The loop of `multiadd`/`multidel`: one command per argument. */
  method SendEach(prefix: string, args: seq<string>) returns (sent: seq<string>)
    ensures sent == EachCommand(prefix, args)
  {
    sent := [];
    for i := 0 to |args|
      invariant |sent| == i
      invariant forall j :: 0 <= j < i ==> sent[j] == prefix + args[j]
    {
      sent := sent + [prefix + args[i]];
    }
  }

  /** `whitelist`, with the multi-player operations ending after their loop. */
  method Whitelist(operation: string, args: seq<string>) returns (sent: seq<string>, fault: Option<Fault>)
    ensures Run(sent, fault) == WhitelistPlan(operation, args)
  {
    var argument := Join(args);
    sent, fault := [], None;
    if operation == "add" {
      sent := ["whitelist add " + argument];
    } else if operation == "del" || operation == "remove" {
      sent := ["whitelist remove " + argument];
    } else if operation == "list" {
      sent := ["whitelist list"];
    } else if operation == "reload" {
      sent := ["whitelist reload"];
    } else if operation == "multiadd" {
      if |args| < MultiLimit {
        sent := SendEach("whitelist add ", args);
      } else {
        fault := Some(TooManyArguments);
      }
    } else if operation == "multidel" {
      if |args| < MultiLimit {
        sent := SendEach("whitelist remove ", args);
      } else {
        fault := Some(TooManyArguments);
      }
    } else {
      fault := Some(MissingRequiredArgument);
    }
  }

  // ---------------------------------------------------------------- gset / gget

  /**
   * `gset`: the same gate as softbirdbot.py's; it passes CONFIGDB as the
   * database, so existence check and update see the same table.
   */
  method GSet(db: ConfigTable, g: string, f: string, v: string) returns (reply: Option<string>)
    requires db.Valid()
    modifies db
    ensures db.Valid()
    ensures (reply, db.rows) == SoftbirdBot.GSetOutcome(old(db.rows), g, f, v)
  {
    ConfigChangeOnOneDatabase(db.rows, g, f, v);
    var fieldnamelist := DbGetFieldNames(db);
    if f in fieldnamelist {
      if f != KeyField {
        var result := SetGuildConfig(db, db, g, f, v);
        if result == Ok(true) {
          reply := Some(SoftbirdBot.UpdatedMessage(f, v));
        } else {
          reply := Some("Entry or guild not found!");
        }
      } else {
        reply := Some("Cannot change guildid!");
      }
    } else {
      reply := None;
    }
  }

  /** `gget`: the same answers as softbirdbot.py's. */
  method GGet(db: ConfigTable, g: string, f: string) returns (reply: Result<string>)
    requires db.Valid()
    ensures reply == SoftbirdBot.GGetReply(db.rows, g, f)
  {
    var fieldnamelist := DbGetFieldNames(db);
    if f in fieldnamelist {
      var result := DbRowQuery(db, g);
      if result.Raise? {
        return Raise(result.fault);
      }
      reply := Ok("Checked config: " + f + " is set to " + result.value[f] + ".");
    } else {
      reply := Ok("Field not found!");
    }
  }
}
