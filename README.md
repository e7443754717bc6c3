# MCRcon bot: the guild configuration table

This project models the per-guild configuration store of the MCRcon Discord bot, and the rules the bot builds on it. The store is the SQLite table `CONFIG`: eight TEXT columns with `guildid` as PRIMARY KEY. The model covers:

- the database helpers of `softbirdbot.py`, `softbirdbot2.py` and `dbhelper.py`, each file's version as written;
- the guild registry (`check_guild_exists`, `register_guild`, `set_guild_config`);
- the permission check;
- the `gset`/`gget` field-name gates;
- the time-of-day labels of `status`;
- the `whitelist` command mapping of `softbirdbot2.py`.

Modules:

- `Runtime`: Python outcomes. An operation either returns `Ok` or raises a `Fault`. `PyValue` is the `True`/`False`/`None` a coroutine can return.
- `Schema`: the column names in CREATE TABLE order. A `Column` datatype stands for the identifiers an INSERT statement lists.
- `ConfigStore`: the table as a class `ConfigTable` with a field `rows: seq<Row>` in storage order. `Valid()` holds when every row has eight cells and no two rows share a guildid. Pure functions give the meaning of each statement: INSERT (`InsertResult`, `DbInsertEffect`), UPDATE (`UpdateResult`, `UpdateEffect`), the row fetch (`RowFor`) and the name/value zip (`Zip`, `RowDict`). The methods are proved against those functions.
- `SoftbirdBot`, `SoftbirdBot2`, `DbHelper`: one module per source file. Each holds that file's helpers as methods on a `ConfigTable` and its rules as functions.

Modelling choices:

- A database file name, and the shared connection `dbcon` in `dbhelper.py`, become the `ConfigTable` a helper is handed.
- Guild ids are strings throughout.
- Author role ids are natural numbers. They are turned into strings (`str(x.id)`) by `SoftbirdBot.Decimal`.
- `set_guild_config` in `softbirdbot2.py` checks for the guild in `CONFIGDB` but updates the database it is given. It is therefore modelled over two tables. `SoftbirdBot2.ConfigChangeOnOneDatabase` shows that this agrees with `softbirdbot.py` when both are the same table, which is how `gset` calls it.
- `check_user_command_permissions` returns `None` for an admin-level request when the stored role is not among the author's roles, because the function falls off its end. The model keeps that `None` apart from `False`.

## Model

| member | source | states |
|---|---|---|
| Schema.SchemaShape | dbhelper.py:24-33 | Eight distinct column names, `guildid` first and `adminroleid` second; the schema-order column list names every column once |
| ConfigStore.BindRow | softbirdbot.py:64-68 | An INSERT with a column list stores the i-th binding in the column the list names i-th |
| ConfigStore.InsertResult | softbirdbot.py:64-68 | A wrong binding count is a ProgrammingError; a taken guildid is an IntegrityError; otherwise exactly the bound row is appended after the old rows, keeping guildids unique |
| ConfigStore.DbInsertEffect | softbirdbot.py:64-71 | `db_insert` raises only for a binding list of the wrong length (ProgrammingError), and then changes nothing; the table stays consistent |
| ConfigStore.DuplicateInsertIsNoOp | softbirdbot.py:70-71 | Inserting a guildid that already has a row returns normally and leaves the table unchanged |
| ConfigStore.NewInsertAppends | softbirdbot.py:64-68 | Inserting a new guildid appends exactly the bound row |
| ConfigStore.BindInSchemaOrder | softbirdbot.py:64 | With the column list in schema order the stored row is the binding list itself |
| ConfigStore.UpdateResult | softbirdbot.py:179-184 | UPDATE fails exactly for an unknown column (OperationalError, no such column) or when it would give guildid a value another row already holds (IntegrityError); otherwise row count and key uniqueness are kept |
| ConfigStore.UpdateTouchesOneCell | softbirdbot.py:179-184 | An update that succeeds, of any column including guildid, changes only that cell of the row keyed `g`; with no such row nothing changes; an update of a non-key column always succeeds |
| ConfigStore.UpdateEffect | softbirdbot.py:165-184 | `db_update` raises exactly when the UPDATE fails, with the UPDATE's own exception, and then leaves the table unchanged |
| ConfigStore.MatchingRowsShape | softbirdbot.py:97-101 | `SELECT * ... WHERE guildid=g` yields exactly the one row keyed `g`, or nothing |
| ConfigStore.RowFor | softbirdbot.py:102 | Indexing the fetched rows with `[0]` gives the row keyed `g` when there is one, and IndexError exactly when there is none |
| ConfigStore.Zip | softbirdbot.py:104 | `dict(zip(names, values))` maps each name to the value in its position when the names are distinct, and holds no other keys |
| ConfigStore.RowDict | softbirdbot.py:97-105 | The row query yields a dict with exactly the eight column names as keys, each mapped to that column's cell; IndexError exactly for an absent guild |
| ConfigStore.ConfigTable.constructor | dbhelper.py:24-33 | A new table is empty and consistent |
| ConfigStore.ConfigTable.Description | softbirdbot.py:79 | `cursor.description` lists the column names in schema order |
| ConfigStore.ConfigTable.Insert | softbirdbot.py:64-71 | The table becomes the INSERT's result, or is unchanged and the fault reported |
| ConfigStore.ConfigTable.Update | softbirdbot.py:179-184 | Outcome and new rows are those of `UpdateEffect` |
| ConfigStore.ConfigTable.SelectColumn | softbirdbot.py:148-155 | A column scan returns one value per row, in the table's storage order, the named column's cell; NoSuchColumn for an unknown name |
| ConfigStore.ConfigTable.SelectRows | softbirdbot.py:97-101 | The rows keyed `g`: the one row `RowFor` finds, or none |
| ConfigStore.ConfigTable.SelectCell | softbirdbot.py:158-163 | The named cell of the row keyed `g`, as a list of at most one value; NoSuchColumn for an unknown name |
| SoftbirdBot.InsertColumns | softbirdbot.py:64 | This file's INSERT names the columns in schema order |
| SoftbirdBot.DbInsert | softbirdbot.py:49-71 | Inserts in schema order; a duplicate guildid is swallowed; new rows as `DbInsertEffect` |
| SoftbirdBot.DbGetFieldNames | softbirdbot.py:73-80 | Returns the eight column names in schema order |
| SoftbirdBot.DbRowQuery | softbirdbot.py:82-105 | Returns `RowDict`: the column-name dict of the guild's row, IndexError for an absent guild |
| SoftbirdBot.DbSquery | softbirdbot.py:135-155 | The named column of every row, in storage order; NoSuchColumn for an unknown name |
| SoftbirdBot.DbQueryGuildEntry | softbirdbot.py:157-163 | The named field of the guild's row as a one-element list, the empty list for an absent guild |
| SoftbirdBot.DbUpdate | softbirdbot.py:165-184 | Outcome and new rows are those of `UpdateEffect` |
| SoftbirdBot.InsertThenRowQuery | softbirdbot.py:64-68 | After inserting a new guildid, the row query maps each column name to the value in that position |
| SoftbirdBot.Registration | softbirdbot.py:209-215 | True exactly when the guild was absent, and then exactly the row `[g, "", "", "", "", "", "", ""]` is appended; false and no change otherwise; afterwards the guild is registered |
| SoftbirdBot.RegistrationIdempotent | softbirdbot.py:209-215 | Registering a second time answers false and leaves the table as the first registration left it |
| SoftbirdBot.CheckGuildExists | softbirdbot.py:202-207 | True exactly when `g` is among the values of the guildid column |
| SoftbirdBot.RegisterGuild | softbirdbot.py:209-215 | Answer and new rows are those of `Registration` |
| SoftbirdBot.ConfigChange | softbirdbot.py:217-222 | False and no change for an unregistered guild; for a registered one true exactly when the update succeeds, with the new rows being the update's, and otherwise the update's exception escapes with the table unchanged |
| SoftbirdBot.ConfigChangeTouchesOneCell | softbirdbot.py:217-222 | For a registered guild and an update that succeeds (any non-key column, or guildid moved to a free id) the answer is true and only that one cell changes |
| SoftbirdBot.SetGuildConfig | softbirdbot.py:217-222 | Answer and new rows are those of `ConfigChange` |
| SoftbirdBot.Decimal | softbirdbot.py:253 | `str(n)` is a non-empty string of decimal digits that denote `n`, starting with '0' only when it is "0" |
| SoftbirdBot.DecimalInjective | softbirdbot.py:253 | Two ids print the same exactly when they are equal |
| SoftbirdBot.RoleIds | softbirdbot.py:253 | One id string per author role, in role order, each the decimal form of that role's number and never empty |
| SoftbirdBot.CheckUserCommandPermissions | softbirdbot.py:248-260 | True exactly for "everyone", or for "admin" when the stored adminroleid is among the author's stringified role ids; None for "admin" otherwise; False exactly for any other level; IndexError exactly for "admin" on an absent guild |
| SoftbirdBot.FreshGuildGrantsNoAdmin | softbirdbot.py:209-215 | On a guild just registered, with its empty adminroleid, the admin check grants no author |
| SoftbirdBot.GSetOutcome | softbirdbot.py:409-420 | A non-column name gets no reply and no update; `guildid` is refused with "Cannot change guildid!"; an unregistered guild gets "Entry or guild not found!"; otherwise the one cell changes and the reply is the "Updated config" message |
| SoftbirdBot.GSet | softbirdbot.py:407-420 | Reply and new rows are those of `GSetOutcome` |
| SoftbirdBot.GGetReply | softbirdbot.py:423-432 | "Field not found!" for a non-column name; IndexError for an absent guild; otherwise the stored value of that column |
| SoftbirdBot.GGet | softbirdbot.py:423-432 | Reply is that of `GGetReply` |
| SoftbirdBot.DaytimeLabel | softbirdbot.py:359-370 | The label of a tick value lies in that label's range |
| SoftbirdBot.DaytimePartition | softbirdbot.py:359-370 | Every integer lies in exactly one label's range, and that label is the one chosen |
| SoftbirdBot.DaytimeName | softbirdbot.py:359-370 | Each label prints as its own word (sunrise, morning, afternoon, sunset, night, late night), and each word names exactly one label |
| SoftbirdBot.TimeWord | softbirdbot.py:359-370 | `timeWord` is the clock reading `hours:minutes` followed by the chosen label's word in parentheses |
| SoftbirdBot2.InsertColumns | softbirdbot2.py:63 | This file's INSERT lists every column once: guildid and adminroleid first, then rconip through mcport in schema order, and guildname last |
| SoftbirdBot2.DbInsert | softbirdbot2.py:47-71 | Inserts in this file's column order; a duplicate guildid is swallowed |
| SoftbirdBot2.BindInFileOrder | softbirdbot2.py:63-68 | The stored row is data[0], data[1], data[7], data[2], ..., data[6] in schema order |
| SoftbirdBot2.InsertPlacement | softbirdbot2.py:63-68 | After inserting a new guildid, the row query gives guildname the binding `data[7]` and rconip the binding `data[2]` |
| SoftbirdBot2.FreshInsert | softbirdbot2.py:63-68 | Into an empty table an insert stores exactly the one row its column list binds |
| SoftbirdBot2.InsertOrderDiffers | softbirdbot2.py:63 | The same binding list stores a different row here than in softbirdbot.py whenever data[2] and data[3] differ |
| SoftbirdBot2.DbGetFieldNames | softbirdbot2.py:73-80 | Returns the eight column names in schema order |
| SoftbirdBot2.DbRowQuery | softbirdbot2.py:82-105 | Returns `RowDict`, IndexError for an absent guild |
| SoftbirdBot2.DbSquery | softbirdbot2.py:136-156 | The named column of every row; NoSuchColumn for an unknown name |
| SoftbirdBot2.DbUpdate | softbirdbot2.py:166-185 | Outcome and new rows are those of `UpdateEffect` |
| SoftbirdBot2.CheckGuildExists | softbirdbot2.py:195-200 | True exactly when `g` is among the values of the guildid column |
| SoftbirdBot2.ConfigChange | softbirdbot2.py:202-207 | Existence is judged on the CONFIGDB table: false and no change when the guild is absent there; otherwise true exactly when the update on the given table succeeds, and otherwise the update's exception escapes with that table unchanged |
| SoftbirdBot2.ConfigChangeOnOneDatabase | softbirdbot2.py:202-207 | With both tables the same, this version coincides with softbirdbot.py's |
| SoftbirdBot2.TrueWithoutChange | softbirdbot2.py:203-205 | A guild registered in CONFIGDB but absent from the given table gets true although nothing changes |
| SoftbirdBot2.SetGuildConfig | softbirdbot2.py:202-207 | Answer and new rows of the given table are those of `ConfigChange` |
| SoftbirdBot2.Join | softbirdbot2.py:265 | `' '.join(args)` is empty for no arguments and the argument itself for one |
| SoftbirdBot2.JoinAppend | softbirdbot2.py:265 | Joining two non-empty lists is joining each, with one space between |
| SoftbirdBot2.EachCommand | softbirdbot2.py:276-278 | One command per argument, in argument order, each the prefix followed by that argument |
| SoftbirdBot2.WhitelistAsWritten | softbirdbot2.py:264-292 | As written, a multiadd/multidel within the limit sends its per-argument commands and then fails on the unassigned `arguments`; a single-command operation sends one command |
| SoftbirdBot2.MultiCommandFallsThrough | softbirdbot2.py:274-290 | `multiadd Steve` sends "whitelist add Steve" and then raises an UnboundLocalError |
| SoftbirdBot2.WhitelistPlan | softbirdbot2.py:264-289 | add, del/remove, list and reload each send their one command; multiadd/multidel with fewer than 11 arguments send one command per argument; 11 or more raise TooManyArguments and an unknown operation raises MissingRequiredArgument, before anything is sent |
| SoftbirdBot2.WhitelistFix | softbirdbot2.py:264-292 | The intended run sends the same commands as the written one and differs only in the multi-player run's final UnboundLocalError |
| SoftbirdBot2.SendEach | softbirdbot2.py:276-278 | The loop over the arguments sends `EachCommand` |
| SoftbirdBot2.Whitelist | softbirdbot2.py:264-289 | Sent commands and fault are those of `WhitelistPlan` |
| SoftbirdBot2.GSet | softbirdbot2.py:331-344 | The same gate as softbirdbot.py's: reply and new rows are those of `SoftbirdBot.GSetOutcome` |
| SoftbirdBot2.GGet | softbirdbot2.py:347-356 | Reply is that of `SoftbirdBot.GGetReply` |
| DbHelper.FixtureShape | dbhelper.py:39-59 | FTS_data and TT_data each have eight entries and different guildids |
| DbHelper.DbInsert | dbhelper.py:62-88 | Inserts in schema order on the shared connection; a duplicate guildid is swallowed |
| DbHelper.InsertTwoGuilds | dbhelper.py:79-88 | A full row inserted into an empty table is stored as given; inserting it again changes nothing; a row for another guild is appended after it |
| DbHelper.FixtureInserts | dbhelper.py:39-88 | TT_data into an empty table gives the table `[TT_data]`; TT_data again leaves it unchanged; FTS_data then gives `[TT_data, FTS_data]` |
| DbHelper.DbSquery | dbhelper.py:119-140 | The named column of every row, in storage order; NoSuchColumn for an unknown name |
| DbHelper.DbUpdate | dbhelper.py:182-201 | Outcome and new rows are those of `UpdateEffect`: when the update succeeds, only the named column of the matching row changes (`UpdateTouchesOneCell`), for guildid too |
| DbHelper.FieldNames | dbhelper.py:142-150 | Given a file name, the column names in schema order; given a Connection object, `sl.connect` raises TypeError |
| DbHelper.DbGetFieldNames | dbhelper.py:142-150 | Result is that of `FieldNames` |
| DbHelper.RowQuery | dbhelper.py:168-177 | Fetching the row fails first with IndexError for an absent guild; with field names from the database file the result is `RowDict`; with field names asked of the connection it is TypeError for a present guild |
| DbHelper.DbRowQuery | dbhelper.py:152-180 | As written: reads the guild's row in column order (IndexError when absent), then fails with TypeError because the connection, not the file name, is passed on |
| DbHelper.DbRowQueryFixed | dbhelper.py:152-180 | With the file name passed on, the result is `RowDict`: the column-name dict of the guild's row |
| DbHelper.RowQueryOnOneRow | dbhelper.py:168-177 | On a one-row table the as-written query raises TypeError for the guild present, and the corrected one maps guildname to the row's third cell |
| DbHelper.FixtureRowQuery | dbhelper.py:168-177 | On the table holding TT_data the as-written query raises TypeError, and the corrected one answers guildname "tufties" |

## Left out

- Field names and guild ids are modelled only in their exact forms: lower-case column names and decimal guild ids. The source splices both into the SQL text (softbirdbot.py:97, :150, :158, :179). So SQLite would also take `GUILDNAME`, `rowid` or `*` as a field, and a non-numeric guild id raises OperationalError rather than the IndexError of `RowDict`. The `gset`/`gget` commands compare field names exactly with the schema list, so the command level is unaffected.
- Row order: SQL without ORDER BY promises no order, and `SELECT guildid` may come back in key order. The column scans return the table's storage order. Every caller only tests membership, so nothing above depends on the order.
- SQL text and the SQLite engine are abstracted away: statement parsing, type affinity (an integer guild id compared with a TEXT key matches its decimal string; guild ids are strings here), cursors, and connection opening and closing. The SQL errors modelled are an unknown column (NoSuchColumn), a PRIMARY KEY clash (IntegrityError) and a wrong binding count (ProgrammingError).
- `db_query` in all three files: its meaning is whatever SQL text the caller interpolates.
- `get_guild_config` is `db_rowquery` unchanged, and the model uses `RowDict` in its place.
- The `whitelist` command of `softbirdbot.py`: `add` shares its branch with `multiadd`, and `del`/`remove` share theirs with `multidel`. None of these branches assigns `arguments`. With fewer than 11 arguments, each of them sends one command per argument, reaches the final `rcon_command(arguments, ...)` and crashes there with an unbound local. With 11 or more, each raises TooManyArguments instead (softbirdbot.py:316, :324). Only `reload` and `list` get through.
- `convert_time`: floating-point division. `SoftbirdBot.TimeWord` takes the hour and minute strings it produces as parameters.
- `rcon_command`, `JavaServer.query()` and the slicing of their replies (`[46:-1]`, `[12:-1]`): network calls with an unseen reply format. The commands a whitelist run sends are returned as a list instead of being sent.
- Discord glue: bot wiring, event handlers, `on_command_error`, the owner/role checks in decorators, `get_user_object`, `uinf`, and the role objects of `softbirdbot2.py`'s `cmd`. An author is modelled as the list of their role ids.
- `raise commands.MissingRequiredArgument` constructs a discord.py exception whose constructor is not part of this model. The model records the class named in the raise statement.
- Concurrency: the handlers are coroutines and the check-then-insert of `register_guild` is not guarded. Operations here run one at a time.
- Logging, `print`, configuration and JSON loading, dotenv, the import-time insert in `dbhelper.py`, `main.py` and `sprotestatus.py`.

## Findings

| source | as written | input that shows it | evidently intended | confidence | as-written member | corrected member |
|---|---|---|---|---|---|---|
| softbirdbot2.py:274-290 | After the `multiadd`/`multidel` loop the handler falls through to `rcon_command(arguments, ...)`, but those branches never assign `arguments`, so the run ends in UnboundLocalError after its commands have been sent | `whitelist multiadd Steve` | The multi-player branches end after their loop, with no further command | not executed | SoftbirdBot2.MultiCommandFallsThrough | SoftbirdBot2.Whitelist |
| dbhelper.py:175 | `db_rowquery` hands the connection object `db`, already closed, to `db_getfieldnames`, which calls `sl.connect` on it and raises TypeError; the query never returns a dict | the table holding TT_data, guild "783401696277168138" | Pass `dbname`, as softbirdbot.py does, and return the column-name dict of the row | not executed | DbHelper.FixtureRowQuery | DbHelper.DbRowQueryFixed |
