/** migrate.rs: applying and reverting migrations on a connection. */
module Migrations {
  import opened Prelude
  import opened Engine
  import opened Transactions
  import opened Runs
  import opened Identifiers
  import opened Executor
  import opened MigrationSql

  /** A row of the migrations table; the version is its primary key. */
  datatype Row = Row(description: string, success: bool, checksum: string, executionTime: int)

  /** What migration scripts work on, and the migrations table. */
  datatype Db<C> = Db(content: C, rows: map<int, Row>)

  /** `sql` is the script's text and `script` what the engine does for it. */
  datatype Migration<!C> = Migration(
    version: int, description: string, checksum: string, noTx: bool, sql: string, script: Db<C> -> Change<Db<C>>)

  datatype MigrateError =
    | InvalidTable(error: InvalidIdentifier)
    | ScriptFailed(failure: Failure, version: int)
    | CommandFailed(failure: Failure)

  /** Where `apply` came out. `RecordedDirty` and `DirtyNotRecorded` follow a failed script or record. */
  datatype ApplyOutcome =
    | Applied
    | BeginFailed(failure: Failure)
    | CommitFailed(failure: Failure)
    | RecordedDirty(cause: MigrateError)
    | DirtyNotRecorded(failure: Failure)
    | TimeNotRecorded(failure: Failure)

  /* The effects of the migration commands. */

  function InsertRow<C>(m: Migration<C>, success: bool): Db<C> -> Change<Db<C>> {
    (db: Db<C>) => Change(db.(rows := db.rows[m.version := Row(m.description, success, m.checksum, -1)]), true)
  }

  function UpdateTime<C>(m: Migration<C>, elapsed: int): Db<C> -> Change<Db<C>> {
    (db: Db<C>) =>
      Change(if m.version in db.rows
             then db.(rows := db.rows[m.version := db.rows[m.version].(executionTime := elapsed)])
             else db, true)
  }

  function DeleteRow<C>(m: Migration<C>): Db<C> -> Change<Db<C>> {
    (db: Db<C>) => Change(db.(rows := db.rows - {m.version}), true)
  }

  /* What apply and revert do to the value of a connection. */

  /** Runs the script and then one command. */
  function ScriptThen<C>(c: Conn<Db<C>>, m: Migration<C>, command: Db<C> -> Change<Db<C>>)
    : (Conn<Db<C>>, Option<MigrateError>)
  {
    var (ran, failure) := QueryOp(c, m.script);
    if failure.Some? then (ran, Some(ScriptFailed(failure.value, m.version)))
    else
      var (done, failure) := QueryOp(ran, command);
      (done, if failure.Some? then Some(CommandFailed(failure.value)) else None)
  }

  function RecordDirty<C>(c: Conn<Db<C>>, m: Migration<C>, cause: MigrateError): (Conn<Db<C>>, ApplyOutcome) {
    var (done, failure) := QueryOp(c, InsertRow(m, false));
    (done, if failure.Some? then DirtyNotRecorded(failure.value) else RecordedDirty(cause))
  }

  function RecordTime<C>(c: Conn<Db<C>>, m: Migration<C>, elapsed: int): (Conn<Db<C>>, ApplyOutcome) {
    var (done, failure) := QueryOp(c, UpdateTime(m, elapsed));
    (done, if failure.Some? then TimeNotRecorded(failure.value) else Applied)
  }

  /** A transaction handle that goes out of scope uncommitted is dropped. */
  function ApplyOp<C>(c: Conn<Db<C>>, m: Migration<C>, elapsed: int): (Conn<Db<C>>, ApplyOutcome) {
    if m.noTx then
      var (ran, error) := ScriptThen(c, m, InsertRow(m, true));
      if error.Some? then RecordDirty(ran, m, error.value) else RecordTime(ran, m, elapsed)
    else
      var (begun, failure) := BeginOp(c, false);
      if failure.Some? then (begun, BeginFailed(failure.value))
      else
        var (ran, error) := ScriptThen(begun, m, InsertRow(m, true));
        if error.Some? then RecordDirty(DropOp(ran), m, error.value)
        else CommitAndTime(ran, m, elapsed)
  }

  function CommitAndTime<C>(c: Conn<Db<C>>, m: Migration<C>, elapsed: int): (Conn<Db<C>>, ApplyOutcome) {
    var (committed, failure) := CommitOp(c);
    if failure.Some? then (DropOp(committed), CommitFailed(failure.value))
    else RecordTime(committed, m, elapsed)
  }

  function RevertOp<C>(c: Conn<Db<C>>, m: Migration<C>): (Conn<Db<C>>, Option<MigrateError>) {
    if m.noTx then ScriptThen(c, m, DeleteRow(m))
    else
      var (begun, failure) := BeginOp(c, false);
      if failure.Some? then (begun, Some(CommandFailed(failure.value)))
      else
        var (ran, error) := ScriptThen(begun, m, DeleteRow(m));
        if error.Some? then (DropOp(ran), error)
        else
          var (committed, failure) := CommitOp(ran);
          if failure.Some? then (DropOp(committed), Some(CommandFailed(failure.value)))
          else (committed, None)
  }

  /* The methods. Their commands are sent as text through FetchManySql, which never refuses them. */

  datatype Command = Insert(success: bool) | Time(elapsed: int) | Delete

  function TextOf(command: Command, table: seq<string>): (sql: string)
    ensures command.Insert? ==> "\nINSERT OR REPLACE INTO " + DisplayPath(table) <= sql
    ensures command.Time? ==> "\nUPDATE " + DisplayPath(table) <= sql
    ensures command.Delete? ==> "\nDELETE FROM " + DisplayPath(table) <= sql
  {
    match command
    case Insert(_) => InsertRowSql(table)
    case Time(_) => UpdateTimeSql(table)
    case Delete => DeleteRowSql(table)
  }

  /** What the engine does for the text of a command once the migration's values are bound to it. */
  function EffectOf<C>(command: Command, m: Migration<C>): Db<C> -> Change<Db<C>> {
    match command
    case Insert(success) => InsertRow(m, success)
    case Time(elapsed) => UpdateTime(m, elapsed)
    case Delete => DeleteRow(m)
  }

  method ExecuteCommand<C>(conn: TursoConnection<Db<C>>, table: seq<string>, m: Migration<C>, command: Command)
    returns (failure: Option<Failure>)
    requires IsPath(table)
    modifies conn`raw, conn.state
    ensures (conn.View(), failure) == QueryOp(old(conn.View()), EffectOf(command, m))
  {
    InsertRowIsBindable(table);
    UpdateTimeIsBindable(table);
    DeleteRowIsBindable(table);
    var error := FetchManySql(conn, TextOf(command, table), true, EffectOf(command, m));
    failure := if error.Some? then Some(error.value.failure) else None;
  }

  method ScriptAndCommand<C>(conn: TursoConnection<Db<C>>, table: seq<string>, m: Migration<C>, command: Command)
    returns (error: Option<MigrateError>)
    requires IsPath(table)
    modifies conn`raw, conn.state
    ensures (conn.View(), error) == ScriptThen(old(conn.View()), m, EffectOf(command, m))
  {
    var ran := FetchManySql(conn, m.sql, false, m.script);
    if ran.Some? {
      return Some(ScriptFailed(ran.value.failure, m.version));
    }
    var failure := ExecuteCommand(conn, table, m, command);
    error := if failure.Some? then Some(CommandFailed(failure.value)) else None;
  }

  method Apply<C>(conn: TursoConnection<Db<C>>, tableName: string, m: Migration<C>, elapsed: int)
    returns (r: Result<ApplyOutcome, InvalidIdentifier>)
    modifies conn`raw, conn.state
    ensures r.Failure? <==> ReadPath(tableName) == None
    ensures r.Failure? ==> r.error == InvalidIdentifier(tableName) && conn.View() == old(conn.View())
    ensures r.Success? ==> (conn.View(), r.value) == ApplyOp(old(conn.View()), m, elapsed)
  {
    var parsed := ParsePath(tableName);
    if parsed.Failure? {
      return Failure(parsed.error);
    }
    var table := parsed.value;
    DisplayIsCanonical(tableName);

    var error: Option<MigrateError>;
    if m.noTx {
      error := ScriptAndCommand(conn, table, m, Insert(true));
    } else {
      var failure := conn.Begin(false);
      if failure.Some? {
        return Success(BeginFailed(failure.value));
      }
      error := ScriptAndCommand(conn, table, m, Insert(true));
      if error.Some? {
        conn.StartRollback();
      } else {
        failure := conn.Commit();
        if failure.Some? {
          conn.StartRollback();
          return Success(CommitFailed(failure.value));
        }
      }
    }

    if error.Some? {
      var failure := ExecuteCommand(conn, table, m, Insert(false));
      return Success(if failure.Some? then DirtyNotRecorded(failure.value) else RecordedDirty(error.value));
    }
    var failure := ExecuteCommand(conn, table, m, Time(elapsed));
    return Success(if failure.Some? then TimeNotRecorded(failure.value) else Applied);
  }

  method Revert<C>(conn: TursoConnection<Db<C>>, tableName: string, m: Migration<C>)
    returns (error: Option<MigrateError>)
    modifies conn`raw, conn.state
    ensures ReadPath(tableName) == None ==>
              error == Some(InvalidTable(InvalidIdentifier(tableName))) && conn.View() == old(conn.View())
    ensures ReadPath(tableName).Some? ==> (conn.View(), error) == RevertOp(old(conn.View()), m)
  {
    var parsed := ParsePath(tableName);
    if parsed.Failure? {
      return Some(InvalidTable(parsed.error));
    }
    var table := parsed.value;
    DisplayIsCanonical(tableName);

    if m.noTx {
      error := ScriptAndCommand(conn, table, m, Delete);
      return;
    }
    var failure := conn.Begin(false);
    if failure.Some? {
      return Some(CommandFailed(failure.value));
    }
    error := ScriptAndCommand(conn, table, m, Delete);
    if error.Some? {
      conn.StartRollback();
      return;
    }
    failure := conn.Commit();
    if failure.Some? {
      conn.StartRollback();
      return Some(CommandFailed(failure.value));
    }
  }
}
