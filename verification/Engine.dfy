/** The part of the database engine the adapter relies on: one current database, at most one
    transaction, and SQLite's stack of named savepoints ("Savepoints", SQLite documentation).

    `faults` is the environment's script: each statement consumes its first entry, and a statement
    issued after the script has run out meets no fault. Databases are values of any type D. */
module Engine {
  import opened Prelude

  /** What the environment does to one statement: lets it run, refuses it with nothing changed, or
      refuses it and rolls the whole transaction back (an engine-initiated abort). */
  datatype Fault = Healthy | Refuse | Abort

  datatype EngineError = NoActiveTransaction | NestedBegin | NoSuchSavepoint | StatementFailed

  /** The numeral of a savepoint called `_sqlx_savepoint_{name}`, and the database when it was set. */
  datatype Savepoint<D> = Savepoint(name: nat, snapshot: D)

  /** `implicit` marks a transaction that a SAVEPOINT opened on an idle engine: releasing its
      outermost savepoint commits it. */
  datatype Txn<D> = Idle | Open(base: D, implicit: bool, savepoints: seq<Savepoint<D>>)

  datatype Engine<D> = Engine(db: D, txn: Txn<D>, faults: seq<Fault>)

  /** The effect of user SQL: a failing batch may already have changed the database. */
  datatype Change<D> = Change(db: D, ok: bool)

  datatype Stmt<!D> =
    | BeginSql
    | SavepointSql(name: nat)
    | CommitSql
    | ReleaseSql(name: nat)
    | RollbackSql
    | RollbackToSql(name: nat)
    | UserSql(effect: D -> Change<D>)

  /** Position of the newest savepoint called `name`. */
  function Newest<D>(savepoints: seq<Savepoint<D>>, name: nat): (p: Option<nat>)
    ensures p.Some? ==> p.value < |savepoints| && savepoints[p.value].name == name
    ensures p.Some? ==> forall i :: p.value < i < |savepoints| ==> savepoints[i].name != name
    ensures p.None? ==> forall i :: 0 <= i < |savepoints| ==> savepoints[i].name != name
  {
    if savepoints == [] then None
    else if savepoints[|savepoints| - 1].name == name then Some(|savepoints| - 1)
    else Newest(savepoints[..|savepoints| - 1], name)
  }

  /** What remains of an open transaction when the engine abandons it. */
  function Abandon<D>(e: Engine<D>): Engine<D> {
    match e.txn
    case Idle => e
    case Open(base, _, _) => e.(db := base, txn := Idle)
  }

  /** One statement that meets no fault. */
  function Perform<D>(e: Engine<D>, stmt: Stmt<D>): (Engine<D>, Option<EngineError>) {
    match (stmt, e.txn)
    case (BeginSql, Idle) => (e.(txn := Open(e.db, false, [])), None)
    case (BeginSql, Open(_, _, _)) => (e, Some(NestedBegin))
    case (SavepointSql(name), Idle) => (e.(txn := Open(e.db, true, [Savepoint(name, e.db)])), None)
    case (SavepointSql(name), Open(base, implicit, savepoints)) =>
      (e.(txn := Open(base, implicit, savepoints + [Savepoint(name, e.db)])), None)
    case (CommitSql, Idle) => (e, Some(NoActiveTransaction))
    case (CommitSql, Open(_, _, _)) => (e.(txn := Idle), None)
    case (ReleaseSql(_), Idle) => (e, Some(NoSuchSavepoint))
    case (ReleaseSql(name), Open(base, implicit, savepoints)) =>
      var p := Newest(savepoints, name);
      if p.None? then (e, Some(NoSuchSavepoint))
      else if p.value == 0 && implicit then (e.(txn := Idle), None)
      else (e.(txn := Open(base, implicit, savepoints[..p.value])), None)
    case (RollbackSql, Idle) => (e, Some(NoActiveTransaction))
    case (RollbackSql, Open(_, _, _)) => (Abandon(e), None)
    case (RollbackToSql(_), Idle) => (e, Some(NoSuchSavepoint))
    case (RollbackToSql(name), Open(base, implicit, savepoints)) =>
      var p := Newest(savepoints, name);
      if p.None? then (e, Some(NoSuchSavepoint))
      else (e.(db := savepoints[p.value].snapshot, txn := Open(base, implicit, savepoints[..p.value + 1])), None)
    case (UserSql(effect), _) =>
      var change := effect(e.db);
      (e.(db := change.db), if change.ok then None else Some(StatementFailed))
  }

  /** One statement under the environment's next decision. */
  function Exec<D>(e: Engine<D>, stmt: Stmt<D>): (Engine<D>, Option<EngineError>) {
    if e.faults == [] then Perform(e, stmt)
    else
      var rest := e.(faults := e.faults[1..]);
      match e.faults[0]
      case Healthy => Perform(rest, stmt)
      case Refuse => (rest, Some(StatementFailed))
      case Abort => (Abandon(rest), Some(StatementFailed))
  }

  predicate NoAbort<D>(e: Engine<D>) { Abort !in e.faults }

  /** How many statements the environment is still going to refuse. */
  function Refusals(faults: seq<Fault>): nat {
    if faults == [] then 0 else (if faults[0] == Refuse then 1 else 0) + Refusals(faults[1..])
  }

  predicate NoFault<D>(e: Engine<D>) { NoAbort(e) && Refusals(e.faults) == 0 }
}
