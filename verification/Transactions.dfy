/** connection.rs and transaction.rs: the transaction depth, the queue of deferred rollbacks, the
    poison flag, and the transaction manager that turns calls into SQL. */
module Transactions {
  import opened Prelude
  import opened Engine

  /** A transaction level; level 1 is the outermost. */
  type Level = n: nat | n >= 1 witness 1

  datatype Failure =
    | WorkerCrashed
    | InvalidSavePointStatement
    | Database(error: EngineError)

  /** The value of a connection: its transaction bookkeeping and its engine. */
  datatype Conn<D> = Conn(depth: nat, pending: seq<Level>, failed: bool, engine: Engine<D>)

  /* The SQL that sqlx-core generates for a depth. */

  function BeginAt<D>(depth: nat): Stmt<D> {
    if depth == 0 then BeginSql else SavepointSql(depth)
  }

  function CommitAt<D>(depth: Level): Stmt<D> {
    if depth == 1 then CommitSql else ReleaseSql(depth - 1)
  }

  function RollbackAt<D>(depth: Level): Stmt<D> {
    if depth == 1 then RollbackSql else RollbackToSql(depth - 1)
  }

  /* What each operation does to the value of a connection. */

  function DrainQueue<D>(c: Conn<D>): (Conn<D>, Option<Failure>)
    decreases |c.pending|
  {
    if c.pending == [] then (c, None)
    else
      var depth := c.pending[0];
      var (engine, error) := Exec(c.engine, RollbackAt(depth));
      var popped := c.(pending := c.pending[1..], engine := engine);
      if error == None || (depth == 1 && error == Some(NoActiveTransaction)) then DrainQueue(popped)
      else (popped.(pending := [], failed := true), Some(Database(error.value)))
  }

  function Drain<D>(c: Conn<D>): (Conn<D>, Option<Failure>) {
    if c.failed then (c, Some(WorkerCrashed)) else DrainQueue(c)
  }

  /** Every operation first drains the queue and gives up when that fails. */
  function AfterDrain<D>(c: Conn<D>, next: Conn<D> -> (Conn<D>, Option<Failure>)): (Conn<D>, Option<Failure>) {
    var (drained, error) := Drain(c);
    if error.Some? then (drained, error) else next(drained)
  }

  /** Sends one statement and, when it succeeds, sets the depth. */
  function Send<D>(c: Conn<D>, stmt: Stmt<D>, depth: nat): (Conn<D>, Option<Failure>) {
    var (engine, error) := Exec(c.engine, stmt);
    if error.Some? then (c.(engine := engine), Some(Database(error.value)))
    else (c.(engine := engine, depth := depth), None)
  }

  /** `custom` says that the caller supplied its own text for the outermost BEGIN. */
  function BeginOp<D>(c: Conn<D>, custom: bool): (Conn<D>, Option<Failure>) {
    AfterDrain(c, (d: Conn<D>) =>
      if custom && d.depth > 0 then (d, Some(InvalidSavePointStatement))
      else Send(d, if custom then BeginSql else BeginAt(d.depth), d.depth + 1))
  }

  function CommitOp<D>(c: Conn<D>): (Conn<D>, Option<Failure>) {
    AfterDrain(c, (d: Conn<D>) => if d.depth == 0 then (d, None) else Send(d, CommitAt(d.depth), d.depth - 1))
  }

  function RollbackOp<D>(c: Conn<D>): (Conn<D>, Option<Failure>) {
    AfterDrain(c, (d: Conn<D>) => if d.depth == 0 then (d, None) else Send(d, RollbackAt(d.depth), d.depth - 1))
  }

  function DropOp<D>(c: Conn<D>): Conn<D> {
    if c.depth == 0 then c else c.(pending := c.pending + [c.depth], depth := c.depth - 1)
  }

  /** User SQL. */
  function QueryOp<D>(c: Conn<D>, effect: D -> Change<D>): (Conn<D>, Option<Failure>) {
    AfterDrain(c, (d: Conn<D>) => Send(d, UserSql(effect), d.depth))
  }

  /** The transaction bookkeeping of a connection, updated in place. */
  class TransactionState {
    var depth: nat
    var pendingRollbackDepths: seq<Level>
    var rollbackFailed: bool

    constructor ()
      ensures depth == 0 && pendingRollbackDepths == [] && !rollbackFailed
    {
      depth, pendingRollbackDepths, rollbackFailed := 0, [], false;
    }

    method IncrementDepth()
      modifies this`depth
      ensures depth == old(depth) + 1
    {
      depth := depth + 1;
    }

    method DecrementDepth()
      modifies this`depth
      ensures depth == if old(depth) > 0 then old(depth) - 1 else 0
    {
      if depth > 0 {
        depth := depth - 1;
      }
    }

    method MarkRollbackNeeded()
      modifies this`depth, this`pendingRollbackDepths
      ensures old(depth) == 0 ==> depth == 0 && pendingRollbackDepths == old(pendingRollbackDepths)
      ensures old(depth) > 0 ==> depth == old(depth) - 1
      ensures old(depth) > 0 ==> pendingRollbackDepths == old(pendingRollbackDepths) + [old(depth)]
    {
      if depth == 0 {
        return;
      }
      pendingRollbackDepths := pendingRollbackDepths + [depth];
      DecrementDepth();
    }

    method PopPendingRollback() returns (depth: Option<Level>)
      modifies this`pendingRollbackDepths
      ensures depth.None? <==> old(pendingRollbackDepths) == []
      ensures depth.None? ==> pendingRollbackDepths == []
      ensures depth.Some? ==> [depth.value] + pendingRollbackDepths == old(pendingRollbackDepths)
    {
      if pendingRollbackDepths == [] {
        return None;
      }
      depth := Some(pendingRollbackDepths[0]);
      pendingRollbackDepths := pendingRollbackDepths[1..];
    }

    method MarkRollbackFailed()
      modifies this`rollbackFailed, this`pendingRollbackDepths
      ensures rollbackFailed && pendingRollbackDepths == []
    {
      rollbackFailed := true;
      pendingRollbackDepths := [];
    }
  }

  /** A connection: every method leaves it in the state that the operation's function gives. */
  class TursoConnection<D> {
    const state: TransactionState
    var raw: Engine<D>

    ghost function View(): Conn<D>
      reads this, state
    {
      Conn(state.depth, state.pendingRollbackDepths, state.rollbackFailed, raw)
    }

    constructor (raw: Engine<D>)
      ensures View() == Conn(0, [], false, raw) && fresh(state)
    {
      this.raw := raw;
      state := new TransactionState();
    }

    method Execute(stmt: Stmt<D>) returns (error: Option<EngineError>)
      modifies this`raw
      ensures (raw, error) == Exec(old(raw), stmt)
    {
      var outcome := Exec(raw, stmt);
      raw, error := outcome.0, outcome.1;
    }

    method ClearPendingRollback() returns (error: Option<Failure>)
      modifies this`raw, state
      ensures (View(), error) == Drain(old(View()))
    {
      if state.rollbackFailed {
        return Some(WorkerCrashed);
      }
      var next := state.PopPendingRollback();
      while next.Some?
        invariant !state.rollbackFailed
        invariant Drain(old(View())) ==
                  DrainQueue(View().(pending :=
                    (if next.Some? then [next.value] else []) + state.pendingRollbackDepths))
        invariant next.None? ==> state.pendingRollbackDepths == []
        decreases next.Some?, |state.pendingRollbackDepths|
      {
        var depth := next.value;
        ghost var before := View().(pending := [depth] + state.pendingRollbackDepths);
        assert before.pending[1..] == state.pendingRollbackDepths;
        var outcome := Execute(RollbackAt(depth));
        if outcome.Some? && !(depth == 1 && outcome == Some(NoActiveTransaction)) {
          state.MarkRollbackFailed();
          return Some(Database(outcome.value));
        }
        next := state.PopPendingRollback();
      }
      assert View().(pending := [] + state.pendingRollbackDepths) == View();
      return None;
    }

    method Begin(custom: bool) returns (error: Option<Failure>)
      modifies this`raw, state
      ensures (View(), error) == BeginOp(old(View()), custom)
    {
      error := ClearPendingRollback();
      if error.Some? {
        return;
      }
      if custom && state.depth > 0 {
        return Some(InvalidSavePointStatement);
      }
      var outcome := Execute(if custom then BeginSql else BeginAt(state.depth));
      if outcome.Some? {
        return Some(Database(outcome.value));
      }
      state.IncrementDepth();
    }

    method Commit() returns (error: Option<Failure>)
      modifies this`raw, state
      ensures (View(), error) == CommitOp(old(View()))
    {
      error := ClearPendingRollback();
      if error.Some? || state.depth == 0 {
        return;
      }
      var outcome := Execute(CommitAt(state.depth));
      if outcome.Some? {
        return Some(Database(outcome.value));
      }
      state.DecrementDepth();
    }

    method Rollback() returns (error: Option<Failure>)
      modifies this`raw, state
      ensures (View(), error) == RollbackOp(old(View()))
    {
      error := ClearPendingRollback();
      if error.Some? || state.depth == 0 {
        return;
      }
      var outcome := Execute(RollbackAt(state.depth));
      if outcome.Some? {
        return Some(Database(outcome.value));
      }
      state.DecrementDepth();
    }

    method StartRollback()
      modifies state
      ensures View() == DropOp(old(View()))
    {
      state.MarkRollbackNeeded();
    }
  }
}
