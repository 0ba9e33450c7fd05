/** What transactional migrations guarantee, whatever statements the engine refuses or aborts. */
module MigrationLaws {
  import opened Prelude
  import opened Engine
  import opened Transactions
  import opened Runs
  import opened Reports
  import opened Migrations

  /** A connection that refines p, or one that is poisoned or lost its transaction to an abort: in every
      case it leaves on record what p does. */
  ghost predicate Holds<D(!new)>(c: Conn<D>, p: Plain<D>) {
    && Durable(c.engine) == PlainDurable(p)
    && (c.failed || Refines(c, p) || Lost(c, p))
  }

  /** No lost level is still open, unless a queued one will give the loss away. */
  ghost predicate Usable<D(!new)>(c: Conn<D>, p: Plain<D>) {
    Holds(c, p) && (c.failed || Refines(c, p) || p.stack == [] || c.pending != [])
  }

  /** Nothing was aborted and nothing will be. */
  ghost predicate Unbroken<D(!new)>(c: Conn<D>, p: Plain<D>) {
    NoAbort(c.engine) && (c.failed || Refines(c, p))
  }

  lemma RefinedIsUsable<D(!new)>(c: Conn<D>, p: Plain<D>)
    requires Refines(c, p)
    ensures Usable(c, p)
  {
    RefinedViews(c, p);
  }

  /** A queue left over from an abort is forgiven if it holds the outermost level only. */
  lemma LostDrains<D(!new)>(c: Conn<D>, p: Plain<D>)
    requires Lost(c, p) && (p.stack == [] || c.pending != [])
    ensures var (d, error) := Drain(c);
            if error == None then d.pending == [] && RefinesVia(d, p, p.stack)
            else d.failed && Durable(d.engine) == PlainDurable(p)
  {
    if c.pending == [] {
      assert RefinesVia(c, p, []);
    } else if MeetsNoFault(c.engine) && c.pending[0] == 1 {
      var popped := c.(pending := [], engine := Performing(c.engine));
      assert c.pending[1..] == [] && Drain(c) == Drain(popped);
    }
  }

  /** Draining settles a connection on p, or poisons it. */
  lemma Drained<D(!new)>(c: Conn<D>, p: Plain<D>)
    requires Usable(c, p)
    ensures var (d, error) := Drain(c);
            && (if error == None then d.pending == [] && RefinesVia(d, p, p.stack)
                else d.failed && Durable(d.engine) == PlainDurable(p))
            && (Unbroken(c, p) ==> NoAbort(d.engine))
            && (Refines(c, p) && NoFault(c.engine) ==> error == None && NoFault(d.engine))
  {
    if Refines(c, p) {
      var levels :| RefinesVia(c, p, levels);
      DrainKeeps(c, p, levels);
      RefinedViews(c, p);
      assert levels != [] ==> Durable(c.engine) == levels[0];
    } else if !c.failed {
      LostDrains(c, p);
    }
  }

  /** One operation on a connection whose queue is empty. */
  lemma SendHolds<D(!new)>(c: Conn<D>, p: Plain<D>, op: Op<D>)
    requires c.pending == [] && RefinesVia(c, p, p.stack) && !op.Drop? && op != Begin(true)
    ensures var (after, seen) := (Step(c, op), Observed(c, op));
            var q := if seen.Refused? then p else PlainStep(p, op);
            && Holds(after, q) && !after.failed && after.pending == []
            && (!seen.Refused? ==> seen == PlainOutcome(p, op) && Refines(after, q))
            && (NoAbort(c.engine) ==> Unbroken(after, q))
            && (NoFault(c.engine) ==> NoFault(after.engine) && !seen.Refused?)
  {
    SendKeeps(c, p, op);
    assert Drain(c) == (c, None);
    var after := Step(c, op);
    var q := if Observed(c, op).Refused? then p else PlainStep(p, op);
    assert Refines(after, q) || (Lost(after, q) && Observed(c, op).Refused?);
    if Refines(after, q) {
      RefinedViews(after, q);
    }
  }

  /** An operation that is not refused does what the plain stack does; one that is refused leaves on
      record what was there, and the connection refines p, lost its levels or is poisoned. */
  lemma Stepped<D(!new)>(c: Conn<D>, p: Plain<D>, op: Op<D>)
    requires Usable(c, p) && !op.Drop? && op != Begin(true)
    ensures var (after, seen) := (Step(c, op), Observed(c, op));
            var q := if seen.Refused? then p else PlainStep(p, op);
            && Holds(after, q)
            && (!seen.Refused? ==> seen == PlainOutcome(p, op) && Refines(after, q) && after.pending == [])
            && (c.pending == [] && !c.failed ==> after.pending == [] && !after.failed)
            && (Unbroken(c, p) ==> Unbroken(after, q))
            && (Refines(c, p) && NoFault(c.engine) ==> NoFault(after.engine) && !seen.Refused?)
  {
    Drained(c, p);
    var (d, error) := Drain(c);
    if error == None {
      assert Drain(d) == (d, None);
      assert Step(c, op) == Step(d, op) && Observed(c, op) == Observed(d, op);
      SendHolds(d, p, op);
    } else {
      assert Step(c, op) == d && Observed(c, op) == Refused(error.value);
    }
  }

  /** A query that is known not to fail half-way. */
  lemma CommandRuns<D(!new)>(c: Conn<D>, p: Plain<D>, command: D -> Change<D>)
    requires Usable(c, p) && command(p.db).ok
    ensures var (after, failure) := QueryOp(c, command);
            var q := if failure == None then p.(db := command(p.db).db) else p;
            && Holds(after, q)
            && (failure == None ==> Refines(after, q))
            && (Unbroken(c, p) ==> Unbroken(after, q))
            && (Refines(c, p) && NoFault(c.engine) ==> NoFault(after.engine) && failure == None)
  {
    Stepped(c, p, Query(command));
    ObservedIsReturned(c, command);
  }

  /** Dropping the innermost handle, whether its level is still there or was lost. */
  lemma DropIsUsable<D(!new)>(c: Conn<D>, p: Plain<D>)
    requires Holds(c, p) && p.stack != []
    ensures Usable(DropOp(c), PlainDrop(p))
    ensures Refines(c, p) ==> Refines(DropOp(c), PlainDrop(p))
  {
    if Refines(c, p) {
      StepKeeps(c, p, Drop);
      RefinedIsUsable(DropOp(c), PlainDrop(p));
    }
  }

  /** Inside the transaction: whatever fails, dropping the handle leads back to the database at its begin. */
  lemma BodyRuns<C(!new)>(c: Conn<Db<C>>, p: Plain<Db<C>>, m: Migration<C>, command: Db<C> -> Change<Db<C>>)
    requires Refines(c, p) && c.pending == [] && p.stack != []
    requires forall db: Db<C> :: command(db).ok
    ensures var (ran, error) := ScriptThen(c, m, command);
            && (if error == None then m.script(p.db).ok && Refines(ran, p.(db := command(m.script(p.db).db).db))
                else Usable(DropOp(ran), PlainDrop(p)) && !ran.failed)
            && (NoAbort(c.engine) ==> NoAbort(ran.engine) && (error.Some? ==> Refines(DropOp(ran), PlainDrop(p))))
            && (NoFault(c.engine) ==> NoFault(ran.engine) && (error.Some? ==> !m.script(p.db).ok))
  {
    RefinedIsUsable(c, p);
    Stepped(c, p, Query(m.script));
    ObservedIsReturned(c, m.script);
    var (ran, failure) := QueryOp(c, m.script);
    var q := if Observed(c, Query(m.script)).Refused? then p else p.(db := m.script(p.db).db);
    if failure.Some? {
      DropIsUsable(ran, q);
      assert PlainDrop(q) == PlainDrop(p);
    } else {
      RefinedIsUsable(ran, q);
      Stepped(ran, q, Query(command));
      CommandRuns(ran, q, command);
      var (done, failure) := QueryOp(ran, command);
      if failure.Some? {
        DropIsUsable(done, q);
        assert PlainDrop(q) == PlainDrop(p);
      }
    }
  }

  /** The transaction of `apply` or `revert` from its begin to just before its commit. */
  lemma ScriptRuns<C(!new)>(c: Conn<Db<C>>, p: Plain<Db<C>>, m: Migration<C>, command: Db<C> -> Change<Db<C>>)
    requires Usable(c, p)
    requires forall db: Db<C> :: command(db).ok
    ensures var (begun, failure) := BeginOp(c, false);
            var (ran, error) := ScriptThen(begun, m, command);
            var inside := Plain(command(m.script(p.db).db).db, p.stack + [p.db]);
            && (failure.Some? ==> Holds(begun, p) && (Unbroken(c, p) ==> Unbroken(begun, p)))
            && (failure == None ==>
                  && (if error == None then m.script(p.db).ok && Refines(ran, inside)
                      else Usable(DropOp(ran), p) && !ran.failed)
                  && (Unbroken(c, p) ==> NoAbort(ran.engine) && (error.Some? ==> Refines(DropOp(ran), p))))
            && (Refines(c, p) && NoFault(c.engine) ==>
                  failure == None && NoFault(ran.engine) && (error.Some? ==> !m.script(p.db).ok))
  {
    Stepped(c, p, Begin(false));
    var (begun, failure) := BeginOp(c, false);
    if failure == None {
      var inside := Plain(p.db, p.stack + [p.db]);
      BodyRuns(begun, inside, m, command);
      assert inside.stack[..|inside.stack| - 1] == p.stack && PlainDrop(inside) == p;
    }
  }

  /** The end of a transaction: a commit that fails is followed by a drop, which leads back to p. */
  lemma CommitRuns<D(!new)>(c: Conn<D>, inside: Plain<D>, p: Plain<D>)
    requires Refines(c, inside) && inside.stack == p.stack + [p.db]
    ensures var (after, failure) := CommitOp(c);
            && (if failure == None then Refines(after, p.(db := inside.db)) else Usable(DropOp(after), p))
            && (NoAbort(c.engine) ==> NoAbort(after.engine) && (failure.Some? ==> Unbroken(DropOp(after), p)))
            && (NoFault(c.engine) ==> NoFault(after.engine) && failure == None)
  {
    RefinedIsUsable(c, inside);
    Stepped(c, inside, Commit);
    var (after, failure) := CommitOp(c);
    assert inside.stack[..|inside.stack| - 1] == p.stack && PlainDrop(inside) == p;
    if failure == None {
      assert PlainStep(inside, Commit) == p.(db := inside.db);
    } else {
      DropIsUsable(after, inside);
    }
  }

  function Up<C>(m: Migration<C>, db: Db<C>): Db<C> {
    InsertRow(m, true)(m.script(db).db).db
  }

  function Down<C>(m: Migration<C>, db: Db<C>): Db<C> {
    DeleteRow(m)(m.script(db).db).db
  }

  /** The database that each outcome of `apply` leaves, given the one it started from. */
  function ApplyEffect<C>(m: Migration<C>, elapsed: int, db: Db<C>, outcome: ApplyOutcome): Db<C> {
    var ran := m.script(db).db;
    match outcome
    case Applied => Db(ran.content, ran.rows[m.version := Row(m.description, true, m.checksum, elapsed)])
    case TimeNotRecorded(_) => Db(ran.content, ran.rows[m.version := Row(m.description, true, m.checksum, -1)])
    case RecordedDirty(_) => Db(db.content, db.rows[m.version := Row(m.description, false, m.checksum, -1)])
    case _ => db
  }

  /** What the record and the time of a migration add to what its script left. */
  lemma RowsRecorded<C>(m: Migration<C>, elapsed: int, db: Db<C>)
    ensures Up(m, db) == ApplyEffect(m, elapsed, db, TimeNotRecorded(WorkerCrashed))
    ensures UpdateTime(m, elapsed)(Up(m, db)).db == ApplyEffect(m, elapsed, db, Applied)
    ensures Down(m, db) == Db(m.script(db).db.content, m.script(db).db.rows - {m.version})
  {
    var rows, row := m.script(db).db.rows, Row(m.description, true, m.checksum, -1);
    assert rows[m.version := row][m.version := row.(executionTime := elapsed)] ==
           rows[m.version := row.(executionTime := elapsed)];
  }

  /** The end of an `apply` whose script and record have succeeded. */
  lemma ApplyCommits<C(!new)>(c: Conn<Db<C>>, p: Plain<Db<C>>, m: Migration<C>, elapsed: int)
    requires Refines(c, Plain(Up(m, p.db), p.stack + [p.db]))
    ensures var (after, outcome) := CommitAndTime(c, m, elapsed);
            var q := p.(db := ApplyEffect(m, elapsed, p.db, outcome));
            && Holds(after, q) && !outcome.RecordedDirty?
            && (outcome.Applied? ==> Refines(after, q))
            && (NoAbort(c.engine) ==> Unbroken(after, q))
            && (NoFault(c.engine) ==> outcome.Applied?)
  {
    RowsRecorded(m, elapsed, p.db);
    CommitRuns(c, Plain(Up(m, p.db), p.stack + [p.db]), p);
    var (committed, failure) := CommitOp(c);
    if failure == None {
      RefinedIsUsable(committed, p.(db := Up(m, p.db)));
      CommandRuns(committed, p.(db := Up(m, p.db)), UpdateTime(m, elapsed));
    } else {
      assert p.(db := p.db) == p;
    }
  }

  /** A transactional `apply` at any outer depth, after any dropped transactions, and whatever the engine
      refuses or aborts: if its script or record fails and the dirty row is recorded, exactly that row is
      added and every effect of the script is gone; if it is applied, the script's effects and the row are
      there; otherwise nothing has changed. The outer levels are untouched unless the engine aborted them. */
  lemma ApplyIsAtomic<C(!new)>(c: Conn<Db<C>>, p: Plain<Db<C>>, m: Migration<C>, elapsed: int)
    requires Usable(c, p) && !m.noTx
    ensures var (after, outcome) := ApplyOp(c, m, elapsed);
            var q := p.(db := ApplyEffect(m, elapsed, p.db, outcome));
            && Holds(after, q)
            && (outcome.Applied? || outcome.RecordedDirty? ==> Refines(after, q))
            && (outcome.Applied? || outcome.TimeNotRecorded? ==> m.script(p.db).ok)
            && (Unbroken(c, p) ==> Unbroken(after, q))
            && (Refines(c, p) && NoFault(c.engine) ==>
                  if m.script(p.db).ok then outcome.Applied? else outcome.RecordedDirty?)
  {
    var record := InsertRow(m, true);
    ScriptRuns(c, p, m, record);
    var (begun, failure) := BeginOp(c, false);
    var (ran, error) := ScriptThen(begun, m, record);
    assert p.(db := p.db) == p;
    if failure == None && error.Some? {
      CommandRuns(DropOp(ran), p, InsertRow(m, false));
    } else if failure == None {
      ApplyCommits(ran, p, m, elapsed);
    }
  }

  /** A transactional `revert` that succeeds has run its script and removed the row; one that fails
      leaves script effects and row as they were. */
  lemma RevertIsAtomic<C(!new)>(c: Conn<Db<C>>, p: Plain<Db<C>>, m: Migration<C>)
    requires Usable(c, p) && !m.noTx
    ensures var (after, error) := RevertOp(c, m);
            var ran := m.script(p.db).db;
            var q := if error == None then p.(db := Db(ran.content, ran.rows - {m.version})) else p;
            && Holds(after, q)
            && (error == None ==> m.script(p.db).ok && Refines(after, q))
            && (Unbroken(c, p) ==> Unbroken(after, q))
            && (Refines(c, p) && NoFault(c.engine) ==> (error == None <==> m.script(p.db).ok))
  {
    var command := DeleteRow(m);
    ScriptRuns(c, p, m, command);
    var (begun, failure) := BeginOp(c, false);
    var (ran, error) := ScriptThen(begun, m, command);
    if failure == None && error == None {
      CommitRuns(ran, Plain(Down(m, p.db), p.stack + [p.db]), p);
      if CommitOp(ran).1 == None {
        RefinedIsUsable(CommitOp(ran).0, p.(db := Down(m, p.db)));
      }
    }
  }

  /* Runs of migrations. */

  /** The up-scripts that are in effect; `debris` is any trace of a script that ran half-way. */
  datatype Ledger = Ledger(inEffect: set<int>, debris: bool)

  datatype MigrationOp = ApplyMigration(up: Migration<Ledger>, elapsed: int) | RevertMigration(down: Migration<Ledger>)

  /** A script changes the ledger only; when it succeeds it adds or removes exactly its version. */
  ghost predicate IsScript(m: Migration<Ledger>, up: bool) {
    && !m.noTx
    && forall db: Db<Ledger> {:trigger m.script(db)} ::
         && m.script(db).db.rows == db.rows
         && (m.script(db).ok ==>
               m.script(db).db.content ==
                 db.content.(inEffect :=
                   if up then db.content.inEffect + {m.version} else db.content.inEffect - {m.version}))
  }

  ghost predicate AreScripts(ops: seq<MigrationOp>) {
    forall i :: 0 <= i < |ops| ==>
      if ops[i].ApplyMigration? then IsScript(ops[i].up, true) else IsScript(ops[i].down, false)
  }

  /** The versions recorded as successful are exactly those whose up-script is in effect. */
  ghost predicate Truthful(db: Db<Ledger>) {
    && !db.content.debris
    && forall v :: v in db.content.inEffect <==> v in db.rows && db.rows[v].success
  }

  /** A migrator applies only versions that the table does not record as successful. */
  function MigrateStep(c: Conn<Db<Ledger>>, op: MigrationOp): Conn<Db<Ledger>> {
    match op
    case ApplyMigration(up, elapsed) =>
      var rows := Visible(c).rows;
      if up.version in rows && rows[up.version].success then c else ApplyOp(c, up, elapsed).0
    case RevertMigration(down) => RevertOp(c, down).0
  }

  function Migrate(c: Conn<Db<Ledger>>, ops: seq<MigrationOp>): Conn<Db<Ledger>>
    decreases |ops|
  {
    if ops == [] then c else Migrate(MigrateStep(c, ops[0]), ops[1..])
  }

  /* Truth needs no hypothesis on the depth, on what was dropped before or on what the engine does. */

  /** Whatever a rollback can lead back to is truthful. */
  ghost predicate Guarded(e: Engine<Db<Ledger>>) {
    match e.txn
    case Idle => Truthful(e.db)
    case Open(base, _, savepoints) =>
      Truthful(base) && forall i :: 0 <= i < |savepoints| ==> Truthful(savepoints[i].snapshot)
  }

  /** A database that no queued rollback is about to replace is truthful as well. */
  ghost predicate AtRest(c: Conn<Db<Ledger>>) {
    Guarded(c.engine) && (!c.failed && c.pending == [] ==> Truthful(c.engine.db))
  }

  /** A drain that succeeds under any faults ends where one without faults does. */
  lemma {:induction false} DrainShows<D>(c: Conn<D>)
    requires Drain(c).1 == None
    ensures Drain(c.(engine := c.engine.(faults := []))).0.engine == Drain(c).0.engine.(faults := [])
    ensures Visible(c) == Drain(c).0.engine.db
    decreases |c.pending|
  {
    if c.pending != [] {
      var calm := c.(engine := c.engine.(faults := []));
      var popped := c.(pending := c.pending[1..], engine := Exec(c.engine, RollbackAt(c.pending[0])).0);
      var calmPopped := calm.(pending := c.pending[1..], engine := Exec(calm.engine, RollbackAt(c.pending[0])).0);
      assert calmPopped == popped.(engine := popped.engine.(faults := []));
      DrainShows(popped);
    }
  }

  lemma {:induction false} DrainGuards(c: Conn<Db<Ledger>>)
    requires AtRest(c)
    ensures var (d, error) := Drain(c);
            Guarded(d.engine) && (error == None ==> Truthful(d.engine.db))
    decreases |c.pending|
  {
    if !c.failed && c.pending != [] {
      var popped := c.(pending := c.pending[1..], engine := Exec(c.engine, RollbackAt(c.pending[0])).0);
      var error := Exec(c.engine, RollbackAt(c.pending[0])).1;
      assert Guarded(popped.engine);
      if error == None || (c.pending[0] == 1 && error == Some(NoActiveTransaction)) {
        DrainGuards(popped);
      }
    }
  }

  /** A connection right after its begin, on the database that the begin remembered. */
  ghost predicate JustBegun<D>(c: Conn<D>, db: D) {
    && !c.failed && c.pending == [] && c.depth > 0 && c.engine.txn.Open? && c.engine.db == db
    && if c.depth == 1 then c.engine.txn.base == db
       else var savepoints := c.engine.txn.savepoints;
            savepoints != [] && savepoints[|savepoints| - 1] == Savepoint(c.depth - 1, db)
  }

  lemma BeginRemembers<D>(c: Conn<D>)
    ensures var (begun, failure) := BeginOp(c, false);
            failure == None ==> JustBegun(begun, Visible(c))
  {
    DrainEmpties(c);
    if Drain(c).1 == None {
      DrainShows(c);
    }
  }

  /** From its begin to its commit a transaction is all there, or gone after an abort. */
  ghost predicate Within<D>(ran: Conn<D>, begun: Conn<D>) {
    && !ran.failed && ran.pending == [] && ran.depth == begun.depth && begun.engine.txn.Open?
    && (ran.engine.txn == begun.engine.txn || (ran.engine.txn.Idle? && ran.engine.db == begun.engine.txn.base))
  }

  lemma BodyStaysWithin<C>(c: Conn<Db<C>>, m: Migration<C>, command: Db<C> -> Change<Db<C>>)
    requires !c.failed && c.pending == [] && c.engine.txn.Open?
    ensures var (ran, error) := ScriptThen(c, m, command);
            && Within(ran, c)
            && (error == None ==> m.script(c.engine.db).ok && ran.engine.txn.Open? &&
                                  ran.engine.db == command(m.script(c.engine.db).db).db)
  {
    var (ran, failure) := QueryOp(c, m.script);
    assert Drain(c) == (c, None) && QueryOp(c, m.script) == Send(c, UserSql(m.script), c.depth);
    assert Within(ran, c);
    if failure == None {
      assert Drain(ran) == (ran, None) && QueryOp(ran, command) == Send(ran, UserSql(command), ran.depth);
    }
  }

  /** Once the handle is dropped, a drain that succeeds leads back to the database at the begin. */
  lemma BodyIsUndone<D>(ran: Conn<D>, begun: Conn<D>, db: D)
    requires JustBegun(begun, db) && Within(ran, begun)
    ensures var (d, error) := Drain(DropOp(ran));
            error == None ==> d.engine.db == db
  {
    var dropped := DropOp(ran);
    var (engine, error) := Exec(dropped.engine, RollbackAt(ran.depth));
    var popped := dropped.(pending := [], engine := engine);
    assert dropped.pending == [ran.depth] && dropped.pending[1..] == [];
    assert DrainQueue(popped) == (popped, None);
    assert error == None || (ran.depth == 1 && error == Some(NoActiveTransaction)) ==> engine.db == db;
  }

  /** From any connection and under every fault, a transactional `apply` that reports success leaves what its
      script left and exactly its own row; one that reports a dirty row leaves what the next use of the
      connection would have seen and exactly that row. */
  lemma ApplyDoesWhatItReports<C>(c: Conn<Db<C>>, m: Migration<C>, elapsed: int)
    requires !m.noTx
    ensures var (after, outcome) := ApplyOp(c, m, elapsed);
            var before := Visible(c);
            var ran := m.script(before);
            && (outcome.Applied? || outcome.RecordedDirty? ==> !after.failed && after.pending == [])
            && (outcome.Applied? ==>
                  ran.ok && after.engine.db ==
                  Db(ran.db.content, ran.db.rows[m.version := Row(m.description, true, m.checksum, elapsed)]))
            && (outcome.RecordedDirty? ==>
                  after.engine.db ==
                  Db(before.content, before.rows[m.version := Row(m.description, false, m.checksum, -1)]))
            && (outcome.RecordedDirty? && outcome.cause.ScriptFailed? ==> outcome.cause.version == m.version)
  {
    BeginRemembers(c);
    RowsRecorded(m, elapsed, Visible(c));
    var (begun, failure) := BeginOp(c, false);
    if failure == None {
      BodyStaysWithin(begun, m, InsertRow(m, true));
      var (ran, error) := ScriptThen(begun, m, InsertRow(m, true));
      if error.Some? {
        BodyIsUndone(ran, begun, Visible(c));
        CommandShows(DropOp(ran), InsertRow(m, false));
      } else {
        assert Drain(ran) == (ran, None);
        CommandShows(CommitOp(ran).0, UpdateTime(m, elapsed));
      }
    }
  }

  predicate FromEngine(failure: Option<Failure>) {
    failure.Some? ==> failure.value.Database?
  }

  lemma QueryReportsEngine<D(!new)>(c: Conn<D>, effect: D -> Change<D>)
    requires !c.failed
    ensures FromEngine(QueryOp(c, effect).1)
    ensures c.pending == [] ==> !QueryOp(c, effect).0.failed && QueryOp(c, effect).0.pending == []
  {
    DrainReportsEngine(c);
    if Drain(c).1 == None {
      OperationReports(c, Query(effect));
      assert QueryOp(c, effect) == Send(Drain(c).0, UserSql(effect), Drain(c).0.depth);
    }
  }

  lemma DrainReportsEngine<D(!new)>(c: Conn<D>)
    requires !c.failed
    ensures FromEngine(Drain(c).1)
  {
    var k := FirstUnforgiven(c);
    DrainReports(c, k);
  }

  lemma ScriptReportsEngine<C(!new)>(c: Conn<Db<C>>, m: Migration<C>, command: Db<C> -> Change<Db<C>>)
    requires !c.failed && c.pending == []
    ensures var (ran, error) := ScriptThen(c, m, command);
            && !ran.failed && ran.pending == []
            && (error.Some? ==> !error.value.InvalidTable? && error.value.failure.Database?)
  {
    QueryReportsEngine(c, m.script);
    QueryReportsEngine(QueryOp(c, m.script).0, command);
  }

  function ReportedBy(outcome: ApplyOutcome): Option<Failure> {
    match outcome
    case Applied => None
    case RecordedDirty(cause) => if cause.InvalidTable? then None else Some(cause.failure)
    case BeginFailed(failure) => Some(failure)
    case CommitFailed(failure) => Some(failure)
    case DirtyNotRecorded(failure) => Some(failure)
    case TimeNotRecorded(failure) => Some(failure)
  }

  /** Whatever a transactional `apply` reports comes from the engine, even when it poisons the connection;
      on a poisoned connection nothing is tried. Without a transaction a script whose drain poisons the
      connection is reported as a crash, because the dirty row is tried on it. */
  lemma ApplyReportsEngine<C(!new)>(c: Conn<Db<C>>, m: Migration<C>, elapsed: int)
    ensures !c.failed && !m.noTx ==> FromEngine(ReportedBy(ApplyOp(c, m, elapsed).1))
    ensures c.failed && !m.noTx ==> ApplyOp(c, m, elapsed) == (c, BeginFailed(WorkerCrashed))
    ensures m.noTx && Drain(c).1.Some? ==> ApplyOp(c, m, elapsed) == (Drain(c).0, DirtyNotRecorded(WorkerCrashed))
  {
    DrainEmpties(c);
    if !c.failed && !m.noTx {
      DrainReportsEngine(c);
      var (begun, failure) := BeginOp(c, false);
      if Drain(c).1 == None {
        OperationReports(c, Begin(false));
      }
      if failure == None {
        ScriptReportsEngine(begun, m, InsertRow(m, true));
        var (ran, error) := ScriptThen(begun, m, InsertRow(m, true));
        QueryReportsEngine(DropOp(ran), InsertRow(m, false));
        OperationReports(ran, Commit);
        if error == None && CommitOp(ran).1 == None {
          QueryReportsEngine(CommitOp(ran).0, UpdateTime(m, elapsed));
        }
      }
    }
  }

  /** Without a transaction a script that fails half-way keeps what it did: the dirty row is all that tells. */
  lemma ApplyWithoutTransaction<C(!new)>(c: Conn<Db<C>>, m: Migration<C>, elapsed: int)
    requires m.noTx && NoFault(c.engine) && Drain(c).1 == None
    ensures var (after, outcome) := ApplyOp(c, m, elapsed);
            var ran := m.script(Visible(c));
            && outcome == (if ran.ok then Applied
                           else RecordedDirty(ScriptFailed(Database(StatementFailed), m.version)))
            && after.engine.db ==
               Db(ran.db.content,
                  ran.db.rows[m.version := if ran.ok then Row(m.description, true, m.checksum, elapsed)
                                           else Row(m.description, false, m.checksum, -1)])
            && !after.failed && after.pending == [] && after.depth == c.depth
  {
    DrainShows(c);
    DrainEmpties(c);
    DrainFaults(c);
    RowsRecorded(m, elapsed, Visible(c));
    var d := Drain(c).0;
    CalmQuery(d, m.script);
    assert QueryOp(c, m.script) == QueryOp(d, m.script);
    var ran := QueryOp(d, m.script).0;
    if m.script(d.engine.db).ok {
      CalmQuery(ran, InsertRow(m, true));
      CalmQuery(QueryOp(ran, InsertRow(m, true)).0, UpdateTime(m, elapsed));
    } else {
      CalmQuery(ran, InsertRow(m, false));
    }
  }

  lemma CalmQuery<D>(c: Conn<D>, effect: D -> Change<D>)
    requires !c.failed && c.pending == [] && NoFault(c.engine)
    ensures var (after, failure) := QueryOp(c, effect);
            && after == c.(engine := after.engine) && NoFault(after.engine)
            && after.engine.db == effect(c.engine.db).db
            && failure == if effect(c.engine.db).ok then None else Some(Database(StatementFailed))
  {
    assert Drain(c) == (c, None) && QueryOp(c, effect) == Send(c, UserSql(effect), c.depth);
  }

  lemma CommandShows<D>(c: Conn<D>, command: D -> Change<D>)
    ensures var (after, failure) := QueryOp(c, command);
            failure == None ==>
              && Drain(c).1 == None && after.engine.db == command(Drain(c).0.engine.db).db
              && !after.failed && after.pending == []
  {
    DrainEmpties(c);
    if Drain(c).1 == None {
      assert QueryOp(c, command) == Send(Drain(c).0, UserSql(command), Drain(c).0.depth);
    }
  }

  /** A transactional `revert` that reports success has run its script there and removed the row. */
  lemma RevertDoesWhatItReports<C>(c: Conn<Db<C>>, m: Migration<C>)
    requires !m.noTx
    ensures var (after, error) := RevertOp(c, m);
            var ran := m.script(Visible(c));
            error == None ==>
              && !after.failed && after.pending == [] && ran.ok
              && after.engine.db == Db(ran.db.content, ran.db.rows - {m.version})
  {
    BeginRemembers(c);
    RowsRecorded(m, 0, Visible(c));
    var (begun, failure) := BeginOp(c, false);
    if failure == None {
      BodyStaysWithin(begun, m, DeleteRow(m));
      var ran := ScriptThen(begun, m, DeleteRow(m)).0;
      assert Drain(ran) == (ran, None);
    }
  }

  lemma CommandStaysTruthful(c: Conn<Db<Ledger>>, command: Db<Ledger> -> Change<Db<Ledger>>)
    requires AtRest(c)
    requires Drain(c).1 == None ==> Truthful(command(Drain(c).0.engine.db).db)
    ensures AtRest(QueryOp(c, command).0)
  {
    DrainGuards(c);
    DrainEmpties(c);
    if Drain(c).1 == None {
      assert QueryOp(c, command) == Send(Drain(c).0, UserSql(command), Drain(c).0.depth);
    }
  }

  lemma BeginStaysTruthful(c: Conn<Db<Ledger>>)
    requires AtRest(c)
    ensures AtRest(BeginOp(c, false).0)
    ensures BeginOp(c, false).1 == None ==> Truthful(Visible(c))
  {
    DrainGuards(c);
    DrainEmpties(c);
    if Drain(c).1 == None {
      DrainShows(c);
    }
  }

  lemma CommitStaysTruthful(c: Conn<Db<Ledger>>)
    requires AtRest(c) && !c.failed && c.pending == [] && c.depth > 0
    ensures var (after, failure) := CommitOp(c);
            && (failure == None ==> AtRest(after) && after.engine.db == c.engine.db)
            && (failure.Some? ==> AtRest(DropOp(after)))
            && !after.failed && after.pending == []
  {
    assert Drain(c) == (c, None);
  }

  lemma ApplyStaysTruthful(c: Conn<Db<Ledger>>, m: Migration<Ledger>, elapsed: int)
    requires AtRest(c) && IsScript(m, true)
    requires !(m.version in Visible(c).rows && Visible(c).rows[m.version].success)
    ensures AtRest(ApplyOp(c, m, elapsed).0)
  {
    BeginStaysTruthful(c);
    BeginRemembers(c);
    var (begun, failure) := BeginOp(c, false);
    if failure == None {
      var db := Visible(c);
      assert m.version !in db.content.inEffect;
      BodyStaysWithin(begun, m, InsertRow(m, true));
      var (ran, error) := ScriptThen(begun, m, InsertRow(m, true));
      if error.Some? {
        BodyIsUndone(ran, begun, db);
        CommandStaysTruthful(DropOp(ran), InsertRow(m, false));
      } else {
        assert Truthful(Up(m, db));
        CommitStaysTruthful(ran);
        var (committed, failure) := CommitOp(ran);
        if failure == None {
          CommandStaysTruthful(committed, UpdateTime(m, elapsed));
        }
      }
    }
  }

  lemma RevertStaysTruthful(c: Conn<Db<Ledger>>, m: Migration<Ledger>)
    requires AtRest(c) && IsScript(m, false)
    ensures AtRest(RevertOp(c, m).0)
  {
    BeginStaysTruthful(c);
    BeginRemembers(c);
    var (begun, failure) := BeginOp(c, false);
    if failure == None {
      BodyStaysWithin(begun, m, DeleteRow(m));
      var (ran, error) := ScriptThen(begun, m, DeleteRow(m));
      if error == None {
        assert Truthful(Down(m, Visible(c)));
        CommitStaysTruthful(ran);
      }
    }
  }

  /** One apply of a version not recorded as successful, or one revert. */
  lemma TruthfulStep(c: Conn<Db<Ledger>>, op: MigrationOp)
    requires AtRest(c) && AreScripts([op])
    ensures AtRest(MigrateStep(c, op))
  {
    assert if op.ApplyMigration? then IsScript(op.up, true) else IsScript(op.down, false) by {
      assert [op][0] == op;
    }
    match op
    case ApplyMigration(up, elapsed) =>
      if !(up.version in Visible(c).rows && Visible(c).rows[up.version].success) {
        ApplyStaysTruthful(c, up, elapsed);
      }
    case RevertMigration(down) => RevertStaysTruthful(c, down);
  }

  /** Over every run of transactional applies and reverts, at any depth, with refusals and aborts anywhere:
      what is on record stays truthful, poisoned or not, and so does what the next use sees if it can
      drain the queue. */
  lemma {:induction false} MigrationsStayTruthful(c: Conn<Db<Ledger>>, ops: seq<MigrationOp>)
    requires AtRest(c) && AreScripts(ops)
    ensures var after := Migrate(c, ops);
            && AtRest(after) && Truthful(Durable(after.engine))
            && (Drain(after).1 == None ==> Truthful(Drain(after).0.engine.db) && Truthful(Visible(after)))
    decreases |ops|
  {
    if ops == [] {
      DrainGuards(c);
      if Drain(c).1 == None {
        DrainShows(c);
      }
    } else {
      assert AreScripts([ops[0]]);
      TruthfulStep(c, ops[0]);
      MigrationsStayTruthful(MigrateStep(c, ops[0]), ops[1..]);
    }
  }

  /** In particular from a new connection on a truthful database. */
  lemma NewConnectionsStayTruthful(db: Db<Ledger>, faults: seq<Fault>, ops: seq<MigrationOp>)
    requires Truthful(db) && AreScripts(ops)
    ensures Truthful(Durable(Migrate(Fresh(db, faults), ops).engine))
  {
    MigrationsStayTruthful(Fresh(db, faults), ops);
  }

  lemma StepKeepsOuterLevels(c: Conn<Db<Ledger>>, p: Plain<Db<Ledger>>, op: MigrationOp)
    returns (p': Plain<Db<Ledger>>)
    requires Usable(c, p) && !c.failed && Truthful(p.db) && AreScripts([op]) && (p.stack == [] || Unbroken(c, p))
    ensures Holds(MigrateStep(c, op), p') && p'.stack == p.stack && Truthful(p'.db)
    ensures Unbroken(c, p) ==> Unbroken(MigrateStep(c, op), p')
  {
    assert if op.ApplyMigration? then IsScript(op.up, true) else IsScript(op.down, false) by {
      assert [op][0] == op;
    }
    SeenIsPlain(c, p);
    p' := p;
    match op
    case ApplyMigration(up, elapsed) =>
      ApplyIsAtomic(c, p, up, elapsed);
      if !(up.version in p.db.rows && p.db.rows[up.version].success) {
        p' := p.(db := ApplyEffect(up, elapsed, p.db, ApplyOp(c, up, elapsed).1));
        assert up.version !in p.db.content.inEffect;
        assert p.db.content.inEffect - {up.version} == p.db.content.inEffect;
      }
    case RevertMigration(down) =>
      RevertIsAtomic(c, p, down);
      if RevertOp(c, down).1 == None {
        p' := p.(db := Down(down, p.db));
      }
  }

  lemma SeenIsPlain<D(!new)>(c: Conn<D>, p: Plain<D>)
    requires Holds(c, p) && !c.failed && (p.stack == [] || Refines(c, p))
    ensures Visible(c) == p.db
  {
    if Refines(c, p) {
      RefinedViews(c, p);
    } else {
      IdleDrainKeepsDatabase(c.(engine := c.engine.(faults := [])));
    }
  }

  lemma {:induction false} PoisonedMigrations(c: Conn<Db<Ledger>>, ops: seq<MigrationOp>)
    requires c.failed && AreScripts(ops)
    ensures Migrate(c, ops).failed && Migrate(c, ops).engine == c.engine
    decreases |ops|
  {
    if ops != [] {
      assert if ops[0].ApplyMigration? then IsScript(ops[0].up, true) else IsScript(ops[0].down, false);
      PoisonedMigrations(MigrateStep(c, ops[0]), ops[1..]);
    }
  }

  /** The outer levels keep their snapshots over every run of transactional applies and reverts, unless
      the engine aborts them; without any outer level the run may meet every fault. */
  lemma {:induction false} MigrationsKeepOuterLevels(
      c: Conn<Db<Ledger>>, p: Plain<Db<Ledger>>, ops: seq<MigrationOp>)
    returns (p': Plain<Db<Ledger>>)
    requires Holds(c, p) && Truthful(p.db) && AreScripts(ops) && (p.stack == [] || Unbroken(c, p))
    ensures var after := Migrate(c, ops);
            && Holds(after, p') && p'.stack == p.stack && Truthful(p'.db)
            && (!after.failed ==> Visible(after) == p'.db)
            && Durable(after.engine) == PlainDurable(p')
    decreases |ops|
  {
    p' := p;
    if c.failed {
      PoisonedMigrations(c, ops);
    } else if ops == [] {
      SeenIsPlain(c, p);
    } else {
      assert AreScripts([ops[0]]);
      var q := StepKeepsOuterLevels(c, p, ops[0]);
      p' := MigrationsKeepOuterLevels(MigrateStep(c, ops[0]), q, ops[1..]);
    }
  }
}
