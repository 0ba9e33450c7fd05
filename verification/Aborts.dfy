/** What holds when the engine may also abort transactions on its own. */
module Aborts {
  import opened Prelude
  import opened Engine
  import opened Transactions
  import opened Runs

  /** Unless the connection is poisoned, the queue is contiguous and no transaction is left open once
      every level is closed. */
  ghost predicate Orderly<D>(c: Conn<D>) {
    !c.failed ==> Countdown(c) && (c.depth == 0 && c.pending == [] ==> c.engine.txn.Idle?)
  }

  lemma {:induction false} DrainIsOrderly<D(!new)>(c: Conn<D>)
    requires Orderly(c)
    ensures var (d, error) := Drain(c);
            && Orderly(d)
            && (error == None <==> !d.failed)
            && (error == None ==> d.pending == [] && d.depth == c.depth)
    decreases |c.pending|
  {
    if !c.failed && c.pending != [] {
      var depth := c.pending[0];
      var (engine, error) := Exec(c.engine, RollbackAt(depth));
      var popped := c.(pending := c.pending[1..], engine := engine);
      if error == None || (depth == 1 && error == Some(NoActiveTransaction)) {
        assert Orderly(popped);
        DrainIsOrderly(popped);
      }
    }
  }

  lemma StepIsOrderly<D(!new)>(c: Conn<D>, op: Op<D>)
    requires Orderly(c)
    ensures Orderly(Step(c, op))
  {
    if op.Drop? {
      var after := DropOp(c);
      assert !c.failed && c.depth > 0 ==> forall i :: 0 <= i < |c.pending| ==> after.pending[i] == c.pending[i];
    } else {
      DrainIsOrderly(c);
      var (d, error) := Drain(c);
      if error == None {
        assert Drain(d) == (d, None) && Step(c, op) == Step(d, op);
        var after := Step(d, op);
        assert after.pending == [] && !after.failed;
        match op {
          case Begin(custom) =>
          case Commit =>
          case Rollback =>
          case Query(effect) =>
        }
      }
    }
  }

  /** The queue's shape survives every run under every fault, and closing all levels of any run
      leaves an idle engine at the next use, or a poisoned connection. */
  lemma {:induction false} RunsAreOrderly<D(!new)>(c: Conn<D>, ops: seq<Op<D>>)
    requires Orderly(c)
    ensures Orderly(After(c, ops))
    ensures var d := Drain(After(c, ops)).0;
            d.failed || (d.pending == [] && d.depth == After(c, ops).depth && (d.depth == 0 ==> d.engine.txn.Idle?))
    decreases |ops|
  {
    if ops == [] {
      DrainIsOrderly(c);
    } else {
      StepIsOrderly(c, ops[0]);
      RunsAreOrderly(Step(c, ops[0]), ops[1..]);
    }
  }

  lemma FreshIsOrderly<D(!new)>(db: D, faults: seq<Fault>)
    ensures Orderly(Fresh(db, faults))
  {}

  /** Dropping every open handle, innermost first. */
  function DropAll<D>(c: Conn<D>): Conn<D>
    decreases c.depth
  {
    if c.depth == 0 then c else DropAll(DropOp(c))
  }

  /** Savepoints of the levels opened above an abort at depth a, read from the newest down: one named open - 1
      belongs to the innermost level, one named `open` or more is left over from a level rolled back. */
  ghost predicate Nested<D>(savepoints: seq<Savepoint<D>>, a: Level, open: nat)
    decreases |savepoints|
  {
    if savepoints == [] then open == a
    else
      var name, below := savepoints[|savepoints| - 1].name, savepoints[..|savepoints| - 1];
      if name >= open then Nested(below, a, open) else open > a && name == open - 1 && Nested(below, a, open - 1)
  }

  /** Levels 1 to a were lost in an abort: the engine is idle, or in the transaction that the first later
      SAVEPOINT opened, and holds savepoints of later levels only. */
  ghost predicate Orphaned<D>(c: Conn<D>, a: Level) {
    var open := c.depth + |c.pending|;
    && !c.failed
    && NoFault(c.engine)
    && Countdown(c)
    && a <= open
    && match c.engine.txn
       case Idle => open == a
       case Open(_, implicit, savepoints) => implicit && Nested(savepoints, a, open)
  }

  lemma {:induction false} NestedNames<D>(savepoints: seq<Savepoint<D>>, a: Level, open: nat)
    requires Nested(savepoints, a, open)
    ensures a <= open && forall i :: 0 <= i < |savepoints| ==> savepoints[i].name >= a
    decreases |savepoints|
  {
    if savepoints != [] {
      var below := savepoints[..|savepoints| - 1];
      NestedNames(below, a, if savepoints[|savepoints| - 1].name >= open then open else open - 1);
      assert forall i :: 0 <= i < |below| ==> below[i] == savepoints[i];
    }
  }

  lemma {:induction false} InnermostOrphan<D>(savepoints: seq<Savepoint<D>>, a: Level, open: nat)
    requires Nested(savepoints, a, open) && open > a
    ensures var p := Newest(savepoints, open - 1);
            p.Some? && Nested(savepoints[..p.value], a, open - 1) && Nested(savepoints[..p.value + 1], a, open - 1)
    decreases |savepoints|
  {
    var below := savepoints[..|savepoints| - 1];
    if savepoints[|savepoints| - 1].name >= open {
      InnermostOrphan(below, a, open);
      var p := Newest(below, open - 1).value;
      assert below[..p] == savepoints[..p] && below[..p + 1] == savepoints[..p + 1];
    } else {
      assert savepoints[..|savepoints| - 1 + 1] == savepoints;
    }
  }

  /** Rolling back the first queued level works above the lost ones. */
  lemma PopOrphan<D(!new)>(c: Conn<D>, a: Level)
    requires Orphaned(c, a) && c.pending != [] && c.depth + |c.pending| > a
    ensures var (engine, error) := Exec(c.engine, RollbackAt(c.pending[0]));
            error == None && Orphaned(c.(pending := c.pending[1..], engine := engine), a)
  {
    CalmExec(c.engine, RollbackAt(c.pending[0]));
    InnermostOrphan(c.engine.txn.savepoints, a, c.depth + |c.pending|);
  }

  /** Draining succeeds while the lost levels are open; once their handles are dropped, it succeeds
      exactly when only the outermost level was lost. */
  lemma {:induction false} OrphanedDrain<D(!new)>(c: Conn<D>, a: Level)
    requires Orphaned(c, a)
    ensures var (d, error) := Drain(c);
            && (error == None <==> c.depth >= a || a == 1)
            && (c.depth >= a ==> Orphaned(d, a) && d.pending == [] && d.depth == c.depth)
            && (c.depth < a == 1 ==> RefinesVia(d, Plain(d.engine.db, []), []) && d.pending == [] && NoFault(d.engine))
    decreases |c.pending|
  {
    if c.pending != [] {
      var (engine, error) := Exec(c.engine, RollbackAt(c.pending[0]));
      var popped := c.(pending := c.pending[1..], engine := engine);
      if c.depth + |c.pending| > a {
        PopOrphan(c, a);
        OrphanedDrain(popped, a);
        assert Drain(c) == Drain(popped);
      } else if a == 1 {
        assert popped.pending == [] && Drain(c) == Drain(popped);
      } else if c.engine.txn.Open? {
        NestedNames(c.engine.txn.savepoints, a, a);
      }
    }
  }

  /** What an abort at depth a leads to: orphaned levels, then poison if a > 1, a plain stack if a == 1. */
  ghost predicate Aftermath<D(!new)>(c: Conn<D>, a: Level) {
    Orphaned(c, a) || (NoFault(c.engine) && if a > 1 then c.failed else exists p :: Refines(c, p))
  }

  /** One operation above the lost levels, or at the outermost of them, on an empty queue. */
  lemma OrphanedSend<D(!new)>(c: Conn<D>, a: Level, op: Op<D>)
    requires Orphaned(c, a) && c.pending == [] && !op.Drop?
    ensures Aftermath(Step(c, op), a)
  {
    var after := Step(c, op);
    assert Drain(c) == (c, None);
    match op {
      case Begin(custom) =>
        if !custom {
          OrphanedBegin(c, a);
        }
      case Query(effect) =>
        assert after == Send(c, UserSql(effect), c.depth).0;
      case Commit =>
        if c.depth > a { NestedCommit(c, a); } else { LostClose(c, a, true); }
      case Rollback =>
        if c.depth > a { NestedRollback(c, a); } else { LostClose(c, a, false); }
    }
  }

  lemma OrphanedBegin<D(!new)>(c: Conn<D>, a: Level)
    requires Orphaned(c, a) && c.pending == []
    ensures Orphaned(Step(c, Begin(false)), a)
  {
    assert Drain(c) == (c, None);
    if c.engine.txn.Open? {
      var pushed := c.engine.txn.savepoints + [Savepoint(c.depth, c.engine.db)];
      assert pushed[..|pushed| - 1] == c.engine.txn.savepoints;
      NestedNames(c.engine.txn.savepoints, a, c.depth);
    } else {
      assert Nested([Savepoint(c.depth, c.engine.db)], a, c.depth + 1) by {
        assert [Savepoint(c.depth, c.engine.db)][..0] == [];
      }
    }
  }

  /** Closing a level above the lost ones. */
  lemma NestedCommit<D(!new)>(c: Conn<D>, a: Level)
    requires Orphaned(c, a) && c.pending == [] && c.depth > a
    ensures var (after, failure) := CommitOp(c);
            var p := Newest(c.engine.txn.savepoints, c.depth - 1);
            && failure == None && p.Some? && after.depth == c.depth - 1 && after.engine.db == c.engine.db
            && after.engine.txn == (if p.value == 0 then Idle
                                    else c.engine.txn.(savepoints := c.engine.txn.savepoints[..p.value]))
    ensures Orphaned(CommitOp(c).0, a)
  {
    assert Drain(c) == (c, None) && CommitOp(c) == Send(c, CommitAt(c.depth), c.depth - 1);
    CalmExec(c.engine, CommitAt(c.depth));
    InnermostOrphan(c.engine.txn.savepoints, a, c.depth);
    assert c.engine.txn.savepoints[..0] == [];
  }

  lemma NestedRollback<D(!new)>(c: Conn<D>, a: Level)
    requires Orphaned(c, a) && c.pending == [] && c.depth > a
    ensures Orphaned(RollbackOp(c).0, a)
  {
    assert Drain(c) == (c, None) && RollbackOp(c) == Send(c, RollbackAt(c.depth), c.depth - 1);
    PopOrphan(DropOp(c), a);
  }

  lemma CalmExec<D>(e: Engine<D>, stmt: Stmt<D>)
    requires NoFault(e)
    ensures Exec(e, stmt) == Perform(Performing(e), stmt) && NoFault(Performing(e)) && NoFault(Exec(e, stmt).0)
  {
    assert e.faults != [] ==> e.faults[0] == Healthy;
    assert Perform(Performing(e), stmt).0.faults == Performing(e).faults;
  }

  /** The engine's answer to closing the innermost of the lost levels: it knows of none but an outermost one. */
  lemma LostAnswer<D(!new)>(e: Engine<D>, a: Level, commit: bool)
    requires NoFault(e)
    requires e.txn.Open? ==> forall i :: 0 <= i < |e.txn.savepoints| ==> e.txn.savepoints[i].name >= a
    ensures var (after, error) := Exec(e, if commit then CommitAt(a) else RollbackAt(a));
            if a == 1 && e.txn.Open? then error == None && after.txn.Idle? && NoFault(after)
            else error.Some? && after == Performing(e)
  {
    CalmExec(e, if commit then CommitAt(a) else RollbackAt(a));
  }

  /** Closing the innermost of the lost levels itself: only an outermost one can be closed. */
  lemma LostClose<D(!new)>(c: Conn<D>, a: Level, commit: bool)
    requires Orphaned(c, a) && c.pending == [] && c.depth == a
    ensures Aftermath(if commit then CommitOp(c).0 else RollbackOp(c).0, a)
  {
    var after := if commit then CommitOp(c).0 else RollbackOp(c).0;
    assert Drain(c) == (c, None) && after == Send(c, if commit then CommitAt(a) else RollbackAt(a), a - 1).0;
    if c.engine.txn.Open? {
      NestedNames(c.engine.txn.savepoints, a, a);
    }
    LostAnswer(c.engine, a, commit);
    if c.engine.txn.Open? && a == 1 {
      assert RefinesVia(after, Plain(after.engine.db, []), []);
      assert Refines(after, Plain(after.engine.db, []));
    } else {
      CalmExec(c.engine, RollbackAt(a));
      assert after == c.(engine := Performing(c.engine)) && Orphaned(after, a);
    }
  }

  lemma AftermathStep<D(!new)>(c: Conn<D>, a: Level, op: Op<D>)
    requires Aftermath(c, a)
    ensures Aftermath(Step(c, op), a)
  {
    if c.failed {
    } else if !Orphaned(c, a) {
      var p :| Refines(c, p);
      StepKeeps(c, p, op);
    } else if op.Drop? {
      var after := DropOp(c);
      assert c.depth > 0 ==> forall i :: 0 <= i < |c.pending| ==> after.pending[i] == c.pending[i];
    } else {
      OrphanedDrain(c, a);
      var (d, error) := Drain(c);
      if error == None {
        assert Drain(d) == (d, None) && Step(c, op) == Step(d, op);
        if Orphaned(d, a) {
          OrphanedSend(d, a, op);
        } else {
          StepKeeps(d, Plain(d.engine.db, []), op);
        }
      } else {
        DrainFaults(c);
      }
    }
  }

  lemma {:induction false} AftermathRuns<D(!new)>(c: Conn<D>, a: Level, ops: seq<Op<D>>)
    requires Aftermath(c, a)
    ensures Aftermath(After(c, ops), a)
    decreases |ops|
  {
    if ops != [] {
      AftermathStep(c, a, ops[0]);
      AftermathRuns(Step(c, ops[0]), a, ops[1..]);
    }
  }

  lemma {:induction false} AftermathDropAll<D(!new)>(c: Conn<D>, a: Level)
    requires Aftermath(c, a)
    ensures Drain(DropAll(c)).1 == None <==> a == 1
    decreases c.depth
  {
    if c.depth > 0 {
      AftermathStep(c, a, Drop);
      AftermathDropAll(DropOp(c), a);
    } else if Orphaned(c, a) {
      OrphanedDrain(c, a);
    } else if a == 1 {
      var p :| Refines(c, p);
      DropAllRefines(c, p);
    }
  }

  lemma {:induction false} DropAllOrderly<D(!new)>(c: Conn<D>)
    requires Orderly(c)
    ensures Orderly(DropAll(c)) && DropAll(c).depth == 0
    decreases c.depth
  {
    if c.depth > 0 {
      DropAllOrderly(DropOp(c));
    }
  }

  lemma {:induction false} DropAllRefines<D(!new)>(c: Conn<D>, p: Plain<D>)
    requires Refines(c, p) && NoFault(c.engine)
    ensures Drain(DropAll(c)).1 == None
    decreases c.depth
  {
    if c.depth > 0 {
      StepKeeps(c, p, Drop);
      DropAllRefines(DropOp(c), PlainStep(p, Drop));
    } else {
      var levels :| RefinesVia(c, p, levels);
      DrainKeeps(c, p, levels);
    }
  }

  /** After an abort at depth a and any later operations, dropping every handle makes the next use succeed
      exactly when a <= 1; otherwise it finds the connection poisoned or poisons it. */
  lemma AbortRecovery<D(!new)>(c: Conn<D>, ops: seq<Op<D>>)
    requires !c.failed && c.pending == [] && c.engine.txn.Idle? && NoFault(c.engine)
    ensures var (d, error) := Drain(DropAll(After(c, ops)));
            && (error == None <==> c.depth <= 1)
            && (error == None ==> d.depth == 0 && d.pending == [] && d.engine.txn.Idle?)
            && (error.Some? ==> d.failed)
  {
    RunsAreOrderly(c, ops);
    DropAllOrderly(After(c, ops));
    DrainIsOrderly(DropAll(After(c, ops)));
    if c.depth >= 1 {
      assert Orphaned(c, c.depth);
      AftermathRuns(c, c.depth, ops);
      AftermathDropAll(After(c, ops), c.depth);
    } else {
      var p := Plain(c.engine.db, []);
      assert RefinesVia(c, p, []);
      FaultFreeRunsArePlain(c, p, ops);
      DropAllRefines(After(c, ops), PlainAfter(p, ops));
    }
  }

  /** Whether an operation on an empty queue sends the engine a statement. */
  predicate Sends<D>(p: Plain<D>, op: Op<D>) {
    match op
    case Begin(custom) => !custom || p.stack == []
    case Commit => p.stack != []
    case Rollback => p.stack != []
    case Drop => false
    case Query(_) => true
  }

  /** The engine is going to abort the first statement that follows the drain. */
  ghost predicate AbortsNext<D>(c: Conn<D>) {
    var (d, error) := Drain(c);
    error == None && d.engine.faults != [] && d.engine.faults[0] == Abort
  }

  /** An abort: the client is told, every level is still counted, the engine is idle and back on the
      database at BEGIN. */
  lemma AbortLosesEveryLevel<D(!new)>(c: Conn<D>, p: Plain<D>, op: Op<D>)
    requires Refines(c, p) && AbortsNext(c) && Sends(p, op)
    ensures var after := Step(c, op);
            && Observed(c, op) == Refused(Database(StatementFailed))
            && after.depth == |p.stack| && after.pending == [] && !after.failed
            && after.engine.txn.Idle? && after.engine.faults == Drain(c).0.engine.faults[1..]
            && after.engine.db == PlainDurable(p)
  {
    var levels :| RefinesVia(c, p, levels);
    DrainKeeps(c, p, levels);
    var d := Drain(c).0;
    assert Drain(d) == (d, None) && Step(c, op) == Step(d, op) && Observed(c, op) == Observed(d, op);
  }

  /** A run that meets one abort, in a statement at any depth and after any drops: once every handle is
      dropped the next use succeeds exactly when at most one level was open, whatever else was done since. */
  lemma AbortThenDropAll<D(!new)>(c: Conn<D>, p: Plain<D>, op: Op<D>, ops: seq<Op<D>>)
    requires Refines(c, p) && AbortsNext(c) && Sends(p, op)
    requires NoFault(Step(c, op).engine)
    ensures var (d, error) := Drain(DropAll(After(Step(c, op), ops)));
            && (error == None <==> |p.stack| <= 1)
            && (error == None ==> d.depth == 0 && d.pending == [] && d.engine.txn.Idle?)
            && (error.Some? ==> d.failed)
  {
    AbortLosesEveryLevel(c, p, op);
    AbortRecovery(Step(c, op), ops);
  }

  /** After an abort at depth a, the commit of a nested level succeeds and keeps the database; it is final,
      though a levels are still counted, exactly when it closes level a + 1 and no earlier one of that
      depth was rolled back in the same engine transaction. Dropping the outer handles does not undo it. */
  lemma OrphanCommit<D(!new)>(c: Conn<D>, a: Level)
    requires Orphaned(c, a) && c.pending == [] && c.depth > a
    ensures var after := Step(c, Commit);
            var savepoints := c.engine.txn.savepoints;
            && Observed(c, Commit) == Done && after.depth == c.depth - 1 && after.engine.db == c.engine.db
            && (after.engine.txn.Idle? <==>
                  c.depth == a + 1 && forall i :: 0 < i < |savepoints| ==> savepoints[i].name > a)
            && (after.engine.txn.Idle? ==> Durable(Drain(DropAll(after)).0.engine) == c.engine.db)
            && (after.engine.txn.Open? ==> Durable(after.engine) == Durable(c.engine))
  {
    var savepoints := c.engine.txn.savepoints;
    NestedCommit(c, a);
    NestedNames(savepoints, a, c.depth);
    var after := Step(c, Commit);
    if after.engine.txn.Idle? {
      DropAllKeepsEngine(after);
      IdleDrainKeepsDatabase(DropAll(after));
    }
  }

  /** After an abort at depth a, begins and queries leave no savepoint behind but a, a + 1, ... */
  lemma {:induction false} LaterBeginsStayOrphaned<D(!new)>(c: Conn<D>, a: Level, ops: seq<Op<D>>)
    requires Orphaned(c, a) && c.pending == [] && Tidy(c, a)
    requires forall i :: 0 <= i < |ops| ==> ops[i].Begin? || ops[i].Query?
    ensures Orphaned(After(c, ops), a) && After(c, ops).pending == [] && Tidy(After(c, ops), a)
    decreases |ops|
  {
    if ops != [] {
      LaterStep(c, a, ops[0]);
      LaterBeginsStayOrphaned(Step(c, ops[0]), a, ops[1..]);
    }
  }

  lemma LaterStep<D(!new)>(c: Conn<D>, a: Level, op: Op<D>)
    requires Orphaned(c, a) && c.pending == [] && Tidy(c, a) && (op.Begin? || op.Query?)
    ensures Orphaned(Step(c, op), a) && Step(c, op).pending == [] && Tidy(Step(c, op), a)
  {
    assert Drain(c) == (c, None);
    match op
    case Begin(custom) =>
      if custom {
        assert Step(c, op) == c;
      } else {
        LaterBegin(c, a);
      }
    case Query(effect) =>
      CalmExec(c.engine, UserSql(effect));
      assert Step(c, op) == Send(c, UserSql(effect), c.depth).0;
  }

  lemma LaterBegin<D(!new)>(c: Conn<D>, a: Level)
    requires Orphaned(c, a) && c.pending == [] && Tidy(c, a)
    ensures var after := Step(c, Begin(false));
            Orphaned(after, a) && after.pending == [] && Tidy(after, a)
  {
    OrphanedBegin(c, a);
    assert Drain(c) == (c, None) && Step(c, Begin(false)) == Send(c, SavepointSql(c.depth), c.depth + 1).0;
    CalmExec(c.engine, SavepointSql(c.depth));
  }

  ghost predicate Tidy<D>(c: Conn<D>, a: Level) {
    c.engine.txn.Open? ==>
      |c.engine.txn.savepoints| + a == c.depth &&
      forall i :: 0 <= i < c.depth - a ==> c.engine.txn.savepoints[i].name == a + i
  }

  /** An abort at depth a, then begins and queries, then a commit: it is final iff it closes level a + 1. */
  lemma OrphanCommitIsFinal<D(!new)>(c: Conn<D>, p: Plain<D>, op: Op<D>, ops: seq<Op<D>>)
    requires Refines(c, p) && AbortsNext(c) && Sends(p, op) && p.stack != []
    requires NoFault(Step(c, op).engine)
    requires forall i :: 0 <= i < |ops| ==> ops[i].Begin? || ops[i].Query?
    ensures var before := After(Step(c, op), ops);
            var after := Step(before, Commit);
            before.depth > |p.stack| ==>
              && (after.engine.txn.Idle? <==> before.depth == |p.stack| + 1)
              && (after.engine.txn.Idle? ==> Durable(Drain(DropAll(after)).0.engine) == before.engine.db)
              && (after.engine.txn.Open? ==> Durable(after.engine) == Durable(before.engine))
  {
    AbortLosesEveryLevel(c, p, op);
    var a := |p.stack|;
    assert Orphaned(Step(c, op), a);
    LaterBeginsStayOrphaned(Step(c, op), a, ops);
    var before := After(Step(c, op), ops);
    if before.depth > a {
      OrphanCommit(before, a);
    }
  }

  lemma {:induction false} DropAllKeepsEngine<D>(c: Conn<D>)
    ensures DropAll(c).engine == c.engine
    decreases c.depth
  {
    if c.depth > 0 {
      DropAllKeepsEngine(DropOp(c));
    }
  }
}
