/** Runs of a connection, and the plain stack of snapshots that they are indistinguishable from. */
module Runs {
  import opened Prelude
  import opened Engine
  import opened Transactions
  import opened Savepoints

  /** What a client can do. `Drop` is dropping an open transaction handle. */
  datatype Op<!D> =
    | Begin(custom: bool)
    | Commit
    | Rollback
    | Drop
    | Query(effect: D -> Change<D>)

  /** What a client observes. A query that ran shows the database it ran on. */
  datatype Outcome<D> = Done | Ran(seen: D, ok: bool) | Refused(failure: Failure)

  function Step<D>(c: Conn<D>, op: Op<D>): Conn<D> {
    match op
    case Begin(custom) => BeginOp(c, custom).0
    case Commit => CommitOp(c).0
    case Rollback => RollbackOp(c).0
    case Drop => DropOp(c)
    case Query(effect) => QueryOp(c, effect).0
  }

  function Reported<D>(error: Option<Failure>): Outcome<D> {
    if error.Some? then Refused(error.value) else Done
  }

  function Observed<D>(c: Conn<D>, op: Op<D>): Outcome<D> {
    match op
    case Begin(custom) => Reported(BeginOp(c, custom).1)
    case Commit => Reported(CommitOp(c).1)
    case Rollback => Reported(RollbackOp(c).1)
    case Drop => Done
    case Query(effect) =>
      var (drained, error) := Drain(c);
      if error.Some? then Refused(error.value)
      else if drained.engine.faults != [] && drained.engine.faults[0] != Healthy then Refused(Database(StatementFailed))
      else Ran(drained.engine.db, effect(drained.engine.db).ok)
  }

  /** What a query shows is what its call returns: it ran well exactly when no error comes back, and a
      refusal is the error. */
  lemma ObservedIsReturned<D>(c: Conn<D>, effect: D -> Change<D>)
    ensures var (after, error) := QueryOp(c, effect);
            match Observed(c, Query(effect))
            case Ran(seen, ok) => effect(seen) == Change(after.engine.db, ok) && (ok <==> error == None)
            case Refused(failure) => error == Some(failure)
            case Done => false
  {
    var (d, error) := Drain(c);
    if error == None {
      assert QueryOp(c, effect) == Send(d, UserSql(effect), d.depth);
    }
  }

  function After<D>(c: Conn<D>, ops: seq<Op<D>>): Conn<D>
    decreases |ops|
  {
    if ops == [] then c else After(Step(c, ops[0]), ops[1..])
  }

  function Outcomes<D>(c: Conn<D>, ops: seq<Op<D>>): seq<Outcome<D>>
    decreases |ops|
  {
    if ops == [] then [] else [Observed(c, ops[0])] + Outcomes(Step(c, ops[0]), ops[1..])
  }

  /** A connection as a client thinks of it: every open level remembers the database at its begin,
      and dropping a handle rolls back at once. */
  datatype Plain<D> = Plain(db: D, stack: seq<D>)

  function PlainStep<D>(p: Plain<D>, op: Op<D>): Plain<D> {
    match op
    case Begin(custom) => if custom && p.stack != [] then p else Plain(p.db, p.stack + [p.db])
    case Commit => if p.stack == [] then p else Plain(p.db, p.stack[..|p.stack| - 1])
    case Rollback => PlainDrop(p)
    case Drop => PlainDrop(p)
    case Query(effect) => p.(db := effect(p.db).db)
  }

  function PlainDrop<D>(p: Plain<D>): Plain<D> {
    if p.stack == [] then p else Plain(p.stack[|p.stack| - 1], p.stack[..|p.stack| - 1])
  }

  function PlainOutcome<D>(p: Plain<D>, op: Op<D>): Outcome<D> {
    match op
    case Begin(custom) => if custom && p.stack != [] then Refused(InvalidSavePointStatement) else Done
    case Query(effect) => Ran(p.db, effect(p.db).ok)
    case _ => Done
  }

  function PlainOutcomes<D>(p: Plain<D>, ops: seq<Op<D>>): seq<Outcome<D>>
    decreases |ops|
  {
    if ops == [] then [] else [PlainOutcome(p, ops[0])] + PlainOutcomes(PlainStep(p, ops[0]), ops[1..])
  }

  function PlainAfter<D>(p: Plain<D>, ops: seq<Op<D>>): Plain<D>
    decreases |ops|
  {
    if ops == [] then p else PlainAfter(PlainStep(p, ops[0]), ops[1..])
  }

  /** The plain stack after a run in which the refused operations had no effect. */
  function Replay<D>(p: Plain<D>, ops: seq<Op<D>>, outcomes: seq<Outcome<D>>): Plain<D>
    requires |outcomes| == |ops|
    decreases |ops|
  {
    if ops == [] then p
    else Replay(if outcomes[0].Refused? then p else PlainStep(p, ops[0]), ops[1..], outcomes[1..])
  }

  /** The outcomes of a poisoned connection. */
  ghost predicate AreDead<D(!new)>(ops: seq<Op<D>>, outcomes: seq<Outcome<D>>) {
    && |outcomes| == |ops|
    && forall i :: 0 <= i < |ops| ==> outcomes[i] == if ops[i].Drop? then Done else Refused(WorkerCrashed)
  }

  /** The plain stack produces these outcomes, except that up to `refusals` operations, never a drop, may
      be refused with no effect, and that after one of these refusals the connection may be dead. */
  ghost predicate Admits<D(!new)>(p: Plain<D>, ops: seq<Op<D>>, outcomes: seq<Outcome<D>>, refusals: nat)
    decreases |ops|
  {
    if ops == [] then outcomes == []
    else
      && outcomes != []
      && (|| (outcomes[0] == PlainOutcome(p, ops[0]) && Admits(PlainStep(p, ops[0]), ops[1..], outcomes[1..], refusals))
          || (outcomes[0].Refused? && !ops[0].Drop? && refusals > 0 &&
              (AreDead(ops[1..], outcomes[1..]) || Admits(p, ops[1..], outcomes[1..], refusals - 1))))
  }

  /** The queue is the contiguous run depth + k, ..., depth + 1. */
  ghost predicate Countdown<D>(c: Conn<D>) {
    forall i :: 0 <= i < |c.pending| ==> c.pending[i] == c.depth + |c.pending| - i
  }

  /** The engine has depth + k open levels; the client sees the lowest dropped one rolled back. */
  ghost predicate RefinesVia<D(!new)>(c: Conn<D>, p: Plain<D>, levels: seq<D>) {
    && !c.failed
    && Countdown(c)
    && |levels| == c.depth + |c.pending|
    && InStep(c.engine, levels)
    && p.stack == levels[..c.depth]
    && p.db == if c.pending == [] then c.engine.db else levels[c.depth]
  }

  ghost predicate Refines<D(!new)>(c: Conn<D>, p: Plain<D>) {
    exists levels :: RefinesVia(c, p, levels)
  }

  /** After an engine abort: the handles are still counted, but the engine is idle, on what p has on record. */
  ghost predicate Lost<D>(c: Conn<D>, p: Plain<D>) {
    && !c.failed
    && Countdown(c)
    && c.depth == |p.stack|
    && c.engine.txn.Idle?
    && c.engine.db == PlainDurable(p)
  }

  /** What is on record if the connection is lost: an open transaction does not count. */
  function Durable<D>(e: Engine<D>): D {
    if e.txn.Idle? then e.db else e.txn.base
  }

  function PlainDurable<D>(p: Plain<D>): D {
    if p.stack == [] then p.db else p.stack[0]
  }

  /** What the next use of the connection sees if it meets no fault. */
  function Visible<D>(c: Conn<D>): D {
    Drain(c.(engine := c.engine.(faults := []))).0.engine.db
  }

  lemma RefinedViews<D(!new)>(c: Conn<D>, p: Plain<D>)
    requires Refines(c, p)
    ensures Durable(c.engine) == PlainDurable(p) && Visible(c) == p.db
  {
    var levels :| RefinesVia(c, p, levels);
    var calm := c.(engine := c.engine.(faults := []));
    assert RefinesVia(calm, p, levels);
    DrainKeeps(calm, p, levels);
    assert levels != [] && p.stack == [] ==> levels[0] == p.db;
  }

  /** The engine as it performs a statement that meets no fault. */
  function Performing<D>(e: Engine<D>): Engine<D> {
    if e.faults == [] then e else e.(faults := e.faults[1..])
  }

  predicate MeetsNoFault<D>(e: Engine<D>) {
    e.faults == [] || e.faults[0] == Healthy
  }

  /** Under every fault, draining either ends with an empty queue, the same depth and the same plain
      stack, or poisons the connection with the same database on record; without faults it is the former. */
  lemma {:induction false} DrainKeeps<D(!new)>(c: Conn<D>, p: Plain<D>, levels: seq<D>)
    requires RefinesVia(c, p, levels)
    ensures var (d, error) := Drain(c);
            && (NoAbort(c.engine) ==> NoAbort(d.engine)) && Refusals(d.engine.faults) <= Refusals(c.engine.faults)
            && (error == None ==> d.pending == [] && d.depth == c.depth && RefinesVia(d, p, levels[..c.depth]))
            && (error.Some? ==> d.failed && levels != [] && Durable(d.engine) == levels[0])
            && (error.Some? && NoAbort(c.engine) ==> Refusals(d.engine.faults) < Refusals(c.engine.faults))
    decreases |c.pending|
  {
    if c.pending == [] {
      assert levels[..c.depth] == levels;
    } else if MeetsNoFault(c.engine) {
      PopKeeps(c, p, levels);
      var popped := c.(pending := c.pending[1..], engine := Exec(c.engine, RollbackAt(c.pending[0])).0);
      var outer := levels[..|levels| - 1];
      assert outer[..c.depth] == levels[..c.depth] && Drain(c) == Drain(popped);
      DrainKeeps(popped, p, outer);
    }
  }

  /** Rolling back the first queued level closes the innermost open one. */
  lemma PopKeeps<D(!new)>(c: Conn<D>, p: Plain<D>, levels: seq<D>)
    requires RefinesVia(c, p, levels) && c.pending != [] && MeetsNoFault(c.engine)
    ensures var (engine, error) := Exec(c.engine, RollbackAt(c.pending[0]));
            && error == None
            && (NoAbort(c.engine) ==> NoAbort(engine)) && Refusals(engine.faults) == Refusals(c.engine.faults)
            && RefinesVia(c.(pending := c.pending[1..], engine := engine), p, levels[..|levels| - 1])
  {
    RollbackRestores(Performing(c.engine), levels);
    assert levels[..|levels| - 1][..c.depth] == levels[..c.depth];
  }

  lemma HealthyBegin<D(!new)>(c: Conn<D>, p: Plain<D>, custom: bool)
    requires c.pending == [] && RefinesVia(c, p, p.stack) && MeetsNoFault(c.engine)
    ensures Observed(c, Begin(custom)) == PlainOutcome(p, Begin(custom))
    ensures Refines(Step(c, Begin(custom)), PlainStep(p, Begin(custom)))
  {
    assert Drain(c) == (c, None);
    if custom && p.stack != [] {
      assert RefinesVia(Step(c, Begin(custom)), p, p.stack);
    } else {
      BeginPushes(Performing(c.engine), p.stack);
      assert RefinesVia(Step(c, Begin(custom)), PlainStep(p, Begin(custom)), p.stack + [p.db]);
    }
  }

  lemma HealthyCommit<D(!new)>(c: Conn<D>, p: Plain<D>)
    requires c.pending == [] && RefinesVia(c, p, p.stack) && MeetsNoFault(c.engine)
    ensures Observed(c, Commit) == Done && Refines(Step(c, Commit), PlainStep(p, Commit))
  {
    assert Drain(c) == (c, None);
    if p.stack != [] {
      CommitPops(Performing(c.engine), p.stack);
    }
    assert RefinesVia(Step(c, Commit), PlainStep(p, Commit), PlainStep(p, Commit).stack);
  }

  lemma HealthyRollback<D(!new)>(c: Conn<D>, p: Plain<D>)
    requires c.pending == [] && RefinesVia(c, p, p.stack) && MeetsNoFault(c.engine)
    ensures Observed(c, Rollback) == Done && Refines(Step(c, Rollback), PlainStep(p, Rollback))
  {
    assert Drain(c) == (c, None);
    if p.stack != [] {
      RollbackRestores(Performing(c.engine), p.stack);
    }
    assert RefinesVia(Step(c, Rollback), PlainStep(p, Rollback), PlainStep(p, Rollback).stack);
  }

  lemma HealthyQuery<D(!new)>(c: Conn<D>, p: Plain<D>, effect: D -> Change<D>)
    requires c.pending == [] && RefinesVia(c, p, p.stack) && MeetsNoFault(c.engine)
    ensures Observed(c, Query(effect)) == PlainOutcome(p, Query(effect))
    ensures Refines(Step(c, Query(effect)), PlainStep(p, Query(effect)))
  {
    assert Drain(c) == (c, None);
    assert RefinesVia(Step(c, Query(effect)), PlainStep(p, Query(effect)), p.stack);
  }

  lemma RefusedSend<D(!new)>(c: Conn<D>, p: Plain<D>, op: Op<D>)
    requires c.pending == [] && RefinesVia(c, p, p.stack) && !op.Drop?
    requires c.engine.faults != [] && c.engine.faults[0] == Refuse
    ensures Refines(Step(c, op), p)
    ensures (Observed(c, op) == PlainOutcome(p, op) && PlainStep(p, op) == p)
         || (Observed(c, op).Refused? && Refusals(Step(c, op).engine.faults) < Refusals(c.engine.faults))
  {
    assert Drain(c) == (c, None);
    assert RefinesVia(Step(c, op), p, p.stack);
  }

  lemma AbortedSend<D(!new)>(c: Conn<D>, p: Plain<D>, op: Op<D>)
    requires c.pending == [] && RefinesVia(c, p, p.stack) && !op.Drop?
    requires c.engine.faults != [] && c.engine.faults[0] == Abort
    ensures (Observed(c, op) == PlainOutcome(p, op) && PlainStep(p, op) == p && Refines(Step(c, op), p))
         || (Observed(c, op).Refused? && Lost(Step(c, op), p))
  {
    assert Drain(c) == (c, None);
    if Step(c, op).engine == c.engine {
      assert RefinesVia(Step(c, op), p, p.stack);
    }
  }

  /** What an operation that is refused can leave behind. */
  ghost predicate Kept<D(!new)>(c: Conn<D>, after: Conn<D>, p: Plain<D>) {
    && (after.failed || Refines(after, p) || Lost(after, p))
    && (NoAbort(c.engine) ==>
          (after.failed || Refines(after, p)) && Refusals(after.engine.faults) < Refusals(c.engine.faults))
  }

  /** One operation on a connection whose queue is empty. */
  lemma SendKeeps<D(!new)>(c: Conn<D>, p: Plain<D>, op: Op<D>)
    requires c.pending == [] && RefinesVia(c, p, p.stack) && !op.Drop?
    ensures var after := Step(c, op);
            && !after.failed
            && (NoAbort(c.engine) ==> NoAbort(after.engine)) &&
               Refusals(after.engine.faults) <= Refusals(c.engine.faults)
            && (|| (Observed(c, op) == PlainOutcome(p, op) && Refines(after, PlainStep(p, op)))
                || (Observed(c, op).Refused? && Kept(c, after, p)))
  {
    FaultsShrink(c, op);
    if c.engine.faults != [] && c.engine.faults[0] == Abort {
      AbortedSend(c, p, op);
    } else if MeetsNoFault(c.engine) {
      match op
      case Begin(custom) => HealthyBegin(c, p, custom);
      case Commit => HealthyCommit(c, p);
      case Rollback => HealthyRollback(c, p);
      case Query(effect) => HealthyQuery(c, p, effect);
    } else {
      RefusedSend(c, p, op);
    }
  }

  lemma FaultsShrink<D>(c: Conn<D>, op: Op<D>)
    requires c.pending == [] && !c.failed
    ensures NoAbort(c.engine) ==> NoAbort(Step(c, op).engine)
    ensures Refusals(Step(c, op).engine.faults) <= Refusals(c.engine.faults)
  {
    assert Drain(c) == (c, None);
    match op
    case Begin(custom) => ExecShrinks(c.engine, if custom then BeginSql else BeginAt(c.depth));
    case Commit =>
      if c.depth > 0 {
        ExecShrinks(c.engine, CommitAt(c.depth));
      }
    case Rollback =>
      if c.depth > 0 {
        ExecShrinks(c.engine, RollbackAt(c.depth));
      }
    case Drop =>
    case Query(effect) => ExecShrinks(c.engine, UserSql(effect));
  }

  lemma ExecShrinks<D>(e: Engine<D>, stmt: Stmt<D>)
    ensures NoAbort(e) ==> NoAbort(Exec(e, stmt).0)
    ensures Refusals(Exec(e, stmt).0.faults) <= Refusals(e.faults)
  {
    assert Exec(e, stmt).0.faults == if e.faults == [] then [] else e.faults[1..];
  }

  /** Under every fault, an operation on a connection that refines a plain stack either does exactly
      what the plain stack does, or is refused and leaves the plain stack as it was, or poisons the
      connection, or lost every level to an engine abort. */
  lemma StepKeeps<D(!new)>(c: Conn<D>, p: Plain<D>, op: Op<D>)
    requires Refines(c, p)
    ensures var after := Step(c, op);
            && (NoAbort(c.engine) ==> NoAbort(after.engine)) &&
               Refusals(after.engine.faults) <= Refusals(c.engine.faults)
            && (|| (Observed(c, op) == PlainOutcome(p, op) && Refines(after, PlainStep(p, op)))
                || (Observed(c, op).Refused? && !op.Drop? && Kept(c, after, p)))
            && (after.failed ==> Durable(after.engine) == PlainDurable(p))
  {
    var levels :| RefinesVia(c, p, levels);
    if op.Drop? {
      assert RefinesVia(Step(c, op), PlainStep(p, op), levels) by {
        if c.depth > 0 {
          assert levels[..c.depth][..c.depth - 1] == levels[..c.depth - 1];
        }
      }
    } else {
      DrainKeeps(c, p, levels);
      var (d, error) := Drain(c);
      if error == None {
        assert Drain(d) == (d, None);
        assert Step(c, op) == Step(d, op) && Observed(c, op) == Observed(d, op);
        SendKeeps(d, p, op);
      }
    }
  }

  /** Poison is absorbing: whatever a client does, the engine is not sent another statement, and
      every begin, commit, rollback and query is refused. */
  lemma {:induction false} PoisonIsAbsorbing<D(!new)>(c: Conn<D>, ops: seq<Op<D>>)
    requires c.failed
    ensures After(c, ops).failed && After(c, ops).engine == c.engine
    ensures AreDead(ops, Outcomes(c, ops))
    decreases |ops|
  {
    if ops != [] {
      PoisonIsAbsorbing(Step(c, ops[0]), ops[1..]);
    }
  }

  /** Dropping the handles of a dead connection changes nothing on record. */
  lemma {:induction false} DeadReplay<D(!new)>(p: Plain<D>, ops: seq<Op<D>>, outcomes: seq<Outcome<D>>)
    requires AreDead(ops, outcomes)
    ensures PlainDurable(Replay(p, ops, outcomes)) == PlainDurable(p)
    decreases |ops|
  {
    if ops != [] {
      DeadReplay(if ops[0].Drop? then PlainDrop(p) else p, ops[1..], outcomes[1..]);
    }
  }

  /** Deferred rollback equals eager rollback, whatever statements the engine refuses: over every run,
      what a client observes is what the plain stack gives, up to as many refusals as the engine makes,
      unless the connection is poisoned the database it sees next is the plain stack's, and poisoned or
      not, what is on record is the plain stack's outermost snapshot. */
  lemma {:induction false} RunsRefinePlainStack<D(!new)>(c: Conn<D>, p: Plain<D>, ops: seq<Op<D>>, refusals: nat)
    requires Refines(c, p) && NoAbort(c.engine) && Refusals(c.engine.faults) <= refusals
    ensures Admits(p, ops, Outcomes(c, ops), refusals) && |Outcomes(c, ops)| == |ops|
    ensures After(c, ops).failed || Refines(After(c, ops), Replay(p, ops, Outcomes(c, ops)))
    ensures After(c, ops).failed || Visible(After(c, ops)) == Replay(p, ops, Outcomes(c, ops)).db
    ensures Durable(After(c, ops).engine) == PlainDurable(Replay(p, ops, Outcomes(c, ops)))
    decreases |ops|
  {
    if ops == [] {
      RefinedViews(c, p);
    } else {
      StepKeeps(c, p, ops[0]);
      var next, outcomes := Step(c, ops[0]), Outcomes(c, ops);
      assert outcomes[1..] == Outcomes(next, ops[1..]);
      if outcomes[0] == PlainOutcome(p, ops[0]) && Refines(next, PlainStep(p, ops[0])) {
        RunsRefinePlainStack(next, PlainStep(p, ops[0]), ops[1..], refusals);
      } else if next.failed {
        PoisonIsAbsorbing(next, ops[1..]);
        DeadReplay(p, ops[1..], outcomes[1..]);
      } else {
        RunsRefinePlainStack(next, p, ops[1..], refusals - 1);
      }
    }
  }

  /** When the engine refuses nothing, every outcome is the plain stack's and the connection goes on
      refining it. */
  lemma {:induction false} FaultFreeRunsArePlain<D(!new)>(c: Conn<D>, p: Plain<D>, ops: seq<Op<D>>)
    requires Refines(c, p) && NoFault(c.engine)
    ensures Outcomes(c, ops) == PlainOutcomes(p, ops)
    ensures Refines(After(c, ops), PlainAfter(p, ops)) && NoFault(After(c, ops).engine)
    ensures Visible(After(c, ops)) == PlainAfter(p, ops).db
    decreases |ops|
  {
    if ops == [] {
      RefinedViews(c, p);
    } else {
      StepKeeps(c, p, ops[0]);
      FaultFreeRunsArePlain(Step(c, ops[0]), PlainStep(p, ops[0]), ops[1..]);
    }
  }

  /** The same connection with every dropped handle rolled back on the spot. */
  function EagerStep<D>(c: Conn<D>, op: Op<D>): Conn<D> {
    if op.Drop? then Drain(DropOp(c)).0 else Step(c, op)
  }

  function EagerOutcomes<D>(c: Conn<D>, ops: seq<Op<D>>): seq<Outcome<D>>
    decreases |ops|
  {
    if ops == [] then [] else [Observed(c, ops[0])] + EagerOutcomes(EagerStep(c, ops[0]), ops[1..])
  }

  lemma {:induction false} EagerRunsArePlain<D(!new)>(c: Conn<D>, p: Plain<D>, ops: seq<Op<D>>)
    requires Refines(c, p) && NoFault(c.engine)
    ensures EagerOutcomes(c, ops) == PlainOutcomes(p, ops)
    decreases |ops|
  {
    if ops != [] {
      StepKeeps(c, p, ops[0]);
      var next, q := Step(c, ops[0]), PlainStep(p, ops[0]);
      if ops[0].Drop? {
        var levels :| RefinesVia(next, q, levels);
        DrainKeeps(next, q, levels);
      }
      EagerRunsArePlain(EagerStep(c, ops[0]), q, ops[1..]);
    }
  }

  function EagerAfter<D>(c: Conn<D>, ops: seq<Op<D>>): Conn<D>
    decreases |ops|
  {
    if ops == [] then c else EagerAfter(EagerStep(c, ops[0]), ops[1..])
  }

  /** The connection once its queue has been drained; the queue of a poisoned one does not matter. */
  function Settled<D>(c: Conn<D>): Conn<D> {
    Drain(c).0.(pending := [])
  }

  lemma {:induction false} DrainEmpties<D>(c: Conn<D>)
    ensures Drain(c).1 == None <==> !Drain(c).0.failed
    ensures Drain(c).1 == None ==> Drain(c).0.pending == []
    ensures Drain(c).0.depth == c.depth
    decreases |c.pending|
  {
    if !c.failed && c.pending != [] {
      DrainEmpties(c.(pending := c.pending[1..], engine := Exec(c.engine, RollbackAt(c.pending[0])).0));
    }
  }

  lemma {:induction false} DrainFaults<D>(c: Conn<D>)
    requires NoFault(c.engine)
    ensures NoFault(Drain(c).0.engine)
    ensures Drain(c).1.Some? ==> Drain(c).0.failed
    decreases |c.pending|
  {
    if !c.failed && c.pending != [] {
      DrainFaults(c.(pending := c.pending[1..], engine := Exec(c.engine, RollbackAt(c.pending[0])).0));
    }
  }

  /** Draining an idle engine leaves its database alone, whatever else goes wrong. */
  lemma {:induction false} IdleDrainKeepsDatabase<D>(c: Conn<D>)
    requires c.engine.txn.Idle?
    ensures Drain(c).0.engine.txn.Idle? && Drain(c).0.engine.db == c.engine.db
    decreases |c.pending|
  {
    if !c.failed && c.pending != [] {
      IdleDrainKeepsDatabase(c.(pending := c.pending[1..], engine := Exec(c.engine, RollbackAt(c.pending[0])).0));
    }
  }

  /** A level queued behind others is drained after them, or not at all. */
  lemma {:induction false} DrainAppend<D>(c: Conn<D>, last: Level)
    requires !c.failed
    ensures Settled(c.(pending := c.pending + [last])) ==
            if Settled(c).failed then Settled(c) else Settled(Settled(c).(pending := [last]))
    decreases |c.pending|
  {
    var longer := c.(pending := c.pending + [last]);
    if c.pending == [] {
      assert longer.pending == [last];
    } else {
      var (engine, error) := Exec(c.engine, RollbackAt(c.pending[0]));
      var popped := c.(pending := c.pending[1..], engine := engine);
      assert longer.pending[0] == c.pending[0] && longer.pending[1..] == popped.pending + [last];
      if error == None || (c.pending[0] == 1 && error == Some(NoActiveTransaction)) {
        assert Drain(c) == Drain(popped);
        assert Drain(longer) == Drain(popped.(pending := popped.pending + [last]));
        DrainAppend(popped, last);
      }
    }
  }

  /** What a drop leads to depends on the settled connection only. */
  lemma DropSettles<D>(c: Conn<D>)
    ensures Settled(DropOp(c)) == Settled(DropOp(Settled(c)))
  {
    DrainEmpties(c);
    if c.depth > 0 && !c.failed {
      var lower := c.(depth := c.depth - 1);
      DepthIsIdle(c, c.depth - 1);
      DrainAppend(lower, c.depth);
      assert DropOp(c) == lower.(pending := lower.pending + [c.depth]);
      assert [] + [c.depth] == [c.depth];
    }
  }

  /** Draining does not look at the depth. */
  lemma {:induction false} DepthIsIdle<D>(c: Conn<D>, depth: nat)
    ensures Drain(c.(depth := depth)) == (Drain(c).0.(depth := depth), Drain(c).1)
    decreases |c.pending|
  {
    if !c.failed && c.pending != [] {
      DepthIsIdle(c.(pending := c.pending[1..], engine := Exec(c.engine, RollbackAt(c.pending[0])).0), depth);
    }
  }

  /** Two connections that settle alike give the same outcome, or both refuse, and go on settling alike. */
  lemma AlikeStep<D>(c: Conn<D>, e: Conn<D>, op: Op<D>)
    requires Settled(c) == Settled(e)
    ensures Settled(Step(c, op)) == Settled(EagerStep(e, op))
    ensures Observed(c, op) == Observed(e, op) || (Observed(c, op).Refused? && Observed(e, op).Refused?)
  {
    DrainEmpties(c);
    DrainEmpties(e);
    if op.Drop? {
      DropSettles(c);
      DropSettles(e);
      DrainEmpties(DropOp(e));
    } else if Settled(c).failed {
      assert Step(c, op) == Drain(c).0 && Step(e, op) == Drain(e).0;
    } else {
      assert Drain(c) == (Settled(c), None) && Drain(e) == Drain(c);
      assert Step(c, op) == Step(e, op);
    }
  }

  /** Deferral is invisible, under every fault and from any connection: over every run each operation
      gives the same outcome as with every drop rolled back on the spot, or is refused both ways, and
      the two end up on the same engine and depth once drained. */
  lemma {:induction false} DeferredEqualsEager<D>(c: Conn<D>, e: Conn<D>, ops: seq<Op<D>>)
    requires Settled(c) == Settled(e)
    ensures |Outcomes(c, ops)| == |EagerOutcomes(e, ops)| == |ops|
    ensures forall i :: 0 <= i < |ops| ==>
              || Outcomes(c, ops)[i] == EagerOutcomes(e, ops)[i]
              || (Outcomes(c, ops)[i].Refused? && EagerOutcomes(e, ops)[i].Refused?)
    ensures Settled(After(c, ops)) == Settled(EagerAfter(e, ops))
    decreases |ops|
  {
    if ops != [] {
      AlikeStep(c, e, ops[0]);
      DeferredEqualsEager(Step(c, ops[0]), EagerStep(e, ops[0]), ops[1..]);
    }
  }

  /** Without faults the outcomes are the same. */
  lemma FaultFreeDeferredEqualsEager<D(!new)>(c: Conn<D>, p: Plain<D>, ops: seq<Op<D>>)
    requires Refines(c, p) && NoFault(c.engine)
    ensures Outcomes(c, ops) == EagerOutcomes(c, ops)
  {
    FaultFreeRunsArePlain(c, p, ops);
    EagerRunsArePlain(c, p, ops);
  }

  function Fresh<D>(db: D, faults: seq<Fault>): Conn<D> {
    Conn(0, [], false, Engine(db, Idle, faults))
  }

  /** A new connection refines the empty plain stack, so both theorems cover every run of one. */
  lemma FreshRefines<D(!new)>(db: D, faults: seq<Fault>)
    ensures Refines(Fresh(db, faults), Plain(db, []))
  {
    assert RefinesVia(Fresh(db, faults), Plain(db, []), []);
  }
}
