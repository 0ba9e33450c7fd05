/** Which failure each operation reports: the engine's own, or that the connection is already poisoned. */
module Reports {
  import opened Prelude
  import opened Engine
  import opened Transactions
  import opened Runs

  /** The engine after these rollbacks, whatever it answers to them. */
  function RolledBack<D>(e: Engine<D>, queue: seq<Level>): Engine<D>
    decreases |queue|
  {
    if queue == [] then e else RolledBack(Exec(e, RollbackAt(queue[0])).0, queue[1..])
  }

  /** What the engine answers to the k-th of these rollbacks. */
  function Answer<D>(e: Engine<D>, queue: seq<Level>, k: nat): Option<EngineError>
    requires k < |queue|
  {
    Exec(RolledBack(e, queue[..k]), RollbackAt(queue[k])).1
  }

  /** The outermost level may have been rolled back by the engine already. */
  predicate Forgiven(level: Level, answer: Option<EngineError>) {
    answer == None || (level == 1 && answer == Some(NoActiveTransaction))
  }

  ghost predicate AllForgiven<D>(e: Engine<D>, queue: seq<Level>, k: nat)
    requires k <= |queue|
  {
    forall i :: 0 <= i < k ==> Forgiven(queue[i], Answer(e, queue, i))
  }

  /** A drain whose rollbacks are all forgiven performs all of them. One that meets another answer stops
      there, poisons the connection and reports exactly that answer. */
  lemma {:induction false} DrainReports<D(!new)>(c: Conn<D>, k: nat)
    requires !c.failed && k <= |c.pending| && AllForgiven(c.engine, c.pending, k)
    ensures k == |c.pending| ==>
              Drain(c) == (c.(pending := [], engine := RolledBack(c.engine, c.pending)), None)
    ensures k < |c.pending| && !Forgiven(c.pending[k], Answer(c.engine, c.pending, k)) ==>
              Drain(c) ==
              (c.(pending := [], failed := true, engine := RolledBack(c.engine, c.pending[..k + 1])),
               Some(Database(Answer(c.engine, c.pending, k).value)))
    decreases |c.pending|
  {
    if c.pending != [] {
      var queue, engine := c.pending, Exec(c.engine, RollbackAt(c.pending[0])).0;
      assert queue[..0] == [] && RolledBack(c.engine, queue[..0]) == c.engine;
      if k == 0 {
        assert queue[..1][1..] == [] && RolledBack(engine, []) == engine;
      } else {
        assert Forgiven(queue[0], Answer(c.engine, queue, 0));
        var popped := c.(pending := queue[1..], engine := engine);
        forall i | 0 <= i < |queue| - 1 ensures Answer(engine, queue[1..], i) == Answer(c.engine, queue, i + 1) {
          assert queue[..i + 1][1..] == queue[1..][..i];
        }
        forall i | 0 <= i < k - 1 ensures Forgiven(popped.pending[i], Answer(engine, popped.pending, i)) {
          assert Forgiven(queue[i + 1], Answer(c.engine, queue, i + 1));
        }
        DrainReports(popped, k - 1);
        assert Drain(c) == Drain(popped);
        if k < |queue| {
          assert queue[..k + 1][1..] == queue[1..][..k];
        }
      }
    }
  }

  /** The first queued rollback that is not forgiven, or the end of the queue. */
  lemma {:induction false} FirstUnforgiven<D(!new)>(c: Conn<D>) returns (k: nat)
    ensures k <= |c.pending| && AllForgiven(c.engine, c.pending, k)
    ensures k < |c.pending| ==> !Forgiven(c.pending[k], Answer(c.engine, c.pending, k))
  {
    k := 0;
    while k < |c.pending| && Forgiven(c.pending[k], Answer(c.engine, c.pending, k))
      invariant 0 <= k <= |c.pending| && AllForgiven(c.engine, c.pending, k)
    {
      k := k + 1;
    }
  }

  /** Exactly the unforgiven answers make a drain fail. */
  lemma DrainFailsExactly<D(!new)>(c: Conn<D>)
    requires !c.failed
    ensures Drain(c).1 == None <==> AllForgiven(c.engine, c.pending, |c.pending|)
  {
    var k := FirstUnforgiven(c);
    DrainReports(c, k);
  }

  /** The statement that an operation sends at a depth. */
  function StatementOf<D>(op: Op<D>, depth: nat): Option<Stmt<D>> {
    match op
    case Begin(custom) =>
      if depth == 0 then Some(BeginSql) else if custom then None else Some(SavepointSql(depth))
    case Commit =>
      if depth == 0 then None else if depth == 1 then Some(CommitSql) else Some(ReleaseSql(depth - 1))
    case Rollback =>
      if depth == 0 then None else if depth == 1 then Some(RollbackSql) else Some(RollbackToSql(depth - 1))
    case Drop => None
    case Query(effect) => Some(UserSql(effect))
  }

  function Returned<D>(c: Conn<D>, op: Op<D>): Option<Failure> {
    match op
    case Begin(custom) => BeginOp(c, custom).1
    case Commit => CommitOp(c).1
    case Rollback => RollbackOp(c).1
    case Drop => None
    case Query(effect) => QueryOp(c, effect).1
  }

  /** After a drain that succeeds, an operation sends at most one statement and reports the engine's
      answer to it; only a nested custom begin is refused without asking the engine. */
  lemma OperationReports<D(!new)>(c: Conn<D>, op: Op<D>)
    requires Drain(c).1 == None && !op.Drop?
    ensures var d := Drain(c).0;
            var stmt := StatementOf(op, d.depth);
            && (stmt.Some? ==>
                  && Step(c, op).engine == Exec(d.engine, stmt.value).0
                  && Returned(c, op) ==
                     match Exec(d.engine, stmt.value).1 { case None => None case Some(e) => Some(Database(e)) })
            && (stmt.None? ==>
                  && Step(c, op) == d
                  && Returned(c, op) == if op.Begin? then Some(InvalidSavePointStatement) else None)
  {
    DrainEmpties(c);
  }

  lemma {:induction false} RunSplits<D>(c: Conn<D>, ops: seq<Op<D>>, i: nat)
    requires i < |ops|
    ensures |Outcomes(c, ops)| == |ops| && Outcomes(c, ops)[i] == Observed(After(c, ops[..i]), ops[i])
    ensures After(c, ops[..i + 1]) == Step(After(c, ops[..i]), ops[i])
    decreases |ops|
  {
    assert ops[..i + 1][0] == ops[0] && ops[..i + 1][1..] == ops[1..][..i];
    if i > 0 {
      assert ops[..i][1..] == ops[1..][..i - 1];
      RunSplits(Step(c, ops[0]), ops[1..], i - 1);
    } else {
      OutcomesMatch(c, ops);
    }
  }

  lemma {:induction false} OutcomesMatch<D>(c: Conn<D>, ops: seq<Op<D>>)
    ensures |Outcomes(c, ops)| == |ops|
    decreases |ops|
  {
    if ops != [] {
      OutcomesMatch(Step(c, ops[0]), ops[1..]);
    }
  }

  /** Over every run under every fault: the operation that poisons the connection reports the engine's error
      to the first queued rollback that it did not forgive, and exactly the later ones report a crash. */
  lemma PoisonIsReportedOnce<D(!new)>(c: Conn<D>, ops: seq<Op<D>>, i: nat)
    requires i < |ops|
    ensures |Outcomes(c, ops)| == |ops|
    ensures Outcomes(c, ops)[i] == Refused(WorkerCrashed) <==> After(c, ops[..i]).failed && !ops[i].Drop?
    ensures var before := After(c, ops[..i]);
            !before.failed && After(c, ops[..i + 1]).failed ==>
              exists k ::
                && 0 <= k < |before.pending| && AllForgiven(before.engine, before.pending, k)
                && !Forgiven(before.pending[k], Answer(before.engine, before.pending, k))
                && Outcomes(c, ops)[i] == Refused(Database(Answer(before.engine, before.pending, k).value))
  {
    RunSplits(c, ops, i);
    var before, op := After(c, ops[..i]), ops[i];
    if !before.failed && !op.Drop? {
      if Drain(before).1 == None {
        DrainEmpties(before);
        OperationReports(before, op);
      } else {
        var k := FirstUnforgiven(before);
        DrainReports(before, k);
      }
    }
  }
}
