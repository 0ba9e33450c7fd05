/** When the engine's savepoints, leftovers and duplicate names included, stand for a plain stack of
    snapshots: `levels[0]` is the database at BEGIN and `levels[i]` the one at savepoint i. */
module Savepoints {
  import opened Prelude
  import opened Engine
  import opened Transactions

  /** Read from the newest savepoint down: one named |levels| - 1 is the innermost level, one named
      |levels| or more is left over from a level that has been rolled back. */
  ghost predicate Encodes<D>(savepoints: seq<Savepoint<D>>, levels: seq<D>)
    requires levels != []
    decreases |savepoints|
  {
    var n := |levels| - 1;
    if savepoints == [] then n == 0
    else
      var top := savepoints[|savepoints| - 1];
      var below := savepoints[..|savepoints| - 1];
      if top.name > n then Encodes(below, levels)
      else n > 0 && top == Savepoint(n, levels[n]) && Encodes(below, levels[..n])
  }

  ghost predicate InStep<D>(e: Engine<D>, levels: seq<D>) {
    if levels == [] then e.txn.Idle?
    else e.txn.Open? && !e.txn.implicit && e.txn.base == levels[0] && Encodes(e.txn.savepoints, levels)
  }

  /** The innermost savepoint is found, and what lies below it encodes the outer levels. */
  lemma {:induction false} InnermostLevel<D>(savepoints: seq<Savepoint<D>>, levels: seq<D>)
    requires |levels| > 1 && Encodes(savepoints, levels)
    ensures Newest(savepoints, |levels| - 1).Some?
    ensures var p := Newest(savepoints, |levels| - 1).value;
            && savepoints[p].snapshot == levels[|levels| - 1]
            && Encodes(savepoints[..p], levels[..|levels| - 1])
    decreases |savepoints|
  {
    var below := savepoints[..|savepoints| - 1];
    if savepoints[|savepoints| - 1].name > |levels| - 1 {
      InnermostLevel(below, levels);
      var p := Newest(below, |levels| - 1).value;
      assert below[..p] == savepoints[..p];
    }
  }

  /** No leftover shadows a live level: whatever level is looked up by name, the newest savepoint of
      that name holds the snapshot of that level. */
  lemma {:induction false} NoLeftoverShadows<D>(savepoints: seq<Savepoint<D>>, levels: seq<D>, i: nat)
    requires 0 < i < |levels| && Encodes(savepoints, levels)
    ensures Newest(savepoints, i).Some?
    ensures savepoints[Newest(savepoints, i).value].snapshot == levels[i]
    decreases |savepoints|
  {
    var n := |levels| - 1;
    if savepoints[|savepoints| - 1].name > n {
      NoLeftoverShadows(savepoints[..|savepoints| - 1], levels, i);
    } else if i < n {
      NoLeftoverShadows(savepoints[..|savepoints| - 1], levels[..n], i);
    }
  }

  /** The SQL for opening a level pushes the current database. */
  lemma BeginPushes<D>(e: Engine<D>, levels: seq<D>)
    requires InStep(e, levels)
    ensures var (after, error) := Perform(e, BeginAt(|levels|));
            error == None && InStep(after, levels + [e.db]) && after.db == e.db
  {
    if levels != [] {
      var pushed := e.txn.savepoints + [Savepoint(|levels|, e.db)];
      assert pushed[..|pushed| - 1] == e.txn.savepoints;
      assert (levels + [e.db])[..|levels|] == levels;
    }
  }

  /** The SQL for committing a level closes it and keeps the current database. */
  lemma CommitPops<D>(e: Engine<D>, levels: seq<D>)
    requires levels != [] && InStep(e, levels)
    ensures var (after, error) := Perform(e, CommitAt(|levels|));
            error == None && InStep(after, levels[..|levels| - 1]) && after.db == e.db
  {
    if |levels| > 1 {
      InnermostLevel(e.txn.savepoints, levels);
    }
  }

  /** The SQL for rolling a level back closes it and restores the snapshot taken when it opened. */
  lemma RollbackRestores<D>(e: Engine<D>, levels: seq<D>)
    requires levels != [] && InStep(e, levels)
    ensures var (after, error) := Perform(e, RollbackAt(|levels|));
            error == None && InStep(after, levels[..|levels| - 1]) && after.db == levels[|levels| - 1]
  {
    if |levels| > 1 {
      InnermostLevel(e.txn.savepoints, levels);
      var p := Newest(e.txn.savepoints, |levels| - 1).value;
      var kept := e.txn.savepoints[..p + 1];
      assert kept[..|kept| - 1] == e.txn.savepoints[..p];
    }
  }
}
