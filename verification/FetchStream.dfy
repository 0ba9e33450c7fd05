/** executor.rs: the stream of rows and the final query result, which reads one row ahead. */
module FetchStream {
  import opened Prelude

  /** An engine cursor: it yields rows, then ends or fails. `Next` must not be called again after that. */
  class Cursor<R, E> {
    const rows: seq<R>
    const failure: Option<E>
    const changes: nat
    var position: nat
    var finished: bool

    ghost predicate Valid()
      reads this
    {
      position <= |rows|
    }

    constructor (rows: seq<R>, failure: Option<E>, changes: nat)
      ensures this.rows == rows && this.failure == failure && this.changes == changes
      ensures Valid() && position == 0 && !finished
    {
      this.rows, this.failure, this.changes := rows, failure, changes;
      position, finished := 0, false;
    }

    method Next() returns (row: Result<Option<R>, E>)
      requires Valid() && !finished
      modifies this
      ensures Valid()
      ensures old(position) < |rows| ==>
                row == Success(Some(rows[old(position)])) && position == old(position) + 1 && !finished
      ensures old(position) == |rows| ==>
                position == old(position) && finished &&
                row == if failure.Some? then Failure(failure.value) else Success(None)
    {
      if position < |rows| {
        position := position + 1;
        return Success(Some(rows[position - 1]));
      }
      finished := true;
      return if failure.Some? then Failure(failure.value) else Success(None);
    }
  }

  datatype FetchState<R, E> =
    | Rows(cursor: Cursor<R, E>, pendingRow: Option<R>)
    | QueryResult(changes: nat)
    | Done

  datatype Item<+V, +E> = Row(value: V) | Summary(changes: nat) | Error(error: E)

  /** All items still to come from a cursor whose rows are `rows`. `decode` reads the values of a row. */
  function Emits<R, V, E>(rows: seq<R>, failure: Option<E>, changes: nat, decode: R -> Result<V, E>): seq<Item<V, E>>
    decreases |rows|
  {
    if rows == [] then if failure.Some? then [Error(failure.value)] else [Summary(changes)]
    else if decode(rows[0]).Failure? then [Error(decode(rows[0]).error)]
    else if |rows| == 1 && failure.Some? then [Error(failure.value)]
    else [Row(decode(rows[0]).value)] + Emits(rows[1..], failure, changes, decode)
  }

  ghost predicate ValidState<R, E>(state: FetchState<R, E>)
    reads if state.Rows? then {state.cursor} else {}
  {
    state.Rows? ==> state.cursor.Valid() && !state.cursor.finished
  }

  ghost function Remaining<R, V, E>(state: FetchState<R, E>, decode: R -> Result<V, E>): seq<Item<V, E>>
    requires ValidState(state)
    reads if state.Rows? then {state.cursor} else {}
  {
    match state
    case Done => []
    case QueryResult(changes) => [Summary(changes)]
    case Rows(cursor, pending) =>
      Emits((if pending.Some? then [pending.value] else []) + cursor.rows[cursor.position..],
            cursor.failure, cursor.changes, decode)
  }

  /** One step of the stream: the next item, if any, and the state after it. A stream that has failed is
      over. The cursor has been run to completion when the state after an item is not `Rows`. */
  method Next<R, V, E>(state: FetchState<R, E>, decode: R -> Result<V, E>)
    returns (item: Option<Item<V, E>>, next: FetchState<R, E>)
    requires ValidState(state)
    modifies if state.Rows? then {state.cursor} else {}
    ensures ValidState(next) && (next.Rows? ==> state.Rows? && next.cursor == state.cursor)
    ensures old(Remaining(state, decode)) == if item.Some? then [item.value] + Remaining(next, decode) else []
    ensures item.None? ==> next.Done?
    ensures next.Rows? ==> next.cursor.position > old(state.cursor.position) && next.pendingRow.Some?
    ensures state.Rows? && item.Some? && item.value.Row? && !next.Rows? ==> state.cursor.finished
  {
    if state.QueryResult? {
      return Some(Summary(state.changes)), Done;
    }
    if state.Done? {
      return None, Done;
    }
    var cursor := state.cursor;
    var row := state.pendingRow;
    ghost var before := (if row.Some? then [row.value] else []) + cursor.rows[cursor.position..];
    ghost var all: seq<Item<V, E>> := Emits(before, cursor.failure, cursor.changes, decode);
    assert all == Remaining(state, decode);
    assert |all| == 1 ==> all == [all[0]] + [];
    if row.None? {
      var stepped := cursor.Next();
      if stepped.Failure? {
        return Some(Error(stepped.error)), Done;
      }
      row := stepped.value;
    }
    if row.None? {
      return Some(Summary(cursor.changes)), Done;
    }
    ghost var rest := cursor.rows[cursor.position..];
    assert before == [row.value] + rest && before[1..] == rest;
    var values := decode(row.value);
    if values.Failure? {
      return Some(Error(values.error)), Done;
    }
    var ahead := cursor.Next();
    if ahead.Failure? {
      return Some(Error(ahead.error)), Done;
    }
    if ahead.value.Some? {
      next := Rows(cursor, ahead.value);
      assert rest != [] && [ahead.value.value] + cursor.rows[cursor.position..] == rest;
    } else {
      next := QueryResult(cursor.changes);
      assert rest == [];
    }
    assert all == [Row(values.value)] + Emits(rest, cursor.failure, cursor.changes, decode);
    item := Some(Row(values.value));
  }

  /** Everything a consumer of the stream sees. */
  method Collect<R, V, E>(cursor: Cursor<R, E>, decode: R -> Result<V, E>) returns (items: seq<Item<V, E>>)
    requires cursor.Valid() && cursor.position == 0 && !cursor.finished
    modifies cursor
    ensures items == Emits(cursor.rows, cursor.failure, cursor.changes, decode)
  {
    items := [];
    var state := Rows(cursor, None);
    var more := true;
    assert [] + cursor.rows[0..] == cursor.rows;
    while more
      invariant ValidState(state) && (state.Rows? ==> state.cursor == cursor)
      invariant items + Remaining(state, decode) == Emits(cursor.rows, cursor.failure, cursor.changes, decode)
      invariant !more ==> Remaining(state, decode) == []
      decreases more, if state.Rows? then 2 + |cursor.rows| - cursor.position else if state.QueryResult? then 1 else 0
    {
      var item, next := Next(state, decode);
      more := item.Some?;
      if more {
        items := items + [item.value];
      }
      state := next;
    }
  }

  /** The first row, if there is one. */
  method FetchOptional<R, V, E>(cursor: Cursor<R, E>, decode: R -> Result<V, E>) returns (row: Result<Option<V>, E>)
    requires cursor.Valid() && cursor.position == 0 && !cursor.finished
    modifies cursor
    ensures var first := Emits(cursor.rows, cursor.failure, cursor.changes, decode)[0];
            row == match first
                   case Row(value) => Success(Some(value))
                   case Summary(_) => Success(None)
                   case Error(e) => Failure(e)
    ensures row == if cursor.rows == [] then
                     if cursor.failure.Some? then Failure(cursor.failure.value) else Success(None)
                   else if decode(cursor.rows[0]).Failure? then Failure(decode(cursor.rows[0]).error)
                   else if |cursor.rows| == 1 && cursor.failure.Some? then Failure(cursor.failure.value)
                   else Success(Some(decode(cursor.rows[0]).value))
  {
    var state := Rows(cursor, None);
    assert [] + cursor.rows[0..] == cursor.rows;
    var item, next := Next(state, decode);
    match item.value
    case Row(value) => row := Success(Some(value));
    case Error(error) => row := Failure(error);
    case Summary(_) =>
      var end, _ := Next(next, decode);
      row := Success(None);
  }

  ghost predicate Decodes<R, V, E>(rows: seq<R>, decode: R -> Result<V, E>) {
    forall i :: 0 <= i < |rows| ==> decode(rows[i]).Success?
  }

  function Decoded<R, V, E>(rows: seq<R>, decode: R -> Result<V, E>): seq<Item<V, E>>
    requires forall i :: 0 <= i < |rows| ==> decode(rows[i]).Success?
  {
    seq(|rows|, i requires 0 <= i < |rows| => Row(decode(rows[i]).value))
  }

  /** A cursor that does not fail: every row once, in order, then one query result. */
  lemma {:induction false} EveryRowOnce<R, V, E>(rows: seq<R>, changes: nat, decode: R -> Result<V, E>)
    requires Decodes(rows, decode)
    ensures Emits(rows, None, changes, decode) == Decoded(rows, decode) + [Summary(changes)]
  {
    if rows != [] {
      EveryRowOnce(rows[1..], changes, decode);
      assert Decoded(rows, decode) == [Row(decode(rows[0]).value)] + Decoded(rows[1..], decode);
    }
  }

  /** A cursor that fails after its last row: that row is lost to the lookahead, the others are not. */
  lemma {:induction false} FailureSwallowsLastRow<R, V, E>(
      rows: seq<R>, failure: E, changes: nat, decode: R -> Result<V, E>)
    requires Decodes(rows, decode)
    ensures Emits(rows, Some(failure), changes, decode) ==
            (if rows == [] then [] else Decoded(rows[..|rows| - 1], decode)) + [Error(failure)]
  {
    if |rows| > 1 {
      FailureSwallowsLastRow(rows[1..], failure, changes, decode);
      assert rows[..|rows| - 1][1..] == rows[1..][..|rows| - 2];
      assert Decoded(rows[..|rows| - 1], decode) ==
             [Row(decode(rows[0]).value)] + Decoded(rows[1..][..|rows| - 2], decode);
    }
  }

  /** A row whose values cannot be read: the rows before it are delivered, then its error, and nothing after it. */
  lemma {:induction false} UndecodableRowEnds<R, V, E>(
      rows: seq<R>, failure: Option<E>, changes: nat, decode: R -> Result<V, E>, bad: nat)
    requires bad < |rows| && Decodes(rows[..bad], decode) && decode(rows[bad]).Failure?
    ensures Emits(rows, failure, changes, decode) == Decoded(rows[..bad], decode) + [Error(decode(rows[bad]).error)]
  {
    if bad > 0 {
      assert rows[..bad][0] == rows[0] && rows[..bad][1..] == rows[1..][..bad - 1];
      var between := rows[1..][..bad - 1];
      forall i | 0 <= i < |between| ensures decode(between[i]).Success? {
        assert rows[..bad][i + 1] == between[i];
      }
      UndecodableRowEnds(rows[1..], failure, changes, decode, bad - 1);
      assert Decoded(rows[..bad], decode) == [Row(decode(rows[0]).value)] + Decoded(rows[1..][..bad - 1], decode);
    }
  }
}
