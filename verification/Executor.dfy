/** executor.rs: draining, inspecting and routing one query. */
module Executor {
  import opened Prelude
  import opened Engine
  import opened Transactions
  import opened SqlText
  import opened SqlInspection
  import opened InspectionLaws

  datatype FetchError =
    | ConnectionFailed(failure: Failure)
    | BatchArgumentsUnsupported
    | NamedPlaceholderUnsupported(placeholder: string)

  datatype Route = Batch | Prepare | Reject(error: FetchError)

  function RouteOf(r: Inspection, hasArguments: bool): Route {
    if r.mayContainMultipleStatements then
      if hasArguments then Reject(BatchArgumentsUnsupported) else Batch
    else if hasArguments && r.unsupportedNamedPlaceholder.Some? then
      Reject(NamedPlaceholderUnsupported(r.unsupportedNamedPlaceholder.value))
    else Prepare
  }

  /** One statement, every placeholder of which takes an argument by position. */
  ghost predicate Bindable(sql: string) {
    && (forall i :: 0 <= i < |sql| ==> !Splits(Sql, sql, i))
    && (forall i :: 0 <= i < |sql| ==> UnsupportedAt(Sql, sql, i) == None)
  }

  lemma {:induction false} NoneUnsupported(sql: string, end: nat)
    requires end <= |sql|
    ensures LastUnsupported(Sql, sql, end) == None <==> forall i :: 0 <= i < end ==> UnsupportedAt(Sql, sql, i) == None
  {
    if end > 0 {
      NoneUnsupported(sql, end - 1);
    }
  }

  /** A query with arguments is let through exactly when it is one statement without an unsupported
      placeholder anywhere: neither the early return nor the overwriting of an earlier placeholder
      loses a refusal. Without arguments every query is let through. */
  lemma RoutingIsExact(sql: string, r: Inspection, hasArguments: bool)
    requires Describes(Sql, sql, r)
    ensures RouteOf(r, hasArguments).Reject? <==> hasArguments && !Bindable(sql)
    ensures RouteOf(r, hasArguments).Batch? <==> !hasArguments && exists i :: 0 <= i < |sql| && Splits(Sql, sql, i)
  {
    FlagMeansSplit(sql, r);
    NoneUnsupported(sql, |sql|);
  }

  ghost function RefusalOf(sql: string): FetchError
    requires !Bindable(sql)
  {
    if exists i :: 0 <= i < |sql| && Splits(Sql, sql, i) then BatchArgumentsUnsupported
    else
      NoneUnsupported(sql, |sql|);
      NamedPlaceholderUnsupported(LastUnsupported(Sql, sql, |sql|).value)
  }

  /** The refusal names the batch, or the last placeholder that cannot be bound. */
  lemma RefusalIsReported(sql: string, r: Inspection)
    requires Describes(Sql, sql, r) && !Bindable(sql)
    ensures RouteOf(r, true) == Reject(RefusalOf(sql))
    ensures (exists i :: 0 <= i < |sql| && Splits(Sql, sql, i)) ==>
              RouteOf(r, true) == Reject(BatchArgumentsUnsupported)
    ensures (forall i :: 0 <= i < |sql| ==> !Splits(Sql, sql, i)) ==>
              && LastUnsupported(Sql, sql, |sql|).Some?
              && RouteOf(r, true) == Reject(NamedPlaceholderUnsupported(LastUnsupported(Sql, sql, |sql|).value))
  {
    FlagMeansSplit(sql, r);
    NoneUnsupported(sql, |sql|);
  }

  /** Runs one query. `effect` is what the engine does for this text and these arguments, whether it
      gets them as a batch or as a prepared statement. */
  method FetchManySql<D>(conn: TursoConnection<D>, sql: string, hasArguments: bool, effect: D -> Change<D>)
    returns (error: Option<FetchError>)
    modifies conn`raw, conn.state
    ensures hasArguments && !Bindable(sql) ==>
              var (after, failure) := Drain(old(conn.View()));
              conn.View() == after &&
              error == Some(if failure.Some? then ConnectionFailed(failure.value) else RefusalOf(sql))
    ensures !hasArguments || Bindable(sql) ==>
              var (after, failure) := QueryOp(old(conn.View()), effect);
              conn.View() == after && error == if failure.Some? then Some(ConnectionFailed(failure.value)) else None
  {
    var failure := conn.ClearPendingRollback();
    if failure.Some? {
      return Some(ConnectionFailed(failure.value));
    }
    var inspection := InspectSql(sql);
    RoutingIsExact(sql, inspection, hasArguments);
    var route := RouteOf(inspection, hasArguments);
    if route.Reject? {
      RefusalIsReported(sql, inspection);
      return Some(route.error);
    }
    var outcome := conn.Execute(UserSql(effect));
    error := if outcome.Some? then Some(ConnectionFailed(Database(outcome.value))) else None;
  }
}
