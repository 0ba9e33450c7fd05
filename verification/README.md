# sqlx-turso, modelled in Dafny

`sqlx-turso` is a SQLx driver for the Turso database engine. This project models the parts of it whose
correctness is not visible from any one function and proves what they promise.

* **Transactions** (`Engine`, `Transactions`, `Savepoints`, `Runs`, `Reports`, `Aborts`). Nested transactions become
  `BEGIN`, `SAVEPOINT`, `RELEASE` and `ROLLBACK TO`; a dropped handle only queues its depth, and the queue is
  drained before the next statement. The engine keeps a savepoint that has been rolled back to, so its stack
  grows longer than the depth and holds duplicate names. A client nevertheless sees a plain stack of snapshots
  in which dropping a handle rolls back at once: for every run, whatever statements the engine refuses. With
  engine-initiated aborts as well, deferring a rollback still cannot be told from rolling back on the spot, the
  queue keeps its shape, and it is settled exactly when a connection recovers and when a nested commit is final.
* **Migrations** (`Migrations`, `MigrationLaws`). `apply` and `revert` are built on those transactions; they are
  atomic, the dirty row survives and the migrations table tells the truth, with refusals and aborts anywhere.
* **The SQL scanner** (`SqlText`, `Regions`, `SqlInspection`, `InspectionLaws`, `Executor`). The scanner that routes a
  query is proved against an automaton that reads SQL text one character at a time, and the automaton against the
  delimiters of quotes, brackets and comments.
* **Identifiers and command texts** (`Identifiers`, `MigrationSql`). The identifier parser accepts exactly the
  spellings of its grammar and undoes printing; every migration command text passes the scanner, whatever the
  spliced name holds. `Migrations.Apply` and `Migrations.Revert` send these texts through `Executor.FetchManySql`.
* **Smaller machines** (`FetchStream`, `Options`, `OptionLaws`, `MemoryDatabases`, `Workspace`): the row stream with
  its lookahead, what query pairs mean for connection options and their round trip, the identity of in-memory
  databases, and the staged directory swap of the command line tool.

`Prelude` and `Decimal` hold shared datatypes and numerals. `dafny verify dfyconfig.toml` checks everything.

## Assumptions

* sqlx-core 0.9.0 is not part of this model. Its SQL is taken to be: begin at depth 0 is `BEGIN`, otherwise
  `SAVEPOINT _sqlx_savepoint_{depth}`; commit and rollback at depth 1 are `COMMIT` and `ROLLBACK`, otherwise
  `RELEASE SAVEPOINT` and `ROLLBACK TO SAVEPOINT` of `_sqlx_savepoint_{depth - 1}`. A savepoint is identified by
  that numeral. A transaction handle that is dropped, or whose commit fails, calls `start_rollback`.
* The engine follows "Savepoints" of the SQLite language documentation. A refused statement changes nothing, an
  abort rolls the whole transaction back, and the message for a missing transaction is given only by an idle
  engine. The environment decides for each statement whether it runs, is refused or aborts; a directory removal
  that fails may have removed anything.
* A custom begin statement is one of the `BEGIN` forms. Each awaited call is one step. `usize` has 64 bits.
  The time of a migration is the number bound for it, after its truncation to 64 bits.

## Model

| member | source | states |
|---|---|---|
| Engine.Newest | crates/sqlx-turso-core/src/connection.rs:107-108 | a savepoint lookup finds the newest entry of that name, and none only if there is none |
| Transactions.TransactionState.MarkRollbackNeeded | crates/sqlx-turso-core/src/connection.rs:50-57 | a drop queues the current depth at the back and closes one level; at depth 0 it does nothing |
| Transactions.TransactionState.PopPendingRollback | crates/sqlx-turso-core/src/connection.rs:59-61 | the queue is first in, first out |
| Transactions.TransactionState.MarkRollbackFailed | crates/sqlx-turso-core/src/connection.rs:67-70 | poisoning empties the queue |
| Transactions.TransactionState.DecrementDepth | crates/sqlx-turso-core/src/connection.rs:44-48 | the depth never goes below 0 |
| Transactions.TursoConnection.ClearPendingRollback | crates/sqlx-turso-core/src/connection.rs:101-119 | the draining loop computes `Drain` of the connection, poison, the inactive-transaction exception and the error reported included |
| Transactions.TursoConnection.Begin | crates/sqlx-turso-core/src/transaction.rs:22-36 | computes `BeginOp` of the connection: drain, refuse a nested custom statement, open a level only if the engine did |
| Transactions.TursoConnection.Commit | crates/sqlx-turso-core/src/transaction.rs:38-53 | computes `CommitOp` of the connection: the level is closed only if the engine closed it |
| Transactions.TursoConnection.Rollback | crates/sqlx-turso-core/src/transaction.rs:55-70 | computes `RollbackOp` of the connection |
| Transactions.TursoConnection.StartRollback | crates/sqlx-turso-core/src/transaction.rs:72-74 | computes `DropOp` of the connection without touching the engine |
| Savepoints.InnermostLevel | crates/sqlx-turso-core/src/transaction.rs:63-69 | the innermost level is found under leftovers and duplicate names, and below it lie the outer levels |
| Savepoints.NoLeftoverShadows | crates/sqlx-turso-core/src/transaction.rs:63-69 | for every live level the newest savepoint of its name holds that level's snapshot |
| Savepoints.BeginPushes | crates/sqlx-turso-core/src/transaction.rs:29-34 | the SQL of a begin adds one level that remembers the current database |
| Savepoints.CommitPops | crates/sqlx-turso-core/src/transaction.rs:46-51 | the SQL of a commit closes the innermost level and keeps the database |
| Savepoints.RollbackRestores | crates/sqlx-turso-core/src/transaction.rs:63-68 | the SQL of a rollback closes the innermost level and restores exactly its snapshot |
| Runs.DrainKeeps | crates/sqlx-turso-core/src/connection.rs:101-119 | under every fault, aborts included, a drain keeps what the client sees and the depth and empties the queue, or poisons the connection with the outermost snapshot on record; without faults it succeeds |
| Runs.PopKeeps | crates/sqlx-turso-core/src/connection.rs:106-107 | rolling back the first queued depth closes the innermost of depth + k open levels |
| Runs.StepKeeps | crates/sqlx-turso-core/src/transaction.rs:22-74 | under every fault, aborts included, each operation does what the plain stack does, or is refused and leaves the plain stack as it was, poisons the connection with the outermost snapshot on record, or has lost every level to an abort; a drop is never refused |
| Runs.RefinedViews | crates/sqlx-turso-core/src/connection.rs:28-71 | what the next use sees is the plain stack's database, and what is on record is its outermost snapshot |
| Runs.RunsRefinePlainStack | crates/sqlx-turso-core/src/connection.rs:50-119 | over every run the outcomes are the plain stack's, up to as many refusals without effect as the engine makes, the last of which may have poisoned the connection; unless poisoned, the next use sees the plain stack's database, and poisoned or not, what is on record is the plain stack's outermost snapshot |
| Runs.ObservedIsReturned | crates/sqlx-turso-core/src/executor.rs:22-57 | what a client is taken to observe of a query is what the call returns: it ran well iff no error comes back, and a refusal is the error |
| Runs.FaultFreeRunsArePlain | crates/sqlx-turso-core/src/transaction.rs:22-74 | without refusals every outcome of every run is exactly the plain stack's |
| Runs.DeferredEqualsEager | crates/sqlx-turso-core/src/connection.rs:50-57 | from any connection and under every fault, aborts included: over every run each operation gives the outcome it would give had every drop been rolled back on the spot, or both are refused, and the two connections settle on the same engine, depth and poison |
| Runs.FaultFreeDeferredEqualsEager | crates/sqlx-turso-core/src/connection.rs:50-57 | without faults all the outcomes are equal |
| Runs.DropSettles | crates/sqlx-turso-core/src/connection.rs:50-57 | a drop that is drained later ends where it would have ended if the queue had been drained first |
| Runs.FreshRefines | crates/sqlx-turso-core/src/connection.rs:74-83 | a new connection refines the empty plain stack |
| Runs.PoisonIsAbsorbing | crates/sqlx-turso-core/src/connection.rs:102-104 | a poisoned connection sends no further statement and refuses every begin, commit, rollback and query |
| Reports.DrainReports | crates/sqlx-turso-core/src/connection.rs:101-119 | a drain performs all its rollbacks if each is answered well, or is an outermost one on an idle engine; otherwise it stops at the first that is not, poisons the connection and reports exactly the engine's error for it |
| Reports.DrainFailsExactly | crates/sqlx-turso-core/src/connection.rs:106-115 | a drain fails iff one of its rollbacks is answered otherwise |
| Reports.OperationReports | crates/sqlx-turso-core/src/transaction.rs:22-70 | after a drain, each operation sends at most the one statement of its depth and reports the engine's error for it; only a nested custom begin is refused without asking the engine |
| Reports.PoisonIsReportedOnce | crates/sqlx-turso-core/src/transaction.rs:398-432 | over every run under every fault, the operation that poisons the connection reports the engine's error for the first rollback that failed, and exactly the later ones report a crashed worker |
| Aborts.DrainIsOrderly | crates/sqlx-turso-core/src/connection.rs:101-119 | under any fault a drain succeeds exactly when the connection stays unpoisoned, with an empty queue and the same depth |
| Aborts.StepIsOrderly | crates/sqlx-turso-core/src/connection.rs:28-71 | under any fault each operation keeps the queue the run depth + k, ..., depth + 1, and a fully closed connection idle |
| Aborts.RunsAreOrderly | crates/sqlx-turso-core/src/connection.rs:28-119 | the same over every run; once all levels are closed the next use ends idle with an empty queue, or poisons |
| Aborts.FreshIsOrderly | crates/sqlx-turso-core/src/connection.rs:74-83 | a new connection has that shape |
| Aborts.LaterBeginsStayOrphaned | crates/sqlx-turso-core/src/transaction.rs:29-34 | after an abort at depth a, begins and queries leave exactly the savepoints a, a + 1, ... in the engine |
| Aborts.OrphanedDrain | crates/sqlx-turso-core/src/connection.rs:106-115 | after an abort at depth a a drain succeeds while the lost levels are open, and once a handle of one has been dropped it succeeds iff a is 1 |
| Aborts.InnermostOrphan | crates/sqlx-turso-core/src/transaction.rs:38-70 | above an abort the innermost level is still found under leftovers and duplicates |
| Aborts.AftermathStep | crates/sqlx-turso-core/src/transaction.rs:22-74 | without further faults every operation after an abort at depth a keeps the orphaned shape, until dropping a lost handle poisons the connection if a > 1 and restores a plain stack if a is 1 |
| Aborts.AbortRecovery | crates/sqlx-turso-core/src/connection.rs:106-115 | from an idle engine with a lost levels, after any fault-free operations and dropping every handle, the next use succeeds iff a <= 1, and otherwise finds or leaves the connection poisoned |
| Aborts.AbortLosesEveryLevel | crates/sqlx-turso-core/src/transaction.rs:350-396 | an abort in any statement, after any drained drops, is reported, keeps the depth, and leaves the engine idle on the database at BEGIN |
| Aborts.AbortThenDropAll | crates/sqlx-turso-core/src/transaction.rs:398-432 | a run with one abort, at any depth, after any drops and before any other operations, recovers when all handles are dropped iff at most one level was open |
| Aborts.OrphanCommit | crates/sqlx-turso-core/src/transaction.rs:38-53 | after any operations above an abort at depth a, a nested commit succeeds, and is final iff it closes level a + 1 and no earlier level of that depth has been rolled back in the same engine transaction |
| Aborts.OrphanCommitIsFinal | crates/sqlx-turso-core/src/transaction.rs:38-53 | after an abort at depth a and any begins and queries, a commit of a nested level is final iff it closes level a + 1; dropping the outer handles does not undo it, and a commit that is not final leaves what is on record as it was |
| SqlText.ModesCompose | crates/sqlx-turso-core/src/executor.rs:278-317 | reading text in two stretches is reading it in one |
| SqlText.RulesPartOnEscapes | crates/sqlx-turso-core/src/executor.rs:351-360 | closing and reopening on a doubled delimiter differs from escaping it only on the delimiter's second half |
| SqlText.KindsAgree | crates/sqlx-turso-core/src/executor.rs:351-360 | both readings classify every character alike |
| Regions.BracketRegion | crates/sqlx-turso-core/src/executor.rs:288-291 | a bracket quotes everything up to the first closing bracket, or to the end, and code resumes after it |
| Regions.QuoteRegion | crates/sqlx-turso-core/src/executor.rs:280-287 | a quote, double quote or backtick quotes everything up to the first such character that is not doubled |
| Regions.LineCommentRegion | crates/sqlx-turso-core/src/executor.rs:362-371 | two dashes start a comment that ends with the first newline |
| Regions.BlockCommentRegion | crates/sqlx-turso-core/src/executor.rs:373-384 | a slash and a star start a comment that ends with the first star and slash that does not use the opener's star |
| Regions.OtherwisePlain | crates/sqlx-turso-core/src/executor.rs:278-317 | every other character in code is plain, and code goes on after it |
| Regions.NameIsLongestRun | crates/sqlx-turso-core/src/executor.rs:322-338 | a placeholder name is the longest run of ASCII letters, digits and underscores |
| Regions.UnbindablePlaceholders | crates/sqlx-turso-core/src/executor.rs:298-312 | what cannot be bound: a colon or an at sign with a name, and a dollar sign without a number below 2^64 |
| SqlInspection.SkipSingleQuoted | crates/sqlx-turso-core/src/executor.rs:340-349 | stops where the automaton first leaves a single-quoted region, doubled quotes passed over |
| SqlInspection.SkipQuoted | crates/sqlx-turso-core/src/executor.rs:351-360 | stops where the automaton first leaves a region closed by the given delimiter |
| SqlInspection.SkipLineComment | crates/sqlx-turso-core/src/executor.rs:362-371 | stops where the automaton first leaves a line comment |
| SqlInspection.SkipBlockComment | crates/sqlx-turso-core/src/executor.rs:373-384 | stops where the automaton first leaves a block comment |
| SqlInspection.ReadPlaceholderName | crates/sqlx-turso-core/src/executor.rs:322-338 | reads exactly the longest run of name characters |
| SqlInspection.HasRemainingStatementText | crates/sqlx-turso-core/src/executor.rs:393-409 | true iff some later character is outside comments, not blank and not a semicolon |
| SqlInspection.LookaheadDecides | crates/sqlx-turso-core/src/executor.rs:294-297 | a semicolon splits the text iff text was seen before it and the lookahead finds some after it |
| SqlInspection.InspectSql | crates/sqlx-turso-core/src/executor.rs:273-320 | the scan returns the inspection that SQL's lexical rules define: split or not, and the last unsupported placeholder before the split |
| SqlInspection.InspectionsAgree | crates/sqlx-turso-core/src/executor.rs:284-291 | closing and reopening doubled quotes gives the same inspection as escaping them, on every text |
| InspectionLaws.InspectionIsUnique | crates/sqlx-turso-core/src/executor.rs:267-271 | a text has one inspection |
| InspectionLaws.FlagMeansSplit | crates/sqlx-turso-core/src/executor.rs:294-297 | the flag is set iff some semicolon splits the text |
| InspectionLaws.FlagMeansTwoParts | crates/sqlx-turso-core/src/executor.rs:294-297 | the same by characters: a semicolon outside quotes and comments, something visible outside comments before it, and something visible that is no semicolon after it |
| InspectionLaws.ReportedPlaceholderIsLast | crates/sqlx-turso-core/src/executor.rs:298-312 | the placeholder reported is the last one that cannot be bound before the first split |
| InspectionLaws.TwoStatementsAreFlagged | crates/sqlx-turso-core/src/executor.rs:294-297 | a statement after anything visible and a semicolon is always flagged |
| InspectionLaws.EmptyStatementIsFlagged | crates/sqlx-turso-core/src/executor.rs:294-297 | the flag is a may: two semicolons followed by content are flagged, although the text may hold one statement only |
| InspectionLaws.InteriorIsIrrelevant | crates/sqlx-turso-core/src/executor.rs:280-293 | changing any characters inside quotes and comments, single stars and slashes included, never changes the inspection as long as the same delimiters remain |
| Executor.RoutingIsExact | crates/sqlx-turso-core/src/executor.rs:30-46 | a query with arguments is let through iff it is one statement with no unsupported placeholder anywhere; one without arguments always is, as a batch iff it splits |
| Executor.RefusalIsReported | crates/sqlx-turso-core/src/executor.rs:32-46 | a refusal names the batch iff the text splits, and otherwise the last placeholder that cannot be bound |
| Executor.FetchManySql | crates/sqlx-turso-core/src/executor.rs:22-57 | a query that is let through drains and runs once; a refused one only drains |
| FetchStream.Next | crates/sqlx-turso-core/src/executor.rs:131-189 | yields the next item of the stream; never steps a finished cursor; has run the cursor to completion when the last row is handed out |
| FetchStream.Collect | crates/sqlx-turso-core/src/executor.rs:59-69 | a consumer sees exactly the items that the cursor's rows determine |
| FetchStream.FetchOptional | crates/sqlx-turso-core/src/executor.rs:212-232 | returns the first row, none, or the first error: of the cursor, of the row's values, or of the lookahead after a single row |
| FetchStream.EveryRowOnce | crates/sqlx-turso-core/src/executor.rs:160-188 | from an error-free cursor come all rows in order and then one query result |
| FetchStream.FailureSwallowsLastRow | crates/sqlx-turso-core/src/executor.rs:168-168 | when a cursor fails after its last row, that row is lost and the earlier ones are not |
| FetchStream.UndecodableRowEnds | crates/sqlx-turso-core/src/executor.rs:160-166 | a row whose values cannot be read ends the stream with its error, after every row before it |
| Identifiers.ParseBarePrefix | crates/sqlx-turso-core/src/migrate.rs:331-355 | takes the longest bare identifier, or fails naming the whole text |
| Identifiers.ParseQuotedPrefix | crates/sqlx-turso-core/src/migrate.rs:357-385 | the loop reads what the recursive reading of a quoted name gives, and fails on an empty or unclosed one |
| Identifiers.ParseIdentifier | crates/sqlx-turso-core/src/migrate.rs:314-321 | succeeds iff the text spells a name, quoted or bare, and returns that name |
| Identifiers.ParsePath | crates/sqlx-turso-core/src/migrate.rs:402-421 | the loop reads what `ReadPath` gives, and fails naming the whole text |
| Identifiers.PrintPath | crates/sqlx-turso-core/src/migrate.rs:424-437 | the printing loop produces the dotted quoted path |
| Identifiers.PrefixIsExact | crates/sqlx-turso-core/src/migrate.rs:323-329 | each text spells at most one name and rest, and the parser finds it iff there is one |
| Identifiers.PathIsExact | crates/sqlx-turso-core/src/migrate.rs:402-421 | the path parser accepts exactly the spellings of paths of one or two names and returns the path spelt |
| Identifiers.ParseUndoesDisplay | crates/sqlx-turso-core/src/migrate.rs:392-437 | parsing a printed path of one or two non-empty names gives the path back |
| Identifiers.DisplayIsCanonical | crates/sqlx-turso-core/src/migrate.rs:402-437 | for every accepted text, printing and parsing again changes nothing |
| Identifiers.DisplayIsInjective | crates/sqlx-turso-core/src/migrate.rs:424-437 | different paths print differently |
| Identifiers.BareNames | crates/sqlx-turso-core/src/migrate.rs:331-355 | an unquoted text without a dot is accepted iff it is ASCII letters, digits and underscores with no digit first, and then it is its own name |
| MigrationSql.NameRun | crates/sqlx-turso-core/src/migrate.rs:392-396 | a printed name is one quoted region of the text around it, whatever it holds |
| MigrationSql.SchemaVersionIsBindable | crates/sqlx-turso-core/src/migrate.rs:62-64 | with any name, one statement and no unsupported placeholder |
| MigrationSql.CreateTableIsBindable | crates/sqlx-turso-core/src/migrate.rs:84-95 | the same for the table's creation, closing semicolon included |
| MigrationSql.DirtyVersionIsBindable | crates/sqlx-turso-core/src/migrate.rs:108-110 | the same for the dirty version query |
| MigrationSql.ListAppliedIsBindable | crates/sqlx-turso-core/src/migrate.rs:124-126 | the same for the list of applied migrations |
| MigrationSql.UpdateTimeIsBindable | crates/sqlx-turso-core/src/migrate.rs:177-183 | the same for the execution time update |
| MigrationSql.SkipIsBindable | crates/sqlx-turso-core/src/migrate.rs:221-226 | the same for the row of a skipped migration |
| MigrationSql.InsertRowIsBindable | crates/sqlx-turso-core/src/migrate.rs:271-276 | the same for the row of an applied or dirty migration |
| MigrationSql.DeleteRowIsBindable | crates/sqlx-turso-core/src/migrate.rs:297-302 | the same for the removal of a row |
| Migrations.Apply | crates/sqlx-turso-core/src/migrate.rs:148-191 | an unreadable table name is refused without touching the connection; otherwise computes `ApplyOp`, and no command is ever refused for its text |
| Migrations.Revert | crates/sqlx-turso-core/src/migrate.rs:193-212 | the same for `RevertOp` |
| MigrationLaws.ApplyIsAtomic | crates/sqlx-turso-core/src/migrate.rs:148-191 | at any outer depth and whatever the engine refuses or aborts: a failed script or record with its dirty row inserted leaves the pre-state plus that row, an applied one the script's effects and its row, anything else no change or, if only the time is missing, the row without it; the outer levels are kept unless aborted |
| MigrationLaws.ApplyDoesWhatItReports | crates/sqlx-turso-core/src/migrate.rs:148-191 | from any connection whatsoever and under every fault: an apply that reports success leaves what its script left and exactly the row of its version, description, success, checksum and time; one that reports a recorded dirty row leaves what the next use would have seen and exactly that row, unsuccessful and without a time |
| MigrationLaws.ApplyWithoutTransaction | crates/sqlx-turso-core/src/migrate.rs:158-172 | without a transaction a failing script keeps what it did and the dirty row is recorded beside it; a good one is recorded as usual |
| MigrationLaws.ApplyReportsEngine | crates/sqlx-turso-core/src/migrate.rs:148-191 | a transactional apply reports engine errors only, even when it poisons the connection, and on a poisoned one tries nothing; without a transaction a poisoning drain is reported as a crash |
| MigrationLaws.RevertDoesWhatItReports | crates/sqlx-turso-core/src/migrate.rs:193-212 | a revert that reports success ran its script on what the next use would have seen and removed exactly its version's row |
| MigrationLaws.BodyRuns | crates/sqlx-turso-core/src/migrate.rs:250-263 | wherever the script or the command after it fails or is aborted, dropping the transaction leads back to the database at its begin, at once or by poisoning what an abort left |
| MigrationLaws.CommitRuns | crates/sqlx-turso-core/src/migrate.rs:162-164 | a failed or aborted commit, followed by the drop of its handle, leads back to the database at the begin |
| MigrationLaws.RevertIsAtomic | crates/sqlx-turso-core/src/migrate.rs:193-212 | whatever the engine refuses or aborts, a revert that succeeds ran its script and removed the row; one that fails changed nothing |
| MigrationLaws.TruthfulStep | crates/sqlx-turso-core/src/migrate.rs:148-212 | at any depth and under every fault, one apply of a version not recorded as successful, or one revert, keeps the table truthful |
| MigrationLaws.MigrationsStayTruthful | crates/sqlx-turso-core/src/migrate.rs:148-308 | over every run of applies and reverts, at any depth, with refusals and aborts anywhere, the versions recorded as successful are exactly those whose script is in effect: in what is on record, poisoned or not, and in what the next use sees |
| MigrationLaws.NewConnectionsStayTruthful | crates/sqlx-turso-core/src/migrate.rs:148-308 | in particular every run from a new connection on a truthful table leaves a truthful record |
| MigrationLaws.MigrationsKeepOuterLevels | crates/sqlx-turso-core/src/migrate.rs:148-308 | over every such run the outer levels keep their snapshots unless the engine aborts them; with no outer level the run may meet every fault |
| Options.ApplyQueryParams | crates/sqlx-turso-core/src/options.rs:587-719 | the loop over the pairs computes `Read`, stopping at the first error |
| OptionLaws.PairIsAcceptable | crates/sqlx-turso-core/src/options.rs:600-694 | a pair is accepted iff its key is known and its value is one of those listed for the key, whatever was read before; otherwise its key determines the error |
| OptionLaws.FirstBadPairIsReported | crates/sqlx-turso-core/src/options.rs:600-694 | the first pair that is not accepted ends the reading with its own error |
| OptionLaws.PairChanges | crates/sqlx-turso-core/src/options.rs:600-693 | what each accepted key and value changes, and that it changes nothing else |
| OptionLaws.PairsMean | crates/sqlx-turso-core/src/options.rs:600-694 | in a whole list each field is decided by the last pair that speaks of it: a memory mode also resets the cache, a remote URL resets the other sync settings, features add up |
| OptionLaws.ReadMeans | crates/sqlx-turso-core/src/options.rs:587-719 | a reading succeeds iff every pair is accepted, cipher and key come together and are valid, and sync settings have a remote URL; what it gives then, and which error otherwise |
| OptionLaws.FeatureSpellings | crates/sqlx-turso-core/src/options.rs:1004-1018 | each feature is read from its one spelling, materialized views from two |
| OptionLaws.MvccIsSpelt | crates/sqlx-turso-core/src/options.rs:990-992 | mvcc is recognised in any case and between any quotes |
| OptionLaws.MvccIsOnlySpeltSo | crates/sqlx-turso-core/src/options.rs:990-992 | nothing else is read as mvcc |
| OptionLaws.JoinUndoesSplit | crates/sqlx-turso-core/src/options.rs:657-657 | every feature list is the comma-separated list of the names it is split into |
| OptionLaws.TimeoutSpellings | crates/sqlx-turso-core/src/options.rs:674-680 | a timeout is a numeral below 2^64 with or without a plus sign |
| OptionLaws.OtherTimeouts | crates/sqlx-turso-core/src/options.rs:674-680 | nothing else is a timeout |
| Options.BuildersAreRead | crates/sqlx-turso-core/src/options.rs:329-371 | what the getters give after each builder; leaving memory gives a private file called `:memory:` |
| Options.SplitUndoesJoin | crates/sqlx-turso-core/src/options.rs:657-657 | splitting at commas undoes joining names without commas |
| Options.FeaturesRoundTrip | crates/sqlx-turso-core/src/options.rs:931-952 | every set of experimental features is read back from its printed list |
| Options.SyncReads | crates/sqlx-turso-core/src/options.rs:754-779 | printed sync settings are read back with the timeout rounded to the millisecond, and rejected when it exceeds u64 |
| Options.QueryRoundTrip | crates/sqlx-turso-core/src/options.rs:587-785 | printing file options and reading them into fresh ones restores every field of the URL iff any sync settings have a remote URL and a timeout of whole u64 milliseconds |
| Options.MemoryRoundTrip | crates/sqlx-turso-core/src/options.rs:587-785 | reading the printed pairs of in-memory options restores every other field, but the database is a new one |
| Options.PragmaKeepsOrder | crates/sqlx-turso-core/src/options.rs:461-474 | setting a pragma changes its value only and keeps the order; a new name goes last |
| Options.MvccReads | crates/sqlx-turso-core/src/options.rs:452-459 | `get_mvcc` reads back what `mvcc` set |
| MemoryDatabases.NamesTell | crates/sqlx-turso-core/src/options.rs:955-960 | two generated names are equal iff their counters agree modulo 2^64 |
| MemoryDatabases.PairKeepsIdentity | crates/sqlx-turso-core/src/options.rs:600-693 | no query pair separates an in-memory name from its state |
| MemoryDatabases.NamesIdentifyStates | crates/sqlx-turso-core/src/options.rs:329-354 | over every chain of new options, clones, builders and parsed URLs, failed ones included, two in-memory options have one name iff they share a state, until the 64-bit counter wraps; beyond that, iff their states lie a multiple of 2^64 apart |
| MemoryDatabases.ParseKeepsPairs | crates/sqlx-turso-core/src/options.rs:566-585 | parsing a database and its parameters, whether it fails or not, keeps names and states together |
| MemoryDatabases.FailedReadingKeepsCounting | crates/sqlx-turso-core/src/options.rs:600-616 | a reading that fails has used up a name and a state for every memory mode before the failing pair |
| MemoryDatabases.ParsedUrl | crates/sqlx-turso-core/src/options.rs:566-585 | options are in memory iff the database or any mode says so; what file, cache and access they get otherwise |
| MemoryDatabases.TakeKeepsGuard | crates/sqlx-turso-core/src/driver.rs:154-168 | every step keeps the slot's lock discipline, the lock being held exactly during a build, and a filled slot is never refilled |
| MemoryDatabases.SharedConnectsMeet | crates/sqlx-turso-core/src/driver.rs:154-168 | under every interleaving two successful connects get one database iff they are the same or both asked for the shared cache |
| MemoryDatabases.SameNameMeets | crates/sqlx-turso-core/src/driver.rs:154-168 | options of one in-memory name, however derived, meet in one database iff both still have the shared cache |
| MemoryDatabases.FailedBuildReleases | crates/sqlx-turso-core/src/driver.rs:159-167 | a failed build gives the lock back and changes nothing else |
| MemoryDatabases.WaitingConnects | crates/sqlx-turso-core/src/driver.rs:154-168 | from every state a waiting connect can still succeed, even if the build it waits for fails |
| Workspace.UniqueSibling | crates/sqlx-turso-cli/src/main.rs:233-250 | returns the first unused candidate, after at most as many tries as there are entries, plus one |
| Workspace.CandidateCount | crates/sqlx-turso-cli/src/main.rs:243-243 | candidates of different attempts are distinct |
| Workspace.Create | crates/sqlx-turso-cli/src/main.rs:151-179 | success adds one empty staging directory under an unused name and reserves the first unused backup name; failure adds nothing |
| Workspace.Commit | crates/sqlx-turso-cli/src/main.rs:185-210 | at every moment and whatever fails the old tree is in place, or set aside with nothing in place, or the new one is in place; success is the last with no backup, and needs nothing but a working environment; if at most one operation fails, one of the two trees is in place at the end |
| Workspace.PutInPlace | crates/sqlx-turso-cli/src/main.rs:195-209 | the same from the rename of the staged tree on, and exactly: in place if that rename works, put back if it fails and the restoring rename works, at the backup if both fail |
| Workspace.PhasesAreSafe | crates/sqlx-turso-cli/src/main.rs:185-210 | in each of these phases the complete old tree is in place or at the workspace's backup, or the new one is in place |
| Workspace.Cleanup | crates/sqlx-turso-cli/src/main.rs:212-214 | removes the staging directory if the environment lets it, and nothing else |
| Workspace.RunWithProgram | crates/sqlx-turso-cli/src/main.rs:77-98 | over a whole run nothing is lost at any moment: the old tree is in place or at one backup name that was unused before the run, or the new one is in place; if at most one operation fails, one of them is in place at the end; success is exactly the new tree in place; an unsuccessful check leaves the old one, a check that did not start the staging directory too |

## Left out

- The engine, the async runtime and network sync: the engine is the savepoint and snapshot model above, and cancellation inside an awaited call is not modelled.
- `prepare_with`, `describe` and the sync calls: they do not drain the queue and so are not observers of deferred rollback.
- User SQL that itself begins, commits or rolls back: it breaks the bookkeeping by design; only aborts are modelled.
- `no_tx` reverts: `Migrations.Revert` models them, but the laws are about transactional ones and `no_tx` applies.
- What a batch returns besides its effect (one default query result, no rows) and the pairing of a prepared query with its stream.
- `skip`, `ensure_migrations_table` and the listing queries: only their texts are modelled.
- `Options` builders are functions on values: the copy-on-write sharing behind the handles is not modelled, only what it shows.
- Busy timeout, statement cache capacity and log settings: plain fields that the query pairs do not represent.
- `memory_database` is modelled on values, as the steps that its lock orders; the lock's fairness is not.
- `build_url` and `from_str` outside the query pairs: URL authority, path and percent encoding belong to libraries.
- Pragma names are compared exactly, as `pragma` does; `validate_pragmas` and the order of their execution are not modelled.
- `validate_offline_dir` and paths without a file name: only path syntax.
- Runs.RunsRefinePlainStack: excludes aborts, which break the plain stack by design; `Aborts` says what then holds.
- MigrationLaws.MigrationsKeepOuterLevels: excludes aborts under an outer transaction, because an abort takes the outer levels with it; `MigrationsStayTruthful` has no such limit.
- Error messages: an error is its kind and the text or value it names.
- Workspace.Cleanup: promises removal only when the environment permits it, because the original ignores failures.
- Value codecs, row and column lookup, the statement cache, `Any` support and the macros: library formats or single lookups.
