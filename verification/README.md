# Entity Kit, verified

Models in Dafny of the parts of Entity Kit where several steps, several parties or several functions have to
agree: transactions over savepoints, the bookshop's checkout and delivery protocol, the SQLite DDL scanner and
parser, the command-line parser, the wire reader, and the owners of pooled and streamed connections.  Code that
changes state step by step is a class or a method with loops, proved equal to a function; the promises are
lemmas about that function, for every input, every script of driver replies and every interleaving.

`dafny verify dfyconfig.toml` checks everything.

## How the parts are modelled

- **Transactions** (`Savepoints`, `NestedTransactions`, `FailureRecord`, `SavedRows`, `CleanRuns`,
  `RefusedStatements`, `RaisedErrors`, `TransactionRuns`, `TransactionRunner`, `CommitOutcome`,
  `PooledConnection`).  A callback is a tree of statements and nested calls, each with one way on after
  success and one after its error was caught; it may throw an error of its own or any error object caught
  before.  The server is a stack of savepoints resolved by name: SQLite and Postgres shadow an older savepoint
  of the same name, MySQL replaces it; Postgres refuses everything but a rollback once it has refused a
  command; on MySQL a failed statement may end the transaction, and each later one is durable at once.  A
  command is accepted, refused by the server, lost on the way there, or executed although the driver reports
  an error; which, is an arbitrary script.
- **Bookshop** (`BookshopTables`, `BookshopRuns`, `BookshopStore`, `BookshopAnswers`, `BookshopProgress`).  Any number
  of clients, publishers and receivers move between awaits over shared tables, may crash between any two moves,
  and commit atomically under optimistic versions and unique keys.  The check constraint on stock is not used.
- **Text** (`SqliteDdlText`, `SqliteDdlScanner`, `SqliteDdlParser`, `SqliteDdlMatches`, `SqliteStatement`,
  `WireReader`, `CliParser`, `CliRoundTrip`, `CliMisuse`, `CliSuggestions`).  Strings are
  sequences of characters, wire data sequences of bytes; regular expressions are small readers.
- **Resources** (`PostgresStream`, `SqlitePool`, `Restoration`).  Everything between two awaits is one step; when
  the abort signal fires, when an operation fails and when the consumer leaves are scripts.
- **Algorithms** (`Scheduling`, `MutationShards`, `AuditPolicy`, `AuditErrors`, `MigrationStatus`).

## Where the code does not keep a promise

Each has a lemma that shows it, and the exact condition under which the code does keep the promise.

- A callback that catches the cleanup error of a nested call and throws the same error object from a later one
  makes the root forget it: the rollback of the later call counts as the recovery from the earlier failure, and
  the root commits what the failed call wrote (`TransactionRuns.RethrownFailureCommits`, on all three engines).
  A failure is missing from the record, at some moment, exactly when a call throws an error that was on record,
  with its damage standing, before that call began (`FailureRecord.MisjudgedExactly`); callbacks that throw again
  only errors caught since their own call began never do that (`SavedRows.OwnErrorsCommitSurvivors`).
- An enclosing call that is rolled back with all the damage inside, but throws another error than the one on
  record, leaves the record standing: the root is refused although its work returned and the server has exactly
  the surviving rows (`TransactionRuns.RecoveredRootRefused`, on all three engines).  A failure is on record with
  no damage standing, at some moment, exactly when that happened (`FailureRecord.StaleExactly`); without either of
  the two, the record at the end says whether damage stands (`FailureRecord.RecordTells`).
- On Postgres a callback that catches the error of a refused statement and goes on may cost the root its commit
  though every cleanup command works: if the root callback then returns, or if a nested call is tried in the
  aborted transaction and its error is not passed on (`RefusedStatements.CaughtRefusalCostsCommit`).
  `CleanRuns.Hurts` reads off the tree whether that is within reach; for callbacks that throw again only what they
  caught themselves, the root commits as its work ends, whatever statements fail, exactly when it is not
  (`RefusedStatements.CommitsAsWorkEndsExactly`).
- A root call may return with nothing committed, as the reply to `commit` is not read: on Postgres exactly when its
  own callback had a refused statement, on MySQL exactly when a statement ended the transaction
  (`SavedRows.ReturnedCommitsExactly`).
- On MySQL, what callbacks write after a statement that ended the transaction stays although the root raises
  (`TransactionRuns.EndedStatementsStay`); a root call without a commit leaves exactly those rows, so it changes
  nothing exactly when there are none (`SavedRows.UncommittedLeavesExactly`).
- A SQLite root call whose pragma cannot be set back rejects after its commit.  A call that raises has committed
  exactly in that case or when the reply to the commit was lost (`SavedRows.CommittedRaisesExactly`).
- A Postgres stream in a session, outside a transaction, destroys the session's client when it is canceled; the
  session then releases it a second time and rejects although its work returned
  (`PooledConnection.CutStreamEndsSession`, exactly when: `PooledConnection.SessionEndsExactly`,
  `PostgresStream.BorrowedReleasedOnAbort`).
- A session that swallows the unsafe failure of a transaction gives its connection back to the pool intact
  (`PooledConnection.SwallowedFailureGoesBack`, exactly when: `PooledConnection.SessionEndsExactly`).
- A lease of a reused SQLite handle that is disposed while an operation is in flight may put a handle back whose
  operation fails (`SqlitePool.DisposedTooEarly`); a kept handle stays clean exactly when all operations in flight
  had succeeded (`SqlitePool.KeptHandleStaysCleanExactly`).  This takes the bare source: the exported data source
  refuses to dispose a lease with an operation in progress
  (packages/core/src/storage/data-source-connection-lease.ts:58-66).
- An audited node that is installed without a version passes under a review that does not list it
  (`AuditPolicy.UnversionedNodePasses`); a clean audit lists every node exactly when every one has a version
  (`AuditPolicy.CleanListsExactly`).
- A column with an unquoted name such as `primary$id`, which continues a constraint word with a dollar sign, is
  taken for a table constraint and lost (`SqliteDdlParser.DollarNameLost`; exactly which: `BareColumnExactly`).
- A value written apart from its command option is taken out by the first pass if it is a spelling such as `-h`
  (`CliRoundTrip.SeparateValueExactly`).

The transaction theorems take one kind of reply to be impossible on SQLite, which runs in the same process: a
release that took effect and reported an error.  `TransactionRuns.LostReleaseLosesRows` shows that the
hypothesis is needed: the rollback would find the savepoint of an earlier sibling.

## Model

| member | source | states |
|---|---|---|
| SavedRows.CommitsOnlySurvivors | packages/sqlite/src/sqlite-transaction-runner.ts:32-145 | for every tree, engine and script of replies, a root that commits makes durable exactly the writes of the scopes that returned, unless a nested call threw an error on record, with its damage standing, from before that call |
| SavedRows.UncommittedLeavesExactly | packages/mysql/src/mysql-transaction.ts:40-63 | for every tree, engine and script, a root without a commit leaves exactly the rows written after its transaction was ended by the server, so none on SQLite and Postgres |
| SavedRows.OwnErrorsCommitSurvivors | packages/core/src/storage/enclosing-transaction-state.ts:10-67 | when nested callbacks throw only errors of their own or caught since their call began, exactly the surviving writes are committed, whatever the driver replies |
| FailureRecord.MisjudgedExactly | packages/core/src/storage/enclosing-transaction-state.ts:19-39 | a failure is missing from the record while damage stands, at some moment, exactly when a nested call throws an error recorded before it began |
| FailureRecord.StaleExactly | packages/core/src/storage/enclosing-transaction-state.ts:23-28 | a failure is on record while no damage stands, at some moment, exactly when a call that undid all the damage threw another error than the one on record |
| FailureRecord.RecordTells | packages/core/src/storage/enclosing-transaction-state.ts:55-58 | unless one of the two happened, a failure is on record at the end exactly when damage stands |
| FailureRecord.FlagIsFold | packages/core/src/storage/enclosing-transaction-state.ts:19-39 | between calls nothing is remembered as recovered, and the failure on record is a fold over how the nested calls ended |
| FailureRecord.WorkOwn | packages/core/src/storage/enclosing-transaction-state.ts:23-28 | callbacks that throw only their own errors, or errors caught since their call began, never throw one recorded before it, at any depth and under any replies |
| TransactionRuns.RethrownFailureCommits | packages/core/src/storage/enclosing-transaction-state.ts:23-28 | on every engine, a run that commits the row of a call that failed, because a later call throws the swallowed cleanup error again |
| TransactionRuns.RecoveredRootRefused | packages/core/src/storage/enclosing-transaction-state.ts:23-28 | on every engine, a run whose root is refused although an enclosing rollback undid everything, because the enclosing call threw its own error |
| TransactionRuns.EndedStatementsStay | packages/mysql/src/mysql-transaction.ts:40-63 | on MySQL, a run that raises and still leaves the row written after a deadlock |
| SavedRows.ReturnedCommitsExactly | packages/postgres/src/postgres-transaction.ts:30-39 | a root call that returns has committed, except on Postgres after a refused statement of its own callback and on MySQL after a statement that ended the transaction |
| SavedRows.TopAborts | packages/postgres/src/postgres-transaction.ts:79-130 | on Postgres, with no failure on record at the end, the root's transaction is aborted exactly when the root callback had a refused statement |
| SavedRows.CommittedRaisesExactly | packages/sqlite/src/sqlite-transaction-runner.ts:58-96 | a committed root call raises exactly when the reply to the commit was lost or a SQLite setting could not be set back |
| RaisedErrors.OpenedRaisesExactly | packages/sqlite/src/sqlite-transaction-runner.ts:52-76 | for every engine, plan, tree and script, an opened root returns exactly if there is no failure on record, its work returned, nothing was canceled and the commit was acknowledged; else it raises, in this order, the failure on record, what the work threw, the cancellation or the commit's failure, plain exactly if the rollback was accepted and wrapped by its cleanup error otherwise |
| RaisedErrors.UnopenedRaises | packages/sqlite/src/sqlite-transaction-runner.ts:44-53 | a root that is canceled at once, or whose setting or begin fails, runs nothing, rolls nothing back and changes nothing |
| RaisedErrors.ResetRaises | packages/sqlite/src/sqlite-transaction-runner.ts:80-96 | a setting that cannot be set back changes nothing but the error raised |
| RaisedErrors.NestedRaisesExactly | packages/postgres/src/postgres-transaction.ts:79-130 | what a nested call raises, on every engine: a cancellation, the failure of its savepoint, or the error that ended it, plain exactly after a confirmed rollback and wrapped with the failed command otherwise |
| CleanRuns.CommitsWhenWorkReturns | packages/core/src/storage/enclosing-transaction-state.ts:10-72 | when cleanup commands work, nested failures whose errors are caught never cost the root its commit: it commits exactly when its work returns, and then the surviving writes; on Postgres if no statement is refused or the tree is safe when one is |
| RefusedStatements.CommitsAsWorkEndsExactly | packages/postgres/src/postgres-transaction.ts:79-130 | on Postgres, for callbacks that throw again only what they caught themselves: whatever statements fail, the root commits as its work ends, exactly when no reachable refused statement is caught by a root callback that then returns or before a nested call whose error is not passed on |
| RefusedStatements.FindHarm | packages/postgres/src/postgres-transaction.ts:86-128 | the script of replies, with working cleanup, that hurts a tree within reach of such a statement |
| RefusedStatements.CaughtRefusalCostsCommit | packages/postgres/src/postgres-transaction.ts:86-128 | one such tree: a nested callback catches a refused statement and a nested call after it, and returns |
| CleanRuns.SameOnEveryEngine | packages/postgres/src/postgres-transaction.ts:79-130 | when all commands are accepted, rows and outcome on each of the three servers are those of the tree read alone, in which a failed scope restores its snapshot |
| SavedRows.WorkSound | packages/mysql/src/mysql-transaction.ts:76-118 | after any work under any replies: the server's rows are the surviving ones and all open scopes can still be rolled back, unless a scope was left without a confirmed rollback and none around it was rolled back since |
| SavedRows.NestedSound | packages/sqlite/src/sqlite-transaction-runner.ts:98-145 | the same after one nested call, whatever its savepoint, work, release and rollback did |
| CleanRuns.WorkClean | packages/sqlite/src/sqlite-transaction-runner.ts:98-145 | with working cleanup and a tree that is safe under refusals, work on a name-resolved stack with stale savepoints leaves nothing on record but an error it throws itself, and with all commands accepted runs and ends as the tree read alone says |
| TransactionRuns.LostReleaseLosesRows | packages/sqlite/src/sqlite-transaction-runner.ts:115-145 | why SQLite replies must be faithful: a release that took effect and reported an error would make a committed root lose a row |
| Savepoints.EstablishShape | packages/mysql/src/mysql-transaction.ts:76-92 | a new savepoint, replacing or shadowing stale ones of its name, leaves the savepoint of every open scope findable and adds its own |
| Savepoints.ReleaseShape | packages/postgres/src/postgres-transaction.ts:94-105 | releasing the innermost scope keeps all outer ones findable, and on MySQL and Postgres leaves no savepoint of its name |
| Savepoints.RollbackToShape | packages/sqlite/src/sqlite-transaction-runner.ts:131-144 | rolling back to the innermost scope restores exactly the rows it saved, past any stale savepoint |
| TransactionRunner.Runner.Transaction | packages/sqlite/src/sqlite-transaction-runner.ts:32-97 | the root transaction, command by command, settings and their resets included: after a commit the surviving scopes' rows are durable unless a recorded error was thrown again, without one the rows written after the server ended the transaction; which returned calls have committed; the depth is zero again |
| TransactionRunner.Runner.NestedTransaction | packages/sqlite/src/sqlite-transaction-runner.ts:98-114 | depth numbering, the savepoint run and the observation of its failure, as one change of the state |
| TransactionRunner.Runner.RunSqliteSavepoint | packages/sqlite/src/sqlite-transaction-runner.ts:115-145 | savepoint, work, release; on failure rollback without release; a refused savepoint marks the root unusable |
| TransactionRunner.Runner.RunMysqlSavepoint | packages/mysql/src/mysql-transaction.ts:76-118 | savepoint, work, release; on failure rollback without release, a cancellation after the savepoint included |
| TransactionRunner.Runner.RunPostgresSavepoint | packages/postgres/src/postgres-transaction.ts:79-130 | savepoint, work, release; on failure rollback and then release, either failing with an error that wraps the first |
| PooledConnection.EveryConnectionGoneOnce | packages/mysql/src/mysql-pooled-connection.ts:61-139 | for every nesting of sessions, transactions and streams and every outcome, each connection acquired is released or destroyed exactly once and none is held at the end |
| PooledConnection.CallRestores | packages/postgres/src/postgres-pooled-connection.ts:56-136 | every call leaves the active connection and the depth as it found them |
| PooledConnection.TransactionDestroysUnsafe | packages/core/src/storage/transaction-usability.ts:18-24 | a connection acquired for a root transaction is destroyed exactly when the error raised says so, whoever made that error: an unknown outcome, a failed rollback or a refused begin; else it is released |
| PooledConnection.UnsafeExactly | packages/core/src/storage/transaction-usability.ts:18-24 | that error is raised exactly when the begin is refused, or an opened transaction fails and its rollback is refused, its work threw such an error, or its commit has an unknown outcome |
| PooledConnection.RootRunsExactly | packages/postgres/src/postgres-pooled-connection.ts:56-91 | a root transaction calls its work exactly if it is opened, which it is not on a client that is gone, and not canceled then; the failure on record replaces what the work ended with |
| PooledConnection.RootRemembers | packages/core/src/storage/transaction-usability.ts:10-24 | a root transaction leaves the connection refusing everything exactly if the error it raised is or wraps an unknown outcome, and with that outcome error |
| PooledConnection.DeadRefuses | packages/mysql/src/mysql-pooled-connection.ts:65 | every later call on it raises that error and touches neither log nor slot |
| PooledConnection.WorkRemembers | packages/mysql/src/mysql-pooled-connection.ts:61-98 | any work leaves such a connection exactly if a root transaction on its way lost track of its commit; no other call ever does |
| PooledConnection.SessionEndsExactly | packages/postgres/src/postgres-pooled-connection.ts:93-114 | a session's connection goes back intact exactly when the work returned and no stream was cut off in it, it was unsafe exactly when the work reached an unsafe root transaction, and the session rejects a completed work exactly when a stream was cut off |
| PooledConnection.WorkHeld | packages/postgres/src/postgres-pooled-connection.ts:39-114 | what any work does to the connection it holds: never released intact, unsafe exactly when an unsafe root transaction is reached, gone exactly when a stream outside any transaction is cut off |
| PooledConnection.SwallowedFailureGoesBack | packages/mysql/src/mysql-pooled-connection.ts:100-119 | a session whose work swallows a failed rollback releases the connection |
| PooledConnection.CutStreamEndsSession | packages/postgres/src/postgres-client-lease.ts:27-32 | a session whose work swallows the cancellation of a stream rejects with the error of a second release |
| PooledConnection.Connection.RootTransaction | packages/mysql/src/mysql-pooled-connection.ts:61-98 | acquisition only when no connection is active, the depth during the work, the judgement of the error raised, and release or destruction by its owner |
| PooledConnection.Connection.NestedTransaction | packages/mysql/src/mysql-pooled-connection.ts:121-139 | a nested call works on the active connection one level deeper and acquires nothing |
| PooledConnection.Connection.Session | packages/postgres/src/postgres-pooled-connection.ts:93-114 | a session acquires only when idle and releases intact only when its work completed |
| CommitOutcome.KnownFailureIsUncommitted | packages/postgres/src/postgres-transaction.ts:13-57 | an error that is transient, or not marked unknown, means that commit was never sent or its reply proved abortion, also when the rollback failed and wrapped it |
| CommitOutcome.RejectedCommitIsTransientIffAborted | packages/postgres/src/postgres-provider-services.ts:32-62 | after a rejected commit, transient, for Postgres and MySQL, if and only if the reply proves abortion, unknown if and only if it does not |
| CommitOutcome.OpenedRaisesExactly | packages/mysql/src/mysql-transaction.ts:40-63 | one attempt: when it sends its commit, when that is applied, when it returns, and which error it raises otherwise, wrapped exactly if the rollback is rejected |
| CommitOutcome.TransientExactly | packages/postgres/src/postgres-provider-services.ts:32-62 | which codes of which operations are transient on either provider, alone or wrapped once, and that nothing wrapped twice is |
| CommitOutcome.AppliedAtMostOnce | packages/core/src/storage/entity-kit-data-source.ts:87-114 | retried work is applied at most once under any retry policy and any cancellation; a loop that returns applied it exactly when the commit acknowledged last had its effect, and one that raises a known error did not |
| CommitOutcome.AttemptsExactly | packages/core/src/storage/entity-kit-data-source.ts:94-109 | an attempt is made exactly when each before it raised a known error that the policy answered with a retry, no signal was found aborted on the way, and the maximum is not reached; what the loop returns or raises at its end, and how many commits it applied |
| CommitOutcome.ExecuteWithRetry | packages/core/src/storage/entity-kit-data-source.ts:87-114 | the retry loop itself, with its cancellation checks, its delay and the policy's callback, and the same bounds |
| BookshopRuns.StockNeverOversold | examples/bookshop/src/checkout.ts:38-63 | in every interleaving, stock plus ordered quantity is the initial stock, the version is one plus the number of orders, and stock is never negative |
| BookshopRuns.OneAnswerPerRequest | examples/bookshop/src/checkout.ts:10-79 | a request id owns at most one order with one receipt, audit row and event, and all clients answered under it got that order |
| BookshopRuns.AnswersStay | examples/bookshop/src/checkout.ts:10-35 | an answer once given is the same in every longer run |
| BookshopAnswers.ReceiptAnswersExactly | examples/bookshop/src/checkout.ts:41-79 | a client that finds a receipt under its request is answered with the recorded response exactly if the recorded order is of its actor, sku and quantity, and fails otherwise |
| BookshopAnswers.SaveExactly | examples/bookshop/src/checkout.ts:46-63 | a save places the order exactly if the stock is as read and no identifier is taken; a conflict starts over at most twice, a duplicate looks for the receipt |
| BookshopAnswers.GivesUpExactly | examples/bookshop/src/checkout.ts:14-35 | a client with a valid command gives up exactly at the third conflict in a row, and at the third transient fault |
| BookshopAnswers.FailsOnlyFor | examples/bookshop/src/checkout.ts:13-35 | the only reasons for which a client fails |
| BookshopAnswers.NewRequestAnswered | examples/bookshop/src/checkout.ts:38-63 | a new request the stock can serve is, on its own, placed and answered |
| BookshopAnswers.RepeatedRequestAnswered | examples/bookshop/src/checkout.ts:71-79 | after any run, a repeated request is answered with the first answer |
| BookshopAnswers.PublisherFinishes | examples/bookshop/src/outbox-dispatch.ts:5-29 | from any reachable state, a publisher with its batch can finish: every row can be sent, fulfilled and acknowledged |
| BookshopRuns.DeliveriesMatchOrders | examples/bookshop/src/outbox-dispatch.ts:5-29 | shipments match their orders, delivered rows have shipment and delivery receipt, a finished publisher delivered its whole batch |
| BookshopRuns.EveryRunConsistent | examples/bookshop/src/shop-model.ts:9-38 | all tables and all parties stay consistent in every reachable state |
| BookshopTables.PlaceKeeps | examples/bookshop/src/checkout.ts:46-62 | one committed order keeps stock, receipts, audit rows, events and shipments consistent |
| BookshopTables.ShipKeeps | examples/bookshop/src/fulfillment.ts:9-45 | one committed fulfilment keeps everything consistent |
| BookshopTables.AcknowledgeKeeps | examples/bookshop/src/outbox-dispatch.ts:19-27 | marking a delivered row keeps everything consistent |
| BookshopStore.Store.PlaceOrder | examples/bookshop/src/checkout.ts:38-79 | places exactly when the command is valid and new, stock suffices and the identifiers are unused; replays exactly a recorded answer to the same command; else refuses and changes nothing |
| BookshopStore.Store.FulfillOrder | examples/bookshop/src/fulfillment.ts:9-45 | succeeds exactly for the event of an order and ships at most once |
| BookshopStore.Store.SendAndAcknowledge | examples/bookshop/src/outbox-dispatch.ts:16-27 | one row is delivered, then marked, and one fewer is left |
| BookshopStore.Store.DispatchPending | examples/bookshop/src/outbox-dispatch.ts:5-29 | a crash-free run delivers exactly the oldest undelivered rows up to the limit, strictly fewer are left until none is |
| BookshopProgress.PublishingProgresses | examples/bookshop/src/outbox-dispatch.ts:5-29 | in every interleaving, from its reading of the batch to its end a publisher brings the undelivered rows among those that existed then down by the limit, or to none |
| BookshopStore.PendingIsOldest | examples/bookshop/src/outbox-dispatch.ts:13-15 | an undelivered row is in the batch, or the batch is full of older ones |
| MutationShards.GroupByFile | scripts/mutation-campaigns.js:21-31 | one entry per file, holding exactly its patterns, with its weight |
| MutationShards.PlaceHeaviestFirst | scripts/mutation-campaigns.js:32-37 | every entry goes to a shard that was lightest then, and all patterns are placed |
| MutationShards.ShardMutationScope | scripts/mutation-campaigns.js:21-39 | the shards hold exactly the given patterns, as the heaviest-first greedy distributes them; an invalid count is refused |
| MutationShards.FilesStayTogether | scripts/mutation-campaigns.js:21-39 | two patterns of one file are never in different shards |
| MutationShards.SortedInOrder | scripts/mutation-campaigns.js:32 | files are placed heaviest first, and in the order of their names where weights are equal |
| MutationShards.NoShardEmpty | scripts/mutation-campaigns.js:21-39 | with positive weights every shard has a pattern |
| MutationShards.NearlyBalanced | scripts/mutation-campaigns.js:32-37 | the heaviest shard is at most 4/3 - 1/(3m) times that of any other distribution of the files over m shards |
| Scheduling.GreedyBound | scripts/mutation-campaigns.js:32-37 | the makespan bound of longest-first list scheduling, over any jobs and machines |
| SqliteDdlText.ScanOfSlice | packages/sqlite/src/sqlite-ddl-text.ts:1-33 | between token boundaries, scanning a slice is slicing the scan, for text and code |
| SqliteDdlText.MaskingIsIdempotent | packages/sqlite/src/sqlite-ddl-text.ts:1-33 | masking a mask changes nothing, in all four combinations |
| SqliteDdlText.MaskOnlyBlanks | packages/sqlite/src/sqlite-ddl-text.ts:1-33 | every offset keeps its character or becomes a blank, and what the code shows the text shows |
| SqliteDdlText.Scan | packages/sqlite/src/sqlite-ddl-text.ts:1-33 | the loops over two arrays compute text and code |
| SqliteDdlText.MaskToken | packages/sqlite/src/sqlite-ddl-text.ts:5-31 | one turn of the loop masks exactly one token in both arrays |
| SqliteDdlText.ScanQuoted | packages/sqlite/src/sqlite-ddl-text.ts:10-22 | where a quoted value ends, doubled quotes and brackets included |
| SqliteDdlScanner.MatchingParen | packages/sqlite/src/sqlite-ddl-scanner.ts:33-48 | finds the least index that balances the parenthesis, and none exactly when it never closes |
| SqliteDdlScanner.LeastBalanceUnique | packages/sqlite/src/sqlite-ddl-scanner.ts:33-48 | there is only one such index |
| SqliteDdlScanner.CutsAreTopLevelCommas | packages/sqlite/src/sqlite-ddl-scanner.ts:50-65 | the text is cut at an offset exactly when a comma of the code stands there at depth zero |
| SqliteDdlScanner.SplitJoins | packages/sqlite/src/sqlite-ddl-scanner.ts:50-68 | the untrimmed parts joined with commas are the text |
| SqliteDdlScanner.SplitTopLevelLoop | packages/sqlite/src/sqlite-ddl-scanner.ts:50-68 | the loop returns the trimmed non-empty parts of that split |
| SqliteDdlScanner.QuotedNameReads | packages/sqlite/src/sqlite-dialect.ts:12-18 | the printer refuses exactly blank names, and what it prints, quotes included, is read and unquoted to the name whatever follows |
| SqliteDdlScanner.SpelledNameReads | packages/sqlite/src/sqlite-ddl-scanner.ts:70-89 | a name in double quotes, backticks, brackets or bare is read and unquoted to itself, whatever follows that does not continue it |
| SqliteDdlParser.ParenthesizedBody | packages/sqlite/src/sqlite-ddl-scanner.ts:3-11 | the text between the first parenthesis of the code and its match, none exactly when there is none |
| SqliteDdlParser.ParseTable | packages/sqlite/src/sqlite-ddl-parser.ts:62-78 | the column names are those of the definitions in the one body the text has, and none without a body |
| SqliteDdlParser.PrintedBody | packages/sqlite/src/sqlite-ddl-scanner.ts:3-11 | of a printed table the body is found exactly |
| SqliteDdlParser.PrintedColumnsParseBack | packages/sqlite/src/sqlite-ddl-parser.ts:26-90 | columns with names in any spelling, table constraints and checks among them, in any order and with balanced closed remainders: exactly the columns are read back, in order |
| SqliteDdlParser.RoundTrip | packages/sqlite/src/sqlite-ddl-parser.ts:48-77 | printer and parser composed give the names of the columns, and constraints define none |
| SqliteDdlParser.BareColumnExactly | packages/sqlite/src/sqlite-ddl-parser.ts:54-68 | a bare name is read as a column exactly unless it is a constraint word, alone or continued with a dollar sign, or `check` before a parenthesis |
| SqliteDdlParser.DollarNameLost | packages/sqlite/src/sqlite-ddl-parser.ts:62 | the columns that are lost so |
| SqliteDdlParser.DistinctNames | packages/sqlite/src/sqlite-ddl-parser.ts:70-77 | distinct names are all kept, in order |
| SqliteDdlMatches.FindMatches | packages/sqlite/src/sqlite-ddl-text.ts:35-58 | the scan with its running depth computes the matches |
| SqliteDdlMatches.EligibleExactly | packages/sqlite/src/sqlite-ddl-text.ts:42-49 | a match may start exactly at a word character that no other leads up to, with as many parentheses of the code opened as closed before it |
| SqliteDdlMatches.MatchesApart | packages/sqlite/src/sqlite-ddl-text.ts:35-58 | matches are in order, apart, each at a word of the code outside all parentheses and as the pattern has it |
| SqliteDdlMatches.MatchesComplete | packages/sqlite/src/sqlite-ddl-text.ts:35-58 | wherever the pattern matches at such a word, that match is reported or starts inside an earlier one |
| SqliteDdlMatches.NameSource.AnonymousName | packages/sqlite/src/sqlite-ddl-parser.ts:40-47 | the search ends, at the least candidate after the last one that nobody uses |
| SqliteDdlMatches.NameSource.AnonymousNames | packages/sqlite/src/sqlite-ddl-parser.ts:38-47 | names drawn differ from each other and from all names used before |
| SqliteStatement.HasMultipleStatements | packages/sqlite/src/sqlite-statement.ts:29-83 | true exactly when some semicolon outside literals, quoted names and comments is followed by more than blanks |
| SqliteStatement.MultipleExactly | packages/sqlite/src/sqlite-statement.ts:29-83 | the piecewise reading agrees with the existence of such a semicolon |
| SqliteStatement.PlainExactly | packages/sqlite/src/sqlite-reused-connection.ts:82-99 | a text leaves the session as it was exactly if one of the data words stands, in any case, at its start after blanks and no semicolon separates two statements |
| SqlitePool.EveryHandleHasOneHome | packages/sqlite/src/sqlite-reusable-connection-source.ts:23-53 | in every run each handle is leased by one owner, idle or closed, never two of these; idle ones are within the limit; a disposed source has no open handle |
| SqlitePool.DisposedGainsNothing | packages/sqlite/src/sqlite-reusable-connection-source.ts:23-47 | a disposed source gets no handle and no lease any more |
| SqlitePool.IdleRanOnlyPlain | packages/sqlite/src/sqlite-reused-connection.ts:82-99 | in every run, whatever fails and whenever leases are disposed, idle handles ran only plain single statements |
| SqlitePool.CalmRunsKeepIdleClean | packages/sqlite/src/sqlite-reused-connection.ts:64-98 | if leases are disposed only after their operations succeeded or were observed, idle handles never failed either |
| SqlitePool.KeptHandleStaysCleanExactly | packages/sqlite/src/sqlite-reused-connection.ts:64-80 | a handle kept at disposal stays clean whatever its operations in flight do exactly when all of them had succeeded |
| SqlitePool.DisposedTooEarly | packages/sqlite/src/sqlite-reused-connection.ts:64-80 | a run after which an idle handle has failed |
| SqlitePool.IdleNotInTransaction | packages/sqlite/src/sqlite-reused-connection.ts:64-70 | in every run no transaction is under way on an idle handle |
| SqlitePool.DisposeLeaseExactly | packages/sqlite/src/sqlite-reused-connection.ts:64-70 | a disposed lease gives its handle back exactly if it is not retired, no transaction is under way and there is room; otherwise the handle is closed |
| SqlitePool.ReusableSource.CreateConnection | packages/sqlite/src/sqlite-reusable-connection-source.ts:23-38 | lends the idle handle retired last or a new one, and refuses once disposed |
| SqlitePool.ReusableSource.StartOperation | packages/sqlite/src/sqlite-reused-connection.ts:27-62 | a lease accepts work until disposed and is retired by a text that may change the session |
| SqlitePool.ReusableSource.ObserveOutcome | packages/sqlite/src/sqlite-reused-connection.ts:72-80 | a failure retires the lease |
| SqlitePool.ReusableSource.DisposeConnection | packages/sqlite/src/sqlite-reused-connection.ts:64-70 | the handle goes idle or is closed, once |
| SqlitePool.ReusableSource.Dispose | packages/sqlite/src/sqlite-reusable-connection-source.ts:40-53 | refused while a lease is live, otherwise closing is tried on every idle handle, and the first failure is reported by this and every later call |
| PostgresStream.AcquiredReleasedOnce | packages/postgres/src/postgres-stream-lease.ts:27-52 | for every script, a client the stream acquired is released exactly once, intact exactly when a commit or rollback was confirmed |
| PostgresStream.BorrowedReleasedOnAbort | packages/postgres/src/postgres-row-stream.ts:27-36 | a borrowed client is released, destroyed, exactly when no transaction was open and the signal fired at a command the stream sent or while a row it delivered was out |
| PostgresStream.RowsInOrder | packages/postgres/src/postgres-row-stream.ts:38-78 | for every script the rows delivered are a prefix of the query's; a stream that finishes delivered all and committed its own transaction |
| PostgresStream.NeverUsedAfterRelease | packages/postgres/src/postgres-client-lease.ts:14-41 | in no run is a command sent to a released client, one released before the stream included, and no client is released twice |
| PostgresStream.CutInBegin | packages/postgres/src/postgres-row-stream.ts:27-48 | canceled while `begin` is pending, the stream releases the client and its cursor declaration is refused unsent |
| PostgresStream.EndsExactly | packages/postgres/src/postgres-row-stream.ts:63-140 | the commands after the body and the outcome: the cursor is closed unless the body failed, an own transaction ends by a commit exactly if the body ended without error and the close was answered, also when the consumer left; the first error of the cleanup is raised, wrapping that of the body |
| PostgresStream.RefusedExactly | packages/postgres/src/postgres-stream-lease.ts:23-27 | a stream is refused before it starts for a bad batch size, a signal fired before, or a failed connect, in this order, and then acquires, sends and delivers nothing |
| PostgresStream.BodyStops | packages/postgres/src/postgres-row-stream.ts:38-78 | the body throws only what the driver answered to its last command, what its consumer threw at the last row, or the cancellation, and that only once the signal has fired; it is left only at the last row delivered |
| PostgresStream.UndisturbedRun | packages/postgres/src/postgres-row-stream.ts:38-140 | n rows in batches of b, on an acquired or a borrowed client: declare, n/b + 1 fetches and close, with begin and commit around them unless a transaction is open, n/b + 3 or n/b + 5 commands; an acquired client goes back, a borrowed one stays |
| PostgresStream.RowStream.FetchRows | packages/postgres/src/postgres-row-stream.ts:51-64 | the fetch loop, with its cancellation checks, computes the reading of the cursor |
| PostgresStream.RowStream.CleanUp | packages/postgres/src/postgres-row-stream.ts:88-140 | when the cursor is closed and the transaction committed or rolled back, and which error is left |
| PostgresStream.RowStream.Consume | packages/postgres/src/postgres-stream-lease.ts:16-53 | the whole stream with acquisition and release |
| Restoration.FlattenFinds | packages/core/src/restoration-failure-inspection.ts:27-46 | on any graph, cycles included, flattening ends and yields exactly what some path down through unvisited aggregates leads to |
| Restoration.FlattenNotEmpty | packages/core/src/restoration-failure-inspection.ts:27-46 | every failure leaves an entry |
| Restoration.AcyclicFlattens | packages/core/src/restoration-failure-inspection.ts:27-46 | an acyclic failure flattens to exactly its leaves from left to right |
| Restoration.RaisedExactlyOnFailure | packages/core/src/restoration-actions.ts:7-32 | an error is raised exactly when some action threw |
| Restoration.NoFailureLost | packages/core/src/restoration-actions.ts:19-32 | what one failure flattens to is in the recorded failures |
| Restoration.LoneFailureRaised | packages/core/src/restoration-actions.ts:7-32 | the only failure is raised as itself if it is an error, wrapped if it is another value, as a stand-in if it cannot be inspected, and as what it contains if it aggregates others |
| Restoration.SeveralFailuresRaised | packages/core/src/restoration-actions.ts:7-32 | several failures are raised together, all of them, in the order in which they were thrown |
| Restoration.ScopeKeeps | packages/core/src/restoration-scope.ts:15-58 | after any calls a scope holds the first primary and all failures in order, and has told its owner at most once, exactly when it reported with a failure recorded |
| Restoration.ThrownExactly | packages/core/src/restoration-scope.ts:37-48 | what a call of the scope throws after any calls: a rethrow the error captured first, or a complaint if there is none, a report the failures recorded so far, exactly if there are any |
| Restoration.OwnerToldFirst | packages/core/src/restoration-scope.ts:50-58 | the owner is told the failures recorded by the first call that reported any |
| Restoration.Cleanup.AppendFlattened | packages/core/src/restoration-failure-inspection.ts:27-46 | the recursion that adds to and removes from the visited set appends the flattened failure and leaves the set as it was |
| Restoration.Cleanup.RunRestorationActions | packages/core/src/restoration-actions.ts:19-32 | every action runs once, in order, whatever fails |
| Restoration.RestorationScope.Record | packages/core/src/restoration-scope.ts:21-23 | a failure is recorded flattened, nothing else changes |
| Restoration.RestorationScope.AttemptAll | packages/core/src/restoration-scope.ts:33-35 | all actions are attempted and their failures recorded |
| Restoration.RestorationScope.Rethrow | packages/core/src/restoration-scope.ts:37-43 | the primary is thrown, after the owner was told if a cleanup failed |
| Restoration.RestorationScope.ThrowFailure | packages/core/src/restoration-scope.ts:45-48 | the collected failure is thrown if there is one |
| CliParser.ParseGlobalOptions | packages/cli/src/cli-option-reader.ts:15-75 | the loop takes global options out up to `--`, or reports the first misuse |
| CliParser.ParseCommandArguments | packages/cli/src/cli-command-parser.ts:33-88 | the loop reads the command's options and positionals, or reports the first misuse |
| CliRoundTrip.PrintedIsReadBack | packages/cli/src/cli-option-reader.ts:15-75 | options in any order and accepted form, then `--` and any arguments, come back from both passes: each option with its values in order, and the arguments |
| CliRoundTrip.InsertionChangesNothingElse | packages/cli/src/cli-option-reader.ts:15-65 | a global option not yet given may be put at any gap before `--` that does not follow a global option awaiting its value: it is recorded and everything else read is unchanged |
| CliRoundTrip.SeparateValueExactly | packages/cli/src/cli-command-parser.ts:77-84 | a value written apart from its option comes back exactly when it is not empty, does not start with two dashes and is no spelling of the first pass |
| CliRoundTrip.OwnSpellingsAreRead | packages/cli/src/cli-metadata.ts:58-64 | in tables without shared spellings each pass finds its own definitions |
| CliMisuse.HelpAndVersion | packages/cli/src/cli-option-reader.ts:84-95 | help and version are recorded by both spellings, once, and any other unknown spelling is left where it stands |
| CliMisuse.GlobalTakesNext | packages/cli/src/cli-option-reader.ts:57-65 | a global option takes the next argument exactly unless there is none, it is empty or it looks like an option |
| CliMisuse.CommandTakesNext | packages/cli/src/cli-command-parser.ts:77-84 | the same for options of the command, whose repeatable ones collect their values |
| CliMisuse.UnknownIsRefused | packages/cli/src/cli-command-parser.ts:45-64 | what is positional, what is refused as unknown, and that all after `--` is positional |
| CliSuggestions.EditDistance | packages/cli/src/cli-suggestions.ts:18-33 | the two-row table computes the distance |
| CliSuggestions.DistanceIsShortest | packages/cli/src/cli-suggestions.ts:18-33 | the distance is the length of a chain of single edits, and no chain is shorter |
| CliSuggestions.Triangle | packages/cli/src/cli-suggestions.ts:18-33 | the distance satisfies the triangle inequality |
| CliSuggestions.Symmetric | packages/cli/src/cli-suggestions.ts:18-33 | it is symmetric |
| CliSuggestions.ZeroMeansEqual | packages/cli/src/cli-suggestions.ts:18-33 | it is zero exactly for equal strings |
| CliSuggestions.ClosestCliSpelling | packages/cli/src/cli-suggestions.ts:2-16 | the first nearest candidate, exactly when one is within three edits |
| WireReader.QualificationWireReader.Push | scripts/qualification-wire-protocol.js:11-27 | one push reads every whole packet, keeps the rest, and fails on an invalid length |
| WireReader.ChunkingIrrelevant | scripts/qualification-wire-protocol.js:11-27 | any chunking reads what one push of all bytes reads, and fails exactly when that fails |
| WireReader.FramingIsExact | scripts/qualification-wire-protocol.js:11-27 | every sequence of valid packets, cut anywhere, is read back exactly, less the startup packet |
| WireReader.BufferBelowOnePacket | scripts/qualification-wire-protocol.js:11-27 | the buffer never holds a whole packet |
| AuditPolicy.CleanExactly | scripts/dependency-audit-policy.js:3-68 | no error exactly when runtime reports are complete and empty, reviews complete, distinct and unexpired, and every chain from a finding ends well: complete, seen for the first time, each advisory under a review that covers every node on the chain |
| AuditErrors.ErrorsExactly | scripts/dependency-audit-policy.js:3-68 | each error is reported exactly when a report, a review or a chain the check walks deserves it, and only once under a given policy: faulty or non-empty reports, missing, repeated or expired reviews, incomplete or repeated findings, unreviewed advisories and nodes |
| AuditErrors.ChainErrorsExactly | scripts/dependency-audit-policy.js:41-65 | the recursive check reports an error exactly when a chain of sound findings from where it stands leads to an unsound one, or to a cited advisory whose review is missing or does not cover a node on the chain |
| AuditPolicy.NoChainErrors | scripts/dependency-audit-policy.js:41-65 | the recursive check, which ends on any graph, reports nothing exactly when every chain through a finding ends well |
| AuditPolicy.CleanChainsAcyclic | scripts/dependency-audit-policy.js:41-47 | no chain of a clean audit repeats a finding |
| AuditPolicy.CleanListsExactly | scripts/dependency-audit-policy.js:55-62 | in a clean audit every node on every chain to an advisory is listed by that advisory's review exactly when every such node is installed with a version |
| AuditPolicy.UnversionedNodePasses | scripts/dependency-audit-policy.js:58-62 | a clean audit with a node that no review lists |
| AuditPolicy.AuditRun.CheckReviews | scripts/dependency-audit-policy.js:24-40 | which reviews are incomplete, repeated or expired |
| AuditPolicy.AuditRun.Check | scripts/dependency-audit-policy.js:41-65 | the depth-first check pushes the errors of all chains |
| AuditPolicy.AuditRun.Evaluate | scripts/dependency-audit-policy.js:3-68 | the whole evaluation over the shared list |
| MigrationStatus.CleanExactly | packages/cli/src/output/migration-status.ts:26-97 | with local ids in strict order, clean exactly when the applied ids are the local ones in order and every recorded checksum matches |
| MigrationStatus.NoDriftExactly | packages/cli/src/output/migration-status.ts:70-97 | for any local migrations, no drift exactly when applied ids are distinct and sorted and every row matches a local migration |
| MigrationStatus.StatusTells | packages/cli/src/output/migration-status.ts:26-46 | pending are exactly the local ids that no row has, in order; current and target are the last ids or 0; the drift is, row by row, every reason there is to report it |
| MigrationStatus.CollectDrift | packages/cli/src/output/migration-status.ts:70-97 | the loop over `seen` and `previous` computes the drift |
| MigrationStatus.CreateMigrationStatus | packages/cli/src/output/migration-status.ts:26-46 | pending ids, drift, current, target and cleanness |

## Left out

- SQLite errors that roll the whole transaction back, such as a full disk: a later savepoint would begin a new transaction there.  On MySQL a statement may end the transaction; elsewhere it fails alone, or on Postgres aborts until a rollback.
- RefusedStatements.CommitsAsWorkEndsExactly: one half, that a safe tree is never hurt, is proved for all callbacks (`CleanRuns.CommitsWhenWorkReturns`); the other for callbacks that throw again only errors they caught themselves, since a later callback may by chance throw the recorded error and clear it.
- Transaction options are commands before the begin that fail or work; what they do to the server is not modelled, nor is an abort between MySQL's isolation command and its begin (`CommitOutcome` has that one).
- Concurrent calls on one connection object: work awaits each nested call, as the runners expect.
- Checkout's retry loop is a state machine over its awaits, not a method with a loop, because other parties move between them.
- JSON, SHA-256, UUIDs and decimal spellings in the bookshop are injective; the order's own version column never changes and is dropped.
- JavaScript strings are sequences of UTF-16 units; here they are sequences of characters, which differ only in how offsets beyond the basic plane are counted.
- Regular expressions are readers for exactly the texts used; the pattern given to `FindMatches` is an arbitrary sticky pattern.
- SqliteDdlParser.ParseTable: does not read check constraints, generated columns, collations, defaults and column flags; it states the column names, and the fresh names of checks are drawn by `SqliteDdlMatches.NameSource`.
- `shardMutationScope` sorts the patterns inside a shard at the end; shards are compared as multisets.
- Distributions that split one file over several shards are not among the rivals of `NearlyBalanced`.
- MySQL packets longer than 16 MB and TLS negotiation in the wire reader, which the reader does not support either.
- Errors thrown by the driver's own `release`, by the restoration owner's callback and by getters of inspected errors, and exhaustion of the call stack on deep graphs.
- `SqlitePool`: closing a native handle is one step, and a handle whose closing fails counts as closed.
- The driver rejects with an error object, never with `undefined`; a consumer of a stream may throw `undefined`.
- Connection acquisition, whose late connections the acquisition helper releases itself; buffered queries; the rows of MySQL streams; command time limits; the text of error messages.
- `PooledConnection` follows where connections go; the savepoints and the failure on record are arbitrary there and followed by `NestedTransactions`.
- Context classes of the core that delegate to the change tracker and the save planner.
