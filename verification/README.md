# GizmoSQL ADBC driver: a verified model

This project models the parts of the GizmoSQL ADBC driver that keep state or transform text, and proves
what they guarantee for every input, every failure and every run. `dafny verify dfyconfig.toml` checks
all of it.

| part | files |
|---|---|
| the text classifier that decides how a statement is executed, against a one-pass tokenizer | `SqlScanner`, `SqlLexer`, `SqlPasses`, `SqlRefinement`, `SqlLimits`, `SqlWitnesses`, `SqlPlainTexts` |
| quoting of names and literals | `Quoting` |
| the statement wrapper over an inner statement that can be poisoned | `Inner`, `StatementSpec`, `StatementReuse`, `StatementIngest`, `Statement` |
| execution against a server that plans first and runs later | `Execution`, `ExecutionOnTokens`, `ExecutionOutcomes`, `ExecuteQuery`, `Materialize` |
| the cancel protocol, interleaved, as one thread runs it, and the two tied together | `Cancel`, `CancelOutcomes`, `CancelReader`, `CancelSteps` |
| geometry-aware bulk ingest | `GeoCatalog`, `GeoModes`, `GeoIngest` |
| the C boundary: error blocks, partitions, handles and streams | `CHeap`, `ErrorHeap`, `ErrorOutcomes`, `Partitions`, `HandleSpec`, `HandleRuns`, `HandleOutcomes`, `Handles` |
| the OAuth token poll | `OAuth` |

Code that changes state is a class or a method here too, proved against a specification function or an
outright postcondition; the properties of whole runs are lemmas about the specification. What a caller can
count on is said in the modules named `...Outcomes`, and in `GeoModes`, `StatementIngest` and
`SqlPlainTexts`, with the option texts, keywords and numbers written out. The unseen
upstream statement (`Inner`) behaves as the comments of `go/gizmosql/driver.go` describe it. Failures of
calls into code that cannot be seen are inputs, so every statement covers all of them.

Terms used below. A token list is *orderly* if no comment opener stands inside a literal, a quoted
identifier or (for block comments) a line comment, no single quote stands inside a quoted identifier,
and no block comment stands directly between two pieces that would read as one without it. An *eager*
call is one that is to return only after the server has done the work.

## Where code and documentation differ

The code is modelled as it is, and each difference shows in a named member.

- The repository's `README.md` (lines 188-200) says statements are routed by their first keyword with
  comments stripped. The code takes the first white-space separated field, so `COPY(x ...` stays lazy;
  `ClassifierMeetsItsContractExactly` and `KeywordStatementIsEagerExactly` have the exact condition.
- Comments are stripped before literals are recognised, and quoted identifiers after single-quoted
  literals. `SqlLimits` and `SqlWitnesses` have families of texts, at least one for each hypothesis of the
  refinement, on which RETURNING is therefore missed or invented.
- Two letters outside ASCII upper-case to I and S, so texts that begin with no keyword can count as one
  (`DotlessIMakesAKeyword`, `LongSMakesAKeyword`).
- The classifier indexes an empty list on a text of, say, one no-break space
  (`ClassifierPanicsExactly`).
- The comment on the ingest fields of the statement says that they mirror the inner statement. After a
  recreation they need not (`ModeAgreesAfterSetSqlQueryExactly`, `ModeIsForgottenOnReuse`).
- An error with details that is stored over one not yet released loses the blocks of the old one, while
  the other two ways of storing release it (`ErrorC.SetErrWithDetails`, `LoseAnError`).
- Partition ids whose last one is empty, or that outnumber the announced partitions, make the packing
  loop panic (`PartitionsC.Pack`).
- A result exported into a stream that still holds one loses the old handle, whichever of the seven calls
  exports it (`StepKeepsLinkedExactly`, `LosingAHandleIsReachable`).
- An insert by unqualified name goes to a temporary table of that name if there is one, so append and
  create_append can miss the table the options name (`MaterializedAsAskedExactly`,
  `RowsGoToTheTemporaryTable`).
- A target with only a catalog and one with only a schema of that name have the same reference
  (`SameReferenceExactly`).
- An append by name also accepts data with fewer columns than the table, where the ADBC standard asks
  for an error if the schemas differ (`AppendAsAskedExactly`, `NarrowDataAreAppended`);
  `MaterializedMeetsModeExactly` has the condition for all modes and inputs.
- A negative poll interval is kept as it is and bounds nothing (`NoBoundWithoutInterval`).

## Model

| member | source | states |
|---|---|---|
| `SqlScanner.MatchLengthIsPreferredMatch` | go/gizmosql/sqlrouting.go:43-50 | for all four comment and quote patterns and every text: the scanner reports no match exactly when no prefix is in the language of the pattern, and otherwise the match leftmost-first search prefers (shortest for the lazy block comment, longest for the other three) |
| `SqlScanner.CloseBlockFirst` | go/gizmosql/sqlrouting.go:44 | the lazy block comment ends at the first closing pair, or there is none |
| `SqlScanner.CloseQuotedLongest` | go/gizmosql/sqlrouting.go:46-50 | a quoted item ends at the last place where it can close, backtracking over doubled quotes included |
| `SqlScanner.ReturningInIsBoundarySearch` | go/gizmosql/sqlrouting.go:51-53 | the RETURNING search finds a match exactly when some position has the word with a word boundary on both sides |
| `SqlScanner.ClassifierPanicsExactly` | go/gizmosql/sqlrouting.go:81-87 | the classifier indexes out of range exactly on texts that, comments and ASCII white space removed, are non-empty and made of other Unicode spaces only |
| `SqlScanner.ClassifierPanicsOnNoBreakSpace` | go/gizmosql/sqlrouting.go:61-87 | a concrete text on which it does |
| `SqlPasses.PassOnText` | go/gizmosql/sqlrouting.go:58-72 | a regular-expression pass over the text of a token list gives the text of the list with the pass applied to the tokens |
| `SqlRefinement.ReturningMeansReturningToken` | go/gizmosql/sqlrouting.go:58-72 | on every orderly text the pipeline of passes reports RETURNING if and only if some word token is RETURNING in any case |
| `SqlRefinement.ClassifierOnTokens` | go/gizmosql/sqlrouting.go:81-92 | what the whole pipeline decides, stated on the tokens of a one-pass tokenizer only, for orderly texts whose first token and the piece after it are no dotless i or long s |
| `SqlRefinement.ClassifierMeetsItsContractExactly` | go/gizmosql/sqlrouting.go:74-92 | on those texts the decision is the documented one (first keyword in the set and no RETURNING) if and only if the first token is no keyword, or is closed off by white space, a parenthesis or a semicolon, or a RETURNING token is there |
| `SqlLimits.DashesCutTheLine` | go/gizmosql/sqlrouting.go:58-62 | a literal that contains two dashes loses the rest of its line, for every such line |
| `SqlLimits.DashesInLiteralHideReturning` | go/gizmosql/sqlrouting.go:58-72 | so the text test misses a RETURNING token after such a literal |
| `SqlLimits.DeletedCommentMakesReturning` | go/gizmosql/sqlrouting.go:58-72 | deleting a comment that stands between two halves of the word makes a RETURNING of them, wherever the halves are cut |
| `SqlLimits.QuotesInIdentifiersHideReturning` | go/gizmosql/sqlrouting.go:64-72 | single quotes in two quoted identifiers hide the RETURNING between them |
| `SqlLimits.KeywordAgainstParenthesisIsMissed` | go/gizmosql/sqlrouting.go:86-90 | every keyword written against an opening parenthesis and a word is left to the lazy query path |
| `SqlWitnesses.OpenersInItemsHideReturning` | go/gizmosql/sqlrouting.go:58-72 | a block comment opener in a literal or in a quoted identifier hides every RETURNING up to the next closing pair |
| `SqlWitnesses.DashesInIdentifierHideReturning` | go/gizmosql/sqlrouting.go:58-72 | two dashes in a quoted identifier hide the RETURNING after it |
| `SqlWitnesses.OpenerInLineCommentHidesReturning` | go/gizmosql/sqlrouting.go:58-72 | a block comment opener in a line comment hides the RETURNING on the next line |
| `SqlWitnesses.DotlessIMakesAKeyword` | go/gizmosql/sqlrouting.go:86-88 | a dotless i before NSERT makes an INSERT of a text whose first token is no keyword |
| `SqlWitnesses.LongSMakesAKeyword` | go/gizmosql/sqlrouting.go:86-88 | a long s between U and E makes a USE of a text whose first token is no keyword |
| `SqlPlainTexts.FirstWordDecides` | go/gizmosql/sqlrouting.go:14-41 | for every ASCII word, in any case of letters, and whatever follows it: the statement is DDL or DML exactly if the word is one of the 26 that are written out |
| `SqlPlainTexts.FirstWordRoutes` | go/gizmosql/driver.go:442-471 | so a statement with such a first word runs at once, and one with any other first word streams unless it has RETURNING |
| `SqlPlainTexts.PlainReturning` | go/gizmosql/sqlrouting.go:51-72 | in every text without quotes and comments, RETURNING is that word, in any case of letters, with no letter, digit or underscore on either side |
| `SqlPlainTexts.PlainPanicsExactly` | go/gizmosql/sqlrouting.go:81-87 | among those texts the classifier panics exactly on white space that is not all of the six characters that are trimmed |
| `Quoting.QuotedNameIsOneToken` | go/gizmosql/geoingest.go:53-55 | a quoted name adds exactly one identifier token with that name, whatever it contains and whatever surrounds it |
| `Quoting.QuotedLiteralIsOneToken` | go/gizmosql/geoingest.go:215-218 | a quoted literal adds exactly one literal token with that content |
| `Quoting.QuotedItemIsOneMatch` | go/gizmosql/sqlrouting.go:46-50 | the quote patterns match a quoted item whole, and no more, when no quote follows |
| `Quoting.TargetReadsBack` | go/gizmosql/geoingest.go:59-72 | reading a dotted reference gives back the list of parts it was built from, dots and quotes inside parts included |
| `Quoting.TargetIsInjective` | go/gizmosql/geoingest.go:59-72 | different part lists never give the same reference |
| `Quoting.QualifiedTarget` | go/gizmosql/geoingest.go:57-72 | the reference built step by step reads back as exactly the parts that are set, and as the bare table for a temporary target |
| `Quoting.TargetText` | go/gizmosql/geoingest.go:57-72 | the reference as a text: quoted catalog, schema and table in that order as far as they are set, the quoted table alone for a temporary target |
| `Quoting.SameReferenceExactly` | go/gizmosql/geoingest.go:57-72 | two targets give one reference exactly if they are the same, or if one has as its only catalog what the other has as its only schema |
| `Statements.Statement.RecordOption` | go/gizmosql/driver.go:283-288 | records an option for replay unless it is an ingest option |
| `Statements.Statement.ResetForNewQuery` | go/gizmosql/driver.go:300-336 | recreates and replays exactly when rows were bound; a failed replay closes the new inner statement and changes no field; one open inner statement is owned before and after |
| `Statements.Statement.SetOption` | go/gizmosql/driver.go:338-356 | the new state of wrapper and inner statement for every outcome of the inner call |
| `Statements.Statement.SetTypedOption` | go/gizmosql/optionsdelegate.go:153-184 | the same for byte, integer and double options, recorded but not noted as ingest state |
| `Statements.Statement.SetSqlQuery` | go/gizmosql/driver.go:358-371 | the new state for every combination of failures, and ownership of one open inner statement |
| `Statements.Statement.SetSubstraitPlan` | go/gizmosql/driver.go:373-383 | the same; the ingest target is not cleared here |
| `Statements.Statement.Prepare` | go/gizmosql/driver.go:385-391 | prepared is set exactly on success |
| `Statements.Statement.AutoPrepare` | go/gizmosql/driver.go:393-403 | prepares exactly when there is an unprepared SQL query and no ingest target |
| `Statements.Statement.Bind` | go/gizmosql/driver.go:405-427 | prepares first if needed, then binds; the bound flag and the schema of the rows are remembered exactly on success |
| `Statements.Statement.RedirectIngest` | go/gizmosql/geoingest.go:97-110 | the five option writes that turn the inner ingest to the interim table, up to the first that fails, with nothing recorded |
| `Statements.Statement.CloseInner` | go/gizmosql/driver.go:269-276 | closing leaves the connection without the inner statement |
| `Statements.GeoFieldNames` | go/gizmosql/geoingest.go:39-51 | the loop returns the names of the geoarrow fields in order |
| `StatementSpec.StepKeepsCore` | go/gizmosql/driver.go:300-427 | every call, whatever fails in it, keeps: staged rows and parameters imply the bound flag, parameters imply prepared, wrapper and inner agree on prepared, and the inner settings are the recorded options replayed |
| `StatementSpec.RunKeepsCore` | go/gizmosql/driver.go:300-427 | the same over every run |
| `StatementReuse.SetSqlQueryMakesFresh` | go/gizmosql/driver.go:290-336 | a successful SetSqlQuery makes the statement agree with a new one that has the recorded options and the query, on everything a SQL execution reads |
| `StatementReuse.StepKeepsAlike` | go/gizmosql/driver.go:338-427 | two statements that agree so give every later call the same outcome and still agree after it |
| `StatementReuse.ReusedStatementIsFresh` | go/gizmosql/driver.go:290-371 | after any history with any failures, no later sequence of calls can tell the reused statement from the new one by an outcome or by the SQL or plan it executes |
| `StatementReuse.ReusedStatementIsNewExactly` | go/gizmosql/driver.go:300-371 | the reused statement equals the new one, ingest options included, if and only if the inner statement was recreated or held no ingest options, and the wrapper remembers none besides the target |
| `StatementReuse.ModeAgreesAfterSetSqlQueryExactly` | go/gizmosql/driver.go:189-197 | the wrapper mirrors the inner ingest mode after SetSqlQuery if and only if nothing was recreated and it did before, or it had no mode |
| `StatementReuse.ModeIsForgottenOnReuse` | go/gizmosql/driver.go:189-197 | a run that reaches the disagreement: an ingest with any mode set, then a query on the same statement |
| `StatementReuse.StepKeepsSyncExactly` | go/gizmosql/driver.go:300-371 | a call loses the agreement between query and inner statement exactly when a new query fails after the swap, or the ingest target is cleared over staged rows |
| `StatementReuse.SetSqlQueryRestoresSync` | go/gizmosql/driver.go:358-371 | from every reachable state a successful SetSqlQuery restores it |
| `StatementReuse.SqlExecutionIsNeverPoisoned` | go/gizmosql/driver.go:290-299 | in every such run a statement with a query and no ingest target executes that query, and parameters are only ever bound prepared |
| `StatementReuse.UnpreparedBindPoisonsInner` | go/gizmosql/driver.go:177-183 | the inner statement alone would refuse: the implicit Prepare is needed, and with it the query runs once per row |
| `StatementReuse.AtMostOneImplicitPrepare` | go/gizmosql/driver.go:393-403 | between two queries at most one Bind prepares implicitly, and none if the statement was prepared |
| `StatementReuse.RecordedOptions` | go/gizmosql/driver.go:283-288 | the recorded options are the in-order list of successful sets of non-ingest options, over every run |
| `StatementReuse.SettingsAreReplayed` | go/gizmosql/driver.go:300-330 | the inner settings always are those options applied to a new statement, however often it was recreated |
| `StatementIngest.LastOptionCounts` | go/gizmosql/driver.go:338-356 | after any run with any failures, the wrapper goes by the last mode, catalog, schema and temporary flag set successfully, each under its own ADBC option text |
| `StatementIngest.StepNotes` | go/gizmosql/driver.go:338-371 | one call: each of the five option texts has a place of its own, and only a new SQL query clears the target |
| `StatementIngest.BindDecidesGeoPath` | go/gizmosql/driver.go:405-437 | after a successful Bind the geometry path is taken exactly if a target is set and some bound field names a geoarrow extension |
| `StatementIngest.GeoPathExactly` | go/gizmosql/driver.go:405-437 | the same over every run, for the rows of the last successful Bind since the inner statement was recreated |
| `StatementIngest.PlanIsExecuted` | go/gizmosql/driver.go:373-383 | a plan set successfully is what executes, unless nothing was recreated and an ingest target is still set |
| `StatementIngest.IngestIsExecutedExactly` | go/gizmosql/driver.go:338-427 | on every reachable statement, setting a target and binding rows makes an ingest of those rows into that table, exactly if the statement was not prepared or had them staged |
| `StatementIngest.RedirectedIngest` | go/gizmosql/geoingest.go:97-110 | the inner ingest goes to the interim table, in mode replace, temporary and unqualified, with the staged rows; nothing else changes |
| `StatementIngest.SettingSurvivesReuse` | go/gizmosql/driver.go:283-336 | an option outside adbc.ingest. that was set successfully is in force after any further calls that do not set it, with any failures, however often the inner statement is replaced |
| `StatementIngest.KeptForReplayExactly` | go/gizmosql/driver.go:283-288 | an option is recorded exactly if its key does not begin with adbc.ingest. |
| `StatementIngest.QueryFailsExactly` | go/gizmosql/driver.go:300-383 | setting a query or plan fails exactly if one of the calls made for it does |
| `StatementIngest.FailedQueryChangesNothingExactly` | go/gizmosql/driver.go:300-383 | and has then changed nothing, exactly unless the inner statement had been replaced already |
| `StatementIngest.BindFailsExactly` | go/gizmosql/driver.go:398-427 | binding fails exactly if the upstream call does, or the prepare the code makes of its own accord |
| `StatementIngest.FailedCallChangesNothing` | go/gizmosql/driver.go:338-427 | other calls that fail change nothing, except that a failing Bind may have prepared the query |
| `StatementIngest.QueryCanAlwaysBeSet` | go/gizmosql/driver.go:290-371 | without failures a query can be set on every reachable statement, and is then what executes |
| `StatementIngest.RowsCanAlwaysBeBound` | go/gizmosql/driver.go:393-427 | and rows can be bound to it without a Prepare of the caller; it then executes once per row |
| `Materialize.Drain` | go/gizmosql/driver.go:496-505 | every batch is read in order and retained once |
| `Materialize.Wrap` | go/gizmosql/driver.go:506-517 | afterwards each batch is held once by the new reader, or not at all on an error |
| `Materialize.MaterializeResult` | go/gizmosql/driver.go:489-521 | success yields exactly the source batches with one extra reference each and an unknown count becomes the number of rows; failure leaves no reference; the source is released once on every path |
| `Execution.KeywordStatementsRunEagerly` | go/gizmosql/driver.go:442-471 | a statement whose first field, comments stripped, is in the set is executed by update or drained, and never streamed |
| `ExecutionOnTokens.RouteOnTokens` | go/gizmosql/driver.go:442-471 | the route on tokens: drained with a RETURNING token, executed by update with a keyword that is closed off, streamed otherwise |
| `ExecutionOnTokens.KeywordStatementIsEagerExactly` | go/gizmosql/driver.go:442-471 | a statement whose first token is a keyword is done before the call returns if and only if it has a RETURNING token or the keyword is closed off; otherwise it is streamed |
| `ExecutionOnTokens.KeywordQueryRunsAtOnceExactly` | go/gizmosql/driver.go:442-471 | when such a successful call returns, its work is in the server log once per bound row, or not at all, by the same condition |
| `ExecutionOnTokens.KeywordEffectsExactlyOnce` | go/gizmosql/driver.go:442-471 | in every run, with any failures, the work of these statements is in the server log exactly once per successful call (once per bound row), in call order |
| `Execution.EagerEffectsExactlyOnce` | go/gizmosql/driver.go:442-471 | in every run, with any failures, the server log restricted to successful eagerly routed ExecuteQuery calls is their work in call order, once each and once per bound row |
| `Execution.NothingRunsTwice` | go/gizmosql/driver.go:442-475 | every call is in the log at most once, and a stream nobody started not at all |
| `Execution.NoSelfInterruptedWrites` | go/gizmosql/driver.go:452-481 | when Close or Release sends an implicit cancel, no eagerly executed statement that succeeded is running, the statements of a geometry ingest included, and the stream it is meant for is not such a statement |
| `Execution.CurrentIsStreaming` | go/gizmosql/driver.go:473-481 | what Close would cancel is always a stream handed to the caller |
| `ExecuteQuery.Wire.Execute` | go/gizmosql/driver.go:442-471 | the answer for every statement and failure: a plan, an ingest or any other text hands out a stream, planned and not run, that carries the work; a keyword statement or one with RETURNING is complete with its work in the log; only a text the classifier panics on is refused, and what is refused logs nothing |
| `ExecuteQuery.Wire.ExecuteUpdate` | go/gizmosql/driver.go:429-440 | the delegated update is done when the call returns; with geometry columns bound, the redirected ingest, then the statements of the geometry ingest up to the first that fails, then the drop; the answer is ok exactly if the ingest and all these statements succeeded |
| `ExecuteQuery.Wire.HelpUntilFailure` | go/gizmosql/geoingest.go:124-172 | the statements go out in order and the loop stops behind the first that fails; ok exactly if none does |
| `ExecuteQuery.Wire.Drain` | go/gizmosql/driver.go:462-470 | planning a statement and reading it to the end has the effect of executing it at once, also when the reading breaks |
| `ExecuteQuery.Wire.Stream` | go/gizmosql/driver.go:470-481 | planning executes nothing; the work is left to the reader |
| `ExecutionOutcomes.RouteExactly` | go/gizmosql/driver.go:442-471 | which statements go which way, for all texts: delegated, panicking, by update, drained, or streamed |
| `ExecutionOutcomes.QueryStreams` | go/gizmosql/driver.go:445-451 | a query that streams leaves the log alone and hands out a planned stream with its work, current on the statement; it promises nothing eager |
| `ExecutionOutcomes.StreamedWorkRunsExactlyWhenRead` | go/gizmosql/driver.go:442-481 | in every run, with any failures, its work is in the log, once per bound row, exactly if the stream was read or the server began by itself since |
| `ExecutionOutcomes.QueryRunsAtOnce` | go/gizmosql/driver.go:453-469 | a keyword statement, or one with RETURNING, has its work in the log when the call returns |
| `ExecutionOutcomes.UpdateRunsAtOnce` | go/gizmosql/driver.go:429-440 | and so has every update |
| `ExecutionOutcomes.HelperRunsAtOnce` | go/gizmosql/geoingest.go:75-86 | and every statement of the geometry ingest |
| `ExecutionOutcomes.GivingUpCancelsExactly` | go/gizmosql/cancel.go:169-207 | releasing a streaming result, or closing its statement, sends an implicit cancel exactly if its end was not seen and none was sent before |
| `ExecutionOutcomes.CloseSettlesTheLastResult` | go/gizmosql/driver.go:264-276 | in every run, a Close after a query that streams leaves the result exhausted or cancelled for good, and no second cancel follows |
| `Cancel.NextKeepsInv` | go/gizmosql/cancel.go:169-215 | every atomic step of every thread keeps the protocol invariant |
| `Cancel.AtMostOneCancelPerPhase` | go/gizmosql/driver.go:212-276 | under every interleaving at most one implicit cancel is sent per call phase and per stream phase |
| `Cancel.ExplicitFirstMeansNoImplicit` | go/gizmosql/driver.go:237-253 | a phase whose flag an explicit CancelQuery stored first never gets an implicit cancel |
| `Cancel.ExhaustedStreamsAreNotCancelled` | go/gizmosql/cancel.go:169-180 | a stream exhausted before any Close and any Release of its last reference began gets zero implicit cancels, at every later moment of every interleaving |
| `Cancel.ClaimedMeansSent` | go/gizmosql/cancel.go:174-207 | once all threads are done, every claimed phase had its cancel sent, by the thread that claimed it |
| `Cancel.NoBlindWindow` | go/gizmosql/driver.go:218-228 | from the start of an execution until it is settled, its call is in flight unclaimed or its stream is current and unclaimed |
| `Cancel.CloseNeverMissesTheExecution` | go/gizmosql/driver.go:264-276 | a Close that starts at any moment of an execution never ends with it left running uncancelled, whatever other threads do |
| `Cancel.CloseSettlesTheStream` | go/gizmosql/driver.go:269-275 | a Close that starts once the call has returned and its result is read ends with the stream itself exhausted or cancelled |
| `Cancel.ReferencesAlwaysMatch` | go/gizmosql/cancel.go:184-207 | the wrapper count equals the references on the inner reader up to exactly the threads between the two updates |
| `CancelOutcomes.ReadToTheEndIsNeverCancelled` | go/gizmosql/cancel.go:169-215 | under every interleaving, a result whose end some read has reported before any Close and any Release of the last reference began never gets an implicit cancel |
| `CancelOutcomes.GivenUpMeansCancelled` | go/gizmosql/cancel.go:174-207 | once all threads are done, a result nobody refers to and whose end nobody saw was cancelled, by one implicit request or by an explicit one |
| `CancelOutcomes.CancelQueryComesFirst` | go/gizmosql/driver.go:237-251 | after a CancelQuery that comes before any Close or last Release, the current result is marked and never gets an implicit cancel |
| `CancelOutcomes.NobodyWaits` | go/gizmosql/driver.go:212-276 | in every reachable state every thread that is not done can take a step, each brings it nearer to its end, and six are enough |
| `CancelOutcomes.AnyoneMayBegin` | go/gizmosql/driver.go:212-276 | every operation can begin in every state, by whoever holds what it needs |
| `CancelOutcomes.ReadThenReleased` | go/gizmosql/cancel.go:202-215 | a run in which a result is read to its end and released, without a cancel |
| `CancelOutcomes.ReleasedUnread` | go/gizmosql/cancel.go:202-207 | a run in which a result is released unread, with one |
| `CancelReader.SessionCanceler.ObserveConn` | go/gizmosql/cancel.go:68-76 | the last connection that is not nil counts |
| `CancelReader.SessionCanceler.Cancel` | go/gizmosql/cancel.go:96-131 | the status for every way the request can fare, and whether a request went out |
| `CancelReader.ExecState.Abandoned` | go/gizmosql/cancel.go:174-178 | a cancel is due exactly once and only before the end of the result |
| `CancelReader.Statement.BeginCall` | go/gizmosql/driver.go:218-223 | a new marker is in flight |
| `CancelReader.Statement.EndCall` | go/gizmosql/driver.go:225-228 | only the own marker is cleared |
| `CancelReader.Statement.ClaimInFlight` | go/gizmosql/driver.go:230-235 | claims a call in flight once |
| `CancelReader.Statement.CancelQuery` | go/gizmosql/driver.go:237-251 | both phases are marked, one request goes out, and the status is the one of the request |
| `CancelReader.Statement.CancelAbandoned` | go/gizmosql/driver.go:253-262 | best effort, one request at most |
| `CancelReader.Statement.Close` | go/gizmosql/driver.go:264-276 | one request if the call in flight or the current stream still needs one, none otherwise |
| `CancelReader.Statement.TrackStreaming` | go/gizmosql/driver.go:473-481 | the new execution state is current and the reader starts with one reference |
| `CancelReader.Reader.Retain` | go/gizmosql/cancel.go:197-200 | both counts go up by one |
| `CancelReader.Reader.Release` | go/gizmosql/cancel.go:202-207 | both counts go down; the last release asks for a cancel exactly if one is due |
| `CancelReader.Reader.Next` | go/gizmosql/cancel.go:209-215 | the end of the result is remembered |
| `CancelReader.OneExecution` | go/pkg/include/arrow-adbc/adbc.h:2006-2007 | for any number of batches and reads, and Close before or after the release: exactly one cancel if the end of the result was not seen, none otherwise |
| `CancelReader.End` | go/gizmosql/cancel.go:202-207 | releasing the last reference and closing the statement, in either order, sends one cancel if the end of the result was not seen, and none otherwise |
| `CancelSteps.CloseAlone` | go/gizmosql/driver.go:264-276 | from every reachable state, the atomic steps of an uninterrupted Close lead to one stated state: the unclaimed call claimed, or else the current stream if a cancel is due |
| `CancelSteps.ReleaseAlone` | go/gizmosql/cancel.go:202-207 | the same for Release: one reference fewer on both counts, and on the last one the stream claimed if a cancel is due |
| `CancelSteps.CancelQueryAlone` | go/gizmosql/driver.go:237-251 | the same for CancelQuery: stream and call marked, one explicit request |
| `CancelSteps.CloseIsItsSteps` | go/gizmosql/driver.go:264-276 | objects that represent a state of the interleaved machine, before the method Close, represent the state its uninterrupted steps lead to after it, and as many requests go out |
| `CancelSteps.ReleaseIsItsSteps` | go/gizmosql/cancel.go:202-207 | the same for Release |
| `CancelSteps.CancelQueryIsItsSteps` | go/gizmosql/driver.go:237-251 | the same for CancelQuery |
| `CancelSteps.NextIsItsSteps` | go/gizmosql/cancel.go:209-215 | the same for Next: its one step when it reports the end, which is then remembered, and otherwise nothing |
| `CancelSteps.RetainIsItsSteps` | go/gizmosql/cancel.go:197-200 | the same for Retain |
| `CancelSteps.ExecuteIsItsSteps` | go/gizmosql/driver.go:218-228 | the same for the bracket around an execute call and the stream it may hand out |
| `ErrorHeap.ErrorC.ReleaseSimpleError` | go/pkg/gizmosql/utils.c:32-36 | frees the message and nothing else |
| `ErrorHeap.ErrorC.ReleaseErrWithDetails` | go/pkg/gizmosql/utils.c:38-59 | frees exactly the blocks of the error, the shared message once, and clears the struct; does nothing to any other error |
| `ErrorHeap.ErrorC.FreeEntries` | go/pkg/gizmosql/utils.c:46-49 | the loop frees every key and every value once |
| `ErrorHeap.ErrorC.ErrRelease` | go/pkg/gizmosql/utils.h:160-165 | whatever kind of error is there, exactly its blocks are freed |
| `ErrorHeap.ErrorC.SetErr` | go/pkg/gizmosql/driver.go:82-102 | the old error is freed, one new block holds the message, the prefix is not doubled |
| `ErrorHeap.ErrorC.StoreDetails` | go/pkg/gizmosql/driver.go:151-164 | keys, values and lengths of all details are in place, serialization failures replaced by their text |
| `ErrorHeap.ErrorC.SetErrWithDetails` | go/pkg/gizmosql/driver.go:104-170 | which of the three ways is taken, the vendor code afterwards, and the ledger; an error that was still there is lost exactly on the details path |
| `ErrorHeap.LoseAnError` | go/pkg/gizmosql/driver.go:104-150 | storing any message and then any error with details over it leaves exactly the block of the message behind after the release |
| `ErrorHeap.ErrorC.ErrToAdbcErr` | go/pkg/gizmosql/driver.go:172-185 | the status, and which error is then shown |
| `ErrorHeap.ErrorC.GetDetailCount` | go/pkg/gizmosql/utils.c:61-68 | the number of details that were stored, zero for any other error |
| `ErrorHeap.ErrorC.GetDetail` | go/pkg/gizmosql/utils.c:70-86 | for every index the key, value and length that were stored, the empty detail out of range |
| `ErrorHeap.CStream.MaybeError` | go/pkg/gizmosql/driver.go:327-371 | errno is zero exactly without an error; the earlier error is freed, the new one is shown with its details, and every other block is as before |
| `ErrorHeap.CStream.Release` | go/pkg/gizmosql/driver.go:424-428 | frees exactly what the stream owns |
| `ErrorHeap.ReadsThenRelease` | go/pkg/gizmosql/driver.go:386-430 | any sequence of failing and succeeding reads followed by the release leaves the heap as it was |
| `ErrorOutcomes.ErrnoTellsStatus` | go/pkg/gizmosql/driver.go:337-371 | which ADBC statuses each errno stands for, by number and in both directions |
| `ErrorOutcomes.PrefixedOnce` | go/pkg/gizmosql/driver.go:79-102 | a message without formatting directives carries the prefix exactly once, also when passed on |
| `ErrorOutcomes.PrefixIsText` | go/pkg/gizmosql/driver.go:79 | the bytes of the prefix |
| `ErrorOutcomes.ReadDetails` | go/pkg/gizmosql/utils.c:61-86 | every detail, by the two getters, as it was stored |
| `ErrorOutcomes.ReportThenRead` | go/pkg/gizmosql/driver.go:104-170 | reporting any error to any caller, reading it back and releasing it: all details are read exactly if they were asked for, which message and vendor code are seen otherwise, and the heap is as before |
| `Partitions.SlicesTile` | go/pkg/gizmosql/driver.go:1844-1849 | the recorded slices are consecutive from zero to the end of the buffer |
| `Partitions.SlicesRoundTrip` | go/pkg/gizmosql/driver.go:1844-1849 | two different slices share no byte and each holds its id |
| `Partitions.TotalLength` | go/pkg/gizmosql/driver.go:1835-1838 | the size of the buffer |
| `Partitions.PartitionsC.PackOne` | go/pkg/gizmosql/driver.go:1844-1849 | one round extends the packed prefix and touches no other block |
| `Partitions.PartitionsC.Pack` | go/pkg/gizmosql/driver.go:1831-1851 | the packing panics if and only if there are more ids than announced partitions or the last id is empty; otherwise pointers, lengths and buffer describe the ids, and the rest of the heap is as before |
| `Partitions.PartitionsC.PartitionsReadBack` | go/pkg/gizmosql/driver.go:1844-1849 | reading any recorded partition gives its id |
| `Partitions.PartitionsC.Release` | go/pkg/gizmosql/driver.go:1788-1799 | frees the three blocks once; without private data it does nothing |
| `Partitions.PackThenRelease` | go/pkg/gizmosql/driver.go:1788-1851 | what stays behind after packing and two releases, for every input: nothing, or the two arrays of an empty result when calloc answers NULL, or all blocks of a packing that panicked |
| `HandleRuns.StepKeepsLinkedExactly` | go/pkg/gizmosql/driver.go:444-453 | a step keeps the bijection of handles and non-nil fields if and only if it is no successful execution, and no successful connection call with a result, into a stream whose field is not nil |
| `HandleRuns.LosingAHandleIsReachable` | go/pkg/gizmosql/driver.go:444-453 | at any address, six calls from the initial state lead to a connection call into a stream that still holds a result, and that one leaves a handle in the table which no field holds |
| `HandleRuns.StepKeepsCounted` | go/pkg/gizmosql/driver.go:415-453 | every step keeps: a reader is held once while its stream lives and not afterwards |
| `HandleRuns.HandlesMatchStructs` | go/pkg/gizmosql/driver.go:584-633 | the bijection, the kinds and the reader counts after every run that exports into empty streams |
| `HandleRuns.NothingIsDeletedTwice` | go/pkg/gizmosql/driver.go:606-633 | after any run at all, the next call deletes a live handle or none, no stream callback crashes, and poison comes only from a panic of the Go driver or a NULL struct |
| `HandleRuns.DeletedHandlesStayDeleted` | go/pkg/gizmosql/driver.go:606-633 | in any run at all, a handle that has left the table never comes back |
| `HandleRuns.StepKeepsRooted` | go/pkg/gizmosql/driver.go:444-453 | every step, an export over a live stream included, keeps: non-nil fields hold live handles of their kind, no two share one, and a live stream handle holds its reader once |
| `HandleRuns.PoisonedCallsFail` | go/pkg/gizmosql/driver.go:187-316 | every guarded entry point of a poisoned driver fails and changes nothing |
| `HandleRuns.PoisonFreezesHandles` | go/pkg/gizmosql/driver.go:187-197 | poison is final over every run, and no database, connection or statement handle is made or deleted after it |
| `HandleOutcomes.StreamReleaseGivesUp` | go/pkg/gizmosql/driver.go:415-430 | in every reachable state, poisoned or not: the struct is empty, the handle and the one reference to the reader are gone, and everything else is as before |
| `HandleOutcomes.ReleaseGivesUp` | go/pkg/gizmosql/driver.go:606-633 | the same for a database, connection or statement, whatever closing it comes to, with the exact status and poison |
| `HandleOutcomes.ReleasingAllLeavesTheLost` | go/pkg/gizmosql/driver.go:606-633 | after any run without a panic, releasing every struct in any order leaves exactly the handles that exports over live streams had lost |
| `HandleOutcomes.ReleasingAllLeavesNothing` | go/pkg/gizmosql/driver.go:606-633 | so without such exports it leaves an empty table and only zero counts |
| `HandleOutcomes.NewGives` | go/pkg/gizmosql/driver.go:585-603 | when a new database or connection struct succeeds, exactly, and the fresh handle it then holds |
| `HandleOutcomes.DatabaseInitOpens` | go/pkg/gizmosql/driver.go:557-582 | when initialization succeeds, exactly, and that the object is then open |
| `HandleOutcomes.ConnectionInitOpens` | go/pkg/gizmosql/driver.go:972-1015 | the same for a connection, open exactly also after a late failure or panic |
| `HandleOutcomes.StatementNewGives` | go/pkg/gizmosql/driver.go:1450-1478 | when a new statement succeeds, exactly, and the fresh handle it then holds; a failure changes no struct |
| `HandleOutcomes.ExecutionGivesResult` | go/pkg/gizmosql/driver.go:1551-1585 | when an execution succeeds, exactly, and that its result is then in the stream, under a fresh handle that alone holds the reader |
| `HandleOutcomes.ReadGivesResult` | go/pkg/gizmosql/driver.go:1127-1288 | the same for the six connection calls |
| `HandleOutcomes.StreamsCanBeRead` | go/pkg/gizmosql/driver.go:374-413 | a stream answers exactly while it holds a result |
| `HandleOutcomes.PanicsPoisonExactly` | go/pkg/gizmosql/driver.go:187-197 | a step poisons exactly if the driver is reached and panics, or a NULL struct is to be filled |
| `HandleOutcomes.StatusTells` | go/pkg/gizmosql/driver.go:187-316 | the status of every guarded call: Internal for a panic, the error of the driver where it was reached and failed, InvalidState for what never got that far |
| `Handles.Driver.Poison` | go/pkg/gizmosql/driver.go:187-197 | the flag is set and nothing else |
| `Handles.Driver.ExportRecordReader` | go/pkg/gizmosql/driver.go:444-453 | a new handle in the stream, one more reference on the reader |
| `Handles.Driver.CheckAlloc` | go/pkg/gizmosql/driver.go:289-303 | accepts exactly an unpoisoned driver and an allocated struct |
| `Handles.Driver.CheckInit` | go/pkg/gizmosql/driver.go:305-316 | accepts exactly an allocated and initialized one |
| `Handles.Driver.DatabaseNew` | go/pkg/gizmosql/driver.go:585-603 | new state, status and invariants for every input |
| `Handles.Driver.DatabaseInit` | go/pkg/gizmosql/driver.go:557-582 | the same |
| `Handles.Driver.DatabaseRelease` | go/pkg/gizmosql/driver.go:606-633 | the same; the handle is gone even if closing panics |
| `Handles.Driver.ConnectionInit` | go/pkg/gizmosql/driver.go:972-1015 | the same; options that fail or panic late leave the connection initialized |
| `Handles.Driver.StatementNew` | go/pkg/gizmosql/driver.go:1450-1478 | the same; poison is checked before the struct, the struct before the connection |
| `Handles.Driver.Release` | go/pkg/gizmosql/driver.go:1018-1047 | connection and statement release, with a failing or panicking Close |
| `Handles.Driver.ExecuteQuery` | go/pkg/gizmosql/driver.go:1551-1585 | new state and status for every input; the bijection survives exactly if the call fails or the stream was empty |
| `Handles.Driver.ReadConnection` | go/pkg/gizmosql/driver.go:1127-1288 | the six connection calls that return a result stream: new state and status for every input; the bijection survives exactly if the call fails or the stream was empty |
| `Handles.Driver.StreamRelease` | go/pkg/gizmosql/driver.go:415-430 | a stream that holds a result is emptied, its handle deleted and its reader given up, and nothing else changes; any other is left alone |
| `GeoCatalog.GeoNamesListed` | go/gizmosql/geoingest.go:39-51 | a name is listed exactly if some bound field carries it with a geoarrow extension |
| `GeoCatalog.ConvertUnion` | go/gizmosql/geoingest.go:134-141 | converting columns one set after another is converting all of them, so the order cannot matter |
| `GeoCatalog.LandingConverges` | go/gizmosql/geoingest.go:117-141 | whatever columns the server itself landed as geometry, converting the remaining BLOB geo columns gives the same table |
| `GeoCatalog.MeantColumnwise` | go/gizmosql/geoingest.go:16-33 | that table column by column: binary geo columns are geometry, all others, BLOB columns included, are as bound |
| `GeoCatalog.MaterializedAsAsked` | go/pkg/include/arrow-adbc/adbc.h:801-823 | when the insert reaches its target, the statements of each mode do what the standard asks, errors included, if and only if the target does not exist with more columns than the data |
| `GeoCatalog.MaterializedAsAskedExactly` | go/pkg/include/arrow-adbc/adbc.h:801-823 | with rows to store, a run that succeeds gives what the standard asks if and only if the insert goes to the table the options name and the schemas match |
| `GeoCatalog.RowsGoToTheTemporaryTable` | go/gizmosql/geoingest.go:152-163 | for any name, columns and rows: with a temporary and another table of that name, both appending modes store the rows in the temporary one |
| `GeoCatalog.MaterializedMeetsModeExactly` | go/gizmosql/geoingest.go:142-166 | for all inputs: the statements give what the standard asks, errors included, if and only if a condition on the catalog, the mode, the target and the columns holds |
| `GeoCatalog.AppendAsAskedExactly` | go/pkg/include/arrow-adbc/adbc.h:806-808 | an append by name agrees with the append of the standard if and only if the table does not exist with columns the data lack |
| `GeoCatalog.NarrowDataAreAppended` | go/pkg/include/arrow-adbc/adbc.h:806-823 | one-column data are appended to a two-column table in both appending modes, where the standard asks for an error |
| `GeoCatalog.AppendedAsIs` | go/gizmosql/geoingest.go:152-163 | rows with exactly the columns of the table are appended as they are |
| `GeoModes.ModesAsTold` | go/gizmosql/geoingest.go:142-166 | by the text of each mode: replace stores the new table whatever was there, append keeps the old rows and adds the new ones, create_append does either, any other text refuses an existing table; and when exactly each can be done |
| `GeoModes.OnlyReplaceLosesRows` | go/pkg/include/arrow-adbc/adbc.h:801-823 | no other mode takes a row from any table |
| `GeoIngest.Session.ExecSql` | go/gizmosql/geoingest.go:75-86 | a statement that fails changes nothing |
| `GeoIngest.BlobTypedColumns` | go/gizmosql/geoingest.go:176-213 | exactly the wanted columns whose type is BLOB, each once, whatever the order of the listing |
| `GeoIngest.RestoreGeometry` | go/gizmosql/geoingest.go:134-141 | all listed columns are converted and nothing else; without faults it fails exactly on unreadable values |
| `GeoIngest.StatementsRun` | go/gizmosql/geoingest.go:142-166 | the statements built from quoted names act on the tables the options name |
| `GeoIngest.Materialize` | go/gizmosql/geoingest.go:142-172 | the mode is carried out, or the catalog is untouched, except that create_append has made its empty target exactly if the insert was what failed |
| `GeoIngest.ConvertInterim` | go/gizmosql/geoingest.go:124-141 | the interim table is brought to what is meant, or nothing else has changed; without faults this fails exactly on unacceptable data |
| `GeoIngest.Transfer` | go/gizmosql/geoingest.go:124-172 | conversion and mode together, with what a failure can have left |
| `GeoIngest.Ingest` | go/gizmosql/geoingest.go:112-174 | the whole run of requests, every way out after the bulk ingest through the drop |
| `GeoIngest.DropInterim` | go/gizmosql/geoingest.go:121-123 | drops the interim table and nothing else, silently |
| `GeoIngest.ListedConverges` | go/gizmosql/geoingest.go:124-141 | after converting the listed columns the table is the one meant, and the data are acceptable exactly if landing and conversion can be done |
| `GeoIngest.ExecuteGeoIngest` | go/gizmosql/geoingest.go:88-174 | for every mode, landing, listing order and failure of any request: the result catalog on success with the row count, the frame on failure with its one exception tied to a failed insert, when the interim table can remain, when a run without faults succeeds, exactly when the result is what the standard asks of the mode, and, by the option text, which table keeps its rows, gets the new ones or is replaced |
| `OAuth.Poll` | go/gizmosql/oauth.go:205-244 | with a positive interval it ends for every server, and (requests - 1) * interval is at most the timeout; all answers but the last are pending; the first event other than a pending answer in time (another answer, the timeout, a cancelled wait) decides, and a complete answer with a token gives that token |
| `OAuth.Passes` | go/gizmosql/oauth.go:208-244 | with a positive interval the deadline passes on every clock |
| `OAuth.WithDefaults` | go/gizmosql/oauth.go:82-94 | exactly the values left at zero are replaced |
| `OAuth.PollWithDefaults` | go/gizmosql/oauth.go:165-244 | with nothing configured at most 301 requests are made |
| `OAuth.NoBoundWithoutInterval` | go/gizmosql/oauth.go:82-94 | an interval that is not positive leaves room for any number of polls within any timeout |
| `OAuth.ManyRequests` | go/gizmosql/oauth.go:208-244 | a run of the loop against a server that stays pending, with more than any given number of requests |

## Left out

- Dollar-quoted strings, escape strings and nested block comments: the tokenizer the classifier is compared with knows the SQL quotes and both comment forms only.
- Text that is not valid UTF-8, and case mappings other than those that can produce an ASCII letter.
- SqlRefinement.ClassifierOnTokens: is stated for orderly texts whose first two pieces are not one of the two non-ASCII letters that upper-case to ASCII; for each part of that hypothesis `SqlLimits` or `SqlWitnesses` has texts outside it on which the statement is false, which does not say that it is false on all of them.
- Statements.Statement.SetTypedOption: takes byte, integer and double values only, as the three setters do; getters and the refusal of unsupported option kinds are delegation and not modelled.
- SqlPlainTexts.PlainReturning: is about texts without quotes and comment openers; `SqlRefinement.ReturningMeansReturningToken` has the others, on tokens.
- StatementIngest.IngestIsExecutedExactly: what the upstream statement does with rows bound for an ingest on a prepared statement is as the comments of the code describe it.
- Statements.Statement.Bind: stands for Bind and BindStream; reading the stream is the unseen upstream code.
- StatementReuse.ReusedStatementIsFresh: says nothing about ingest options other than the target, which the code does not replay; `StatementReuse.ReusedStatementIsNewExactly` says when they agree too.
- Execution.EagerEffectsExactlyOnce: is about one client thread; an ingest through ExecuteQuery is lazy by design and not an eager write.
- Execution.KeywordStatementsRunEagerly: keyword means the code's own first-field test; `ExecutionOnTokens.KeywordStatementIsEagerExactly` says it with keyword tokens.
- ExecuteQuery.Wire.ExecuteUpdate: takes the list of statements a geometry ingest sends, and the drop, as given; which they are is `GeoIngest.ExecuteGeoIngest`.
- Cancel.AtMostOneCancelPerPhase: any number of threads, but only one of them executes at a time; a cancel aimed at another statement of the session is not modelled, cancelling is per session by design.
- Cancel.CloseNeverMissesTheExecution: assumes that the statement has its session canceler; without one nothing is sent (`CancelReader.Statement.CancelAbandoned`).
- CancelOutcomes.NobodyWaits: counts steps, not time; a blocking call and a request are one step each, which returns.
- CancelSteps.CancelQueryIsItsSteps: is for a statement with its session canceler; without one the method refuses and the machine has no such case. That as many requests go out is for a request that can be built on a known connection, for all three methods.
- CancelReader.SessionCanceler.Cancel: how the request fares is an input; the request itself and its timeout are not part of the model.
- ErrorHeap.ErrorC.SetErr: what Sprintf makes of the format is a parameter, so a message with a percent sign is whatever Sprintf makes of it; a NULL error argument, for which the code does nothing, is not modelled.
- ErrorHeap.ErrorC.GetDetailCount: the count is not truncated to a C int, and keys are byte sequences, not NUL-terminated.
- Partitions.PartitionsC.Pack: the error returns before the packing (a failing execution, a NULL output struct) are not part of it, nor are entries beyond the ids, which stay uninitialised.
- Handles.Driver.Release: the cancellation of the context of the object and the forced garbage collection are left out, as they touch neither handles nor fields.
- HandleOutcomes.ReleasingAllLeavesTheLost: is about closings that do not panic; after a panic the guarded handles stay (`HandleRuns.PoisonFreezesHandles`).
- Copies of C structs made by the caller, and structs whose memory was not zeroed before first use.
- GeoIngest.ExecuteGeoIngest: requires that no table has the random interim name and that the target has another name; a request that fails is taken to have changed nothing, implicit casts between column types in an insert by name are taken to fail, and data match a table if they have the same columns with the same types in whatever order.
- GeoIngest.BlobTypedColumns: the refusal of a listing whose names are not strings counts as a failing request.
- Names that resolve to one table on the server: a table given by its name alone and the same table given with the schema or catalog it is found in are two tables here. For an unqualified name the model looks among temporary tables first and nowhere else.
- Column names that differ in case only, column defaults and constraints of existing tables.
- OAuth.Poll: without a positive interval, that the timeout passes at last is assumed of the clock; the discovery of the server, the browser, and the parsing of answers are left out; a broken answer is one that ended the flow.
- gRPC, TLS, logging, protobuf building, driver-table initialisation, the generated C forwarders, what the metadata calls answer (only the stream they fill is modelled), GetTableSchema, the handles that Arrow's own C export makes, and the Python package: plumbing over libraries that cannot be seen, or easy members.
