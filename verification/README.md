# libpqxx: a verified model of its stateful core

libpqxx is the C++ client library for PostgreSQL that this program is built on. The parts of it that are hard to get right keep state across calls: the query pipeline, cursors and cursor streams, the transaction life cycle, the COPY streams. This project models them in Dafny, in the form they have in the source (classes whose methods change fields, a linked list, in-place buffers, loops), and proves what they promise over whole runs. The text conversions that they rest on (integers, dates, encodings, the end of a query) are modelled and proved too.

| file | models |
|---|---|
| `Backend.dfy` | the database session: any deterministic server, given by three functions |
| `PipelineState.dfy`, `Pipeline.dfy`, `PipelineRuns.dfy` | `libpqxx/src/pipeline.cxx` |
| `SqlCursor.dfy` | `libpqxx/src/sql_cursor.cxx`, random access in `libpqxx/src/cursor.cxx` |
| `CursorStream.dfy`, `CursorRuns.dfy` | streams and iterators in `libpqxx/src/cursor.cxx` |
| `Transaction.dfy` | `libpqxx/src/transaction_base.cxx`, `libpqxx/src/transaction.cxx`, `libpqxx/src/robusttransaction.cxx` |
| `Encodings.dfy`, `CopyFormat.dfy`, `CopyStreams.dfy` | the character finder, `libpqxx/src/stream_to.cxx`, `libpqxx/src/stream_from.cxx` |
| `QueryEnd.dfy` | `find_query_end` in `libpqxx/src/sql_cursor.cxx` |
| `Strconv.dfy`, `Dates.dfy` | integers in `libpqxx/src/strconv.cxx`, dates in `libpqxx/src/time.cxx` |

`dafny verify dfyconfig.toml` checks everything.

## Main results

- **Pipeline.** In every run of insert, retain, resume, complete, flush and retrieve (`RunPipeline`), failures and flushes included: ids are numbered consecutively; the reply to a retrieval is unknown exactly if the id is not live, refused exactly if it is at or above the error mark, and otherwise a result under that id; the mark never rises and the statement right below it failed. The session's own records of what the server ran and refused account for every result: statements ran in id order, each at most once, and a result is what the id's own statement answered, but for the one query at which the replay of a refused batch ended, which gets the message of the refusal. If the statements all succeed one at a time and nothing is flushed, every answer of the run is the answer of a client that executes each statement the moment it is inserted: batching, the dummy query and the order of retrieval cannot be seen. `Complete` states exactly when an error is recorded, and every run says how far the queries have been sent: one that still waits when it is flushed never runs. For every timing, queries wait longer than the retention limit allows only if the server was busy when it was last asked, or an error is recorded.
- **Cursors.** A client that only sees row counts knows where the server's cursor is, at all times for a cursor it created, and from the first hit on the beginning for one it adopted (`RunCursor`, `ReportsTrue`, `AdoptedKnown`). Random access does not depend on history (`Retrieve`).
- **Streams.** Any number of iterators on one forward-only cursor behave as if each read the result set directly, but for those made after their block was read, which show nothing. The server's record of the rows it handed out is strictly increasing, so no row is fetched twice, and holds exactly the rows that belong to the block of a dereferenced iterator or of one behind it (`RunIterators`). The intrusive list stays doubly linked, acyclic and exact.
- **Transactions.** Over every life of a transaction (`RunTransaction`), a final status is final; COMMIT goes out at most once, and only when asked for with no focus open and no error pending; what each operation throws and reports, and what status it leaves, is what a reference over the operations says: `Law` gives the exception, the status, the commands and the notices of every operation as functions of what becomes of the commands and lookups, so that the accepted pending errors are the delivered ones, each once and in order (`EachErrorOnce`); and a status of committed is true. `Commit` states exactly when a plain and a robust commit succeed, end in doubt or count as aborted, and when that is wrong.
- **COPY.** Parsing a written row gives back its fields, in all four encoding groups, with in-place unescaping that never overtakes its input (`CopyStreams.WriteAndRead`, `ParseLine`). The format is also pinned byte by byte (`WireSpecial`, `WirePlain`, `WireNull`, and the row in `KnownRow`).
- **Texts.** Integers of every type and dates of every year print inside their buffers and read back (`Strconv.WriteAndRead`, `Dates.WriteAndRead`), and only the canonical texts are printed (`CanonicalText`). A failing parse says which error it is by what stands at the front of the text (`Strconv.FromString`).

## What the code does differently from what one may expect

- `flush()` keeps a recorded error, although `libpqxx/include/pqxx/pipeline.hxx:97-107` says that error states are cleared. The model follows the code (`Flush`, and the run `FlushKeepsError`).
- A statement that fails as the last one of its batch records no error; one that fails before that does (`Complete`, `LastFailureUnrecorded`). The query at which the replay of a refused batch ends is handed out with the message that the batch was refused with, not its own; every other failure carries its own (`Retrieve` and `RunPipeline` state this exactly, `RefusalHidesOwnError` is a concrete run).
- An adopted cursor that stands at an end already reports its first displacement towards that end one step too large, and only then (`Adjust`, `PhantomStep`).
- `stateless_cursor_retrieve` from one past the last row back to an existing row returns one row too many; `Retrieve` states the exact condition and `RetrievePastEnd` is the smallest case.
- A new iterator on a stream shows its block if and only if the block at the requested position has not been read yet, and nothing otherwise (`FirstLook`, `LateIterator`).
- `abort()` with a pending error reports the error and does not send ROLLBACK (`Abort`, `AbortWithPending`).
- If the connection breaks on COMMIT but comes back, a status lookup says "aborted" and the ROLLBACK that follows succeeds, then a robust transaction counts as committed. `Commit` proves that with truthful lookups this happens exactly under `Misreports`, which `SettleRolledBack` ties to the lookups, and `MisreportedCommit` is a concrete case. With a connection that stays lost it cannot happen.
- The other way round, a commit that took effect counts as aborted exactly under `Denies`: a robust COMMIT whose completion is unknown on a working connection, or lookups that throw, make no sense or end in a failing ROLLBACK, or a plain COMMIT that loses a connection which comes back (`Commit`, `SettleFails`, and the run `DeniedCommit`).
- Robust transactions never register with their connection (`Transactions.Transaction.constructor`).
- A row without fields is written as an empty line, which reads as one empty text (`RoundTripExactly`).
- A row that fails on a badly encoded field leaves what it has written so far in the buffer, and the next row is sent with that in front (`WriteRow`, `LeftoverFields`).
- The two scans of `find_query_end` differ exactly where a multibyte character ends in a byte that looks like whitespace or a semicolon (`ScansAgree`, and the input in `ScansDiffer`).
- A date whose year is beyond `std::chrono::year` is not refused (`YearOutOfRange`), and a month beyond 19 is printed as one from 10 to 19 (`MonthPrints`).

## Assumptions

- The server is deterministic and each inserted text is one statement. A batch with the dummy in front that is refused as a whole has a statement that also fails alone, before and after the refused attempt (`Backend.Faithful`).
- Whether a result is at hand (`is_busy`) is a function of how often the connection was asked, which is a parameter; the proofs hold for every such timing.
- Cursors have fewer rows than the count that stands for ALL.
- What becomes of each command of a transaction, and of each status lookup, is a parameter; so is whether a broken connection can come back. Notice handlers do not throw.

## Model

| member | source | states |
|---|---|---|
| `Backend.Session.StartExec` | libpqxx/src/pipeline.cxx:212-219 | a batch runs statement by statement and stops at the first failure, or is refused as a whole on its dummy; what was run and what was refused is recorded |
| `Backend.Session.GetResult` | libpqxx/src/pipeline.cxx:239-241 | results come in order, then the null that closes the command |
| `Backend.Session.Exec` | libpqxx/src/pipeline.cxx:351-352 | a statement run alone answers as the server does at this point of its history, and is recorded |
| `Backend.AllOkSplit` | libpqxx/src/pipeline.cxx:347-354 | running a list of statements one at a time succeeds if and only if it does in two parts |
| `Backend.AllOkAt` | libpqxx/src/pipeline.cxx:347-354 | in such a run each statement succeeds after exactly those before it |
| `PipelineState.NextKey` | libpqxx/src/pipeline.cxx:268-268 | iterator increment: the least key above, with no key between |
| `PipelineState.DistanceContiguous` | libpqxx/src/pipeline.cxx:212-213 | std::distance over the query map is the difference of ids while ids are consecutive |
| `PipelineState.TextsContiguous` | libpqxx/src/pipeline.cxx:206-211 | the batch is exactly the waiting statements, in insertion order |
| `PipelineState.RanOneJournal` | libpqxx/src/pipeline.cxx:347-354 | one statement run extends the journal as one-at-a-time execution does |
| `PipelineState.RanOneBooks` | libpqxx/src/pipeline.cxx:347-354 | the session's trace agrees with the journal, statement by statement |
| `PipelineState.RanJournal` | libpqxx/src/pipeline.cxx:205-225 | a batch extends journal and trace as one-at-a-time execution does, up to its first failure |
| `PipelineState.RanFeed` | libpqxx/src/pipeline.cxx:263-268 | the results of a batch are, in order, what the pending ids' own statements answered, and fall short only after a failure |
| `PipelineState.TookKeeps` | libpqxx/src/pipeline.cxx:251-270 | a result given to the oldest pending query keeps the invariant: it is its own; "more results than queries" and "multiple results" cannot happen |
| `PipelineState.CutKeeps` | libpqxx/src/pipeline.cxx:241-249 | a null result while queries are pending means that the id before the error mark failed, and the invariant is kept |
| `PipelineState.DummyGoodKeeps` | libpqxx/src/pipeline.cxx:304-313 | after a good dummy the pending queries' results follow |
| `PipelineState.SentKeeps` | libpqxx/src/pipeline.cxx:205-225 | sending keeps the invariant, whether the batch runs or is refused; results will fall short exactly if it is refused or fails before its end |
| `PipelineState.ReplayStarts` | libpqxx/src/pipeline.cxx:326-344 | forgetting a refused batch puts its queries back with a correct waiting count |
| `PipelineState.ReplayedGoodKeeps` | libpqxx/src/pipeline.cxx:347-354 | a replayed query that succeeds gets its own result, and the rest of the batch still has a failing one |
| `PipelineState.ReplayedBadKeeps` | libpqxx/src/pipeline.cxx:356-363 | the failing one ends the replay with the error mark right after it and the full invariant |
| `PipelineState.ReplayedBadKept` | libpqxx/src/pipeline.cxx:326-363 | the failing query keeps the error that its batch was refused with, and belongs to that batch; earlier ones keep their own results |
| `PipelineState.InsertedKeeps` | libpqxx/src/pipeline.cxx:74-84 | inserting keeps the three consecutive segments and the waiting count |
| `PipelineState.RemovedKeeps` | libpqxx/src/pipeline.cxx:413-415 | erasing an answered query keeps the invariant |
| `PipelineState.FlushedKeeps` | libpqxx/src/pipeline.cxx:117-120 | so does forgetting everything |
| `PipelineState.ErrorMeans` | libpqxx/src/pipeline.cxx:373-375 | a recorded error is the id right after a statement that failed |
| `PipelineState.AnsweredAt` | libpqxx/src/pipeline.cxx:263-268 | a kept result is the statement's own answer, unless a batch was refused and its replay ended at this very query: then it is the refusal |
| `PipelineState.OneAtATime` | libpqxx/src/pipeline.cxx:196-226 | in every reachable state, statements up to the first failure ran once, in id order, each under exactly those before it |
| `PipelineState.Undisturbed` | libpqxx/src/pipeline.cxx:236-271 | if all statements succeed one at a time, no error is ever recorded and each one answers as in that execution |
| `PipelineState.NotYetRun` | libpqxx/src/pipeline.cxx:205-225 | in every reachable state nothing at or beyond the front of sent queries has run, nor anything pending in a refused batch |
| `Pipelines.Pipeline.constructor` | libpqxx/src/pipeline.cxx:187-193 | an empty pipeline is valid |
| `Pipelines.Pipeline.SetErrorAt` | libpqxx/include/pqxx/pipeline.hxx:196-200 | the error mark is only ever lowered |
| `Pipelines.Pipeline.ObtainResult` | libpqxx/src/pipeline.cxx:236-271 | one result shrinks the pending segment by one; a null ends it and records the error; the internal errors are unreachable |
| `Pipelines.Pipeline.FillBatch` | libpqxx/src/pipeline.cxx:326-329 | every query of the batch, and no other, gets the refusal |
| `Pipelines.Pipeline.ForgetBatch` | libpqxx/src/pipeline.cxx:326-344 | the new state after a refused batch is forgotten, waiting count included |
| `Pipelines.Pipeline.ReplayOne` | libpqxx/src/pipeline.cxx:347-363 | one statement of the replay: the new fields, both ways it can go |
| `Pipelines.Pipeline.ReplayNext` | libpqxx/src/pipeline.cxx:347-363 | one round keeps earlier results; it goes on behind the query or ends with the mark right after it |
| `Pipelines.Pipeline.Replay` | libpqxx/src/pipeline.cxx:343-363 | the replay ends in its catch branch, inside the batch, with earlier results kept |
| `Pipelines.Pipeline.ObtainDummy` | libpqxx/src/pipeline.cxx:274-364 | the dummy is consumed; either results follow or the error mark lies within the batch; its internal errors are unreachable |
| `Pipelines.Pipeline.ReplayBatch` | libpqxx/src/pipeline.cxx:326-363 | a refused batch is forgotten and replayed, and the mark lies within it |
| `Pipelines.Pipeline.GetFurtherAvailableResults` | libpqxx/src/pipeline.cxx:421-427 | terminates and only receives: one result for each time the server is not busy, until it is or nothing is pending |
| `Pipelines.Pipeline.ReceiveIfAvailable` | libpqxx/src/pipeline.cxx:430-442 | nothing happens if the server is busy; otherwise results come in, the dummy's first, until it is busy or nothing is pending |
| `Pipelines.Pipeline.Receive` | libpqxx/src/pipeline.cxx:445-456 | terminates with everything before `stop` answered, or an error recorded; beyond that, as many results as come without waiting |
| `Pipelines.Pipeline.ReceiveUpTo` | libpqxx/src/pipeline.cxx:450-451 | the loop terminates at `stop` or with an error recorded |
| `Pipelines.Pipeline.SendBatch` | libpqxx/src/pipeline.cxx:205-225 | the new state after a batch is sent |
| `Pipelines.Pipeline.SendWaiting` | libpqxx/src/pipeline.cxx:205-225 | everything waiting becomes pending; the results fall short exactly if the batch is refused or fails before its end, and a refusal is recorded exactly if it is refused |
| `Pipelines.Pipeline.Issue` | libpqxx/src/pipeline.cxx:196-226 | without an error all waiting queries become pending; with one nothing is sent |
| `Pipelines.Pipeline.Enqueue` | libpqxx/src/pipeline.cxx:74-84 | the query joins the waiting ones under the next id |
| `Pipelines.Pipeline.SendIfDue` | libpqxx/src/pipeline.cxx:86-92 | up to the limit nothing happens; afterwards more queries wait only if the server was busy when it was last asked or an error is recorded; no result is lost or changed |
| `Pipelines.Pipeline.Drain` | libpqxx/src/pipeline.cxx:100-101 | nothing is left pending, and an error is recorded exactly if the results fall short |
| `Pipelines.Pipeline.SendRest` | libpqxx/src/pipeline.cxx:104-105 | nothing is left pending or waiting unless an error is recorded, exactly if the batch fails before its end |
| `Pipelines.Pipeline.Insert` | libpqxx/src/pipeline.cxx:72-95 | ids are consecutive; existing results stay; the error mark does not rise; below the limit, or with the server busy, the query only waits; the limit is exceeded only for that reason or an error |
| `Pipelines.Pipeline.Complete` | libpqxx/src/pipeline.cxx:98-108 | terminates with nothing pending, nothing waiting or an error recorded, and without an error everything answered; an error is recorded exactly if there was one, pending results fall short, or the waiting batch is refused or fails before its end |
| `Pipelines.Pipeline.Clear` | libpqxx/src/pipeline.cxx:117-120 | the new state after forgetting |
| `Pipelines.Pipeline.Flush` | libpqxx/src/pipeline.cxx:111-123 | empties the pipeline; what waits is not run: with nothing pending the server is not touched, and otherwise only pending queries can still run, in the replay of a refused batch; a recorded error stays recorded, and one is recorded exactly if there was one or the pending results fall short |
| `Pipelines.Pipeline.Retain` | libpqxx/src/pipeline.cxx:159-172 | refuses negative limits, returns the old one, keeps all results, leaves everything else alone below the new limit, and sends when it is reached |
| `Pipelines.Pipeline.Resume` | libpqxx/src/pipeline.cxx:175-184 | queries go on waiting only if the server was busy when it was last asked or an error is recorded; results at hand are taken in; all results and ids are kept |
| `Pipelines.Pipeline.IsFinished` | libpqxx/src/pipeline.cxx:139-147 | true exactly for known queries before the issued range, errors for unknown ones |
| `Pipelines.Pipeline.Await` | libpqxx/src/pipeline.cxx:377-401 | afterwards the query is answered or lies at or beyond the error mark; an answered one never becomes refused; what is left pending is so because the server is busy |
| `Pipelines.Pipeline.SendUpTo` | libpqxx/src/pipeline.cxx:377-386 | the query is sent unless an error is recorded |
| `Pipelines.Pipeline.ReceiveFor` | libpqxx/src/pipeline.cxx:388-401 | without an error the query is answered afterwards |
| `Pipelines.Pipeline.TakeOut` | libpqxx/src/pipeline.cxx:411-417 | the reply is what the client is due: the statement's own answer, or the refusal if it ended the replay of a refused batch; only that query leaves |
| `Pipelines.Pipeline.HandOut` | libpqxx/src/pipeline.cxx:407-417 | the same, and the server is not left idle |
| `Pipelines.Pipeline.Retrieve` | libpqxx/src/pipeline.cxx:367-418 | refused if and only if the id is at or above the error mark, unknown if and only if not in the map, otherwise a result: the statement's own answer, unless the id ended the replay of a refused batch, and then that refusal; all other results stay, and queries are left waiting only if the server was busy or an error is recorded |
| `Pipelines.Pipeline.RetrieveOldest` | libpqxx/src/pipeline.cxx:150-156 | the same for the least id: refused exactly if it is at or above the mark; error if and only if empty |
| `PipelineRuns.Retrieved` | libpqxx/src/pipeline.cxx:411-417 | only a retrieved id leaves; without failures the reply is the direct client's |
| `PipelineRuns.DirectReplyOk` | libpqxx/src/pipeline.cxx:196-226 | a kept result is what the direct client got |
| `PipelineRuns.SoundGrows` | libpqxx/src/pipeline.cxx:367-418 | answers given stay due for the rest of the run |
| `PipelineRuns.TraceAccounts` | libpqxx/src/pipeline.cxx:196-271 | in every reachable state the session's records account for the answers: values and messages are the own ones, but for the query right below the mark if a batch was refused, whose message is that refusal |
| `PipelineRuns.RunPipeline` | libpqxx/src/pipeline.cxx:72-184 | every run, for every timing: fair answers (ids, unknown, refused, own id), a mark that never rises, a front of sent queries that moves as the retention limit allows, results and messages that the records back exactly, and no query that was dropped by a flush among those that ran; without failures and flush, all answers equal those of executing at insertion |
| `PipelineRuns.FrontsOn` | libpqxx/src/pipeline.cxx:111-123 | queries dropped by a flush stay dropped, and never run later |
| `PipelineRuns.FlushKeepsError` | libpqxx/src/pipeline.cxx:111-123 | a concrete run: after a failure and a flush, a new query is refused |
| `PipelineRuns.HeldBackAndFlushed` | libpqxx/src/pipeline.cxx:111-172 | a concrete run: a query held back stays so under a new limit that allows it, and a flush does not run it |
| `PipelineRuns.LastFailureUnrecorded` | libpqxx/src/pipeline.cxx:241-249 | a concrete run: a failing last statement records no error and is handed out with its own message |
| `PipelineRuns.RefusalHidesOwnError` | libpqxx/src/pipeline.cxx:326-363 | a concrete run: the query at which a replay ends is handed out with the refusal, not with its own error |
| `SqlCursors.ServerCursor.Fetch` | libpqxx/src/sql_cursor.cxx:278-280 | FETCH moves the cursor, hands out the rows passed and records their indices |
| `SqlCursors.ServerCursor.Move` | libpqxx/src/sql_cursor.cxx:295-298 | MOVE moves the same way, counts the rows passed and hands out none |
| `SqlCursors.KnownStrides` | libpqxx/include/pqxx/cursor.hxx:108-132 | the counts that mean ALL and BACKWARD ALL, in figures, and what FETCH does for some counts, zero among them |
| `SqlCursors.SqlCursor.Create` | libpqxx/src/sql_cursor.cxx:129-137 | a created cursor starts with a known position |
| `SqlCursors.SqlCursor.Adopt` | libpqxx/src/sql_cursor.cxx:167-176 | an adopted one starts with an unknown position |
| `SqlCursors.SqlCursor.Adjust` | libpqxx/src/sql_cursor.cxx:215-267 | position, end mark, end position and displacement are the true ones, with the exact exception; the four internal errors are unreachable |
| `SqlCursors.SqlCursor.Fetch` | libpqxx/src/sql_cursor.cxx:270-283 | returns the rows between the old and the new position, which are the ones the server hands out, and tracks them |
| `SqlCursors.SqlCursor.Move` | libpqxx/src/sql_cursor.cxx:286-301 | returns the number of rows passed and tracks them |
| `SqlCursors.RunCursor` | libpqxx/src/sql_cursor.cxx:215-301 | every run on a created or adopted cursor reports what a client that knows the server's position reports |
| `SqlCursors.ObservedAt` | libpqxx/src/sql_cursor.cxx:215-267 | each report of a run is the step from the state before to the state after |
| `SqlCursors.KnownStaysKnown` | libpqxx/src/sql_cursor.cxx:258-259 | a position known at some point stays known |
| `SqlCursors.ReportsTrue` | libpqxx/src/sql_cursor.cxx:215-267 | from the point on where the position is known, for created and adopted cursors, positions and displacements are true, and the end mark is -1 or +1 exactly at the ends |
| `SqlCursors.AdoptedKnown` | libpqxx/src/sql_cursor.cxx:243-244 | an adopted cursor's position is known if and only if some move or fetch has hit the beginning |
| `SqlCursors.PhantomStep` | libpqxx/src/sql_cursor.cxx:224-235 | a concrete run: an adopted cursor past the end reports a step it did not make |
| `SqlCursors.ApproachReached` | libpqxx/src/cursor.cxx:58-59 | the positioning move gets where the fetch must start, from any position |
| `SqlCursors.ApproachReads` | libpqxx/src/cursor.cxx:58-60 | the fetch from there reads the slice asked for, plus the extra row in the one case |
| `SqlCursors.SliceClamped` | libpqxx/src/cursor.cxx:50-56 | clamping the end changes nothing about the slice |
| `SqlCursors.StatelessCursor.Create` | libpqxx/include/pqxx/cursor.hxx:191-199 | the position is known from the start |
| `SqlCursors.StatelessCursor.Adopt` | libpqxx/include/pqxx/cursor.hxx:205-212 | moving to the beginning makes an adopted cursor's position known |
| `SqlCursors.StatelessCursor.Size` | libpqxx/src/cursor.cxx:34-40 | the number of rows, whatever ran before; no row is fetched, and a known end is not looked for again |
| `SqlCursors.StatelessCursor.Retrieve` | libpqxx/src/cursor.cxx:43-61 | a range error exactly for a begin outside 0..size; otherwise exactly the slice, if and only if not from past the end back to an existing row; no other rows are fetched |
| `SqlCursors.RetrievePastEnd` | libpqxx/src/cursor.cxx:58-60 | the smallest case of the extra row |
| `CursorStreams.Iterator.OnStream` | libpqxx/src/cursor.cxx:197-204 | a new iterator is registered at the requested position and the stream stays in order; it is in time for its block if and only if that is still ahead |
| `CursorStreams.FirstLook` | libpqxx/src/cursor.cxx:197-204 | a new iterator shows its block if and only if the block has not been read yet, and nothing otherwise |
| `CursorStreams.LateIterator` | libpqxx/src/cursor.cxx:166-204 | a concrete run: a second iterator made at the same place shows nothing |
| `CursorStreams.Iterator.Copy` | libpqxx/src/cursor.cxx:207-214 | a copy has the same place and block and is registered |
| `CursorStreams.Iterator.Destroy` | libpqxx/src/cursor.cxx:217-222 | exactly this iterator leaves the list |
| `CursorStreams.Iterator.Advance` | libpqxx/src/cursor.cxx:235-257 | moves to the stream's next requested block; negative offsets are refused |
| `CursorStreams.Iterator.Assign` | libpqxx/src/cursor.cxx:260-283 | takes over place and block; leaves the old stream's list and joins the new one's exactly when they differ |
| `CursorStreams.Iterator.AssignSame` | libpqxx/src/cursor.cxx:264-268 | assignment within a stream keeps its order |
| `CursorStreams.Iterator.AssignOther` | libpqxx/src/cursor.cxx:275-280 | joining another stream keeps its order |
| `CursorStreams.Iterator.Refresh` | libpqxx/src/cursor.cxx:310-315 | the iterator holds exactly its block, cut to the result set, if it was not behind the cursor; all iterators up to it are served, all others left alone, and the rows fetched are exactly those still missing; the stream is done exactly if it was or the block lies beyond the last row |
| `CursorStreams.Stream.constructor` | libpqxx/src/cursor.cxx:64-81 | a fresh stream is in order |
| `CursorStreams.Stream.FetchBlock` | libpqxx/src/cursor.cxx:105-112 | reads the next block; the rows handed out are exactly those from the old to the new position |
| `CursorStreams.Stream.Ignore` | libpqxx/src/cursor.cxx:115-122 | skips rows as far as there are any |
| `CursorStreams.Stream.Forward` | libpqxx/src/cursor.cxx:125-129 | the requested position lies ahead of the cursor and a stride ahead of all iterators |
| `CursorStreams.Stream.InsertIterator` | libpqxx/src/cursor.cxx:132-140 | the list gains the iterator at its head, links mutually inverse |
| `CursorStreams.Stream.Bypass` | libpqxx/src/cursor.cxx:145-160 | all links skip the removed iterator |
| `CursorStreams.Stream.RemoveIterator` | libpqxx/src/cursor.cxx:143-163 | the list loses exactly the iterator, wherever it stood |
| `CursorStreams.Stream.CollectTodo` | libpqxx/src/cursor.cxx:171-180 | the walk visits each registered iterator once and collects exactly those between cursor and target, in order |
| `CursorStreams.Stream.GatheredOn` | libpqxx/src/cursor.cxx:173-180 | one step of the walk over the list |
| `CursorStreams.InsertTodoKeeps` | libpqxx/src/cursor.cxx:178-178 | multimap insertion keeps order and uniqueness |
| `CursorStreams.InsertTodoMembers` | libpqxx/src/cursor.cxx:178-178 | and adds exactly the new entry |
| `CursorStreams.Stream.FillGroup` | libpqxx/src/cursor.cxx:188-189 | a block goes to all iterators at its position and to no other |
| `CursorStreams.Stream.ReadAt` | libpqxx/src/cursor.cxx:184-187 | skips to a position and reads its block; exactly the rows of that block are handed out; the stream is done if the position lies beyond the last row |
| `CursorStreams.Stream.ServeGroup` | libpqxx/src/cursor.cxx:184-189 | one round: the right block for one position, without passing the next; exactly its rows are handed out |
| `CursorStreams.Stream.Sweep` | libpqxx/src/cursor.cxx:181-190 | every collected iterator gets its own block in one forward sweep, exactly the rows of those blocks are handed out, and the stream is done exactly if one of them lies beyond the last row |
| `CursorStreams.Stream.Swept` | libpqxx/src/cursor.cxx:181-190 | after the sweep the stream is in order again, and exactly the rows still missing were handed out |
| `CursorStreams.Stream.ServiceIterators` | libpqxx/src/cursor.cxx:166-191 | exactly the iterators between cursor and target get their blocks; the cursor does not move back nor further than needed, exactly the rows still missing up to the target are handed out, and the stream is done exactly if it was or the target lies beyond the last row |
| `CursorRuns.RunIterators` | libpqxx/src/cursor.cxx:105-315 | every run of new iterators, copies, assignments, advances, dereferences and destructions shows what reading the result set directly shows, nothing for iterators made too late; the rows the server handed out strictly increase and are exactly those of the blocks asked for |
| `Transactions.Transaction.constructor` | libpqxx/src/robusttransaction.cxx:125-130 | a transaction starts active; a robust one is not registered |
| `Transactions.Transaction.CheckPendingError` | libpqxx/src/transaction_base.cxx:539-548 | the pending error becomes an exception and is no longer held |
| `Transactions.Transaction.DirectExec` | libpqxx/src/transaction_base.cxx:468-483 | a pending error comes before the command, which then is not sent |
| `Transactions.Transaction.DoAbort` | libpqxx/src/transaction_base.cxx:189-193 | the same for ROLLBACK |
| `Transactions.Transaction.RollBack` | libpqxx/src/transaction_base.cxx:202-211 | ROLLBACK goes out exactly if no error was pending and the connection is open; a pending error or the failure is reported, once |
| `Transactions.Transaction.Abort` | libpqxx/src/transaction_base.cxx:196-234 | an active transaction ends aborted and unregistered, its pending error or the failure of ROLLBACK reported exactly once; other states are final, with the exact notices |
| `Transactions.Transaction.SignOff` | libpqxx/src/transaction_base.cxx:376-391 | a pending error is reported exactly once and the transaction unregistered |
| `Transactions.Transaction.Close` | libpqxx/src/transaction_base.cxx:372-421 | terminates with the transaction unregistered and nothing pending, a pending error, an open focus and a failing ROLLBACK reported, in this order; an active one is rolled back, once |
| `Transactions.Transaction.DoCommitPlain` | libpqxx/src/transaction.cxx:60-108 | succeeds if and only if COMMIT is answered; in doubt if and only if its completion is unknown or the connection is lost for good, with the two notices; otherwise the exception of COMMIT |
| `Transactions.Transaction.DoCommitRobust` | libpqxx/src/robusttransaction.cxx:136-233 | succeeds, ends in doubt or fails exactly as `Setting` says, with the exact exception and commands: the constraint check, COMMIT, and ROLLBACK after a failure while the connection works |
| `Transactions.Transaction.CommitChecked` | libpqxx/src/robusttransaction.cxx:160-232 | the same after a good constraint check |
| `Transactions.Transaction.ResolveDoubt` | libpqxx/src/robusttransaction.cxx:189-232 | the doubt loop ends within 500 attempts with the verdict of the first decisive answer, exceptions of the lookup included |
| `Transactions.SettleCommitted` | libpqxx/src/robusttransaction.cxx:189-221 | the verdict is "committed" if and only if the first lookup to decide says so, over a usable connection and over a lost one |
| `Transactions.SettleRolledBack` | libpqxx/src/robusttransaction.cxx:189-221 | the doubt ends in a ROLLBACK that goes through if and only if the first lookup to decide says "aborted" and its ROLLBACK succeeds, all earlier ones deciding nothing and all earlier ROLLBACKs losing the connection |
| `Transactions.SettleFails` | libpqxx/src/robusttransaction.cxx:189-221 | the doubt ends in a failure that counts as aborted if and only if the first lookup to decide throws, makes no sense, or says "aborted" with a failing ROLLBACK |
| `Transactions.SettleNothing` | libpqxx/src/robusttransaction.cxx:189-232 | it ends in doubt if and only if no lookup within the limit decides |
| `Transactions.SettleFirst` | libpqxx/src/robusttransaction.cxx:189-221 | the verdict is that of the first lookup to decide |
| `Transactions.SettleBacked` | libpqxx/src/robusttransaction.cxx:196-206 | a verdict rests on an answer of its kind; ROLLBACK needs a usable connection |
| `Transactions.SettlePlain` | libpqxx/src/robusttransaction.cxx:91-111 | failures come from lookups that throw, garbled answers or a failing ROLLBACK only |
| `Transactions.Settled` | libpqxx/src/robusttransaction.cxx:189-232 | truthful lookups settle the truth, unless a ROLLBACK goes through |
| `Transactions.ResultIs` | libpqxx/src/robusttransaction.cxx:136-233 | a commit does not both succeed and end in doubt, and what it denies is exactly what took effect without either |
| `Transactions.ResultTruth` | libpqxx/src/robusttransaction.cxx:136-233 | with truthful lookups success is wrong if and only if `Misreports`, and never over a connection that stays lost |
| `Transactions.Transaction.Commit` | libpqxx/src/transaction_base.cxx:115-186 | no COMMIT with a pending error, an open focus, a broken connection or a final status; otherwise status, exception, commands and notices are the ones that the fates of the commands and lookups determine: a plain commit succeeds if and only if COMMIT is answered, a robust one if and only if it is, or is lost and the first deciding lookup confirms it or its ROLLBACK goes through; committed is misreported if and only if `Misreports`, aborted if and only if `Denies` |
| `Transactions.Transaction.Exec` | libpqxx/src/transaction_base.cxx:262-283 | the query is sent exactly if nothing is pending, no focus is open and the transaction is active, and its exception is passed on; the focus is restored |
| `Transactions.Transaction.RegisterFocus` | libpqxx/src/transaction_base.cxx:441-447 | there is one focus at a time |
| `Transactions.Transaction.UnregisterFocus` | libpqxx/src/transaction_base.cxx:450-465 | only the focus itself can leave |
| `Transactions.Transaction.RegisterPendingError` | libpqxx/src/transaction_base.cxx:486-536 | a held error is never overwritten |
| `Transactions.Transaction.Destroy` | libpqxx/src/transaction_base.cxx:71-98 | like close, with the same notices; the destructor's own complaints are never needed |
| `Transactions.RunOps` | libpqxx/src/transaction_base.cxx:115-465 | every operation of every run throws, reports, sends and leaves the status exactly as the law says |
| `Transactions.EachErrorOnce` | libpqxx/src/transaction_base.cxx:486-548 | the accepted pending errors are those delivered, each once and in order, and the one still held |
| `Transactions.Balance` | libpqxx/src/transaction_base.cxx:486-548 | what an operation finds held or takes in it throws, reports or holds on |
| `Transactions.Absorbing` | libpqxx/src/transaction_base.cxx:115-234 | a status other than active never changes |
| `Transactions.RunTransaction` | libpqxx/src/transaction_base.cxx:71-548 | every life: lawful entries (exact exceptions, statuses, commands and notices), at most one COMMIT, accepted errors are delivered errors; the server committed if and only if a commit that went ahead took effect; committed is true if lookups are truthful and a lost connection stays lost, aborted is true if in addition no outcome is unclear or garbled |
| `Transactions.CleanCommit` | libpqxx/src/robusttransaction.cxx:136-166 | a concrete run of each kind: everything succeeds, and the transaction is committed after exactly these commands |
| `Transactions.LateAnswer` | libpqxx/src/robusttransaction.cxx:185-232 | a lost commit is confirmed by the first good lookup if that is among the first 500, and stays in doubt otherwise |
| `Transactions.MisreportedCommit` | libpqxx/src/robusttransaction.cxx:204-207 | a concrete run that ends committed although the server did not commit |
| `Transactions.DeniedCommit` | libpqxx/src/robusttransaction.cxx:174-181 | a concrete run that ends aborted although the server committed |
| `Transactions.AbortWithPending` | libpqxx/src/transaction_base.cxx:202-210 | a concrete run: the error is reported and nothing is sent |
| `Encodings.GlyphLen` | libpqxx/include/pqxx/internal/encodings.hxx:160-293 | a character lies within the text, and ASCII bytes are characters of their own |
| `Encodings.KnownGlyphs` | libpqxx/include/pqxx/internal/encodings.hxx:184-293 | the characters at the limits of each encoding's ranges, and those just outside, in figures |
| `Encodings.GlyphLocal` | libpqxx/include/pqxx/internal/encodings.hxx:160-293 | where a character ends does not depend on what follows it |
| `Encodings.FindAsciiChar` | libpqxx/include/pqxx/internal/encodings.hxx:99-157 | the finder stops at the first listed character on a character boundary, or the end, and fails exactly on bad text before it |
| `CopyFormat.EscapeInverse` | libpqxx/src/stream_to.cxx:40-58 | escapes exist exactly for the seven special characters, are the letters given, are undone by unescaping, and are never N |
| `CopyFormat.WireSpecial` | libpqxx/src/stream_to.cxx:40-58 | each special character and its letter, in figures: the two bytes written for it, and what those two bytes read as |
| `CopyFormat.WirePlain` | libpqxx/include/pqxx/util.hxx:603-623 | every other ASCII character is written and read as itself, and also reads as itself after a backslash unless it is a letter of the format |
| `CopyFormat.WireNull` | libpqxx/include/pqxx/stream_to.hxx:269-270 | a null field is bytes 92 78, alone in its field; byte 9 separates fields; a line cannot end in a backslash |
| `CopyFormat.ReadEscaped` | libpqxx/src/stream_from.cxx:227-272 | reading an escaped text yields the text, in the middle of any field |
| `CopyFormat.ReadEncoded` | libpqxx/src/stream_from.cxx:252-271 | a written field reads as itself; null and the text of a null sign differ |
| `CopyFormat.RoundTrip` | libpqxx/src/stream_from.cxx:205-282 | reading a written row gives back its fields |
| `CopyFormat.RoundTripExactly` | libpqxx/src/stream_from.cxx:205-282 | if and only if there is at least one field |
| `CopyFormat.LinesDiffer` | libpqxx/src/stream_to.cxx:134-152 | different rows have different lines |
| `CopyStreams.EscapeRun` | libpqxx/src/stream_to.cxx:138-149 | skipping to the next special character agrees with escaping character by character |
| `CopyStreams.EscapeStep` | libpqxx/src/stream_to.cxx:138-149 | one round of the escaping loop |
| `CopyStreams.TerminatedLine` | libpqxx/src/stream_to.cxx:84-90 | tabs after fields, less the last one, are tabs between fields |
| `CopyStreams.StreamTo.AppendChunk` | libpqxx/src/stream_to.cxx:140-147 | a run of plain text and one escape are appended |
| `CopyStreams.StreamTo.EscapeFieldToBuffer` | libpqxx/src/stream_to.cxx:134-152 | the buffer gains the escaped text and a tab; it fails exactly on badly encoded text, leaving the part before the bad end |
| `CopyStreams.StreamTo.AppendToBuffer` | libpqxx/include/pqxx/stream_to.hxx:301-365 | the buffer gains the encoded field and a tab, or what a failing text leaves |
| `CopyStreams.StreamTo.WriteBuffer` | libpqxx/src/stream_to.cxx:82-93 | sends the buffer without its last tab and empties it |
| `CopyStreams.StreamTo.WriteRow` | libpqxx/include/pqxx/stream_to.hxx:225-229 | from an empty buffer the line sent is the row in COPY text format; in general what an earlier failure left comes first; the buffer after a failure is stated |
| `CopyStreams.LeftoverFields` | libpqxx/include/pqxx/stream_to.hxx:225-229 | a concrete run: a row sent after a failed one carries its first field |
| `CopyStreams.ReadRun` | libpqxx/src/stream_from.cxx:229-236 | text up to the next tab or backslash goes into the field unchanged |
| `CopyStreams.ValuesKept` | libpqxx/src/stream_from.cxx:200-205 | writing on does not touch earlier fields |
| `CopyStreams.MidWrite` | libpqxx/src/stream_from.cxx:232-233 | writing keeps the parser's invariant |
| `CopyStreams.MidTab` | libpqxx/src/stream_from.cxx:240-251 | so does ending a field |
| `CopyStreams.MidEnd` | libpqxx/src/stream_from.cxx:274-282 | at the end the fields are what the line says |
| `CopyStreams.StreamFrom.TakeRun` | libpqxx/src/stream_from.cxx:229-236 | one run is copied, writing never passes reading |
| `CopyStreams.StreamFrom.TakeEscape` | libpqxx/src/stream_from.cxx:252-271 | one escape is decoded, with both errors |
| `CopyStreams.StreamFrom.ParseLine` | libpqxx/src/stream_from.cxx:182-286 | the end of the stream, and for a line: fields are disjoint slices in order whose contents are what the line says; each error exactly when the line has it, too long from half of the range of its size on |
| `CopyStreams.StreamFrom.SplitLine` | libpqxx/src/stream_from.cxx:197-282 | the same for one line |
| `CopyStreams.WriteAndRead` | libpqxx/src/stream_from.cxx:182-286 | the fields read are the fields written, but for the empty row, which reads as one empty text |
| `CopyStreams.KnownRow` | libpqxx/src/stream_to.cxx:40-58 | a concrete row with all special characters and a null: the bytes sent, and the fields read from those bytes |
| `QueryEnd.ScanBackward` | libpqxx/src/sql_cursor.cxx:66-70 | the shortest prefix that drops only useless bytes |
| `QueryEnd.ScanForward` | libpqxx/src/sql_cursor.cxx:73-90 | the end of the last useful character; fails exactly on bad text |
| `QueryEnd.FindQueryEnd` | libpqxx/src/sql_cursor.cxx:60-93 | in every encoding, the shortest prefix of whole characters that drops only whitespace and semicolons, and for ASCII queries the shortest prefix of bytes that does |
| `QueryEnd.UselessByte` | libpqxx/src/sql_cursor.cxx:33-36 | useless are space, tab, newline, return and semicolon, and nothing else |
| `QueryEnd.KnownEnds` | libpqxx/src/sql_cursor.cxx:106-123 | the queries of the source's own assertions, through both scans and in every encoding |
| `QueryEnd.BothScans` | libpqxx/src/sql_cursor.cxx:60-93 | both scans find the one shortest prefix of an ASCII query |
| `QueryEnd.LastUsefulDrops` | libpqxx/src/sql_cursor.cxx:82-89 | what the forward scan drops is useless, and it stops on a character boundary |
| `QueryEnd.LastUsefulLeast` | libpqxx/src/sql_cursor.cxx:82-89 | no shorter prefix would do |
| `QueryEnd.FindLastUseful` | libpqxx/src/sql_cursor.cxx:82-89 | one round of the forward scan agrees with the walk over characters |
| `QueryEnd.ScansAgree` | libpqxx/src/sql_cursor.cxx:66-90 | the scans agree on all ASCII queries, and in general if and only if the last useful character does not end in a useless byte |
| `QueryEnd.ScansDiffer` | libpqxx/src/sql_cursor.cxx:66-90 | a concrete query on which they differ |
| `QueryEnd.Gb18030Agrees` | libpqxx/src/sql_cursor.cxx:66-90 | in GB18030 they always agree |
| `Strconv.Cast` | libpqxx/src/strconv.cxx:97-101 | conversion to unsigned keeps the value modulo the width |
| `Strconv.TypeLimits` | libpqxx/include/pqxx/internal/conversions.hxx:220-227 | the range and the buffer size of each type, in figures |
| `Strconv.TextFits` | libpqxx/include/pqxx/internal/conversions.hxx:220-227 | every value of every type fits its buffer size |
| `Strconv.DecimalLength` | libpqxx/include/pqxx/internal/conversions.hxx:220-227 | a numeral has at most k digits if and only if its value is below ten to the k |
| `Strconv.ValueOfDecimal` | libpqxx/src/strconv.cxx:56-59 | the digits written stand for the value |
| `Strconv.DecimalOfValue` | libpqxx/src/strconv.cxx:56-59 | no other numeral without leading zero does |
| `Strconv.DigitCodes` | libpqxx/include/pqxx/internal/conversions.hxx:24-31 | the digits are the characters 0 to 9, in this order |
| `Strconv.OneMoreDigit` | libpqxx/src/strconv.cxx:56-59 | a digit more at the end is ten times the number and that digit |
| `Strconv.KnownTexts` | libpqxx/src/strconv.cxx:395-422 | the texts of some numbers, one of them with every digit |
| `Strconv.NonnegToBuf` | libpqxx/src/strconv.cxx:47-61 | the backwards loop writes the shortest numeral just before `end` and touches nothing else, without overflow |
| `Strconv.NegToBuf` | libpqxx/src/strconv.cxx:67-78 | the same with a minus sign |
| `Strconv.BottomToBuf` | libpqxx/src/strconv.cxx:84-111 | the most negative value is written without negating it |
| `Strconv.ToBuf` | libpqxx/src/strconv.cxx:395-422 | the canonical text at the end of the span, or an error exactly if the span is too small |
| `Strconv.MoveText` | libpqxx/include/pqxx/strconv.hxx:455-467 | an overlapping move keeps the text and touches nothing else |
| `Strconv.IntoBuf` | libpqxx/include/pqxx/strconv.hxx:447-471 | the canonical text at the front of the span |
| `Strconv.FromCharsAll` | libpqxx/src/strconv.cxx:177-180 | everything is consumed if and only if the text is a numeral in range |
| `Strconv.FromString` | libpqxx/src/strconv.cxx:167-205 | succeeds exactly on blanks and a numeral in range, with its value; after the blanks and an optional sign, an invalid argument exactly if no digit comes first, out of range exactly if the longest run of digits does not fit, not all parsed exactly if it fits and something follows |
| `Strconv.Outcome` | libpqxx/src/strconv.cxx:177-205 | the outcome is the one thing that the numeral at the front makes the text |
| `Strconv.ParsesOnce` | libpqxx/src/strconv.cxx:177-205 | a text has one outcome only |
| `Strconv.TrimCuts` | libpqxx/src/strconv.cxx:175-175 | exactly the spaces and tabs at the front are skipped |
| `Strconv.KnownParses` | libpqxx/src/strconv.cxx:177-205 | a concrete text of each kind |
| `Strconv.SpellsOnce` | libpqxx/src/strconv.cxx:167-181 | a text has at most one value |
| `Strconv.TextSpells` | libpqxx/src/strconv.cxx:395-422 | the written text, after any blanks, reads as the value |
| `Strconv.CanonicalText` | libpqxx/src/strconv.cxx:395-422 | the readable texts without superfluous characters are exactly the written ones |
| `Strconv.WriteAndRead` | libpqxx/src/strconv.cxx:388-422 | every value of every type is read back, given room |
| `Dates.YearIntoBuf` | libpqxx/src/time.cxx:32-75 | the year as PostgreSQL counts it, at least four digits, within 15 characters, for every year |
| `Dates.ZerosIntoBuf` | libpqxx/src/time.cxx:56-67 | a year below 1000 gets the zeros that make four digits |
| `Dates.MonthIntoBuf` | libpqxx/src/time.cxx:99-109 | two digits, the first never more than 1 |
| `Dates.DayIntoBuf` | libpqxx/src/time.cxx:127-133 | two digits |
| `Dates.ToBuf` | libpqxx/src/time.cxx:180-195 | the text of the date, or an error exactly if there is less room than 15 characters |
| `Dates.MonthPrints` | libpqxx/src/time.cxx:99-109 | a month beyond 19 is printed as the one from 10 to 19 with the same last digit |
| `Dates.PrintedText` | libpqxx/src/time.cxx:180-195 | the text of a date, character by character |
| `Dates.KnownDates` | libpqxx/src/time.cxx:180-195 | some dates as texts: year 0 is 0001 BC, year -32767 is 32768 BC |
| `Dates.KnownDays` | libpqxx/src/time.cxx:220-222 | which days there are at the limits of months, leap years and centuries, and of the years that C++ can hold |
| `Dates.FindYearMonthSeparator` | libpqxx/src/time.cxx:157-166 | the first dash, or the end |
| `Dates.YearFromBuf` | libpqxx/src/time.cxx:80-92 | a positive number of at least four characters |
| `Dates.TwoDigits` | libpqxx/src/time.cxx:113-123 | the inverse of writing two digits |
| `Dates.FromString` | libpqxx/src/time.cxx:198-224 | accepts exactly the texts of dates as described by `Reads`, BC and all |
| `Dates.ReadsCut` | libpqxx/src/time.cxx:206-219 | the parser's cuts are the only possible ones |
| `Dates.ReadsOnce` | libpqxx/src/time.cxx:198-224 | a text is at most one date |
| `Dates.PrintReads` | libpqxx/src/time.cxx:180-195 | the printed text of every valid date reads as that date |
| `Dates.ReadsPrinted` | libpqxx/src/time.cxx:198-224 | an accepted text with a printed year is the printed text of its date if and only if C++ can hold the year |
| `Dates.YearOutOfRange` | libpqxx/src/time.cxx:213-213 | a year that C++ cannot hold may read as another date |
| `Dates.WriteAndRead` | libpqxx/src/time.cxx:180-224 | every valid date is read back, years -32767 to 32767, given room |

## Left out

- The application code under `src/`: screens, menus, SQL string building and printing around a live database, with no state of its own to keep right.
- libpq, sockets, connection set-up, LISTEN/NOTIFY, waiting and sleeping: foreign calls, represented by the session and connection objects.
- Pipelines: `cancel`, the destructor, a connection that breaks while receiving, the separator text between statements, and a result's query text.
- `Pipelines.Pipeline.Insert`: does not model running out of ids; it asks that the last id is not next to the limit of `long`. The waiting count is unbounded.
- `Pipelines.Pipeline.Receive`: does not model the exception of a connection that breaks, since the session never does.
- `Pipelines.Pipeline.ReceiveIfAvailable`: does not model it either.
- `Pipelines.Pipeline.GetFurtherAvailableResults`: nor does this one.
- `Pipelines.Pipeline.ObtainDummy`: does not model the check for more than one row, since a result's data is one value here.
- Cursors: closing, naming, the cached empty result, and the checks of the query text other than where it ends.
- `CursorRuns.RunIterators`: asks that requested positions stay within 32 bits; strides are fixed, and the comparison operators are not modelled.
- `CursorStreams.Iterator.Advance`: asks the same, and that the iterator has a stream, which the source does not check.
- Transactions: the wording of notices and exceptions other than pending errors and SQL errors (a label stands for each), subtransactions, `nontransaction`, prepared and parameterised statements; the BEGIN command and the transaction id are taken as done.
- `CopyStreams.StreamTo.WriteRow`: fields that are not texts are converted before they get here.
- `CopyStreams.StreamFrom.ParseLine`: takes what the connection has to offer as a parameter; the row buffer is made anew for each line.
- Strconv: floating-point and boolean conversions; `std::from_chars` is given by what the standard says it accepts.
- `Dates.ToBuf`: asks for a day below 100, beyond which the digit writer's own assumption fails; years outside `std::chrono::year` do not exist as values.
- `array.cxx`, `blob.cxx`, `largeobject.cxx`, `result.cxx`, `row.cxx`, `field.cxx`, `params.cxx`, `except.cxx`: thin wrappers or scanners of their own, not part of this model.
