# eventsdb in Dafny

eventsdb is an append-only event log on SQLite. Every event gets a position in
one global order and a sequence number in its stream; projections fold the log
into read models, subscriptions follow it, retention removes from it, exports
and imports move it. Nearly every promise of the crate relates what is in the
tables now to what was ever committed, across interleavings of all of these.

This project models that as one transactional state machine with a history
variable, and proves the promises about every state it can reach.

- `Tables` (module `Database`) is the database as one value: live rows, the
  `AUTOINCREMENT` counter, the stored sequence counters, checkpoints, the
  retention ledger, export receipts, and one opaque model per projection. An
  `IMMEDIATE` transaction is a function from tables to tables or an error that
  leaves them alone; a reader's query is one look at committed tables.
- `World` adds `hist`, every row ever committed, removed ones included.
  Nothing the store does reads it; the theorems are about it.
- The objects of the crate are classes: `Sqlite.Connection` and
  `Sqlite.Shared`, `Txn.TxnContext`, `Store.SqliteEventStore`,
  `EventLog.SqliteEventLog` and `EventLog.LogSink`, `Runner.ProjectionRunner`,
  `ArchiveLoop.Sink`, `ArchiveLoop.Others`, `MemStore.MemEventStore`, `Ladder.Connection`. Their
  methods change fields and loop where the source does, and each is proved to
  leave what its function on tables says; the theorems are about the functions.

| files | contents |
|---|---|
| Wrappers, Event, Row, Filter, Tables, Folding | values: errors, the event envelope, rows, filters, the tables and their statements |
| Utf8, StreamPrefix, MetaIndex | the prefix bound as a theorem on UTF-8, and the `meta` index names |
| Writes, Routes, Landing, Hatch, Placing, Numbering, History, World, Guarantees | every way in, and the history invariant over whole runs: its positional half for every run, its counters for closures that propagate their errors |
| Retention, Archive, ArchiveLoop, Interference | plans, guards, the chain of receipts, the archive loop |
| Projection, ExactlyOnce, CatchUp, Announce, Savepoints, Follow | folding, exactly once, catching up, being woken |
| Growth, Rising, Subscription | a paged reader racing with writers and removals |
| Transfer, Mem, MemStore, Backends, Ladder | a moved log, the two backends, the schema ladder |
| Connection, Txn, Store, EventLog, Runner | the classes |

Where the code and its prose part, the model follows the code and the lemma
says exactly when the prose holds:

- a closure that swallows the error of a call that had already inserted rows
  commits rows their counter does not know (`Hatch.TransactionKeepsHistory`,
  `Guarantees.SwallowedImportBreaks`, `Guarantees.StrandedNumberIsReissued`);
  positions, completeness, exactly-once folding and a moved log do not depend on
  it (`World.LogAlwaysHolds`, `Numbering.NumbersAlwaysHold`);
- a `Before` plan cannot grow only at or below the last position issued
  (`Rising.BeforeCannotGrow`);
- a closure that rolls back to a savepoint of its own publishes the positions it
  gave up (`Savepoints.LostPositionsAreAnnounced`);
- an age plan agrees with the unsigned time only up to the signed maximum
  (`Retention.AgePlanMeaning`), and so does a stream read's lower bound
  (`Backends.BoundPastRangeParts`);
- a boolean in a `meta` filter also matches the number it is stored as
  (`Filters.BooleanMatchesANumber`), and two numbers past the signed range match
  when one double is nearest to both (`Filters.UnsignedMatch`);
- a list of names passes the check on its length at two lengths SQLite then
  refuses (`Filters.KindsThatFit`);
- two `meta` keys can share an index name (`MetaIndex.SharedIndexExactly`);
- an exported record refuses the empty stream name an append accepts
  (`Transfer.RecordRoundTrips`);
- the backends stamp a batch alike only if the clock stands still in it
  (`Backends.TickingClockParts`);
- the schema version is signed, and below zero every step is skipped
  (`Ladder.NegativeVersionIsNotMigrated`);
- the default guard knows only consumers with a stored row
  (`ExactlyOnce.UnregisteredIsStranded`).

## Model

| member | source | states |
|---|---|---|
| `Utf8.OneSpelling` | crates/eventsdb-core/src/log.rs:256-280 | The octets a string is compared by are UTF-8 (section 3 of RFC 3629): some octets decode to a scalar value exactly when they are its encoding. |
| `Utf8.Utf8KeepsOrder` | crates/eventsdb-core/src/log.rs:256-280 | Comparing UTF-8 octets (section 3 of RFC 3629) bytewise compares the strings by scalar value, for all strings; the order the prefix range is bound in. |
| `StreamPrefix.NextScalar` | crates/eventsdb-core/src/log.rs:295-301 | The next scalar value is above, and there is none exactly after the last one. |
| `StreamPrefix.NothingBetween` | crates/eventsdb-core/src/log.rs:295-301 | No scalar value lies between a character and the next, the surrogate gap included. |
| `StreamPrefix.StreamPrefixBound` | crates/eventsdb-core/src/log.rs:281-291 | The reverse loop finds the bound of the prefix: carries at the last scalar value drop characters, and only an all-maximum or empty prefix has none. |
| `StreamPrefix.NoBoundExactly` | crates/eventsdb-core/src/log.rs:281-291 | A prefix has no bound exactly when none of its characters has a successor. |
| `StreamPrefix.PrefixRangeIsExact` | crates/eventsdb-core/src/log.rs:256-291 | For all strings, a name lies bytewise at or above the prefix and below its bound (open above without one) exactly when it starts with the prefix. |
| `StreamPrefix.BoundIsLeast` | crates/eventsdb-core/src/log.rs:256-291 | The bound is at or below every string that is above all names with the prefix; without a bound no such string exists. |
| `MetaIndex.SharedIndexExactly` | crates/eventsdb-sqlite/src/log.rs:717-729 | Two `meta` keys get one index exactly when both are plain and differ in case only, or one is plain and is the hexadecimal spelling of the other. |
| `MetaIndex.NameIsAnIdentifier` | crates/eventsdb-sqlite/src/log.rs:717-729 | Any key gives an index name of ASCII letters, digits and underscores, and a key made of those stands in it as it is. |
| `MetaIndex.DotAndItsSpellingShare` | crates/eventsdb-sqlite/src/log.rs:717-729 | The keys `.` and `x2e` share an index name, so the name is not one to one. |
| `Event.StampIsStored` | crates/eventsdb-core/src/event.rs:270-286 | Stamping keeps every caller-written field, sets the coordinates, fills in empty `meta` and `data` and version 1 where the caller left them out, and adds nothing else; the result is not something a caller may append. |
| `Event.RestampIsStored` | crates/eventsdb-core/src/event.rs:350-360 | Restamping a stored event changes `seq` alone, fills in a missing `meta` or `data`, and yields all six fields. |
| `Event.ValidIs` | crates/eventsdb-core/src/event.rs:187-268 | What a caller may append, exactly: a kind that is a non-empty string, no field but the caller's four, `meta` an object without nulls, arrays or objects, `data` an object, the version an unsigned number. |
| `Event.ValidStoredIs` | crates/eventsdb-core/src/event.rs:288-348 | What an import accepts, exactly: the same shapes with the time and the version there, and the sequence number if it is there, each an unsigned number. |
| `Rows.CastsRoundTrip` | crates/eventsdb-sqlite/src/store.rs:146-155 | The `u64` to `i64` cast of time and version and its inverse lose nothing, in both directions. |
| `Rows.ReadUndoesWrite` | crates/eventsdb-sqlite/src/row.rs:27-100 | Reading the row a stamped event was written to gives the event back, over the whole unsigned range of its time and version. |
| `Rows.WriteUndoesRead` | crates/eventsdb-sqlite/src/row.rs:27-100 | A row read as an object is accepted by a restamp, and writing that object again gives the same columns: a row survives any number of moves. |
| `Filters.PrefixAxis` | crates/eventsdb-sqlite/src/log.rs:603-670 | The byte range bound for the prefix axis matches exactly the streams whose name starts with the prefix, the other axes unchanged. |
| `Filters.MatchesMeans` | crates/eventsdb-sqlite/src/log.rs:603-715 | A filter selects exactly the rows whose kind and stream are among those named, whose stream begins with the prefix, and whose `meta` holds each pair's value under the pair's key. |
| `Filters.RunsExactly` | crates/eventsdb-sqlite/src/log.rs:616-690 | A filter runs exactly when its `meta` keys can be named and everything it binds fits in one statement; which of three errors it gets otherwise. |
| `Database.ReadAnswers` | crates/eventsdb-sqlite/src/log.rs:603-665 | A cross-stream read answers with rows exactly when its start is in the signed range, its pairs are scalars and its filter runs, and which error otherwise; an axis that lists nothing or a page of none answers with no rows before any of that is looked at. |
| `Filters.NothingSelected` | crates/eventsdb-core/src/log.rs:249-255 | A filter that reports it selects nothing matches no row. |
| `Filters.WholeSelectsEverything` | crates/eventsdb-sqlite/src/retention.rs:711-721 | A receipt counts as whole exactly when its filter matches every possible row. |
| `Filters.MetaPairMatches` | crates/eventsdb-sqlite/src/log.rs:672-715 | A `meta` pair matches exactly the events that have the key with the same string, or with the same number as SQLite holds it, a boolean counting as 1 or 0. |
| `Filters.UnsignedMatch` | crates/eventsdb-sqlite/src/log.rs:697-715 | Two unsigned numbers match exactly when they are equal, or both are past the signed maximum and one double is nearest to both. |
| `Filters.NearestDouble` | crates/eventsdb-sqlite/src/log.rs:697-715 | A number past the signed range is compared as a nearest double, the even one of two as near. |
| `Filters.WideNumbersCollide` | crates/eventsdb-sqlite/src/log.rs:697-715 | A filter on 2^63 selects an event that holds 2^63 + 1. |
| `Filters.KindsThatFit` | crates/eventsdb-sqlite/src/log.rs:784-800 | A list of kinds runs exactly up to 32 764 names; 32 765 and 32 766 pass the check and fail as a storage error, and only longer lists are refused as unsupported. |
| `Filters.BooleanMatchesANumber` | crates/eventsdb-sqlite/src/log.rs:697-707 | A stored number 1 is selected by `true`, unlike what the filter's documentation says. |
| `ExactlyOnce.PageIsFront` | crates/eventsdb-sqlite/src/log.rs:603-670 | A read returns the front of the matching rows past its start, in position order, and all of them unless the limit cut it. |
| `Sqlite.Connection.InsertEvent` | crates/eventsdb-sqlite/src/store.rs:135-163 | The insert takes the next position or, at a taken (stream, seq) or at the rowid ceiling, changes nothing. |
| `Sqlite.Shared.Publish` | crates/eventsdb-sqlite/src/shared.rs:93-102 | Compare and store in one step: the published value never falls and reaches at least the position published; the version moves only with the value. |
| `Sqlite.Shared.TakeName` | crates/eventsdb-sqlite/src/project.rs:157-175 | A runner's name is granted exactly when no live runner holds it. |
| `Sqlite.Shared.ReleaseName` | crates/eventsdb-sqlite/src/project.rs:145-154 | A dropped runner frees its own name and no other. |
| `Txn.TxnContext.InsertStamped` | crates/eventsdb-sqlite/src/store.rs:135-163 | A stamped event is inserted and answered with where it landed, or refused with the tables untouched. |
| `Txn.TxnContext.AppendAt` | crates/eventsdb-sqlite/src/txn.rs:196-217 | One event validated, stamped at the stored counter, inserted, the counter moved, its position buffered; or nothing. |
| `Txn.TxnContext.AppendManyAt` | crates/eventsdb-sqlite/src/txn.rs:240-268 | The loop leaves what the batch function says: a refused batch changes nothing, a failure part way leaves its rows and no counter, success writes the counter once. |
| `Txn.TxnContext.ImportMany` | crates/eventsdb-sqlite/src/txn.rs:299-331 | The loop with its per-stream counter cache leaves what the import function says, the counters written once per stream in any order. |
| `Writes.BatchRefinesEach` | crates/eventsdb-sqlite/src/txn.rs:290-331 | However the streams interleave, the batched import and importing one event at a time stop at the same record with the same error, or leave the same rows, positions, answers and final counters. |
| `Writes.ImportManyConcat` | crates/eventsdb-sqlite/src/txn.rs:290-331 | Importing two runs in turn leaves what importing their concatenation leaves. |
| `Routes.AppendIsPut` | crates/eventsdb-sqlite/src/store.rs:250-289 | An append is exactly one put at the stored counter of the validated event's columns. |
| `Routes.AppendManyIsPuts` | crates/eventsdb-sqlite/src/txn.rs:240-268 | A batch succeeds exactly when all its events are valid and the puts of them in order succeed, and then leaves what those leave. |
| `Routes.ImportManyIsPuts` | crates/eventsdb-sqlite/src/txn.rs:299-331 | An import succeeds exactly when all its records are stored events and the puts of them in order succeed, and then leaves what those leave. |
| `History.CounterIsFree` | crates/eventsdb-sqlite/src/store.rs:97-114 | Under the invariant the stored counter never names a number that is in the log. |
| `History.PutKeeps` | crates/eventsdb-sqlite/src/store.rs:103-163 | A put succeeds exactly below the rowid ceiling (`UNIQUE (stream, seq)` never fires) and extends log and history by one row, keeping the invariant. |
| `Store.WithTransaction` | crates/eventsdb-sqlite/src/hatch.rs:691-736 | A closure's calls commit together, and then the highest position they returned is published once; or the tables and the channel are as before. |
| `Hatch.CallKeepsHistory` | crates/eventsdb-sqlite/src/txn.rs:240-331 | One call keeps the history exactly when it would not stop after inserting a row: the guard a caller can check before it. |
| `Hatch.StuckStays` | crates/eventsdb-sqlite/src/txn.rs:240-331 | A stream whose next number is already in the log stays so through any later call, and refuses every append. |
| `Hatch.TransactionKeepsHistory` | crates/eventsdb-sqlite/src/hatch.rs:691-736 | A committed closure keeps the history if and only if it swallowed no error of a call that left rows behind. |
| `Guarantees.SwallowedImportBreaks` | crates/eventsdb-sqlite/src/txn.rs:311-324 | A closure that swallows a half-done import's error commits a row without its counter. |
| `Guarantees.StrandedNumberIsReissued` | crates/eventsdb-sqlite/src/txn.rs:311-324 | Such a stream refuses appends while the row is there, and hands its number out again once the row is removed. |
| `Store.SqliteEventStore.Append` | crates/eventsdb-sqlite/src/store.rs:250-289 | Refused as invalid, or as a storage error without room, with nothing changed; otherwise the event is in the log at the next position and the stream's next number, reads back as its stamp, is what the answer names, and is published. |
| `Store.SqliteEventStore.AppendMany` | crates/eventsdb-sqlite/src/store.rs:291-343 | All or nothing: on success event i of the batch is in the stream at base + i and the i-th next position, reads back as its stamp with the one clock reading, and is named by answer i; the counter moved past the batch and its last position is published. |
| `Store.SqliteEventStore.AppendIf` | crates/eventsdb-sqlite/src/store.rs:371-423 | The decision sees the stream inside the write; what it returns lands in the same transaction as a single append would, or nothing changes. |
| `Store.SqliteEventStore.AppendExpecting` | crates/eventsdb-sqlite/src/store.rs:462-552 | The expected head is compared with the stored counter inside the write; a mismatch answers with what was expected and what was found and changes no row, counter or channel. |
| `Store.SqliteEventStore.DetachAppend` | crates/eventsdb-sqlite/src/store.rs:562-574 | Refused only for a malformed event; the write is not reported and publishes nothing. |
| `Landing.AppendManyLands` | crates/eventsdb-sqlite/src/txn.rs:240-268 | A batch goes in exactly when every event is valid and there is room for all; then each event has landed in order, stamped with its number and the clock, and nothing else changed but the stream's counter. |
| `Landing.AppendIfLands` | crates/eventsdb-sqlite/src/store.rs:371-423 | The decision is shown the stream's rows of the kinds asked for, from its beginning in sequence order, and what it returns is appended. |
| `Landing.ImportManyLands` | crates/eventsdb-sqlite/src/txn.rs:299-331 | An import goes in exactly when every record is a stored event and its due number and position are free; then record i is in its stream at the next position with nothing but its number changed, every stream's counter has moved past its own records, and a refusal is the first bad record's. |
| `Store.SqliteEventStore.ReadLast` | crates/eventsdb-sqlite/src/store.rs:596-621 | The descending limited read, reversed, is the last `n` of the stream's rows in sequence order, or all of them. |
| `Rows.OrderIsBySeq` | crates/eventsdb-sqlite/src/store.rs:195-205 | A stream read returns the same rows in sequence order, whatever order they were committed in. |
| `World.CommitAppends` | crates/eventsdb-sqlite/src/hatch.rs:691-736 | A committed write only appends rows, at the positions that follow one by one, and moves counters; even one whose closure swallowed a half-done call's error. |
| `World.OpLeaves` | crates/eventsdb-sqlite/src/project.rs:224-293 | What each kind of transaction leaves, and that one that fails leaves the tables as they were. |
| `World.OpKeepsPositions` | crates/eventsdb-sqlite/src/store.rs:103-163 | Every transaction of every kind keeps the positional half of the history invariant, with nothing asked of closures. |
| `World.LogAlwaysHolds` | crates/eventsdb-sqlite/src/store.rs:103-163 | In every state of every run, whatever closures made of their errors, positions ever committed are 1..N in commit order, live rows are the committed ones in order, and the ledger's maximum is the highest removed position. |
| `Numbering.NumbersAlwaysHold` | crates/eventsdb-sqlite/src/txn.rs:240-331 | In every state of every run each row below the first removed one carries its stream's next number: a counter left behind by a swallowed error refuses appends rather than repeat a number, until something is removed. |
| `World.OpKeeps` | crates/eventsdb-sqlite/src/store.rs:103-163 | Every transaction of every kind keeps the history invariant, given closures that propagate their errors. |
| `World.HistoryHolds` | crates/eventsdb-sqlite/src/store.rs:103-163 | In every state of a run in which no closure swallowed a half-done call's error, on top of the positional half, each row's number counts its stream's rows up to it and every stream's counter stands one past its count. |
| `Guarantees.NothingIsReissued` | crates/eventsdb-sqlite/src/store.rs:97-128 | In any run no position is ever issued twice, even after a stream is emptied; and no (stream, seq) pair while the history holds: along history both only rise. |
| `Guarantees.StreamNumbersAreExact` | crates/eventsdb-sqlite/src/store.rs:97-128 | While the history holds, the numbers ever issued to a stream are exactly those from 1 to below its counter. |
| `Guarantees.StreamReadIsInSeqOrder` | crates/eventsdb-sqlite/src/store.rs:166-210 | While the history holds, a stream's rows rise in sequence as they stand, so its reads by sequence are reads in position order. |
| `Guarantees.ValidAppendsSucceed` | crates/eventsdb-sqlite/src/store.rs:250-289 | While the history holds, an append succeeds exactly when the event is valid and the position ceiling is not reached. |
| `Guarantees.ExpectedSpeaksAboutHistory` | crates/eventsdb-sqlite/src/store.rs:462-552 | While the history holds: `Unwritten` commits exactly on a stream that never had an event, `Seq(n)` exactly when n >= 1 events were ever appended, `Seq(0)` never; a refusal reports the true head. |
| `Guarantees.CommitMeansExpected` | crates/eventsdb-sqlite/src/store.rs:462-552 | In any run, whatever closures swallowed, while nothing has been removed a commit means the expectation was true of everything ever appended to the stream, and answers with the next number. |
| `Guarantees.CompletenessIsExact` | crates/eventsdb-sqlite/src/retention.rs:833-847 | In every state of every run `completeness_from(p)` says complete exactly when every event ever committed above p is still live, scattered plans included; otherwise it names the last position that is gone. |
| `Retention.AgePlanMeaning` | crates/eventsdb-sqlite/src/retention.rs:152-184 | An age plan compares the stored signed time: it means the unsigned comparison exactly for times up to the signed maximum. |
| `Retention.GreedyChainIsExact` | crates/eventsdb-sqlite/src/retention.rs:260-282 | For every table of receipts the walk's end is the one position r with 1..r covered by landed whole receipts and r+1 not. |
| `Retention.ChainDependsOnIntervals` | crates/eventsdb-sqlite/src/retention.rs:260-282 | The end depends only on the set of positions covered, and covering more never lowers it. |
| `Retention.ConfirmNeverLowers` | crates/eventsdb-sqlite/src/retention.rs:778-815 | Confirming one more receipt never takes the chain back. |
| `Retention.ConfirmExtends` | crates/eventsdb-sqlite/src/retention.rs:770-815 | Confirming a whole page that starts inside the chain carries the chain to the page's end. |
| `Retention.PlanGoesThrough` | crates/eventsdb-sqlite/src/retention.rs:389-462 | A plan goes through exactly when its value fits the column (or its names a statement), every position up to each row it takes is covered by confirmed whole exports if the guard asks, and no stored consumer is behind any such row unless forced. |
| `Retention.PlanRemovesExactly` | crates/eventsdb-sqlite/src/retention.rs:389-506 | It then leaves exactly the rows it does not take, in order; the report's count, highest position and stream count are those of the removed rows; one ledger row is added if any went, and nothing else changes. |
| `Retention.PlanLeaves` | crates/eventsdb-sqlite/src/retention.rs:152-184 | What stays, for each plan: after `Before(p)` the positions above p, after `OlderThan(c)` the times from c to the signed maximum, after `Streams` the rows of streams not named. |
| `Retention.PlanRefusals` | crates/eventsdb-sqlite/src/retention.rs:389-462 | What refuses a plan and in what words: validation for a value past the signed range, unsupported for too many names, else the highest row it takes with the end of the chain, else that row. |
| `EventLog.SqliteEventLog.ExportedThrough` | crates/eventsdb-sqlite/src/retention.rs:260-282 | The loop over the ordered receipts returns the end of the chain: covered up to it, uncovered just past it. |
| `EventLog.SqliteEventLog.CompletenessFrom` | crates/eventsdb-sqlite/src/retention.rs:833-847 | Of any history the log records: complete exactly when everything committed above `from` is live; otherwise the position it names is above `from`, is gone, and nothing above it is. |
| `EventLog.SqliteEventLog.Apply` | crates/eventsdb-sqlite/src/retention.rs:389-506 | Count, guards, removal and ledger entry are one transaction; a refusal leaves everything as it was. |
| `EventLog.SqliteEventLog.WriteReceipt` | crates/eventsdb-sqlite/src/retention.rs:706-770 | The receipt of a page: its range, count, and whether its filter selected everything; taken, not landed. |
| `EventLog.SqliteEventLog.ConfirmExport` | crates/eventsdb-sqlite/src/retention.rs:771-815 | Lands a receipt once however often it is called, refuses an unknown id, and never lowers the chain. |
| `Archive.PageHolds` | crates/eventsdb-sqlite/src/retention.rs:678-706 | A page read under a whole filter holds every row that was live in its range. |
| `Archive.TablesAreTheRuns` | crates/eventsdb-sqlite/src/retention.rs:678-706 | The tables an archive run reaches are those its receipts, confirmations, writes and removals reach run one after another. |
| `Archive.PageIsKept` | crates/eventsdb-sqlite/src/retention.rs:678-706 | A page once read can be recorded at any later time: it stays what was read, where it was put. |
| `Archive.RemovedWasArchived` | crates/eventsdb-sqlite/src/retention.rs:423-435 | In every interleaving of page reads, receipts, confirmations, writes and removals, a row removed under the exported guard is in a page whose whole receipt was confirmed before. |
| `ArchiveLoop.ExportRecorded` | crates/eventsdb-sqlite/src/retention.rs:663-770 | With others let in before the read and before the receipt: the page is what comes next after the cursor in the tables it was read from, and the receipt written for it later is its receipt. |
| `ArchiveLoop.HandOver` | crates/eventsdb-sqlite/src/retention.rs:620-624 | The answer is the sink's own to this one write: a refusal leaves every table as it was, the page's receipt unconfirmed; an acceptance is followed by the page's own confirmation, and alone the chain has then reached the page's end. |
| `ArchiveLoop.ExportAll` | crates/eventsdb-sqlite/src/retention.rs:606-624 | The loop ends under any interference, and ends in failure exactly when one of its writes was refused; what the sink was shown is strictly increasing past where it began and is the pages it took plus the one it refused; alone it reaches the target unless it failed. |
| `ArchiveLoop.ArchiveThenRetain` | crates/eventsdb-sqlite/src/retention.rs:570-631 | Under any interference between any two steps, other archives included: it ends with the sink's error exactly when a write was refused, and then removes nothing; it shows only increasing positions past the chain it found, writes only receipts and lands none but of pages the sink took, until its plan is answered once under the exported guard. Alone: exactly the plan's events are removed, each past the chain it found in a page the sink took; a consumer behind removes nothing, and every page taken then counts for the retry. |
| `ArchiveLoop.LandedIsAccounted` | crates/eventsdb-sqlite/src/retention.rs:596-630 | Every receipt that stands landed when an archive ends was landed before it began, or by another handle while it ran, or is of a page the sink took. |
| `Interference.TransactionsFollow` | crates/eventsdb-sqlite/src/retention.rs:555-565 | Any transactions of other handles, other archives' included, are interference the archive loop is proved against. |
| `Rising.BeforeCannotGrow` | crates/eventsdb-sqlite/src/retention.rs:558-562 | Whatever transactions come later, a `Before` plan selects no event that was not there before, exactly when its bound has already been issued; above that the next append may fall under it. |
| `ExactlyOnce.PageIsRange` | crates/eventsdb-sqlite/src/project.rs:253-276 | A batch holds exactly the live rows of the projection's kinds up to the position it claims to have seen through, full or short. |
| `ExactlyOnce.FoldedExactlyOnce` | crates/eventsdb-sqlite/src/project.rs:246-284 | In every state of every run, with any number of runners, forced removals, failures, rebuilds and closures that swallow their errors, a strict projection's model is the fold of every event of its kinds (all, if it names none) ever committed at or below its stored cursor. |
| `ExactlyOnce.RefusedWhenSomethingIsGone` | crates/eventsdb-sqlite/src/retention.rs:358-368 | In every state of every run a batch is refused as truncated exactly when the projection is strict and some event committed above its cursor is gone. |
| `ExactlyOnce.RegisteredIsNeverTruncated` | crates/eventsdb-sqlite/src/retention.rs:437-462 | In any run without a forced plan, a strict projection with a stored cursor that only its runner writes is never refused as truncated. |
| `ExactlyOnce.UnregisteredIsStranded` | crates/eventsdb-sqlite/src/retention.rs:437-462 | A strict projection with no stored cursor is refused after any removal the default guard allowed. |
| `Runner.ProjectionRunner.WithBatch` | crates/eventsdb-sqlite/src/project.rs:200-203 | A batch is at least one event, and otherwise what was asked. |
| `Runner.ProjectionRunner.RunOnce` | crates/eventsdb-sqlite/src/project.rs:224-293 | The completeness check, the page, the applies and the cursor are one transaction: the loop leaves what the batch function says, or nothing. |
| `Runner.ProjectionRunner.CatchUp` | crates/eventsdb-sqlite/src/project.rs:301-310 | Batches until one applies nothing, ending; the total and the tables are the catch-up function's, an error keeping the batches before it. |
| `Runner.ProjectionRunner.Rebuild` | crates/eventsdb-sqlite/src/project.rs:399-411 | Refused on a truncated log before anything is emptied; otherwise emptied, rewound and caught up. |
| `Runner.NewRunner` | crates/eventsdb-sqlite/src/project.rs:156-182 | A second live runner for a name is refused and takes nothing. |
| `CatchUp.CatchUpIs` | crates/eventsdb-sqlite/src/project.rs:256-310 | For every batch size: it succeeds exactly when nothing stands in the way and every remaining event applies, and then each was applied once in order and the cursor is at the head or where it was. |
| `CatchUp.BatchSizeChangesNothing` | crates/eventsdb-sqlite/src/project.rs:184-203 | Any two batch sizes answer alike and, when they succeed, leave the same tables. |
| `CatchUp.RunOnceExactly` | crates/eventsdb-sqlite/src/project.rs:224-293 | One batch, in terms of the rows: the first `batch` live rows of its kinds past the cursor, or all there are, folded in order; the cursor then at the last of a full batch or else at the head, never back; or refused, with every reason and nothing changed. |
| `CatchUp.FailureKeepsBatches` | crates/eventsdb-sqlite/src/project.rs:296-310 | Whatever stopped it, the model is the fold of exactly the rows the cursor has passed. |
| `CatchUp.RebuildForgets` | crates/eventsdb-sqlite/src/project.rs:388-411 | Exactly how a rebuild ends, wherever the projection stood: refused untouched on a truncated log, emptied and refused with its filter, stopped by an event that does not apply, and in every other case the fold of all matching live events with the cursor at the head. |
| `Announce.CommitNames` | crates/eventsdb-sqlite/src/hatch.rs:730-734 | What a commit returns names the newest position it added, and is empty only if it added none, given closures that propagate their errors. |
| `Announce.AnnouncedIsIssued` | crates/eventsdb-sqlite/src/hatch.rs:730-734 | No commit publishes a position that was not issued, whatever its closure swallowed, as long as it rolls nothing back itself. |
| `Savepoints.SavepointsLeaveStandingCalls` | crates/eventsdb-sqlite/src/hatch.rs:155-212 | A closure that sets savepoints on its raw transaction, rolls back to them and releases them commits the tables that the closure of its calls not rolled back would: what is proved of closures' tables holds of these. |
| `Savepoints.LostPositionsAreAnnounced` | crates/eventsdb-sqlite/src/txn.rs:36-41 | Such a closure publishes nothing that was not issued exactly when the log has grown back to every position its rollbacks gave up; so always, if none was. |
| `Savepoints.RolledBackPositionIsPublished` | crates/eventsdb-sqlite/src/txn.rs:36-41 | An append rolled back to a savepoint publishes its position over an empty log, and the commit that is given the position next wakes nobody. |
| `Follow.NoLostWakeUp` | crates/eventsdb-sqlite/src/project.rs:369-386 | Opened on any log, with publishes late and in any order, a runner parked with no unseen change is past every live event at or below the published position, which was always issued. |
| `Follow.PublishedNeverFalls` | crates/eventsdb-sqlite/src/shared.rs:80-102 | Along any run the published position never falls. |
| `Follow.WakeIsOnItsWay` | crates/eventsdb-sqlite/src/project.rs:330-386 | Opened on any log with the channel seeded at its head: with every writer in the process and not detached, a sleeping runner that has not folded some live event has a publish still to come that wakes it. |
| `Follow.WakeLeadsToFold` | crates/eventsdb-sqlite/src/project.rs:375-386 | From any wait, the wake, the mark and enough batches with nothing in between leave exactly what a whole catch-up leaves, parked again with the channel marked as seen, or ended by its error. |
| `Follow.EndsByError` | crates/eventsdb-sqlite/src/project.rs:359-386 | Along any run a follow has ended only if a batch of it answered with an error. |
| `Follow.FollowedExactlyOnce` | crates/eventsdb-sqlite/src/project.rs:336-386 | A follow opened on any log keeps a strict projection's model the fold of every matching event ever committed up to its cursor, at every moment, with writers in any process and closures that swallow their errors. |
| `Follow.LogIsTheRun` | crates/eventsdb-sqlite/src/project.rs:375-386 | The log a follow reads is what its writers' transactions and its own batches make, run one after another. |
| `Follow.EachSentOnce` | crates/eventsdb-sqlite/src/shared.rs:80-102 | Along any run what commits handed over is what was published and what is still on its way, none of it twice. |
| `Rising.OpGrows` | crates/eventsdb-sqlite/src/schema.rs:50-60 | Every transaction of any kind, closures that break counters included, leaves only rows that were there or stand above every position issued before. |
| `Rising.RunIsGrowing` | crates/eventsdb-sqlite/src/schema.rs:50-60 | The states of any run are a growing log, so what holds of paged reads over growing logs holds of every run. |
| `Subscription.NeverMissed` | crates/eventsdb-sqlite/src/log.rs:822-831 | What a reader has not missed at one moment it has not missed at any later one. |
| `Subscription.JumpIsSafe` | crates/eventsdb-sqlite/src/log.rs:846-886 | After a short page, moving the cursor to a head read before that page skips no live matching event. |
| `Subscription.Paged` | crates/eventsdb-sqlite/src/log.rs:832-909 | Replay and subscription, dropped at any yield: yields are strictly increasing, matching and past the start, and from the last page on no live matching event up to the cursor is unyielded; every round of a replay but the one that ends the range yields 256, so with enough looks it ends with the range yielded whole. |
| `Subscription.Round` | crates/eventsdb-sqlite/src/log.rs:846-886 | A round that is not refused yields the first 256 matching live rows past its start, or all there are, unless the consumer stops it; and the range is exhausted exactly when those were all yielded and fewer than 256. |
| `Transfer.RecordRoundTrips` | crates/eventsdb-core/src/transfer.rs:88-144 | A record survives its JSON form exactly when its stream has a name and its event is a stored one; nothing else comes back changed. |
| `Transfer.ReadsWhatIsWritten` | crates/eventsdb-core/src/transfer.rs:102-144 | A line reads as a record exactly when its three members are those the record is written with, a null position counting as none; every other line is refused as invalid. |
| `Transfer.ExportIsFaithful` | crates/eventsdb-sqlite/src/transfer.rs:27-59 | An export hands out live matching rows past its start in position order, each as a record that restamps and writes back to the row's columns; a matching row is missing only past the end of a full page. |
| `EventLog.SqliteEventLog.Export` | crates/eventsdb-sqlite/src/transfer.rs:27-59 | The loop over the rows hands out what the export function says, or the read's refusal. |
| `Transfer.ImportedPositions` | crates/eventsdb-sqlite/src/txn.rs:299-331 | An import of n records answers with the next n positions in order. |
| `Transfer.ReportIsRight` | crates/eventsdb-sqlite/src/transfer.rs:79-97 | The report of an import gives the count, the first and last of the next positions in a row, and whether each record landed on the position it carried. |
| `Transfer.EmptyImport` | crates/eventsdb-sqlite/src/transfer.rs:71-78 | An import of nothing changes nothing and reports reproduced. |
| `Transfer.PageGoesIn` | crates/eventsdb-sqlite/src/transfer.rs:71-100 | Importing exported rows into a copy never aborts below the position ceiling. |
| `Transfer.SameLog` | crates/eventsdb-sqlite/src/transfer.rs:79-97 | In every state of every run a source's live events exported in pages of any sizes go into a never-written store; every report says reproduced exactly when nothing below the source's head was removed, and then the rows are the source's, sequence numbers included. |
| `Transfer.CountedCopyIsSame` | crates/eventsdb-sqlite/src/transfer.rs:79-97 | A copy of rows at positions 1 to n is those rows exactly when they carry their streams' numbers, which the report never compares. |
| `Transfer.UntouchedLogIsReproduced` | crates/eventsdb-core/src/transfer.rs:153-160 | If nothing was ever removed every report says reproduced and the copy is the whole history. |
| `Transfer.PagingIsWhole` | crates/eventsdb-sqlite/src/transfer.rs:22-59 | Exporting page by page with any limit loses nothing, repeats nothing and keeps the order. |
| `Transfer.MovedLog` | crates/eventsdb-sqlite/src/transfer.rs:22-100 | Paging a log with any limit into a never-written store copies it, and reports so when nothing was removed. |
| `EventLog.SqliteEventLog.Import` | crates/eventsdb-sqlite/src/transfer.rs:71-100 | One transaction, a report of where everything landed, and the last of the new positions published; or nothing. |
| `EventLog.LogSink.Write` | crates/eventsdb-core/src/transfer.rs:303-315 | A page that is not empty is one import whose report is kept and whose last position is published; a refusal keeps reports, target and channel as they were. |
| `EventLog.LogSink.WriteAll` | crates/eventsdb-core/src/transfer.rs:240-315 | Pages written in order until one is refused: target, reports and channel are those of the pages that went in, and the refusal is the next page's. |
| `EventLog.LogSink.ReproducedCoordinates` | crates/eventsdb-core/src/transfer.rs:282-291 | The conjunction over the reports, true before the first. |
| `MemStore.MemEventStore.Append` | crates/eventsdb-core/src/mem.rs:70-80 | One stamped event pushed at length plus one, or nothing. |
| `MemStore.MemEventStore.AppendMany` | crates/eventsdb-core/src/mem.rs:82-93 | Validated whole before any of it is pushed, each event with a clock reading of its own. |
| `MemStore.MemEventStore.AppendIf` | crates/eventsdb-core/src/mem.rs:95-105 | The decision sees the projected list; its event is pushed, or nothing changes. |
| `Mem.AppendIsPlaced` | crates/eventsdb-core/src/mem.rs:59-80 | An append succeeds exactly for a valid event and keeps every event numbered by its place. |
| `Backends.BackendsAgree` | crates/eventsdb-sqlite/src/store.rs:166-210 | Any conversation with one stream gets the same answers from both stores and leaves them holding the same, given a clock that stands still in a batch, reads from the signed range, and room for positions. |
| `Backends.NeverWrittenAgrees` | crates/eventsdb-core/src/mem.rs:24-32 | A stream nobody wrote to starts the two alike. |
| `Backends.LastAgree` | crates/eventsdb-sqlite/src/store.rs:596-621 | The descending read reversed equals the tail of the list, for every `n`. |
| `Backends.BoundPastRangeParts` | crates/eventsdb-sqlite/src/store.rs:166-184 | A lower bound past the signed range wraps: the two stores' reads agree exactly when the bound is in range or there was nothing to read. |
| `Backends.TickingClockParts` | crates/eventsdb-sqlite/src/store.rs:318-324 | The two stores' batches answer alike exactly when the clock did not move inside the batch. |
| `Ladder.BackfillCounts` | crates/eventsdb-sqlite/src/schema.rs:111-118 | The backfill stores a counter for exactly the streams with a live event, one past the highest live number. |
| `Ladder.StepCommits` | crates/eventsdb-sqlite/src/schema.rs:245-294 | A step that is due commits its own names and the version past it, and counters only with the table that holds them: stored counters are never written again. |
| `Ladder.RacingOpeners` | crates/eventsdb-sqlite/src/schema.rs:245-294 | However openers interleave, none is refused, each missing step commits once and in order, a finished opener sees the target version, and once counters are stored every live number is below its stream's. |
| `Ladder.FinishedAtItsFifth` | crates/eventsdb-sqlite/src/schema.rs:245-294 | However openers interleave, each turn takes its opener one step on, so it is finished at its fifth. |
| `Ladder.UseLands` | crates/eventsdb-sqlite/src/schema.rs:105-118 | In any race, an append by a finished opener takes a number past every live one of its stream, stores the next, and touches no other stream. |
| `Ladder.MigrateSucceedsExactly` | crates/eventsdb-sqlite/src/schema.rs:206-294 | A lone opener reaches the target exactly from a version between 0 and it with no needed name taken; a newer file, and a reserved table at version 0, are refused before anything changes. |
| `Ladder.NegativeVersionIsNotMigrated` | crates/eventsdb-sqlite/src/schema.rs:264-281 | Below version 0 every step is skipped and the file is opened unmigrated, without an error. |
| `Ladder.Connection.Migrate` | crates/eventsdb-sqlite/src/schema.rs:245-294 | The loop, one transaction a step, leaves what the step-by-step function says, the steps before an error committed. |

## Left out

- SQLite itself, its driver, threads, pragmas, busy retries and timeouts: a transaction is atomic and serial, a read sees committed rows, and a rollback takes the rowid counter back.
- SQL text, placeholder numbering, query plans and indices: a query is filter, order, limit. A cross-stream read is refused past SQLite's limit on parameters; its other limits (expression depth, statement length) and the parameter limit of `select_stream` are not modelled.
- The authorizer, the pragma allowlist, parameter binding and result conversion of the hatch: a closure is taken to be a sequence of the append and import calls on its context, each either propagating or swallowing its error; its own tables, its reads, and what it computes between calls are not modelled. Savepoints are (`Savepoints`); a closure that commits or rolls back the whole transaction by a statement of its own is not.
- Upcasters: the chain is one total function applied after the read, and is part of a projection's `apply`.
- A projection's own memory: only its tables roll back, so `apply` is a function of the model in the tables and the row.
- Panics in a projection, which lose the runner, and the refusal of a runner whose projection was lost.
- Names and messages in errors: `ConsumerBehind` does not say which consumer, and `Truncated` carries positions only.
- Wall-clock values and poll intervals: an arbitrary number per append, and a wake that may happen at any moment a runner is parked.
- `follow` as a loop: it never returns, so it is the state machine of module `Follow`, one move at a time.
- JSON text and number printing: a JSON number is an unsigned or negative 64-bit integer or a real that a double holds; integers past the signed range are compared as the nearest double.
- `JsonLinesSink` and the flush of its writer: a sink is any object that keeps what it was shown and may fail.
- Which reader connection serves a read, the classes of driver errors, and the retry and backoff of contended writes.
- `read_kinds`, `head` and `len` are functions of the tables (`Backends.Durable`), not methods.
- Catalogue listings, backup, `reclaim`, tracing and benches.
- The rowid ceiling: an insert past the largest signed position fails as a storage error, as SQLite reports it; the counter of a stream stops one past it.
- `init` and the tables of a projection: that they exist is an entry in the map of models, and a batch that applies nothing may add it.
- Follow.WakeIsOnItsWay: says nothing of writers in another process, of detached appends and of positions rolled back to a savepoint, which do not publish here as commits do; the poll interval covers those.
- Announce.AnnouncedIsIssued: is about closures without savepoints, and so are the runs of `Follow`; `Savepoints.LostPositionsAreAnnounced` is the exact condition with them.
- Backends.BackendsAgree: is about one stream with no removal, as the in-memory store has neither other streams nor retention, and leaves out the calls that store declines.
- Ladder.RacingOpeners: takes the statements of a step as one atomic change of names, versions and counters, and columns and triggers as names.
