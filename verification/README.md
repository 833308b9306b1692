# Rowcache invalidator — a Dafny model

This project models the event-processing core of the Vitess tablet server's
rowcache invalidator. The invalidator follows the MySQL binlog stream and
keeps the row cache consistent with it. For every replication event it
either deletes the exact cache keys a row change touched, or, when that is
not possible, reloads the whole table's schema entry, which drops its cached
rows. It also tracks the replication position so that a reconnect resumes
where processing stopped.

The model is functional. The invalidator's state is an immutable `State`
record holding:

- the replication position, as the sequence of GTIDs processed;
- the known tables, each with its cache policy and invalidation counter;
- the ordered log of operations issued to the cache and schema collaborators;
- the "Invalidation" and "Panic" internal-error counters;
- the lag.

Every operation is a pure function from a state to a state.

All external collaborators are fields of an `Env` record of total functions:

- the DDL parser and the generic SQL parser;
- GTID decoding;
- `validateKey(buildKey(tuple))` as one key function, where `""` means the tuple did not validate;
- a fault oracle that says, for each operation value, whether a `Delete`, `DropTable` or `CreateOrUpdateTable` call with it panics, and with what.

Go's `panic`/`recover` becomes an `Outcome`: `Ok`, `TabletErr(code)` or
`OtherFailure`. The stream transport is an oracle too. Each attempt delivers
events, then ends cleanly, with an error or with a panic. Each attempt also
carries the running flag that the loop reads after the stream call returns.

Modules:

- `RowcacheTypes` (`types.dfy`): the data model.
- `PositionTracker` (`position.dfy`): `AppendGtid`, `SetPosition` and `Position`.
- `Effects` (`effects.dfy`): issuing collaborator operations in order, stopping at the first panic (`IssuedInOrder`), and the internal-error counters.
- `DmlHandler` (`dml.dfy`), `DdlHandler` (`ddl.dfy`) and `FallbackHandler` (`fallback.dfy`): the three event handlers.
- `Dispatcher` (`dispatcher.dfy`): `processEvent` and its failure boundary.
- `Supervisor` (`supervisor.dfy`): event delivery within one stream attempt, the run loop's exit/retry decision, `Open` and `Close`.

Three points about the code that a reader of its comments might not expect:

- **Clean stream end.** The comment at
  `go/vt/tabletserver/rowcache_invalidator.go:121-122` says the loop retries
  after an error and "can only be stopped by calling Close". The test at line
  131, `err == nil || !ctx.IsRunning()`, also ends the loop when the stream
  call returns nil while the service is still running. The model follows
  line 131 (`Decide`, `CleanEndStopsTheLoop`). Whether the streamer can
  return nil while running depends on `binlog.EventStreamer`, which is not
  part of this model.
- **Open after Close.** `Open` always sets the position to the source's
  current master position (lines 87 and 101). So `Open` after `Close` does
  not resume from the last tracked position (`ReopenUsesMasterPosition`).
- **Database name.** `Open` stores its `dbname` argument (line 99), and the
  stream is opened on it (line 119). The fallback handler's cross-database
  check (line 241) compares against `rci.qe.dbconfigs.App.DbName` instead.
  That name is `Env.appDbName` here.

## Model

| member | source | states |
|---|---|---|
| PositionTracker.AppendGtid | go/vt/tabletserver/rowcache_invalidator.go:41-47 | the new position is the old one extended by exactly the given GTID; nothing else in the state changes |
| PositionTracker.SetPosition | go/vt/tabletserver/rowcache_invalidator.go:49-54 | reading the position afterwards yields exactly the value set; nothing else changes |
| PositionTracker.AppendThenRead | go/vt/tabletserver/rowcache_invalidator.go:56-61 | `Position` returns the stored value: after an append it is the old position plus the GTID, and setting the position to what was read changes nothing |
| DmlHandler.ExpectedDeletesExact | go/vt/tabletserver/rowcache_invalidator.go:193-197 | the deletions a DML event calls for delete only from that table, only non-empty keys, and each non-empty key exactly as many times as tuples validate to it; their number is the number of tuples with a non-empty key |
| DmlHandler.DeleteEach | go/vt/tabletserver/rowcache_invalidator.go:193-200 | the loop issues the expected deletions in tuple order, stopping at the first that panics; the count equals the number of deletions issued and, on normal completion, the number expected |
| DmlHandler.HandleDmlEvent | go/vt/tabletserver/rowcache_invalidator.go:183-202 | unknown table: BAD_INPUT with no deletion and no counter change; CACHE_NONE: nothing changes; otherwise the expected deletions are issued in order, and the table's counter rises by their number only if none panicked, with every other table untouched |
| DmlHandler.DmlDeletesAll | go/vt/tabletserver/rowcache_invalidator.go:193-201 | when no deletion panics, a DML event on a cached table logs exactly the expected deletions and adds their number to the table counter once; position, error counters and lag are unchanged |
| DdlHandler.DdlOps | go/vt/tabletserver/rowcache_invalidator.go:209-215 | a plan calls for `DropTable(TableName)` iff `TableName` is non-empty and differs from `NewName`, for `CreateOrUpdateTable(NewName)` iff `NewName` is non-empty, for nothing else, and for the drop strictly before the create |
| DdlHandler.HandleDdlEvent | go/vt/tabletserver/rowcache_invalidator.go:204-216 | an empty plan action is BAD_INPUT with no schema operation; otherwise the plan's operations are issued in order, stopping at the first that panics |
| DdlHandler.RenameDropsThenCreates | go/vt/tabletserver/rowcache_invalidator.go:209-215 | a rename drops the old name and then loads the new one, and issues nothing else |
| DdlHandler.CreateOnlyCreates | go/vt/tabletserver/rowcache_invalidator.go:209-215 | a create with no old name loads the new table and drops nothing |
| FallbackHandler.RefreshTable | go/vt/tabletserver/rowcache_invalidator.go:240-260 | a table of another database is ignored; an unknown table adds one to the "Invalidation" counter; a CACHE_NONE table changes nothing; a cached table is reloaded with exactly one `CreateOrUpdateTable` |
| FallbackHandler.HandleUnrecognizedEvent | go/vt/tabletserver/rowcache_invalidator.go:218-238 | a parse error or a statement other than insert/update/delete adds one to the "Invalidation" counter and does nothing else; an insert changes nothing; an update or delete is resolved on its target table |
| FallbackHandler.FallbackIsConservative | go/vt/tabletserver/rowcache_invalidator.go:218-261 | for every statement the handler never deletes a key or drops a table; it reloads at most the statement's target, adds at most one to the "Invalidation" counter only when it reloads nothing, and does not itself write the table map, the position, the lag or the "Panic" counter |
| FallbackHandler.FallbackActsAsDdl | go/vt/tabletserver/rowcache_invalidator.go:253-260 | an update or delete of a cached local table ends exactly as a schema change that keeps that table's name would |
| Dispatcher.HandlersKeepPosition | go/vt/tabletserver/rowcache_invalidator.go:160-167 | the DDL, DML and ERR handlers never move the position, set the lag or add to the "Panic" counter; only the ERR handler adds to the "Invalidation" counter |
| Dispatcher.HandleInvalidationError | go/vt/tabletserver/rowcache_invalidator.go:145-156 | a TabletError adds one to "Invalidation", any other failure adds one to "Panic", and a normal end changes nothing; nothing but the counters changes |
| Dispatcher.ProcessEvent | go/vt/tabletserver/rowcache_invalidator.go:158-181 | an error is returned iff the event is a POS whose id does not decode, and then nothing changes; a decoded POS appends exactly its GTID and sets the lag; an unknown category adds one to "Invalidation" and changes nothing else; a DDL/DML/ERR handler failure is counted and swallowed, with lag and position unchanged, while a normal end sets the lag |
| Dispatcher.PositionMovesOnlyOnPos | go/vt/tabletserver/rowcache_invalidator.go:168-173 | the position after an event is the old one, extended by the event's GTID exactly when it is a decodable POS event |
| Dispatcher.HandlerFailureIsCountedOnce | go/vt/tabletserver/rowcache_invalidator.go:145-159 | a failing handler adds exactly one to the internal-error counters, returns no error and leaves the lag alone |
| Supervisor.Deliver | go/vt/tabletserver/rowcache_invalidator.go:119-130 | delivery stops exactly at the first undecodable POS event, having processed every event before it, so a failing DDL, DML or ERR handler never blocks the next event; the error is reported iff delivery stopped early |
| Supervisor.DeliverProcessesInOrder | go/vt/tabletserver/rowcache_invalidator.go:119-130 | events reach the dispatcher one after another: the state after the first k+1 processed events is the dispatcher's result on event k from the state after the first k |
| Supervisor.DeliverEndsAfterProcessed | go/vt/tabletserver/rowcache_invalidator.go:119-130 | the state delivery ends in is the state after exactly the events it processed; the undecodable POS event that stopped it leaves no trace |
| Supervisor.DeliverTracksPosition | go/vt/tabletserver/rowcache_invalidator.go:168-173 | after delivery the position is the start position followed by exactly the GTIDs of the POS events processed, in order |
| Supervisor.StreamError | go/vt/tabletserver/rowcache_invalidator.go:123-130 | the stream call's error is the dispatcher's error if it stopped delivery; otherwise it is nil exactly when the stream ended cleanly, so a panic always becomes a non-nil error |
| Supervisor.Decide | go/vt/tabletserver/rowcache_invalidator.go:131-133 | the loop retries iff the stream call returned an error and the service is still running |
| Supervisor.RunAttempt | go/vt/tabletserver/rowcache_invalidator.go:119-130 | an attempt starts from the loop's current state, and its stream call returns nil iff every event was processed and the stream ended cleanly |
| Supervisor.AttemptTracksPosition | go/vt/tabletserver/rowcache_invalidator.go:119-130 | an attempt, failed or not, leaves the position at its start followed by the GTIDs of the POS events it processed |
| Supervisor.Run | go/vt/tabletserver/rowcache_invalidator.go:117-143 | every attempt is played from the state the loop had when it opened it; every attempt but the last failed while running, and the next one reopens from the position it reached with one more "Invalidation" error; the loop exits exactly when the last decision says so |
| Supervisor.ExitOnlyWhenCleanOrStopped | go/vt/tabletserver/rowcache_invalidator.go:131-139 | the loop exits only after a nil stream error or once the running flag is off; every earlier call failed while running |
| Supervisor.CleanEndStopsTheLoop | go/vt/tabletserver/rowcache_invalidator.go:131-133 | a stream that ends cleanly after all its events ends the loop with no further attempt, even while the service is still running |
| Supervisor.ResumeAfterBadPos | go/vt/tabletserver/rowcache_invalidator.go:117-139 | when an undecodable POS event aborts an attempt while the service runs, the loop opens a new attempt from the aborted one's start position plus the GTIDs of the POS events processed before the bad one |
| Supervisor.Open | go/vt/tabletserver/rowcache_invalidator.go:82-109 | a running service is left unchanged; a missing master position, an empty binlog path or a failed rowcache clear aborts with nothing changed; otherwise the cache is cleared, the position is set to the master position and the service runs |
| Supervisor.Close | go/vt/tabletserver/rowcache_invalidator.go:111-115 | the service is no longer running and keeps its state |
| Supervisor.OpenIsIdempotent | go/vt/tabletserver/rowcache_invalidator.go:83-86 | a second `Open` on a started service changes nothing, whatever it is given |
| Supervisor.ReopenUsesMasterPosition | go/vt/tabletserver/rowcache_invalidator.go:87-101 | `Open` after `Close` restarts from the source's master position, not from the last tracked position |

## Left out

- Goroutines, `sync2.ServiceManager` and `posMutex` are concurrency plumbing. The model is one sequential context. `Close` only clears the running flag: blocking until the loop has exited is not modelled. The case where `svm.Go` refuses to start a second loop cannot arise sequentially.
- `time.Sleep` and `time.Now()`: the one-second back-off is not modelled. The wall-clock time arrives with each delivery as `now`, and the lag is `now - timestamp`.
- `checkMySQL`, `IsConnErr`, all logging, `PositionString` and the stats publishing in `NewRowcacheInvalidator` are I/O and metrics side channels.
- `binlog.NewEventStreamer` and `Stream` are an oracle. The model assumes the streamer stops at the first error `processEvent` returns and hands that error back. The streamer's source is not part of this model.
- The parsers (`planbuilder.DDLParse`, `sqlparser.Parse`), `myproto.DecodeGTID`, `buildKey` and `validateKey` are total functions in `Env`. The mismatch statistics `validateKey` records and any panic these functions could raise are not modelled.
- `Env.fault` is a function of the operation alone, so a collaborator call that fails once fails on every repeat, within one event (two tuples with the same key), across events, and across run-loop attempts; transient failures are not modelled. No proved property depends on a repeated call behaving differently.
- `myproto.AppendGTID` is modelled as appending to a sequence. A real GTID set absorbs a repeated GTID, so replaying the same POS event is idempotent there but not in this model.
- The effect of `DropTable` and `CreateOrUpdateTable` on the schema's table map belongs to the schema collaborator. The model records these calls in the operation log and leaves the table map as it was. The same holds for the effect of `ClearRowcache` and `Cache.Delete` on the cache contents.
- The 64-bit width of the table invalidation counter and of `lagSeconds` is not modelled: counters are unbounded integers.
- The TabletError kinds `ErrFail` and `ErrFatal` are not distinguished, and neither is the code of a TabletError raised inside a collaborator: only its type matters to `handleInvalidationError`. The fatal panics of `Open` become `OpenResult.fatal`, with the service unchanged.
