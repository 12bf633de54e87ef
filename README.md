# NDomain event store and projection materializer, modelled in Dafny

This project models the two orchestration cores of NDomain, an event-sourcing
library, together with the reducer table they use.

* **Event store** (`EventStore.dfy`, module `EventSourcing`). `Append` runs the
  append -> publish -> commit protocol. It appends the serialized batch to the
  backend under one transaction id, publishes that batch on the bus, then
  commits the transaction. `Load` and `LoadRange` read committed events. When
  the ambient transaction is a redelivery (`DeliveryCount > 1`), they first
  publish and commit anything an earlier attempt of the same transaction left
  uncommitted on that aggregate. `LoadRangeWithoutCheckingUncommitted` reads
  without that recovery. The class `EventStore` holds the backend state `db`
  (a map from aggregate id to stored events, each tagged with its transaction
  id and a committed flag) and the bus log `published`. It also holds a ghost
  trace `calls` of every backend and bus call, so the contracts can state the
  order and presence of effects.
* **Backend contract** (`EventStoreDb.dfy`). Pure functions give what each
  backend call returns or leaves behind: the committed view, range reads,
  pending events of a transaction, the version-checked append and the commit.
* **Projection materializer** (`QueryEventsHandler.dfy`, module `Projections`).
  `OnEvent` does one of three things. It skips an event that is already
  reflected. It applies the next event in place with its reducer. Across a gap,
  it fast-forwards by folding the reducers over a range read. `Consolidate`
  fast-forwards to `int.MaxValue` and writes only when the version advances.
  Every write is a compare-and-swap `Set` keyed on the version read at the
  start. The class `QueryEventsHandler<T>` holds the query store `store`, a
  ghost log `writes` of every `Set` with its expected version, the event store
  and the reducer table.
* **Query mutator** (`QueryMutator.dfy`). A read-only map from event name to an
  abstract reducer `(T, AggregateEvent) -> T`.

`Events.dfy` holds the shared values: the event, its wire form, the
serializer, and the `ConcurrencyConflict` / `MissingHandler` errors.

The ambient `DomainTransaction.Current` becomes an explicit
`Option<Transaction>` argument. The GUID minted when there is no transaction
becomes a `freshId` argument. A `null` query id becomes `Option<string>`.
Thrown exceptions become `Result` values.

Beyond the per-call contracts, the lemmas prove the following:

* Recovery finishes the pending transaction, and a second recovery finds
  nothing.
* When the transaction has nothing pending on the stream, an append followed
  by a read returns the old stream followed by the appended events. When an
  earlier attempt of the same transaction left events pending, the commit
  also makes those visible, though the bus only gets the new batch.
* A repeated append at the same stale expected version conflicts.
* On a stream with increasing sequence ids, a second `Consolidate` with no new
  events writes nothing.
* Convergence: on a committed stream whose sequence ids run 1, 2, 3, ...,
  the fresh snapshot of an unknown id replays the empty prefix
  (`FreshSnapshotIsReplayed`), and every `OnEvent` keeps the snapshot equal to
  a replay of a stream prefix.
  `Consolidate` then reaches the replay of the whole stream, which is what
  rebuilding the read model from scratch produces.

`FastForward` starts `lastVersion` at 0 (`QueryEventsHandler.cs:81`). So an
empty range returns version 0, and the gap branch of `OnEvent` writes that
back. The model follows the code; see "Findings".

## Model

| member | source | states |
|---|---|---|
| `Events.RoundTripAll` | source/NDomain/EventSourcing/EventStore.cs:68-69 | Deserializing a serialized batch gives back the batch, in order (the serializer contract that reads rely on). |
| `EventStoreDb.AppendTx` | source/NDomain/EventSourcing/EventStore.cs:74 | The backend append succeeds exactly when the stream is at the expected version, and fails with a concurrency conflict otherwise. On success the version grows by the batch size, readers see nothing new, the batch is pending under the transaction id, and other streams are untouched. |
| `EventStoreDb.CommitAfterAppend` | source/NDomain/EventSourcing/EventStore.cs:74-77 | Append then commit on a stream with nothing pending for the transaction extends the committed view by exactly the batch, in order. |
| `EventStoreDb.AppendCommitsEarlierPending` | source/NDomain/EventSourcing/EventStore.cs:74-77 | Append then commit on any stream: readers see what was committed before, what the transaction had pending, and the batch, and nothing else. |
| `EventStoreDb.CommittedMembers` | source/NDomain/EventSourcing/EventStore.cs:37 | A stream read returns exactly the stored events that are committed. |
| `EventStoreDb.UncommittedMembers` | source/NDomain/EventSourcing/EventStore.cs:83 | The pending read returns exactly the stored events of the transaction that are not committed. |
| `EventStoreDb.CommitLeavesNothingPending` | source/NDomain/EventSourcing/EventStore.cs:87 | After a commit of a transaction, nothing of that transaction is pending. |
| `EventStoreDb.CommitPublishesPending` | source/NDomain/EventSourcing/EventStore.cs:83-88 | After a commit, readers see exactly what was committed before plus what the transaction had pending. |
| `EventStoreDb.InRangeMembers` | source/NDomain/EventSourcing/EventStore.cs:51 | A range read returns exactly the committed events whose sequence id lies in `[start, end]`. |
| `EventSourcing.TransactionIdFor` | source/NDomain/EventSourcing/EventStore.cs:71-72 | The append uses the ambient transaction's id when there is one, otherwise the freshly minted id. |
| `EventSourcing.EventStore.Load` | source/NDomain/EventSourcing/EventStore.cs:29-41 | The call trace is the recovery calls (only on a redelivery) followed by one `Load`. The bus and db change only by the recovery. The result is the deserialized committed stream, read after recovery, with the same count and order. |
| `EventSourcing.EventStore.LoadRange` | source/NDomain/EventSourcing/EventStore.cs:43-55 | Same as `Load`, with the read restricted to sequence ids in `[start, end]`. |
| `EventSourcing.EventStore.LoadRangeWithoutCheckingUncommitted` | source/NDomain/EventSourcing/EventStore.cs:57-64 | Makes only the range read, whatever the transaction. It never publishes or commits, and it leaves db and bus unchanged. |
| `EventSourcing.EventStore.Append` | source/NDomain/EventSourcing/EventStore.cs:66-79 | On success the calls are exactly db `Append`, bus `Publish`, db `Commit`, in that order. One transaction id is used for append and commit. The published batch is exactly the appended one. On a version conflict only the failed append happens: nothing is published or committed and the db is unchanged. |
| `EventSourcing.EventStore.CheckAndProcessUncommittedEvents` | source/NDomain/EventSourcing/EventStore.cs:81-89 | Always calls `LoadUncommitted` for `(aggregateId, transactionId)`. Publish and commit follow, in that order, only when pending events exist. An empty result leaves bus and db unchanged. |
| `EventSourcing.PlainReadHasNoEffects` | source/NDomain/EventSourcing/EventStore.cs:31-35 | With no transaction, or with `DeliveryCount <= 1`, a read makes no `LoadUncommitted`, `Publish` or `Commit` call and leaves db and bus unchanged. |
| `EventSourcing.RedeliveryChecksFirst` | source/NDomain/EventSourcing/EventStore.cs:45-51 | With `DeliveryCount > 1`, the first call is the pending check for this aggregate and transaction, before the read. It is the only extra call exactly when nothing is pending, and then db and bus are unchanged. |
| `EventSourcing.RecoveryCompletesTransaction` | source/NDomain/EventSourcing/EventStore.cs:83-88 | After a recovery that found pending events, the bus got exactly those events, in order, in one batch. The transaction then has nothing pending, so recovery again is a no-op. The read that follows sees the old committed events plus the recovered ones. |
| `EventSourcing.AppendThenLoad` | source/NDomain/EventSourcing/EventStore.cs:66-79 | When the transaction has nothing pending on the stream, after a successful append and commit, reading the stream returns the previous stream followed by the appended events, in order. |
| `EventSourcing.AppendCommitsUnpublishedLeftovers` | source/NDomain/EventSourcing/EventStore.cs:74-77 | After a successful append and commit, readers see exactly the old committed events, the events this transaction still had pending from an earlier attempt, and the new batch. (`Append`'s own contract says only the new batch is published.) |
| `EventSourcing.StaleAppendConflicts` | source/NDomain/EventSourcing/EventStore.cs:74 | Once a non-empty append has gone through, another append at the same (now stale) expected version fails with a concurrency conflict. |
| `QueryMutator.GetEventHandler` | source/NDomain/CQRS/Projections/QueryMutator.cs:16-24 | Returns the reducer registered under the event's name exactly when one is registered. Otherwise it fails with a missing-handler error naming the event. |
| `QueryMutator.TryGetEventHandler` | source/NDomain/CQRS/Projections/QueryMutator.cs:26-29 | Returns true exactly when `GetEventHandler` succeeds, and then yields the same reducer. Otherwise it yields nothing. |
| `QueryMutator.LookupDependsOnlyOnName` | source/NDomain/CQRS/Projections/QueryMutator.cs:16-29 | Two events with the same name get the same answer from both lookups, whatever their other fields. |
| `Projections.Fold` | source/NDomain/CQRS/Projections/QueryEventsHandler.cs:83-88 | Folding reducers over events fails only with a missing-handler error for a name that has no reducer. |
| `Projections.FoldSucceedsIffHandled` | source/NDomain/CQRS/Projections/QueryEventsHandler.cs:83-88 | The fold succeeds exactly when every folded event's name has a reducer. |
| `Projections.FoldConcat` | source/NDomain/CQRS/Projections/QueryEventsHandler.cs:83-88 | Folding over two batches equals folding over the first, then over the second from its result. |
| `Projections.QueryIdFor` | source/NDomain/CQRS/Projections/QueryEventsHandler.cs:30 | The projection id is the given one, or the event's aggregate id when none is given. |
| `Projections.QueryEventsHandler.Get` | source/NDomain/CQRS/Projections/QueryEventsHandler.cs:31 | The snapshot read for an id carries that id. An unknown id gives a fresh snapshot at version 0. |
| `Projections.QueryEventsHandler.Set` | source/NDomain/CQRS/Projections/QueryEventsHandler.cs:56 | A compare-and-swap on the stored version. It replaces the snapshot exactly when the stored version is the expected one, and otherwise fails with a conflict and changes nothing. Every call is logged, and snapshots stay stored under their own id. |
| `Projections.QueryEventsHandler.OnEvent` | source/NDomain/CQRS/Projections/QueryEventsHandler.cs:28-57 | The store and the `Set` log change by exactly the write `OnEventStep` gives: none, or one `Set` under the query id whose expected version is the version read at the start. A missing handler means no write and an error. Only a gap makes an event-store call: one range read of `[version + 1, ev.SequenceId]` on the snapshot's id. Db and bus are untouched. |
| `Projections.QueryEventsHandler.Consolidate` | source/NDomain/CQRS/Projections/QueryEventsHandler.cs:59-72 | Reads `[version + 1, int.MaxValue]` once. The store changes only by the write `ConsolidateStep` gives: one `Set` under the projection's own id (equal to the aggregate id), keyed on the version read at the start. Db and bus are untouched. |
| `Projections.QueryEventsHandler.FastForward` | source/NDomain/CQRS/Projections/QueryEventsHandler.cs:74-97 | Makes one recovery-free range read from just past the snapshot's version up to the ceiling. Returns the fold of the reducers over the loaded events, in order, as `FastForwardResult` defines it. |
| `Projections.DuplicateIsNoOp` | source/NDomain/CQRS/Projections/QueryEventsHandler.cs:35-39 | An event whose sequence id is at or below the stored version causes no write, so redelivered duplicates are idempotent. |
| `Projections.ContiguousEventIsApplied` | source/NDomain/CQRS/Projections/QueryEventsHandler.cs:47-53 | When the version is `SequenceId - 1`, the write keeps the id, sets `Data = handler(oldData, ev)` and `Version = ev.SequenceId`. Without a registered handler it is a missing-handler error. |
| `Projections.GapIsFastForwarded` | source/NDomain/CQRS/Projections/QueryEventsHandler.cs:42-45 | When the version is below `SequenceId - 1`, the write is the fast-forward over the loaded range, and its failure is the step's failure. |
| `Projections.FastForwardFolds` | source/NDomain/CQRS/Projections/QueryEventsHandler.cs:80-96 | With every loaded name handled, fast-forward keeps the id and its data is the fold of the loaded events. Its version is the last loaded sequence id, or 0 with the data unchanged when the range is empty. |
| `Projections.ConsolidateOnlyAdvances` | source/NDomain/CQRS/Projections/QueryEventsHandler.cs:63-71 | Consolidation writes only a strictly newer version of the same projection. An empty range at a non-negative version means no write. |
| `Projections.ConsolidateIdempotent` | source/NDomain/CQRS/Projections/QueryEventsHandler.cs:59-72 | On a stream with increasing sequence ids and no new events, a second consolidation started from what the first wrote performs no write. |
| `Projections.FreshSnapshotIsReplayed` | source/NDomain/CQRS/Projections/QueryEventsHandler.cs:31 | The snapshot a projection starts from (version 0, initial data) is the replay of no events, for any stream. This is the base case of the convergence lemmas. |
| `Projections.OnEventKeepsReplayed` | source/NDomain/CQRS/Projections/QueryEventsHandler.cs:28-57 | On a committed stream with ids 1, 2, 3, ..., from a snapshot that replays a prefix of the stream, `OnEvent` for any of its events, in any branch, writes exactly the replay of the stream up to that event. |
| `Projections.ConsolidateReachesFullReplay` | source/NDomain/CQRS/Projections/QueryEventsHandler.cs:59-72 | From any replayed snapshot of such a stream with every name handled, consolidation ends at the replay of the whole stream and its last version. This is the convergence that lets read models be dropped and rebuilt. |
| `Projections.GapOverEmptyRangeRewindsVersion` | source/NDomain/CQRS/Projections/QueryEventsHandler.cs:81 | As written, a gap whose range read comes back empty writes the snapshot back at version 0, below its stored version. |
| `Projections.FastForwardIntended` | source/NDomain/CQRS/Projections/QueryEventsHandler.cs:80-96 | The corrected fast-forward keeps the id. An empty range returns the snapshot unchanged; otherwise the version is the last loaded sequence id. |
| `Projections.IntendedFastForwardNeverRewinds` | source/NDomain/CQRS/Projections/QueryEventsHandler.cs:81-95 | Over events past the snapshot's version, the corrected fast-forward never lowers the version. It differs from the code as written only on an empty range. |

## Left out

- Logging: the two `logger.Info` messages of `Append` (EventStore.cs:75, 78) are not modelled.
- `async`/`Task`: every awaited call is a sequential step.
- Timestamps: `DateUtc` of events and of projection snapshots (`DateTime.UtcNow`) is not modelled.
- Serializer: the JSON codec is a field-for-field copy between the event and its wire form, with a proved round trip.
- Reflection-based handler discovery (QueryMutator.cs:14): the table is given as a map, and reducers are arbitrary total functions.
- Backend, bus and query store: they are the abstract states described above. Storage or bus I/O failures are not modelled, so there is no failure between publish and commit. The backend's current version is the stream length. A failed append or `Set` changes nothing.
- Projections.QueryEventsHandler.OnEvent: the snapshot `Get` returns is taken to be a copy, and reducers are taken not to change their input. The in-place updates of the fetched `Query<T>` (QueryEventsHandler.cs:51-53) become a record update, and `FastForward` folds over a value (lines 80, 86), so the store changes only through `Set`. A store whose `Get` hands out its own stored object, or a reducer that changes `Data` in place, would change the stored snapshot before the compare-and-swap. That aliasing is not modelled.
- Projections.QueryEventsHandler.Get: the query store's `Get` for an unknown id is taken to return a snapshot with that id, `new T()` data and version 0. The store's interface is not part of this model.
- Concurrency: no other writer interleaves with `OnEvent` or `Consolidate`, so the compare-and-swap `Set` always matches in this model. It is still modelled and logged with its expected version.
- 32-bit integers: sequence ids and versions are unbounded. The overflow of `query.Version + 1` when a version is already `int.MaxValue` is not modelled.
- EventSourcing.AppendThenLoad: holds only when the transaction has nothing pending on the stream. Otherwise `Append`'s commit (EventStore.cs:77) also makes an earlier attempt's leftovers visible, and they are never published, as `EventSourcing.AppendCommitsUnpublishedLeftovers` states. Callers reach an expected version that counts those leftovers only through a read, and on a redelivery that read's check (EventStore.cs:32-35) has already published and committed them.
- Projections.Fold: its contract names an unregistered event name on failure, but does not say that it is the first such event.
- Projections.ConsolidateIdempotent and Projections.ConsolidateReachesFullReplay are stated over the pure step functions that the methods' contracts use, not as one proof over two method calls.

## Findings

| source | as written | input that shows it | evidently intended | confidence | as-written member | corrected member |
|---|---|---|---|---|---|---|
| source/NDomain/CQRS/Projections/QueryEventsHandler.cs:81 | `lastVersion` starts at 0, so a fast-forward over an empty range returns version 0, and the gap branch of `OnEvent` (lines 42-45, 56) writes that back | Stored snapshot at version 3 and an event with sequence id 6, handled before events 4 and 5 (out-of-order or concurrent delivery), whose range `[4, 6]` reads back empty. This happens when events 4-6 were appended in one transaction and published, but not yet committed (EventStore.cs:76-77). The snapshot is written at version 0, but its data still reflects events 1-3. So the next gap folds events 1 onwards over that data again: with a counting reducer, data 9 where a replay gives 6. | Start from `query.Version`, so an empty range leaves the version unchanged, as `Consolidate`'s guard at line 65 already assumes | not executed | `Projections.GapOverEmptyRangeRewindsVersion` | `Projections.FastForwardIntended` |

The methods keep the code's behaviour, so the model shows what the code does.
`Projections.IntendedFastForwardNeverRewinds` proves the corrected fast-forward
never lowers the version. It also proves the correction differs from the code
only on an empty range. So the properties whose range reads are non-empty
hold for both: `OnEventKeepsReplayed`, `ContiguousEventIsApplied`, and the
non-empty clause of `FastForwardFolds`. On an empty range the corrected version
keeps the snapshot's version, where the code returns 0. The empty-range clauses
of `FastForwardFolds`, `ConsolidateOnlyAdvances` and `ConsolidateIdempotent`
are proved only for the code as written.
