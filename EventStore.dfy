/**
 * The event store: every stream read and write goes through it. Appends run
 * the append -> publish -> commit protocol against the backend and the bus;
 * reads made while a message is being redelivered first finish any append
 * that an earlier delivery of the same transaction left uncommitted.
 *
 * The backend is the `db` field (see EventStoreDb), the bus is the log of
 * published batches, and every call made to either is recorded in the ghost
 * trace `calls`. The ambient transaction is an explicit `Option<Transaction>`
 * argument, and the fresh GUID minted when there is none is an argument too.
 */
module EventSourcing {
  import opened Events
  import opened EventStoreDb

  /** The ambient transaction of the message being handled. */
  datatype Transaction = Transaction(id: string, correlationId: string, deliveryCount: int)

  /** One call made by the event store to the backend or the bus. */
  datatype Call =
    | LoadCall(aggregateId: string)
    | LoadRangeCall(aggregateId: string, start: int, end: int)
    | LoadUncommittedCall(aggregateId: string, transactionId: string)
    | AppendCall(aggregateId: string, transactionId: string, expectedVersion: int, events: seq<WireEvent>)
    | CommitCall(aggregateId: string, transactionId: string)
    | PublishCall(events: seq<WireEvent>)

  /** A read made under this transaction must first run the uncommitted-event recovery. */
  predicate IsRedelivery(transaction: Option<Transaction>)
  {
    transaction.Some? && transaction.value.deliveryCount > 1
  }

  /** The transaction id `Append` uses: the ambient one, else the freshly minted one. */
  function TransactionIdFor(transaction: Option<Transaction>, freshId: string): (id: string)
    ensures transaction.Some? ==> id == transaction.value.id
    ensures transaction.None? ==> id == freshId
  {
    if transaction.Some? then transaction.value.id else freshId
  }

  // ----- the effects of the recovery step, as functions of the backend state -----

  /** Calls made by `CheckAndProcessUncommittedEvents(aggregateId, tx)` on backend state `db`. */
  ghost function RecoveryCalls(db: Db, aggregateId: string, tx: string): seq<Call>
  {
    var pending := Uncommitted(Stream(db, aggregateId), tx);
    [LoadUncommittedCall(aggregateId, tx)] +
    (if pending == [] then [] else [PublishCall(pending), CommitCall(aggregateId, tx)])
  }

  /** Backend state after recovery: the pending transaction committed, if there was one. */
  function RecoveredDb(db: Db, aggregateId: string, tx: string): Db
  {
    if Uncommitted(Stream(db, aggregateId), tx) == [] then db else CommitDb(db, aggregateId, tx)
  }

  /** Batches recovery publishes: the pending events, once, or nothing. */
  function RecoveredBatches(db: Db, aggregateId: string, tx: string): seq<seq<WireEvent>>
  {
    var pending := Uncommitted(Stream(db, aggregateId), tx);
    if pending == [] then [] else [pending]
  }

  /** Calls a `Load`/`LoadRange` makes before its read. */
  ghost function PreReadCalls(db: Db, aggregateId: string, transaction: Option<Transaction>): seq<Call>
  {
    if IsRedelivery(transaction) then RecoveryCalls(db, aggregateId, transaction.value.id) else []
  }

  /** Backend state a `Load`/`LoadRange` reads from. */
  function PreReadDb(db: Db, aggregateId: string, transaction: Option<Transaction>): Db
  {
    if IsRedelivery(transaction) then RecoveredDb(db, aggregateId, transaction.value.id) else db
  }

  function PreReadBatches(db: Db, aggregateId: string, transaction: Option<Transaction>): seq<seq<WireEvent>>
  {
    if IsRedelivery(transaction) then RecoveredBatches(db, aggregateId, transaction.value.id) else []
  }

  /** What a stream read returns on backend state `db`. */
  function StreamView(db: Db, aggregateId: string): seq<AggregateEvent>
  {
    DeserializeAll(Committed(Stream(db, aggregateId)))
  }

  /** What a range read returns on backend state `db`. */
  function RangeView(db: Db, aggregateId: string, start: int, end: int): seq<AggregateEvent>
  {
    DeserializeAll(InRange(Committed(Stream(db, aggregateId)), start, end))
  }

  class EventStore {
    var db: Db
    var published: seq<seq<WireEvent>>
    ghost var calls: seq<Call>

    constructor (db: Db)
      ensures this.db == db && published == [] && calls == []
    {
      this.db := db;
      published := [];
      calls := [];
    }

    // ----- the collaborators, as the event store sees them -----

    method DbLoad(aggregateId: string) returns (ws: seq<WireEvent>)
      modifies this
      ensures ws == Committed(Stream(db, aggregateId))
      ensures db == old(db) && published == old(published) && calls == old(calls) + [LoadCall(aggregateId)]
    {
      ws := Committed(Stream(db, aggregateId));
      calls := calls + [LoadCall(aggregateId)];
    }

    method DbLoadRange(aggregateId: string, start: int, end: int) returns (ws: seq<WireEvent>)
      modifies this
      ensures ws == InRange(Committed(Stream(db, aggregateId)), start, end)
      ensures db == old(db) && published == old(published) && calls == old(calls) + [LoadRangeCall(aggregateId, start, end)]
    {
      ws := InRange(Committed(Stream(db, aggregateId)), start, end);
      calls := calls + [LoadRangeCall(aggregateId, start, end)];
    }

    method DbLoadUncommitted(aggregateId: string, tx: string) returns (ws: seq<WireEvent>)
      modifies this
      ensures ws == Uncommitted(Stream(db, aggregateId), tx)
      ensures db == old(db) && published == old(published) && calls == old(calls) + [LoadUncommittedCall(aggregateId, tx)]
    {
      ws := Uncommitted(Stream(db, aggregateId), tx);
      calls := calls + [LoadUncommittedCall(aggregateId, tx)];
    }

    method DbAppend(aggregateId: string, tx: string, expectedVersion: int, ws: seq<WireEvent>) returns (r: Result<()>)
      modifies this
      ensures var after := AppendTx(old(db), aggregateId, tx, expectedVersion, ws);
        (after.Ok? ==> r.Ok? && db == after.value) && (after.Err? ==> r == Err(after.error) && db == old(db))
      ensures published == old(published) && calls == old(calls) + [AppendCall(aggregateId, tx, expectedVersion, ws)]
    {
      calls := calls + [AppendCall(aggregateId, tx, expectedVersion, ws)];
      var after := AppendTx(db, aggregateId, tx, expectedVersion, ws);
      if after.Err? {
        return Err(after.error);
      }
      db := after.value;
      r := Ok(());
    }

    method DbCommit(aggregateId: string, tx: string)
      modifies this
      ensures db == CommitDb(old(db), aggregateId, tx)
      ensures published == old(published) && calls == old(calls) + [CommitCall(aggregateId, tx)]
    {
      db := CommitDb(db, aggregateId, tx);
      calls := calls + [CommitCall(aggregateId, tx)];
    }

    method BusPublish(ws: seq<WireEvent>)
      modifies this
      ensures published == old(published) + [ws]
      ensures db == old(db) && calls == old(calls) + [PublishCall(ws)]
    {
      published := published + [ws];
      calls := calls + [PublishCall(ws)];
    }

    // ----- the event store operations -----

    /**
     * Reads the committed stream. Under a redelivered transaction, first
     * publishes and commits whatever that transaction left pending, so the
     * read sees it.
     */
    method Load(aggregateId: string, transaction: Option<Transaction>) returns (events: seq<AggregateEvent>)
      modifies this
      ensures calls == old(calls) + PreReadCalls(old(db), aggregateId, transaction) + [LoadCall(aggregateId)]
      ensures published == old(published) + PreReadBatches(old(db), aggregateId, transaction)
      ensures db == PreReadDb(old(db), aggregateId, transaction)
      ensures events == StreamView(db, aggregateId)
    {
      if IsRedelivery(transaction) {
        CheckAndProcessUncommittedEvents(aggregateId, transaction.value.id);
      }
      var sourceEvents := DbLoad(aggregateId);
      events := DeserializeAll(sourceEvents);
    }

    /** As `Load`, restricted to sequence ids in `[start, end]`. */
    method LoadRange(aggregateId: string, start: int, end: int, transaction: Option<Transaction>) returns (events: seq<AggregateEvent>)
      modifies this
      ensures calls == old(calls) + PreReadCalls(old(db), aggregateId, transaction) + [LoadRangeCall(aggregateId, start, end)]
      ensures published == old(published) + PreReadBatches(old(db), aggregateId, transaction)
      ensures db == PreReadDb(old(db), aggregateId, transaction)
      ensures events == RangeView(db, aggregateId, start, end)
    {
      if IsRedelivery(transaction) {
        CheckAndProcessUncommittedEvents(aggregateId, transaction.value.id);
      }
      var sourceEvents := DbLoadRange(aggregateId, start, end);
      events := DeserializeAll(sourceEvents);
    }

    /** The range read used by projections: never publishes or commits, whatever the transaction. */
    method LoadRangeWithoutCheckingUncommitted(aggregateId: string, start: int, end: int) returns (events: seq<AggregateEvent>)
      modifies this
      ensures calls == old(calls) + [LoadRangeCall(aggregateId, start, end)]
      ensures published == old(published) && db == old(db)
      ensures events == RangeView(db, aggregateId, start, end)
    {
      var sourceEvents := DbLoadRange(aggregateId, start, end);
      events := DeserializeAll(sourceEvents);
    }

    /**
     * Appends a batch under one transaction id, then publishes exactly that
     * batch, then commits; on a version conflict nothing is published or
     * committed.
     */
    method Append(aggregateId: string, expectedVersion: int, events: seq<AggregateEvent>,
                  transaction: Option<Transaction>, freshId: string) returns (r: Result<()>)
      modifies this
      ensures var tx := TransactionIdFor(transaction, freshId);
        var batch := SerializeAll(events);
        var appended := AppendTx(old(db), aggregateId, tx, expectedVersion, batch);
        if appended.Ok? then
          r.Ok? &&
          calls == old(calls) + [AppendCall(aggregateId, tx, expectedVersion, batch), PublishCall(batch), CommitCall(aggregateId, tx)] &&
          published == old(published) + [batch] &&
          db == CommitDb(appended.value, aggregateId, tx)
        else
          r == Err(ConcurrencyConflict) &&
          calls == old(calls) + [AppendCall(aggregateId, tx, expectedVersion, batch)] &&
          published == old(published) && db == old(db)
    {
      var sourceEvents := SerializeAll(events);
      var transactionId := TransactionIdFor(transaction, freshId);
      r := DbAppend(aggregateId, transactionId, expectedVersion, sourceEvents);
      if r.Err? {
        return;
      }
      BusPublish(sourceEvents);
      DbCommit(aggregateId, transactionId);
    }

    /** Publishes and commits what transaction `tx` left pending on the stream, if anything. */
    method CheckAndProcessUncommittedEvents(aggregateId: string, tx: string)
      modifies this
      ensures calls == old(calls) + RecoveryCalls(old(db), aggregateId, tx)
      ensures published == old(published) + RecoveredBatches(old(db), aggregateId, tx)
      ensures db == RecoveredDb(old(db), aggregateId, tx)
    {
      var uncommittedEvents := DbLoadUncommitted(aggregateId, tx);
      if uncommittedEvents != [] {
        BusPublish(uncommittedEvents);
        DbCommit(aggregateId, tx);
      }
    }
  }

  // ----- properties of the protocol -----

  /** Outside a redelivery, a read has no effect besides the read itself. */
  lemma PlainReadHasNoEffects(db: Db, aggregateId: string, transaction: Option<Transaction>)
    requires !IsRedelivery(transaction)
    ensures PreReadCalls(db, aggregateId, transaction) == []
    ensures PreReadBatches(db, aggregateId, transaction) == []
    ensures PreReadDb(db, aggregateId, transaction) == db
  {
  }

  /**
   * On a redelivery, the pending check for this aggregate and transaction comes
   * first; it publishes and commits only when something is pending.
   */
  lemma RedeliveryChecksFirst(db: Db, aggregateId: string, t: Transaction)
    requires t.deliveryCount > 1
    ensures var calls := PreReadCalls(db, aggregateId, Some(t));
      |calls| >= 1 && calls[0] == LoadUncommittedCall(aggregateId, t.id) &&
      (Uncommitted(Stream(db, aggregateId), t.id) == [] <==> |calls| == 1)
    ensures Uncommitted(Stream(db, aggregateId), t.id) == [] ==>
      PreReadBatches(db, aggregateId, Some(t)) == [] && PreReadDb(db, aggregateId, Some(t)) == db
  {
  }

  /**
   * After a recovery that found pending events: the bus got exactly those
   * events, in order, in one batch; the transaction has nothing pending any
   * more; and the read that follows sees them next to what was committed before.
   */
  lemma RecoveryCompletesTransaction(db: Db, aggregateId: string, tx: string)
    requires Uncommitted(Stream(db, aggregateId), tx) != []
    ensures RecoveredBatches(db, aggregateId, tx) == [Uncommitted(Stream(db, aggregateId), tx)]
    ensures Uncommitted(Stream(RecoveredDb(db, aggregateId, tx), aggregateId), tx) == []
    ensures forall w :: w in Committed(Stream(RecoveredDb(db, aggregateId, tx), aggregateId)) <==>
      w in Committed(Stream(db, aggregateId)) || w in Uncommitted(Stream(db, aggregateId), tx)
    ensures RecoveredDb(RecoveredDb(db, aggregateId, tx), aggregateId, tx) == RecoveredDb(db, aggregateId, tx)
  {
    var s := Stream(db, aggregateId);
    assert Stream(RecoveredDb(db, aggregateId, tx), aggregateId) == CommitTx(s, tx);
    CommitLeavesNothingPending(s, tx);
    CommitPublishesPending(s, tx);
  }

  /**
   * A successful append-then-commit on a stream with nothing pending for its
   * transaction: the next read returns the old stream followed by the
   * appended events, in order.
   */
  lemma AppendThenLoad(db: Db, aggregateId: string, tx: string, expectedVersion: int, events: seq<AggregateEvent>)
    requires Uncommitted(Stream(db, aggregateId), tx) == []
    requires AppendTx(db, aggregateId, tx, expectedVersion, SerializeAll(events)).Ok?
    ensures StreamView(CommitDb(AppendTx(db, aggregateId, tx, expectedVersion, SerializeAll(events)).value, aggregateId, tx), aggregateId)
      == StreamView(db, aggregateId) + events
  {
    var batch := SerializeAll(events);
    var s := Stream(db, aggregateId);
    var appended := AppendTx(db, aggregateId, tx, expectedVersion, batch).value;
    assert appended == db[aggregateId := s + Pending(batch, tx)];
    var after := CommitDb(appended, aggregateId, tx);
    assert Stream(after, aggregateId) == CommitTx(s + Pending(batch, tx), tx);
    CommitAfterAppend(s, batch, tx);
    assert Committed(Stream(after, aggregateId)) == Committed(s) + batch;
    RoundTripAll(events);
    DeserializeConcat(Committed(s), batch);
  }

  /**
   * When an earlier attempt of the same transaction left events pending and no
   * read recovered them first, `Append`'s commit makes them visible too, while
   * the bus only gets the new batch: readers then see the old committed
   * events, those leftovers and the batch.
   */
  lemma AppendCommitsUnpublishedLeftovers(db: Db, aggregateId: string, tx: string, expectedVersion: int, events: seq<AggregateEvent>)
    requires AppendTx(db, aggregateId, tx, expectedVersion, SerializeAll(events)).Ok?
    ensures var after := CommitDb(AppendTx(db, aggregateId, tx, expectedVersion, SerializeAll(events)).value, aggregateId, tx);
      forall w :: w in Committed(Stream(after, aggregateId)) <==>
        w in Committed(Stream(db, aggregateId)) || w in Uncommitted(Stream(db, aggregateId), tx) || w in SerializeAll(events)
  {
    var batch := SerializeAll(events);
    var s := Stream(db, aggregateId);
    var appended := AppendTx(db, aggregateId, tx, expectedVersion, batch).value;
    assert appended == db[aggregateId := s + Pending(batch, tx)];
    assert Stream(CommitDb(appended, aggregateId, tx), aggregateId) == CommitTx(s + Pending(batch, tx), tx);
    AppendCommitsEarlierPending(s, batch, tx);
  }

  /**
   * Once a non-empty append has gone through, a second append at the same
   * (now stale) expected version conflicts, whatever its transaction and batch.
   */
  lemma StaleAppendConflicts(db: Db, aggregateId: string, tx: string, expectedVersion: int,
                             batch: seq<WireEvent>, tx': string, batch': seq<WireEvent>)
    requires AppendTx(db, aggregateId, tx, expectedVersion, batch).Ok?
    requires batch != []
    ensures var after := CommitDb(AppendTx(db, aggregateId, tx, expectedVersion, batch).value, aggregateId, tx);
      AppendTx(after, aggregateId, tx', expectedVersion, batch') == Err(ConcurrencyConflict)
  {
    var appended := AppendTx(db, aggregateId, tx, expectedVersion, batch).value;
    assert Version(CommitDb(appended, aggregateId, tx), aggregateId) == Version(appended, aggregateId);
  }
}
