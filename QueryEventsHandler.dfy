/**
 * The projection materializer (`QueryEventsHandler<T>`): keeps a read model
 * (`Query<T>`) of an event stream up to date, applying a contiguous event in
 * place, fast-forwarding across a gap by replaying a range read from the
 * event store, and consolidating a projection to the newest stored version.
 * Every write goes through the query store's compare-and-swap `Set`, keyed on
 * the version read at the start of the operation.
 *
 * The query store is the `store` field together with the ghost log `writes` of
 * every `Set` call; the mutator is the read-only `handlers` table. The
 * operations follow the code as written, including `FastForward` returning
 * version 0 for an empty range (see `GapOverEmptyRangeRewindsVersion`).
 */
module Projections {
  import opened Events
  import opened EventStoreDb
  import opened EventSourcing
  import QueryMutator

  /** A projection snapshot; its timestamp is not modelled. */
  datatype Query<T> = Query(id: string, data: T, version: int)

  /** One call of the query store's `Set(id, query, expectedVersion)`. */
  datatype SetCall<T> = SetCall(id: string, query: Query<T>, expectedVersion: int)

  // ----- the pure core: folding reducers over events -----

  /**
   * Applies the registered reducers to `data` over `events`, left to right;
   * fails with a missing-handler error at the first event whose name has no
   * reducer.
   */
  function Fold<T>(handlers: QueryMutator.Handlers<T>, data: T, events: seq<AggregateEvent>): (r: Result<T>)
    ensures r.Err? ==> r.error.MissingHandler? && r.error.eventName !in handlers
    decreases |events|
  {
    if events == [] then Ok(data)
    else
      match QueryMutator.GetEventHandler(handlers, events[0])
      case Err(e) => Err(e)
      case Ok(reducer) => Fold(handlers, reducer(data, events[0]), events[1..])
  }

  /** A fold succeeds exactly when every folded event has a reducer. */
  lemma {:induction false} FoldSucceedsIffHandled<T>(handlers: QueryMutator.Handlers<T>, data: T, events: seq<AggregateEvent>)
    ensures Fold(handlers, data, events).Ok? <==> forall e :: e in events ==> e.name in handlers
    decreases |events|
  {
    if events != [] {
      assert forall e :: e in events <==> e == events[0] || e in events[1..];
      if events[0].name in handlers {
        FoldSucceedsIffHandled(handlers, handlers[events[0].name](data, events[0]), events[1..]);
      }
    }
  }

  /** The sequence id of the last event of a range read, or 0 when it is empty. */
  function LastVersion(events: seq<AggregateEvent>): int
  {
    if events == [] then 0 else events[|events| - 1].sequenceId
  }

  /**
   * What `FastForward` returns for `query` given the range it loaded: the
   * folded data, the last loaded sequence id as version (0 for an empty
   * range, as the code is written) and the same id.
   */
  function FastForwardResult<T>(handlers: QueryMutator.Handlers<T>, query: Query<T>, loaded: seq<AggregateEvent>): Result<Query<T>>
  {
    match Fold(handlers, query.data, loaded)
    case Err(e) => Err(e)
    case Ok(data) => Ok(Query(query.id, data, LastVersion(loaded)))
  }

  /** The projection `OnEvent` writes to when the caller names none: the event's aggregate. */
  function QueryIdFor(ev: AggregateEvent, queryId: Option<string>): (id: string)
    ensures queryId.Some? ==> id == queryId.value
    ensures queryId.None? ==> id == ev.aggregateId
  {
    if queryId.Some? then queryId.value else ev.aggregateId
  }

  /** The projection has missed at least one event before `ev`. */
  predicate IsGap<T>(query: Query<T>, ev: AggregateEvent)
  {
    query.version < ev.sequenceId - 1
  }

  /**
   * The write `OnEvent` performs for snapshot `query` and event `ev` (`None`
   * for no write), given what a fast-forward would load.
   */
  function OnEventStep<T>(handlers: QueryMutator.Handlers<T>, query: Query<T>, ev: AggregateEvent,
                          loaded: seq<AggregateEvent>): Result<Option<Query<T>>>
  {
    if query.version >= ev.sequenceId then Ok(None)
    else if IsGap(query, ev) then
      match FastForwardResult(handlers, query, loaded)
      case Err(e) => Err(e)
      case Ok(forwarded) => Ok(Some(forwarded))
    else
      match QueryMutator.GetEventHandler(handlers, ev)
      case Err(e) => Err(e)
      case Ok(reducer) => Ok(Some(query.(data := reducer(query.data, ev), version := ev.sequenceId)))
  }

  /** The write `Consolidate` performs for snapshot `query` given the loaded range (`None` for no write). */
  function ConsolidateStep<T>(handlers: QueryMutator.Handlers<T>, query: Query<T>, loaded: seq<AggregateEvent>): Result<Option<Query<T>>>
  {
    match FastForwardResult(handlers, query, loaded)
    case Err(e) => Err(e)
    case Ok(updated) => if updated.version <= query.version then Ok(None) else Ok(Some(updated))
  }

  class QueryEventsHandler<T> {
    var store: map<string, Query<T>>
    ghost var writes: seq<SetCall<T>>
    const eventStore: EventStore
    const handlers: QueryMutator.Handlers<T>
    const empty: T

    /** The query store keeps every snapshot under its own id. */
    ghost predicate Valid()
      reads this
    {
      forall id :: id in store ==> store[id].id == id
    }

    constructor (eventStore: EventStore, handlers: QueryMutator.Handlers<T>, empty: T)
      ensures Valid() && store == map[] && writes == []
      ensures this.eventStore == eventStore && this.handlers == handlers && this.empty == empty
    {
      this.eventStore := eventStore;
      this.handlers := handlers;
      this.empty := empty;
      store := map[];
      writes := [];
    }

    // ----- the query store, as the handler sees it -----

    /** Query store `Get`: the stored snapshot, or a fresh one at version 0. */
    function Get(id: string): (q: Query<T>)
      reads this
      ensures Valid() ==> q.id == id
      ensures id !in store ==> q == Query(id, empty, 0)
    {
      if id in store then store[id] else Query(id, empty, 0)
    }

    /** Query store `Set`: a compare-and-swap on the stored version. */
    method Set(id: string, query: Query<T>, expectedVersion: int) returns (r: Result<()>)
      requires Valid() && query.id == id
      modifies this
      ensures Valid()
      ensures writes == old(writes) + [SetCall(id, query, expectedVersion)]
      ensures old(Get(id)).version == expectedVersion ==> r.Ok? && store == old(store)[id := query]
      ensures old(Get(id)).version != expectedVersion ==> r == Err(ConcurrencyConflict) && store == old(store)
    {
      writes := writes + [SetCall(id, query, expectedVersion)];
      if Get(id).version != expectedVersion {
        return Err(ConcurrencyConflict);
      }
      store := store[id := query];
      r := Ok(());
    }

    // ----- the materializer operations -----

    /**
     * Brings the projection `queryId` (by default the event's aggregate) up to
     * `ev`: nothing when already there, the event's reducer when it is next,
     * a fast-forward over the range up to it when events were missed.
     */
    method OnEvent(ev: AggregateEvent, queryId: Option<string>) returns (r: Result<()>)
      requires Valid()
      modifies this, eventStore
      ensures Valid()
      ensures var id := QueryIdFor(ev, queryId);
        var q := old(Get(id));
        var step := OnEventStep(handlers, q, ev, RangeView(old(eventStore.db), q.id, q.version + 1, ev.sequenceId));
        (step.Err? ==> r == Err(step.error) && store == old(store) && writes == old(writes)) &&
        (step == Ok(None) ==> r.Ok? && store == old(store) && writes == old(writes)) &&
        (step.Ok? && step.value.Some? ==>
          r.Ok? && store == old(store)[id := step.value.value] &&
          writes == old(writes) + [SetCall(id, step.value.value, q.version)])
      ensures var q := old(Get(QueryIdFor(ev, queryId)));
        eventStore.calls == old(eventStore.calls) +
          (if IsGap(q, ev) then [LoadRangeCall(q.id, q.version + 1, ev.sequenceId)] else [])
      ensures eventStore.db == old(eventStore.db) && eventStore.published == old(eventStore.published)
    {
      var id := QueryIdFor(ev, queryId);
      var query := Get(id);
      var data := query.data;
      if query.version >= ev.sequenceId {
        // already reflected
        return Ok(());
      }
      var originalVersion := query.version;
      if originalVersion < ev.sequenceId - 1 {
        var forwarded := FastForward(query, ev.sequenceId);
        if forwarded.Err? {
          return Err(forwarded.error);
        }
        query := forwarded.value;
      } else {
        var eventHandler := QueryMutator.GetEventHandler(handlers, ev);
        if eventHandler.Err? {
          return Err(eventHandler.error);
        }
        query := query.(data := eventHandler.value(data, ev), version := ev.sequenceId);
      }
      r := Set(id, query, originalVersion);
    }

    /**
     * Fast-forwards the projection of `aggregateId` to the newest stored
     * version, writing only when that advances its version.
     */
    method Consolidate(aggregateId: string) returns (r: Result<()>)
      requires Valid()
      modifies this, eventStore
      ensures Valid()
      ensures var q := old(Get(aggregateId));
        var step := ConsolidateStep(handlers, q, RangeView(old(eventStore.db), aggregateId, q.version + 1, IntMaxValue));
        (step.Err? ==> r == Err(step.error) && store == old(store) && writes == old(writes)) &&
        (step == Ok(None) ==> r.Ok? && store == old(store) && writes == old(writes)) &&
        (step.Ok? && step.value.Some? ==>
          r.Ok? && store == old(store)[aggregateId := step.value.value] &&
          writes == old(writes) + [SetCall(aggregateId, step.value.value, q.version)])
      ensures eventStore.calls == old(eventStore.calls) + [LoadRangeCall(aggregateId, old(Get(aggregateId)).version + 1, IntMaxValue)]
      ensures eventStore.db == old(eventStore.db) && eventStore.published == old(eventStore.published)
    {
      var query := Get(aggregateId);
      assert query.id == aggregateId;
      var originalVersion := query.version;
      var updatedQuery := FastForward(query, IntMaxValue);
      if updatedQuery.Err? {
        return Err(updatedQuery.error);
      }
      if updatedQuery.value.version <= query.version {
        // already at the latest version
        return Ok(());
      }
      r := Set(query.id, updatedQuery.value, originalVersion);
    }

    /**
     * Replays the events of `query.id` from just past its version up to
     * `maxVersion`, read without the redelivery check, over its data.
     */
    method FastForward(query: Query<T>, maxVersion: int) returns (r: Result<Query<T>>)
      modifies eventStore
      ensures r == FastForwardResult(handlers, query, RangeView(old(eventStore.db), query.id, query.version + 1, maxVersion))
      ensures eventStore.calls == old(eventStore.calls) + [LoadRangeCall(query.id, query.version + 1, maxVersion)]
      ensures eventStore.db == old(eventStore.db) && eventStore.published == old(eventStore.published)
    {
      var start := query.version + 1;
      var events := eventStore.LoadRangeWithoutCheckingUncommitted(query.id, start, maxVersion);
      var data := query.data;
      var lastVersion := 0;
      var i := 0;
      while i < |events|
        invariant 0 <= i <= |events|
        invariant Fold(handlers, query.data, events) == Fold(handlers, data, events[i..])
        invariant lastVersion == LastVersion(events[..i])
      {
        var ev := events[i];
        assert events[i..][1..] == events[i + 1..];
        var evHandler := QueryMutator.GetEventHandler(handlers, ev);
        if evHandler.Err? {
          return Err(evHandler.error);
        }
        data := evHandler.value(data, ev);
        lastVersion := ev.sequenceId;
        i := i + 1;
      }
      assert events[..i] == events;
      r := Ok(Query(query.id, data, lastVersion));
    }
  }

  // ----- properties of one step -----

  /** An event the projection already reflects is skipped: no write, whatever was loaded. */
  lemma DuplicateIsNoOp<T>(handlers: QueryMutator.Handlers<T>, query: Query<T>, ev: AggregateEvent, loaded: seq<AggregateEvent>)
    requires query.version >= ev.sequenceId
    ensures OnEventStep(handlers, query, ev, loaded) == Ok(None)
  {
  }

  /**
   * The next event in sequence is applied in place: the snapshot keeps its id,
   * its data becomes the reducer's result and its version the event's
   * sequence id; with no reducer for the event, nothing is written.
   */
  lemma ContiguousEventIsApplied<T>(handlers: QueryMutator.Handlers<T>, query: Query<T>, ev: AggregateEvent, loaded: seq<AggregateEvent>)
    requires query.version == ev.sequenceId - 1
    ensures ev.name in handlers ==>
      OnEventStep(handlers, query, ev, loaded) == Ok(Some(Query(query.id, handlers[ev.name](query.data, ev), ev.sequenceId)))
    ensures ev.name !in handlers ==> OnEventStep(handlers, query, ev, loaded) == Err(MissingHandler(ev.name))
  {
  }

  /** Across a gap, the write is the fast-forward over what was loaded. */
  lemma GapIsFastForwarded<T>(handlers: QueryMutator.Handlers<T>, query: Query<T>, ev: AggregateEvent, loaded: seq<AggregateEvent>)
    requires IsGap(query, ev)
    ensures var ff := FastForwardResult(handlers, query, loaded);
      (ff.Ok? ==> OnEventStep(handlers, query, ev, loaded) == Ok(Some(ff.value))) &&
      (ff.Err? ==> OnEventStep(handlers, query, ev, loaded) == Err(ff.error))
  {
  }

  /**
   * Fast-forward keeps the projection id, folds every loaded event over the
   * data in order, and ends at the last loaded sequence id (0 if none).
   */
  lemma FastForwardFolds<T>(handlers: QueryMutator.Handlers<T>, query: Query<T>, loaded: seq<AggregateEvent>)
    requires forall e :: e in loaded ==> e.name in handlers
    ensures var ff := FastForwardResult(handlers, query, loaded);
      ff.Ok? && ff.value.id == query.id && Fold(handlers, query.data, loaded) == Ok(ff.value.data) &&
      (loaded == [] ==> ff.value.version == 0 && ff.value.data == query.data) &&
      (loaded != [] ==> ff.value.version == loaded[|loaded| - 1].sequenceId)
  {
    FoldSucceedsIffHandled(handlers, query.data, loaded);
  }

  /** Consolidation only ever writes a strictly newer version of the same projection. */
  lemma ConsolidateOnlyAdvances<T>(handlers: QueryMutator.Handlers<T>, query: Query<T>, loaded: seq<AggregateEvent>)
    ensures var step := ConsolidateStep(handlers, query, loaded);
      step.Ok? && step.value.Some? ==> step.value.value.version > query.version && step.value.value.id == query.id
    ensures loaded == [] && query.version >= 0 ==> ConsolidateStep(handlers, query, loaded) == Ok(None)
  {
  }

  /**
   * Consolidating twice with no new events in between: if the first call
   * writes, the second, started from what the first wrote, writes nothing.
   * (If the first writes nothing, the second sees exactly the same inputs.)
   */
  lemma ConsolidateIdempotent<T>(handlers: QueryMutator.Handlers<T>, db: Db, query: Query<T>)
    requires Increasing(Committed(Stream(db, query.id)))
    requires query.version >= 0
    ensures var first := ConsolidateStep(handlers, query, RangeView(db, query.id, query.version + 1, IntMaxValue));
      first.Ok? && first.value.Some? ==>
        var written := first.value.value;
        ConsolidateStep(handlers, written, RangeView(db, written.id, written.version + 1, IntMaxValue)) == Ok(None)
  {
    var ws := Committed(Stream(db, query.id));
    var range := InRange(ws, query.version + 1, IntMaxValue);
    var loaded := RangeView(db, query.id, query.version + 1, IntMaxValue);
    var first := ConsolidateStep(handlers, query, loaded);
    if first.Ok? && first.value.Some? {
      var written := first.value.value;
      assert written.id == query.id;
      assert written.version == LastVersion(loaded);
      assert loaded != [];
      assert range != [];
      assert written.version == range[|range| - 1].sequenceId;
      NothingPastLastOfRange(ws, query.version + 1, IntMaxValue);
      assert RangeView(db, written.id, written.version + 1, IntMaxValue) == [];
    }
  }

  // ----- convergence with a full replay -----

  /** A stream whose events carry sequence ids 1, 2, 3, ... */
  ghost predicate ContiguousEvents(stream: seq<AggregateEvent>)
  {
    forall i :: 0 <= i < |stream| ==> stream[i].sequenceId == i + 1
  }

  /** The snapshot holds exactly the replay of the stream's first `version` events. */
  ghost predicate Replayed<T>(handlers: QueryMutator.Handlers<T>, initial: T, stream: seq<AggregateEvent>, query: Query<T>)
  {
    0 <= query.version <= |stream| && Fold(handlers, initial, stream[..query.version]) == Ok(query.data)
  }

  /** Folding over two batches is folding over the first, then over the second from its result. */
  lemma {:induction false} FoldConcat<T>(handlers: QueryMutator.Handlers<T>, data: T, a: seq<AggregateEvent>, b: seq<AggregateEvent>)
    ensures Fold(handlers, data, a + b) ==
      match Fold(handlers, data, a)
      case Err(e) => Err(e)
      case Ok(mid) => Fold(handlers, mid, b)
    decreases |a|
  {
    if a == [] {
      assert a + b == b;
    } else {
      assert (a + b)[0] == a[0];
      assert (a + b)[1..] == a[1..] + b;
      var h := QueryMutator.GetEventHandler(handlers, a[0]);
      if h.Ok? {
        FoldConcat(handlers, h.value(data, a[0]), a[1..], b);
      }
    }
  }

  /** A fresh snapshot (version 0, initial data) is the replay of nothing. */
  lemma FreshSnapshotIsReplayed<T>(handlers: QueryMutator.Handlers<T>, initial: T, stream: seq<AggregateEvent>, id: string)
    ensures Replayed(handlers, initial, stream, Query(id, initial, 0))
  {
    assert stream[..0] == [];
  }

  /** On a stream with contiguous ids, a range read is the matching slice of the full read. */
  lemma RangeViewIsSlice(db: Db, id: string, start: int, end: int)
    requires RunFrom(Committed(Stream(db, id)), 0)
    requires start - 1 <= end
    ensures var n := |StreamView(db, id)|;
      ContiguousEvents(StreamView(db, id)) &&
      RangeView(db, id, start, end) == StreamView(db, id)[Clamp(start - 1, n)..Clamp(end, n)]
  {
    var ws := Committed(Stream(db, id));
    InRangeOfContiguous(ws, start, end);
    DeserializeSlice(ws, Clamp(start - 1, |ws|), Clamp(end, |ws|));
  }

  /**
   * `OnEvent` for any event of a fully committed, contiguous stream keeps a
   * replayed snapshot replayed: whichever branch runs, what it writes is the
   * replay of the stream up to that event.
   */
  lemma OnEventKeepsReplayed<T>(handlers: QueryMutator.Handlers<T>, initial: T, db: Db, query: Query<T>, k: nat)
    requires RunFrom(Committed(Stream(db, query.id)), 0)
    requires Replayed(handlers, initial, StreamView(db, query.id), query)
    requires k < |StreamView(db, query.id)|
    ensures var stream := StreamView(db, query.id);
      var ev := stream[k];
      var step := OnEventStep(handlers, query, ev, RangeView(db, query.id, query.version + 1, ev.sequenceId));
      step.Ok? && step.value.Some? ==>
        Replayed(handlers, initial, stream, step.value.value) && step.value.value.version == k + 1
  {
    var stream := StreamView(db, query.id);
    var ev := stream[k];
    var v := query.version;
    assert ev.sequenceId == k + 1;
    if v <= k {
      RangeViewIsSlice(db, query.id, v + 1, ev.sequenceId);
      assert Clamp(v, |stream|) == v && Clamp(k + 1, |stream|) == k + 1;
      OnEventOverStream(handlers, initial, stream, query, k);
    }
  }

  /** `OnEventKeepsReplayed` on the stream itself, a gap loading the slice up to the event. */
  lemma OnEventOverStream<T>(handlers: QueryMutator.Handlers<T>, initial: T, stream: seq<AggregateEvent>, query: Query<T>, k: nat)
    requires ContiguousEvents(stream)
    requires Replayed(handlers, initial, stream, query)
    requires query.version <= k < |stream|
    ensures var step := OnEventStep(handlers, query, stream[k], stream[query.version..k + 1]);
      step.Ok? && step.value.Some? ==>
        Replayed(handlers, initial, stream, step.value.value) && step.value.value.version == k + 1
  {
    var ev := stream[k];
    var v := query.version;
    var loaded := stream[v..k + 1];
    var step := OnEventStep(handlers, query, ev, loaded);
    if step.Ok? && step.value.Some? {
      if IsGap(query, ev) {
        assert stream[..k + 1] == stream[..v] + loaded;
        FoldConcat(handlers, initial, stream[..v], loaded);
      } else {
        assert v == k;
        assert stream[..k + 1] == stream[..k] + [ev];
        FoldConcat(handlers, initial, stream[..k], [ev]);
        assert [ev][1..] == [];
      }
    }
  }

  /**
   * Consolidating a replayed snapshot of a fully committed, contiguous stream
   * whose events all have reducers ends at the full replay of the stream, as
   * rebuilding the read model from scratch would: the convergence the
   * materializer relies on, whatever mix of `OnEvent` calls came before.
   */
  lemma ConsolidateReachesFullReplay<T>(handlers: QueryMutator.Handlers<T>, initial: T, db: Db, query: Query<T>)
    requires RunFrom(Committed(Stream(db, query.id)), 0)
    requires Replayed(handlers, initial, StreamView(db, query.id), query)
    requires forall e :: e in StreamView(db, query.id) ==> e.name in handlers
    requires |StreamView(db, query.id)| <= IntMaxValue
    ensures var step := ConsolidateStep(handlers, query, RangeView(db, query.id, query.version + 1, IntMaxValue));
      var final := if step.Ok? && step.value.Some? then step.value.value else query;
      step.Ok? && final.version == |StreamView(db, query.id)| &&
      Fold(handlers, initial, StreamView(db, query.id)) == Ok(final.data)
  {
    var stream := StreamView(db, query.id);
    var n, v := |stream|, query.version;
    RangeViewIsSlice(db, query.id, v + 1, IntMaxValue);
    assert Clamp(v, n) == v && Clamp(IntMaxValue, n) == n;
    assert stream[v..n] == stream[v..];
    assert RangeView(db, query.id, v + 1, IntMaxValue) == stream[v..];
    ConsolidateOverRest(handlers, initial, stream, query);
  }

  /** `ConsolidateReachesFullReplay` on the stream itself, the range read being its unreplayed rest. */
  lemma ConsolidateOverRest<T>(handlers: QueryMutator.Handlers<T>, initial: T, stream: seq<AggregateEvent>, query: Query<T>)
    requires ContiguousEvents(stream)
    requires Replayed(handlers, initial, stream, query)
    requires forall e :: e in stream ==> e.name in handlers
    ensures var step := ConsolidateStep(handlers, query, stream[query.version..]);
      var final := if step.Ok? && step.value.Some? then step.value.value else query;
      step.Ok? && final.version == |stream| && Fold(handlers, initial, stream) == Ok(final.data)
  {
    var n, v := |stream|, query.version;
    var loaded := stream[v..];
    assert stream == stream[..v] + loaded;
    FoldConcat(handlers, initial, stream[..v], loaded);
    assert forall e :: e in loaded ==> e in stream;
    FoldSucceedsIffHandled(handlers, query.data, loaded);
    if loaded == [] {
      assert stream[..v] == stream;
    } else {
      assert LastVersion(loaded) == stream[n - 1].sequenceId == n;
    }
  }

  // ----- the empty-range fast-forward -----

  /**
   * As written, a gap whose range read comes back empty (for instance while
   * the events up to `ev` are appended and published but not yet committed)
   * writes the snapshot back at version 0, below the version it had.
   */
  lemma GapOverEmptyRangeRewindsVersion<T>(handlers: QueryMutator.Handlers<T>, query: Query<T>, ev: AggregateEvent)
    requires 0 < query.version && IsGap(query, ev)
    ensures OnEventStep(handlers, query, ev, []) == Ok(Some(query.(version := 0)))
  {
  }

  /**
   * The evidently intended fast-forward: the version starts from the
   * snapshot's own, so an empty range leaves it unchanged.
   */
  function FastForwardIntended<T>(handlers: QueryMutator.Handlers<T>, query: Query<T>, loaded: seq<AggregateEvent>): (r: Result<Query<T>>)
    ensures r.Ok? ==> r.value.id == query.id
    ensures r.Ok? && loaded == [] ==> r.value == query
    ensures r.Ok? && loaded != [] ==> r.value.version == loaded[|loaded| - 1].sequenceId
  {
    match Fold(handlers, query.data, loaded)
    case Err(e) => Err(e)
    case Ok(data) => Ok(Query(query.id, data, if loaded == [] then query.version else LastVersion(loaded)))
  }

  /**
   * The intended fast-forward never moves a snapshot backwards over a range
   * read past its version, and differs from the code as written only on an
   * empty range.
   */
  lemma IntendedFastForwardNeverRewinds<T>(handlers: QueryMutator.Handlers<T>, query: Query<T>, loaded: seq<AggregateEvent>)
    requires forall e :: e in loaded ==> e.sequenceId > query.version
    ensures var r := FastForwardIntended(handlers, query, loaded);
      r.Ok? ==> r.value.version >= query.version
    ensures loaded != [] ==> FastForwardIntended(handlers, query, loaded) == FastForwardResult(handlers, query, loaded)
  {
    if loaded != [] {
      assert loaded[|loaded| - 1] in loaded;
    }
  }
}
