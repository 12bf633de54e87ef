/**
 * Values shared by the event store and the projection materializer:
 * the domain event an aggregate raises, its storable wire form, the
 * serializer between the two, and the error kinds the core surfaces.
 */
module Events {

  datatype Option<+T> = None | Some(value: T)

  /** The failures the core reports to its callers. */
  datatype Error =
    | ConcurrencyConflict            // expected-version mismatch (stream append or projection write)
    | MissingHandler(eventName: string)  // no reducer registered for an event name

  datatype Result<+R> = Ok(value: R) | Err(error: Error)

  /** `int.MaxValue` of the source's 32-bit `int`, the ceiling used by consolidation. */
  const IntMaxValue: int := 0x7fff_ffff

  /**
   * An event of one aggregate stream. `sequenceId` is 1-based within the
   * stream; the payload is kept opaque, and the event timestamp is not modelled.
   */
  datatype AggregateEvent = AggregateEvent(aggregateId: string, name: string, sequenceId: int, payload: string)

  /** The serialized form handed to the backend and the bus. */
  datatype WireEvent = WireEvent(aggregateId: string, name: string, sequenceId: int, data: string)

  function Serialize(e: AggregateEvent): (w: WireEvent)
    ensures w.aggregateId == e.aggregateId && w.name == e.name && w.sequenceId == e.sequenceId
  {
    WireEvent(e.aggregateId, e.name, e.sequenceId, e.payload)
  }

  function Deserialize(w: WireEvent): (e: AggregateEvent)
    ensures e.aggregateId == w.aggregateId && e.name == w.name && e.sequenceId == w.sequenceId
  {
    AggregateEvent(w.aggregateId, w.name, w.sequenceId, w.data)
  }

  /** The `Select(e => serializer.Serialize(e))` mapping over a batch. */
  function SerializeAll(es: seq<AggregateEvent>): seq<WireEvent>
  {
    seq(|es|, i requires 0 <= i < |es| => Serialize(es[i]))
  }

  /** The `Select(e => serializer.Deserialize(e))` mapping over a read. */
  function DeserializeAll(ws: seq<WireEvent>): seq<AggregateEvent>
  {
    seq(|ws|, i requires 0 <= i < |ws| => Deserialize(ws[i]))
  }

  lemma RoundTrip(e: AggregateEvent)
    ensures Deserialize(Serialize(e)) == e
  {
  }

  /** Reading back a serialized batch yields the batch, in order. */
  lemma RoundTripAll(es: seq<AggregateEvent>)
    ensures DeserializeAll(SerializeAll(es)) == es
  {
    var back := DeserializeAll(SerializeAll(es));
    forall i | 0 <= i < |es| ensures back[i] == es[i] {
      RoundTrip(es[i]);
    }
  }

  /** Deserializing a slice of a read is the same slice of the deserialized read. */
  lemma DeserializeSlice(ws: seq<WireEvent>, lo: nat, hi: nat)
    requires lo <= hi <= |ws|
    ensures DeserializeAll(ws[lo..hi]) == DeserializeAll(ws)[lo..hi]
  {
  }

  /** Deserializing two reads back to back is deserializing each. */
  lemma DeserializeConcat(a: seq<WireEvent>, b: seq<WireEvent>)
    ensures DeserializeAll(a + b) == DeserializeAll(a) + DeserializeAll(b)
  {
  }
}
