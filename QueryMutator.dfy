/**
 * The query mutator: a read-only table from event name to reducer, fixed when
 * the mutator is built. Reducers are left abstract: any total function from a
 * projection value and an event to a new projection value.
 */
module QueryMutator {
  import opened Events

  type Reducer<!T> = (T, AggregateEvent) -> T

  /** The handler table (`_handlers`), keyed by event name. */
  type Handlers<!T> = map<string, Reducer<T>>

  /**
   * `GetEventHandler`: the reducer registered under the event's name, or a
   * missing-handler failure (the source's `ArgumentException`) when none is.
   */
  function GetEventHandler<T>(handlers: Handlers<T>, ev: AggregateEvent): (r: Result<Reducer<T>>)
    ensures r.Ok? <==> ev.name in handlers
    ensures r.Ok? ==> r.value == handlers[ev.name]
    ensures r.Err? ==> r.error == MissingHandler(ev.name)
  {
    if ev.name !in handlers then Err(MissingHandler(ev.name)) else Ok(handlers[ev.name])
  }

  /**
   * `TryGetEventHandler`: whether a reducer is registered under the event's
   * name, and (the `out` parameter) that reducer, or nothing when absent.
   */
  function TryGetEventHandler<T>(handlers: Handlers<T>, ev: AggregateEvent): (r: (bool, Option<Reducer<T>>))
    ensures r.0 <==> GetEventHandler(handlers, ev).Ok?
    ensures r.0 ==> r.1 == Some(GetEventHandler(handlers, ev).value)
    ensures !r.0 ==> r.1 == None
  {
    if ev.name in handlers then (true, Some(handlers[ev.name])) else (false, None)
  }

  /** Both lookups see only the event's name: other fields do not matter. */
  lemma LookupDependsOnlyOnName<T>(handlers: Handlers<T>, a: AggregateEvent, b: AggregateEvent)
    requires a.name == b.name
    ensures GetEventHandler(handlers, a) == GetEventHandler(handlers, b)
    ensures TryGetEventHandler(handlers, a) == TryGetEventHandler(handlers, b)
  {
  }
}
