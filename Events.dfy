/**
 * Events and stored values of the workflow engine.
 *
 * Python matches events on their runtime class; here every event class the
 * modelled tests use is one constructor of a closed enumeration.
 */
module Events {

  /** The event classes: the engine's own and those the tests define. */
  datatype EventKind =
    | BaseEvent         // llama_index.core.workflow.events.Event itself
    | StartEvent
    | StopEvent
    | OneTestEvent
    | AnotherTestEvent
    | LastEvent

  /** An event instance: its class and its keyword fields (`Event(foo="bar")`). */
  datatype Event = Event(kind: EventKind, fields: map<string, Value>)

  /** The values the tests store in a Context or return from a run. */
  datatype Value =
    | NoneValue
    | IntValue(i: int)
    | StrValue(s: string)
    | EventsValue(events: seq<Event>)
}
