/**
 * The persisted form of a capture and the error outcome shared by every
 * lifecycle operation.
 *
 * A persisted capture is the JSON object
 *   { "events": [ { "relative_time": <ms>, "event": <serialized event> }, ... ] }
 * Its structure is modelled abstractly: the serialized event is a value of a
 * type parameter J chosen by the caller's serializer.
 */
module Documents {

  /** Key of the array that lists the captured events. */
  const JsonEvents: string := "events"
  /** Key of the serialized event inside one entry. */
  const JsonEvent: string := "event"
  /** Key of the relative time (ms since capture start) inside one entry. */
  const JsonRelTime: string := "relative_time"

  /** One element of the "events" array. */
  datatype Entry<J> = Entry(relativeTime: int, event: J)

  /** A persisted capture: the "events" array, in the order it was written. */
  datatype Document<J> = Document(events: seq<Entry<J>>)

  /**
   * The result of a lifecycle call: `Ok` with the call's return value, or
   * `IllegalState` for the IllegalStateException thrown when the call is made
   * in a state that does not allow it.
   */
  datatype Outcome<T> = Ok(value: T) | IllegalState
}
