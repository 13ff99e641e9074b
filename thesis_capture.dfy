/**
 * The capture session of the `thesis.capturereplay` package. Its lifecycle and
 * document are those of the `capturereplay` capture; the difference is that
 * each captured event is held in an identity-compared wrapper object, newly
 * allocated by every successful `capture`. The session is a three-state lifecycle
 * CREATED -> CAPTURING -> STOPPED that appends each captured event, with its
 * time relative to the start of the capture, to a list, and hands the whole
 * list to the persister as one document once stopped.
 *
 * The system clock is the `now` argument of the calls that read it; the
 * persister is the log `persisted` of the documents it was given.
 */
module ThesisCapture {
  import opened Documents
  import opened IdentityWrapper

  datatype State = Created | Capturing | Stopped

  /** The document built from a list of wrappers: one entry per wrapper, in list order. */
  function ToDocument<E, J>(ws: seq<Wrapper<E>>, serializer: E -> J): Document<J>
  {
    Document(seq(|ws|, i requires 0 <= i < |ws| => ws[i].ToJson(serializer)))
  }

  class Capture<E, J> {
    /** Serializer of the events. */
    const serializer: E -> J
    var currentState: State
    /** Clock reading when the capture started. */
    var captureStart: int
    /** The captured events, in capture order. */
    var serializedEvents: seq<Wrapper<E>>
    /** The documents handed to the persister, oldest first. */
    var persisted: seq<Document<J>>

    ghost predicate Valid()
      reads this
    {
      && (currentState == Created ==> serializedEvents == [])
      && (persisted != [] ==> currentState == Stopped)
    }

    constructor (serializer: E -> J)
      ensures Valid()
      ensures this.serializer == serializer
      ensures currentState == Created && serializedEvents == [] && persisted == []
    {
      this.serializer := serializer;
      currentState := Created;
      captureStart := 0;
      serializedEvents := [];
      persisted := [];
    }

    /** `startCapture`: legal only in CREATED; records the start time. A stopped capture cannot restart. */
    method StartCapture(now: int) returns (r: Outcome<()>)
      requires Valid()
      modifies this
      ensures Valid()
      ensures r.Ok? <==> old(currentState) == Created
      ensures r.Ok? ==> currentState == Capturing && captureStart == now
      ensures r.IllegalState? ==> currentState == old(currentState) && captureStart == old(captureStart)
      ensures serializedEvents == old(serializedEvents) && persisted == old(persisted)
    {
      if currentState != Created {
        return IllegalState;
      }
      currentState := Capturing;
      captureStart := now;
      return Ok(());
    }

    /** `stopCapture`: legal only in CAPTURING. */
    method StopCapture() returns (r: Outcome<()>)
      requires Valid()
      modifies this
      ensures Valid()
      ensures r.Ok? <==> old(currentState) == Capturing
      ensures currentState == if r.Ok? then Stopped else old(currentState)
      ensures captureStart == old(captureStart)
      ensures serializedEvents == old(serializedEvents) && persisted == old(persisted)
    {
      if currentState != Capturing {
        return IllegalState;
      }
      currentState := Stopped;
      return Ok(());
    }

    /** `capture`: legal only in CAPTURING; appends exactly one entry, stamped `now - captureStart`. */
    method Capture(event: E, now: int) returns (r: Outcome<()>)
      requires Valid()
      modifies this
      ensures Valid()
      ensures r.Ok? <==> old(currentState) == Capturing
      ensures r.IllegalState? ==> serializedEvents == old(serializedEvents)
      ensures r.Ok? ==>
                && |serializedEvents| == |old(serializedEvents)| + 1
                && serializedEvents[..|old(serializedEvents)|] == old(serializedEvents)
                && var w := serializedEvents[|old(serializedEvents)|];
                   fresh(w) && w.event == event && w.relativeTimestamp == now - captureStart
      ensures currentState == old(currentState) && captureStart == old(captureStart)
      ensures persisted == old(persisted)
    {
      if currentState != Capturing {
        return IllegalState;
      }
      var relTimestamp := now - captureStart;
      var w := new Wrapper(event, relTimestamp);
      serializedEvents := serializedEvents + [w];
      return Ok(());
    }

    /** `saveEvents`: legal only in STOPPED; hands the persister the document of all captured events. */
    method SaveEvents() returns (r: Outcome<()>)
      requires Valid()
      modifies this`persisted
      ensures Valid()
      ensures r.Ok? <==> currentState == Stopped
      ensures persisted ==
                if r.Ok? then old(persisted) + [ToDocument(serializedEvents, serializer)]
                else old(persisted)
    {
      if currentState != Stopped {
        return IllegalState;
      }
      var json := EventsToJson();
      persisted := persisted + [json];
      return Ok(());
    }

    /** `getNumberOfCapturedEvents`: valid in every state, changes nothing. */
    method GetNumberOfCapturedEvents() returns (n: int)
      ensures n == |serializedEvents|
    {
      n := |serializedEvents|;
    }

    /** `eventsToJSON`: appends the entry of each captured event, in capture order, to a fresh document. */
    method EventsToJson() returns (json: Document<J>)
      ensures |json.events| == |serializedEvents|
      ensures forall i :: 0 <= i < |serializedEvents| ==>
                json.events[i] == Entry(serializedEvents[i].relativeTimestamp, serializer(serializedEvents[i].event))
      ensures json == ToDocument(serializedEvents, serializer)
    {
      var events: seq<Entry<J>> := [];
      for k := 0 to |serializedEvents|
        invariant |events| == k
        invariant forall i :: 0 <= i < k ==> events[i] == serializedEvents[i].ToJson(serializer)
      {
        events := events + [serializedEvents[k].ToJson(serializer)];
      }
      json := Document(events);
    }
  }
}
