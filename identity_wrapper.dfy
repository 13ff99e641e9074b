/**
 * The ordered event entry of the `thesis.capturereplay` package. Its fields are
 * final, but the class overrides neither `equals` nor `hashCode`, so two
 * wrappers are equal only when they are the same object. It is therefore a
 * class with constant fields: Dafny compares its instances by reference.
 */
module IdentityWrapper {
  import opened Documents

  class Wrapper<E> {
    /** The wrapped event. */
    const event: E
    /** The ms elapsed since the capture started. */
    const relativeTimestamp: int

    /** `Wrapper(event, relativeTimestamp)`: the getters return exactly these arguments, for ever. */
    constructor (event: E, relativeTimestamp: int)
      ensures this.event == event && this.relativeTimestamp == relativeTimestamp
    {
      this.event := event;
      this.relativeTimestamp := relativeTimestamp;
    }

    /** `toJSON`: the two-field document entry of this wrapper. */
    function ToJson<J>(serializer: E -> J): Entry<J>
    {
      Entry(relativeTimestamp, serializer(event))
    }

    /** `compareTo`: the sign of the timestamp comparison; the events play no part. */
    function CompareTo(other: Wrapper<E>): (r: int)
      ensures -1 <= r <= 1
      ensures r < 0 <==> relativeTimestamp < other.relativeTimestamp
      ensures r == 0 <==> relativeTimestamp == other.relativeTimestamp
      ensures r > 0 <==> relativeTimestamp > other.relativeTimestamp
    {
      if relativeTimestamp < other.relativeTimestamp then -1
      else if relativeTimestamp == other.relativeTimestamp then 0
      else 1
    }
  }

  /** The ordering key used by the replay's priority queue. */
  function Key<E>(w: Wrapper<E>): int
  {
    w.relativeTimestamp
  }

  /** `getEvent`, as a function value. */
  function EventOf<E>(w: Wrapper<E>): E
  {
    w.event
  }

  /** The JSON constructor: a new wrapper holding the entry's timestamp and the deserialized event. */
  method FromJson<J, E>(json: Entry<J>, deserializer: J -> E) returns (w: Wrapper<E>)
    ensures fresh(w)
    ensures w.relativeTimestamp == json.relativeTime && w.event == deserializer(json.event)
  {
    w := new Wrapper(deserializer(json.event), json.relativeTime);
  }

  /**
   * Round trip of one wrapper through its document entry: the copy keeps the
   * timestamp, holds `deserializer(serializer(event))`, and is nonetheless a
   * different wrapper from the original.
   */
  method RoundTrip<E, J>(w: Wrapper<E>, serializer: E -> J, deserializer: J -> E) returns (copy: Wrapper<E>)
    ensures copy.relativeTimestamp == w.relativeTimestamp
    ensures copy.event == deserializer(serializer(w.event))
    ensures copy != w
  {
    copy := FromJson(w.ToJson(serializer), deserializer);
  }

  /** Two separately built wrappers with identical contents are two distinct members of any set. */
  method DistinctByIdentity<E>(event: E, relativeTimestamp: int) returns (a: Wrapper<E>, b: Wrapper<E>)
    ensures a.event == b.event == event
    ensures a.relativeTimestamp == b.relativeTimestamp == relativeTimestamp
    ensures a != b && |{a, b}| == 2
  {
    a := new Wrapper(event, relativeTimestamp);
    b := new Wrapper(event, relativeTimestamp);
  }
}
