/**
 * The ordered event entry of the `capturereplay` package: an immutable pair of
 * an event and its relative timestamp, ordered by timestamp, with value
 * equality and a hash code. The Java fields are final, so the entry is a
 * datatype and `getEvent` / `getRelativeTimestamp` are its destructors.
 */
module ValueWrapper {
  import opened Documents

  /** An event together with the ms elapsed since the capture started. */
  datatype Wrapper<E> = Wrapper(event: E, relativeTimestamp: int)

  /** The argument of `equals(Object)`: null, a wrapper, or an object of another class. */
  datatype Obj<E> = Null | AWrapper(wrapper: Wrapper<E>) | OtherClass

  /** The ordering key used by the replay's priority queue. */
  function Key<E>(w: Wrapper<E>): int
  {
    w.relativeTimestamp
  }

  /** `getEvent`, as a function value. */
  function EventOf<E>(w: Wrapper<E>): E
  {
    w.event
  }

  /** The JSON constructor: the timestamp is read back, the event is deserialized. */
  function FromJson<J, E>(json: Entry<J>, deserializer: J -> E): Wrapper<E>
  {
    Wrapper(deserializer(json.event), json.relativeTime)
  }

  /** `toJSON`: the two-field document entry of this wrapper. */
  function ToJson<E, J>(w: Wrapper<E>, serializer: E -> J): Entry<J>
  {
    Entry(w.relativeTimestamp, serializer(w.event))
  }

  /** Java's `Long.compare`. */
  function LongCompare(x: int, y: int): int
  {
    if x < y then -1 else if x == y then 0 else 1
  }

  /** `compareTo`: the sign of the timestamp comparison; the events play no part. */
  function CompareTo<E>(a: Wrapper<E>, b: Wrapper<E>): (r: int)
    ensures -1 <= r <= 1
    ensures r < 0 <==> a.relativeTimestamp < b.relativeTimestamp
    ensures r == 0 <==> a.relativeTimestamp == b.relativeTimestamp
    ensures r > 0 <==> a.relativeTimestamp > b.relativeTimestamp
  {
    LongCompare(a.relativeTimestamp, b.relativeTimestamp)
  }

  /** `equals`: a wrapper with the same timestamp and an equal event (under the event's own equality). */
  function Equals<E>(w: Wrapper<E>, obj: Obj<E>, eventEquals: (E, E) -> bool): bool
  {
    match obj
    case AWrapper(other) =>
      w.relativeTimestamp == other.relativeTimestamp && eventEquals(w.event, other.event)
    case _ => false
  }

  const TwoTo31: int := 0x8000_0000
  const TwoTo32: int := 0x1_0000_0000

  /** A Java `(int)` cast, or the result of 32-bit `int` arithmetic: the low 32 bits, read as signed. */
  function Int32(x: int): (r: int)
    ensures -TwoTo31 <= r < TwoTo31
    ensures (x - r) % TwoTo32 == 0
  {
    var r := (x + TwoTo31) % TwoTo32 - TwoTo31;
    assert x - r == ((x + TwoTo31) / TwoTo32) * TwoTo32;
    r
  }

  /** Multiplying both sides of a congruence modulo 2^32 by the same factor keeps it. */
  lemma {:induction false} CongruenceScales(a: int, b: int, c: int)
    requires (a - b) % TwoTo32 == 0
    ensures (c * a - c * b) % TwoTo32 == 0
  {
    var q := (a - b) / TwoTo32;
    assert a - b == q * TwoTo32;
    assert c * a - c * b == (c * q) * TwoTo32 by {
      assert c * a - c * b == c * (a - b);
    }
  }

  /**
   * `hashCode`: `13 * (int) ts + 17 * event.hashCode()` in 32-bit `int`
   * arithmetic. The result is a Java int congruent, modulo 2^32, to the same
   * expression computed over the integers.
   */
  function HashCode<E>(w: Wrapper<E>, eventHash: E -> int): (h: int)
    ensures -TwoTo31 <= h < TwoTo31
    ensures (13 * w.relativeTimestamp + 17 * eventHash(w.event) - h) % TwoTo32 == 0
  {
    var ts32 := Int32(w.relativeTimestamp);
    var eh32 := Int32(eventHash(w.event));
    var h := Int32(13 * ts32 + 17 * eh32);
    CongruenceScales(w.relativeTimestamp, ts32, 13);
    CongruenceScales(eventHash(w.event), eh32, 17);
    h
  }

  /** Two wrappers with equal timestamps compare as 0, whatever their events; `compareTo` never looks at the events. */
  lemma CompareToIgnoresEvents<E>(a: Wrapper<E>, b: Wrapper<E>, e1: E, e2: E)
    ensures CompareTo(a, b) == CompareTo(Wrapper(e1, a.relativeTimestamp), Wrapper(e2, b.relativeTimestamp))
    ensures a.relativeTimestamp == b.relativeTimestamp ==> CompareTo(a, b) == 0
  {
  }

  /** `compareTo` is antisymmetric and transitive, as `Comparable` requires. */
  lemma CompareToIsTotalPreorder<E>(a: Wrapper<E>, b: Wrapper<E>, c: Wrapper<E>)
    ensures CompareTo(a, b) == -CompareTo(b, a)
    ensures CompareTo(a, b) <= 0 && CompareTo(b, c) <= 0 ==> CompareTo(a, c) <= 0
    ensures CompareTo(a, b) <= 0 || CompareTo(b, a) <= 0
  {
  }

  /** `equals` is false for null and for other classes, and otherwise compares timestamp and event. */
  lemma EqualsCases<E>(w: Wrapper<E>, other: Wrapper<E>, eventEquals: (E, E) -> bool)
    ensures !Equals(w, Null, eventEquals)
    ensures !Equals(w, OtherClass, eventEquals)
    ensures Equals(w, AWrapper(other), eventEquals) <==>
              w.relativeTimestamp == other.relativeTimestamp && eventEquals(w.event, other.event)
  {
  }

  /**
   * When the event's equality is structural, `equals` between wrappers is
   * exactly datatype equality: the relation a hash set of wrappers uses, so
   * two entries with the same timestamp and event collapse to one, provided
   * the event's `hashCode` also agrees with its `equals`.
   */
  lemma EqualsIsValueEquality<E>(a: Wrapper<E>, b: Wrapper<E>)
    ensures Equals(a, AWrapper(b), (x: E, y: E) => x == y) <==> a == b
  {
  }

  /** Equal wrappers have equal hash codes, provided the event's hash agrees with the event's equality. */
  lemma HashConsistentWithEquals<E>(a: Wrapper<E>, b: Wrapper<E>, eventEquals: (E, E) -> bool, eventHash: E -> int)
    requires forall x, y :: eventEquals(x, y) ==> eventHash(x) == eventHash(y)
    requires Equals(a, AWrapper(b), eventEquals)
    ensures HashCode(a, eventHash) == HashCode(b, eventHash)
  {
  }

  /**
   * `toJSON` followed by the JSON constructor keeps the timestamp and turns the
   * event into `deserializer(serializer(event))`; when that is the identity,
   * the result is the original wrapper and `equals` it.
   */
  lemma ToJsonFromJson<E, J>(w: Wrapper<E>, serializer: E -> J, deserializer: J -> E, eventEquals: (E, E) -> bool)
    ensures FromJson(ToJson(w, serializer), deserializer) == Wrapper(deserializer(serializer(w.event)), w.relativeTimestamp)
    ensures ToJson(w, serializer) == Entry(w.relativeTimestamp, serializer(w.event))
    ensures deserializer(serializer(w.event)) == w.event && eventEquals(w.event, w.event) ==>
              FromJson(ToJson(w, serializer), deserializer) == w &&
              Equals(FromJson(ToJson(w, serializer), deserializer), AWrapper(w), eventEquals)
  {
  }

  /** A document entry read into a wrapper and written back is the same entry when `serializer(deserializer(j)) == j`. */
  lemma FromJsonToJson<E, J>(json: Entry<J>, deserializer: J -> E, serializer: E -> J)
    ensures ToJson(FromJson(json, deserializer), serializer) == Entry(json.relativeTime, serializer(deserializer(json.event)))
    ensures serializer(deserializer(json.event)) == json.event ==> ToJson(FromJson(json, deserializer), serializer) == json
  {
  }
}
