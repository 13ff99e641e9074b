/**
 * The replay tests' fixtures run through the model: the test event and its
 * serializer pair, the 5-entry document, the failed-replay document. Each
 * lemma takes what a worker run guarantees (`Replay.Replay.RunWorker`,
 * `ThesisReplay.Replay.RunWorker`, `ThesisReplay.Replay.Load`) for one of
 * these documents and derives what the tests observe: which events reach
 * the catcher, in which order, and the count the listeners are told.
 */
module Scenarios {
  import opened Documents
  import opened Scheduling
  import VW = ValueWrapper
  import IW = IdentityWrapper
  import Replay
  import Capture

  /**
   * The test event: a timestamp and a random number, compared field by field.
   * As a datatype its equality and its hash agree, which the Java test event
   * (it overrides `equals` only) does not guarantee.
   */
  datatype TestEvent = TestEvent(timestamp: int, random: int)

  /** Its serialized form: the object `{time, random}`. */
  datatype EventJson = EventJson(time: int, random: int)

  function Serialize(e: TestEvent): EventJson
  {
    EventJson(e.timestamp, e.random)
  }

  function Deserialize(j: EventJson): TestEvent
  {
    TestEvent(j.time, j.random)
  }

  /** The test helper's pair is a bijection: each direction undoes the other. */
  lemma SerializeRoundTrip(e: TestEvent, j: EventJson)
    ensures Deserialize(Serialize(e)) == e
    ensures Serialize(Deserialize(j)) == j
  {
  }

  /** The 5-entry document of the replay tests: entry `i` at `10 * i` ms holds the event `(i, i)`. */
  function FiveEntryDocument(): Document<EventJson>
  {
    Document(seq(5, i => Entry(10 * i, EventJson(i, i))))
  }

  /** The events the 5-entry document stands for, in timestamp order. */
  function FakeEvents(): seq<TestEvent>
  {
    seq(5, i => TestEvent(i, i))
  }

  /** The document of the failed-replay test: entries at 0, 1000 and 2000 ms. */
  function FailedReplayDocument(): Document<EventJson>
  {
    Document(seq(3, i => Entry(1000 * i, EventJson(i, i))))
  }

  /** The entries the 5-entry document describes, as value-equal wrappers, in timestamp order. */
  function FiveWrappers(): seq<VW.Wrapper<TestEvent>>
  {
    seq(5, i => VW.Wrapper(TestEvent(i, i), 10 * i))
  }

  /**
   * The 5-entry document is what a capture of the fake events, 10 ms apart,
   * saves; loading it gives back the five wrappers, none collapsing.
   */
  lemma FiveEntryDocumentLoads()
    ensures Capture.ToDocument(FiveWrappers(), Serialize) == FiveEntryDocument()
    ensures Replay.LoadedSet(FiveEntryDocument().events, Deserialize) == Elems(FiveWrappers())
    ensures |Replay.LoadedSet(FiveEntryDocument().events, Deserialize)| == 5
  {
    var ws := FiveWrappers();
    assert Capture.ToDocument(ws, Serialize).events == FiveEntryDocument().events;
    Replay.CaptureThenLoad(ws, Serialize, Deserialize);
    assert Distinct(ws);
    DistinctCount(ws);
  }

  /** The five wrappers arranged without repetition in timestamp order are in document order. */
  lemma FiveWrappersInOrder(polled: seq<VW.Wrapper<TestEvent>>)
    requires Elems(polled) == Elems(FiveWrappers())
    requires SortedBy(VW.Key, polled) && Distinct(polled)
    ensures polled == FiveWrappers()
    ensures Events(VW.EventOf, polled) == FakeEvents()
  {
    var ws := FiveWrappers();
    assert forall a, b :: 0 <= a < b < |ws| ==> VW.Key(ws[a]) < VW.Key(ws[b]);
    SortedArrangementUnique(VW.Key, polled, ws);
    EventsAt(VW.EventOf, ws);

  }

  /**
   * A complete `geminio` replay of the 5-entry document (the no-stop outcome
   * of `RunWorker`: every loaded wrapper once, in timestamp order) hands the
   * catcher the fake events in order, and the listeners are told "ended" with 5.
   */
  lemma FiveEntryReplay(polled: seq<VW.Wrapper<TestEvent>>)
    requires Elems(polled) == Replay.LoadedSet(FiveEntryDocument().events, Deserialize)
    requires SortedBy(VW.Key, polled) && Distinct(polled)
    ensures polled == FiveWrappers()
    ensures Events(VW.EventOf, polled) == FakeEvents()
    ensures |Replay.LoadedSet(FiveEntryDocument().events, Deserialize)| == 5
  {
    FiveEntryDocumentLoads();
    FiveWrappersInOrder(polled);
  }

  /**
   * The same for the thesis replay, whose `load` allocated `order`, one
   * wrapper per entry of the document: the run takes `order` itself.
   */
  lemma {:induction false} ThesisFiveEntryReplay(order: seq<IW.Wrapper<TestEvent>>, polled: seq<IW.Wrapper<TestEvent>>)
    requires |order| == |FiveEntryDocument().events|
    requires forall i :: 0 <= i < |order| ==>
               && order[i].relativeTimestamp == FiveEntryDocument().events[i].relativeTime
               && order[i].event == Deserialize(FiveEntryDocument().events[i].event)
    requires Elems(polled) == Elems(order) && SortedBy(IW.Key, polled) && Distinct(polled)
    ensures polled == order && |polled| == 5
    ensures Events(IW.EventOf, polled) == FakeEvents()
  {
    assert forall a, b :: 0 <= a < b < |order| ==> IW.Key(order[a]) < IW.Key(order[b]);
    SortedArrangementUnique(IW.Key, polled, order);
    EventsAt(IW.EventOf, polled);
  }

  /**
   * The failed-replay test stops the thesis replay right after starting it,
   * so the worker's single step runs at the start instant: its head is the
   * entry at 0 ms, which is due, so the catcher gets `(0, 0)` and each
   * listener is told "failed" once (the test's failed counter is 1), with
   * one event replayed.
   */
  lemma ThesisFailedReplayHead(order: seq<IW.Wrapper<TestEvent>>, head: IW.Wrapper<TestEvent>, start: int)
    requires |order| == |FailedReplayDocument().events|
    requires forall i :: 0 <= i < |order| ==>
               && order[i].relativeTimestamp == FailedReplayDocument().events[i].relativeTime
               && order[i].event == Deserialize(FailedReplayDocument().events[i].event)
    requires IsMin(IW.Key, head, Elems(order))
    ensures head == order[0] && head.event == TestEvent(0, 0)
    ensures IsDue(ToSleep(head.relativeTimestamp, start, start))
  {
    assert head in order;
    assert IW.Key(head) <= IW.Key(order[0]);
  }

  /** A one-entry document whose entry is 5 s in the future. */
  function FarFutureDocument(): Document<EventJson>
  {
    Document([Entry(5000, EventJson(7, 7))])
  }

  /**
   * A stop requested before the worker's first step, with the only entry
   * 5 s away: the least head is that entry and it is not due, so the step
   * sleeps instead of delivering (the whole session is
   * `Sessions.FarFutureStopped`).
   */
  lemma FarFutureHeadSleeps(head: VW.Wrapper<TestEvent>, start: int)
    requires IsMin(VW.Key, head, Replay.LoadedSet(FarFutureDocument().events, Deserialize))
    ensures head == VW.Wrapper(TestEvent(7, 7), 5000)
    ensures !IsDue(ToSleep(head.relativeTimestamp, start, start))
  {
    assert FarFutureDocument().events[..0] == [];
  }

  /**
   * A document listing the same entry twice: for an event whose hash agrees
   * with its equality, as `TestEvent` here, the `geminio` hash set holds a
   * single wrapper.
   */
  lemma DuplicateEntryLoadsOnce()
    ensures |Replay.LoadedSet([Entry(0, EventJson(1, 1)), Entry(0, EventJson(1, 1))], Deserialize)| == 1
  {
    Replay.DuplicatesCollapse(Entry(0, EventJson(1, 1)), Deserialize);
  }
}
