/**
 * The replay tests' sessions run on the model, call after call: a replay is
 * built, a listener registered, the document loaded, the replay started and
 * the worker run from the start instant. Each method returns what the event
 * catcher received and what the listeners were told. A listener is an `int`
 * here; the test's listener is `1`.
 */
module Sessions {
  import opened Documents
  import opened Scheduling
  import opened Listeners
  import opened Scenarios
  import Replay
  import ThesisReplay
  import VW = ValueWrapper
  import IW = IdentityWrapper

  /**
   * The tests' set-up on the `geminio` replay: a replay of `doc` with the
   * listener `1` registered (and removed again when `removeListener`), loaded
   * and started at clock reading 0.
   */
  method Started(doc: Document<EventJson>, removeListener: bool) returns (replay: Replay.Replay<EventJson, TestEvent, int>)
    ensures fresh(replay) && replay.Valid()
    ensures replay.currentState == Replay.Replaying && replay.replayStart == 0 && replay.polled == []
    ensures replay.queue == replay.loadedEvents == Replay.LoadedSet(doc.events, Deserialize)
    ensures !replay.stopRequested && replay.delivered == [] && replay.notifications == []
    ensures replay.listeners == if removeListener then [] else [1]
  {
    replay := new Replay.Replay<EventJson, TestEvent, int>(Deserialize, doc);
    replay.AddReplayListener(1);
    if removeListener {
      replay.RemoveReplayListener(1);
      AddThenRemove([], 1);
    }
    var loaded := replay.Load();
    var started := replay.StartReplay(0);
  }

  /** The thesis replay of `doc` with the listener registered (or registered and removed) and loaded. */
  method ThesisLoaded(doc: Document<EventJson>, removeListener: bool) returns (replay: ThesisReplay.Replay<EventJson, TestEvent, int>)
    ensures fresh(replay) && replay.Valid() && replay.currentState == ThesisReplay.Loaded
    ensures replay.loadedEvents == Elems(replay.loadOrder) && Distinct(replay.loadOrder)
    ensures |replay.loadOrder| == |doc.events|
    ensures forall i :: 0 <= i < |replay.loadOrder| ==>
              && replay.loadOrder[i].relativeTimestamp == doc.events[i].relativeTime
              && replay.loadOrder[i].event == Deserialize(doc.events[i].event)
    ensures !replay.stopRequested && replay.delivered == [] && replay.notifications == []
    ensures replay.listeners == if removeListener then [] else [1]
  {
    replay := new ThesisReplay.Replay<EventJson, TestEvent, int>(Deserialize, doc);
    replay.AddReplayListener(1);
    if removeListener {
      replay.RemoveReplayListener(1);
      AddThenRemove([], 1);
    }
    var loaded := replay.Load();
  }

  /** The same set-up on the thesis replay; `load` allocated the wrappers `loadOrder`, one per entry. */
  method ThesisStarted(doc: Document<EventJson>, removeListener: bool) returns (replay: ThesisReplay.Replay<EventJson, TestEvent, int>)
    ensures fresh(replay) && replay.Valid()
    ensures replay.currentState == ThesisReplay.Replaying && replay.replayStart == 0 && replay.polled == []
    ensures replay.queue == replay.loadedEvents == Elems(replay.loadOrder) && Distinct(replay.loadOrder)
    ensures |replay.loadOrder| == |doc.events|
    ensures forall i :: 0 <= i < |replay.loadOrder| ==>
              && replay.loadOrder[i].relativeTimestamp == doc.events[i].relativeTime
              && replay.loadOrder[i].event == Deserialize(doc.events[i].event)
    ensures !replay.stopRequested && replay.delivered == [] && replay.notifications == []
    ensures replay.listeners == if removeListener then [] else [1]
  {
    replay := ThesisLoaded(doc, removeListener);
    var started := replay.StartReplay(0);
  }

  /**
   * The `geminio` worker started at the start instant with no stop request:
   * what `RunWorker` promises, narrowed to what the tests observe.
   */
  method RunToEnd(replay: Replay.Replay<EventJson, TestEvent, int>)
    requires replay.Valid() && replay.currentState == Replay.Replaying && replay.polled == [] && !replay.stopRequested
    modifies replay
    ensures replay.loadedEvents == old(replay.loadedEvents) && replay.listeners == old(replay.listeners)
    ensures Elems(replay.polled) == replay.loadedEvents
    ensures SortedBy(VW.Key, replay.polled) && Distinct(replay.polled)
    ensures replay.delivered == old(replay.delivered) + Events(VW.EventOf, replay.polled)
    ensures replay.notifications ==
              old(replay.notifications) + Broadcast(replay.listeners, ReplayEnded, ReplayEvent(|replay.loadedEvents|))
  {
    var last := replay.RunWorker(replay.replayStart);
  }

  /** The thesis worker started at the start instant with no stop request, narrowed the same way. */
  method ThesisRunToEnd(replay: ThesisReplay.Replay<EventJson, TestEvent, int>)
    requires replay.Valid() && replay.currentState == ThesisReplay.Replaying && replay.polled == [] && !replay.stopRequested
    modifies replay
    ensures replay.loadedEvents == old(replay.loadedEvents) && replay.listeners == old(replay.listeners)
    ensures replay.loadOrder == old(replay.loadOrder)
    ensures Elems(replay.polled) == replay.loadedEvents
    ensures SortedBy(IW.Key, replay.polled) && Distinct(replay.polled)
    ensures replay.delivered == old(replay.delivered) + Events(IW.EventOf, replay.polled)
    ensures replay.notifications ==
              old(replay.notifications) + Broadcast(replay.listeners, ReplayEnded, ReplayEvent(|replay.loadedEvents|))
  {
    var last := replay.RunWorker(replay.replayStart);
  }

  /**
   * The thesis worker started at the start instant after a stop request, on
   * a non-empty queue: one step on a head of the queue, then "failed".
   */
  method ThesisRunStopped(replay: ThesisReplay.Replay<EventJson, TestEvent, int>) returns (head: IW.Wrapper<TestEvent>)
    requires replay.Valid() && replay.currentState == ThesisReplay.Replaying && replay.polled == []
    requires replay.stopRequested && replay.queue != {}
    modifies replay
    ensures replay.listeners == old(replay.listeners) && replay.loadOrder == old(replay.loadOrder)
    ensures IsMin(IW.Key, head, old(replay.queue))
    ensures IsDue(ToSleep(head.relativeTimestamp, replay.replayStart, replay.replayStart)) ==> replay.polled == [head]
    ensures replay.delivered == old(replay.delivered) + Events(IW.EventOf, replay.polled)
    ensures replay.notifications ==
              old(replay.notifications) + Broadcast(replay.listeners, ReplayFailed, ReplayEvent(|replay.polled|))
  {
    var last := replay.RunWorker(replay.replayStart);
    head := last.action.head;
  }

  /**
   * `eventsReplayedTest` on the `geminio` replay: the catcher receives the
   * fake events in order and the listener is told "ended" once, with 5.
   */
  method EventsReplayed() returns (delivered: seq<TestEvent>, notifications: seq<Notice<int>>)
    ensures delivered == FakeEvents()
    ensures notifications == [Notice(1, ReplayEnded, ReplayEvent(5))]
  {
    var replay := Started(FiveEntryDocument(), false);
    FiveEntryDocumentLoads();
    RunToEnd(replay);
    FiveEntryReplay(replay.polled);
    BroadcastOne(1, ReplayEnded, ReplayEvent(5));
    delivered := replay.delivered;
    notifications := replay.notifications;
  }

  /** `eventsReplayedTest` on the thesis replay: the same delivery and the same notice. */
  method ThesisEventsReplayed() returns (delivered: seq<TestEvent>, notifications: seq<Notice<int>>)
    ensures delivered == FakeEvents()
    ensures notifications == [Notice(1, ReplayEnded, ReplayEvent(5))]
  {
    var replay := ThesisStarted(FiveEntryDocument(), false);
    ThesisRunToEnd(replay);
    ThesisFiveEntryReplay(replay.loadOrder, replay.polled);
    DistinctCount(replay.polled);
    BroadcastOne(1, ReplayEnded, ReplayEvent(5));
    delivered := replay.delivered;
    notifications := replay.notifications;
  }

  /**
   * `eventsReplayedFailedTest` on the thesis replay: a stop requested right
   * after the start is accepted, the worker's one step delivers the entry at
   * 0 ms, and the listener is told "failed" once, with 1.
   */
  method ThesisEventsReplayedFailed() returns (stop: Outcome<bool>, delivered: seq<TestEvent>, notifications: seq<Notice<int>>)
    ensures stop == Ok(true)
    ensures delivered == [TestEvent(0, 0)]
    ensures notifications == [Notice(1, ReplayFailed, ReplayEvent(1))]
  {
    var replay := ThesisStarted(FailedReplayDocument(), false);
    stop := replay.StopReplay();
    assert replay.loadOrder[0] in replay.queue;
    var head := ThesisRunStopped(replay);
    ThesisFailedReplayHead(replay.loadOrder, head, 0);
    BroadcastOne(1, ReplayFailed, ReplayEvent(1));
    assert Events(IW.EventOf, [head]) == [head.event] by {
      assert [head][..0] == [];
    }
    delivered := replay.delivered;
    notifications := replay.notifications;
  }

  /**
   * `stopReplayOnStoppedStateTest` and `resetReplayTest` on the `geminio`
   * replay, for any document: once the run has ended, `stopReplay` answers
   * false, the replay has ended, and `reset` takes it back to LOADED.
   */
  method StopAndResetAfterEnd(doc: Document<EventJson>) returns (stop: Outcome<bool>, ended: bool, reset: Outcome<()>)
    ensures stop == Ok(false) && ended && reset.Ok?
  {
    var replay := Started(doc, false);
    var last := replay.RunWorker(0);
    assert replay.currentState == Replay.Stopped;
    stop := replay.StopReplay();
    ended := replay.HasEnded();
    reset := replay.Reset();
  }

  /**
   * `removedListenerShouldNotFire` on the thesis replay, for any document: a
   * listener added and removed again is told nothing.
   */
  method ThesisRemovedListenerNotFired(doc: Document<EventJson>) returns (notifications: seq<Notice<int>>)
    ensures notifications == []
  {
    var replay := ThesisStarted(doc, true);
    var last := replay.RunWorker(0);
    notifications := replay.notifications;
  }

  /**
   * A stop requested right after the start of the `geminio` replay whose only
   * entry is 5 s away: the worker's one step sleeps instead of delivering, so
   * the catcher gets nothing and the listener is told "failed" once, with 0.
   */
  method FarFutureStopped() returns (stop: Outcome<bool>, delivered: seq<TestEvent>, notifications: seq<Notice<int>>)
    ensures stop == Ok(true)
    ensures delivered == []
    ensures notifications == [Notice(1, ReplayFailed, ReplayEvent(0))]
  {
    var replay := Started(FarFutureDocument(), false);
    stop := replay.StopReplay();
    var last := replay.RunWorker(0);
    delivered := replay.delivered;
    notifications := replay.notifications;
  }

  /**
   * The thesis replay's state-error tests: starting before `load`, loading
   * twice, and stopping in CREATED or in LOADED are all refused.
   */
  method ThesisIllegalStates() returns (startCreated: Outcome<()>, secondLoad: Outcome<()>,
                                        stopCreated: Outcome<bool>, stopLoaded: Outcome<bool>)
    ensures startCreated == IllegalState && secondLoad == IllegalState
    ensures stopCreated == IllegalState && stopLoaded == IllegalState
  {
    var replay := new ThesisReplay.Replay<EventJson, TestEvent, int>(Deserialize, FiveEntryDocument());
    startCreated := replay.StartReplay(0);
    stopCreated := replay.StopReplay();
    var loaded := replay.Load();
    stopLoaded := replay.StopReplay();
    var started := replay.StartReplay(0);
    secondLoad := replay.Load();
  }

  /**
   * The `geminio` reset tests: `reset` is refused in CREATED, in LOADED and
   * while REPLAYING.
   */
  method ResetIllegalStates() returns (resetCreated: Outcome<()>, resetLoaded: Outcome<()>, resetReplaying: Outcome<()>)
    ensures resetCreated == IllegalState && resetLoaded == IllegalState && resetReplaying == IllegalState
  {
    var replay := new Replay.Replay<EventJson, TestEvent, int>(Deserialize, FiveEntryDocument());
    resetCreated := replay.Reset();
    var loaded := replay.Load();
    resetLoaded := replay.Reset();
    var started := replay.StartReplay(0);
    resetReplaying := replay.Reset();
  }
}
