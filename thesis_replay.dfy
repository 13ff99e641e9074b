/**
 * The replay session of the `thesis.capturereplay` package: the CREATED ->
 * LOADED -> REPLAYING -> STOPPED lifecycle and the worker of the `geminio`
 * replay, without `hasEnded`, `reset` or a settable event catcher, over
 * wrappers compared by identity. `load` allocates a new wrapper for every
 * document entry, so the hash set never merges two entries, whatever their
 * contents.
 *
 * The clock is the `now` argument of the calls that read it, and a sleep of
 * `toSleep` ms is a clock advance by exactly `toSleep` (see `RunWorker`).
 * The event catcher is the log `delivered` of the events it was given, and
 * the listener calls are the log `notifications`.
 */
module ThesisReplay {
  import opened Documents
  import opened IdentityWrapper
  import opened Scheduling
  import opened Listeners

  datatype State = Created | Loaded | Replaying | Stopped

  class Replay<J, E, L(==)> {
    /** Deserializer of the events. */
    const deserializer: J -> E
    /** The document the loader supplies. */
    const loader: Document<J>
    /** The registered listeners, in registration order. */
    var listeners: seq<L>
    /** The hash set filled by `load`. */
    var loadedEvents: set<Wrapper<E>>
    /** What is left to replay in the current run. */
    var queue: set<Wrapper<E>>
    var currentState: State
    /** Clock reading when the current run started. */
    var replayStart: int
    /** Number of events delivered in the current run. */
    var replayCounter: int
    /** Set by `stopReplay`; nothing ever clears it. */
    var stopRequested: bool
    /** The events handed to the event catcher, over all runs, in delivery order. */
    var delivered: seq<E>
    /** The listener calls, over all runs, in call order. */
    var notifications: seq<Notice<L>>
    /** The wrappers polled in the current run, in polling order. */
    ghost var polled: seq<Wrapper<E>>
    /** What the event catcher had received when the current run started. */
    ghost var deliveredBeforeRun: seq<E>
    /** The wrappers `load` allocated, in document order. */
    ghost var loadOrder: seq<Wrapper<E>>

    /**
     * Nothing is loaded before `load`; once a run has started its state is
     * described by `RunState`; a stopped run has an empty queue.
     */
    ghost predicate Valid()
      reads this
    {
      && (currentState == Created ==> loadedEvents == {})
      && (currentState == Replaying || currentState == Stopped ==>
            RunState(Key, EventOf, loadedEvents, polled, queue, replayCounter, deliveredBeforeRun, delivered))
      && (currentState == Stopped ==> queue == {})
    }

    constructor (deserializer: J -> E, loader: Document<J>)
      ensures Valid()
      ensures this.deserializer == deserializer && this.loader == loader
      ensures currentState == Created && loadedEvents == {} && listeners == []
      ensures !stopRequested && delivered == [] && notifications == []
    {
      this.deserializer := deserializer;
      this.loader := loader;
      listeners := [];
      loadedEvents := {};
      queue := {};
      currentState := Created;
      replayStart := 0;
      replayCounter := 0;
      stopRequested := false;
      delivered := [];
      notifications := [];
      polled := [];
      deliveredBeforeRun := [];
      loadOrder := [];
    }

    /**
     * `load`: legal only in CREATED; allocates one new wrapper per document
     * entry, holding its timestamp and deserialized event, and adds it to the
     * set. The wrappers are pairwise distinct, so the set has one per entry.
     */
    method Load() returns (r: Outcome<()>)
      requires Valid()
      modifies this`loadedEvents, this`currentState, this`loadOrder
      ensures Valid()
      ensures r.Ok? <==> old(currentState) == Created
      ensures r.Ok? ==>
                && currentState == Loaded
                && |loadOrder| == |loader.events| && Distinct(loadOrder)
                && loadedEvents == Elems(loadOrder) && |loadedEvents| == |loader.events|
                && (forall i :: 0 <= i < |loadOrder| ==> fresh(loadOrder[i]))
                && (forall i :: 0 <= i < |loadOrder| ==>
                      && loadOrder[i].relativeTimestamp == loader.events[i].relativeTime
                      && loadOrder[i].event == deserializer(loader.events[i].event))
      ensures r.IllegalState? ==> unchanged(this)
    {
      if currentState != Created {
        return IllegalState;
      }
      var jsonarr := loader.events;
      loadOrder := [];
      for k := 0 to |jsonarr|
        invariant |loadOrder| == k && Distinct(loadOrder) && loadedEvents == Elems(loadOrder)
        invariant forall i :: 0 <= i < k ==> fresh(loadOrder[i])
        invariant forall i :: 0 <= i < k ==>
                    && loadOrder[i].relativeTimestamp == jsonarr[i].relativeTime
                    && loadOrder[i].event == deserializer(jsonarr[i].event)
      {
        var w := FromJson(jsonarr[k], deserializer);
        loadedEvents := loadedEvents + {w};
        loadOrder := loadOrder + [w];
      }
      DistinctCount(loadOrder);
      currentState := Loaded;
      return Ok(());
    }

    /**
     * `startReplay`: legal only in LOADED; the queue is seeded with the whole
     * set, the counter restarts and the start time is taken. The stop flag is
     * left as it is. The worker is `RunWorker`.
     */
    method StartReplay(now: int) returns (r: Outcome<()>)
      requires Valid()
      modifies this`queue, this`currentState, this`replayCounter, this`replayStart, this`polled, this`deliveredBeforeRun
      ensures Valid()
      ensures r.Ok? <==> old(currentState) == Loaded
      ensures r.Ok? ==>
                && currentState == Replaying && queue == loadedEvents
                && replayCounter == 0 && replayStart == now && polled == [] && deliveredBeforeRun == delivered
      ensures r.IllegalState? ==> unchanged(this)
    {
      if currentState != Loaded {
        return IllegalState;
      }
      queue := loadedEvents;
      currentState := Replaying;
      replayCounter := 0;
      replayStart := now;
      polled := [];
      deliveredBeforeRun := delivered;
      return Ok(());
    }

    /**
     * `stopReplay`: false when STOPPED, illegal before the replay started, and
     * otherwise raises the stop flag and answers true.
     */
    method StopReplay() returns (r: Outcome<bool>)
      modifies this`stopRequested
      ensures currentState == Stopped ==> r == Ok(false) && stopRequested == old(stopRequested)
      ensures currentState == Created || currentState == Loaded ==>
                r == IllegalState && stopRequested == old(stopRequested)
      ensures currentState == Replaying ==> r == Ok(true) && stopRequested
    {
      if currentState == Stopped {
        return Ok(false);
      }
      if currentState == Created || currentState == Loaded {
        return IllegalState;
      }
      stopRequested := true;
      return Ok(true);
    }

    /** `addReplayListener`: appends, even a listener already registered. */
    method AddReplayListener(listener: L)
      modifies this`listeners
      ensures listeners == old(listeners) + [listener]
    {
      listeners := listeners + [listener];
    }

    /** `removeReplayListener`: removes the first registration of the listener, if any. */
    method RemoveReplayListener(listener: L)
      modifies this`listeners
      ensures listeners == RemoveFirst(old(listeners), listener)
    {
      listeners := RemoveFirst(listeners, listener);
    }

    /**
     * `throwEnded` (kind `ReplayEnded`) and `throwFailed` (kind `ReplayFailed`):
     * each registered listener, in order, is called with the current counter.
     */
    method Notify(kind: Kind)
      modifies this`notifications
      ensures notifications == old(notifications) + Broadcast(listeners, kind, ReplayEvent(replayCounter))
    {
      var event := ReplayEvent(replayCounter);
      for k := 0 to |listeners|
        invariant notifications == old(notifications) + Broadcast(listeners[..k], kind, event)
      {
        assert listeners[..k + 1] == listeners[..k] + [listeners[k]];
        BroadcastAppend(listeners[..k], listeners[k], kind, event);
        notifications := notifications + [Notice(listeners[k], kind, event)];
      }
      assert listeners[..|listeners|] == listeners;
    }

    /**
     * The middle of `replay`, on a non-empty queue at clock reading `now`: the
     * head is polled and its event handed to the catcher when it is due, and
     * otherwise the worker sleeps until it is.
     */
    method Advance(now: int) returns (action: Action<Wrapper<E>>)
      requires Valid() && currentState == Replaying && queue != {}
      modifies this`queue, this`replayCounter, this`delivered, this`polled
      ensures Valid()
      ensures IsMin(Key, action.head, old(queue))
      ensures action.Deliver? <==> IsDue(ToSleep(action.head.relativeTimestamp, now, replayStart))
      ensures action.Deliver? ==>
                && queue == old(queue) - {action.head}
                && delivered == old(delivered) + [action.head.event]
                && polled == old(polled) + [action.head]
                && replayCounter == old(replayCounter) + 1
      ensures action.Sleep? ==>
                && action.millis == ToSleep(action.head.relativeTimestamp, now, replayStart)
                && queue == old(queue) && replayCounter == old(replayCounter)
                && delivered == old(delivered) && polled == old(polled)
    {
      MinExists(Key, queue);
      var head :| head in queue && IsMin(Key, head, queue);
      var toSleep := ToSleep(head.relativeTimestamp, now, replayStart);
      if IsDue(toSleep) {
        PollKeepsRun(Key, EventOf, loadedEvents, polled, queue, replayCounter, deliveredBeforeRun, delivered, head);
        queue := queue - {head};
        polled := polled + [head];
        delivered := delivered + [head.event];
        replayCounter := replayCounter + 1;
        action := Deliver(head);
      } else {
        action := Sleep(head, toSleep);
      }
    }

    /**
     * One invocation of `replay`, at clock reading `now`, up to the point where
     * it recurses. An empty queue ends the run and tells the listeners so.
     * Otherwise the worker advances (`Advance`); then a stop request fails the
     * run and tells the listeners so, and without one the worker goes on.
     */
    method Step(now: int) returns (r: StepResult<Wrapper<E>>)
      requires Valid()
      modifies this`currentState, this`queue, this`replayCounter, this`delivered, this`notifications, this`polled
      ensures Valid() && stopRequested == old(stopRequested)
      ensures old(currentState) != Replaying ==>
                && r == NotReplaying && currentState == old(currentState) && queue == old(queue)
                && replayCounter == old(replayCounter) && delivered == old(delivered)
                && notifications == old(notifications) && polled == old(polled)
      ensures old(currentState) == Replaying && old(queue) == {} ==>
                && r == Ended && currentState == Stopped
                && notifications == old(notifications) + Broadcast(listeners, ReplayEnded, ReplayEvent(replayCounter))
                && queue == old(queue) && replayCounter == old(replayCounter)
                && delivered == old(delivered) && polled == old(polled)
      ensures old(currentState) == Replaying && old(queue) != {} ==>
                (r.Failed? <==> stopRequested) && (r.Continue? || r.Failed?) && currentState == Replaying
      ensures old(currentState) == Replaying && old(queue) != {} ==>
                && IsMin(Key, r.action.head, old(queue))
                && (r.action.Deliver? <==> IsDue(ToSleep(r.action.head.relativeTimestamp, now, replayStart)))
      ensures old(currentState) == Replaying && old(queue) != {} && r.action.Deliver? ==>
                && queue == old(queue) - {r.action.head}
                && delivered == old(delivered) + [r.action.head.event]
                && polled == old(polled) + [r.action.head]
                && replayCounter == old(replayCounter) + 1
      ensures old(currentState) == Replaying && old(queue) != {} && r.action.Sleep? ==>
                && r.action.millis == ToSleep(r.action.head.relativeTimestamp, now, replayStart)
                && queue == old(queue) && replayCounter == old(replayCounter)
                && delivered == old(delivered) && polled == old(polled)
      ensures old(currentState) == Replaying && old(queue) != {} ==>
                notifications == old(notifications) +
                  (if r.Failed? then Broadcast(listeners, ReplayFailed, ReplayEvent(replayCounter)) else [])
    {
      if currentState != Replaying {
        return NotReplaying;
      }
      if queue == {} {
        currentState := Stopped;
        Notify(ReplayEnded);
        return Ended;
      }
      var action := Advance(now);
      if stopRequested {
        Notify(ReplayFailed);
        return Failed(action);
      }
      return Continue(action);
    }

    /**
     * The worker thread started by `startReplay`: `replay` recursing until it
     * returns, with no stop request arriving meanwhile. The clock reads `start`
     * at the first step, and each sleep advances it by exactly the time slept.
     *
     * Without a stop request the run ends: every loaded wrapper was delivered
     * exactly once, in non-decreasing timestamp order, and each listener was
     * told "ended" with the number of loaded wrappers. With a stop request
     * made before the worker's first step, the worker does one step and
     * fails, unless the queue was empty.
     */
    method RunWorker(start: int) returns (last: StepResult<Wrapper<E>>)
      requires Valid() && currentState == Replaying && polled == []
      modifies this`currentState, this`queue, this`replayCounter, this`delivered, this`notifications, this`polled
      ensures Valid()
      ensures !stopRequested ==>
                && last == Ended && currentState == Stopped
                && Elems(polled) == loadedEvents && |polled| == |loadedEvents| && replayCounter == |loadedEvents|
                && SortedBy(Key, polled) && Distinct(polled)
                && delivered == old(delivered) + Events(EventOf, polled)
                && notifications == old(notifications) + Broadcast(listeners, ReplayEnded, ReplayEvent(|loadedEvents|))
      ensures stopRequested && old(queue) == {} ==>
                && last == Ended && currentState == Stopped
                && delivered == old(delivered) && polled == []
                && notifications == old(notifications) + Broadcast(listeners, ReplayEnded, ReplayEvent(0))
      ensures stopRequested && old(queue) != {} ==>
                && last.Failed? && currentState == Replaying
                && IsMin(Key, last.action.head, old(queue))
                && (last.action.Deliver? <==> IsDue(ToSleep(last.action.head.relativeTimestamp, start, replayStart)))
                && polled == (if last.action.Deliver? then [last.action.head] else [])
                && delivered == old(delivered) + Events(EventOf, polled)
                && notifications == old(notifications) + Broadcast(listeners, ReplayFailed, ReplayEvent(|polled|))
    {
      assert Events(EventOf, polled) == [];
      assert deliveredBeforeRun == delivered;
      ghost var notified := notifications;
      last := Step(start);
      if !stopRequested && last.Continue? {
        assert notifications == notified;
        last := Resume(start, last.action);
      }
      if !stopRequested {
        assert notifications == notified + Broadcast(listeners, ReplayEnded, ReplayEvent(replayCounter));
        RunComplete(Key, EventOf, loadedEvents, polled, replayCounter, deliveredBeforeRun, delivered);
        assert ReplayEvent(replayCounter) == ReplayEvent(|loadedEvents|);
      }
    }

    /**
     * The recursion of `replay` without a stop request, after a step at clock
     * reading `now` that performed `action`: it goes on, step after step,
     * until the queue is empty and the listeners have been told "ended".
     */
    method Resume(now: int, action: Action<Wrapper<E>>) returns (last: StepResult<Wrapper<E>>)
      requires Valid() && currentState == Replaying && !stopRequested
      requires action.Sleep? ==>
                 && IsMin(Key, action.head, queue)
                 && action.millis == ToSleep(action.head.relativeTimestamp, now, replayStart)
      modifies this`currentState, this`queue, this`replayCounter, this`delivered, this`notifications, this`polled
      ensures Valid()
      ensures last == Ended && currentState == Stopped
      ensures notifications == old(notifications) + Broadcast(listeners, ReplayEnded, ReplayEvent(replayCounter))
    {
      var clock := now;
      last := Continue(action);
      while last.Continue?
        invariant Valid()
        invariant last.Continue? || last.Ended?
        invariant last.Continue? ==> currentState == Replaying && notifications == old(notifications)
        invariant last.Ended? ==>
                    && currentState == Stopped
                    && notifications == old(notifications) + Broadcast(listeners, ReplayEnded, ReplayEvent(replayCounter))
        invariant last.Continue? && last.action.Sleep? ==>
                    && IsMin(Key, last.action.head, queue)
                    && last.action.millis == ToSleep(last.action.head.relativeTimestamp, clock, replayStart)
        decreases |queue|, if last.Continue? && last.action.Sleep? then 1 else if last.Continue? then 2 else 0
      {
        if last.action.Sleep? {
          clock := clock + last.action.millis;
        }
        ghost var qBefore := queue;
        ghost var prev := last;
        ghost var notified := notifications;
        last := Step(clock);
        if qBefore == {} {
          assert last == Ended && notifications == notified + Broadcast(listeners, ReplayEnded, ReplayEvent(replayCounter));
        } else {
          assert !stopRequested;
          assert last.Continue?;
          assert notifications == notified + [];
        }
        if prev.action.Sleep? {
          assert qBefore != {} && last.Continue?;
          SleptHeadIsDue(Key, prev.action.head, last.action.head, qBefore, clock - prev.action.millis, replayStart);
          assert last.action.Deliver? && |queue| < |qBefore|;
        }
      }
    }
  }
}
