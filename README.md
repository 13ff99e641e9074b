# geminio capture/replay engine, modelled in Dafny

geminio records timestamped events and plays them back later with the same
relative timing. The engine appears in three parallel Java packages. This
project models the parts that hold the logic.

- **Wrapper**: an immutable pair `(event, relativeTimestamp)`, ordered by timestamp.
  - The `capturereplay` version has value equality and a hash. It is the datatype `ValueWrapper.Wrapper`.
  - The `thesis` version has neither, so two wrappers are equal only when they are the same object. It is the class `IdentityWrapper.Wrapper`, with constant fields.
- **Capture**: the lifecycle CREATED → CAPTURING → STOPPED.
  - `capture` appends `(event, now - captureStart)`.
  - `saveEvents` hands the persister one document listing every entry in capture order.
  - `Capture.Capture` models the `capturereplay` class and `ThesisCapture.Capture` the `thesis` one.
- **Replay**: the lifecycle CREATED → LOADED → REPLAYING → STOPPED. In `geminio`, `reset` leads from STOPPED back to LOADED.
  - `load` puts one wrapper per document entry into a hash set.
  - `startReplay` seeds a priority queue with that set.
  - A worker thread runs the recursive `replay` step:
    - on an empty queue it stops and tells every listener "ended";
    - otherwise it delivers the earliest entry when `timestamp - elapsed < 200` ms, and sleeps the remaining time when it is not;
    - after each step, a stop request makes it tell the listeners "failed" and end.
  - `Replay.Replay` models the `geminio` class and `ThesisReplay.Replay` the `thesis` one.

How the model stands in for the rest of the system:
- **Time:** the clock is an explicit `now` argument, and sleeping `toSleep` ms advances it by exactly `toSleep`.
- **Worker thread:** the thread is the method `RunWorker`. Its first `Step` is followed by `Resume`, a `while` loop over `Step` that replaces the tail recursion.
- **Priority queue:** modelled as a set. `poll` removes some element of least timestamp. Among equal timestamps `java.util.PriorityQueue` leaves the choice unspecified, and so does the model.
- **Callbacks:** serializer and deserializer are function parameters. The event catcher is the log `delivered`, the listener calls are the log `notifications`, and the persister is the log `persisted`.
- **Documents:** an abstract sequence of `Entry(relativeTime, event)` (module `Documents`), not org.json text.
- **Exceptions:** each `IllegalStateException` is the `IllegalState` outcome.

Two behaviours of the code to keep in mind:
- **The stop flag is never cleared.** Its only assignment is the one in `stopReplay` (geminio `Replay.java:195`, thesis `Replay.java:162`). So a stop request also makes every later `geminio` run fail after its first step, unless the queue was empty: `startReplay` and `reset` leave the flag set, and `RunWorker` states this case.
- **A failed run stays REPLAYING.** It never reaches STOPPED, so `hasEnded` stays false and `reset` is refused.

Module layout:

| module | what it holds |
|---|---|
| `Documents` | the document shape, the JSON key constants and `Outcome` |
| `Scheduling` | the delivery rule and the theory of successive polls |
| `Listeners` | the notification and listener-list rules |
| `Scenarios` | the replay tests' fixtures and what the model says about them |
| `Sessions` | the replay tests' sessions, run call after call on the replay classes |
| the rest | one per Java class modelled |

## Model

| member | source | states |
|---|---|---|
| ValueWrapper.CompareTo | src/main/java/com/stijndepestel/capturereplay/Wrapper.java:113-117 | the result is -1, 0 or 1 and its sign is exactly the sign of the timestamp comparison |
| ValueWrapper.CompareToIgnoresEvents | src/main/java/com/stijndepestel/capturereplay/Wrapper.java:113-117 | replacing the events changes no comparison; equal timestamps compare as 0 whatever the events |
| ValueWrapper.CompareToIsTotalPreorder | src/main/java/com/stijndepestel/capturereplay/Wrapper.java:113-117 | `compareTo` is antisymmetric, transitive and total, as `Comparable` requires |
| ValueWrapper.EqualsCases | src/main/java/com/stijndepestel/capturereplay/Wrapper.java:119-127 | `equals` is false for null and for another class, and for a wrapper holds exactly when the timestamps and the events are equal |
| ValueWrapper.EqualsIsValueEquality | src/main/java/com/stijndepestel/capturereplay/Wrapper.java:119-127 | with structural event equality, `equals` holds exactly when the two wrappers are the same value; a hash set of wrappers therefore treats value-equal wrappers as one, provided the event's `hashCode` also agrees with its `equals` (the hypothesis of `HashConsistentWithEquals`) |
| ValueWrapper.Int32 | src/main/java/com/stijndepestel/capturereplay/Wrapper.java:129-132 | the `(int)` cast and 32-bit arithmetic give a Java int congruent to its argument modulo 2^32 |
| ValueWrapper.HashCode | src/main/java/com/stijndepestel/capturereplay/Wrapper.java:129-132 | the hash is a Java int congruent modulo 2^32 to `13 * ts + 17 * eventHash` |
| ValueWrapper.HashConsistentWithEquals | src/main/java/com/stijndepestel/capturereplay/Wrapper.java:119-132 | wrappers that are `equals` have equal hash codes, when the event hash agrees with event equality |
| ValueWrapper.ToJsonFromJson | src/main/java/com/stijndepestel/capturereplay/Wrapper.java:71-92 | `toJSON` yields `(relative_time = ts, event = serializer(event))`; reading it back keeps the timestamp and yields `deserializer(serializer(event))`; when that is the event, the copy is the original and `equals` it |
| ValueWrapper.FromJsonToJson | src/main/java/com/stijndepestel/capturereplay/Wrapper.java:71-92 | an entry read into a wrapper and written back keeps its time and holds `serializer(deserializer(j))`; it is the same entry when that is `j` |
| IdentityWrapper.Wrapper.constructor | src/main/java/com/stijndepestel/thesis/capturereplay/Wrapper.java:31-34 | the getters return exactly the constructor's arguments; the fields are constants |
| IdentityWrapper.Wrapper.CompareTo | src/main/java/com/stijndepestel/thesis/capturereplay/Wrapper.java:85-89 | the result is -1, 0 or 1 with exactly the sign of the timestamp comparison |
| IdentityWrapper.FromJson | src/main/java/com/stijndepestel/thesis/capturereplay/Wrapper.java:45-50 | the JSON constructor allocates a new wrapper holding the entry's time and the deserialized event |
| IdentityWrapper.RoundTrip | src/main/java/com/stijndepestel/thesis/capturereplay/Wrapper.java:45-64 | a wrapper written to its entry and read back keeps its timestamp, holds `deserializer(serializer(event))`, and is a different object from the original |
| IdentityWrapper.DistinctByIdentity | src/main/java/com/stijndepestel/thesis/capturereplay/Wrapper.java:13-90 | two wrappers built from identical contents are two distinct members of a set, because no `equals` is overridden |
| Capture.Capture.constructor | src/main/java/com/stijndepestel/capturereplay/Capture.java:83-89 | a new capture is CREATED, holds no events and has persisted nothing |
| Capture.Capture.StartCapture | src/main/java/com/stijndepestel/capturereplay/Capture.java:95-101 | succeeds exactly in CREATED, moving to CAPTURING with the start time recorded; a refused call changes nothing; the event list is never touched |
| Capture.Capture.StopCapture | src/main/java/com/stijndepestel/capturereplay/Capture.java:109-114 | succeeds exactly in CAPTURING, moving to STOPPED; a refused call changes nothing |
| Capture.Capture.Capture | src/main/java/com/stijndepestel/capturereplay/Capture.java:125-132 | succeeds exactly in CAPTURING and then appends exactly one entry `(event, now - captureStart)` at the end; a refused call changes nothing |
| Capture.Capture.SaveEvents | src/main/java/com/stijndepestel/capturereplay/Capture.java:138-143 | succeeds exactly in STOPPED and hands the persister the document of all captured events; state and event list never change, so repeated saves emit the same document |
| Capture.Capture.GetNumberOfCapturedEvents | src/main/java/com/stijndepestel/capturereplay/Capture.java:150-152 | the count equals the length of the event list, in any state |
| Capture.Capture.EventsToJson | src/main/java/com/stijndepestel/capturereplay/Capture.java:161-166 | the document has one entry per captured event and the `i`-th entry is the `i`-th event's time and serialized event |
| ThesisCapture.Capture.constructor | src/main/java/com/stijndepestel/thesis/capturereplay/Capture.java:60-66 | a new capture is CREATED, holds no events and has persisted nothing |
| ThesisCapture.Capture.StartCapture | src/main/java/com/stijndepestel/thesis/capturereplay/Capture.java:72-78 | succeeds exactly in CREATED, moving to CAPTURING with the start time recorded; a refused call changes nothing |
| ThesisCapture.Capture.StopCapture | src/main/java/com/stijndepestel/thesis/capturereplay/Capture.java:86-91 | succeeds exactly in CAPTURING, moving to STOPPED; before start it is refused and changes nothing |
| ThesisCapture.Capture.Capture | src/main/java/com/stijndepestel/thesis/capturereplay/Capture.java:102-109 | refused before start and after stop; in CAPTURING it appends exactly `(event, now - captureStart)` |
| ThesisCapture.Capture.SaveEvents | src/main/java/com/stijndepestel/thesis/capturereplay/Capture.java:115-120 | refused in CREATED and CAPTURING; in STOPPED it hands the persister the document of all captured events in capture order |
| ThesisCapture.Capture.GetNumberOfCapturedEvents | src/main/java/com/stijndepestel/thesis/capturereplay/Capture.java:127-129 | the count equals the length of the event list, in any state |
| ThesisCapture.Capture.EventsToJson | src/main/java/com/stijndepestel/thesis/capturereplay/Capture.java:138-143 | one entry per captured event, in capture order, each the event's time and serialized event |
| Scheduling.DeliveryWindow | src/main/java/com/stijndepestel/geminio/Replay.java:235-250 | an entry is due exactly when at least `ts - 199` ms have elapsed, so it is never delivered more than 199 ms early, and an overdue entry is always due |
| Scheduling.MinExists | src/main/java/com/stijndepestel/geminio/Replay.java:235-236 | a non-empty queue has a head of least timestamp |
| Scheduling.PollSequenceSorted | src/main/java/com/stijndepestel/geminio/Replay.java:239-243 | successive polls come out in non-decreasing timestamp order, never the same wrapper twice, and only from the seeded set |
| Scheduling.CompletePollSequence | src/main/java/com/stijndepestel/geminio/Replay.java:229-243 | polling until the queue is empty yields every seeded wrapper exactly once, in timestamp order |
| Scheduling.SortedArrangementUnique | src/main/java/com/stijndepestel/thesis/capturereplay/Replay.java:139 | when timestamps strictly increase, the only repetition-free timestamp-ordered arrangement of the entries is their own order |
| Scheduling.PollKeepsRun | src/main/java/com/stijndepestel/geminio/Replay.java:239-243 | polling the head, handing its event to the catcher and counting it keeps the run invariant: queue = loaded minus polled, counter = number polled, catcher log = their events |
| Scheduling.SleptHeadIsDue | src/main/java/com/stijndepestel/geminio/Replay.java:244-256 | after sleeping the time the head asked for, the next step finds the head due with nothing left to wait |
| Scheduling.RunComplete | src/main/java/com/stijndepestel/geminio/Replay.java:229-234 | a run that has emptied its queue polled every loaded wrapper once, in timestamp order, counted all of them, and delivered their events in that order |
| Listeners.BroadcastAt | src/main/java/com/stijndepestel/geminio/Replay.java:284-296 | a notification makes one call per registered listener, the `i`-th call going to the `i`-th listener, all with the same event |
| Listeners.BroadcastReaches | src/main/java/com/stijndepestel/geminio/Replay.java:284-296 | a listener is called exactly when it is registered |
| Listeners.RemoveFirst | src/main/java/com/stijndepestel/geminio/Replay.java:276-278 | removing an unregistered listener leaves the list unchanged |
| Listeners.RemoveFirstAt | src/main/java/com/stijndepestel/geminio/Replay.java:276-278 | removal deletes the first occurrence and keeps the order of the others |
| Listeners.RemoveFirstCount | src/main/java/com/stijndepestel/geminio/Replay.java:276-278 | removal takes away exactly one occurrence when there is one, and nothing else |
| Listeners.AddThenRemove | src/main/java/com/stijndepestel/geminio/Replay.java:266-278 | adding a new listener and then removing it restores the list |
| Listeners.RemovedListenerNotNotified | src/main/java/com/stijndepestel/geminio/Replay.java:266-296 | a listener registered once gets no notification after its removal |
| Replay.LoadedSetMembers | src/main/java/com/stijndepestel/geminio/Replay.java:151-162 | the loaded set holds the wrapper of every entry and nothing else, so it has at most one element per entry |
| Replay.DuplicatesCollapse | src/main/java/com/stijndepestel/geminio/Replay.java:151-162 | two identical entries load as a single wrapper |
| Replay.LoadedSetSize | src/main/java/com/stijndepestel/geminio/Replay.java:151-162 | when no two entries read back as equal wrappers, the set has one wrapper per entry |
| Replay.CaptureThenLoad | src/main/java/com/stijndepestel/geminio/Replay.java:151-162 | loading what a capture saved gives back exactly the captured wrappers, when deserializing undoes serializing |
| Replay.Replay.constructor | src/main/java/com/stijndepestel/geminio/Replay.java:126-134 | a new replay is CREATED, with nothing loaded, no listener, no stop request and empty logs |
| Replay.Replay.Load | src/main/java/com/stijndepestel/geminio/Replay.java:151-162 | succeeds exactly in CREATED, moving to LOADED with the set of the document's wrappers; a refused call changes nothing |
| Replay.Replay.StartReplay | src/main/java/com/stijndepestel/geminio/Replay.java:168-178 | succeeds exactly in LOADED: REPLAYING, queue = loaded set, counter 0, start time taken; the loaded set and the stop flag are untouched; a refused call changes nothing |
| Replay.Replay.StopReplay | src/main/java/com/stijndepestel/geminio/Replay.java:187-197 | answers false in STOPPED, is refused in CREATED and LOADED, and otherwise raises the flag and answers true; only this call sets the flag and none clears it |
| Replay.Replay.HasEnded | src/main/java/com/stijndepestel/geminio/Replay.java:205-207 | true exactly in STOPPED |
| Replay.Replay.Reset | src/main/java/com/stijndepestel/geminio/Replay.java:214-220 | succeeds exactly in STOPPED, moving to LOADED with the loaded set kept; refused otherwise, the state unchanged |
| Replay.Replay.AddReplayListener | src/main/java/com/stijndepestel/geminio/Replay.java:266-268 | appends the listener at the end of the registration order |
| Replay.Replay.RemoveReplayListener | src/main/java/com/stijndepestel/geminio/Replay.java:276-278 | deletes the first registration of the listener, if any |
| Replay.Replay.Notify | src/main/java/com/stijndepestel/geminio/Replay.java:284-296 | `throwEnded` and `throwFailed`: every listener is called once, in registration order, with the current counter |
| Replay.Replay.Advance | src/main/java/com/stijndepestel/geminio/Replay.java:235-250 | the head is a least-timestamp entry; it is delivered exactly when due, which removes it, appends its event to the catcher log and adds 1 to the counter; otherwise the sleep time is `ts - elapsed` and queue, counter and log are unchanged |
| Replay.Replay.Step | src/main/java/com/stijndepestel/geminio/Replay.java:225-258 | refused outside REPLAYING; an empty queue sets STOPPED and then notifies "ended" with the counter; otherwise it advances and then fails with a "failed" notice exactly when a stop was requested, staying REPLAYING |
| Replay.Replay.RunWorker | src/main/java/com/stijndepestel/geminio/Replay.java:225-258 | without a stop request, the run ends STOPPED having delivered every loaded wrapper exactly once in timestamp order and told each listener "ended" with their number; with one, it does one step and then the listeners are told "failed" with 0 or 1, and the state stays REPLAYING (unless the queue was empty) |
| Replay.Replay.Resume | src/main/java/com/stijndepestel/geminio/Replay.java:252-256 | without a stop request the recursion continues until the queue is empty, ending STOPPED with one "ended" notice |
| ThesisReplay.Replay.constructor | src/main/java/com/stijndepestel/thesis/capturereplay/Replay.java:103-111 | a new replay is CREATED, with nothing loaded, no listener, no stop request and empty logs |
| ThesisReplay.Replay.Load | src/main/java/com/stijndepestel/thesis/capturereplay/Replay.java:118-129 | succeeds exactly in CREATED; allocates one new wrapper per entry with that entry's time and event, pairwise distinct, so the set has exactly one element per entry; a second load is refused and changes nothing |
| ThesisReplay.Replay.StartReplay | src/main/java/com/stijndepestel/thesis/capturereplay/Replay.java:135-145 | succeeds exactly in LOADED (refused in CREATED): REPLAYING, queue = loaded set, counter 0, start time taken |
| ThesisReplay.Replay.StopReplay | src/main/java/com/stijndepestel/thesis/capturereplay/Replay.java:154-164 | refused in CREATED and LOADED, false in STOPPED, otherwise raises the flag and answers true |
| ThesisReplay.Replay.AddReplayListener | src/main/java/com/stijndepestel/thesis/capturereplay/Replay.java:209-211 | appends the listener at the end of the registration order |
| ThesisReplay.Replay.RemoveReplayListener | src/main/java/com/stijndepestel/thesis/capturereplay/Replay.java:219-221 | deletes the first registration of the listener, if any |
| ThesisReplay.Replay.Notify | src/main/java/com/stijndepestel/thesis/capturereplay/Replay.java:227-239 | every listener is called once, in registration order, with the current counter |
| ThesisReplay.Replay.Advance | src/main/java/com/stijndepestel/thesis/capturereplay/Replay.java:179-193 | the least-timestamp head is delivered exactly when due (removed, event logged, counter + 1); otherwise the worker sleeps `ts - elapsed` and the queue is unchanged |
| ThesisReplay.Replay.Step | src/main/java/com/stijndepestel/thesis/capturereplay/Replay.java:169-201 | refused outside REPLAYING; an empty queue sets STOPPED and then notifies "ended"; otherwise it advances and then fails with a "failed" notice exactly when a stop was requested, staying REPLAYING |
| ThesisReplay.Replay.RunWorker | src/main/java/com/stijndepestel/thesis/capturereplay/Replay.java:169-201 | without a stop request every loaded wrapper is delivered exactly once in timestamp order and "ended" carries their number; after a stop request, unless the queue was already empty, one more step runs and "failed" is sent once with 0 or 1, the state staying REPLAYING |
| ThesisReplay.Replay.Resume | src/main/java/com/stijndepestel/thesis/capturereplay/Replay.java:195-199 | without a stop request the recursion continues until the queue is empty, ending STOPPED with one "ended" notice |
| Scenarios.SerializeRoundTrip | src/test/java/com/stijndepestel/thesis/capturereplay/TestHelper.java:23-39 | the test helper's serializer and deserializer undo each other, in both directions |
| Scenarios.FiveEntryDocumentLoads | src/test/java/com/stijndepestel/thesis/capturereplay/ReplayTest.java:45-52 | the 5-entry test document is what a capture of the fake events saves, and loading it gives back all five wrappers |
| Scenarios.FiveWrappersInOrder | src/test/java/com/stijndepestel/thesis/capturereplay/ReplayTest.java:30-32 | any repetition-free timestamp-ordered arrangement of the five wrappers is the document order, whose events are the fake events |
| Scenarios.FiveEntryReplay | src/test/java/com/stijndepestel/thesis/capturereplay/ReplayTest.java:75-92 | the polled sequence of a complete `geminio` replay of the 5-entry document is the five wrappers in document order, so the catcher gets the fake events in order and "ended" carries 5 |
| Scenarios.ThesisFiveEntryReplay | src/test/java/com/stijndepestel/thesis/capturereplay/ReplayTest.java:75-92 | the polled sequence of a complete thesis replay of the 5-entry document is the loaded wrappers in document order, so the catcher gets the five fake events in order |
| Scenarios.ThesisFailedReplayHead | src/test/java/com/stijndepestel/thesis/capturereplay/ReplayTest.java:97-112 | a replay stopped right after starting has as its one step the entry at 0 ms, which is due, so exactly one event is replayed before "failed" |
| Scenarios.FarFutureHeadSleeps | src/main/java/com/stijndepestel/geminio/Replay.java:235-256 | for the one-entry document whose entry is 5 s away, the least head of the loaded set is that entry, and at the start instant it is not due, so the first step sleeps instead of delivering |
| Scenarios.DuplicateEntryLoadsOnce | src/main/java/com/stijndepestel/geminio/Replay.java:151-162 | a document listing the same entry twice loads a single wrapper in `geminio`, for an event type whose hash agrees with its equality |
| Sessions.RunToEnd | src/main/java/com/stijndepestel/geminio/Replay.java:225-258 | a `geminio` worker started at the start instant with no stop request polls exactly the loaded set, in timestamp order without repetition, delivers those events and tells the listeners "ended" with their number; loaded set and listeners are untouched |
| Sessions.ThesisRunToEnd | src/main/java/com/stijndepestel/thesis/capturereplay/Replay.java:169-201 | the same for the thesis worker |
| Sessions.ThesisRunStopped | src/main/java/com/stijndepestel/thesis/capturereplay/Replay.java:169-201 | a thesis worker started after a stop request on a non-empty queue takes one head of the queue, delivers it when it is due, and tells the listeners "failed" with the number delivered |
| Sessions.EventsReplayed | src/test/java/com/stijndepestel/thesis/capturereplay/ReplayTest.java:75-92 | construct, add a listener, load the 5-entry document, start and run the `geminio` replay: the catcher gets exactly the fake events in order and the listener exactly one "ended" notice with 5 |
| Sessions.ThesisEventsReplayed | src/test/java/com/stijndepestel/thesis/capturereplay/ReplayTest.java:75-92 | the same session on the thesis replay, with the same delivery and the same single notice |
| Sessions.ThesisEventsReplayedFailed | src/test/java/com/stijndepestel/thesis/capturereplay/ReplayTest.java:97-112 | stopping the thesis replay right after the start answers true; the catcher gets only the 0 ms event and the listener exactly one "failed" notice, with 1 |
| Sessions.StopAndResetAfterEnd | src/test/java/com/stijndepestel/thesis/capturereplay/ReplayTest.java:138-194 | for any document, once a `geminio` run has ended `stopReplay` answers false, `hasEnded` is true and `reset` succeeds |
| Sessions.ThesisRemovedListenerNotFired | src/test/java/com/stijndepestel/thesis/capturereplay/ReplayTest.java:224-242 | for any document, a listener added and removed before the run receives no notification at all |
| Sessions.ThesisIllegalStates | src/test/java/com/stijndepestel/thesis/capturereplay/ReplayTest.java:118-173 | starting before `load`, a second `load`, and stopping in CREATED or LOADED are all refused |
| Sessions.FarFutureStopped | src/main/java/com/stijndepestel/geminio/Replay.java:225-258 | a `geminio` replay of the 5 s document stopped right after its start answers true, delivers nothing, and tells the listener "failed" exactly once, with 0 |
| Sessions.ResetIllegalStates | src/test/java/com/stijndepestel/thesis/capturereplay/ReplayTest.java:199-219 | `reset` is refused in CREATED, in LOADED and while REPLAYING |

## Left out

- Threads: the worker runs sequentially, and the race on the non-volatile `stopRequested` between the caller's thread and the worker is not modelled. A stop request is therefore either present before the worker starts or absent for the whole run.
- Real time: `System.currentTimeMillis` is the `now` argument. `Thread.sleep` advances the clock by exactly the time asked for, and an interrupted sleep is not modelled. Clock monotonicity is not assumed by the single-step contracts.
- org.json: documents are abstract entry sequences. A capture with zero events never creates the `events` key, so a later `load` fails inside org.json; that failure belongs to the library and is not modelled.
- Persisters and file I/O (`Persister`, `FilePersister`): the persister is the log `persisted`.
- `SerialPortCapture`, the sleep benchmarks and the integration tests with 100 one-second events: serial-port and console I/O, floating-point statistics and wall-clock jitter.
- `setEventCatcher` (geminio `Replay.java:142-144`): the model has a single catcher, the log `delivered`.
- Integer widths: timestamps are Java `long` and the counter an `int`; the model uses unbounded integers except in `hashCode`, where the 32-bit arithmetic is written out.
- Listener re-entrancy: listeners are values, and a listener calling back into the replay during a notification is modelled as a later call on the same object. `Step` sets STOPPED before notifying "ended", so such a later call sees STOPPED.
- Replay.Replay.RunWorker: requires that nothing was polled yet in the run, which holds when the worker starts right after `startReplay`; it does not describe a worker started in any other way.
- ThesisReplay.Replay.RunWorker: the same requirement as the `geminio` worker.
- The thesis `ReplayTest` calls `reset`, which the thesis `Replay` does not have. Those tests belong to the `geminio` class and are stated against `Replay.Replay.Reset` (`Sessions.StopAndResetAfterEnd`, `Sessions.ResetIllegalStates`).
- The `geminio` `Wrapper` class is not part of this model; its set semantics are taken from the value-equality `capturereplay` wrapper.
- Replay.LoadedSet: the `geminio` hash set is modelled as a set under value equality of wrappers. That is Java's `HashSet` only when the event's `hashCode` agrees with its `equals`, because the wrapper's hash includes the event's hash. The test event classes shown (`src/test/java/com/stijndepestel/capturereplay/TestEvent.java:81`, `src/test/java/com/stijndepestel/thesis/capturereplay/TestEvent.java:58`) override `equals` but not `hashCode`; with such an event, equal entries would most likely stay two wrappers in Java, and the model does not describe that case.
- Scenarios.DuplicateEntryLoadsOnce: its event is the datatype `TestEvent`, whose equality and hash are structural and agree. It therefore shows the collapse for an event type that keeps Java's equals/hashCode contract, not for the Java test event class, which does not override `hashCode`.
- Throwing callbacks: the serializer, deserializer, event catcher and listeners are total functions or logs, so a callback that throws is not modelled. For example, a deserializer that throws part-way through the geminio `load` (`src/main/java/com/stijndepestel/geminio/Replay.java:158-160`) would leave a partly filled set with the state still CREATED.
