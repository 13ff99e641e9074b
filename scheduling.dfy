/**
 * The scheduling rule shared by both replay implementations, and the theory of
 * the priority queue they poll.
 *
 * The queue is a `java.util.PriorityQueue` ordered by timestamp. Its contents
 * are modelled as a set; `poll` removes some element of least timestamp (which
 * one, among equal timestamps, the Java queue leaves unspecified). A run of
 * polls is described by `IsPollSequence`: every element taken was a minimum of
 * what was left.
 */
module Scheduling {

  /** The delivery threshold (ms): an entry due in less than this is delivered now. */
  const Threshold: int := 200

  /** How long to sleep before an entry with this timestamp is due, at clock reading `now`. */
  function ToSleep(timestamp: int, now: int, replayStart: int): int
  {
    timestamp - (now - replayStart)
  }

  /** Delivery rule: deliver when the remaining time is below the threshold, otherwise sleep. */
  predicate IsDue(toSleep: int)
  {
    toSleep < Threshold
  }

  /** An entry is never delivered more than 199 ms before its timestamp; an overdue entry is always delivered. */
  lemma DeliveryWindow(timestamp: int, now: int, replayStart: int)
    ensures IsDue(ToSleep(timestamp, now, replayStart)) <==> now - replayStart >= timestamp - (Threshold - 1)
    ensures now - replayStart >= timestamp ==> IsDue(ToSleep(timestamp, now, replayStart))
  {
  }

  /** One step of the replay worker. */
  datatype Action<W> =
    | Deliver(head: W)            // the head was polled and handed to the event catcher
    | Sleep(head: W, millis: int) // the head was not due: the worker slept `millis` ms

  /** What one invocation of the recursive `replay()` did, and how it continues. */
  datatype StepResult<W> =
    | NotReplaying                // IllegalStateException: the replay is not in REPLAYING
    | Ended                       // the queue was empty: STOPPED, listeners told "ended"
    | Continue(action: Action<W>) // no stop request: the worker recurses
    | Failed(action: Action<W>)   // a stop was requested: listeners told "failed", the worker ends

  /** The elements of a sequence. */
  function Elems<T>(s: seq<T>): set<T>
  {
    set x | x in s
  }

  /** `x` is an element of least key in `q`: what `peek` and `poll` return. */
  predicate IsMin<T>(key: T -> int, x: T, q: set<T>)
  {
    x in q && forall y :: y in q ==> key(x) <= key(y)
  }

  /** A non-empty queue has a head. */
  lemma {:induction false} MinExists<T>(key: T -> int, q: set<T>)
    requires q != {}
    ensures exists x :: IsMin(key, x, q)
    decreases |q|
  {
    var a :| a in q;
    if q == {a} {
      assert IsMin(key, a, q);
    } else {
      var rest := q - {a};
      MinExists(key, rest);
      var m :| IsMin(key, m, rest);
      if key(a) <= key(m) {
        assert IsMin(key, a, q);
      } else {
        assert IsMin(key, m, q);
      }
    }
  }

  /** Any two heads of the same queue have the same key. */
  lemma MinKeyUnique<T>(key: T -> int, x: T, y: T, q: set<T>)
    requires IsMin(key, x, q) && IsMin(key, y, q)
    ensures key(x) == key(y)
  {
  }

  /** The `i`-th poll took a head of what the earlier polls had left of `q`. */
  ghost predicate PolledHead<T>(key: T -> int, q: set<T>, s: seq<T>, i: nat)
    requires i < |s|
  {
    IsMin(key, s[i], q - Elems(s[..i]))
  }

  /** `s` is what successive polls of a queue seeded with `q` return. */
  ghost predicate IsPollSequence<T>(key: T -> int, q: set<T>, s: seq<T>)
  {
    forall i: nat :: i < |s| ==> PolledHead(key, q, s, i)
  }

  ghost predicate SortedBy<T>(key: T -> int, s: seq<T>)
  {
    forall i, j :: 0 <= i < j < |s| ==> key(s[i]) <= key(s[j])
  }

  ghost predicate Distinct<T>(s: seq<T>)
  {
    forall i, j :: 0 <= i < j < |s| ==> s[i] != s[j]
  }

  /** Polling the head of what is left extends a poll sequence by that head. */
  lemma PollSequenceExtends<T>(key: T -> int, q: set<T>, s: seq<T>, x: T)
    requires IsPollSequence(key, q, s)
    requires IsMin(key, x, q - Elems(s))
    ensures IsPollSequence(key, q, s + [x])
  {
    forall i: nat | i < |s| + 1
      ensures PolledHead(key, q, s + [x], i)
    {
      if i < |s| {
        assert PolledHead(key, q, s, i);
        assert (s + [x])[..i] == s[..i];
      } else {
        assert (s + [x])[..i] == s;
      }
    }
  }

  /** Successive polls come out in non-decreasing key order, never twice the same, and only from the queue. */
  lemma PollSequenceSorted<T>(key: T -> int, q: set<T>, s: seq<T>)
    requires IsPollSequence(key, q, s)
    ensures SortedBy(key, s) && Distinct(s) && Elems(s) <= q
  {
    forall i, j | 0 <= i < j < |s|
      ensures key(s[i]) <= key(s[j]) && s[i] != s[j]
    {
      assert PolledHead(key, q, s, i) && PolledHead(key, q, s, j);
      assert s[i] in s[..j];
      assert Elems(s[..i]) <= Elems(s[..j]) by {
        assert s[..i] == s[..j][..i];
      }
    }
    forall x | x in Elems(s) ensures x in q {
      var k :| 0 <= k < |s| && s[k] == x;
      assert PolledHead(key, q, s, k);
    }
  }

  /** A sequence without repetitions has as many elements as entries. */
  lemma {:induction false} DistinctCount<T>(s: seq<T>)
    requires Distinct(s)
    ensures |Elems(s)| == |s|
  {
    if s != [] {
      var init := s[..|s| - 1];
      assert Distinct(init);
      DistinctCount(init);
      assert Elems(s) == Elems(init) + {s[|s| - 1]} by {
        assert s == init + [s[|s| - 1]];
      }
      assert s[|s| - 1] !in Elems(init);
    }
  }

  /**
   * Polling a queue until it is empty yields every element of the seed exactly
   * once, in non-decreasing key order.
   */
  lemma CompletePollSequence<T>(key: T -> int, q: set<T>, s: seq<T>)
    requires IsPollSequence(key, q, s)
    requires q - Elems(s) == {}
    ensures Elems(s) == q && |s| == |q|
    ensures SortedBy(key, s) && Distinct(s)
  {
    PollSequenceSorted(key, q, s);
    DistinctCount(s);
    assert q <= Elems(s) by {
      forall x | x in q ensures x in Elems(s) {
        assert x !in q - Elems(s);
      }
    }
  }

  /** Dropping the first element of a list without repetitions drops exactly that element. */
  lemma TailElems<T>(s: seq<T>)
    requires s != [] && Distinct(s)
    ensures Elems(s[1..]) == Elems(s) - {s[0]}
  {
    assert s == [s[0]] + s[1..];
    assert forall i :: 0 <= i < |s[1..]| ==> s[1..][i] != s[0] by {
      forall i | 0 <= i < |s[1..]| ensures s[1..][i] != s[0] {
        assert s[1..][i] == s[i + 1];
      }
    }
  }

  /**
   * When the keys of `order` strictly increase, it is the only arrangement of
   * its elements without repetitions in non-decreasing key order: a complete
   * replay of such entries takes them in exactly this order.
   */
  lemma {:induction false} SortedArrangementUnique<T>(key: T -> int, s: seq<T>, order: seq<T>)
    requires forall a, b :: 0 <= a < b < |order| ==> key(order[a]) < key(order[b])
    requires SortedBy(key, s) && Distinct(s) && Elems(s) == Elems(order)
    ensures s == order
  {
    assert Distinct(order);
    if s == [] {
      DistinctCount(order);
      assert Elems(s) == {};
    } else {
      assert s[0] in Elems(order);
      assert order[0] in Elems(s);
      var k :| 0 <= k < |order| && order[k] == s[0];
      var m :| 0 <= m < |s| && s[m] == order[0];
      assert key(order[k]) <= key(order[0]) by {
        assert key(s[0]) <= key(s[m]);
      }
      assert k == 0;
      TailElems(s);
      TailElems(order);
      assert SortedBy(key, s[1..]) && Distinct(s[1..]);
      SortedArrangementUnique(key, s[1..], order[1..]);
      assert s == [s[0]] + s[1..] && order == [order[0]] + order[1..];
    }
  }

  /** The events of successive entries, in order: what the event catcher receives when they are delivered. */
  function Events<T, E>(event: T -> E, ws: seq<T>): seq<E>
  {
    if ws == [] then [] else Events(event, ws[..|ws| - 1]) + [event(ws[|ws| - 1])]
  }

  /** Delivering one more entry appends its event. */
  lemma EventsAppend<T, E>(event: T -> E, ws: seq<T>, w: T)
    ensures Events(event, ws + [w]) == Events(event, ws) + [event(w)]
  {
    assert (ws + [w])[..|ws|] == ws;
  }

  /** One event per entry, the `i`-th event being that of the `i`-th entry. */
  lemma {:induction false} EventsAt<T, E>(event: T -> E, ws: seq<T>)
    ensures |Events(event, ws)| == |ws|
    ensures forall i :: 0 <= i < |ws| ==> Events(event, ws)[i] == event(ws[i])
  {
    if ws != [] {
      EventsAt(event, ws[..|ws| - 1]);
    }
  }

  /**
   * The state of a replay run that has started: the entries `polled` so far
   * are successive minima of the `loaded` set, the queue holds exactly the
   * rest, the counter counts the polls, and the event catcher received their
   * events, in polling order, after the `before` it had when the run started.
   */
  ghost predicate RunState<T, E>(key: T -> int, event: T -> E, loaded: set<T>, polled: seq<T>, queue: set<T>,
                                 counter: int, before: seq<E>, delivered: seq<E>)
  {
    && IsPollSequence(key, loaded, polled)
    && queue == loaded - Elems(polled)
    && counter == |polled|
    && delivered == before + Events(event, polled)
  }

  /** Polling the head, handing its event to the catcher and counting it keeps the run state. */
  lemma PollKeepsRun<T, E>(key: T -> int, event: T -> E, loaded: set<T>, polled: seq<T>, queue: set<T>,
                           counter: int, before: seq<E>, delivered: seq<E>, head: T)
    requires RunState(key, event, loaded, polled, queue, counter, before, delivered)
    requires IsMin(key, head, queue)
    ensures RunState(key, event, loaded, polled + [head], queue - {head}, counter + 1, before, delivered + [event(head)])
  {
    PollSequenceExtends(key, loaded, polled, head);
    assert Elems(polled + [head]) == Elems(polled) + {head};
    EventsAppend(event, polled, head);
  }

  /** After sleeping the time the head asked for, a head of the same queue is due. */
  lemma SleptHeadIsDue<T>(key: T -> int, slept: T, head: T, queue: set<T>, now: int, replayStart: int)
    requires IsMin(key, slept, queue) && IsMin(key, head, queue)
    ensures ToSleep(key(head), now + ToSleep(key(slept), now, replayStart), replayStart) == 0
    ensures IsDue(0)
  {
    MinKeyUnique(key, slept, head, queue);
  }

  /**
   * A run whose queue is empty has polled every loaded entry exactly once, in
   * non-decreasing key order, counted them all, and delivered their events in
   * that order.
   */
  lemma RunComplete<T, E>(key: T -> int, event: T -> E, loaded: set<T>, polled: seq<T>,
                          counter: int, before: seq<E>, delivered: seq<E>)
    requires RunState(key, event, loaded, polled, {}, counter, before, delivered)
    ensures Elems(polled) == loaded && |polled| == |loaded| && counter == |loaded|
    ensures SortedBy(key, polled) && Distinct(polled)
    ensures delivered == before + Events(event, polled)
  {
    CompletePollSequence(key, loaded, polled);
  }
}
