/**
 * The listener protocol of both replay implementations. A listener is an
 * opaque value of type L compared by its own equality (`List.remove` uses
 * `equals`, which for a listener object is identity). What the listener does
 * when called is outside the model; each call is recorded as a `Notice`.
 */
module Listeners {

  /** `ReplayEvent`: the number of events delivered before the notification. */
  datatype ReplayEvent = ReplayEvent(totalEventsReplayed: int)

  /** Which listener method is called: `replayEnded` or `replayFailed`. */
  datatype Kind = ReplayEnded | ReplayFailed

  /** One listener call. */
  datatype Notice<L> = Notice(listener: L, kind: Kind, event: ReplayEvent)

  /**
   * `listeners.forEach(l -> l.replayEnded(event))` (or `replayFailed`): one call
   * per registered listener, in registration order, all with the same event.
   */
  function Broadcast<L>(listeners: seq<L>, kind: Kind, event: ReplayEvent): seq<Notice<L>>
  {
    if listeners == [] then []
    else Broadcast(listeners[..|listeners| - 1], kind, event) + [Notice(listeners[|listeners| - 1], kind, event)]
  }

  /** The `i`-th call goes to the `i`-th registered listener, and there is one call per listener. */
  lemma {:induction false} BroadcastAt<L>(listeners: seq<L>, kind: Kind, event: ReplayEvent)
    ensures |Broadcast(listeners, kind, event)| == |listeners|
    ensures forall i :: 0 <= i < |listeners| ==> Broadcast(listeners, kind, event)[i] == Notice(listeners[i], kind, event)
  {
    if listeners != [] {
      BroadcastAt(listeners[..|listeners| - 1], kind, event);
    }
  }

  /** A single registered listener gets a single call. */
  lemma BroadcastOne<L>(l: L, kind: Kind, event: ReplayEvent)
    ensures Broadcast([l], kind, event) == [Notice(l, kind, event)]
  {
    assert [l][..0] == [];
  }

  /** Notifying one more listener appends one call at the end. */
  lemma BroadcastAppend<L>(listeners: seq<L>, l: L, kind: Kind, event: ReplayEvent)
    ensures Broadcast(listeners + [l], kind, event) == Broadcast(listeners, kind, event) + [Notice(l, kind, event)]
  {
    assert (listeners + [l])[..|listeners|] == listeners;
  }

  /** A listener receives a notification exactly when it is registered. */
  lemma BroadcastReaches<L>(listeners: seq<L>, kind: Kind, event: ReplayEvent, l: L)
    ensures Notice(l, kind, event) in Broadcast(listeners, kind, event) <==> l in listeners
    ensures forall n :: n in Broadcast(listeners, kind, event) ==> n.listener in listeners
  {
    var r := Broadcast(listeners, kind, event);
    BroadcastAt(listeners, kind, event);
    if l in listeners {
      var i :| 0 <= i < |listeners| && listeners[i] == l;
      assert r[i] == Notice(l, kind, event);
    }
  }

  /** `List.remove(Object)`: deletes the first occurrence, if any. */
  function RemoveFirst<L(==)>(s: seq<L>, x: L): (r: seq<L>)
    ensures x !in s ==> r == s
  {
    if s == [] then []
    else if s[0] == x then s[1..]
    else [s[0]] + RemoveFirst(s[1..], x)
  }

  /** What `RemoveFirst` deletes is the first occurrence `s[i]`; the others keep their order. */
  lemma {:induction false} RemoveFirstAt<L>(s: seq<L>, x: L, i: nat)
    requires i < |s| && s[i] == x && x !in s[..i]
    ensures RemoveFirst(s, x) == s[..i] + s[i + 1..]
  {
    if i > 0 {
      var t := s[1..];
      assert s[0] != x by {
        assert s[0] == s[..i][0];
      }
      assert t[..i - 1] == s[1..i] && t[i..] == s[i + 1..];
      var before := t[..i - 1];
      assert x !in before by {
        forall k | 0 <= k < |before| ensures before[k] != x {
          assert before[k] == s[..i][k + 1];
        }
      }
      RemoveFirstAt(t, x, i - 1);
      assert s[..i] == [s[0]] + t[..i - 1];
    }
  }

  /** `RemoveFirst` takes away one occurrence of `x` when there is one, and nothing else. */
  lemma {:induction false} RemoveFirstCount<L>(s: seq<L>, x: L)
    ensures multiset(RemoveFirst(s, x)) == multiset(s) - multiset{x}
  {
    if s != [] {
      assert s == [s[0]] + s[1..];
      if s[0] != x {
        RemoveFirstCount(s[1..], x);
      }
    }
  }

  /** A listener added and then removed, and not registered before, leaves the list as it was. */
  lemma {:induction false} AddThenRemove<L>(s: seq<L>, l: L)
    requires l !in s
    ensures RemoveFirst(s + [l], l) == s
  {
    if s != [] {
      assert (s + [l])[1..] == s[1..] + [l];
      AddThenRemove(s[1..], l);
    }
  }

  /** A listener registered once is never notified after its removal. */
  lemma RemovedListenerNotNotified<L>(s: seq<L>, l: L, kind: Kind, event: ReplayEvent)
    requires multiset(s)[l] <= 1
    ensures l !in RemoveFirst(s, l)
    ensures forall n :: n in Broadcast(RemoveFirst(s, l), kind, event) ==> n.listener != l
  {
    var r := RemoveFirst(s, l);
    RemoveFirstCount(s, l);
    assert multiset(r)[l] == 0;
    BroadcastReaches(r, kind, event, l);
  }
}
