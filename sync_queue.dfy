/** The in-memory event queue between the writers of posts and the sync
    worker.  The queue is a `LinkedBlockingQueue` built without a bound,
    whose capacity is therefore `Integer.MAX_VALUE`; `offer` on a full
    queue drops the event and reports nothing. */
module SyncQueue {
  import opened Wrappers
  import opened SyncEvents

  /** `Integer.MAX_VALUE`, the capacity of an unbounded `LinkedBlockingQueue`. */
  const Capacity: nat := 0x7fff_ffff

  /** The queue content after `offer(e)`. */
  function Offered(q: seq<BoardSyncEvent>, e: BoardSyncEvent): (r: seq<BoardSyncEvent>)
    ensures |q| <= Capacity ==> |r| <= Capacity
    ensures q <= r && |r| <= |q| + 1
    ensures |r| > |q| <==> |q| < Capacity
    ensures |r| > |q| ==> r[|q|] == e
  {
    if |q| < Capacity then q + [e] else q
  }

  /** The queue content after offering `es` one by one, first to last. */
  function OfferedAll(q: seq<BoardSyncEvent>, es: seq<BoardSyncEvent>): seq<BoardSyncEvent>
    decreases |es|
  {
    if es == [] then q else Offered(OfferedAll(q, es[..|es| - 1]), es[|es| - 1])
  }

  /** While there is room, offered events queue up behind the waiting ones
      in the order they were offered. */
  lemma {:induction false} OfferedAllAppends(q: seq<BoardSyncEvent>, es: seq<BoardSyncEvent>)
    requires |q| + |es| <= Capacity
    ensures OfferedAll(q, es) == q + es
    decreases |es|
  {
    if es != [] {
      var init := es[..|es| - 1];
      OfferedAllAppends(q, init);
      assert (q + init) + [es[|es| - 1]] == q + es by {
        assert init + [es[|es| - 1]] == es;
      }
    }
  }

  /** Offering never loses a waiting event, never overfills the queue and
      adds at most one entry per offer. */
  lemma {:induction false} OfferedAllBounded(q: seq<BoardSyncEvent>, es: seq<BoardSyncEvent>)
    requires |q| <= Capacity
    ensures q <= OfferedAll(q, es)
    ensures |OfferedAll(q, es)| <= Capacity
    ensures |OfferedAll(q, es)| <= |q| + |es|
    decreases |es|
  {
    if es != [] {
      OfferedAllBounded(q, es[..|es| - 1]);
    }
  }

  /** First in, first out: polling the head and then offering is the same
      as offering and then polling, while there is room. */
  lemma PollCommutesWithOffer(q: seq<BoardSyncEvent>, e: BoardSyncEvent)
    requires q != [] && |q| < Capacity
    ensures Offered(q, e)[0] == q[0]
    ensures Offered(q, e)[1..] == Offered(q[1..], e)
  {
    assert (q + [e])[1..] == q[1..] + [e];
  }

  class BoardSyncEventQueue {
    /** Waiting events, head first. */
    var events: seq<BoardSyncEvent>

    ghost predicate Valid()
      reads this
    {
      |events| <= Capacity
    }

    constructor ()
      ensures Valid() && events == []
    {
      events := [];
    }

    /** `addEvent`: `offer` the event; a full queue drops it. */
    method AddEvent(e: BoardSyncEvent)
      requires Valid()
      modifies this
      ensures Valid()
      ensures events == Offered(old(events), e)
    {
      if |events| < Capacity {
        events := events + [e];
      }
    }

    /** `pollEvent`: the head, removed; None (Java `null`) on an empty queue. */
    method PollEvent() returns (head: Option<BoardSyncEvent>)
      requires Valid()
      modifies this
      ensures Valid()
      ensures old(events) == [] ==> head == None && events == []
      ensures old(events) != [] ==> head == Some(old(events)[0]) && events == old(events)[1..]
    {
      if events == [] {
        head := None;
      } else {
        head := Some(events[0]);
        events := events[1..];
      }
    }

    /** `size`: the number of waiting events, which fits in a Java `int`. */
    method Size() returns (n: int)
      requires Valid()
      ensures n == |events| && 0 <= n <= Capacity
    {
      n := |events|;
    }

    /** `isEmpty`. */
    method IsEmpty() returns (empty: bool)
      ensures empty <==> |events| == 0
    {
      empty := events == [];
    }

    /** `drainAll`: every waiting event, in queue order, leaving the queue
        empty. */
    method DrainAll() returns (batch: seq<BoardSyncEvent>)
      requires Valid()
      modifies this
      ensures Valid()
      ensures batch == old(events) && events == []
      ensures |batch| <= Capacity
    {
      batch := events;
      events := [];
    }
  }

  /** Adding a run of events to an empty queue and draining it hands the
      events back in the order they were added, and a second drain finds
      nothing. */
  method AddThenDrain(es: seq<BoardSyncEvent>) returns (first: seq<BoardSyncEvent>, second: seq<BoardSyncEvent>)
    requires |es| <= Capacity
    ensures first == es && second == []
  {
    var q := new BoardSyncEventQueue();
    var i := 0;
    while i < |es|
      invariant 0 <= i <= |es|
      invariant q.Valid() && q.events == es[..i]
    {
      q.AddEvent(es[i]);
      assert es[..i + 1] == es[..i] + [es[i]];
      i := i + 1;
    }
    assert es[..|es|] == es;
    first := q.DrainAll();
    second := q.DrainAll();
  }
}
