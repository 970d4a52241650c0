/** The scheduled sync worker: it drains the event queue and replays each
    event against the Search Index, reading the post's current row from the
    Post Store for creates and updates.  A failing event is counted and
    dropped; the batch goes on.

    Which calls into the two stores throw is not something the model can
    see: `fault(i)` says that the store call made for the i-th event of the
    batch throws.  A create or update for a post no longer in the store
    fails whatever `fault` says. */
module SyncWorker {
  import opened Wrappers
  import opened BoardEntity
  import opened BoardDto
  import opened Stores
  import opened SyncEvents
  import opened SyncQueue

  /** `processEvent` on values: the new index, or None when the event
      fails (the index is then unchanged). */
  function Applied(docs: map<int, BoardDocument>, rows: map<int, Post>, e: BoardSyncEvent,
                   unavailable: bool): Option<map<int, BoardDocument>>
  {
    if unavailable then None
    else match e.eventType
      case Delete => Some(docs - {e.boardId})
      case _ => if e.boardId in rows then Some(docs[e.boardId := DocumentOf(rows[e.boardId])]) else None
  }

  /** The batch loop of `syncBoards` on values, event by event. */
  function Replay(docs: map<int, BoardDocument>, rows: map<int, Post>, batch: seq<BoardSyncEvent>,
                  fault: nat -> bool): Tally
    decreases |batch|
  {
    if batch == [] then Tally(docs, 0, 0)
    else
      var t := Replay(docs, rows, batch[..|batch| - 1], fault);
      match Applied(t.docs, rows, batch[|batch| - 1], fault(|batch| - 1))
      case Some(d) => Tally(d, t.succeeded + 1, t.failed)
      case None => Tally(t.docs, t.succeeded, t.failed + 1)
  }

  /** The creates and updates in `batch` whose post is not in the store. */
  function MissingTargets(rows: map<int, Post>, batch: seq<BoardSyncEvent>): nat
    decreases |batch|
  {
    if batch == [] then 0
    else
      var e := batch[|batch| - 1];
      MissingTargets(rows, batch[..|batch| - 1])
        + (if e.eventType != Delete && e.boardId !in rows then 1 else 0)
  }

  /** The ids the events of `batch` are about. */
  function TargetsOf(batch: seq<BoardSyncEvent>): set<int>
  {
    set k | 0 <= k < |batch| :: batch[k].boardId
  }

  /** The kind of the last event of `batch` about `id`, if any. */
  function LastEventFor(batch: seq<BoardSyncEvent>, id: int): Option<EventType>
    decreases |batch|
  {
    if batch == [] then None
    else if batch[|batch| - 1].boardId == id then Some(batch[|batch| - 1].eventType)
    else LastEventFor(batch[..|batch| - 1], id)
  }

  /** Whether `batch` holds a delete of `id`. */
  function HasDelete(batch: seq<BoardSyncEvent>, id: int): bool
    decreases |batch|
  {
    if batch == [] then false
    else (batch[|batch| - 1].boardId == id && batch[|batch| - 1].eventType == Delete)
         || HasDelete(batch[..|batch| - 1], id)
  }

  /** `a` and `b` agree on `id`: both lack it, or both hold the same document. */
  predicate SameEntry(a: map<int, BoardDocument>, b: map<int, BoardDocument>, id: int)
  {
    (id in a <==> id in b) && (id in a ==> a[id] == b[id])
  }

  /** Every event of the batch is counted exactly once, as a success or as
      a failure. */
  lemma {:induction false} ReplayCounts(docs: map<int, BoardDocument>, rows: map<int, Post>,
                                        batch: seq<BoardSyncEvent>, fault: nat -> bool)
    ensures Replay(docs, rows, batch, fault).succeeded + Replay(docs, rows, batch, fault).failed == |batch|
    decreases |batch|
  {
    if batch != [] {
      ReplayCounts(docs, rows, batch[..|batch| - 1], fault);
    }
  }

  /** With no store call throwing, the failures are exactly the creates and
      updates whose post has gone from the store. */
  lemma {:induction false} FaultFreeFailuresAreMissingPosts(docs: map<int, BoardDocument>,
                                                            rows: map<int, Post>,
                                                            batch: seq<BoardSyncEvent>,
                                                            fault: nat -> bool)
    requires forall i: nat :: !fault(i)
    ensures Replay(docs, rows, batch, fault).failed == MissingTargets(rows, batch)
    decreases |batch|
  {
    if batch != [] {
      FaultFreeFailuresAreMissingPosts(docs, rows, batch[..|batch| - 1], fault);
      assert !fault(|batch| - 1);
    }
  }

  lemma TargetsOfInit(batch: seq<BoardSyncEvent>)
    requires batch != []
    ensures TargetsOf(batch) == TargetsOf(batch[..|batch| - 1]) + {batch[|batch| - 1].boardId}
  {
    var init := batch[..|batch| - 1];
    forall id | id in TargetsOf(batch) ensures id in TargetsOf(init) + {batch[|batch| - 1].boardId} {
      var k :| 0 <= k < |batch| && batch[k].boardId == id;
      if k < |init| { assert init[k] == batch[k]; }
    }
    forall id | id in TargetsOf(init) ensures id in TargetsOf(batch) {
      var k :| 0 <= k < |init| && init[k].boardId == id;
      assert batch[k] == init[k];
    }
  }

  /** Whatever throws, a batch touches only the documents of the posts its
      events are about. */
  lemma {:induction false} ReplayFrame(docs: map<int, BoardDocument>, rows: map<int, Post>,
                                       batch: seq<BoardSyncEvent>, fault: nat -> bool, id: int)
    requires id !in TargetsOf(batch)
    ensures SameEntry(Replay(docs, rows, batch, fault).docs, docs, id)
    decreases |batch|
  {
    if batch != [] {
      TargetsOfInit(batch);
      ReplayFrame(docs, rows, batch[..|batch| - 1], fault, id);
    }
  }

  /** With no store call throwing, the last event about a post decides its
      document: after a create or an update the index mirrors the post's
      current row, after a delete the document is gone.  For a post no
      longer in the store, creates and updates fail, so any delete of it
      leaves it absent and otherwise its document is untouched. */
  lemma {:induction false} LastEventDecides(docs: map<int, BoardDocument>, rows: map<int, Post>,
                                            batch: seq<BoardSyncEvent>, fault: nat -> bool, id: int)
    requires forall i: nat :: !fault(i)
    ensures var r := Replay(docs, rows, batch, fault).docs;
      if id in rows then
        match LastEventFor(batch, id)
        case None => SameEntry(r, docs, id)
        case Some(t) => if t == Delete then id !in r else id in r && r[id] == DocumentOf(rows[id])
      else if HasDelete(batch, id) then id !in r
      else SameEntry(r, docs, id)
    decreases |batch|
  {
    if batch != [] {
      LastEventDecides(docs, rows, batch[..|batch| - 1], fault, id);
      assert !fault(|batch| - 1);
    }
  }

  class BoardSyncWorker {
    const queue: BoardSyncEventQueue
    const repo: BoardRepository
    const search: BoardSearchRepository

    constructor (queue: BoardSyncEventQueue, repo: BoardRepository, search: BoardSearchRepository)
      ensures this.queue == queue && this.repo == repo && this.search == search
    {
      this.queue := queue;
      this.repo := repo;
      this.search := search;
    }

    /** `syncBoardToElasticsearch`: read the post and upsert its document;
        a missing post or a throwing call fails the event. */
    method SyncBoardToIndex(id: int, unavailable: bool) returns (ok: bool)
      requires repo.Valid() && search.Valid()
      modifies search
      ensures search.Valid()
      ensures ok <==> id in repo.rows && !unavailable
      ensures ok ==> search.docs == old(search.docs)[id := DocumentOf(repo.rows[id])]
      ensures !ok ==> search.docs == old(search.docs)
    {
      var found := repo.FindById(id);
      if found.None? {
        return false;
      }
      var b := found.value;
      RowRoundTrip(repo.rows[id]);
      var row := RowOf(b.State(), b.id.value);
      ok := search.Save(DocumentOf(row), unavailable);
    }

    /** `deleteBoardFromElasticsearch`: removing an absent document succeeds. */
    method DeleteBoardFromIndex(id: int, unavailable: bool) returns (ok: bool)
      requires search.Valid()
      modifies search
      ensures search.Valid()
      ensures ok <==> !unavailable
      ensures search.docs == if ok then old(search.docs) - {id} else old(search.docs)
    {
      ok := search.DeleteById(id, unavailable);
    }

    /** `processEvent`: creates and updates re-read the post, deletes remove it. */
    method ProcessEvent(e: BoardSyncEvent, unavailable: bool) returns (ok: bool)
      requires repo.Valid() && search.Valid()
      modifies search
      ensures search.Valid()
      ensures match Applied(old(search.docs), repo.rows, e, unavailable)
        case Some(d) => ok && search.docs == d
        case None => !ok && search.docs == old(search.docs)
    {
      match e.eventType
      case Create => ok := SyncBoardToIndex(e.boardId, unavailable);
      case Update => ok := SyncBoardToIndex(e.boardId, unavailable);
      case Delete => ok := DeleteBoardFromIndex(e.boardId, unavailable);
    }

    /** `syncBoards`: an empty queue is left alone; otherwise the whole
        queue is drained and replayed in order.  The index ends as the
        replay of the drained batch says, the counters add up to the batch
        size (so they fit the Java `int`s), and the Post Store is only read. */
    method SyncBoards(fault: nat -> bool) returns (successCount: nat, failCount: nat)
      requires queue.Valid() && repo.Valid() && search.Valid()
      modifies queue, search
      ensures queue.Valid() && search.Valid()
      ensures queue.events == []
      ensures Tally(search.docs, successCount, failCount)
              == Replay(old(search.docs), repo.rows, old(queue.events), fault)
      ensures successCount + failCount == |old(queue.events)| <= Capacity
    {
      var empty := queue.IsEmpty();
      if empty {
        return 0, 0;
      }
      var events := queue.DrainAll();
      successCount, failCount := 0, 0;
      var i := 0;
      while i < |events|
        invariant 0 <= i <= |events|
        invariant search.Valid() && queue.Valid() && queue.events == []
        invariant Replay(old(search.docs), repo.rows, events[..i], fault)
                  == Tally(search.docs, successCount, failCount)
      {
        var ok := ProcessEvent(events[i], fault(i));
        if ok {
          successCount := successCount + 1;
        } else {
          failCount := failCount + 1;
        }
        assert events[..i + 1][..i] == events[..i];
        i := i + 1;
      }
      assert events[..|events|] == events;
      ReplayCounts(old(search.docs), repo.rows, events, fault);
    }
  }
}
