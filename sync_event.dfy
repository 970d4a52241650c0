/** The sync event: which post changed, how, and when the event was made.
    The clock reading is a parameter. */
module SyncEvents {
  /** The three kinds of change a post goes through. */
  datatype EventType = Create | Update | Delete

  datatype BoardSyncEvent = BoardSyncEvent(boardId: int, eventType: EventType, timestamp: int)

  /** The two-argument constructor, with the clock reading `now`. */
  function NewEvent(boardId: int, eventType: EventType, now: int): (e: BoardSyncEvent)
    ensures e.boardId == boardId && e.eventType == eventType && e.timestamp == now
  {
    BoardSyncEvent(boardId, eventType, now)
  }

  /** The static factory `create`. */
  function CreateEvent(boardId: int, now: int): (e: BoardSyncEvent)
    ensures e.eventType == Create && e.boardId == boardId && e.timestamp == now
  {
    NewEvent(boardId, Create, now)
  }

  /** The static factory `update`. */
  function UpdateEvent(boardId: int, now: int): (e: BoardSyncEvent)
    ensures e.eventType == Update && e.boardId == boardId && e.timestamp == now
  {
    NewEvent(boardId, Update, now)
  }

  /** The static factory `delete`. */
  function DeleteEvent(boardId: int, now: int): (e: BoardSyncEvent)
    ensures e.eventType == Delete && e.boardId == boardId && e.timestamp == now
  {
    NewEvent(boardId, Delete, now)
  }

  /** The factory for a given kind. */
  function FactoryFor(t: EventType, boardId: int, now: int): BoardSyncEvent
  {
    match t
    case Create => CreateEvent(boardId, now)
    case Update => UpdateEvent(boardId, now)
    case Delete => DeleteEvent(boardId, now)
  }

  /** Every event is what the factory of its own kind makes from its own
      id and timestamp, and no two factories make the same event. */
  lemma EveryEventHasOneFactory(e: BoardSyncEvent)
    ensures e == FactoryFor(e.eventType, e.boardId, e.timestamp)
    ensures forall t: EventType :: t != e.eventType ==> FactoryFor(t, e.boardId, e.timestamp) != e
  {
  }
}
