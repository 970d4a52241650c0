# java_board: the post store, the search-index sync pipeline and the request routing

This project models the core of java_board, a bulletin board written in Spring Boot.
Posts live in a relational store, the Post Store (the `boards` table).
A copy of each post is kept in an Elasticsearch index, the Search Index, for keyword search.

The model covers these parts:

- **The Board entity** (`board_entity.dfy`): the column bounds, the timestamp callbacks `onCreate` and `onUpdate`, and the `update` method.
  The entity is a class with nullable fields.
  Each callback is also a function on the entity's state, and the lemmas are about those functions.
  The `src/` copy of `Board.java` is the same as the `backend/` one, so it is modelled once.
  Its `onCreate` is at lines 79-83, `onUpdate` at 90-93, `update` at 103-107 and the columns at 50, 58, 61 and 69.
- **The response records** (`board_dto.dfy`): `BoardResponse.from(Board)` and `from(BoardDocument)`, the search document, and the request.
  The `src/` copy of `BoardResponse.java` (lines 52-61 and 71-80) is the same as the backend one.
- **The page envelope** (`paging.dfy`): the ceiling rule for `totalPages` and how a listing is cut into pages.
- **The two stores** (`stores.dfy`): both are maps from post id to record, kept in a class field.
  The Post Store has an auto-increment counter and refuses rows that break a column bound.
  The Search Index upserts by id, and deleting a missing id is not an error.
- **The CRUD service** (`board_service.dfy`): create, get, list, update and delete over the Post Store, each with its NotFound path and a frame condition.
  This version of the service writes to the store only. It publishes no sync events.
- **The sync event and its queue** (`sync_event.dfy`, `sync_queue.dfy`).
  The queue is a class with a `seq` field.
  `LinkedBlockingQueue()` has capacity `Integer.MAX_VALUE`, and `offer` on a full queue drops the event without telling the caller.
  The field comment at `BoardSyncEventQueue.java:27` calls the queue unbounded. The model follows the code: it has the capacity, and it has the drop.
- **The sync worker** (`sync_worker.dfy`): `syncBoards` drains the queue and replays each event against the Search Index.
  The method is proved against `Replay`, a function on values.
  The lemmas about `Replay` give the per-post outcome, the counts and the frame.
- **The startup rebuild** (`es_initializer.dfy`): the `sync-on-startup` gate, emptying the index, and the `syncAllBoards` loop.
  Each save that throws is counted and the loop goes on.
- **The web controller** (`query_routing.dfy`): the keyword test that picks the Search Index or the paged listing, the attributes put into the view model, and the redirect targets.
- **The JSON controller** (`api_controller.dfy`): the same keyword test, and the status code and body for each operation.

Clock readings are integer parameters.
Which store calls throw cannot be seen from the code, so it is a parameter too.
The worker takes `fault(i)` for the i-th event of a batch.
The startup rebuild takes `saveFails(id)` for the post with that id.
The search itself (`searchBoards`) lives in a backend service that is not part of this model.
It is a function parameter that returns a page.

## Model

| member | source | states |
|---|---|---|
| BoardEntity.RowRoundTrip | backend/src/main/java/com/example/board/entity/Board.java:106-147 | A row within the column bounds (title ≤ 500, author ≤ 50, NOT NULL columns) loads as a writable entity, and writing it back gives the same row |
| BoardEntity.Board.Build | src/main/java/com/example/board/service/BoardService.java:65-69 | The builder sets title, content and author from its arguments; id and both timestamps stay null |
| BoardEntity.Board.Load | src/main/java/com/example/board/service/BoardService.java:96 | The entity loaded for a row carries the row's six values |
| BoardEntity.Board.OnCreateAsWritten | backend/src/main/java/com/example/board/entity/Board.java:178-182 | `onCreate` as written: `createdAt` takes the first clock reading and `updatedAt` the second; nothing else changes |
| BoardEntity.CreatedAsWrittenOrdered | backend/src/main/java/com/example/board/entity/Board.java:179-182 | With a clock that does not run backwards, the as-written `onCreate` gives `createdAt <= updatedAt` and keeps id and author |
| BoardEntity.CreatedAsWrittenCanDiffer | backend/src/main/java/com/example/board/entity/Board.java:180-181 | The two readings 0 and 1 give a new post with `createdAt != updatedAt` |
| BoardEntity.Board.OnCreate | backend/src/main/java/com/example/board/entity/Board.java:178-182 | `onCreate` with the one reading the comment intends: both timestamps take it, nothing else changes |
| BoardEntity.CreatedStartsEqual | backend/src/main/java/com/example/board/entity/Board.java:179-182 | A new post starts with `updatedAt == createdAt == now`, and only the two timestamps change |
| BoardEntity.Board.OnUpdate | backend/src/main/java/com/example/board/entity/Board.java:199-202 | `onUpdate` sets `updatedAt` to the reading and changes nothing else |
| BoardEntity.TouchedKeepsCreation | backend/src/main/java/com/example/board/entity/Board.java:200-202 | After `onUpdate`, `updatedAt` is the reading and every other field, `createdAt` included, is unchanged |
| BoardEntity.Board.Update | backend/src/main/java/com/example/board/entity/Board.java:226-230 | `update(t, c)` sets title and content and nothing else |
| BoardEntity.EditedKeepsIdentity | backend/src/main/java/com/example/board/entity/Board.java:226-230 | `update(t, c)` gives title t and content c, keeps id, author and both timestamps, and applying it twice equals applying it once |
| BoardEntity.EditsKeepOrder | backend/src/main/java/com/example/board/entity/Board.java:199-230 | Any run of `update` + `onUpdate` keeps id, author and `createdAt`, and leaves `updatedAt` at the last reading, which is no earlier than before |
| BoardEntity.LifecycleKeepsTimestampOrder | backend/src/main/java/com/example/board/entity/Board.java:178-230 | A post created at `now` and then edited under a clock that does not run backwards keeps author and `createdAt == now` and has `updatedAt >= createdAt`; after an edit at a later reading, strictly greater |
| BoardDto.FromPostCopiesFields | backend/src/main/java/com/example/board/dto/BoardResponse.java:120-130 | `from(Board)` copies id, title, content, author, createdAt and updatedAt unchanged |
| BoardDto.FromDocCopiesFields | backend/src/main/java/com/example/board/dto/BoardResponse.java:159-170 | `from(BoardDocument)` copies the same six fields unchanged |
| BoardDto.SameResponseIffMirrors | backend/src/main/java/com/example/board/dto/BoardResponse.java:120-170 | A document and a post give equal responses if and only if they carry the same six values |
| BoardDto.DocumentOfMirrors | backend/src/main/java/com/example/board/worker/BoardSyncWorker.java:118-125 | The document the worker builds from a post carries the post's six values under the post's id |
| BoardDto.FromDocOfDocumentOf | backend/src/main/java/com/example/board/dto/BoardResponse.java:120-170 | For a document built from a post as the worker builds it, `from(doc) == from(board)` |
| BoardDto.Responses | src/main/java/com/example/board/service/BoardService.java:129-130 | Mapping a page through `from` keeps its length and order: item i of the result is `from` of item i |
| Paging.TotalPagesIsCeiling | backend/src/main/java/com/example/board/controller/BoardController.java:169-196 | `totalPages` is the ceiling of total / size: the pages cover all elements, one page fewer would not, and it is 0 exactly when there are no elements |
| Paging.TotalPagesExample | backend/src/main/java/com/example/board/controller/BoardController.java:175 | 95 elements in pages of 10 give 10 pages |
| Paging.TotalPagesOfNothing | backend/src/main/java/com/example/board/controller/BoardController.java:194 | No elements give 0 pages |
| Paging.TotalPagesOfPartialPage | backend/src/main/java/com/example/board/controller/BoardController.java:195 | Fewer elements than one page, but some, give exactly 1 page |
| Paging.SliceBounds | backend/src/main/java/com/example/board/controller/BoardController.java:139-196 | A page holds at most `size` items; a page before the page count is not empty, one at or past it is empty; the totals and the page number describe the request |
| Paging.ElementOnItsPage | backend/src/main/java/com/example/board/controller/BoardController.java:181-184 | Element k of the listing is item `k % size` of page `k / size`: pages are consecutive runs of the listing |
| Stores.BoardRepository.FindById | src/main/java/com/example/board/service/BoardService.java:96-99 | `findById` finds an entity exactly when the id is stored, a fresh one loaded from that row |
| Stores.BoardRepository.ExistsById | src/main/java/com/example/board/service/BoardService.java:172 | `existsById` holds exactly when the id is stored |
| Stores.BoardRepository.Save | src/main/java/com/example/board/service/BoardService.java:74 | An entity without id runs the single-reading `onCreate` and is inserted under the next id. An entity with an id that equals its stored row is not written and `onUpdate` does not run, because the service runs in a transaction (line 34) whose dirty check finds nothing to write. Any other entity with an id runs `onUpdate` and overwrites its row. A row that breaks a column bound is refused and nothing is written |
| Stores.BoardRepository.DeleteById | src/main/java/com/example/board/service/BoardService.java:180 | `deleteById` removes exactly that id, and removing an absent id changes nothing |
| Stores.BoardRepository.FindAll | backend/src/main/java/com/example/board/elasticsearch/ElasticsearchInitializer.java:114 | `findAll()` lists every stored row exactly once |
| Stores.BoardRepository.FindAllPage | src/main/java/com/example/board/service/BoardService.java:129 | `findAll(pageable)` is the requested page of some listing of the stored rows, with the total row count |
| Stores.BoardSearchRepository.Save | backend/src/main/java/com/example/board/worker/BoardSyncWorker.java:128 | `save(document)` upserts under the document's id; when the call throws the index is unchanged |
| Stores.BoardSearchRepository.DeleteById | backend/src/main/java/com/example/board/worker/BoardSyncWorker.java:144 | `deleteById` removes that id and succeeds for an absent id; when the call throws the index is unchanged |
| Stores.BoardSearchRepository.Recreate | backend/src/main/java/com/example/board/elasticsearch/ElasticsearchInitializer.java:60-63 | Dropping and creating the index leaves it empty |
| BoardServiceModel.BoardService.CreateBoard | src/main/java/com/example/board/service/BoardService.java:62-79 | Succeeds exactly when the request fits the columns; then exactly one row is added under a fresh id, with the request's title, content and author and both timestamps `now`, and the response mirrors it; the id counter moves on by one. Otherwise nothing changes, the counter included |
| BoardServiceModel.BoardService.GetBoard | src/main/java/com/example/board/service/BoardService.java:92-105 | NotFound for an absent id, otherwise `from` of the stored row; the store is only read |
| BoardServiceModel.BoardService.GetAllBoards | src/main/java/com/example/board/service/BoardService.java:121-134 | The requested page of a listing of all rows, each mapped through `from` in page order, with the page number, size and total row count |
| BoardServiceModel.UpdatedRow | src/main/java/com/example/board/service/BoardService.java:153-158 | The row an update leaves: id, author and `createdAt` kept, title and content from the request, and `updatedAt` moved to `now` unless the edit leaves title and content as stored |
| BoardServiceModel.BoardService.UpdateBoard | src/main/java/com/example/board/service/BoardService.java:144-162 | NotFound and no change for an absent id. An edit that leaves title and content as stored changes nothing and answers the stored post. Otherwise the row becomes `UpdatedRow` when the edit fits the columns and is refused when it does not. The request's author is ignored and no other row changes |
| BoardServiceModel.BoardService.DeleteBoard | src/main/java/com/example/board/service/BoardService.java:170-181 | NotFound and no change for an absent id; otherwise exactly that row is removed. The id counter never moves back |
| BoardServiceModel.CreateDeleteCreate | src/main/java/com/example/board/service/BoardService.java:62-181 | Ids are never reused: create a post, delete it, create another, and the second gets an id different from the first and from every row stored before |
| SyncEvents.NewEvent | src/main/java/com/example/board/event/BoardSyncEvent.java:52-56 | The constructor keeps the id and the kind it is given and stamps the clock reading |
| SyncEvents.CreateEvent | src/main/java/com/example/board/event/BoardSyncEvent.java:61-63 | `create(id)` gives an event with that id and kind CREATE |
| SyncEvents.UpdateEvent | src/main/java/com/example/board/event/BoardSyncEvent.java:68-70 | `update(id)` gives an event with that id and kind UPDATE |
| SyncEvents.DeleteEvent | src/main/java/com/example/board/event/BoardSyncEvent.java:75-77 | `delete(id)` gives an event with that id and kind DELETE |
| SyncEvents.EveryEventHasOneFactory | src/main/java/com/example/board/event/BoardSyncEvent.java:25-77 | Every event is what the factory of its own kind makes from its id and timestamp, and no factory of another kind makes it |
| SyncQueue.Offered | src/main/java/com/example/board/worker/BoardSyncEventQueue.java:29-37 | `offer` keeps the waiting events in order and adds at most one; it adds the event at the tail exactly when the queue is below capacity |
| SyncQueue.OfferedAllAppends | src/main/java/com/example/board/worker/BoardSyncEventQueue.java:36-37 | While there is room, the offered events queue up behind the waiting ones in the order they were offered |
| SyncQueue.OfferedAllBounded | src/main/java/com/example/board/worker/BoardSyncEventQueue.java:29-37 | Offering never loses a waiting event, never fills the queue past capacity and adds at most one entry per offer |
| SyncQueue.PollCommutesWithOffer | src/main/java/com/example/board/worker/BoardSyncEventQueue.java:36-49 | First in, first out: with room to spare, polling the head and then offering gives the same queue as offering and then polling |
| SyncQueue.BoardSyncEventQueue.constructor | src/main/java/com/example/board/worker/BoardSyncEventQueue.java:29 | A new queue is empty |
| SyncQueue.BoardSyncEventQueue.AddEvent | src/main/java/com/example/board/worker/BoardSyncEventQueue.java:36-40 | `addEvent` leaves the queue as `offer` does |
| SyncQueue.BoardSyncEventQueue.PollEvent | src/main/java/com/example/board/worker/BoardSyncEventQueue.java:47-49 | On an empty queue it gives none and the queue stays empty; otherwise it gives the head and removes exactly that element |
| SyncQueue.BoardSyncEventQueue.Size | src/main/java/com/example/board/worker/BoardSyncEventQueue.java:56-58 | `size` is the number of waiting events and fits in an `int` |
| SyncQueue.BoardSyncEventQueue.IsEmpty | src/main/java/com/example/board/worker/BoardSyncEventQueue.java:65-67 | `isEmpty` holds exactly when no event is waiting |
| SyncQueue.BoardSyncEventQueue.DrainAll | src/main/java/com/example/board/worker/BoardSyncEventQueue.java:74-78 | `drainAll` returns exactly the waiting events in queue order and leaves the queue empty |
| SyncQueue.AddThenDrain | src/main/java/com/example/board/worker/BoardSyncEventQueue.java:36-78 | Events added to an empty queue drain back in the order they were added, and a second drain right after returns nothing |
| SyncWorker.ReplayCounts | backend/src/main/java/com/example/board/worker/BoardSyncWorker.java:61-75 | Every drained event is counted exactly once: successes plus failures equal the batch size |
| SyncWorker.FaultFreeFailuresAreMissingPosts | backend/src/main/java/com/example/board/worker/BoardSyncWorker.java:111-135 | When no store call throws, the failures are exactly the creates and updates whose post is no longer stored |
| SyncWorker.ReplayFrame | backend/src/main/java/com/example/board/worker/BoardSyncWorker.java:65-75 | Whatever throws, the index entries of posts no event is about are unchanged |
| SyncWorker.LastEventDecides | backend/src/main/java/com/example/board/worker/BoardSyncWorker.java:65-99 | When no call throws, events apply in drained order and the last event about a stored post decides its entry: after delete it is absent, after create or update it carries the post's current values; for a post no longer stored, any delete leaves it absent and otherwise its entry is unchanged |
| SyncWorker.BoardSyncWorker.SyncBoardToIndex | backend/src/main/java/com/example/board/worker/BoardSyncWorker.java:111-135 | Succeeds exactly when the post is stored and the save does not throw; it then upserts the document built from the post whatever was there; otherwise the index is unchanged |
| SyncWorker.BoardSyncWorker.DeleteBoardFromIndex | backend/src/main/java/com/example/board/worker/BoardSyncWorker.java:142-150 | Removes the document and succeeds, also for an absent one, unless the call throws |
| SyncWorker.BoardSyncWorker.ProcessEvent | backend/src/main/java/com/example/board/worker/BoardSyncWorker.java:85-104 | CREATE and UPDATE re-read the post and upsert it, DELETE removes it; the outcome and new index are those of one replay step |
| SyncWorker.BoardSyncWorker.SyncBoards | backend/src/main/java/com/example/board/worker/BoardSyncWorker.java:49-78 | An empty queue changes nothing; otherwise the queue ends empty with no event put back, the index is the replay of the drained batch in order, the counts add up to the batch size, and the Post Store is only read |
| EsInitializer.EmptyStoreSyncsNothing | backend/src/main/java/com/example/board/elasticsearch/ElasticsearchInitializer.java:116-119 | An empty store gives no document and no count |
| EsInitializer.RebuildMirrorsStore | backend/src/main/java/com/example/board/elasticsearch/ElasticsearchInitializer.java:127-138 | When no save throws, the rebuilt index holds exactly one document per stored post, under its id and with its six values, and there is no failure |
| EsInitializer.PassingAndFailingSplit | backend/src/main/java/com/example/board/elasticsearch/ElasticsearchInitializer.java:123-145 | The posts whose save went through and those whose save threw split the store, so the two counts add up to the number of posts |
| EsInitializer.SaveRunMatchesSets | backend/src/main/java/com/example/board/elasticsearch/ElasticsearchInitializer.java:127-145 | Saving the listed posts one by one, a throwing save counted and skipped, gives the documents of the posts whose save went through and one count per post, whatever the listing order |
| EsInitializer.ElasticsearchInitializer.constructor | backend/src/main/java/com/example/board/elasticsearch/ElasticsearchInitializer.java:39-40 | The sync-on-startup setting is on only when it is configured as true; it defaults to off |
| EsInitializer.ElasticsearchInitializer.SaveAll | backend/src/main/java/com/example/board/elasticsearch/ElasticsearchInitializer.java:127-145 | The loop over the listed posts leaves the index and the counts as the one-by-one save run says |
| EsInitializer.ElasticsearchInitializer.SyncAllBoards | backend/src/main/java/com/example/board/elasticsearch/ElasticsearchInitializer.java:111-151 | Adds the document of every stored post whose save went through; the success and failure counts are the sizes of those two sets and add up to the number of posts; the store is only read |
| EsInitializer.ElasticsearchInitializer.Run | backend/src/main/java/com/example/board/elasticsearch/ElasticsearchInitializer.java:48-72 | With the setting off nothing changes; with it on, the index is emptied first and ends holding exactly the documents of the posts whose save went through |
| QueryRouting.TrimLeading | backend/src/main/java/com/example/board/controller/BoardController.java:119 | Removes exactly the leading characters up to U+0020: what is left is a suffix that does not start with one of them |
| QueryRouting.TrimTrailing | backend/src/main/java/com/example/board/controller/BoardController.java:119 | Removes exactly the trailing characters up to U+0020: what is left is a prefix that does not end with one of them |
| QueryRouting.TrimEmptyIffBlank | backend/src/main/java/com/example/board/controller/BoardController.java:119 | `trim()` gives the empty string if and only if every character is at most U+0020; otherwise the result starts and ends with a kept character |
| QueryRouting.TrimIdempotent | backend/src/main/java/com/example/board/controller/BoardController.java:123 | Trimming the trimmed keyword changes nothing |
| QueryRouting.SearchTypeOf | backend/src/main/java/com/example/board/controller/BoardController.java:109 | `searchType` is `"title+content"` when the parameter is missing or empty, and the given value otherwise |
| QueryRouting.RouteForSearchesIffKeyword | backend/src/main/java/com/example/board/controller/BoardController.java:119-132 | The Search Index answers if and only if a keyword is given and it is not blank; the search then gets the trimmed, non-empty keyword and the search type after its default; otherwise the paged listing answers |
| QueryRouting.ViewModel.constructor | backend/src/main/java/com/example/board/controller/BoardController.java:110 | The model handed to the handler starts empty |
| QueryRouting.ViewModel.AddAttribute | backend/src/main/java/com/example/board/controller/BoardController.java:126-136 | `addAttribute` sets that key and no other |
| QueryRouting.ListAttributesEcho | backend/src/main/java/com/example/board/controller/BoardController.java:126-198 | The keyword and searchType attributes are set only on the search path, the keyword as typed before trimming; boards, currentPage (the page's number) and totalPages (the ceiling rule) are always set |
| QueryRouting.BoardController.GetAllBoards | backend/src/main/java/com/example/board/controller/BoardController.java:105-204 | Renders `board/list`; the page is the search answer on the search path and the service's listing page otherwise, numbered as requested; the model gains exactly the list attributes |
| QueryRouting.Digits | backend/src/main/java/com/example/board/controller/BoardController.java:404 | The decimal digits of a number: at least one digit, and no leading zero |
| QueryRouting.DigitsRoundTrip | backend/src/main/java/com/example/board/controller/BoardController.java:404 | Reading the printed digits back gives the number |
| QueryRouting.DecimalRoundTrip | backend/src/main/java/com/example/board/controller/BoardController.java:404 | A printed `Long`, negative ones included, parses back to the same value |
| QueryRouting.DetailRedirectNamesThePost | backend/src/main/java/com/example/board/controller/BoardController.java:404 | The update redirect is `redirect:/boards/` followed by a path that parses back to the post's id, so different posts get different targets and none is the list target |
| QueryRouting.BoardController.CreateBoard | backend/src/main/java/com/example/board/controller/BoardController.java:301-318 | Succeeds exactly when the request fits the columns. Then the answer is `redirect:/boards` and exactly one row is added, under the next id, with the request's title, content and author and both timestamps `now`. The id counter moves on by one. A refused create is a constraint violation and changes nothing, the counter included |
| QueryRouting.BoardController.UpdateBoard | backend/src/main/java/com/example/board/controller/BoardController.java:390-405 | Succeeds exactly when the post exists and the edit fits. Then the answer is `redirect:/boards/` + id and the post's row becomes `UpdatedRow`, with no other row changed. A failure changes nothing, and it is NotFound exactly for an absent id. The id counter is unchanged either way |
| QueryRouting.BoardController.DeleteBoard | backend/src/main/java/com/example/board/controller/BoardController.java:426-440 | Deleting a stored post removes it and answers `redirect:/boards`; an absent id is NotFound and changes nothing. The id counter is unchanged either way |
| ApiController.FailureStatus | src/main/java/com/example/board/service/BoardService.java:97-99 | A service failure answers with a 4xx or 5xx code, and with 404 exactly for a missing post |
| ApiController.ListReply | backend/src/main/java/com/example/board/controller/BoardApiController.java:78 | The list answers 200 with the page as body |
| ApiController.SuccessIffServiceSucceeded | backend/src/main/java/com/example/board/controller/BoardApiController.java:93-155 | Each operation answers 2xx exactly when the service call succeeded: get and update 200 with the post, create 201 with the post, delete 204 with no body; a failure has no body and is 404 exactly for a missing post |
| ApiController.BoardApiController.GetAllBoards | backend/src/main/java/com/example/board/controller/BoardApiController.java:62-79 | Answers 200 with the search answer for the trimmed keyword on the search path, and with the service's listing page otherwise |
| ApiController.BoardApiController.GetBoard | backend/src/main/java/com/example/board/controller/BoardApiController.java:93-97 | 200 with `from` of the stored post, or 404 with no body |
| ApiController.BoardApiController.CreateBoard | backend/src/main/java/com/example/board/controller/BoardApiController.java:113-117 | 201 exactly when the request fits the columns, with the created post as body, the row added under a fresh id and the id counter moved on by one; otherwise 500 and nothing changes |
| ApiController.BoardApiController.UpdateBoard | backend/src/main/java/com/example/board/controller/BoardApiController.java:132-138 | 404 and no change for an absent id. 200 exactly when the post exists and the edit fits; the row then becomes `UpdatedRow`, no other row changes, and the body is that row. An edit of an existing post that breaks a column answers 500 with no body and changes nothing. The id counter is unchanged |
| ApiController.BoardApiController.DeleteBoard | backend/src/main/java/com/example/board/controller/BoardApiController.java:151-155 | 204 with no body when the post existed, which is then removed; 404 and no change otherwise. The id counter is unchanged |

## Left out

- Concurrency: the queue is modelled sequentially. The thread safety of `LinkedBlockingQueue` and the atomicity of `drainTo` are not modelled, and no `addEvent` runs during a drain.
- Event publishing: the backend controllers call a backend `BoardService` that is not part of this model. The comments at `BoardController.java:308`, `397` and `432` say it publishes sync events. The model wires the controllers to the `src/` service, which only writes to the Post Store, so no write in the model feeds the queue. The queue and the worker are modelled on their own.
- Scheduling: `@Scheduled(fixedRate = 30000)` is a timer. The model runs one `syncBoards` call.
- Search: which documents match a keyword, the analyzers, and the search-type dispatch belong to a backend service that is not part of this model. The search is a function parameter. It is assumed to answer with the page number and size it was asked for, and on the search path this assumption alone is what gives the controllers' `boards.number == page` and `boards.size == size`.
- Index plumbing: `indexOps(...).exists/delete/create` are foreign calls, modelled as "the index becomes empty". Their failures, which `run` catches and logs, are not modelled.
- `syncAllBoards`: a throwing `findAll`, which the outer catch logs, is not modelled. The Post Store's reads never fail in the model.
- Clocks: `LocalDateTime.now()` and `System.currentTimeMillis()` are integer parameters. Event timestamps are carried but only informational.
- BoardServiceModel.BoardService.UpdateBoard: with JPA, the dirty check, `onUpdate` and the column checks run when the transaction flushes, after the response is built. The model runs them inside `save`, so its response carries the new `updatedAt`. An edit that changes nothing is modelled as no write, as the dirty check does.
- Stores.BoardRepository.FindAll: the order of `findAll()` and of the paged listing is any order the store picks. Sorting by `Pageable` is not modelled.
- Stores.BoardRepository.Save: inserts run the corrected single-reading `onCreate` (see Findings), not the two clock readings of `Board.java:180-181`, so a new row starts with `createdAt == updatedAt`.
- BoardServiceModel.BoardService.CreateBoard: both timestamps are `now` because the store runs the corrected single-reading `onCreate`. As written, `updatedAt` is a second, possibly later, reading.
- ApiController.BoardApiController.CreateBoard: the created row's two timestamps are both `now`, for the same reason as the service's create.
- QueryRouting.BoardController.CreateBoard: the added row's two timestamps are both `now`, for the same reason as the service's create.
- Stores.BoardRepository.Save: ids come from a counter starting at 1. Identity gaps after refused inserts and overflow of Java `Long` ids are not modelled.
- SyncQueue.BoardSyncEventQueue.Size: Java's `int` is not modelled. The contract shows the count stays within `Integer.MAX_VALUE`.
- ApiController.BoardApiController.UpdateBoard: the 200 body's `updatedAt` is the new reading. The real handler returns the response built before the transaction flushes, which still carries the stored `updatedAt`.
- ApiController.BoardApiController: a failure's body is modelled as absent. The service throws `ResponseStatusException` (`src/main/java/com/example/board/service/BoardService.java:97-98`, `147-148`, `173-175`), and the framework's error handler sends its own JSON error body, which is not modelled.
- ApiController.SuccessIffServiceSucceeded: "a failure has no body" is about the replies as modelled; the real failure body is the framework's error response.
- ApiController.FailureStatus: a column violation is an exception nothing in the shown code handles. It is modelled as 500, the framework's default.
- The detail page, the create and edit forms, and the logging are not modelled. `Model` is modelled only for the attributes of the list handler.
- Java nulls in a response or a document are not modelled. Both are built only from stored rows, which have none.
- HTTP parameter binding beyond `keyword` and `searchType` is not modelled. The page number and size come in as naturals with size > 0, as `Pageable` guarantees.

## Findings

| source | as written | input that shows it | evidently intended | confidence | as-written member | corrected member |
|---|---|---|---|---|---|---|
| backend/src/main/java/com/example/board/entity/Board.java:179-182 (also src/main/java/com/example/board/entity/Board.java:80-82) | `onCreate` reads the clock twice, once for `createdAt` and once for `updatedAt` | clock readings 0 then 1 give `createdAt = 0`, `updatedAt = 1` for a post that was never edited | both timestamps take one reading, so a new post starts with `updatedAt == createdAt`, as the comment on line 181 says | not executed | BoardEntity.CreatedAsWrittenCanDiffer | BoardEntity.CreatedStartsEqual |
