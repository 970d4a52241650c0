/** The JSON API over the same service: the list routing it shares with
    the web controller and the status code each operation answers with. */
module ApiController {
  import opened Wrappers
  import opened BoardEntity
  import opened BoardDto
  import opened Paging
  import opened Stores
  import opened BoardServiceModel
  import opened QueryRouting

  /** An HTTP answer: the status code and the body, if any. */
  datatype Reply<T> = Reply(status: int, body: Option<T>)

  const Ok200: int := 200
  const Created201: int := 201
  const NoContent204: int := 204
  const NotFound404: int := 404
  const ServerError500: int := 500

  /** The status a service failure turns into: the service raises 404 for
      a missing post; a column violation is an unhandled exception. */
  function FailureStatus(f: Failure): (status: int)
    ensures 400 <= status < 600
    ensures status == NotFound404 <==> f == NotFound
  {
    match f
    case NotFound => NotFound404
    case ConstraintViolation => ServerError500
  }

  /** `ResponseEntity.ok(body)` for a result, or the failure's status. */
  function OkOrFailure(r: Result<BoardResponse, Failure>, success: int): Reply<BoardResponse>
  {
    match r
    case Ok(b) => Reply(success, Some(b))
    case Err(f) => Reply(FailureStatus(f), None)
  }

  /** `getBoard`: 200 with the post. */
  function GetReply(r: Result<BoardResponse, Failure>): Reply<BoardResponse>
  {
    OkOrFailure(r, Ok200)
  }

  /** `createBoard`: 201 with the created post. */
  function CreateReply(r: Result<BoardResponse, Failure>): Reply<BoardResponse>
  {
    OkOrFailure(r, Created201)
  }

  /** `updateBoard`: 200 with the updated post. */
  function UpdateReply(r: Result<BoardResponse, Failure>): Reply<BoardResponse>
  {
    OkOrFailure(r, Ok200)
  }

  /** `deleteBoard`: 204 and no body. */
  function DeleteReply(r: Result<(), Failure>): Reply<BoardResponse>
  {
    match r
    case Ok(_) => Reply(NoContent204, None)
    case Err(f) => Reply(FailureStatus(f), None)
  }

  /** `getAllBoards`: always 200 with the page. */
  function ListReply(boards: Page<BoardResponse>): (reply: Reply<Page<BoardResponse>>)
    ensures reply.status == Ok200 && reply.body == Some(boards)
  {
    Reply(Ok200, Some(boards))
  }

  /** Every operation answers 2xx exactly when the service call succeeded;
      get, create and update then carry the service's post as the body and
      delete carries none; a failure never carries a body, and answers 404
      exactly for a missing post. */
  lemma SuccessIffServiceSucceeded(r: Result<BoardResponse, Failure>, d: Result<(), Failure>)
    ensures 200 <= GetReply(r).status < 300 <==> r.Ok?
    ensures 200 <= CreateReply(r).status < 300 <==> r.Ok?
    ensures 200 <= UpdateReply(r).status < 300 <==> r.Ok?
    ensures 200 <= DeleteReply(d).status < 300 <==> d.Ok?
    ensures r.Ok? ==> GetReply(r) == Reply(200, Some(r.value)) && UpdateReply(r) == Reply(200, Some(r.value))
    ensures r.Ok? ==> CreateReply(r) == Reply(201, Some(r.value))
    ensures d.Ok? ==> DeleteReply(d) == Reply(204, None)
    ensures r.Err? ==> GetReply(r).body.None? && (GetReply(r).status == 404 <==> r.error == NotFound)
    ensures DeleteReply(d).body.None?
  {
  }

  class BoardApiController {
    const service: BoardService

    constructor (service: BoardService)
      ensures this.service == service
    {
      this.service := service;
    }

    /** `getAllBoards`: the same keyword test as the web list, answered 200. */
    method GetAllBoards(page: nat, size: nat, keyword: Option<string>, searchType: Option<string>,
                        search: Search)
      returns (reply: Reply<Page<BoardResponse>>, ghost order: seq<Post>)
      requires service.repo.Valid()
      requires size > 0
      ensures reply.status == Ok200 && reply.body.Some?
      ensures match RouteFor(keyword, searchType)
        case SearchIndex(k, t) => reply.body.value == search(k, t, page, size)
        case StoreListing =>
          && IsListing(order, service.repo.rows)
          && reply.body.value == Page(Responses(Slice(order, page, size)), page, size, |service.repo.rows|)
    {
      var boards;
      if keyword.Some? && Trim(keyword.value) != [] {
        boards := search(Trim(keyword.value), SearchTypeOf(searchType), page, size);
        order := [];
      } else {
        boards, order := service.GetAllBoards(page, size);
      }
      reply := ListReply(boards);
    }

    /** `getBoard`. */
    method GetBoard(id: int) returns (reply: Reply<BoardResponse>)
      requires service.repo.Valid()
      ensures id in service.repo.rows ==> reply == Reply(Ok200, Some(FromPost(service.repo.rows[id])))
      ensures id !in service.repo.rows ==> reply == Reply(NotFound404, None)
    {
      var r := service.GetBoard(id);
      reply := GetReply(r);
    }

    /** `createBoard`. */
    method CreateBoard(req: BoardRequest, now: int) returns (reply: Reply<BoardResponse>)
      requires service.repo.Valid()
      modifies service.repo
      ensures service.repo.Valid()
      ensures reply.status == Created201 <==> CreatableBy(req)
      ensures reply.status == Created201 ==>
        var id := old(service.repo.nextId);
        && service.repo.rows == old(service.repo.rows)[id := Post(id, req.title.value, req.content.value,
                                                                 req.author.value, now, now)]
        && reply.body == Some(FromPost(service.repo.rows[id]))
      ensures reply.status != Created201 ==> reply == Reply(ServerError500, None)
                                             && service.repo.rows == old(service.repo.rows)
      ensures service.repo.nextId
              == if reply.status == Created201 then old(service.repo.nextId) + 1 else old(service.repo.nextId)
    {
      var r := service.CreateBoard(req, now);
      reply := CreateReply(r);
    }

    /** `updateBoard`. */
    method UpdateBoard(id: int, req: BoardRequest, now: int) returns (reply: Reply<BoardResponse>)
      requires service.repo.Valid()
      modifies service.repo
      ensures service.repo.Valid()
      ensures id !in old(service.repo.rows) ==> reply == Reply(NotFound404, None)
                                                && service.repo.rows == old(service.repo.rows)
      ensures reply.status == Ok200 <==> id in old(service.repo.rows) && EditFits(req)
      ensures reply.status == Ok200 ==>
        var after := UpdatedRow(old(service.repo.rows[id]), req, now);
        && service.repo.rows == old(service.repo.rows)[id := after]
        && reply.body == Some(FromPost(after))
      ensures id in old(service.repo.rows) && !EditFits(req) ==>
        reply == Reply(ServerError500, None) && service.repo.rows == old(service.repo.rows)
      ensures service.repo.nextId == old(service.repo.nextId)
    {
      var r := service.UpdateBoard(id, req, now);
      reply := UpdateReply(r);
    }

    /** `deleteBoard`. */
    method DeleteBoard(id: int) returns (reply: Reply<BoardResponse>)
      requires service.repo.Valid()
      modifies service.repo
      ensures service.repo.Valid()
      ensures id in old(service.repo.rows) ==> reply == Reply(NoContent204, None)
                                               && service.repo.rows == old(service.repo.rows) - {id}
      ensures id !in old(service.repo.rows) ==> reply == Reply(NotFound404, None)
                                                && service.repo.rows == old(service.repo.rows)
      ensures service.repo.nextId == old(service.repo.nextId)
    {
      var r := service.DeleteBoard(id);
      reply := DeleteReply(r);
    }
  }
}
