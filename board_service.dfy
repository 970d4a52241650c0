/** The CRUD service over the Post Store.  This version of the service
    writes to the store only; it publishes no sync events. */
module BoardServiceModel {
  import opened Wrappers
  import opened BoardEntity
  import opened BoardDto
  import opened Paging
  import opened Stores

  /** A create request the table accepts: title, content and author are
      present and title and author fit their columns. */
  predicate CreatableBy(req: BoardRequest)
  {
    && req.title.Some? && |req.title.value| <= TitleMaxLength
    && req.content.Some?
    && req.author.Some? && |req.author.value| <= AuthorMaxLength
  }

  /** An edit the table accepts: title and content are present and the
      title fits its column.  The request's author plays no part. */
  predicate EditFits(req: BoardRequest)
  {
    req.title.Some? && |req.title.value| <= TitleMaxLength && req.content.Some?
  }

  /** An edit that leaves title and content as they are stored: the dirty
      check at commit then finds nothing to write. */
  predicate NoOpEdit(before: Post, req: BoardRequest)
  {
    req.title == Some(before.title) && req.content == Some(before.content)
  }

  /** The row `updateBoard` leaves for a fitting edit of `before` at `now`:
      the stored row itself when the edit changes nothing, and otherwise
      the request's title and content with `updatedAt` moved to `now`. */
  function UpdatedRow(before: Post, req: BoardRequest, now: int): (after: Post)
    requires EditFits(req)
    ensures after.id == before.id && after.author == before.author && after.createdAt == before.createdAt
    ensures after.title == req.title.value && after.content == req.content.value
    ensures after.updatedAt == if NoOpEdit(before, req) then before.updatedAt else now
  {
    if NoOpEdit(before, req) then before
    else before.(title := req.title.value, content := req.content.value, updatedAt := now)
  }

  /** No row was created or edited after `now`, and none was edited before
      it was created. */
  ghost predicate Chronological(rows: map<int, Post>, now: int)
  {
    forall id :: id in rows ==> rows[id].createdAt <= rows[id].updatedAt <= now
  }

  class BoardService {
    const repo: BoardRepository

    constructor (repo: BoardRepository)
      ensures this.repo == repo
    {
      this.repo := repo;
    }

    /** `createBoard`: a new row under a fresh id, with the request's title,
        content and author and both timestamps set to `now`; the response
        mirrors the saved row.  Existing rows are untouched. */
    method CreateBoard(req: BoardRequest, now: int) returns (r: Result<BoardResponse, Failure>)
      requires repo.Valid()
      modifies repo
      ensures repo.Valid()
      ensures r.Ok? <==> CreatableBy(req)
      ensures r.Ok? ==>
        var id := old(repo.nextId);
        && id !in old(repo.rows)
        && repo.rows == old(repo.rows)[id := Post(id, req.title.value, req.content.value,
                                                 req.author.value, now, now)]
        && r.value == FromPost(repo.rows[id])
      ensures r.Err? ==> r.error == ConstraintViolation && repo.rows == old(repo.rows)
      ensures repo.nextId == if r.Ok? then old(repo.nextId) + 1 else old(repo.nextId)
      ensures old(Chronological(repo.rows, now)) ==> Chronological(repo.rows, now)
    {
      var b := new Board.Build(req.title, req.content, req.author);
      var saved := repo.Save(b, now);
      match saved
      case Ok(row) => r := Ok(FromPost(row));
      case Err(e) => r := Err(e);
    }

    /** `getBoard`: the stored post, or NotFound. */
    method GetBoard(id: int) returns (r: Result<BoardResponse, Failure>)
      requires repo.Valid()
      ensures id in repo.rows ==> r == Ok(FromPost(repo.rows[id]))
      ensures id !in repo.rows ==> r == Err(NotFound)
    {
      var found := repo.FindById(id);
      if found.None? {
        r := Err(NotFound);
      } else {
        var b := found.value;
        RowRoundTrip(repo.rows[id]);
        r := Ok(FromPost(RowOf(b.State(), b.id.value)));
      }
    }

    /** `getAllBoards(pageable)`: the page of the listing, each post mapped
        through `from` in the page's order, with the listing's totals. */
    method GetAllBoards(page: nat, size: nat) returns (p: Page<BoardResponse>, ghost order: seq<Post>)
      requires repo.Valid()
      requires size > 0
      ensures IsListing(order, repo.rows)
      ensures p.number == page && p.size == size && p.totalElements == |repo.rows|
      ensures p.content == Responses(Slice(order, page, size))
    {
      var rows;
      rows, order := repo.FindAllPage(page, size);
      p := Page(Responses(rows.content), rows.number, rows.size, rows.totalElements);
    }

    /** `updateBoard`: NotFound for an absent id; otherwise title and
        content come from the request, `updatedAt` becomes `now` unless the
        edit changes nothing, and id, author and `createdAt` are kept.  No
        other row changes. */
    method UpdateBoard(id: int, req: BoardRequest, now: int) returns (r: Result<BoardResponse, Failure>)
      requires repo.Valid()
      modifies repo
      ensures repo.Valid() && repo.nextId == old(repo.nextId)
      ensures id !in old(repo.rows) ==> r == Err(NotFound) && repo.rows == old(repo.rows)
      ensures id in old(repo.rows) ==>
        var before := old(repo.rows[id]);
        && (NoOpEdit(before, req) ==> repo.rows == old(repo.rows) && r == Ok(FromPost(before)))
        && if EditFits(req) then
             var after := UpdatedRow(before, req, now);
             repo.rows == old(repo.rows)[id := after] && r == Ok(FromPost(after))
           else
             r == Err(ConstraintViolation) && repo.rows == old(repo.rows)
      ensures old(Chronological(repo.rows, now)) ==> Chronological(repo.rows, now)
    {
      var found := repo.FindById(id);
      if found.None? {
        r := Err(NotFound);
        return;
      }
      var b := found.value;
      b.Update(req.title, req.content);
      var saved := repo.Save(b, now);
      match saved
      case Ok(row) => r := Ok(FromPost(row));
      case Err(e) => r := Err(e);
    }

    /** `deleteBoard`: NotFound for an absent id; otherwise exactly that
        row goes. */
    method DeleteBoard(id: int) returns (r: Result<(), Failure>)
      requires repo.Valid()
      modifies repo
      ensures repo.Valid()
      ensures id !in old(repo.rows) ==> r == Err(NotFound) && repo.rows == old(repo.rows)
      ensures id in old(repo.rows) ==> r == Ok(()) && repo.rows == old(repo.rows) - {id}
      ensures repo.nextId == old(repo.nextId)
      ensures forall now :: old(Chronological(repo.rows, now)) ==> Chronological(repo.rows, now)
    {
      var present := repo.ExistsById(id);
      if !present {
        r := Err(NotFound);
        return;
      }
      repo.DeleteById(id);
      r := Ok(());
    }
  }

  /** Ids are never reused: a post created after another was deleted gets
      an id no row has had before, so it differs from the deleted one's. */
  method CreateDeleteCreate(service: BoardService, req: BoardRequest, now: int, later: int)
    returns (first: Result<BoardResponse, Failure>, second: Result<BoardResponse, Failure>)
    requires service.repo.Valid() && CreatableBy(req)
    modifies service.repo
    ensures first.Ok? && second.Ok?
    ensures first.value.id != second.value.id
    ensures second.value.id !in old(service.repo.rows) && first.value.id !in old(service.repo.rows)
    ensures second.value.id in service.repo.rows && service.repo.rows - {second.value.id} == old(service.repo.rows)
  {
    first := service.CreateBoard(req, now);
    var removed := service.DeleteBoard(first.value.id);
    second := service.CreateBoard(req, later);
  }
}
