/** The request record, the search-index document and the uniform response
    record, with the conversions between them. */
module BoardDto {
  import opened Wrappers
  import opened BoardEntity

  /** What a create or update request carries; `None` is a missing field. */
  datatype BoardRequest = BoardRequest(title: Option<string>, content: Option<string>,
                                       author: Option<string>)

  /** A document of the `boards` search index: the six fields of a post. */
  datatype BoardDocument = BoardDocument(id: int, title: string, content: string, author: string,
                                         createdAt: int, updatedAt: int)

  /** The one response shape every read returns, whichever store answered. */
  datatype BoardResponse = BoardResponse(id: int, title: string, content: string, author: string,
                                         createdAt: int, updatedAt: int)

  /** The document the sync worker and the startup rebuild build from a row. */
  function DocumentOf(p: Post): BoardDocument
  {
    BoardDocument(p.id, p.title, p.content, p.author, p.createdAt, p.updatedAt)
  }

  /** `BoardResponse.from(Board)`. */
  function FromPost(p: Post): BoardResponse
  {
    BoardResponse(p.id, p.title, p.content, p.author, p.createdAt, p.updatedAt)
  }

  /** `BoardResponse.from(BoardDocument)`. */
  function FromDoc(d: BoardDocument): BoardResponse
  {
    BoardResponse(d.id, d.title, d.content, d.author, d.createdAt, d.updatedAt)
  }

  /** A document carries the same six values as a post. */
  predicate Mirrors(d: BoardDocument, p: Post)
  {
    && d.id == p.id && d.title == p.title && d.content == p.content
    && d.author == p.author && d.createdAt == p.createdAt && d.updatedAt == p.updatedAt
  }

  /** `from(Board)` copies the six fields of the post unchanged. */
  lemma FromPostCopiesFields(p: Post)
    ensures var r := FromPost(p);
      && r.id == p.id && r.title == p.title && r.content == p.content
      && r.author == p.author && r.createdAt == p.createdAt && r.updatedAt == p.updatedAt
  {
  }

  /** `from(BoardDocument)` copies the six fields of the document unchanged. */
  lemma FromDocCopiesFields(d: BoardDocument)
    ensures var r := FromDoc(d);
      && r.id == d.id && r.title == d.title && r.content == d.content
      && r.author == d.author && r.createdAt == d.createdAt && r.updatedAt == d.updatedAt
  {
  }

  /** A document and a post give equal responses exactly when they carry the
      same six values: the two conversions agree and lose nothing. */
  lemma SameResponseIffMirrors(d: BoardDocument, p: Post)
    ensures FromDoc(d) == FromPost(p) <==> Mirrors(d, p)
  {
  }

  /** The document built from a row mirrors the row, as the index requires. */
  lemma DocumentOfMirrors(p: Post)
    ensures Mirrors(DocumentOf(p), p)
    ensures DocumentOf(p).id == p.id
  {
  }

  /** Reading a post back from the index gives the response the store would
      have given for it. */
  lemma FromDocOfDocumentOf(p: Post)
    ensures FromDoc(DocumentOf(p)) == FromPost(p)
  {
    SameResponseIffMirrors(DocumentOf(p), p);
  }

  /** `BoardService.getAllBoards` maps each post of a page through `from`. */
  function Responses(ps: seq<Post>): (rs: seq<BoardResponse>)
    ensures |rs| == |ps|
    ensures forall i :: 0 <= i < |ps| ==> rs[i] == FromPost(ps[i])
    decreases |ps|
  {
    if ps == [] then [] else [FromPost(ps[0])] + Responses(ps[1..])
  }
}
