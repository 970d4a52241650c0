/** The web controller of the board pages: the choice between the Search
    Index and the paged listing, the page envelope put into the view
    model, and the redirect targets after a write. */
module QueryRouting {
  import opened Wrappers
  import opened BoardEntity
  import opened BoardDto
  import opened Paging
  import opened Stores
  import opened BoardServiceModel

  /** The characters `String.trim` strips: every code point up to and
      including the space. */
  predicate IsTrimmable(c: char)
  {
    c <= ' '
  }

  /** `s` holds nothing but trimmable characters. */
  predicate IsBlank(s: string)
  {
    forall i :: 0 <= i < |s| ==> IsTrimmable(s[i])
  }

  /** `s` without its leading trimmable characters. */
  function TrimLeading(s: string): (r: string)
    ensures |r| <= |s| && r == s[|s| - |r|..]
    ensures r == [] || !IsTrimmable(r[0])
    ensures IsBlank(s[..|s| - |r|])
    decreases |s|
  {
    if s != [] && IsTrimmable(s[0]) then TrimLeading(s[1..]) else s
  }

  /** `s` without its trailing trimmable characters. */
  function TrimTrailing(s: string): (r: string)
    ensures |r| <= |s| && r == s[..|r|]
    ensures r == [] || !IsTrimmable(r[|r| - 1])
    ensures IsBlank(s[|r|..])
    decreases |s|
  {
    if s != [] && IsTrimmable(s[|s| - 1]) then
      var r := TrimTrailing(s[..|s| - 1]);
      assert s[|r|..] == s[..|s| - 1][|r|..] + [s[|s| - 1]];
      r
    else s
  }

  /** `String.trim`. */
  function Trim(s: string): string
  {
    TrimTrailing(TrimLeading(s))
  }

  /** A string trims to nothing exactly when it is blank; otherwise the
      trimmed string is a piece of it that starts and ends with a
      character `trim` keeps. */
  lemma TrimEmptyIffBlank(s: string)
    ensures Trim(s) == [] <==> IsBlank(s)
    ensures Trim(s) != [] ==> !IsTrimmable(Trim(s)[0]) && !IsTrimmable(Trim(s)[|Trim(s)| - 1])
  {
    var l := TrimLeading(s);
    if Trim(s) == [] {
      assert l[0..] == l;
      assert l == [];
      assert s[..|s| - |l|] == s;
    }
  }

  /** Trimming twice trims no more than trimming once. */
  lemma TrimIdempotent(s: string)
    ensures Trim(Trim(s)) == Trim(s)
  {
    var t := Trim(s);
    if t != [] {
      TrimEmptyIffBlank(s);
    }
  }

  /** The default of the `searchType` request parameter. */
  const DefaultSearchType: string := "title+content"

  /** The `searchType` parameter as the handler sees it: the default
      replaces a missing or empty value. */
  function SearchTypeOf(param: Option<string>): (t: string)
    ensures t != []
    ensures param.Some? && param.value != [] ==> t == param.value
    ensures param == None || param == Some([]) ==> t == DefaultSearchType
  {
    if param.None? || param.value == [] then DefaultSearchType else param.value
  }

  /** Where a list request is answered from. */
  datatype Route = SearchIndex(keyword: string, searchType: string) | StoreListing

  /** The keyword test shared by both list handlers. */
  function RouteFor(keyword: Option<string>, searchType: Option<string>): Route
  {
    if keyword.Some? && Trim(keyword.value) != [] then SearchIndex(Trim(keyword.value), SearchTypeOf(searchType))
    else StoreListing
  }

  /** The search path is taken exactly when a keyword is given and it is
      not blank; the search then gets the trimmed,
      non-empty keyword and the search type after its default. */
  lemma RouteForSearchesIffKeyword(keyword: Option<string>, searchType: Option<string>)
    ensures RouteFor(keyword, searchType).SearchIndex?
            <==> keyword.Some? && !IsBlank(keyword.value)
    ensures RouteFor(keyword, searchType).SearchIndex? ==>
      && RouteFor(keyword, searchType).keyword == Trim(keyword.value)
      && RouteFor(keyword, searchType).keyword != []
      && Trim(RouteFor(keyword, searchType).keyword) == RouteFor(keyword, searchType).keyword
      && RouteFor(keyword, searchType).searchType == SearchTypeOf(searchType)
  {
    if keyword.Some? {
      TrimEmptyIffBlank(keyword.value);
      TrimIdempotent(keyword.value);
    }
  }

  /** A value put into the view model. */
  datatype Attribute = Text(text: string) | Number(n: int) | Boards(page: Page<BoardResponse>)

  /** The Spring MVC `Model` handed to a handler: string keys to values. */
  class ViewModel {
    var attributes: map<string, Attribute>

    constructor ()
      ensures attributes == map[]
    {
      attributes := map[];
    }

    /** `addAttribute`: a later value replaces an earlier one. */
    method AddAttribute(key: string, value: Attribute)
      modifies this
      ensures attributes == old(attributes)[key := value]
    {
      attributes := attributes[key := value];
    }
  }

  /** The view that renders the list. */
  const ListView: string := "board/list"

  /** The attributes the list handler adds on top of the ones the model
      already had. */
  function ListAttributes(before: map<string, Attribute>, keyword: Option<string>,
                          searchType: Option<string>, boards: Page<BoardResponse>): map<string, Attribute>
    requires boards.size > 0
  {
    var withQuery :=
      if RouteFor(keyword, searchType).SearchIndex?
      then before["keyword" := Text(keyword.value)]["searchType" := Text(SearchTypeOf(searchType))]
      else before;
    withQuery["boards" := Boards(boards)]["currentPage" := Number(boards.number)]
             ["totalPages" := Number(TotalPages(boards.totalElements, boards.size))]
  }

  /** The search form echo is there only on the search path, and it echoes
      the keyword as typed, before trimming; the page envelope is always
      there. */
  lemma ListAttributesEcho(before: map<string, Attribute>, keyword: Option<string>,
                           searchType: Option<string>, boards: Page<BoardResponse>)
    requires boards.size > 0
    requires "keyword" !in before && "searchType" !in before
    ensures var a := ListAttributes(before, keyword, searchType, boards);
      && ("keyword" in a <==> RouteFor(keyword, searchType).SearchIndex?)
      && ("searchType" in a <==> RouteFor(keyword, searchType).SearchIndex?)
      && ("keyword" in a ==> a["keyword"] == Text(keyword.value))
      && a["boards"] == Boards(boards)
      && a["currentPage"] == Number(boards.number)
      && a["totalPages"] == Number(TotalPages(boards.totalElements, boards.size))
  {
  }

  /** After a create or a delete the browser goes back to the list. */
  const ListRedirect: string := "redirect:/boards"

  /** The decimal digits of a natural number, most significant first. */
  function Digits(n: nat): (s: string)
    ensures |s| >= 1
    ensures forall i :: 0 <= i < |s| ==> '0' <= s[i] <= '9'
    ensures |s| > 1 ==> s[0] != '0'
    decreases n
  {
    if n < 10 then [(n as int + '0' as int) as char] else Digits(n / 10) + Digits(n % 10)
  }

  /** How Java prints a `Long` into a string: optional minus, then digits. */
  function DecimalOf(n: int): string
  {
    if n < 0 then "-" + Digits(-n) else Digits(n)
  }

  /** The value of a run of decimal digits. */
  function DigitsValue(s: string): nat
    requires forall i :: 0 <= i < |s| ==> '0' <= s[i] <= '9'
    decreases |s|
  {
    if s == [] then 0 else DigitsValue(s[..|s| - 1]) * 10 + (s[|s| - 1] as int - '0' as int)
  }

  /** `Long.parseLong` on what `DecimalOf` prints. */
  function ParseDecimal(s: string): Option<int>
  {
    if s != [] && s[0] == '-' then
      if |s| > 1 && forall i :: 1 <= i < |s| ==> '0' <= s[i] <= '9' then Some(0 - DigitsValue(s[1..]) as int) else None
    else if s != [] && forall i :: 0 <= i < |s| ==> '0' <= s[i] <= '9' then Some(DigitsValue(s))
    else None
  }

  /** Reading back the digits of `n` gives `n`. */
  lemma {:induction false} DigitsRoundTrip(n: nat)
    ensures DigitsValue(Digits(n)) == n
    decreases n
  {
    if n >= 10 {
      DigitsRoundTrip(n / 10);
      var hi := Digits(n / 10);
      var lo := Digits(n % 10);
      assert lo == [(n % 10 + '0' as int) as char];
      assert (hi + lo)[..|hi + lo| - 1] == hi;
    }
  }

  /** A run of digits parses as its value. */
  lemma ParseDigits(d: string)
    requires d != [] && forall i :: 0 <= i < |d| ==> '0' <= d[i] <= '9'
    ensures ParseDecimal(d) == Some(DigitsValue(d))
  {
    assert d[0] != '-';
  }

  /** A minus sign followed by a run of digits parses as minus its value. */
  lemma ParseNegated(d: string)
    requires d != [] && forall i :: 0 <= i < |d| ==> '0' <= d[i] <= '9'
    ensures ParseDecimal("-" + d) == Some(0 - DigitsValue(d) as int)
  {
    var s := "-" + d;
    assert s[1..] == d;
    assert forall i :: 1 <= i < |s| ==> s[i] == d[i - 1];
  }

  /** A printed id parses back to the same id. */
  lemma DecimalRoundTrip(n: int)
    ensures ParseDecimal(DecimalOf(n)) == Some(n)
  {
    var m: nat := if n < 0 then -n else n;
    var d := Digits(m);
    DigitsRoundTrip(m);
    if n < 0 {
      ParseNegated(d);
      assert DecimalOf(n) == "-" + d;
    } else {
      ParseDigits(d);
      assert DecimalOf(n) == d;
    }
  }

  /** After an update the browser goes to the post's own page. */
  function DetailRedirect(id: int): string
  {
    "redirect:/boards/" + DecimalOf(id)
  }

  /** The detail redirect names the very post that was updated: the path
      after `/boards/` parses back to its id, so different posts get
      different targets, and no detail target is the list target. */
  lemma DetailRedirectNamesThePost(id: int, other: int)
    ensures var prefix := "redirect:/boards/";
      && DetailRedirect(id)[..|prefix|] == prefix
      && ParseDecimal(DetailRedirect(id)[|prefix|..]) == Some(id)
    ensures DetailRedirect(id) == DetailRedirect(other) ==> id == other
    ensures DetailRedirect(id) != ListRedirect
  {
    var prefix := "redirect:/boards/";
    assert DetailRedirect(id)[|prefix|..] == DecimalOf(id);
    assert DetailRedirect(other)[|prefix|..] == DecimalOf(other);
    DecimalRoundTrip(id);
    DecimalRoundTrip(other);
    assert |DetailRedirect(id)| > |ListRedirect|;
  }

  /** The searches the index answers, keyed by trimmed keyword, search
      type, page number and page size.  Which documents match is not part
      of this model. */
  type Search = (string, string, nat, nat) -> Page<BoardResponse>

  /** A search answers with the page that was asked for. */
  ghost predicate PagedAsAsked(search: Search, page: nat, size: nat)
  {
    forall k, t :: search(k, t, page, size).number == page && search(k, t, page, size).size == size
  }

  class BoardController {
    const service: BoardService

    constructor (service: BoardService)
      ensures this.service == service
    {
      this.service := service;
    }

    /** `getAllBoards`: answer from the Search Index when the keyword has
        content, otherwise from the paged listing of the Post Store; then
        put the page envelope into the model and render the list view. */
    method GetAllBoards(page: nat, size: nat, keyword: Option<string>, searchType: Option<string>,
                        search: Search, model: ViewModel)
      returns (view: string, boards: Page<BoardResponse>, ghost order: seq<Post>)
      requires service.repo.Valid()
      requires size > 0
      requires PagedAsAsked(search, page, size)
      modifies model
      ensures view == ListView
      ensures boards.number == page && boards.size == size
      ensures match RouteFor(keyword, searchType)
        case SearchIndex(k, t) => boards == search(k, t, page, size)
        case StoreListing =>
          && IsListing(order, service.repo.rows)
          && boards == Page(Responses(Slice(order, page, size)), page, size, |service.repo.rows|)
      ensures model.attributes == ListAttributes(old(model.attributes), keyword, searchType, boards)
    {
      if keyword.Some? && Trim(keyword.value) != [] {
        var t := SearchTypeOf(searchType);
        boards := search(Trim(keyword.value), t, page, size);
        order := [];
        model.AddAttribute("keyword", Text(keyword.value));
        model.AddAttribute("searchType", Text(t));
      } else {
        boards, order := service.GetAllBoards(page, size);
      }
      model.AddAttribute("boards", Boards(boards));
      model.AddAttribute("currentPage", Number(boards.number));
      model.AddAttribute("totalPages", Number(TotalPages(boards.totalElements, boards.size)));
      view := ListView;
    }

    /** `createBoard`: create, then back to the list. */
    method CreateBoard(req: BoardRequest, now: int) returns (r: Result<string, Failure>)
      requires service.repo.Valid()
      modifies service.repo
      ensures service.repo.Valid()
      ensures r.Ok? <==> CreatableBy(req)
      ensures r.Ok? ==>
        var id := old(service.repo.nextId);
        && r.value == ListRedirect
        && id !in old(service.repo.rows)
        && service.repo.rows == old(service.repo.rows)[id := Post(id, req.title.value, req.content.value,
                                                                 req.author.value, now, now)]
      ensures r.Err? ==> r.error == ConstraintViolation && service.repo.rows == old(service.repo.rows)
      ensures service.repo.nextId == if r.Ok? then old(service.repo.nextId) + 1 else old(service.repo.nextId)
    {
      var created := service.CreateBoard(req, now);
      if created.Err? {
        return Err(created.error);
      }
      r := Ok(ListRedirect);
    }

    /** `updateBoard`: update, then to the post's page. */
    method UpdateBoard(id: int, req: BoardRequest, now: int) returns (r: Result<string, Failure>)
      requires service.repo.Valid()
      modifies service.repo
      ensures service.repo.Valid()
      ensures r.Ok? <==> id in old(service.repo.rows) && EditFits(req)
      ensures r.Ok? ==>
        && r.value == DetailRedirect(id)
        && service.repo.rows == old(service.repo.rows)[id := UpdatedRow(old(service.repo.rows[id]), req, now)]
      ensures r.Err? ==> service.repo.rows == old(service.repo.rows)
      ensures r.Err? ==> (r.error == NotFound <==> id !in old(service.repo.rows))
      ensures service.repo.nextId == old(service.repo.nextId)
    {
      var updated := service.UpdateBoard(id, req, now);
      if updated.Err? {
        return Err(updated.error);
      }
      r := Ok(DetailRedirect(id));
    }

    /** `deleteBoard`: delete, then back to the list. */
    method DeleteBoard(id: int) returns (r: Result<string, Failure>)
      requires service.repo.Valid()
      modifies service.repo
      ensures service.repo.Valid()
      ensures r.Ok? <==> id in old(service.repo.rows)
      ensures r.Ok? ==> r.value == ListRedirect && service.repo.rows == old(service.repo.rows) - {id}
      ensures r.Err? ==> r.error == NotFound && service.repo.rows == old(service.repo.rows)
      ensures service.repo.nextId == old(service.repo.nextId)
    {
      var deleted := service.DeleteBoard(id);
      if deleted.Err? {
        return Err(deleted.error);
      }
      r := Ok(ListRedirect);
    }
  }
}
