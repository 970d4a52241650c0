/** The page envelope every list and search answer carries, and the
    ceiling rule for its page count. */
module Paging {

  /** One page of results: its items, the 0-based page number, the page
      size and the number of matching elements overall. */
  datatype Page<T> = Page(content: seq<T>, number: nat, size: nat, totalElements: nat)

  /** `totalPages`: the element count divided by the page size, rounded up. */
  function TotalPages(total: nat, size: nat): nat
    requires size > 0
  {
    (total + size - 1) / size
  }

  /** The page count is the ceiling of total / size: the last page is the
      first one whose end reaches the total, and no elements means no pages. */
  lemma TotalPagesIsCeiling(total: nat, size: nat)
    requires size > 0
    ensures TotalPages(total, size) * size >= total
    ensures total > 0 ==> (TotalPages(total, size) - 1) * size < total
    ensures TotalPages(total, size) == 0 <==> total == 0
  {
    var n := TotalPages(total, size);
    var r := (total + size - 1) % size;
    assert total + size - 1 == n * size + r;
    assert (n - 1) * size == n * size - size;
  }

  /** The case the page envelope documents: 95 elements in pages of 10
      make 10 pages, the last one holding 5. */
  lemma TotalPagesExample()
    ensures TotalPages(95, 10) == 10
  {
  }

  /** No elements make no pages, whatever the page size. */
  lemma TotalPagesOfNothing(size: nat)
    requires size > 0
    ensures TotalPages(0, size) == 0
  {
  }

  /** Fewer elements than one page (but some) make exactly one page. */
  lemma TotalPagesOfPartialPage(total: nat, size: nat)
    requires size > 0
    requires 0 < total <= size
    ensures TotalPages(total, size) == 1
  {
    TotalPagesIsCeiling(total, size);
    var n := TotalPages(total, size);
    if n >= 2 {
      MulAtLeast(n - 1, 1, size);
    }
  }

  lemma MulAtLeast(a: nat, b: nat, c: nat)
    requires a >= b
    ensures a * c >= b * c
  {
  }

  /** The items of page `page` of `all`: the run that starts at
      `page * size`, empty once past the end. */
  function Slice<T>(all: seq<T>, page: nat, size: nat): seq<T>
    requires size > 0
  {
    var start := page * size;
    if start >= |all| then []
    else all[start .. if start + size <= |all| then start + size else |all|]
  }

  /** What a paged query answers for the listing `all`. */
  function PageOf<T>(all: seq<T>, page: nat, size: nat): Page<T>
    requires size > 0
  {
    Page(Slice(all, page, size), page, size, |all|)
  }

  /** A page never holds more than `size` items, a page before the last
      page count is not empty, and a page at or past the page count is
      empty while the totals still describe the whole listing. */
  lemma SliceBounds<T>(all: seq<T>, page: nat, size: nat)
    requires size > 0
    ensures |Slice(all, page, size)| <= size
    ensures page < TotalPages(|all|, size) ==> |Slice(all, page, size)| > 0
    ensures page >= TotalPages(|all|, size) ==> Slice(all, page, size) == []
    ensures PageOf(all, page, size).totalElements == |all|
    ensures PageOf(all, page, size).number == page
  {
    var n := TotalPages(|all|, size);
    TotalPagesIsCeiling(|all|, size);
    if page < n {
      MulAtLeast(n - 1, page, size);
    } else {
      MulAtLeast(page, n, size);
    }
  }

  /** Every element of the listing is on page `k / size`, at position
      `k % size`: the pages cut the listing into consecutive runs. */
  lemma ElementOnItsPage<T>(all: seq<T>, k: nat, size: nat)
    requires size > 0
    requires k < |all|
    ensures k % size < |Slice(all, k / size, size)|
    ensures Slice(all, k / size, size)[k % size] == all[k]
  {
    var q, r := k / size, k % size;
    assert k == q * size + r;
  }
}
