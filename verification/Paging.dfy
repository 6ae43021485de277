/** Page arithmetic over unsigned 64-bit numbers, zero-based inside and optionally one-based outside. */
module Paging {
  import opened Machine

  const MAX: int := 0xFFFF_FFFF_FFFF_FFFF

  type u64 = x: int | 0 <= x <= MAX

  /** `x + 1`; `None` is the overflow, which panics or wraps depending on the build. */
  function Increment(x: u64): Option<u64> {
    if x == MAX then None else Some(x + 1)
  }

  datatype Pagination = Pagination(page: u64, size: u64, oneIndexed: bool)

  datatype Page<T> = Page(content: seq<T>, size: u64, page: u64, totalElements: u64, totalPages: u64, oneIndexed: bool)

  datatype WebConfig = WebConfig(oneIndexed: bool, maxPageSize: u64, defaultPageSize: u64)

  /** `from_request_parts`: the page and size of the query string become a zero-based request. */
  function FromRequest(page: Option<u64>, size: Option<u64>, config: WebConfig): Pagination {
    var sz := match size
      case Some(s) => if s > config.maxPageSize then config.maxPageSize else s
      case None => config.defaultPageSize;
    var pg: u64 := match page
      case Some(p) => if config.oneIndexed then (if p == 0 then 0 else p - 1) else p
      case None => 0;
    Pagination(pg, sz, config.oneIndexed)
  }

  function ResponsePage(p: Pagination): Option<u64> {
    if p.oneIndexed then Increment(p.page) else Some(p.page)
  }

  function TotalPages(total: u64, size: u64): (n: u64)
  {
    if size == 0 then 0
    else
      AtMostOnePerElement(total, size);
      total / size + if total % size != 0 then 1 else 0
  }

  lemma AtMostOnePerElement(total: nat, size: nat)
    requires size > 0
    ensures total / size >= 0 && total / size + (if total % size != 0 then 1 else 0) <= total
  {
    var q, r := total / size, total % size;
    assert total == q * size + r && 0 <= r;
    TimesAtLeast(q, size);
  }

  lemma TimesAtLeast(q: nat, size: nat)
    requires size > 0
    ensures q <= q * size
  {
    assert q * size == q + q * (size - 1);
  }

  function NewPage<T>(content: seq<T>, p: Pagination, total: u64): Option<Page<T>> {
    match ResponsePage(p)
    case None => None
    case Some(shown) => Some(Page(content, p.size, shown, total, TotalPages(total, p.size), p.oneIndexed))
  }

  predicate IsFirst<T>(p: Page<T>) {
    if p.oneIndexed then p.page <= 1 else p.page == 0
  }

  function IsLast<T>(p: Page<T>): Option<bool> {
    if p.oneIndexed then Some(p.page >= p.totalPages)
    else
      match Increment(p.page)
      case None => None
      case Some(next) => Some(next >= p.totalPages)
  }

  /** The pages are just enough: `n` pages hold all elements exactly when `n` is at least the number of pages. */
  lemma PagesNeeded(total: u64, size: u64, n: nat)
    requires size > 0
    ensures TotalPages(total, size) <= n <==> total <= n * size
  {
    var q, r := total / size, total % size;
    assert total == q * size + r && 0 <= r < size;
    var tp := TotalPages(total, size);
    if tp <= n {
      assert tp * size <= n * size;
      assert total <= tp * size;
    } else {
      assert n <= tp - 1;
      assert n * size <= (tp - 1) * size;
      assert (tp - 1) * size < total;
    }
  }

  /** A page says what it was made from: the rows, the size asked for and the number of rows in all, which is not
      mixed up with the number of pages. */
  lemma PageSays<T>(content: seq<T>, p: Pagination, total: u64)
    requires NewPage(content, p, total).Some?
    ensures var r := NewPage(content, p, total).value;
      && r.content == content && r.size == p.size && r.totalElements == total && r.oneIndexed == p.oneIndexed
      && r.page == (if p.oneIndexed then p.page + 1 else p.page)
      && (p.size > 0 ==> total <= r.totalPages * p.size && (total > 0 ==> (r.totalPages - 1) * p.size < total))
  {
    if p.size > 0 {
      var pages := TotalPages(total, p.size);
      PagesNeeded(total, p.size, pages);
      if total > 0 {
        assert pages > 0;
        PagesNeeded(total, p.size, pages - 1);
      }
    }
  }

  /** What sea-orm's `fetch_page` returns: the rows whose index divided by the size is the page. */
  function FetchPage<T>(rows: seq<T>, page: nat, size: nat): seq<T> {
    var from, to := page * size, page * size + size;
    if from >= |rows| then [] else if to >= |rows| then rows[from..] else rows[from..to]
  }

  /** Below the largest page number nothing overflows; both views of a page agree on whether it is the
      first and on whether it is the last, and it is the last exactly when no row lies beyond it. */
  lemma FirstAndLast<T>(content: seq<T>, page: u64, size: u64, total: u64)
    requires size > 0 && page < MAX
    ensures
      var zero := NewPage(content, Pagination(page, size, false), total);
      var one := NewPage(content, Pagination(page, size, true), total);
      && zero.Some? && one.Some?
      && (IsFirst(zero.value) <==> page == 0) && (IsFirst(one.value) <==> page == 0)
      && IsLast(zero.value) == IsLast(one.value) == Some(total <= (page + 1) * size)
  {
    PagesNeeded(total, size, page + 1);
  }

  /** The overflow, in either view, is exactly at the largest page number. */
  lemma OverflowsOnlyAtMax<T>(content: seq<T>, p: Pagination, total: u64)
    ensures (NewPage(content, p, total).None? || IsLast(NewPage(content, p, total).value).None?) <==> p.page == MAX
  {
  }

  /** The page asked for comes back under its own number, in either view (a one-based page 0 is taken to be
      page 1, and no page is the first one); a size asked for is cut to the maximum, the default is not. */
  lemma RequestedPageIsEchoed<T>(content: seq<T>, page: Option<u64>, size: Option<u64>, config: WebConfig, total: u64)
    ensures var r := NewPage(content, FromRequest(page, size, config), total);
      && r.Some? && r.value.oneIndexed == config.oneIndexed
      && (page.Some? && !(config.oneIndexed && page.value == 0) ==> r.value.page == page.value)
      && (page.None? || (config.oneIndexed && page.value == 0) ==>
          IsFirst(r.value) && (r.value.page == 1 <==> config.oneIndexed))
    ensures var s := FromRequest(page, size, config).size;
      if size.None? then s == config.defaultPageSize
      else s <= config.maxPageSize && s <= size.value && (s == config.maxPageSize || s == size.value)
  {
  }

  lemma PagesJoin<T>(rows: seq<T>, page: nat, size: nat)
    requires page * size <= |rows|
    ensures rows[..page * size] + FetchPage(rows, page, size) ==
      if (page + 1) * size >= |rows| then rows else rows[..(page + 1) * size]
  {
    assert (page + 1) * size == page * size + size;
  }

  /** A client that asks for page after page until it is told that it has the last one sees every row
      exactly once, in order, in `TotalPages` requests (one request for an empty table). */
  method Walk<T>(rows: seq<T>, size: u64, oneIndexed: bool) returns (visited: seq<T>, requests: nat)
    requires size > 0 && |rows| <= MAX
    ensures visited == rows
    ensures requests == if rows == [] then 1 else TotalPages(|rows|, size)
  {
    visited, requests := [], 0;
    var page: u64 := 0;
    var last := false;
    while !last
      invariant if last then visited == rows && requests == (if rows == [] then 1 else TotalPages(|rows|, size))
                else requests == page && page * size <= |rows| && visited == rows[..page * size]
                     && page < MAX && (page > 0 ==> page < TotalPages(|rows|, size))
      decreases if last then 0 else MAX - page
    {
      var content := FetchPage(rows, page, size);
      var p := NewPage(content, Pagination(page, size, oneIndexed), |rows|);
      FirstAndLast(content, page, size, |rows|);
      PagesNeeded(|rows|, size, page + 1);
      PagesNeeded(|rows|, size, page);
      PagesJoin(rows, page, size);
      visited := visited + p.value.content;
      requests := requests + 1;
      last := IsLast(p.value).value;
      if !last {
        page := page + 1;
      }
    }
  }
}
