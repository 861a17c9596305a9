/**
 * The pagination metadata builder of src/utils/pagination.ts.
 *
 * All inputs are JavaScript numbers; the model takes them as integers, so
 * `Number(x) || d` is "x, unless x is 0 (falsy), then d".
 */
module Pagination {
  import opened Wrappers

  datatype BuildMetaInput = BuildMetaInput(
    total_items: int,
    page_number: int,
    page_size: int,
    count: int)

  /** The object `buildPaginationMeta` returns (IPaginationMeta). */
  datatype PaginationMeta = PaginationMeta(
    page_number: int,
    page_size: int,
    total_items: int,
    total_pages: int,
    count: int,
    has_next: bool,
    has_prev: bool,
    next_page: Option<int>,
    prev_page: Option<int>)

  function Max(a: int, b: int): int { if a >= b then a else b }

  /** `Math.max(1, Number(x) || 1)`: the input when it is at least 1, otherwise 1. */
  function AtLeastOne(x: int): (r: int)
    ensures r >= 1
    ensures x >= 1 ==> r == x
    ensures x < 1 ==> r == 1
  {
    Max(1, if x != 0 then x else 1)
  }

  /** `Math.max(0, Number(x) || 0)`: never negative, the input when it is not. */
  function NonNegative(x: int): (r: int)
    ensures r >= 0
    ensures x >= 0 ==> r == x
    ensures x < 0 ==> r == 0
  {
    Max(0, if x != 0 then x else 0)
  }

  /** `Math.ceil(a / b)` for a positive numerator and denominator: the least q with a <= q*b. */
  function CeilDiv(a: int, b: int): (q: int)
    requires a > 0 && b >= 1
    ensures q >= 1
    ensures (q - 1) * b < a <= q * b
  {
    CeilDivBounds(a, b);
    (a + b - 1) / b
  }

  lemma CeilDivBounds(a: int, b: int)
    requires a > 0 && b >= 1
    ensures (a + b - 1) / b >= 1
    ensures ((a + b - 1) / b - 1) * b < a <= ((a + b - 1) / b) * b
  {
    var q, r := (a + b - 1) / b, (a + b - 1) % b;
    assert a + b - 1 == q * b + r && 0 <= r < b;
    assert (q - 1) * b == q * b - b;
    assert q * b >= a;
    assert (q - 1) * b < a;
  }

  /** Cancelling a positive factor from a strict inequality between products. */
  lemma CancelFactor(x: int, y: int, b: int)
    requires b >= 1 && x * b < y * b
    ensures x < y
  {
    assert (y - x) * b == y * b - x * b;
  }

  /** The least q with a <= q*b is unique: CeilDiv is the ceiling and nothing else. */
  lemma CeilDivUnique(a: int, b: int, q: int)
    requires a > 0 && b >= 1
    requires (q - 1) * b < a <= q * b
    ensures q == CeilDiv(a, b)
  {
    var c := CeilDiv(a, b);
    CancelFactor(q - 1, c, b);
    CancelFactor(c - 1, q, b);
  }

  /** `buildPaginationMeta` (src/utils/pagination.ts:8-37). */
  function BuildPaginationMeta(input: BuildMetaInput): (m: PaginationMeta)
    // page size and page number are clamped to at least 1
    ensures m.page_size >= 1 && m.page_number >= 1
    ensures m.page_size == (if input.page_size >= 1 then input.page_size else 1)
    ensures m.page_number == (if input.page_number >= 1 then input.page_number else 1)
    // total_pages is 0 exactly for an empty result set, otherwise the ceiling
    ensures m.total_pages == 0 <==> input.total_items <= 0
    ensures input.total_items > 0 ==>
      m.total_pages >= 1 &&
      (m.total_pages - 1) * m.page_size < input.total_items <= m.total_pages * m.page_size
    // neighbour flags
    ensures m.has_prev <==> m.page_number > 1 && input.total_items > 0
    ensures m.has_next <==> m.page_number < m.total_pages
    ensures m.has_next ==> !(m.page_number >= m.total_pages)
    // neighbour pages exist exactly when the flags hold, and point one step away
    ensures m.prev_page.Some? <==> m.has_prev
    ensures m.prev_page.Some? ==> m.prev_page.value == m.page_number - 1 >= 1
    ensures m.next_page.Some? <==> m.has_next
    ensures m.next_page.Some? ==> m.next_page.value == m.page_number + 1 <= m.total_pages
    // counters are never negative
    ensures m.total_items >= 0 && m.count >= 0
    ensures m.total_items == Max(0, input.total_items) && m.count == Max(0, input.count)
  {
    var safePageSize := AtLeastOne(input.page_size);
    var safePageNumber := AtLeastOne(input.page_number);
    var total_pages :=
      if input.total_items > 0 then Max(1, CeilDiv(input.total_items, safePageSize)) else 0;
    var has_prev := safePageNumber > 1 && total_pages >= 1;
    var has_next := total_pages > 0 && safePageNumber < total_pages;
    PaginationMeta(
      page_number := safePageNumber,
      page_size := safePageSize,
      total_items := NonNegative(input.total_items),
      total_pages := total_pages,
      count := NonNegative(input.count),
      has_next := has_next,
      has_prev := has_prev,
      next_page := if has_next then Some(safePageNumber + 1) else None,
      prev_page := if has_prev then Some(safePageNumber - 1) else None)
  }

  /** An empty result set has neither a previous nor a next page, whatever page was asked for. */
  lemma EmptyResultHasNoNeighbours(page_number: int, page_size: int, count: int)
    ensures var m := BuildPaginationMeta(BuildMetaInput(0, page_number, page_size, count));
      m.total_pages == 0 && !m.has_prev && !m.has_next &&
      m.prev_page == None && m.next_page == None
  {
  }

  /** On the last page or past it there is no next page. */
  lemma NoNextFromLastPage(input: BuildMetaInput)
    requires input.page_number >= 1
    requires input.page_number >= BuildPaginationMeta(input).total_pages
    ensures !BuildPaginationMeta(input).has_next && BuildPaginationMeta(input).next_page == None
  {
  }

  /**
   * Past the end of a non-empty result set `prev_page` still points one step
   * back: to the last page or beyond it, never into the result set's interior.
   */
  lemma PrevPagePastTheEnd(input: BuildMetaInput)
    requires input.total_items > 0
    requires input.page_number > BuildPaginationMeta(input).total_pages
    ensures var m := BuildPaginationMeta(input);
      m.has_prev && m.prev_page == Some(input.page_number - 1) &&
      input.page_number - 1 >= m.total_pages
  {
  }

  /** Page 5 of 15 items at size 10: prev_page is 4, two pages beyond the last. */
  lemma PrevPageBeyondLastPage()
    ensures var m := BuildPaginationMeta(BuildMetaInput(15, 5, 10, 0));
      m.total_pages == 2 && m.has_prev && m.prev_page == Some(4)
  {
    assert CeilDiv(15, 10) == 2 by { CeilDivUnique(15, 10, 2); }
  }

  /** 15 items, page size 10, page 2. */
  lemma FifteenItemsSecondPage()
    ensures BuildPaginationMeta(BuildMetaInput(15, 2, 10, 5)) ==
      PaginationMeta(
        page_number := 2, page_size := 10, total_items := 15, total_pages := 2, count := 5,
        has_next := false, has_prev := true, next_page := None, prev_page := Some(1))
  {
    assert CeilDiv(15, 10) == 2 by { CeilDivUnique(15, 10, 2); }
  }
}
