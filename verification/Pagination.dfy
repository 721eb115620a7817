/** Pages of a list (src/utils/pagination.py), with Python's slices and rounding up. */
module Pagination {
  import opened Wrappers

  datatype Page<T> = Page(
    items: seq<T>,
    total: int,
    page: int,
    pageSize: int,
    totalPages: int,
    hasNext: bool,
    hasPrev: bool)

  datatype PageError = DivisionByZero

  function FloorDiv(a: int, b: int): int
    requires b != 0
  {
    if b > 0 then a / b else (-a) / (-b)
  }

  function CeilDiv(a: int, b: int): int
    requires b != 0
  {
    -FloorDiv(-a, b)
  }

  /** A slice bound: negative ones count from the end, and all are clipped to the list. */
  function Bound(i: int, length: nat): nat {
    if i < 0 then (if i + length < 0 then 0 else i + length) else if i > length then length else i
  }

  function Slice<T>(s: seq<T>, start: int, end: int): seq<T> {
    var lo, hi := Bound(start, |s|), Bound(end, |s|);
    if lo < hi then s[lo..hi] else []
  }

  /** The rows a query returns under OFFSET and LIMIT. */
  function OffsetLimit<T>(rows: seq<T>, offset: nat, limit: nat): seq<T> {
    if offset >= |rows| then [] else if offset + limit < |rows| then rows[offset..offset + limit] else rows[offset..]
  }

  function TotalPages(total: int, pageSize: int): int
    requires total > 0 ==> pageSize != 0
  {
    if total > 0 then CeilDiv(total, pageSize) else 0
  }

  function BuildPaginatedResponse<T>(items: seq<T>, total: int, page: int, pageSize: int): Page<T>
    requires total > 0 ==> pageSize != 0
  {
    var totalPages := TotalPages(total, pageSize);
    Page(items, total, page, pageSize, totalPages, page < totalPages, page > 1)
  }

  function PaginateList<T>(items: seq<T>, page: int, pageSize: int): Result<Page<T>, PageError> {
    var total := |items|;
    if total > 0 && pageSize == 0 then Failure(DivisionByZero)
    else
      var totalPages := TotalPages(total, pageSize);
      var start := (page - 1) * pageSize;
      var end := start + pageSize;
      Success(Page(Slice(items, start, end), total, page, pageSize, totalPages, page < totalPages, page > 1))
  }

  /** Rounding up: the least number of pages whose places suffice, and likewise for a negative size. */
  lemma CeilDivIs(a: int, b: int)
    requires b != 0
    ensures b > 0 ==> CeilDiv(a, b) * b - b < a <= CeilDiv(a, b) * b
    ensures b < 0 ==> CeilDiv(a, b) * b <= a < CeilDiv(a, b) * b - b
  {
    if b > 0 {
      CeilBounds(a, b, (-a) / b);
    } else {
      CeilBounds(-a, -b, a / (-b));
      assert CeilDiv(a, b) == -(a / (-b));
    }
  }

  lemma CeilBounds(a: int, b: int, q: int)
    requires b > 0 && q == (-a) / b
    ensures (-q) * b - b < a <= (-q) * b
  {
    assert q * b <= -a < q * b + b;
    assert (-q) * b == -(q * b);
  }

  /** A list is refused only for a page size of nought, and the empty list not even then: it has no pages. */
  lemma RefusedIff<T>(items: seq<T>, page: int, pageSize: int)
    ensures PaginateList(items, page, pageSize).Failure? <==> items != [] && pageSize == 0
    ensures items == [] ==>
              PaginateList(items, page, pageSize) == Success(Page([], 0, page, pageSize, 0, page < 0, page > 1))
  {
  }

  // ---- The pages partition the list -----------------------------------------------------------------------------

  type pos = n: nat | n > 0 witness 1

  /** Where page k + 1 starts: k full pages, or the end of the list. */
  function PageStart(length: nat, k: nat, size: pos): nat {
    if k * size < length then k * size else length
  }

  lemma PageCount(length: nat, size: pos)
    ensures TotalPages(length, size) >= 0
    ensures length > 0 ==> (TotalPages(length, size) - 1) * size < length <= TotalPages(length, size) * size
  {
    if length > 0 {
      var n: int := length;
      var q := (-n) / size;
      assert q * size <= -n < q * size + size;
      assert TotalPages(length, size) == -q;
      assert (-q) * size == -(q * size) && (-q - 1) * size == -(q * size) - size;
    }
  }

  lemma PageIsSegment<T>(items: seq<T>, k: nat, size: pos)
    ensures PageStart(|items|, k, size) <= PageStart(|items|, k + 1, size)
    ensures PaginateList(items, k + 1, size).Success?
    ensures PaginateList(items, k + 1, size).value.items ==
            items[PageStart(|items|, k, size)..PageStart(|items|, k + 1, size)]
  {
    assert (k + 1) * size == k * size + size;
    assert k * size >= 0;
  }

  /** Page k + 1 is not the last one exactly if a full page does not reach the end. */
  lemma HasNextIff(length: nat, k: nat, size: pos)
    ensures k + 1 < TotalPages(length, size) <==> (k + 1) * size < length
  {
    PageCount(length, size);
    var t := TotalPages(length, size);
    if length > 0 {
      if k + 1 < t {
        ProductMonotone(k + 1, t - 1, size);
      } else {
        ProductMonotone(t, k + 1, size);
      }
    } else {
      assert (k + 1) * size >= 0;
    }
  }

  lemma ProductMonotone(a: int, b: int, size: pos)
    requires a <= b
    ensures a * size <= b * size
  {
    assert (b - a) * size >= 0;
  }

  /** Every page but the last is full; the last one is not empty; beyond it there is nothing. */
  lemma PagesAreFull<T>(items: seq<T>, page: pos, size: pos)
    ensures var r := PaginateList(items, page, size);
            && r.Success?
            && (page < r.value.totalPages ==> |r.value.items| == size)
            && (page == r.value.totalPages ==> 1 <= |r.value.items| <= size)
            && (page > r.value.totalPages ==> r.value.items == [])
  {
    var k := page - 1;
    PageIsSegment(items, k, size);
    HasNextIff(|items|, k, size);
    assert (k + 1) * size == k * size + size;
    if k > 0 {
      HasNextIff(|items|, k - 1, size);
    } else {
      PageCount(|items|, size);
      assert k * size == 0;
    }
  }

  /** The first n pages, one after the other. */
  function FirstPages<T>(items: seq<T>, n: nat, size: pos): seq<T> {
    if n == 0 then []
    else FirstPages(items, n - 1, size) + PaginateList(items, n, size).value.items
  }

  lemma {:induction false} FirstPagesArePrefix<T>(items: seq<T>, n: nat, size: pos)
    ensures FirstPages(items, n, size) == items[..PageStart(|items|, n, size)]
    decreases n
  {
    if n == 0 {
      assert 0 * size == 0;
    } else {
      FirstPagesArePrefix(items, n - 1, size);
      PageIsSegment(items, n - 1, size);
      var from, to := PageStart(|items|, n - 1, size), PageStart(|items|, n, size);
      assert items[..from] + items[from..to] == items[..to];
    }
  }

  /** Concatenating all pages gives back the list. */
  lemma PagesPartition<T>(items: seq<T>, size: pos)
    ensures TotalPages(|items|, size) >= 0
    ensures FirstPages(items, TotalPages(|items|, size), size) == items
  {
    PageCount(|items|, size);
    FirstPagesArePrefix(items, TotalPages(|items|, size), size);
    assert items[..|items|] == items;
  }

  /** A client that follows has_next: the items it sees and the pages it asks for. */
  method FollowNext<T>(items: seq<T>, size: pos) returns (seen: seq<T>, visited: seq<int>)
    ensures seen == items
    ensures |visited| == if items == [] then 1 else TotalPages(|items|, size)
    ensures forall k | 0 <= k < |visited| :: visited[k] == k + 1
  {
    PagesPartition(items, size);
    var page := 1;
    var response := PaginateList(items, page, size).value;
    seen, visited := response.items, [1];
    assert seen == FirstPages(items, 1, size) by {
      assert FirstPages(items, 0, size) == [];
    }
    while response.hasNext
      invariant page >= 1 && response == PaginateList(items, page, size).value
      invariant page <= TotalPages(|items|, size) || (items == [] && page == 1)
      invariant seen == FirstPages(items, page, size)
      invariant |visited| == page && forall k | 0 <= k < page :: visited[k] == k + 1
      decreases TotalPages(|items|, size) - page
    {
      page := page + 1;
      response := PaginateList(items, page, size).value;
      seen := seen + response.items;
      visited := visited + [page];
    }
    if items == [] {
      FirstPagesArePrefix(items, page, size);
    }
  }

  /** A page the database cuts out, wrapped by build_paginated_response, is the page paginate_list cuts out. */
  lemma BothRoutesAgree<T>(items: seq<T>, page: pos, size: pos)
    ensures (page - 1) * size >= 0
    ensures PaginateList(items, page, size) ==
            Success(BuildPaginatedResponse(OffsetLimit(items, (page - 1) * size, size), |items|, page, size))
  {
    ProductMonotone(0, page - 1, size);
    SliceIsOffsetLimit(items, (page - 1) * size, size);
  }

  lemma SliceIsOffsetLimit<T>(items: seq<T>, offset: nat, limit: nat)
    ensures Slice(items, offset, offset + limit) == OffsetLimit(items, offset, limit)
  {
    if offset < |items| && offset + limit >= |items| {
      assert items[offset..] == items[offset..|items|];
    }
  }

  /**
   * paginate_list does not check the page: page 0 is empty, negative pages are read from the end of the list. Every one
   * of them claims a next page, except page 0 of an empty list.
   */
  lemma PagesBelowOne<T>(items: seq<T>, page: int, size: pos)
    requires page <= 0
    ensures PaginateList(items, page, size).Success?
    ensures PaginateList(items, page, size).value.items ==
            FromEnd(items, if page == 0 then |items| else -page * size, size)
    ensures PaginateList(items, page, size).value.hasNext <==> (items != [] || page < 0)
  {
    assert (page - 1) * size == page * size - size;
    assert page * size == -(-page * size);
    if page == 0 {
      SliceFromEnd(items, size, size);
    } else {
      ProductMonotone(1, -page, size);
      SliceFromEnd(items, -page * size + size, size);
    }
    PageCount(|items|, size);
    if items != [] && TotalPages(|items|, size) <= 0 {
      ProductMonotone(TotalPages(|items|, size), 0, size);
    }
  }

  /** The at most size items that end skip places before the end of the list. */
  function FromEnd<T>(items: seq<T>, skip: nat, size: nat): seq<T> {
    if skip >= |items| then []
    else OffsetLimit(items[..|items| - skip], if skip + size <= |items| then |items| - skip - size else 0, size)
  }

  lemma SliceFromEnd<T>(items: seq<T>, back: nat, size: pos)
    requires back >= size
    ensures Slice(items, -(back as int), -(back as int) + size) ==
            FromEnd(items, if back == size then |items| else back - size, size)
  {
  }
}
