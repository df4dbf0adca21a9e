/** The pagination arithmetic of the report listings: `getPagination` turns
    the `page`/`size` query values into LIMIT and OFFSET, `getPagingData`
    wraps one fetched page with its totals, and `Window` is what the store
    does with LIMIT and OFFSET. */
module Paging {
  import opened Common

  const DefaultLimit: nat := 10

  datatype Paging = Paging(limit: nat, offset: nat)

  datatype PagingData<+T> = PagingData(
    totalItems: nat,
    rows: seq<T>,
    totalPages: nat,
    currentPage: nat)

  /** The page a request asks for; no `page` value means the first page. */
  function PageOr1(page: Option<nat>): nat
  {
    if page.Some? then page.value else 1
  }

  /** `getPagination`: `size` (default 10) is the page length and `page`
      counts from 1, so page k starts after k - 1 full pages. */
  function GetPagination(page: Option<nat>, size: Option<nat>): (p: Paging)
    requires page.Some? ==> page.value >= 1
    requires size.Some? ==> size.value >= 1
    ensures p.limit >= 1
    ensures p.limit == if size.Some? then size.value else DefaultLimit
    ensures p.offset == (PageOr1(page) - 1) * p.limit
    ensures page.None? || page == Some(1) ==> p.offset == 0
  {
    var limit := if size.Some? then size.value else DefaultLimit;
    var offset := if page.Some? then (page.value - 1) * limit else 0;
    Paging(limit, offset)
  }

  /** `Math.ceil(totalItems / limit)` on exact integers. */
  function CeilDiv(total: nat, limit: nat): (pages: nat)
    requires limit >= 1
    ensures pages * limit >= total
    ensures pages == 0 || (pages - 1) * limit < total
  {
    var q := (total + limit - 1) / limit;
    var m := (total + limit - 1) % limit;
    assert q * limit + m == total + limit - 1;
    assert (q - 1) * limit == q * limit - limit;
    q
  }

  /** `getPagingData`: the count and the fetched rows, the number of pages
      of `limit` rows that hold them all, and the page asked for. */
  function GetPagingData<T>(totalItems: nat, rows: seq<T>, page: Option<nat>, limit: nat)
    : (d: PagingData<T>)
    requires limit >= 1
    ensures d.totalItems == totalItems && d.rows == rows
    ensures d.currentPage == PageOr1(page)
    ensures d.totalPages * limit >= totalItems
    ensures d.totalPages == 0 || (d.totalPages - 1) * limit < totalItems
    ensures totalItems == 0 <==> d.totalPages == 0
  {
    PagingData(totalItems, rows, CeilDiv(totalItems, limit), PageOr1(page))
  }

  /** The rows the store returns for LIMIT `p.limit` OFFSET `p.offset`. */
  function Window<T>(items: seq<T>, p: Paging): (w: seq<T>)
    ensures |w| <= p.limit
    ensures p.offset < |items| ==> |w| == Min(p.limit, |items| - p.offset)
    ensures p.offset >= |items| ==> w == []
    ensures forall i :: 0 <= i < |w| ==> w[i] == items[p.offset + i]
    ensures forall x :: x in w ==> x in items
  {
    if p.offset >= |items| then [] else items[p.offset..Min(p.offset + p.limit, |items|)]
  }

  function Min(a: int, b: int): int
  {
    if a <= b then a else b
  }

  /** The first `k` pages laid end to end. */
  function FirstPages<T>(items: seq<T>, size: nat, k: nat): seq<T>
    requires size >= 1
  {
    if k == 0 then []
    else FirstPages(items, size, k - 1) + Window(items, GetPagination(Some(k), Some(size)))
  }

  /** The first `k` pages are exactly the first `k * size` items. */
  lemma {:induction false} FirstPagesArePrefix<T>(items: seq<T>, size: nat, k: nat)
    requires size >= 1
    ensures FirstPages(items, size, k) == items[..Min(k * size, |items|)]
  {
    if k > 0 {
      FirstPagesArePrefix(items, size, k - 1);
      var start := (k - 1) * size;
      assert GetPagination(Some(k), Some(size)) == Paging(size, start);
      assert k * size == start + size;
      NextPageExtendsPrefix(items, start, size);
    }
  }

  /** The prefix up to `start`, followed by the page of `size` items that
      begins there, is the prefix up to `start + size`. */
  lemma NextPageExtendsPrefix<T>(items: seq<T>, start: nat, size: nat)
    ensures items[..Min(start, |items|)] + Window(items, Paging(size, start))
            == items[..Min(start + size, |items|)]
  {
    if start < |items| {
      var end := Min(start + size, |items|);
      assert items[..end] == items[..start] + items[start..end];
    }
  }

  /** Pages 1 to `totalPages` of `getPagingData` cover the listing: laid end
      to end they are the whole sequence, each item once and in order. */
  lemma PagesCoverListing<T>(items: seq<T>, size: nat)
    requires size >= 1
    ensures FirstPages(items, size, GetPagingData(|items|, items, None, size).totalPages) == items
  {
    var n := GetPagingData(|items|, items, None, size).totalPages;
    FirstPagesArePrefix(items, size, n);
  }

  /** Every page up to `totalPages` holds `size` items except the last,
      which holds the remainder and is never empty; later pages are empty. */
  lemma PageLengths<T>(items: seq<T>, size: nat, k: nat)
    requires size >= 1 && k >= 1
    ensures var pages := GetPagingData(|items|, items, Some(k), size).totalPages;
            var w := Window(items, GetPagination(Some(k), Some(size)));
            && (k < pages ==> |w| == size)
            && (k == pages ==> |w| == |items| - (pages - 1) * size && |w| >= 1)
            && (k > pages ==> w == [])
  {
    var n := |items|;
    var pages := CeilDiv(n, size);
    var offset := (k - 1) * size;
    assert GetPagination(Some(k), Some(size)) == Paging(size, offset);
    if k < pages {
      MulMonotone(k, pages - 1, size);
      assert offset + size == k * size;
    } else if k > pages {
      MulMonotone(pages, k - 1, size);
    }
  }

  lemma MulMonotone(a: nat, b: nat, c: nat)
    requires a <= b
    ensures a * c <= b * c
  {
    var d := b - a;
    assert b * c == a * c + d * c;
  }

  /** The worked case: 25 items in pages of 10 make 3 pages, the first
      holding 10 items and the third 5. */
  lemma TwentyFiveItemsInPagesOfTen<T>(items: seq<T>)
    requires |items| == 25
    ensures GetPagingData(|items|, items, Some(3), 10).totalPages == 3
    ensures |Window(items, GetPagination(Some(1), Some(10)))| == 10
    ensures |Window(items, GetPagination(Some(3), Some(10)))| == 5
  {
    PageLengths(items, 10, 1);
    PageLengths(items, 10, 3);
  }
}
