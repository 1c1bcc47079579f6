/**
  The offset pagination of the gRPC getAllPrices call: the defaulting of page
  and size, the slice, and the echoed page, size and total count.
 */
module Pagination {

  const INT32_MIN: int := -0x8000_0000
  const INT32_MAX: int := 0x7fff_ffff

  predicate IsInt32(x: int)
  {
    INT32_MIN <= x <= INT32_MAX
  }

  /** Java int arithmetic: the two's-complement wrap-around of a mathematical result. */
  function Wrap32(x: int): (r: int)
    ensures IsInt32(r)
    ensures IsInt32(x) ==> r == x
    ensures (r - x) % 0x1_0000_0000 == 0
  {
    (x - INT32_MIN) % 0x1_0000_0000 + INT32_MIN
  }

  function Min(a: int, b: int): int
  {
    if a <= b then a else b
  }

  /** The page actually served: the requested one when positive, otherwise the first. */
  function EffectivePage(requested: int): (page: int)
    ensures page >= 1
    ensures requested > 0 ==> page == requested
    ensures requested <= 0 ==> page == 1
  {
    if requested > 0 then requested else 1
  }

  /** The page size actually used: the requested one when positive, otherwise the whole list. */
  function EffectiveSize(requested: int, total: nat): (size: int)
    ensures size >= 0
    ensures requested > 0 ==> size == requested
    ensures requested <= 0 ==> size == total
  {
    if requested > 0 then requested else total
  }

  /** What getAllPrices answers, before the prices are converted to messages. */
  datatype Page<T> = Page(items: seq<T>, totalCount: int, page: int, size: int)

  /** The as-written computation either answers or throws from subList (mapped to INTERNAL). */
  datatype PageOutcome<T> = Served(answer: Page<T>) | SubListOutOfBounds

  /**
    The slice as the source computes it, in 32-bit int arithmetic: the start
    index (page - 1) * size and the end candidate start + size both wrap.
   */
  function PaginateAsWritten<T>(items: seq<T>, requestedPage: int, requestedSize: int): (r: PageOutcome<T>)
    requires |items| <= INT32_MAX && IsInt32(requestedPage) && IsInt32(requestedSize)
    ensures r.Served? ==> r.answer.totalCount == |items|
  {
    var page := EffectivePage(requestedPage);
    var size := EffectiveSize(requestedSize, |items|);
    var start := Wrap32((page - 1) * size);
    var end := Min(Wrap32(start + size), |items|);
    if start < |items| then
      if 0 <= start <= end then Served(Page(items[start..end], |items|, page, size))
      else SubListOutOfBounds
    else Served(Page([], |items|, page, size))
  }

  /** The slice with exact arithmetic: items [(page-1)*size, min((page-1)*size + size, n)), or none. */
  function Paginate<T>(items: seq<T>, requestedPage: int, requestedSize: int): (r: Page<T>)
    ensures r.totalCount == |items|
    ensures r.page == EffectivePage(requestedPage) && r.size == EffectiveSize(requestedSize, |items|)
    ensures |r.items| <= r.size
    ensures (r.page - 1) * r.size >= |items| ==> r.items == []
  {
    var page := EffectivePage(requestedPage);
    var size := EffectiveSize(requestedSize, |items|);
    var start := (page - 1) * size;
    var end := Min(start + size, |items|);
    if start < |items| then Page(items[start..end], |items|, page, size)
    else Page([], |items|, page, size)
  }

  /** Neither the start index nor the end candidate of the slice leaves the int range. */
  predicate NoOverflow(total: nat, requestedPage: int, requestedSize: int)
  {
    var page := EffectivePage(requestedPage);
    var size := EffectiveSize(requestedSize, total);
    IsInt32((page - 1) * size) && IsInt32((page - 1) * size + size)
  }

  /** Where no int overflows, the source computes exactly the intended page. */
  lemma AsWrittenAgreesWithoutOverflow<T>(items: seq<T>, requestedPage: int, requestedSize: int)
    requires |items| <= INT32_MAX && IsInt32(requestedPage) && IsInt32(requestedSize)
    requires NoOverflow(|items|, requestedPage, requestedSize)
    ensures PaginateAsWritten(items, requestedPage, requestedSize) == Served(Paginate(items, requestedPage, requestedSize))
  {
    var page := EffectivePage(requestedPage);
    var size := EffectiveSize(requestedSize, |items|);
    assert 0 <= (page - 1) * size by {
      NonNegativeProduct(page - 1, size);
    }
  }

  lemma NonNegativeProduct(a: int, b: int)
    requires 0 <= a && 0 <= b
    ensures 0 <= a * b
  {
  }

  /**
    Page 2^30 of size 4 over one price lies past the end and should be empty,
    but (2^30 - 1) * 4 wraps to -4 and subList(-4, 0) throws.
   */
  lemma OverflowedPageThrows<T>(x: T)
    ensures PaginateAsWritten([x], 0x4000_0000, 4) == SubListOutOfBounds
    ensures Paginate([x], 0x4000_0000, 4) == Page([], 1, 0x4000_0000, 4)
  {
    assert Wrap32((0x4000_0000 - 1) * 4) == -4;
  }

  /** A page number of zero or below is served as the first page. */
  lemma NonPositivePageIsFirstPage<T>(items: seq<T>, requestedPage: int, requestedSize: int)
    requires requestedPage <= 0
    ensures Paginate(items, requestedPage, requestedSize) == Paginate(items, 1, requestedSize)
  {
  }

  /** A size of zero or below means no paging: the first page holds every item. */
  lemma NonPositiveSizeIsWholeList<T>(items: seq<T>, requestedSize: int)
    requires requestedSize <= 0
    ensures Paginate(items, 1, requestedSize) == Page(items, |items|, 1, |items|)
  {
    assert items[0..|items|] == items;
  }

  /** A page past the last one is empty and still reports the full count. */
  lemma PagePastEndIsEmpty<T>(items: seq<T>, page: int, size: int)
    requires size > 0 && page > 0
    requires (page - 1) * size >= |items|
    ensures Paginate(items, page, size) == Page([], |items|, page, size)
  {
  }

  /** The first page of a single-element list, page and size left at 0. */
  lemma SinglePriceDefaults<T>(x: T)
    ensures Paginate([x], 0, 0) == Page([x], 1, 1, 1)
  {
  }

  /** Pages 1..k of a fixed size, one after the other. */
  function PagesUpTo<T>(items: seq<T>, size: int, k: nat): seq<T>
    requires size > 0
  {
    if k == 0 then [] else PagesUpTo(items, size, k - 1) + Paginate(items, k, size).items
  }

  /** Pages 1..k together are exactly the first min(k * size, n) items, in order. */
  lemma {:induction false} PagesUpToIsPrefix<T>(items: seq<T>, size: int, k: nat)
    requires size > 0
    ensures PagesUpTo(items, size, k) == items[..Min(k * size, |items|)]
  {
    if k > 0 {
      PagesUpToIsPrefix(items, size, k - 1);
      var start := (k - 1) * size;
      assert k * size == start + size;
      NonNegativeProduct(k - 1, size);
      if start < |items| {
        assert items[..start] + items[start..Min(start + size, |items|)] == items[..Min(k * size, |items|)];
      }
    }
  }

  /**
    For a fixed positive size, pages 1..ceil(n / size) reproduce the list:
    every item once, in order, with no gaps and no duplicates.
   */
  lemma AllPagesReproduceList<T>(items: seq<T>, size: int)
    requires size > 0
    ensures PagesUpTo(items, size, (|items| + size - 1) / size) == items
  {
    var k := (|items| + size - 1) / size;
    PagesUpToIsPrefix(items, size, k);
    CeilingCovers(|items|, size);
    assert items[..|items|] == items;
  }

  /** ceil(n / size) pages of the given size cover n items. */
  lemma CeilingCovers(n: nat, size: int)
    requires size > 0
    ensures ((n + size - 1) / size) * size >= n
  {
    var q := n + size - 1;
    assert q == (q / size) * size + q % size;
    assert q % size < size;
  }
}
