/** Paging by hand, as the notification service does it on 64-bit integers. */
module Paging {
  import opened Prelude

  /** A Go slice of pointers cannot be longer. */
  const MAX_LENGTH := 0x1000_0000_0000_0000

  /** The page asked for, or a run-time panic on a slice expression out of range. */
  datatype Outcome<T> = Page(items: seq<T>) | Panic

  /** getPagination, after the two query parameters were read as integers. */
  method ClampPagination(pageParam: int, limitParam: int) returns (page: int, limit: int)
    requires IsInt64(pageParam) && IsInt64(limitParam)
    ensures 1 <= page <= INT64_MAX && 1 <= limit <= 100
    ensures page == pageParam <==> pageParam >= 1
    ensures pageParam < 1 ==> page == 1
    ensures limit == limitParam <==> 1 <= limitParam <= 100
    ensures !(1 <= limitParam <= 100) ==> limit == 20
  {
    page, limit := pageParam, limitParam;
    if page < 1 {
      page := 1;
    }
    if limit < 1 || limit > 100 {
      limit := 20;
    }
  }

  predicate Clamped(page: int, limit: int) {
    1 <= page <= INT64_MAX && 1 <= limit <= 100
  }

  /** At most limit items from a position on. */
  function From<T>(items: seq<T>, start: nat, limit: nat): (r: seq<T>)
    ensures |r| <= limit
  {
    if start >= |items| then [] else items[start..if start + limit > |items| then |items| else start + limit]
  }

  /** The items of a page, on unbounded integers. */
  function Slice<T>(items: seq<T>, page: int, limit: int): (r: seq<T>)
    requires page >= 1 && limit >= 1
    ensures |r| <= limit
  {
    OffsetNatural(page, limit);
    From(items, (page - 1) * limit, limit)
  }

  /** What the code serves: the items from the offset on, as a machine word holds it. */
  function Served<T>(items: seq<T>, page: int, limit: int): Outcome<T>
    requires Clamped(page, limit)
  {
    var start := Wrap64((page - 1) * limit);
    if start < 0 then Panic else Page(From(items, start, limit))
  }

  /** Whether the machine word holds the offset of the page, or one past the end of the list. */
  predicate OffsetHolds(length: nat, page: int, limit: int) {
    var offset := (page - 1) * limit;
    IsInt64(offset) || Wrap64(offset) >= length
  }

  /** The page is right exactly when its offset survives 64-bit arithmetic, or wraps past the end of the list. */
  method Paginate<T(==)>(items: seq<T>, page: int, limit: int) returns (r: Outcome<T>)
    requires Clamped(page, limit) && |items| < MAX_LENGTH
    ensures r == Served(items, page, limit)
    ensures r == Page(Slice(items, page, limit)) <==> OffsetHolds(|items|, page, limit)
    ensures r == Panic <==> Wrap64((page - 1) * limit) < 0
  {
    var start := Wrap64((page - 1) * limit);
    var end := Wrap64(start + limit);
    ServedExactly(items, page, limit);
    if start >= |items| {
      return Page([]);
    }
    if end > |items| {
      end := |items|;
    }
    if start < 0 || end < start {
      return Panic;
    }
    r := Page(items[start..end]);
  }

  lemma ServedExactly<T>(items: seq<T>, page: int, limit: int)
    requires Clamped(page, limit) && |items| < MAX_LENGTH
    ensures Served(items, page, limit) == Page(Slice(items, page, limit)) <==> OffsetHolds(|items|, page, limit)
  {
    OffsetNatural(page, limit);
    var offset := (page - 1) * limit;
    var start := Wrap64(offset);
    if !OffsetHolds(|items|, page, limit) && start >= 0 {
      assert offset > INT64_MAX && Slice(items, page, limit) == [];
      assert |From(items, start, limit)| > 0;
    }
  }

  lemma OffsetNatural(page: int, limit: int)
    requires page >= 1 && limit >= 1
    ensures (page - 1) * limit >= 0
  {
  }

  /** The caller's check: page times limit fits in an int. */
  lemma FittingProductHolds(length: nat, page: int, limit: int)
    requires Clamped(page, limit) && IsInt64(page * limit)
    ensures OffsetHolds(length, page, limit)
  {
    assert (page - 1) * limit == page * limit - limit;
    OffsetNatural(page, limit);
  }

  /** A page number a query string can carry, for which every list panics. */
  lemma LargePagePanics()
    ensures Clamped(92233720368547760, 100) && Wrap64((92233720368547760 - 1) * 100) < 0
  {
  }

  /** Pages 1..n, one after the other. */
  function Pages<T>(items: seq<T>, limit: int, n: nat): seq<T>
    requires limit >= 1
  {
    if n == 0 then [] else Pages(items, limit, n - 1) + Slice(items, n, limit)
  }

  function Least(a: int, b: int): int {
    if a < b then a else b
  }

  /** A page continues where the one before it stopped. */
  lemma SliceContinues<T>(items: seq<T>, limit: int, n: nat)
    requires limit >= 1 && n >= 1
    ensures 0 <= (n - 1) * limit <= n * limit
    ensures items[..Least((n - 1) * limit, |items|)] + Slice(items, n, limit) == items[..Least(n * limit, |items|)]
  {
    OffsetNatural(n, limit);
    assert n * limit == (n - 1) * limit + limit;
  }

  lemma {:induction false} PagesArePrefix<T>(items: seq<T>, limit: int, n: nat)
    requires limit >= 1
    ensures n * limit >= 0
    ensures Pages(items, limit, n) == items[..Least(n * limit, |items|)]
  {
    if n == 0 {
    } else {
      PagesArePrefix(items, limit, n - 1);
      SliceContinues(items, limit, n);
    }
  }

  function PageCount(total: nat, limit: int): nat
    requires limit >= 1
  {
    (total + limit - 1) / limit
  }

  lemma PageCountCovers(total: nat, limit: int)
    requires limit >= 1
    ensures PageCount(total, limit) * limit >= total
    ensures total > 0 ==> (PageCount(total, limit) - 1) * limit < total
  {
    var q, r := (total + limit - 1) / limit, (total + limit - 1) % limit;
    assert total + limit - 1 == q * limit + r && 0 <= r < limit;
    assert (q - 1) * limit == q * limit - limit;
  }

  /** Pages 1..ceil(total/limit) are the whole list in order, none of them empty; later pages are empty. */
  lemma PagesCoverList<T>(items: seq<T>, limit: int)
    requires limit >= 1
    ensures Pages(items, limit, PageCount(|items|, limit)) == items
    ensures forall page :: 1 <= page <= PageCount(|items|, limit) ==> Slice(items, page, limit) != []
    ensures forall page :: page > PageCount(|items|, limit) ==> Slice(items, page, limit) == []
  {
    var n := PageCount(|items|, limit);
    PagesArePrefix(items, limit, n);
    PageCountCovers(|items|, limit);
    forall page | 1 <= page <= n
      ensures Slice(items, page, limit) != []
    {
      MulMonotone(page - 1, n - 1, limit);
      OffsetNatural(page, limit);
    }
    forall page | page > n
      ensures Slice(items, page, limit) == []
    {
      MulMonotone(n, page - 1, limit);
    }
  }

  lemma MulMonotone(a: int, b: int, k: int)
    requires a <= b && k >= 0
    ensures a * k <= b * k
  {
  }
}
