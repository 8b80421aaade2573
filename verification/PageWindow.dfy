/** The page-window builder of the admin console's pagination control. */
module PageWindow {

  datatype Entry = Number(n: int) | Ellipsis

  /** Numbers rise from first to last; neighbours follow each other, or an ellipsis stands for what is left out. */
  predicate IsWindow(pages: seq<Entry>, first: int, last: int) {
    && pages != [] && pages[0] == Number(first) && pages[|pages| - 1] == Number(last)
    && (forall i :: 0 <= i < |pages| - 1 && pages[i].Number? && pages[i + 1].Number? ==>
          pages[i + 1].n == pages[i].n + 1)
    && (forall i :: 0 < i < |pages| - 1 && pages[i].Ellipsis? ==>
          pages[i - 1].Number? && pages[i + 1].Number? && pages[i + 1].n > pages[i - 1].n + 1)
  }

  lemma {:induction false} WindowRises(pages: seq<Entry>, first: int, last: int, i: nat, j: nat)
    requires IsWindow(pages, first, last) && i < j < |pages|
    requires pages[i].Number? && pages[j].Number?
    ensures pages[i].n < pages[j].n
    decreases j - i
  {
    if pages[i + 1].Ellipsis? {
      if i + 2 < j { WindowRises(pages, first, last, i + 2, j); }
    } else if i + 1 < j {
      WindowRises(pages, first, last, i + 1, j);
    }
  }

  function Consecutive(low: int, count: nat): (r: seq<Entry>)
    ensures |r| == count && forall i :: 0 <= i < count ==> r[i] == Number(low + i)
  {
    seq(count, i => Number(low + i))
  }

  function Gap(open: bool): seq<Entry> {
    if open then [Ellipsis] else []
  }

  /** Entry i of an assembled window. */
  function EntryAt(i: int, low: int, high: int, last: int): Entry {
    var left := if low > 2 then 2 else 1;
    if i == 0 then Number(1)
    else if i < left then Ellipsis
    else if i <= left + high - low then Number(low + i - left)
    else if high < last - 1 && i == left + high + 1 - low then Ellipsis
    else Number(last)
  }

  lemma AssembledEntries(pages: seq<Entry>, low: int, high: int, last: int)
    requires 2 <= low <= high < last
    requires pages == [Number(1)] + Gap(low > 2) + Consecutive(low, high + 1 - low)
      + Gap(high < last - 1) + [Number(last)]
    ensures |pages| == high - low + 3 + (if low > 2 then 1 else 0) + (if high < last - 1 then 1 else 0)
    ensures forall i :: 0 <= i < |pages| ==> pages[i] == EntryAt(i, low, high, last)
  {
  }

  /** First page, a run of pages around the current one, last page: gaps exactly where pages are left out. */
  lemma Assembled(pages: seq<Entry>, low: int, high: int, last: int)
    requires 2 <= low <= high < last
    requires pages == [Number(1)] + Gap(low > 2) + Consecutive(low, high + 1 - low)
      + Gap(high < last - 1) + [Number(last)]
    ensures IsWindow(pages, 1, last)
  {
    AssembledEntries(pages, low, high, last);
  }

  function Low(page: int): int {
    if 2 > page - 1 then 2 else page - 1
  }

  function High(page: int, totalPages: int): int {
    if totalPages - 1 < page + 1 then totalPages - 1 else page + 1
  }

  function Head(page: int): seq<Entry> {
    [Number(1)] + Gap(page > 3)
  }

  /** The window around a page of many. */
  function Around(page: int, totalPages: int): seq<Entry>
    requires totalPages > 7 && 1 <= page <= totalPages
  {
    Head(page) + Consecutive(Low(page), High(page, totalPages) + 1 - Low(page))
    + Gap(page < totalPages - 2) + [Number(totalPages)]
  }

  /** The first page, the last, the current one and its neighbours. */
  predicate Shows(k: int, page: int, totalPages: int) {
    k == 1 || k == totalPages || (1 <= k <= totalPages && page - 1 <= k <= page + 1)
  }

  lemma AroundShows(page: int, totalPages: int, k: int)
    requires totalPages > 7 && 1 <= page <= totalPages
    ensures Number(k) in Around(page, totalPages) <==> Shows(k, page, totalPages)
  {
    var pages, low, high := Around(page, totalPages), Low(page), High(page, totalPages);
    var middle := Consecutive(low, high + 1 - low);
    if k == 1 {
      assert pages[0] == Number(k);
    } else if k == totalPages {
      assert pages[|pages| - 1] == Number(k);
    } else if low <= k <= high {
      assert pages[|Head(page)| + k - low] == Number(k);
    } else {
      assert Number(k) !in middle;
    }
  }

  lemma AroundIsWindow(page: int, totalPages: int)
    requires totalPages > 7 && 1 <= page <= totalPages
    ensures IsWindow(Around(page, totalPages), 1, totalPages) && |Around(page, totalPages)| <= 7
    ensures Number(page) in Around(page, totalPages)
  {
    var pages, low := Around(page, totalPages), Low(page);
    Assembled(pages, low, High(page, totalPages), totalPages);
    if page == 1 {
      assert pages[0] == Number(1);
    } else if page == totalPages {
      assert pages[|pages| - 1] == Number(totalPages);
    } else {
      assert pages[|Head(page)| + page - low] == Number(page);
    }
  }

  lemma AllIsWindow(totalPages: int)
    requires totalPages >= 2
    ensures IsWindow(Consecutive(1, totalPages), 1, totalPages)
  {
  }

  lemma OneMore(low: int, count: nat)
    ensures Consecutive(low, count) + [Number(low + count)] == Consecutive(low, count + 1)
  {
  }

  /**
   From 1 to totalPages, containing the current page, at most seven entries, and
   an ellipsis between two neighbours exactly when at least one page is left out.
   */
  method GetPages(page: int, totalPages: int) returns (pages: seq<Entry>)
    requires totalPages >= 2 && 1 <= page <= totalPages
    ensures IsWindow(pages, 1, totalPages)
    ensures Number(page) in pages
    ensures |pages| <= 7
    ensures totalPages <= 7 ==> |pages| == totalPages && Ellipsis !in pages
    ensures page > 1 ==> Number(page - 1) in pages
    ensures page < totalPages ==> Number(page + 1) in pages
    ensures totalPages > 7 ==> forall k :: Number(k) in pages <==> Shows(k, page, totalPages)
  {
    pages := [];
    if totalPages <= 7 {
      for i := 1 to totalPages + 1
        invariant pages == Consecutive(1, i - 1)
      {
        OneMore(1, i - 1);
        pages := pages + [Number(i)];
      }
      AllIsWindow(totalPages);
      assert pages[page - 1] == Number(page);
      assert page > 1 ==> pages[page - 2] == Number(page - 1);
      assert page < totalPages ==> pages[page] == Number(page + 1);
    } else {
      pages := pages + [Number(1)];
      if page > 3 {
        pages := pages + [Ellipsis];
      }
      var low, high := Low(page), High(page, totalPages);
      assert pages == Head(page) + Consecutive(low, 0);
      for i := low to high + 1
        invariant pages == Head(page) + Consecutive(low, i - low)
      {
        OneMore(low, i - low);
        pages := pages + [Number(i)];
      }
      if page < totalPages - 2 {
        pages := pages + [Ellipsis];
      }
      pages := pages + [Number(totalPages)];
      assert pages == Around(page, totalPages);
      AroundIsWindow(page, totalPages);
      forall k
        ensures Number(k) in pages <==> Shows(k, page, totalPages)
      {
        AroundShows(page, totalPages, k);
      }
    }
  }
}
