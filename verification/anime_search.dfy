/** The anime search page: the pagination bar under the results (at most five page
    numbers around the current page, with links to the first and last page, ellipses and
    previous/next arrows), and the guard that skips a search already made. */
module AnimeSearch {

  import opened Wrappers
  import opened Text
  import opened Numbers

  // ---- the pagination bar ----

  const MaxVisiblePages: int := 5

  /** One element of the bar, in the order the page pushes them; a link carries the page
      it leads to. */
  datatype PageControl =
    | Previous(target: int)
    | FirstPage
    | LeadingDots
    | PageNumber(number: int, active: bool)
    | TrailingDots
    | LastPage(number: int)
    | Next(target: int)

  /** `startPage` and `endPage` of the window. */
  function Window(currentPage: int, totalPages: int): (int, int) {
    var start := Max(currentPage - MaxVisiblePages / 2, 1);
    var end := Min(start + MaxVisiblePages - 1, totalPages);
    if end - start < MaxVisiblePages - 1 then (Max(end - MaxVisiblePages + 1, 1), end) else (start, end)
  }

  function Max(a: int, b: int): int { if a >= b then a else b }
  function Min(a: int, b: int): int { if a <= b then a else b }

  /** With more than one page, the window lies within 1..totalPages and holds five pages,
      or all of them when there are fewer; it holds the current page whenever that page
      exists. */
  lemma WindowBounds(currentPage: int, totalPages: int)
    requires totalPages > 1
    ensures var (start, end) := Window(currentPage, totalPages);
      1 <= start <= end <= totalPages &&
      end - start + 1 == Min(MaxVisiblePages, totalPages) &&
      (1 <= currentPage <= totalPages ==> start <= currentPage <= end)
  {
  }

  /** The page numbers from `lo` to `hi`, the one equal to `currentPage` active. */
  function PageNumbers(lo: int, hi: int, currentPage: int): (r: seq<PageControl>)
    ensures |r| == if hi >= lo then hi - lo + 1 else 0
    decreases hi + 1 - lo
  {
    if lo > hi then [] else [PageNumber(lo, lo == currentPage)] + PageNumbers(lo + 1, hi, currentPage)
  }

  /** The `k`th entry is page `lo + k`. */
  lemma {:induction false} PageNumbersAt(lo: int, hi: int, currentPage: int)
    ensures forall k :: 0 <= k < |PageNumbers(lo, hi, currentPage)| ==>
      (PageNumbers(lo, hi, currentPage)[k] == PageNumber(lo + k, lo + k == currentPage))
    decreases hi + 1 - lo
  {
    if lo <= hi {
      PageNumbersAt(lo + 1, hi, currentPage);
    }
  }

  /** The controls before the page numbers. */
  function Head(currentPage: int, start: int): seq<PageControl> {
    (if currentPage > 1 then [Previous(currentPage - 1)] else []) +
    (if start > 1 then [FirstPage] + (if start > 2 then [LeadingDots] else []) else [])
  }

  /** The controls after the page numbers. */
  function Tail(currentPage: int, totalPages: int, end: int): seq<PageControl> {
    (if end < totalPages then (if end < totalPages - 1 then [TrailingDots] else []) + [LastPage(totalPages)] else []) +
    (if currentPage < totalPages then [Next(currentPage + 1)] else [])
  }

  /** The whole bar; None when there is at most one page. */
  function Controls(currentPage: int, totalPages: int): Option<seq<PageControl>> {
    if totalPages <= 1 then None
    else
      var (start, end) := Window(currentPage, totalPages);
      Some(Bar(currentPage, totalPages, start, end))
  }

  /** The controls for the window `start`..`end`. */
  function Bar(currentPage: int, totalPages: int, start: int, end: int): seq<PageControl> {
    Head(currentPage, start) + PageNumbers(start, end, currentPage) + Tail(currentPage, totalPages, end)
  }

  /** `renderPaginationControls()`: the window, then the controls pushed in order, the page
      numbers by a loop. */
  method RenderPaginationControls(currentPage: int, totalPages: int) returns (pages: Option<seq<PageControl>>)
    ensures pages == Controls(currentPage, totalPages)
  {
    if totalPages <= 1 {
      return None;
    }
    var (startPage, endPage) := Window(currentPage, totalPages);
    var controls: seq<PageControl> := [];
    if currentPage > 1 {
      controls := controls + [Previous(currentPage - 1)];
    }
    if startPage > 1 {
      controls := controls + [FirstPage];
      if startPage > 2 {
        controls := controls + [LeadingDots];
      }
    }
    assert controls == Head(currentPage, startPage);
    var head := controls;
    var i := startPage;
    while i <= endPage
      invariant startPage <= i <= endPage + 1
      invariant controls == head + PageNumbers(startPage, i - 1, currentPage)
      decreases endPage - i
    {
      PageNumbersSnoc(startPage, i, currentPage);
      AppendAssoc(head, PageNumbers(startPage, i - 1, currentPage), [PageNumber(i, i == currentPage)]);
      controls := controls + [PageNumber(i, i == currentPage)];
      i := i + 1;
    }
    var body := controls;
    assert body == Head(currentPage, startPage) + PageNumbers(startPage, endPage, currentPage);
    if endPage < totalPages {
      if endPage < totalPages - 1 {
        controls := controls + [TrailingDots];
      }
      controls := controls + [LastPage(totalPages)];
    }
    if currentPage < totalPages {
      controls := controls + [Next(currentPage + 1)];
    }
    assert controls == body + Tail(currentPage, totalPages, endPage);
    assert controls == Bar(currentPage, totalPages, startPage, endPage);
    pages := Some(controls);
  }

  /** Pages numbered `lo`..`hi - 1` followed by page `hi`. */
  lemma {:induction false} PageNumbersSnoc(lo: int, hi: int, currentPage: int)
    requires lo <= hi
    ensures PageNumbers(lo, hi, currentPage) == PageNumbers(lo, hi - 1, currentPage) + [PageNumber(hi, hi == currentPage)]
  {
    var a := PageNumbers(lo, hi, currentPage);
    var b := PageNumbers(lo, hi - 1, currentPage) + [PageNumber(hi, hi == currentPage)];
    assert |a| == |b|;
    PageNumbersAt(lo, hi, currentPage);
    PageNumbersAt(lo, hi - 1, currentPage);
    forall k | 0 <= k < |a| ensures a[k] == b[k] {
      if k < |a| - 1 {
        assert b[k] == PageNumbers(lo, hi - 1, currentPage)[k];
      }
    }
  }

  /** Which controls the bar holds: the arrows follow the current page, the links to the
      first and last page and the ellipses follow the window, and within the window only
      the current page is active. */
  lemma ControlsProps(currentPage: int, totalPages: int)
    requires totalPages > 1
    ensures var (start, end) := Window(currentPage, totalPages);
      var c := Controls(currentPage, totalPages).value;
      (Previous(currentPage - 1) in c <==> currentPage > 1) &&
      (Next(currentPage + 1) in c <==> currentPage < totalPages) &&
      (FirstPage in c <==> start > 1) &&
      (LeadingDots in c <==> start > 2) &&
      (LastPage(totalPages) in c <==> end < totalPages) &&
      (TrailingDots in c <==> end < totalPages - 1) &&
      (forall n :: PageNumber(n, true) in c <==> n == currentPage && start <= n <= end) &&
      (forall n :: PageNumber(n, false) in c <==> n != currentPage && start <= n <= end)
  {
    var (start, end) := Window(currentPage, totalPages);
    assert Controls(currentPage, totalPages).value == Bar(currentPage, totalPages, start, end);
    BarLinks(currentPage, totalPages, start, end);
    BarPages(currentPage, totalPages, start, end);
  }

  lemma BarLinks(currentPage: int, totalPages: int, start: int, end: int)
    ensures var c := Bar(currentPage, totalPages, start, end);
      (Previous(currentPage - 1) in c <==> currentPage > 1) &&
      (Next(currentPage + 1) in c <==> currentPage < totalPages) &&
      (FirstPage in c <==> start > 1) &&
      (LeadingDots in c <==> start > 2) &&
      (LastPage(totalPages) in c <==> end < totalPages) &&
      (TrailingDots in c <==> end < totalPages - 1)
  {
    BarParts(currentPage, totalPages, start, end);
    BarHeadLinks(currentPage, totalPages, start, end);
    BarTailLinks(currentPage, totalPages, start, end);
  }

  lemma BarHeadLinks(currentPage: int, totalPages: int, start: int, end: int)
    ensures var c := Head(currentPage, start) + PageNumbers(start, end, currentPage) + Tail(currentPage, totalPages, end);
      (Previous(currentPage - 1) in c <==> currentPage > 1) &&
      (FirstPage in c <==> start > 1) &&
      (LeadingDots in c <==> start > 2)
  {
    var h, p, t := Head(currentPage, start), PageNumbers(start, end, currentPage), Tail(currentPage, totalPages, end);
    HeadMembers(currentPage, start);
    TailMembers(currentPage, totalPages, end);
    PageNumbersMembers(start, end, currentPage);
    assert Previous(currentPage - 1) !in t && Previous(currentPage - 1) !in p;
    assert FirstPage !in t && FirstPage !in p;
    assert LeadingDots !in t && LeadingDots !in p;
    InConcat3(h, p, t, Previous(currentPage - 1));
    InConcat3(h, p, t, FirstPage);
    InConcat3(h, p, t, LeadingDots);
  }

  lemma BarTailLinks(currentPage: int, totalPages: int, start: int, end: int)
    ensures var c := Head(currentPage, start) + PageNumbers(start, end, currentPage) + Tail(currentPage, totalPages, end);
      (Next(currentPage + 1) in c <==> currentPage < totalPages) &&
      (LastPage(totalPages) in c <==> end < totalPages) &&
      (TrailingDots in c <==> end < totalPages - 1)
  {
    var h, p, t := Head(currentPage, start), PageNumbers(start, end, currentPage), Tail(currentPage, totalPages, end);
    HeadMembers(currentPage, start);
    TailMembers(currentPage, totalPages, end);
    PageNumbersMembers(start, end, currentPage);
    assert Next(currentPage + 1) !in h && Next(currentPage + 1) !in p;
    assert LastPage(totalPages) !in h && LastPage(totalPages) !in p;
    assert TrailingDots !in h && TrailingDots !in p;
    InConcat3(h, p, t, Next(currentPage + 1));
    InConcat3(h, p, t, LastPage(totalPages));
    InConcat3(h, p, t, TrailingDots);
  }

  lemma AppendAssoc<T>(a: seq<T>, b: seq<T>, c: seq<T>)
    ensures a + b + c == a + (b + c)
  {
  }

  lemma InConcat3<T>(a: seq<T>, b: seq<T>, c: seq<T>, x: T)
    ensures x in a + b + c <==> x in a || x in b || x in c
  {
  }

  lemma BarPages(currentPage: int, totalPages: int, start: int, end: int)
    ensures var c := Bar(currentPage, totalPages, start, end);
      (forall n :: PageNumber(n, true) in c <==> n == currentPage && start <= n <= end) &&
      (forall n :: PageNumber(n, false) in c <==> n != currentPage && start <= n <= end)
  {
    BarParts(currentPage, totalPages, start, end);
    HeadMembers(currentPage, start);
    TailMembers(currentPage, totalPages, end);
    PageNumbersMembers(start, end, currentPage);
  }

  lemma BarParts(currentPage: int, totalPages: int, start: int, end: int)
    ensures forall x :: x in Bar(currentPage, totalPages, start, end) <==>
      x in Head(currentPage, start) || x in PageNumbers(start, end, currentPage) || x in Tail(currentPage, totalPages, end)
  {
  }

  lemma HeadMembers(currentPage: int, start: int)
    ensures forall x :: x in Head(currentPage, start) <==>
      (x == Previous(currentPage - 1) && currentPage > 1) || (x == FirstPage && start > 1) || (x == LeadingDots && start > 2)
  {
  }

  lemma TailMembers(currentPage: int, totalPages: int, end: int)
    ensures forall x :: x in Tail(currentPage, totalPages, end) <==>
      (x == TrailingDots && end < totalPages - 1) || (x == LastPage(totalPages) && end < totalPages) ||
      (x == Next(currentPage + 1) && currentPage < totalPages)
  {
  }

  /** The page numbers hold exactly the numbers of the range, each active iff current. */
  lemma PageNumbersMembers(lo: int, hi: int, currentPage: int)
    ensures forall x: PageControl :: x in PageNumbers(lo, hi, currentPage) <==>
      x.PageNumber? && lo <= x.number <= hi && x.active == (x.number == currentPage)
  {
    var p := PageNumbers(lo, hi, currentPage);
    PageNumbersAt(lo, hi, currentPage);
    forall x | x in p ensures x.PageNumber? && lo <= x.number <= hi && x.active == (x.number == currentPage) {
      var k :| 0 <= k < |p| && p[k] == x;
    }
    forall x: PageControl | x.PageNumber? && lo <= x.number <= hi && x.active == (x.number == currentPage) ensures x in p {
      assert p[x.number - lo] == x;
    }
  }

  /** Within range, exactly one page of the bar is active, and it is the current page. */
  lemma OneActivePage(currentPage: int, totalPages: int)
    requires 1 <= currentPage <= totalPages && totalPages > 1
    ensures var c := Controls(currentPage, totalPages).value;
      PageNumber(currentPage, true) in c && forall n :: n != currentPage ==> PageNumber(n, true) !in c
  {
    WindowBounds(currentPage, totalPages);
    ControlsProps(currentPage, totalPages);
  }

  // ---- the search guard ----

  /** `parseInt(searchParams.get('page')) || 1`: a missing, unreadable or zero page is 1. */
  function PageParam(page: Option<string>): (p: int)
    ensures p != 0
  {
    if page.None? then 1
    else match ParseInt(page.value)
      case None => 1
      case Some(n) => if n == 0 then 1 else n
  }

  /** A query is searched when it is present and non-empty and differs from the last
      search in its text or its page. */
  predicate ShouldSearch(query: Option<string>, page: int, lastQuery: string, lastPage: int) {
    query.Some? && query.value != "" && (query.value != lastQuery || page != lastPage)
  }

  /** The page's search state: the query and page shown, the last search made
      (`lastSearchRef`), and the searches sent to the API, in order. */
  class SearchPage {
    var query: string
    var currentPage: int
    var lastQuery: string
    var lastPage: int
    var requests: seq<(string, int)>

    constructor()
      ensures query == "" && currentPage == 1 && lastQuery == "" && lastPage == 0 && requests == []
    {
      query := "";
      currentPage := 1;
      lastQuery := "";
      lastPage := 0;
      requests := [];
    }

    /** The effect run when the URL's search parameters change: a new query or page is
        shown and remembered, and searched unless it is only white space
        (`performSearch`'s own guard). */
    method OnSearchParams(q: Option<string>, page: Option<string>)
      modifies this
      ensures var p := PageParam(page);
        if ShouldSearch(q, p, old(lastQuery), old(lastPage)) then
          query == q.value && currentPage == p && lastQuery == q.value && lastPage == p &&
          requests == old(requests) + (if Trim(q.value) == "" then [] else [(q.value, p)])
        else
          query == old(query) && currentPage == old(currentPage) && lastQuery == old(lastQuery) &&
          lastPage == old(lastPage) && requests == old(requests)
    {
      var p := PageParam(page);
      if q.Some? && q.value != "" && (q.value != lastQuery || p != lastPage) {
        query := q.value;
        currentPage := p;
        if Trim(q.value) != "" {
          requests := requests + [(q.value, p)];
        }
        lastQuery := q.value;
        lastPage := p;
      }
    }
  }

  /** The same parameters a second time make no new search. */
  lemma RepeatedParamsSearchOnce(q: Option<string>, page: Option<string>, lastQuery: string, lastPage: int)
    requires ShouldSearch(q, PageParam(page), lastQuery, lastPage)
    ensures !ShouldSearch(q, PageParam(page), q.value, PageParam(page))
    ensures q.Some? && q.value != ""
  {
  }
}
