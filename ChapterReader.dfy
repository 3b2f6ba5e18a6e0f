/** The manga chapter reader of `src/services/useStateChapter.ts`: which
    page number the progress display shows for a scroll position, the
    progress bar's percentage, and what a key press does. Page offsets
    and the viewport centre are given as whole numbers. */
module ChapterReader {
  import opened Wrappers

  /** A page wrapper's `offsetTop` and `offsetHeight`. */
  datatype Page = Page(top: int, height: int)

  /** The centre lies within the page, both edges included. */
  predicate Contains(page: Page, center: int) {
    page.top <= center <= page.top + page.height
  }

  /** The page counter's total: the number of page wrappers, but at
      least 1. */
  function TotalPages(n: nat): (t: nat)
    ensures t >= 1 && t >= n
    ensures n >= 1 ==> t == n
  {
    if n < 1 then 1 else n
  }

  /** The first page, at or after `i`, that contains the centre. */
  function FirstContaining(pages: seq<Page>, center: int, i: nat): (r: Option<nat>)
    requires i <= |pages|
    ensures r.Some? ==> i <= r.value < |pages| && Contains(pages[r.value], center)
    ensures r.Some? ==> forall j :: i <= j < r.value ==> !Contains(pages[j], center)
    ensures r.None? ==> forall j :: i <= j < |pages| ==> !Contains(pages[j], center)
    decreases |pages| - i
  {
    if i == |pages| then None
    else if Contains(pages[i], center) then Some(i)
    else FirstContaining(pages, center, i + 1)
  }

  /** The last of the first `n` pages whose top is at or above the
      centre. */
  function LastReached(pages: seq<Page>, center: int, n: nat): (r: Option<nat>)
    requires n <= |pages|
    ensures r.Some? ==> r.value < n && pages[r.value].top <= center
    ensures r.Some? ==> forall j :: r.value < j < n ==> pages[j].top > center
    ensures r.None? ==> forall j :: 0 <= j < n ==> pages[j].top > center
  {
    if n == 0 then None
    else if pages[n - 1].top <= center then Some(n - 1)
    else LastReached(pages, center, n - 1)
  }

  /** The page the display should show: the first page containing the
      centre; failing that, the last page whose top the centre has
      passed; failing that, page 1. */
  function PageAt(pages: seq<Page>, center: int): nat {
    match FirstContaining(pages, center, 0)
    case Some(i) => i + 1
    case None =>
      match LastReached(pages, center, |pages|)
      case Some(i) => i + 1
      case None => 1
  }

  /** That page always exists: it lies in [1, total], so the final clamp
      never changes it. */
  lemma PageAtInRange(pages: seq<Page>, center: int)
    ensures 1 <= PageAt(pages, center) <= TotalPages(|pages|)
    ensures Clamp(PageAt(pages, center), TotalPages(|pages|)) == PageAt(pages, center)
  {
  }

  /** The page raised to at least 1, then lowered to at most `total`. */
  function Clamp(page: int, total: int): (r: int)
    requires total >= 1
    ensures 1 <= r <= total
    ensures 1 <= page <= total ==> r == page
  {
    var atLeastOne := if page < 1 then 1 else page;
    if atLeastOne < total then atLeastOne else total
  }

  /** The page-number part of `updateProgress`: the scan over the page
      wrappers that stops at the first page containing the centre and
      otherwise keeps overwriting the page with every page whose top the
      centre has passed, then the clamp. */
  method CurrentPage(pages: seq<Page>, center: int) returns (page: int)
    ensures page == PageAt(pages, center)
    ensures 1 <= page <= TotalPages(|pages|)
  {
    var total := TotalPages(|pages|);
    var currentPage := 1;
    var i := 0;
    while i < |pages|
      invariant 0 <= i <= |pages|
      invariant forall j :: 0 <= j < i ==> !Contains(pages[j], center)
      invariant currentPage == match LastReached(pages, center, i) case Some(j) => j + 1 case None => 1
      decreases |pages| - i
    {
      var top := pages[i].top;
      var bottom := top + pages[i].height;
      if center >= top && center <= bottom {
        currentPage := i + 1;
        assert FirstContaining(pages, center, 0) == Some(i);
        break;
      }
      if center >= top {
        currentPage := i + 1;
      }
      i := i + 1;
    }
    PageAtInRange(pages, center);
    page := Clamp(currentPage, total);
  }

  /** The progress bar's width in percent: 0 when there is nothing to
      scroll, and otherwise the scrolled share of the scrollable height,
      which lies between 0 and 100 while the offset is within it. */
  function ScrollPercent(scrollTop: real, scrollable: real): (r: real)
    ensures scrollable <= 0.0 ==> r == 0.0
  {
    if scrollable > 0.0 then (scrollTop / scrollable) * 100.0 else 0.0
  }

  /** Within the scrollable height the percentage lies in [0, 100], at
      the ends exactly. */
  lemma ScrollPercentBounds(scrollTop: real, scrollable: real)
    requires 0.0 < scrollable && 0.0 <= scrollTop <= scrollable
    ensures 0.0 <= ScrollPercent(scrollTop, scrollable) <= 100.0
    ensures scrollTop == 0.0 ==> ScrollPercent(scrollTop, scrollable) == 0.0
    ensures scrollTop == scrollable ==> ScrollPercent(scrollTop, scrollable) == 100.0
  {
  }

  /** A `keydown` event's key and modifier flags. */
  datatype KeyPress = KeyPress(key: string, ctrl: bool, meta: bool)

  datatype KeyAction = ScrollReader | ToggleSidebar | NoAction

  /** The `keydown` handler: space scrolls the reader when it is on the
      page and focus is not in a text field; Ctrl or Meta with `m` toggles
      the sidebar; anything else does nothing. */
  function OnKeyDown(e: KeyPress, readerPresent: bool, activeTag: Option<string>): (r: KeyAction)
    ensures r == ScrollReader <==>
      e.key == " " && readerPresent && activeTag != Some("INPUT") && activeTag != Some("TEXTAREA")
    ensures r == ToggleSidebar <==> (e.ctrl || e.meta) && e.key == "m"
  {
    if e.key == " " && readerPresent then
      if activeTag != Some("INPUT") && activeTag != Some("TEXTAREA") then ScrollReader else NoAction
    else if (e.ctrl || e.meta) && e.key == "m" then ToggleSidebar
    else NoAction
  }
}
