/**
  The table view's two small state machines: the sort header (which column, which sort
  key, which direction) and the incremental scroll window (how many filtered rows show).
 */
module Table {
  import opened Values

  /** The sort state: the column last clicked, the key or custom sort it sorts by, and the direction. */
  datatype SortState = SortState(column: string, operator: string, reverse: bool)

  /** The initial sort state: no column, ascending. */
  const InitialSort := SortState("", "", false)

  /**
    `sort.by(name)`. `sortBy` is the column's custom sort key from the table's sortables,
    None when the column has none or no sortables entry. A new column becomes the sort
    column, ascending, sorted by its custom key when that is truthy and by its name otherwise;
    the current column only flips direction.
   */
  function By(s: SortState, name: string, sortBy: Option<string>): (r: SortState)
    ensures s.column != name ==> r.column == name && !r.reverse
    ensures s.column != name ==> r.operator == (if TruthyString(sortBy) then sortBy.value else name)
    ensures s.column == name ==> r.column == s.column && r.operator == s.operator && r.reverse == !s.reverse
  {
    if s.column != name then
      SortState(name, if TruthyString(sortBy) then sortBy.value else name, false)
    else s.(reverse := !s.reverse)
  }

  /** Clicking the current column twice restores the sort state. */
  lemma ToggleTwice(s: SortState, sortBy: Option<string>)
    ensures By(By(s, s.column, sortBy), s.column, sortBy) == s
  {
  }

  /** After any click the clicked column is the sort column, and a second click reverses it. */
  lemma ClickThenClickAgain(s: SortState, name: string, sortBy: Option<string>)
    ensures By(s, name, sortBy).column == name
    ensures By(By(s, name, sortBy), name, sortBy).reverse == !By(s, name, sortBy).reverse
    ensures By(By(s, name, sortBy), name, sortBy).operator == By(s, name, sortBy).operator
  {
  }

  /** Switching to a new column always starts ascending, whatever the previous direction. */
  lemma NewColumnAscending(s: SortState, name: string, sortBy: Option<string>)
    requires name != s.column
    ensures !By(s, name, sortBy).reverse
    ensures By(s, name, sortBy) == By(s.(reverse := !s.reverse), name, sortBy)
  {
  }

  // ---------------------------------------------------------------------------
  // Scrolling

  /** The scroll window: the page size and the number of rows currently shown. */
  datatype Scroll = Scroll(perPage: int, showCount: int)

  /** The initial window: pages of 75 rows, 75 shown. */
  const InitialScroll := Scroll(75, 75)

  /**
    `scroll.nextPage()`. `filtered` is the length of the table's filtered rows, None when
    there is no table or no filtered list. Another page is shown only while the shown count
    is below the filtered length less one page; the answer says whether that still holds.
   */
  function NextPage(sc: Scroll, filtered: Option<nat>): (r: (Scroll, bool))
    ensures filtered.None? ==> r == (sc, false)
    ensures r.0.perPage == sc.perPage
    ensures filtered.Some? && sc.perPage != 0 ==> (r.0.showCount != sc.showCount <==> sc.showCount < filtered.value - sc.perPage)
    ensures r.0.showCount != sc.showCount ==> r.0.showCount == sc.showCount + sc.perPage
    ensures filtered.Some? ==> (r.1 <==> r.0.showCount < filtered.value - sc.perPage)
    ensures sc.perPage > 0 && r.1 ==> r.0.showCount > sc.showCount
  {
    if filtered.None? then (sc, false)
    else
      var maxOff := filtered.value - sc.perPage;
      var sc' := if sc.showCount < maxOff then sc.(showCount := sc.showCount + sc.perPage) else sc;
      (sc', sc'.showCount < maxOff)
  }

  /** `scroll.prevPage()`: the window is left as it is; the answer says whether any row shows. */
  function PrevPage(sc: Scroll): (r: (Scroll, bool))
    ensures r.0 == sc
    ensures r.1 <==> sc.showCount >= 1
  {
    (sc, sc.showCount >= 1)
  }

  /**
    Paging to the end: `nextPage` is called until it answers false. The window grows by
    whole pages, each growth was due (the window was still short of the last page when it
    grew), and at the end it shows at least all but one page of the filtered rows, so a
    further call changes nothing.
   */
  method ScrollToEnd(sc: Scroll, filtered: nat) returns (r: Scroll, pages: nat)
    requires sc.perPage > 0
    ensures r.perPage == sc.perPage
    ensures r.showCount == sc.showCount + pages * sc.perPage
    ensures r.showCount >= filtered - sc.perPage
    ensures pages > 0 ==> r.showCount - sc.perPage < filtered - sc.perPage
    ensures NextPage(r, Some(filtered)) == (r, false)
  {
    var step := NextPage(sc, Some(filtered));
    r := step.0;
    pages := if r == sc then 0 else 1;
    while step.1
      invariant r.perPage == sc.perPage
      invariant r.showCount == sc.showCount + pages * sc.perPage
      invariant pages > 0 ==> r.showCount - sc.perPage < filtered - sc.perPage
      invariant step.0 == r
      invariant step.1 <==> r.showCount < filtered - sc.perPage
      decreases filtered - r.showCount
    {
      step := NextPage(r, Some(filtered));
      pages := pages + 1;
      r := step.0;
    }
  }
}
