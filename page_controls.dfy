/**
 * The Previous/Next controls and the captions of `Pagination` and `SimplePagination`:
 * the page each button requests, when each button is disabled, and the text shown.
 */
module PageControls {
  import opened Wrappers
  import opened Seqs
  import opened Text

  /** `disabled={currentPage === 1}` on Previous. */
  predicate PreviousDisabled(currentPage: int) {
    currentPage == 1
  }

  /** `disabled={currentPage === totalPages}` on Next. */
  predicate NextDisabled(currentPage: int, totalPages: int) {
    currentPage == totalPages
  }

  /** Previous requests `Math.max(1, currentPage - 1)`; from page 1 on it stays put exactly when disabled. */
  function PreviousTarget(currentPage: int): (r: int)
    ensures r >= 1
    ensures r <= Max(1, currentPage)
    ensures currentPage >= 1 ==> (r == currentPage <==> PreviousDisabled(currentPage))
  {
    Max(1, currentPage - 1)
  }

  /** Next requests `Math.min(totalPages, currentPage + 1)`; up to the last page it stays put exactly when disabled. */
  function NextTarget(currentPage: int, totalPages: int): (r: int)
    ensures r <= totalPages
    ensures r <= currentPage + 1
    ensures currentPage <= totalPages ==> (r == currentPage <==> NextDisabled(currentPage, totalPages))
  {
    Min(totalPages, currentPage + 1)
  }

  /** On an existing page both requests are existing pages, one step away unless at a bound. */
  lemma NavigationStaysInRange(currentPage: int, totalPages: int)
    requires 1 <= currentPage <= totalPages
    ensures 1 <= PreviousTarget(currentPage) <= totalPages
    ensures 1 <= NextTarget(currentPage, totalPages) <= totalPages
    ensures currentPage > 1 ==> PreviousTarget(currentPage) == currentPage - 1
    ensures currentPage < totalPages ==> NextTarget(currentPage, totalPages) == currentPage + 1
  {
  }

  datatype Click = PreviousClick | NextClick

  /** The page after one click; a click on a disabled button does nothing. */
  function AfterClick(currentPage: int, totalPages: int, click: Click): int {
    match click
    case PreviousClick => if PreviousDisabled(currentPage) then currentPage else PreviousTarget(currentPage)
    case NextClick => if NextDisabled(currentPage, totalPages) then currentPage else NextTarget(currentPage, totalPages)
  }

  /** The page after a sequence of clicks, first click first. */
  function AfterClicks(currentPage: int, totalPages: int, clicks: seq<Click>): int
    decreases |clicks|
  {
    if clicks == [] then currentPage
    else AfterClicks(AfterClick(currentPage, totalPages, clicks[0]), totalPages, clicks[1..])
  }

  /** No sequence of clicks leaves the range of existing pages. */
  lemma {:induction false} ClicksStayInRange(currentPage: int, totalPages: int, clicks: seq<Click>)
    requires 1 <= currentPage <= totalPages
    ensures 1 <= AfterClicks(currentPage, totalPages, clicks) <= totalPages
    decreases |clicks|
  {
    if clicks != [] {
      ClicksStayInRange(AfterClick(currentPage, totalPages, clicks[0]), totalPages, clicks[1..]);
    }
  }

  function NextClicks(m: nat): (cs: seq<Click>)
    ensures |cs| == m
  {
    seq(m, _ => NextClick)
  }

  /** `m` clicks on Next advance `m` pages, stopping at the last one. */
  lemma {:induction false} NextClicksAdvance(currentPage: int, totalPages: int, m: nat)
    requires 1 <= currentPage <= totalPages
    ensures AfterClicks(currentPage, totalPages, NextClicks(m)) == Min(currentPage + m, totalPages)
    decreases m
  {
    if m > 0 {
      assert NextClicks(m)[0] == NextClick && NextClicks(m)[1..] == NextClicks(m - 1);
      NextClicksAdvance(AfterClick(currentPage, totalPages, NextClick), totalPages, m - 1);
    }
  }

  /** `Showing {startIndex}-{endIndex} of {totalItems} items`. */
  function ItemsSummary(startIndex: nat, endIndex: nat, totalItems: nat): string {
    "Showing " + NatStr(startIndex) + "-" + NatStr(endIndex) + " of " + NatStr(totalItems) + " items"
  }

  /** Reads the three numbers back from an items caption. */
  function ParseItemsSummary(s: string): Option<(nat, nat, nat)> {
    if !StartsWith(s, "Showing ") then None
    else
      var parts := Split(s[8..], '-');
      if |parts| != 2 then None
      else
        var words := Split(parts[1], ' ');
        if |words| != 4 || words[1] != "of" || words[3] != "items" then None
        else if !AllDigits(parts[0]) || !AllDigits(words[0]) || !AllDigits(words[2]) then None
        else Some((DecimalValue(parts[0]), DecimalValue(words[0]), DecimalValue(words[2])))
  }

  lemma {:induction false} SummaryWords(endIndex: nat, totalItems: nat)
    ensures var b, c := NatStr(endIndex), NatStr(totalItems);
      Split(b + " of " + c + " items", ' ') == [b, "of", c, "items"]
  {
    var b, c := NatStr(endIndex), NatStr(totalItems);
    NatStrExcludes(endIndex, ' ');
    NatStrExcludes(totalItems, ' ');
    assert b + " of " + c + " items" == b + [' '] + ("of" + [' '] + (c + [' '] + "items"));
    SplitAtFirstSeparator(b, ' ', "of" + [' '] + (c + [' '] + "items"));
    SplitAtFirstSeparator("of", ' ', c + [' '] + "items");
    SplitAtFirstSeparator(c, ' ', "items");
    SplitWithoutSeparator("items", ' ');
  }

  lemma {:induction false} SummaryHalves(startIndex: nat, endIndex: nat, totalItems: nat)
    ensures var a, tail := NatStr(startIndex), NatStr(endIndex) + " of " + NatStr(totalItems) + " items";
      Split(ItemsSummary(startIndex, endIndex, totalItems)[8..], '-') == [a, tail]
  {
    var a, b, c := NatStr(startIndex), NatStr(endIndex), NatStr(totalItems);
    var tail := b + " of " + c + " items";
    var s := ItemsSummary(startIndex, endIndex, totalItems);
    assert s == "Showing " + (a + ['-'] + tail);
    assert s[8..] == a + ['-'] + tail;
    NatStrExcludes(startIndex, '-');
    NatStrExcludes(endIndex, '-');
    NatStrExcludes(totalItems, '-');
    assert '-' !in " of " && '-' !in " items";
    assert '-' !in tail;
    SplitAtFirstSeparator(a, '-', tail);
    SplitWithoutSeparator(tail, '-');
  }

  /** The caption shows the start, end and total it was given, unchanged: they can be read back. */
  lemma {:induction false} ItemsSummaryShowsProps(startIndex: nat, endIndex: nat, totalItems: nat)
    ensures ParseItemsSummary(ItemsSummary(startIndex, endIndex, totalItems)) == Some((startIndex, endIndex, totalItems))
  {
    var s := ItemsSummary(startIndex, endIndex, totalItems);
    assert s[..8] == "Showing ";
    SummaryHalves(startIndex, endIndex, totalItems);
    SummaryWords(endIndex, totalItems);
    DecimalRoundTrip(startIndex);
    DecimalRoundTrip(endIndex);
    DecimalRoundTrip(totalItems);
  }

  /** `Page {currentPage} of {totalPages}` under `SimplePagination`. */
  function PageCaption(currentPage: nat, totalPages: nat): string {
    "Page " + NatStr(currentPage) + " of " + NatStr(totalPages)
  }

  function ParsePageCaption(s: string): Option<(nat, nat)> {
    var words := Split(s, ' ');
    if |words| != 4 || words[0] != "Page" || words[2] != "of" then None
    else if !AllDigits(words[1]) || !AllDigits(words[3]) then None
    else Some((DecimalValue(words[1]), DecimalValue(words[3])))
  }

  /** The page caption shows the page and the page count it was given. */
  lemma {:induction false} PageCaptionShowsProps(currentPage: nat, totalPages: nat)
    ensures ParsePageCaption(PageCaption(currentPage, totalPages)) == Some((currentPage, totalPages))
  {
    var p, t := NatStr(currentPage), NatStr(totalPages);
    assert PageCaption(currentPage, totalPages) == "Page" + [' '] + (p + [' '] + ("of" + [' '] + t));
    NatStrExcludes(currentPage, ' ');
    NatStrExcludes(totalPages, ' ');
    SplitAtFirstSeparator("Page", ' ', p + [' '] + ("of" + [' '] + t));
    SplitAtFirstSeparator(p, ' ', "of" + [' '] + t);
    SplitAtFirstSeparator("of", ' ', t);
    SplitWithoutSeparator(t, ' ');
    DecimalRoundTrip(currentPage);
    DecimalRoundTrip(totalPages);
  }
}
