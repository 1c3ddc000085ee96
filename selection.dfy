/**
 * Row and header checkbox selection in the admin table, written the same way in
 * both admin routes: `selectedLinks` is a list of ids, a row checkbox appends or
 * removes its id, the header checkbox selects the page's ids or clears everything.
 */
module Selection {
  import opened Seqs
  import opened Links

  function OtherThan(id: nat): nat -> bool {
    x => x != id
  }

  /** A row's checkbox: checking appends its id, unchecking drops every occurrence of it. */
  function CheckRow(selected: seq<nat>, id: nat, checked: bool): (r: seq<nat>)
    ensures checked ==> r == selected + [id]
    ensures !checked ==> id !in r && forall x :: x != id ==> (x in r <==> x in selected)
  {
    if checked then selected + [id]
    else
      FilterKeepsExactly(selected, OtherThan(id));
      Filter(selected, OtherThan(id))
  }

  /** Unchecking keeps the other ids in their order and with their multiplicities. */
  lemma UncheckKeepsOthers(selected: seq<nat>, id: nat)
    ensures IsSubsequence(CheckRow(selected, id, false), selected)
    ensures forall x :: x != id ==> multiset(CheckRow(selected, id, false))[x] == multiset(selected)[x]
  {
    FilterIsSubsequence(selected, OtherThan(id));
    FilterKeepsExactly(selected, OtherThan(id));
  }

  /** The ids of the rows on a page, in table order (`currentLinks.map(link => link.id)`). */
  function PageIds(page: seq<Link>): (ids: seq<nat>)
    ensures |ids| == |page|
    ensures forall i :: 0 <= i < |page| ==> ids[i] == page[i].id
  {
    seq(|page|, i requires 0 <= i < |page| => page[i].id)
  }

  /** The header checkbox: checking selects exactly the page's ids, unchecking clears everything. */
  function CheckHeader(page: seq<Link>, checked: bool): (r: seq<nat>)
    ensures checked ==> forall x :: x in r <==> exists i :: 0 <= i < |page| && page[i].id == x
    ensures checked ==> |r| == |page|
    ensures checked ==> r == PageIds(page)
    ensures !checked ==> r == []
  {
    if checked then PageIds(page) else []
  }

  /** A row checkbox shows checked when its id is selected (`selectedLinks.includes(link.id)`). */
  predicate RowChecked(selected: seq<nat>, id: nat) {
    id in selected
  }

  /** The header checkbox as written: `selectedLinks.length === currentLinks.length`. */
  predicate HeaderCheckedAsWritten(selected: seq<nat>, page: seq<Link>) {
    |selected| == |page|
  }

  /** The header checkbox as intended: it shows checked when every row of the page shows checked. */
  predicate HeaderChecked(selected: seq<nat>, page: seq<Link>) {
    forall i :: 0 <= i < |page| ==> RowChecked(selected, page[i].id)
  }

  /**
   * The count comparison misreports: two ids selected on another page make the
   * header of a two-row page show checked although none of its rows is checked.
   */
  lemma HeaderCheckedAsWrittenMisreports()
    ensures var page, selected := [Link(3, "c", "C"), Link(4, "d", "D")], [1, 2];
      && HeaderCheckedAsWritten(selected, page)
      && !RowChecked(selected, page[0].id) && !RowChecked(selected, page[1].id)
      && !HeaderChecked(selected, page)
  {
  }

  /**
   * The intended header state follows the clicks: checking the header checks it,
   * unchecking it leaves it checked only on an empty page, and unchecking any row
   * of the page unchecks it.
   */
  lemma HeaderCheckedFollowsClicks(selected: seq<nat>, page: seq<Link>, row: nat)
    ensures HeaderChecked(CheckHeader(page, true), page)
    ensures HeaderChecked(CheckHeader(page, false), page) <==> page == []
    ensures row < |page| ==> !HeaderChecked(CheckRow(selected, page[row].id, false), page)
  {
    if page != [] {
      assert !RowChecked([], page[0].id);
    }
  }

  /** Both readings agree right after the header checkbox is used. */
  lemma HeaderReadingsAgreeAfterHeaderClick(page: seq<Link>, checked: bool)
    ensures HeaderCheckedAsWritten(CheckHeader(page, checked), page) == HeaderChecked(CheckHeader(page, checked), page)
  {
    HeaderCheckedFollowsClicks([], page, 0);
  }
}
