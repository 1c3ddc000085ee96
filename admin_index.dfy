/**
 * The admin route: its loader filters links by name or url and shows each name
 * as the row title; its action dispatches on `intent` to create, update or delete
 * links through the API; the page keeps the search box, the selection and the
 * delete dialog's state, with the pagination hook at 10 links per page.
 */
module AdminIndex {
  import opened Wrappers
  import opened Seqs
  import opened Text
  import opened Links
  import opened Pagination
  import opened Selection
  import opened IdList

  const ItemsPerPage: nat := 10

  function LinkMatches(query: string): AppLink -> bool {
    (link: AppLink) => MatchesQuery(link.name, query) || MatchesQuery(link.url, query)
  }

  /** `query ? links.filter(link => name matches || url matches) : links`. */
  function FilterLinks(links: seq<AppLink>, query: string): seq<AppLink> {
    if query != "" then Filter(links, LinkMatches(query)) else links
  }

  /**
   * The filter keeps exactly the links whose name or url matches, case-insensitively,
   * in order and with their multiplicities; an empty query keeps everything; filtering again does nothing.
   */
  lemma FilterLinksKeepsMatches(links: seq<AppLink>, query: string)
    ensures var r := FilterLinks(links, query);
      && IsSubsequence(r, links)
      && (forall l :: l in r <==> l in links && (MatchesQuery(l.name, query) || MatchesQuery(l.url, query)))
      && (forall l :: multiset(r)[l] ==
            if MatchesQuery(l.name, query) || MatchesQuery(l.url, query) then multiset(links)[l] else 0)
      && FilterLinks(r, query) == r
      && (query == "" ==> r == links)
  {
    if query != "" {
      FilterKeepsExactly(links, LinkMatches(query));
      FilterIsSubsequence(links, LinkMatches(query));
      FilterIdempotent(links, LinkMatches(query));
    } else {
      SubsequenceReflexive(links);
      forall l: AppLink ensures MatchesQuery(l.name, query) { MatchesQueryIgnoresCase(l.name, query); }
    }
  }

  /** A row of the table: `{id: link.id, url: link.url, title: link.name}`. */
  function ToRow(link: AppLink): Link {
    Link(link.id, link.url, link.name)
  }

  /** The link the edit button is given back from a row: `{id: link.id, name: link.title, url: link.url}`. */
  function FromRow(row: Link): AppLink {
    AppLink(row.id, row.title, row.url)
  }

  function ToRows(links: seq<AppLink>): (rows: seq<Link>)
    ensures |rows| == |links|
  {
    seq(|links|, i requires 0 <= i < |links| => ToRow(links[i]))
  }

  /** The rows keep each link's id and url, show its name as the title, and give the link back to the edit button. */
  lemma RowsKeepLinks(links: seq<AppLink>)
    ensures var rows := ToRows(links);
      && |rows| == |links|
      && (forall i :: 0 <= i < |rows| ==>
            rows[i].id == links[i].id && rows[i].url == links[i].url && rows[i].title == links[i].name)
      && (forall i :: 0 <= i < |rows| ==> FromRow(rows[i]) == links[i])
    ensures forall row: Link :: ToRow(FromRow(row)) == row
  {
  }

  datatype LoaderData = LoaderData(links: seq<Link>, query: string)

  datatype LoaderResult = Loaded(data: LoaderData) | LoaderFailed(message: string)

  /** The loader for `?q=`: filtered rows of the fetched links; a failed fetch throws 'Failed to fetch links'. */
  function Loader(q: Option<string>, fetched: Option<seq<AppLink>>): (r: LoaderResult)
    ensures fetched.None? <==> r == LoaderFailed("Failed to fetch links")
    ensures fetched.Some? ==> r.Loaded? && r.data.query == q.GetOr("")
    ensures fetched.Some? ==> r.data.links == ToRows(FilterLinks(fetched.value, q.GetOr("")))
    ensures fetched.Some? && q.GetOr("") == "" ==> r.data.links == ToRows(fetched.value)
  {
    var query := q.GetOr("");
    match fetched
    case None => LoaderFailed("Failed to fetch links")
    case Some(all) => Loaded(LoaderData(ToRows(FilterLinks(all, query)), query))
  }

  /** The message of a successful create, update or delete. */
  function SuccessMessage(intent: Option<string>): string {
    if intent == Some("create") then "Link created successfully"
    else if intent == Some("update") then "Link updated successfully"
    else "Links deleted successfully"
  }

  /** The message of a refused create, update or delete when the API's error body is empty. */
  function FailureMessage(intent: Option<string>): string {
    if intent == Some("create") then "Failed to create link"
    else if intent == Some("update") then "Failed to update link"
    else "Failed to delete links"
  }

  /**
   * The action: `intent` picks create, update or delete; a missing required field
   * or an unknown intent returns a failure without calling the API; otherwise the
   * API's answer decides success.
   */
  function Action(fd: FormData, response: ApiResponse): (h: Handled)
    ensures h.result.Reply?
    ensures Get(fd, "intent") !in {Some("create"), Some("update"), Some("delete")} ==>
      h == Handled(None, Reply(false, "Invalid action"))
    ensures Get(fd, "intent") == Some("create") ==>
      if Filled(fd, "title") && Filled(fd, "url") then h.sent == Some(CreateLink(fd["title"], fd["url"]))
      else h == Handled(None, Reply(false, "Title and URL are required"))
    ensures Get(fd, "intent") == Some("update") ==>
      if Filled(fd, "id") && Filled(fd, "title") && Filled(fd, "url")
      then h.sent == Some(UpdateLink(ToNumber(fd["id"]), fd["title"], fd["url"]))
      else h == Handled(None, Reply(false, "ID, Title and URL are required"))
    ensures Get(fd, "intent") == Some("delete") ==>
      if "ids" in fd then h.sent == Some(DeleteLinks(ParseIds(fd["ids"])))
      else h == Handled(None, Reply(false, "No links selected"))
    ensures h.sent.Some? ==> (h.result.success <==> response.Responded? && response.ok)
    ensures h.sent.Some? && response.Threw? ==> h.result == Reply(false, "Action failed")
    ensures h.sent.Some? && response.Responded? ==>
      h.result == ReplyFor(response.ok, response.body, SuccessMessage(Get(fd, "intent")), FailureMessage(Get(fd, "intent")))
  {
    var intent := Get(fd, "intent");
    if intent == Some("create") then
      if !Filled(fd, "title") || !Filled(fd, "url") then Handled(None, Reply(false, "Title and URL are required"))
      else Handled(Some(CreateLink(fd["title"], fd["url"])),
                   Answer(response, "Link created successfully", "Failed to create link"))
    else if intent == Some("update") then
      if !Filled(fd, "id") || !Filled(fd, "title") || !Filled(fd, "url") then
        Handled(None, Reply(false, "ID, Title and URL are required"))
      else Handled(Some(UpdateLink(ToNumber(fd["id"]), fd["title"], fd["url"])),
                   Answer(response, "Link updated successfully", "Failed to update link"))
    else if intent == Some("delete") then
      var ids := IdsAsWritten(fd);
      if ids.None? || |ids.value| == 0 then Handled(None, Reply(false, "No links selected"))
      else Handled(Some(DeleteLinks(ids.value)), Answer(response, "Links deleted successfully", "Failed to delete links"))
    else Handled(None, Reply(false, "Invalid action"))
  }

  /** As written, a delete with an empty `ids` field is not refused: it deletes the id 0. */
  lemma EmptyIdsFieldDeletesZero(response: ApiResponse)
    ensures Action(map["intent" := "delete", "ids" := ""], response).sent == Some(DeleteLinks([Num(0)]))
  {
    EmptyListDoesNotRoundTrip();
  }

  /**
   * The action as intended: a delete whose `ids` field is absent or empty is refused
   * with 'No links selected'; every other form is handled as written.
   */
  function ActionCorrected(fd: FormData, response: ApiResponse): (h: Handled)
    ensures Get(fd, "intent") == Some("delete") ==>
      if SelectedIds(fd).Some? then h.sent == Some(DeleteLinks(SelectedIds(fd).value))
      else h == Handled(None, Reply(false, "No links selected"))
    ensures Get(fd, "intent") != Some("delete") || Get(fd, "ids") != Some("") ==> h == Action(fd, response)
    ensures h.sent.Some? ==> (h.result.success <==> response.Responded? && response.ok)
  {
    if Get(fd, "intent") == Some("delete") && Get(fd, "ids") == Some("") then
      Handled(None, Reply(false, "No links selected"))
    else Action(fd, response)
  }

  /** The form `handleDeleteConfirm` posts: intent `delete` and the ids joined by commas. */
  function DeleteForm(ids: seq<nat>): FormData {
    map["intent" := "delete", "ids" := JoinIds(ids)]
  }

  /** What the page confirms is what the action deletes: the same ids, in the same order. */
  lemma DeleteFormRoundTrip(ids: seq<nat>, response: ApiResponse)
    requires |ids| >= 1
    ensures Action(DeleteForm(ids), response).sent == Some(DeleteLinks(Nums(ids)))
  {
    ParseJoinRoundTrip(ids);
  }

  /**
   * The toast shown while the page reloads after posting a form: a success toast for
   * a create or an update, nothing for anything else.
   */
  function NavigationToast(intent: Option<string>): (t: Option<Effect>)
    ensures t.Some? <==> intent == Some("create") || intent == Some("update")
    ensures t.Some? ==> t.value.Toast? && t.value.title == "Success"
  {
    if intent == Some("create") then Some(Toast("Success", "Link created successfully"))
    else if intent == Some("update") then Some(Toast("Success", "Link updated successfully"))
    else None
  }

  /**
   * The reload toast repeats the message of a successful create or update, and it is
   * shown whatever the action answered: also for a form the action refused.
   */
  lemma NavigationToastIgnoresOutcome(fd: FormData)
    requires Get(fd, "intent") == Some("create") || Get(fd, "intent") == Some("update")
    ensures Action(fd, Responded(true, "")).result.success ==>
      NavigationToast(Get(fd, "intent")) == Some(Toast("Success", Action(fd, Responded(true, "")).result.message))
    ensures var refused := map["intent" := "create", "title" := ""];
      && Action(refused, Responded(true, "")) == Handled(None, Reply(false, "Title and URL are required"))
      && NavigationToast(Get(refused, "intent")) == Some(Toast("Success", "Link created successfully"))
  {
  }

  /** The admin page's state. The page number lives in the pagination hook. */
  class AdminView {
    var links: seq<Link>
    var query: string
    var searchValue: string
    var selectedLinks: seq<nat>
    var isDeleteDialogOpen: bool
    var deletingIds: seq<nat>
    var log: seq<Effect>
    const pager: Pager

    constructor (data: LoaderData)
      ensures links == data.links && query == data.query && searchValue == data.query
      ensures selectedLinks == [] && !isDeleteDialogOpen && deletingIds == [] && log == []
      ensures fresh(pager) && pager.currentPage == 1
    {
      links, query, searchValue := data.links, data.query, data.query;
      selectedLinks, isDeleteDialogOpen, deletingIds := [], false, [];
      log := [];
      pager := new Pager();
    }

    /** `currentLinks` and the rest of the hook's values, 10 per page. */
    function Page(): PageView<Link>
      reads this, pager
    {
      pager.View(links, ItemsPerPage)
    }

    /**
     * The header checkbox as displayed: `selectedLinks.length === currentLinks.length`.
     * It shows checked right after a header click selected the page, and it can
     * also show checked on a page none of whose rows is selected.
     */
    predicate HeaderBoxChecked()
      reads this, pager
      ensures selectedLinks == PageIds(Page().currentItems) ==> HeaderBoxChecked()
      ensures HeaderBoxChecked() && Page().currentItems != [] ==> selectedLinks != []
    {
      HeaderCheckedAsWritten(selectedLinks, Page().currentItems)
    }

    /** The header checkbox as intended: every row of the current page is checked. */
    predicate AllRowsChecked()
      reads this, pager
    {
      HeaderChecked(selectedLinks, Page().currentItems)
    }

    /** `handleSearch(value)`: the box shows `value`, the hook goes back to page 1, `?q=value` is submitted. */
    method HandleSearch(value: string)
      modifies this, pager
      ensures searchValue == value && pager.currentPage == 1
      ensures log == old(log) + [Submit(map["q" := value])]
      ensures links == old(links) && query == old(query) && selectedLinks == old(selectedLinks)
      ensures isDeleteDialogOpen == old(isDeleteDialogOpen) && deletingIds == old(deletingIds)
    {
      searchValue := value;
      pager.SetCurrentPage(1);
      log := log + [Submit(map["q" := value])];
    }

    /** `onPageChange={setCurrentPage}`: the requested page is taken as it is. */
    method ChangePage(page: int)
      modifies pager
      ensures pager.currentPage == page
    {
      pager.SetCurrentPage(page);
    }

    /**
     * New loader data. The `useEffect` on `[query]` resets the box only when the query
     * changed; a reload with the same query keeps what was typed. Selection, dialog and page are kept.
     */
    method LoaderDataChanged(data: LoaderData)
      modifies this
      ensures links == data.links && query == data.query
      ensures searchValue == if data.query != old(query) then data.query else old(searchValue)
      ensures selectedLinks == old(selectedLinks) && isDeleteDialogOpen == old(isDeleteDialogOpen)
      ensures deletingIds == old(deletingIds) && log == old(log)
    {
      if data.query != query {
        searchValue := data.query;
      }
      links, query := data.links, data.query;
    }

    /**
     * `handleDeleteConfirm(ids)`: with no ids only an error toast appears; otherwise
     * the delete form is submitted, the dialog closes and both id lists are cleared.
     */
    method HandleDeleteConfirm(ids: seq<nat>)
      modifies this
      ensures ids == [] ==>
        && log == old(log) + [Toast("Error", "No links selected")]
        && selectedLinks == old(selectedLinks) && isDeleteDialogOpen == old(isDeleteDialogOpen)
        && deletingIds == old(deletingIds)
      ensures ids != [] ==>
        && log == old(log) + [Submit(DeleteForm(ids))]
        && !isDeleteDialogOpen && deletingIds == [] && selectedLinks == []
      ensures links == old(links) && query == old(query) && searchValue == old(searchValue)
    {
      if |ids| == 0 {
        log := log + [Toast("Error", "No links selected")];
        return;
      }
      log := log + [Submit(DeleteForm(ids))];
      isDeleteDialogOpen := false;
      deletingIds := [];
      selectedLinks := [];
    }

    /** `handleDeleteLink(id)`: stage one id and open the dialog. */
    method HandleDeleteLink(id: nat)
      modifies this
      ensures deletingIds == [id] && isDeleteDialogOpen
      ensures selectedLinks == old(selectedLinks) && links == old(links) && log == old(log)
      ensures searchValue == old(searchValue) && query == old(query)
    {
      deletingIds := [id];
      isDeleteDialogOpen := true;
    }

    /** `handleDeleteSelected`: stage the selection and open the dialog. */
    method HandleDeleteSelected()
      modifies this
      ensures deletingIds == old(selectedLinks) && isDeleteDialogOpen
      ensures selectedLinks == old(selectedLinks) && links == old(links) && log == old(log)
      ensures searchValue == old(searchValue) && query == old(query)
    {
      deletingIds := selectedLinks;
      isDeleteDialogOpen := true;
    }

    /** A row checkbox changes to `checked`. */
    method CheckRowBox(id: nat, checked: bool)
      modifies this
      ensures selectedLinks == CheckRow(old(selectedLinks), id, checked)
      ensures RowChecked(selectedLinks, id) == checked
      ensures deletingIds == old(deletingIds) && isDeleteDialogOpen == old(isDeleteDialogOpen)
      ensures links == old(links) && log == old(log) && searchValue == old(searchValue) && query == old(query)
    {
      selectedLinks := CheckRow(selectedLinks, id, checked);
    }

    /** The header checkbox changes to `checked`. */
    method CheckHeaderBox(checked: bool)
      modifies this
      ensures selectedLinks == CheckHeader(Page().currentItems, checked)
      ensures checked ==> HeaderBoxChecked() && AllRowsChecked()
      ensures HeaderBoxChecked() == AllRowsChecked()
      ensures deletingIds == old(deletingIds) && isDeleteDialogOpen == old(isDeleteDialogOpen)
      ensures links == old(links) && log == old(log) && searchValue == old(searchValue) && query == old(query)
    {
      selectedLinks := CheckHeader(Page().currentItems, checked);
      HeaderCheckedFollowsClicks(selectedLinks, Page().currentItems, 0);
      HeaderReadingsAgreeAfterHeaderClick(Page().currentItems, checked);
    }
  }
}
