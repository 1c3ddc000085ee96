/**
 * The older admin route, which works on generated links and a stub action:
 * every known intent is answered with success, and the page updates its own
 * state (dialogs, the link being edited, the selection, the page number) and
 * shows a success toast before the answer arrives.
 */
module LegacyAdmin {
  import opened Wrappers
  import opened Seqs
  import opened Text
  import opened Links
  import opened Pagination
  import opened PageControls
  import opened Selection
  import opened IdList

  const ItemsPerPage: nat := 10

  /** A row of the older page, with its creation time as an ISO string. */
  datatype LegacyLink = LegacyLink(id: nat, url: string, title: string, createdAt: string)

  /** The create dialog's fields. */
  datatype NewLink = NewLink(url: string, title: string)

  const EmptyNewLink := NewLink("", "")

  /**
   * The 40 generated links: link `i + 1` has that id, the url `https://example.com/link-<i + 1>`
   * and the title `Link <i + 1>`; the creation times come from the clock and come in as `stamps`.
   */
  function MockLinks(stamps: seq<string>): (links: seq<LegacyLink>)
    requires |stamps| == 40
    ensures |links| == 40
    ensures forall i :: 0 <= i < 40 ==>
      && links[i].id == i + 1
      && links[i].url == "https://example.com/link-" + NatStr(i + 1)
      && links[i].title == "Link " + NatStr(i + 1)
      && links[i].createdAt == stamps[i]
  {
    seq(40, i requires 0 <= i < 40 =>
      LegacyLink(i + 1, "https://example.com/link-" + NatStr(i + 1), "Link " + NatStr(i + 1), stamps[i]))
  }

  /** Two numbers written after the same prefix differ when the numbers do. */
  lemma PrefixedNumbersDiffer(p: string, m: nat, n: nat)
    ensures p + NatStr(m) == p + NatStr(n) ==> m == n
  {
    if p + NatStr(m) == p + NatStr(n) {
      assert (p + NatStr(m))[|p|..] == NatStr(m);
      assert (p + NatStr(n))[|p|..] == NatStr(n);
      NatStrInjective(m, n);
    }
  }

  /** The generated links have distinct ids, urls and titles. */
  lemma MockLinksDistinct(stamps: seq<string>)
    requires |stamps| == 40
    ensures var links := MockLinks(stamps);
      forall i, j :: 0 <= i < j < 40 ==>
        links[i].id != links[j].id && links[i].url != links[j].url && links[i].title != links[j].title
  {
    var links := MockLinks(stamps);
    forall i, j | 0 <= i < j < 40
      ensures links[i].url != links[j].url && links[i].title != links[j].title
    {
      PrefixedNumbersDiffer("https://example.com/link-", i + 1, j + 1);
      PrefixedNumbersDiffer("Link ", i + 1, j + 1);
    }
  }

  function LinkMatches(query: string): LegacyLink -> bool {
    (link: LegacyLink) => MatchesQuery(link.title, query) || MatchesQuery(link.url, query)
  }

  /** `query ? allLinks.filter(title matches || url matches) : allLinks`. */
  function FilterLinks(links: seq<LegacyLink>, query: string): seq<LegacyLink> {
    if query != "" then Filter(links, LinkMatches(query)) else links
  }

  /**
   * The filter keeps exactly the links whose title or url matches, in order and with
   * their multiplicities; an empty query keeps all; filtering again does nothing.
   */
  lemma FilterLinksKeepsMatches(links: seq<LegacyLink>, query: string)
    ensures var r := FilterLinks(links, query);
      && IsSubsequence(r, links)
      && (forall l :: l in r <==> l in links && (MatchesQuery(l.title, query) || MatchesQuery(l.url, query)))
      && (forall l :: multiset(r)[l] ==
            if MatchesQuery(l.title, query) || MatchesQuery(l.url, query) then multiset(links)[l] else 0)
      && FilterLinks(r, query) == r
      && (query == "" ==> r == links)
  {
    if query != "" {
      FilterKeepsExactly(links, LinkMatches(query));
      FilterIsSubsequence(links, LinkMatches(query));
      FilterIdempotent(links, LinkMatches(query));
    } else {
      SubsequenceReflexive(links);
      forall l: LegacyLink ensures MatchesQuery(l.title, query) { MatchesQueryIgnoresCase(l.title, query); }
    }
  }

  datatype LoaderData = LoaderData(links: seq<LegacyLink>, query: string)

  /** The loader for `?q=` over the generated links. */
  function Loader(q: Option<string>, stamps: seq<string>): (r: LoaderData)
    requires |stamps| == 40
    ensures r.query == q.GetOr("")
    ensures r.links == FilterLinks(MockLinks(stamps), q.GetOr(""))
    ensures q.GetOr("") == "" ==> |r.links| == 40
  {
    var query := q.GetOr("");
    LoaderData(FilterLinks(MockLinks(stamps), query), query)
  }

  /** The stub action: a known intent succeeds with its message, anything else is 'Invalid action'. */
  function Action(fd: FormData): (r: ActionResult)
    ensures r.Reply?
    ensures r.success <==> Get(fd, "intent") in {Some("create"), Some("update"), Some("delete")}
    ensures Get(fd, "intent") == Some("create") ==> r.message == "Link created successfully"
    ensures Get(fd, "intent") == Some("update") ==> r.message == "Link updated successfully"
    ensures Get(fd, "intent") == Some("delete") ==> r.message == "Link deleted successfully"
    ensures !r.success ==> r.message == "Invalid action"
  {
    var intent := Get(fd, "intent");
    if intent == Some("create") then Reply(true, "Link created successfully")
    else if intent == Some("update") then Reply(true, "Link updated successfully")
    else if intent == Some("delete") then Reply(true, "Link deleted successfully")
    else Reply(false, "Invalid action")
  }

  /** `{intent: 'create', ...newLink}`. */
  function CreateForm(v: NewLink): FormData {
    map["intent" := "create", "url" := v.url, "title" := v.title]
  }

  /** `{intent: 'update', id, ...rest}` for the link being edited. */
  function UpdateForm(link: LegacyLink): FormData {
    map["intent" := "update", "id" := NatStr(link.id), "url" := link.url, "title" := link.title,
        "createdAt" := link.createdAt]
  }

  /** `{intent: 'delete', id}`. */
  function DeleteOneForm(id: nat): FormData {
    map["intent" := "delete", "id" := NatStr(id)]
  }

  /** `{intent: 'delete', ids: selectedLinks.join(',')}`. */
  function DeleteSelectedForm(ids: seq<nat>): FormData {
    map["intent" := "delete", "ids" := JoinIds(ids)]
  }

  /** A form the page posts is one the action accepts; a search (`{q}`) has no intent and goes to the loader. */
  predicate Accepted(e: Effect) {
    e.Submit? && "intent" in e.form ==> Action(e.form).success
  }

  /** The update form carries the id back as a number the action side can read. */
  lemma UpdateFormCarriesId(link: LegacyLink)
    ensures Action(UpdateForm(link)) == Reply(true, "Link updated successfully")
    ensures ToNumber(UpdateForm(link)["id"]) == Num(link.id)
  {
    ToNumberOfNatStr(link.id);
  }

  /** The ids of a bulk delete come back as posted. */
  lemma DeleteSelectedFormCarriesIds(ids: seq<nat>)
    requires |ids| >= 1
    ensures SelectedIds(DeleteSelectedForm(ids)) == Some(Nums(ids))
  {
    ParseJoinRoundTrip(ids);
    JoinNonEmpty(ids);
  }

  /** The older admin page's state. */
  class LegacyAdminView {
    var links: seq<LegacyLink>
    var query: string
    var currentPage: int
    var searchValue: string
    var selectedLinks: seq<nat>
    var isCreateDialogOpen: bool
    var isEditDialogOpen: bool
    var editingLink: Option<LegacyLink>
    var newLink: NewLink
    var log: seq<Effect>

    /** The page number never drops below 1, and every form posted so far is accepted by the action. */
    ghost predicate Valid()
      reads this
    {
      && currentPage >= 1
      && forall e :: e in log ==> Accepted(e)
    }

    constructor (data: LoaderData)
      ensures Valid()
      ensures links == data.links && query == data.query && searchValue == data.query
      ensures currentPage == 1 && selectedLinks == [] && !isCreateDialogOpen && !isEditDialogOpen
      ensures editingLink == None && newLink == EmptyNewLink && log == []
    {
      links, query, searchValue := data.links, data.query, data.query;
      currentPage, selectedLinks := 1, [];
      isCreateDialogOpen, isEditDialogOpen := false, false;
      editingLink, newLink := None, EmptyNewLink;
      log := [];
    }

    /** The page math with 10 links per page. */
    function Page(): PageView<LegacyLink>
      reads this
    {
      Paginate(links, ItemsPerPage, currentPage)
    }

    function PageRows(): seq<Link>
      reads this
    {
      var page := Page().currentItems;
      seq(|page|, i requires 0 <= i < |page| => Link(page[i].id, page[i].url, page[i].title))
    }

    /** The Previous/Next controls are rendered only when there is at least one link. */
    predicate ShowsPageControls()
      reads this
    {
      |links| > 0
    }

    /** `handleSearch(value)`. */
    method HandleSearch(value: string)
      requires Valid()
      modifies this
      ensures Valid()
      ensures searchValue == value && currentPage == 1
      ensures log == old(log) + [Submit(map["q" := value])]
      ensures links == old(links) && query == old(query) && selectedLinks == old(selectedLinks)
      ensures isCreateDialogOpen == old(isCreateDialogOpen) && isEditDialogOpen == old(isEditDialogOpen)
      ensures editingLink == old(editingLink) && newLink == old(newLink)
    {
      searchValue := value;
      currentPage := 1;
      log := log + [Submit(map["q" := value])];
    }

    /**
     * New loader data. The `useEffect` on `[query]` resets the box only when the query
     * changed; a reload with the same query keeps what was typed.
     */
    method LoaderDataChanged(data: LoaderData)
      requires Valid()
      modifies this
      ensures Valid()
      ensures links == data.links && query == data.query
      ensures searchValue == if data.query != old(query) then data.query else old(searchValue)
      ensures currentPage == old(currentPage) && selectedLinks == old(selectedLinks) && log == old(log)
      ensures isCreateDialogOpen == old(isCreateDialogOpen) && isEditDialogOpen == old(isEditDialogOpen)
      ensures editingLink == old(editingLink) && newLink == old(newLink)
    {
      if data.query != query {
        searchValue := data.query;
      }
      links, query := data.links, data.query;
    }

    /** The Add Link button. */
    method OpenCreateDialog()
      requires Valid()
      modifies this
      ensures Valid()
      ensures searchValue == old(searchValue) && query == old(query)
      ensures isCreateDialogOpen && newLink == old(newLink) && log == old(log)
      ensures isEditDialogOpen == old(isEditDialogOpen) && editingLink == old(editingLink)
      ensures currentPage == old(currentPage) && selectedLinks == old(selectedLinks) && links == old(links)
    {
      isCreateDialogOpen := true;
    }

    /** Typing in the create dialog's title box changes the title and nothing else. */
    method SetNewTitle(title: string)
      requires Valid()
      modifies this
      ensures Valid()
      ensures searchValue == old(searchValue) && query == old(query)
      ensures newLink == old(newLink).(title := title) && newLink.url == old(newLink.url)
      ensures isCreateDialogOpen == old(isCreateDialogOpen) && log == old(log)
      ensures isEditDialogOpen == old(isEditDialogOpen) && editingLink == old(editingLink)
      ensures currentPage == old(currentPage) && selectedLinks == old(selectedLinks) && links == old(links)
    {
      newLink := newLink.(title := title);
    }

    /** Typing in the create dialog's url box changes the url and nothing else. */
    method SetNewUrl(url: string)
      requires Valid()
      modifies this
      ensures Valid()
      ensures searchValue == old(searchValue) && query == old(query)
      ensures newLink == old(newLink).(url := url) && newLink.title == old(newLink.title)
      ensures isCreateDialogOpen == old(isCreateDialogOpen) && log == old(log)
      ensures isEditDialogOpen == old(isEditDialogOpen) && editingLink == old(editingLink)
      ensures currentPage == old(currentPage) && selectedLinks == old(selectedLinks) && links == old(links)
    {
      newLink := newLink.(url := url);
    }

    /** Cancel in the create dialog closes it and keeps what was typed. */
    method CancelCreate()
      requires Valid()
      modifies this
      ensures Valid()
      ensures searchValue == old(searchValue) && query == old(query)
      ensures !isCreateDialogOpen && newLink == old(newLink) && log == old(log)
      ensures isEditDialogOpen == old(isEditDialogOpen) && editingLink == old(editingLink)
      ensures currentPage == old(currentPage) && selectedLinks == old(selectedLinks) && links == old(links)
    {
      isCreateDialogOpen := false;
    }

    /**
     * `handleCreateLink`: posts the typed fields unchecked, closes the dialog, empties the
     * fields and shows the action's own success message.
     */
    method HandleCreateLink()
      requires Valid()
      modifies this
      ensures Valid()
      ensures searchValue == old(searchValue) && query == old(query)
      ensures log == old(log) + [Submit(CreateForm(old(newLink))), Toast("Success", "Link created successfully")]
      ensures Action(CreateForm(old(newLink))).message == "Link created successfully"
      ensures !isCreateDialogOpen && newLink == EmptyNewLink
      ensures isEditDialogOpen == old(isEditDialogOpen) && editingLink == old(editingLink)
      ensures currentPage == old(currentPage) && selectedLinks == old(selectedLinks) && links == old(links)
    {
      log := log + [Submit(CreateForm(newLink)), Toast("Success", "Link created successfully")];
      isCreateDialogOpen := false;
      newLink := EmptyNewLink;
    }

    /** The Edit menu item: the row becomes the link being edited and the edit dialog opens. */
    method HandleEditLink(link: LegacyLink)
      requires Valid()
      modifies this
      ensures Valid()
      ensures searchValue == old(searchValue) && query == old(query)
      ensures editingLink == Some(link) && isEditDialogOpen && log == old(log)
      ensures isCreateDialogOpen == old(isCreateDialogOpen) && newLink == old(newLink)
      ensures currentPage == old(currentPage) && selectedLinks == old(selectedLinks) && links == old(links)
    {
      editingLink := Some(link);
      isEditDialogOpen := true;
    }

    /** Typing in the edit dialog's title box; with no link being edited it stays empty. */
    method SetEditTitle(title: string)
      requires Valid()
      modifies this
      ensures Valid()
      ensures searchValue == old(searchValue) && query == old(query)
      ensures editingLink == if old(editingLink).Some? then Some(old(editingLink).value.(title := title)) else None
      ensures isEditDialogOpen == old(isEditDialogOpen) && log == old(log)
      ensures isCreateDialogOpen == old(isCreateDialogOpen) && newLink == old(newLink)
      ensures currentPage == old(currentPage) && selectedLinks == old(selectedLinks) && links == old(links)
    {
      if editingLink.Some? {
        editingLink := Some(editingLink.value.(title := title));
      }
    }

    /** Typing in the edit dialog's url box; with no link being edited it stays empty. */
    method SetEditUrl(url: string)
      requires Valid()
      modifies this
      ensures Valid()
      ensures searchValue == old(searchValue) && query == old(query)
      ensures editingLink == if old(editingLink).Some? then Some(old(editingLink).value.(url := url)) else None
      ensures isEditDialogOpen == old(isEditDialogOpen) && log == old(log)
      ensures isCreateDialogOpen == old(isCreateDialogOpen) && newLink == old(newLink)
      ensures currentPage == old(currentPage) && selectedLinks == old(selectedLinks) && links == old(links)
    {
      if editingLink.Some? {
        editingLink := Some(editingLink.value.(url := url));
      }
    }

    /** Cancel in the edit dialog closes it and forgets the link being edited. */
    method CancelEdit()
      requires Valid()
      modifies this
      ensures Valid()
      ensures searchValue == old(searchValue) && query == old(query)
      ensures !isEditDialogOpen && editingLink == None && log == old(log)
      ensures isCreateDialogOpen == old(isCreateDialogOpen) && newLink == old(newLink)
      ensures currentPage == old(currentPage) && selectedLinks == old(selectedLinks) && links == old(links)
    {
      isEditDialogOpen := false;
      editingLink := None;
    }

    /**
     * `handleUpdateLink`: with no link being edited nothing happens; otherwise the
     * link is posted with its id, the dialog closes and a success toast appears.
     */
    method HandleUpdateLink()
      requires Valid()
      modifies this
      ensures Valid()
      ensures searchValue == old(searchValue) && query == old(query)
      ensures old(editingLink).None? ==>
        && log == old(log) && isEditDialogOpen == old(isEditDialogOpen) && editingLink == None
      ensures old(editingLink).Some? ==>
        && log == old(log) + [Submit(UpdateForm(old(editingLink).value)), Toast("Success", "Link updated successfully")]
        && Action(UpdateForm(old(editingLink).value)).message == "Link updated successfully"
        && !isEditDialogOpen && editingLink == None
      ensures isCreateDialogOpen == old(isCreateDialogOpen) && newLink == old(newLink)
      ensures currentPage == old(currentPage) && selectedLinks == old(selectedLinks) && links == old(links)
    {
      if editingLink.None? {
        return;
      }
      log := log + [Submit(UpdateForm(editingLink.value)), Toast("Success", "Link updated successfully")];
      isEditDialogOpen := false;
      editingLink := None;
    }

    /** `handleDeleteLink(id)`: posts the one id and shows the action's own success message. */
    method HandleDeleteLink(id: nat)
      requires Valid()
      modifies this
      ensures Valid()
      ensures searchValue == old(searchValue) && query == old(query)
      ensures log == old(log) + [Submit(DeleteOneForm(id)), Toast("Success", "Link deleted successfully")]
      ensures Action(DeleteOneForm(id)).message == "Link deleted successfully"
      ensures selectedLinks == old(selectedLinks) && currentPage == old(currentPage) && links == old(links)
      ensures isCreateDialogOpen == old(isCreateDialogOpen) && isEditDialogOpen == old(isEditDialogOpen)
      ensures editingLink == old(editingLink) && newLink == old(newLink)
    {
      log := log + [Submit(DeleteOneForm(id)), Toast("Success", "Link deleted successfully")];
    }

    /** `handleDeleteSelected`: posts the selection joined by commas and clears it. */
    method HandleDeleteSelected()
      requires Valid()
      modifies this
      ensures Valid()
      ensures searchValue == old(searchValue) && query == old(query)
      ensures log == old(log) + [Submit(DeleteSelectedForm(old(selectedLinks))),
                                 Toast("Success", "Selected links deleted successfully")]
      ensures selectedLinks == [] && currentPage == old(currentPage) && links == old(links)
      ensures isCreateDialogOpen == old(isCreateDialogOpen) && isEditDialogOpen == old(isEditDialogOpen)
      ensures editingLink == old(editingLink) && newLink == old(newLink)
    {
      log := log + [Submit(DeleteSelectedForm(selectedLinks)), Toast("Success", "Selected links deleted successfully")];
      selectedLinks := [];
    }

    /** A row checkbox changes to `checked`. */
    method CheckRowBox(id: nat, checked: bool)
      requires Valid()
      modifies this
      ensures Valid()
      ensures searchValue == old(searchValue) && query == old(query)
      ensures selectedLinks == CheckRow(old(selectedLinks), id, checked)
      ensures RowChecked(selectedLinks, id) == checked
      ensures log == old(log) && currentPage == old(currentPage) && links == old(links)
      ensures isCreateDialogOpen == old(isCreateDialogOpen) && isEditDialogOpen == old(isEditDialogOpen)
      ensures editingLink == old(editingLink) && newLink == old(newLink)
    {
      selectedLinks := CheckRow(selectedLinks, id, checked);
    }

    /** The header checkbox changes to `checked`: all rows of this page, or none. */
    method CheckHeaderBox(checked: bool)
      requires Valid()
      modifies this
      ensures Valid()
      ensures searchValue == old(searchValue) && query == old(query)
      ensures selectedLinks == CheckHeader(PageRows(), checked)
      ensures checked ==> HeaderChecked(selectedLinks, PageRows())
      ensures log == old(log) && currentPage == old(currentPage) && links == old(links)
      ensures isCreateDialogOpen == old(isCreateDialogOpen) && isEditDialogOpen == old(isEditDialogOpen)
      ensures editingLink == old(editingLink) && newLink == old(newLink)
    {
      selectedLinks := CheckHeader(PageRows(), checked);
      HeaderCheckedFollowsClicks(selectedLinks, PageRows(), 0);
    }

    /** Previous: a click, unless disabled, sets the page to `Math.max(1, p - 1)`. */
    method PreviousPage()
      requires Valid() && ShowsPageControls()
      modifies this
      ensures Valid()
      ensures searchValue == old(searchValue) && query == old(query)
      ensures currentPage == AfterClick(old(currentPage), Page().totalPages, PreviousClick)
      ensures old(currentPage) <= Page().totalPages ==> currentPage <= Page().totalPages
      ensures log == old(log) && selectedLinks == old(selectedLinks) && links == old(links)
      ensures isCreateDialogOpen == old(isCreateDialogOpen) && isEditDialogOpen == old(isEditDialogOpen)
      ensures editingLink == old(editingLink) && newLink == old(newLink)
    {
      if !PreviousDisabled(currentPage) {
        currentPage := PreviousTarget(currentPage);
      }
    }

    /** Next: a click, unless disabled, sets the page to `Math.min(totalPages, p + 1)`. */
    method NextPage()
      requires Valid() && ShowsPageControls()
      modifies this
      ensures Valid()
      ensures searchValue == old(searchValue) && query == old(query)
      ensures currentPage == AfterClick(old(currentPage), Page().totalPages, NextClick)
      ensures old(currentPage) <= Page().totalPages ==> currentPage <= Page().totalPages
      ensures log == old(log) && selectedLinks == old(selectedLinks) && links == old(links)
      ensures isCreateDialogOpen == old(isCreateDialogOpen) && isEditDialogOpen == old(isEditDialogOpen)
      ensures editingLink == old(editingLink) && newLink == old(newLink)
    {
      var totalPages := Page().totalPages;
      if !NextDisabled(currentPage, totalPages) {
        currentPage := NextTarget(currentPage, totalPages);
      }
    }
  }
}
