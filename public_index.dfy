/**
 * The public gallery route: its loader adds thumbnails and filters by name; the
 * page keeps the search text and its own page number, 20 apps per page.
 */
module PublicIndex {
  import opened Wrappers
  import opened Seqs
  import opened Text
  import opened Links
  import opened Pagination
  import opened PageControls

  const ItemsPerPage: nat := 20

  /** `https://picsum.photos/seed/${id}/300/200`. */
  function ThumbnailUrl(id: nat): string {
    "https://picsum.photos/seed/" + NatStr(id) + "/300/200"
  }

  function WithThumbnail(app: AppLink): AppCard {
    AppCard(app.id, app.name, app.url, ThumbnailUrl(app.id))
  }

  /** `data.map(v => ({...v, thumbnail}))`. */
  function WithThumbnails(apps: seq<AppLink>): (r: seq<AppCard>)
    ensures |r| == |apps|
  {
    seq(|apps|, i requires 0 <= i < |apps| => WithThumbnail(apps[i]))
  }

  /** The thumbnail map keeps each link's id, name and url in place and gives distinct ids distinct thumbnails. */
  lemma ThumbnailsKeepLinks(apps: seq<AppLink>)
    ensures var r := WithThumbnails(apps);
      && |r| == |apps|
      && (forall i :: 0 <= i < |r| ==> r[i].id == apps[i].id && r[i].name == apps[i].name && r[i].url == apps[i].url)
      && (forall i :: 0 <= i < |r| ==> r[i].thumbnail == "https://picsum.photos/seed/" + NatStr(apps[i].id) + "/300/200")
      && (forall i, j :: 0 <= i < |r| && 0 <= j < |r| && apps[i].id != apps[j].id ==> r[i].thumbnail != r[j].thumbnail)
  {
    var r := WithThumbnails(apps);
    forall i, j | 0 <= i < |r| && 0 <= j < |r| && apps[i].id != apps[j].id
      ensures r[i].thumbnail != r[j].thumbnail
    {
      var pre, post := "https://picsum.photos/seed/", "/300/200";
      if r[i].thumbnail == r[j].thumbnail {
        var a, b := NatStr(apps[i].id), NatStr(apps[j].id);
        assert pre + a + post == pre + b + post;
        assert |a| == |b|;
        assert a == (pre + a + post)[|pre|..|pre| + |a|];
        assert b == (pre + b + post)[|pre|..|pre| + |b|];
        NatStrInjective(apps[i].id, apps[j].id);
      }
    }
  }

  function NameMatches(query: string): AppCard -> bool {
    (app: AppCard) => MatchesQuery(app.name, query)
  }

  /** `query ? apps.filter(app => app.name.toLowerCase().includes(query.toLowerCase())) : apps`. */
  function FilterApps(apps: seq<AppCard>, query: string): seq<AppCard> {
    if query != "" then Filter(apps, NameMatches(query)) else apps
  }

  /**
   * The filter keeps exactly the apps whose name matches, case-insensitively,
   * each as often as it occurs and in the original order; filtering again does nothing.
   */
  lemma FilterAppsKeepsMatches(apps: seq<AppCard>, query: string)
    ensures var r := FilterApps(apps, query);
      && IsSubsequence(r, apps)
      && (forall a :: a in r <==> a in apps && MatchesQuery(a.name, query))
      && (forall a :: multiset(r)[a] == if MatchesQuery(a.name, query) then multiset(apps)[a] else 0)
      && FilterApps(r, query) == r
  {
    if query != "" {
      FilterKeepsExactly(apps, NameMatches(query));
      FilterIsSubsequence(apps, NameMatches(query));
      FilterIdempotent(apps, NameMatches(query));
    } else {
      SubsequenceReflexive(apps);
      forall a: AppCard ensures MatchesQuery(a.name, query) { MatchesQueryIgnoresCase(a.name, query); }
    }
  }

  /** The empty-query guard changes nothing: filtering with `''` would keep every app anyway. */
  lemma EmptyQueryFilterIsIdentity(apps: seq<AppCard>)
    ensures FilterApps(apps, "") == apps
    ensures Filter(apps, NameMatches("")) == apps
  {
    forall i | 0 <= i < |apps| ensures NameMatches("")(apps[i]) {
      MatchesQueryIgnoresCase(apps[i].name, "");
    }
    FilterAllKept(apps, NameMatches(""));
  }

  datatype LoaderData = LoaderData(apps: seq<AppCard>, query: string)

  datatype LoaderResult = Loaded(data: LoaderData) | LoaderFailed(message: string)

  /** The loader for `?q=`: the fetched apps with thumbnails, filtered; a failed fetch throws 'Failed to fetch apps'. */
  function Loader(q: Option<string>, fetched: Option<seq<AppLink>>): (r: LoaderResult)
    ensures fetched.None? <==> r == LoaderFailed("Failed to fetch apps")
    ensures fetched.Some? ==> r.Loaded? && r.data.query == q.GetOr("")
  {
    var query := q.GetOr("");
    match fetched
    case None => LoaderFailed("Failed to fetch apps")
    case Some(all) => Loaded(LoaderData(FilterApps(WithThumbnails(all), query), query))
  }

  function LinkNameMatches(query: string): AppLink -> bool {
    (link: AppLink) => MatchesQuery(link.name, query)
  }

  /**
   * What the loader shows is the matching links, in their order, each with its
   * thumbnail; with no query (absent or empty) it is every link.
   */
  lemma LoaderShowsMatchingLinks(q: Option<string>, all: seq<AppLink>)
    ensures var query := q.GetOr("");
      Loader(q, Some(all)).data.apps
        == WithThumbnails(if query != "" then Filter(all, LinkNameMatches(query)) else all)
    ensures q.GetOr("") == "" ==> Loader(q, Some(all)).data.apps == WithThumbnails(all)
  {
    var query := q.GetOr("");
    if query != "" {
      FilterCommutesWithThumbnails(all, query);
    }
  }

  lemma {:induction false} FilterCommutesWithThumbnails(all: seq<AppLink>, query: string)
    ensures Filter(WithThumbnails(all), NameMatches(query)) == WithThumbnails(Filter(all, LinkNameMatches(query)))
  {
    if all != [] {
      FilterCommutesWithThumbnails(all[1..], query);
      assert WithThumbnails(all)[1..] == WithThumbnails(all[1..]);
      assert WithThumbnails(all)[0] == WithThumbnail(all[0]);
      if LinkNameMatches(query)(all[0]) {
        var r := Filter(all[1..], LinkNameMatches(query));
        assert WithThumbnails([all[0]] + r) == [WithThumbnail(all[0])] + WithThumbnails(r);
      }
    }
  }

  /** The gallery page's state: loader data, the search box and the page number. */
  class IndexView {
    var apps: seq<AppCard>
    var query: string
    var searchValue: string
    var currentPage: int
    var log: seq<Effect>

    ghost predicate Valid()
      reads this
    {
      currentPage >= 1
    }

    constructor (data: LoaderData)
      ensures Valid()
      ensures apps == data.apps && query == data.query
      ensures searchValue == data.query && currentPage == 1 && log == []
    {
      apps, query := data.apps, data.query;
      searchValue, currentPage := data.query, 1;
      log := [];
    }

    /** The page math with 20 apps per page. */
    function Page(): PageView<AppCard>
      reads this
    {
      Paginate(apps, ItemsPerPage, currentPage)
    }

    /** The Previous/Next controls are rendered only when there is at least one app to show. */
    predicate ShowsPageControls()
      reads this
    {
      |apps| > 0
    }

    lemma ControlsHaveAPage()
      requires ShowsPageControls()
      ensures Page().totalPages >= 1
    {
    }

    /** `handleSearch(value)`: the box shows `value`, the page goes back to 1 and `?q=value` is submitted. */
    method HandleSearch(value: string)
      requires Valid()
      modifies this
      ensures Valid()
      ensures searchValue == value && currentPage == 1
      ensures log == old(log) + [Submit(map["q" := value])]
      ensures apps == old(apps) && query == old(query)
      ensures Page().startIndex == if |apps| > 0 then 1 else 0
    {
      searchValue := value;
      currentPage := 1;
      log := log + [Submit(map["q" := value])];
    }

    /** `handleClearSearch`: the box is emptied, the page goes back to 1 and `?q=` is submitted. */
    method HandleClearSearch()
      requires Valid()
      modifies this
      ensures Valid()
      ensures searchValue == "" && currentPage == 1
      ensures log == old(log) + [Submit(map["q" := ""])]
      ensures apps == old(apps) && query == old(query)
    {
      searchValue := "";
      currentPage := 1;
      log := log + [Submit(map["q" := ""])];
    }

    /**
     * New loader data. The `useEffect` on `[query]` resets the box only when the query
     * changed; a reload with the same query keeps what was typed. The page is kept.
     */
    method LoaderDataChanged(data: LoaderData)
      requires Valid()
      modifies this
      ensures Valid()
      ensures apps == data.apps && query == data.query
      ensures searchValue == if data.query != old(query) then data.query else old(searchValue)
      ensures currentPage == old(currentPage) && log == old(log)
    {
      if data.query != query {
        searchValue := data.query;
      }
      apps, query := data.apps, data.query;
    }

    /** Previous: a click, unless disabled, sets the page to `Math.max(1, p - 1)`. */
    method PreviousPage()
      requires Valid() && ShowsPageControls()
      modifies this
      ensures Valid()
      ensures currentPage == if PreviousDisabled(old(currentPage)) then old(currentPage) else PreviousTarget(old(currentPage))
      ensures old(currentPage) <= Page().totalPages ==> currentPage <= Page().totalPages
      ensures apps == old(apps) && query == old(query) && searchValue == old(searchValue) && log == old(log)
    {
      if !PreviousDisabled(currentPage) {
        currentPage := PreviousTarget(currentPage);
      }
    }

    /** Next: a click, unless disabled, sets the page to `Math.min(totalPages, p + 1)`. */
    method NextPage()
      requires Valid() && ShowsPageControls()
      modifies this
      ensures Valid()
      ensures currentPage == if NextDisabled(old(currentPage), Page().totalPages) then old(currentPage)
                             else NextTarget(old(currentPage), Page().totalPages)
      ensures old(currentPage) <= Page().totalPages ==> currentPage <= Page().totalPages
      ensures apps == old(apps) && query == old(query) && searchValue == old(searchValue) && log == old(log)
    {
      var totalPages := Page().totalPages;
      if !NextDisabled(currentPage, totalPages) {
        currentPage := NextTarget(currentPage, totalPages);
      }
    }
  }
}
