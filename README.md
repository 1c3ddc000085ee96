# app-links-manager: list management, forms and actions

This project models, in Dafny, the list-management layer of app-links-manager. That is a Remix web application with two parts:

- a public gallery of "app links" (name, url, thumbnail), with search and pagination;
- an admin interface for creating, editing and bulk-deleting links through an HTTP API.

The model covers these pieces:

- **Pagination hook** (`usePagination`). The page number is state and starts at 1. From it and the list, the hook derives the page count, the shown range and the page's slice. Module `Pagination`: the functions, plus class `Pager` for the page-number state.
- **Page controls.** Previous and Next ask for `max(1, p-1)` and `min(totalPages, p+1)`. They are disabled at page 1 and at the last page. The controls also show the items summary and the "Page p of t" caption. Module `PageControls`.
- **Public gallery route** (`_index.tsx`). The loader adds thumbnails and filters by name. The page keeps the search text and its own page number, 20 apps per page. Module `PublicIndex`, class `IndexView`.
- **Admin route** (`admin/index.tsx`):
  - the loader filters by name or url and renames `name` to `title`;
  - the action dispatches on `intent` to create, update or delete;
  - the page handles search, delete staging and confirmation, and the row and header checkboxes, 10 links per page.

  Module `AdminIndex`, class `AdminView`.
- **Legacy admin route** (`admin.tsx`). It uses generated links and a stub action, and keeps its own dialogs and edit state. Module `LegacyAdmin`, class `LegacyAdminView`.
- **Create, edit and delete routes.** Each has an action (validation, one API call, and the mapping of the answer to `{success, message}`) and a dialog with its own state. Modules `AddLink`, `EditLink` and `DeleteLink`, with classes `AddLinkDialog`, `EditLinkDialog` and `DeleteLinkDialog`.
- **PR chart of the docs page** (`docs/script.js`). Authors are deduplicated into the chart labels, and a `reduce` counts them. Module `PrChart`.

Shared modules:

- `Seqs`: JavaScript `filter` and `slice`, and subsequences.
- `Text`: ASCII `toLowerCase`, `includes`, `split` and `join` on one character, `String(n)`, and `Number(token)`.
- `Links`: the records, form data, API requests and responses, action results, and UI effects.
- `Selection`: the checkbox logic that both admin pages share.
- `IdList`: the comma-separated id field.

How the model represents the runtime:

- **API calls.** The model does not perform them. An action returns the request it would send (`sent`) and its reply. The API's answer is an input: `Responded(ok, body)` or `Threw`.
- **UI side effects.** Calls to `submit`/`fetcher.submit`, toasts, `onOpenChange(false)` (as `CloseDialog`, from the submit paths and from Cancel) and the `afterDelete` callback are recorded, in order, in a `log` field of the view or dialog class. A page's own dialog flags, such as the legacy page's `isCreateDialogOpen`, are plain fields.
- **React state.** A `useState` variable is a class field. A handler is a method that changes those fields and states the whole new state.
- **`useEffect` on `query`.** It is the method `LoaderDataChanged`, which is called with each new loader data. It resets the search box only when the query differs from the previous one, as the `[query]` dependency list does.

## Model

| member | source | states |
|---|---|---|
| Seqs.Filter | app/routes/_index.tsx:37 | `filter` returns only elements the predicate accepts, all taken from the input, never more than the input |
| Seqs.FilterKeepsExactly | app/routes/_index.tsx:37 | an element is in the result iff it is in the input and accepted; accepted elements keep their multiplicity, rejected ones have none |
| Seqs.FilterIsSubsequence | app/routes/_index.tsx:37 | the result keeps the input order (it is a subsequence of the input) |
| Seqs.FilterIdempotent | app/routes/_index.tsx:37 | filtering twice with the same predicate equals filtering once |
| Seqs.FilterAllKept | app/routes/_index.tsx:36-38 | when every element is accepted the filter returns the input unchanged |
| Seqs.SliceIndex | app/hooks/use-pagination.ts:9 | a `slice` bound is clamped into `[0, n]` and a negative bound counts from the end |
| Seqs.Slice | app/hooks/use-pagination.ts:9 | `slice(start, end)` is never longer than the input; for `0 <= start <= end` it has `max(0, min(end, n) - start)` elements and element `i` is `s[start + i]` |
| Text.Lower | app/routes/_index.tsx:37 | lowercasing keeps the length, leaves no capital letter, and changes only capital letters |
| Text.LowerIdempotent | app/routes/_index.tsx:37 | lowercasing twice equals lowercasing once |
| Text.IncludesIffOccurs | app/routes/_index.tsx:37 | `includes` holds iff the needle occurs at some position of the text |
| Text.MatchesQueryIgnoresCase | app/routes/_index.tsx:37 | the search match ignores the case of both the text and the query, and the empty query matches everything |
| Text.Split | app/routes/delete-link/index.tsx:16 | `split(',')` gives at least one token and no token contains the separator |
| Text.Join | app/routes/delete-link/index.tsx:87 | no contract; `join` on one separator, specified by `SplitJoin` and `JoinSplit` |
| Text.SplitCount | app/routes/delete-link/index.tsx:16 | `split` gives one more token than there are separators |
| Text.SplitJoin | app/routes/delete-link/index.tsx:16 | joining non-empty, separator-free parts and splitting the result gives the parts back |
| Text.JoinSplit | app/routes/delete-link/index.tsx:16 | splitting any string and joining the tokens gives the string back |
| Text.NatStr | app/routes/delete-link/index.tsx:87 | `String(n)` of a natural number is a non-empty string of decimal digits |
| Text.DecimalRoundTrip | app/routes/delete-link/index.tsx:16 | reading back the decimal digits of `String(n)` gives `n` |
| Text.NatStrInjective | app/routes/_index.tsx:32 | distinct numbers are written differently |
| Text.ToNumber | app/routes/delete-link/index.tsx:16 | no contract; `Number(token)` as modelled (see "## Left out"), specified by `ToNumberOfNatStr` |
| Text.ToNumberOfNatStr | app/routes/delete-link/index.tsx:16 | `Number(String(n))` is `n`, and `Number('')` is 0 |
| Links.ReplyFor | app/routes/delete-link/index.tsx:26-31 | an answered call succeeds iff the response is ok; a failure carries the error body, or the fallback message when the body is empty |
| Links.Answer | app/routes/add-link/index.tsx:24-41 | inside `try`, success iff the call answered ok; an answer gives the ok message, or on failure the error body or the fallback message (`ReplyFor`); a thrown error becomes 'Action failed' |
| Links.AnswerUncaught | app/routes/edit-link/index.tsx:27-40 | without `try`, a thrown error leaves the action; an answer gives success iff ok, with the ok message, or on failure the error body or the fallback message (`ReplyFor`) |
| Pagination.TotalPages | app/hooks/use-pagination.ts:6 | `ceil(n / k)`: the pages hold all `n` items, one page fewer would not, and the count is 0 iff the list is empty |
| Pagination.StartIndex | app/hooks/use-pagination.ts:7 | no contract; specified by `PageCountMatchesRange`, `PastLastPage` and `EmptyListView`: 0 for an empty list, `(p-1)k + 1` otherwise |
| Pagination.EndIndex | app/hooks/use-pagination.ts:8 | the last shown position never exceeds the list length |
| Pagination.CurrentItems | app/hooks/use-pagination.ts:9 | no contract; specified by `PageIsContiguousSlice`, `PageZeroIsEmpty` and `NegativePageCountsFromEnd` |
| Pagination.Paginate | app/hooks/use-pagination.ts:3-13 | no contract; the values the hook returns, specified by `PageCountMatchesRange` and `PagesPartitionItems` |
| Pagination.PageIsContiguousSlice | app/hooks/use-pagination.ts:9 | for page `p >= 1` the page is the contiguous run from `(p-1)k` in list order, with at most `k` items and `endIndex <= n` |
| Pagination.PageCountMatchesRange | app/hooks/use-pagination.ts:7-9 | for `1 <= p <= totalPages`, `1 <= startIndex <= endIndex <= n` and the page has `endIndex - startIndex + 1` items |
| Pagination.PastLastPage | app/hooks/use-pagination.ts:4-9 | the page is not clamped: past the last page nothing is shown, and `startIndex > endIndex` for a non-empty list |
| Pagination.PageZeroIsEmpty | app/hooks/use-pagination.ts:9 | page 0 shows nothing |
| Pagination.NegativePageCountsFromEnd | app/hooks/use-pagination.ts:9 | a negative page number takes its slice counted from the end of the list, as `slice` does |
| Pagination.EmptyListView | app/hooks/use-pagination.ts:6-9 | an empty list shows no items, range 0–0 and 0 pages |
| Pagination.AllPages | app/hooks/use-pagination.ts:6-9 | the sequence of pages has `totalPages` entries |
| Pagination.PagesFromCoverRest | app/hooks/use-pagination.ts:6-9 | the pages from a given one onward, concatenated, are the rest of the list |
| Pagination.PagesPartitionItems | app/hooks/use-pagination.ts:6-9 | pages 1..totalPages concatenated give exactly the list, and each holds between 1 and `k` items |
| Pagination.TwentyFiveInPagesOfTen | app/hooks/use-pagination.ts:6-9 | 25 items at 10 per page: 3 pages, page 1 shows 1–10 and page 3 shows 21–25 |
| Pagination.Pager.constructor | app/hooks/use-pagination.ts:4 | the page number starts at 1 |
| Pagination.Pager.SetCurrentPage | app/hooks/use-pagination.ts:4-13 | the setter stores the requested page as given, without clamping |
| PageControls.PreviousTarget | app/components/app-links/pagination.tsx:44-45 | Previous (here and at lines 67-68) asks for a page of at least 1 and not above the current one; from a page `>= 1` the request stays on the page iff the button is disabled (page 1) |
| PageControls.PreviousDisabled | app/components/app-links/pagination.tsx:45 | no contract; specified by `PreviousTarget` (the request stays on the page iff the button is disabled) |
| PageControls.NextTarget | app/components/app-links/pagination.tsx:52-53 | Next (here and at lines 78-79) asks for a page of at most `totalPages` and at most one further; up to the last page the request stays on the page iff the button is disabled (last page) |
| PageControls.NextDisabled | app/components/app-links/pagination.tsx:53 | no contract; specified by `NextTarget` (the request stays on the page iff the button is disabled) |
| PageControls.NavigationStaysInRange | app/components/app-links/pagination.tsx:44-52 | for `1 <= p <= totalPages` both requests stay in `[1, totalPages]`, and away from the bounds they move by exactly one page |
| PageControls.ClicksStayInRange | app/components/app-links/pagination.tsx:44-53 | any sequence of clicks, with disabled buttons doing nothing, keeps a valid page valid |
| PageControls.NextClicks | app/components/app-links/pagination.tsx:52 | `m` Next clicks form a sequence of length `m` |
| PageControls.NextClicksAdvance | app/components/app-links/pagination.tsx:52-53 | `m` Next clicks from a valid page reach `min(p + m, totalPages)` |
| PageControls.ItemsSummaryShowsProps | app/components/app-links/pagination.tsx:24 | the "Showing a-b of c items" line reads back as exactly the start, end and total it was given |
| PageControls.ItemsSummary | app/components/app-links/pagination.tsx:24 | no contract; specified by `ItemsSummaryShowsProps` |
| PageControls.PageCaptionShowsProps | app/components/app-links/pagination.tsx:73 | the "Page p of t" caption reads back as exactly the page and the page count |
| PageControls.PageCaption | app/components/app-links/pagination.tsx:73 | no contract; specified by `PageCaptionShowsProps` |
| Selection.CheckRow | app/routes/admin/index.tsx:299-305 | checking a row appends its id; unchecking removes every occurrence of it and keeps every other id's membership |
| Selection.UncheckKeepsOthers | app/routes/admin/index.tsx:303 | unchecking keeps the other ids in order and with their multiplicities |
| Selection.PageIds | app/routes/admin/index.tsx:274 | the page's ids in table order, one per row |
| Selection.CheckHeader | app/routes/admin/index.tsx:272-279 | checking the header selects exactly the current page's ids, in table order and one per row (`PageIds`); unchecking clears the whole selection |
| Selection.HeaderCheckedAsWrittenMisreports | app/routes/admin/index.tsx:271 | the count comparison shows the header checked on a page none of whose rows is checked |
| Selection.HeaderCheckedAsWritten | app/routes/admin/index.tsx:271 | no contract; the count comparison as written, specified by `HeaderCheckedAsWrittenMisreports` and `HeaderReadingsAgreeAfterHeaderClick` |
| Selection.HeaderChecked | app/routes/admin/index.tsx:271 | no contract; the intended every-row reading, specified by `HeaderCheckedFollowsClicks` |
| Selection.HeaderCheckedFollowsClicks | app/routes/admin/index.tsx:271-305 | checking the header checks it; unchecking leaves it checked only on an empty page; unchecking any row unchecks it |
| Selection.HeaderReadingsAgreeAfterHeaderClick | app/routes/admin/index.tsx:271-279 | right after a header click the count comparison and the every-row reading agree |
| IdList.ParseIds | app/routes/delete-link/index.tsx:16 | one number per comma-separated token, commas + 1 of them, in token order |
| IdList.JoinIds | app/routes/delete-link/index.tsx:87 | no contract; `ids.join(',')`, specified by `ParseJoinRoundTrip`, `EmptyListDoesNotRoundTrip` and `JoinNonEmpty` |
| IdList.Nums | app/routes/delete-link/index.tsx:16 | the numbers of the ids keep their count |
| IdList.ParseJoinRoundTrip | app/routes/delete-link/index.tsx:16 | (ids joined at line 87) parsing `ids.join(',')` gives back the same ids in the same order, for a non-empty list |
| IdList.EmptyListDoesNotRoundTrip | app/routes/delete-link/index.tsx:16 | (ids joined at line 87) the empty list joins to `''`, which parses to the single id 0 |
| IdList.IdsAsWritten | app/routes/delete-link/index.tsx:16 | no contract; the as-written parse, specified by `GuardAsWrittenOnlyCatchesAbsentField` and `SelectedIdsIffFilled` |
| IdList.GuardAsWrittenOnlyCatchesAbsentField | app/routes/delete-link/index.tsx:16-20 | as written, the "no links selected" guard fires iff the field is absent, and an empty field yields ids `[0]` |
| IdList.SelectedIds | app/routes/delete-link/index.tsx:16-20 | corrected: when ids are returned there is at least one |
| IdList.SelectedIdsIffFilled | app/routes/delete-link/index.tsx:16-20 | corrected: no ids iff the field is absent or empty; otherwise the same ids as written; a joined non-empty list comes back as sent |
| IdList.JoinNonEmpty | app/routes/delete-link/index.tsx:87 | a non-empty id list joins to a non-empty field |
| PublicIndex.WithThumbnails | app/routes/_index.tsx:29-34 | the thumbnail map keeps the number of links |
| PublicIndex.ThumbnailsKeepLinks | app/routes/_index.tsx:29-34 | each card keeps its link's id, name and url in place, gets `https://picsum.photos/seed/{id}/300/200`, and distinct ids get distinct thumbnails |
| PublicIndex.FilterApps | app/routes/_index.tsx:36-38 | no contract; specified by `FilterAppsKeepsMatches` and `EmptyQueryFilterIsIdentity` |
| PublicIndex.FilterAppsKeepsMatches | app/routes/_index.tsx:36-38 | the search keeps exactly the apps whose name contains the query ignoring case, in order and with multiplicities, and is idempotent |
| PublicIndex.EmptyQueryFilterIsIdentity | app/routes/_index.tsx:36-38 | an empty query returns every app in order, and filtering by `''` would too |
| PublicIndex.Loader | app/routes/_index.tsx:22-43 | a failed fetch iff 'Failed to fetch apps'; otherwise the query is `q` or `''` |
| PublicIndex.LoaderShowsMatchingLinks | app/routes/_index.tsx:29-38 | the loaded apps are the matching links in order, each with its thumbnail; with no query, every link |
| PublicIndex.FilterCommutesWithThumbnails | app/routes/_index.tsx:29-37 | filtering after adding thumbnails equals adding thumbnails after filtering the links by name |
| PublicIndex.IndexView.constructor | app/routes/_index.tsx:47-51 | the page starts at 1 and the search box shows the loader's query |
| PublicIndex.IndexView.ControlsHaveAPage | app/routes/_index.tsx:114-149 | where the controls are shown (a non-empty list) there is at least one page |
| PublicIndex.IndexView.HandleSearch | app/routes/_index.tsx:66-70 | the box shows the new text, the page returns to 1, `{q: value}` is submitted, and the range starts at 1, or 0 for an empty list |
| PublicIndex.IndexView.HandleClearSearch | app/routes/_index.tsx:72-76 | the box is emptied, the page returns to 1 and `{q: ''}` is submitted |
| PublicIndex.IndexView.LoaderDataChanged | app/routes/_index.tsx:55-57 | new loader data replaces the list and the query; the box is reset to the query only when the query changed, and otherwise keeps what was typed; the page is kept |
| PublicIndex.IndexView.PreviousPage | app/routes/_index.tsx:135-136 | a click on either Previous button (also lines 178-179), unless at page 1, moves to `max(1, p-1)`; the page stays at least 1 and a page within range stays within range |
| PublicIndex.IndexView.NextPage | app/routes/_index.tsx:143-144 | a click on either Next button (also lines 189-190), unless at the last page, moves to `min(totalPages, p+1)`; the page stays at least 1 and a page within range stays within range |
| AdminIndex.FilterLinksKeepsMatches | app/routes/admin/index.tsx:28-34 | the search keeps exactly the links whose name or url contains the query ignoring case, in order and with multiplicities; idempotent; an empty query keeps all |
| AdminIndex.FilterLinks | app/routes/admin/index.tsx:28-34 | no contract; specified by `FilterLinksKeepsMatches` |
| AdminIndex.ToRows | app/routes/admin/index.tsx:36-40 | the row map keeps the number of links |
| AdminIndex.RowsKeepLinks | app/routes/admin/index.tsx:36-40 | each row keeps its link's id and url with the name as title, in order, and the edit button's `{id, name: title, url}` (line 321) gives the link back |
| AdminIndex.Loader | app/routes/admin/index.tsx:20-47 | a failed fetch iff 'Failed to fetch links'; otherwise the rows of the filtered links with the query `q` or `''`, and every link for an empty query |
| AdminIndex.Action | app/routes/admin/index.tsx:49-126 | by intent: create needs title and url, update needs id, title and url, delete needs the `ids` field to be present, and sends whatever it parses to, so an empty field deletes the id 0 (lines 102-106, as written); a missing field or an unknown intent fails with its message and sends nothing; otherwise the request is sent, success iff the API answered ok, an answer's message is the intent's ok message ('Link created/updated successfully', 'Links deleted successfully') or the error body or 'Failed to create link/update link/delete links', and a thrown error gives 'Action failed' |
| AdminIndex.EmptyIdsFieldDeletesZero | app/routes/admin/index.tsx:102-106 | as written, a delete whose `ids` field is empty sends a delete of the id 0 |
| AdminIndex.ActionCorrected | app/routes/admin/index.tsx:102-106 | corrected: a delete is refused with 'No links selected' iff its `ids` field is absent or empty, otherwise the parsed ids are sent; every other form is handled as written |
| AdminIndex.DeleteFormRoundTrip | app/routes/admin/index.tsx:187-190 | the form the page posts for a non-empty list makes the action delete exactly those ids, in order |
| AdminIndex.NavigationToast | app/routes/admin/index.tsx:144-160 | a success toast appears while reloading iff the posted intent was create or update |
| AdminIndex.NavigationToastIgnoresOutcome | app/routes/admin/index.tsx:144-160 | the reload toast repeats the action's success message; a create form with an empty title is refused by the action and still gets the 'Link created successfully' toast |
| AdminIndex.AdminView.constructor | app/routes/admin/index.tsx:129-136 | nothing is selected or staged, the dialog is closed, the page is 1 and the box shows the query |
| AdminIndex.AdminView.HandleSearch | app/routes/admin/index.tsx:171-175 | the box shows the new text, the page returns to 1 and `{q: value}` is submitted; the selection and dialog are kept |
| AdminIndex.AdminView.ChangePage | app/routes/admin/index.tsx:344 | the pagination component's request is stored as given |
| AdminIndex.AdminView.LoaderDataChanged | app/routes/admin/index.tsx:140-142 | new loader data replaces the list and the query; the box is reset to the query only when the query changed; the selection and dialog are kept |
| AdminIndex.AdminView.HandleDeleteConfirm | app/routes/admin/index.tsx:177-194 | an empty list only adds an error toast; otherwise the delete form is submitted, the dialog closes, and the staged and selected ids are cleared |
| AdminIndex.AdminView.HandleDeleteLink | app/routes/admin/index.tsx:196-199 | exactly that id is staged and the dialog opens |
| AdminIndex.AdminView.HandleDeleteSelected | app/routes/admin/index.tsx:201-204 | the selection is staged as it is and the dialog opens |
| AdminIndex.AdminView.CheckRowBox | app/routes/admin/index.tsx:297-305 | the selection changes as a row click does, and the row then shows the clicked state |
| AdminIndex.AdminView.HeaderBoxChecked | app/routes/admin/index.tsx:271 | as displayed (the count comparison): the box shows checked when the selection is exactly the page's ids, and never shows checked for an empty selection on a non-empty page; the intended every-row reading is `AllRowsChecked` |
| AdminIndex.AdminView.AllRowsChecked | app/routes/admin/index.tsx:271 | no contract; the intended every-row reading of the header checkbox, specified by `CheckHeaderBox` and `Selection.HeaderCheckedFollowsClicks` |
| AdminIndex.AdminView.CheckHeaderBox | app/routes/admin/index.tsx:270-279 | the selection changes as a header click does; checking leaves the box shown checked and every row of the page checked, and right after the click the displayed and intended readings agree |
| LegacyAdmin.MockLinks | app/routes/admin.tsx:32-37 | 40 links; link `i+1` has id `i+1`, url `https://example.com/link-{i+1}` and title `Link {i+1}`, with the given creation time |
| LegacyAdmin.PrefixedNumbersDiffer | app/routes/admin.tsx:34-35 | the same prefix followed by two different numbers gives two different strings |
| LegacyAdmin.MockLinksDistinct | app/routes/admin.tsx:32-37 | the generated links have pairwise distinct ids, urls and titles |
| LegacyAdmin.FilterLinksKeepsMatches | app/routes/admin.tsx:39-45 | the search keeps exactly the links whose title or url contains the query ignoring case, in order and with multiplicities; idempotent; an empty query keeps all |
| LegacyAdmin.FilterLinks | app/routes/admin.tsx:39-45 | no contract; specified by `FilterLinksKeepsMatches` |
| LegacyAdmin.Loader | app/routes/admin.tsx:25-47 | the loaded links are the generated ones filtered by `q` or `''`, all 40 for an empty query |
| LegacyAdmin.Action | app/routes/admin.tsx:54-70 | success iff the intent is create, update or delete, each with its own message; anything else is 'Invalid action' |
| LegacyAdmin.UpdateFormCarriesId | app/routes/admin.tsx:119-122 | the update form is accepted, and its id field reads back as the link's id |
| LegacyAdmin.DeleteSelectedFormCarriesIds | app/routes/admin.tsx:139-140 | the bulk-delete field parses back as the selected ids, in order |
| LegacyAdmin.LegacyAdminView.constructor | app/routes/admin.tsx:73-83 | page 1, nothing selected, both dialogs closed, no link being edited, empty create fields |
| LegacyAdmin.LegacyAdminView.HandleSearch | app/routes/admin.tsx:98-102 | the box shows the new text, the page returns to 1 and `{q: value}` is submitted |
| LegacyAdmin.LegacyAdminView.LoaderDataChanged | app/routes/admin.tsx:87-89 | new loader data replaces the list and the query; the box is reset to the query only when the query changed |
| LegacyAdmin.LegacyAdminView.OpenCreateDialog | app/routes/admin.tsx:164 | the create dialog opens with the fields as they were; the search box and the query are kept |
| LegacyAdmin.LegacyAdminView.SetNewTitle | app/routes/admin.tsx:352 | typing changes the title and leaves the url; the search box and the query are kept |
| LegacyAdmin.LegacyAdminView.SetNewUrl | app/routes/admin.tsx:363 | typing changes the url and leaves the title; the search box and the query are kept |
| LegacyAdmin.LegacyAdminView.CancelCreate | app/routes/admin.tsx:368 | Cancel closes the create dialog and keeps the typed fields; the search box and the query are kept |
| LegacyAdmin.LegacyAdminView.HandleCreateLink | app/routes/admin.tsx:104-112 | the fields are posted without checks and answered with success, the dialog closes, the fields are emptied, and a toast repeats the action's message; the search box and the query are kept |
| LegacyAdmin.LegacyAdminView.HandleEditLink | app/routes/admin.tsx:114-117 | the row becomes the link being edited and the edit dialog opens; the search box and the query are kept |
| LegacyAdmin.LegacyAdminView.SetEditTitle | app/routes/admin.tsx:389 | typing changes the edited link's title, and does nothing when no link is being edited; the search box and the query are kept |
| LegacyAdmin.LegacyAdminView.SetEditUrl | app/routes/admin.tsx:400 | typing changes the edited link's url, and does nothing when no link is being edited; the search box and the query are kept |
| LegacyAdmin.LegacyAdminView.CancelEdit | app/routes/admin.tsx:407-410 | Cancel closes the edit dialog and forgets the link being edited; the search box and the query are kept |
| LegacyAdmin.LegacyAdminView.HandleUpdateLink | app/routes/admin.tsx:119-129 | with no link being edited nothing happens; otherwise the link is posted with its id, the dialog closes, the edit state is cleared and a toast repeats the action's message; the search box and the query are kept |
| LegacyAdmin.LegacyAdminView.HandleDeleteLink | app/routes/admin.tsx:131-137 | `{intent: 'delete', id}` is posted, and the toast repeats the action's message; the search box and the query are kept |
| LegacyAdmin.LegacyAdminView.HandleDeleteSelected | app/routes/admin.tsx:139-146 | the selection joined by commas is posted, and the selection is emptied; the search box and the query are kept |
| LegacyAdmin.LegacyAdminView.CheckRowBox | app/routes/admin.tsx:252-260 | the selection changes as a row click does, and the row then shows the clicked state; the search box and the query are kept |
| LegacyAdmin.LegacyAdminView.CheckHeaderBox | app/routes/admin.tsx:222-230 | the selection changes as a header click does, and checking leaves every row on the page checked; the search box and the query are kept |
| LegacyAdmin.LegacyAdminView.PreviousPage | app/routes/admin.tsx:314-315 | a click, unless at page 1, moves to `max(1, p-1)`; the page stays at least 1 and a page within range stays within range; the search box and the query are kept |
| LegacyAdmin.LegacyAdminView.NextPage | app/routes/admin.tsx:322-323 | a click, unless at the last page, moves to `min(totalPages, p+1)`; a page within range stays within range; the search box and the query are kept |
| DeleteLink.Action | app/routes/delete-link/index.tsx:14-32 | as written: 'No links selected' with nothing sent iff the `ids` field is absent; otherwise the parsed ids are sent, so an empty field deletes the id 0; a thrown error leaves the action; an answer becomes success iff ok, with the body or 'Failed to delete links' on failure |
| DeleteLink.EmptyIdsFieldDeletesZero | app/routes/delete-link/index.tsx:16-20 | as written, an empty `ids` field is sent as a delete of the id 0 |
| DeleteLink.ActionCorrected | app/routes/delete-link/index.tsx:16-20 | corrected: 'No links selected' with nothing sent iff the field is absent or empty; otherwise the parsed ids are sent and the answer decides as in `Action`, with which it agrees on every other form |
| DeleteLink.DeleteFormRoundTrip | app/routes/delete-link/index.tsx:16 | (ids joined at line 87) the dialog's form makes the action delete exactly the dialog's ids, and an ok answer gives 'Links deleted successfully' |
| DeleteLink.Title | app/routes/delete-link/index.tsx:98 | the title is "Delete Links" iff there is more than one id, and "Delete Link" otherwise |
| DeleteLink.Confirmation | app/routes/delete-link/index.tsx:102 | no contract; specified by `ConfirmationNamesCount` and `ConfirmationForOneHasNoDigit` |
| DeleteLink.ConfirmationNamesCount | app/routes/delete-link/index.tsx:102 | for more than one link the question contains their number |
| DeleteLink.ConfirmationForOneHasNoDigit | app/routes/delete-link/index.tsx:102 | for one link, or none, the question contains no digit |
| DeleteLink.DeleteLinkDialog.ForLink | app/routes/delete-link/index.tsx:34-49 | the single-row dialog has exactly that id, no callback, and is closed |
| DeleteLink.DeleteLinkDialog.ForSelection | app/routes/delete-link/index.tsx:54-63 | the selection dialog has the given ids and callback, and is closed |
| DeleteLink.DeleteLinkDialog.Open | app/routes/delete-link/index.tsx:42-59 | the button opens the dialog |
| DeleteLink.DeleteLinkDialog.Cancel | app/routes/delete-link/index.tsx:108 | Cancel records `onOpenChange(false)` as a `CloseDialog` effect and closes the dialog |
| DeleteLink.DeleteLinkDialog.HandleDelete | app/routes/delete-link/index.tsx:77-92 | no ids: only an error toast, no submit, close or callback; otherwise submit, then close, then the callback if present, in that order |
| DeleteLink.DeleteLinkDialog.PostedFormsDeleteOwnIds | app/routes/delete-link/index.tsx:16 | (ids joined at line 87) every form the dialog has posted makes the action delete exactly the dialog's ids |
| AddLink.Action | app/routes/add-link/index.tsx:15-42 | refused iff title or url is missing or empty, with nothing sent; otherwise a link with that title and url is requested; success iff answered ok, with 'Link created successfully', or the error body or 'Failed to create link'; a thrown error gives 'Action failed' |
| AddLink.CreateFormAccepted | app/routes/add-link/index.tsx:79-81 | a form built from two non-empty fields passes validation and requests exactly that link |
| AddLink.AddLinkDialog.constructor | app/routes/add-link/index.tsx:62 | the fields start empty and the dialog closed |
| AddLink.AddLinkDialog.Open | app/routes/add-link/index.tsx:44-54 | the button opens the dialog and keeps the fields |
| AddLink.AddLinkDialog.SetTitle | app/routes/add-link/index.tsx:103 | typing changes the title and leaves the url |
| AddLink.AddLinkDialog.SetUrl | app/routes/add-link/index.tsx:114 | typing changes the url and leaves the title |
| AddLink.AddLinkDialog.HandleCreateLink | app/routes/add-link/index.tsx:69-87 | an empty field only adds an error toast, staying open; otherwise the form is submitted and then the dialog closes; every posted form passes validation |
| AddLink.AddLinkDialog.HandleSubmit | app/routes/add-link/index.tsx:64-67 | the current fields are handled as above, and then emptied even when refused |
| AddLink.AddLinkDialog.Cancel | app/routes/add-link/index.tsx:119-124 | Cancel records `onOpenChange(false)` as a `CloseDialog` effect, closes the dialog and empties the fields |
| EditLink.Action | app/routes/edit-link/index.tsx:16-41 | refused iff id, name or url is missing or empty, with nothing sent; otherwise the update is sent with `Number(id)`; a thrown error leaves the action; success iff answered ok, with 'Link updated successfully', or the error body or 'Failed to update link' |
| EditLink.UpdateFormRoundTrip | app/routes/edit-link/index.tsx:86 | (read back with `Number(id)` at line 29) the dialog's form makes the action send the link's own id, name and url |
| EditLink.EmptyNameRefused | app/routes/edit-link/index.tsx:23-25 | a form with an empty name is refused and nothing is sent |
| EditLink.EditLinkDialog.constructor | app/routes/edit-link/index.tsx:70 | the fields start equal to the link and the dialog closed |
| EditLink.EditLinkDialog.Open | app/routes/edit-link/index.tsx:51 | the button opens the dialog and keeps the fields |
| EditLink.EditLinkDialog.SetName | app/routes/edit-link/index.tsx:106 | typing changes the name and leaves id and url |
| EditLink.EditLinkDialog.SetUrl | app/routes/edit-link/index.tsx:117 | typing changes the url and leaves id and name |
| EditLink.EditLinkDialog.HandleUpdateLink | app/routes/edit-link/index.tsx:76-89 | an empty name or url only adds an error toast, staying open; otherwise `{id, name, url}` is submitted and then the dialog closes; every posted form is for this link and passes validation |
| EditLink.EditLinkDialog.HandleSubmit | app/routes/edit-link/index.tsx:72-74 | the current fields are handled as above and kept |
| EditLink.EditLinkDialog.Cancel | app/routes/edit-link/index.tsx:123 | Cancel records `onOpenChange(false)` as a `CloseDialog` effect, closes the dialog and keeps the typed fields |
| EditLink.EditLinkDialog.PostedFormsUpdateOwnLink | app/routes/edit-link/index.tsx:86 | (read back with `Number(id)` at line 29) every form the dialog has posted makes the action update this dialog's link |
| PrChart.Authors | docs/script.js:15 | one author per pull request, in order |
| PrChart.Distinct | docs/script.js:15 | no contract; `Array.from(new Set(...))`, specified by `DistinctKeepsElements` and `DistinctInFirstOccurrenceOrder` |
| PrChart.FirstIndex | docs/script.js:15 | the position of the first occurrence of an author |
| PrChart.DistinctKeepsElements | docs/script.js:15 | the labels have no duplicates and hold exactly the authors that occur |
| PrChart.DistinctInFirstOccurrenceOrder | docs/script.js:15 | the labels come in the order in which the authors first occur |
| PrChart.Tally | docs/script.js:16-19 | no contract; the counting dictionary, specified by `TallyCounts` and `CountAll` |
| PrChart.TallyCounts | docs/script.js:16-19 | the dictionary's keys are the counted names, and each value is how often its key occurs |
| PrChart.CountAll | docs/script.js:16-19 | the `reduce` loop builds the dictionary whose keys are the names and whose values are their numbers of occurrences |
| PrChart.NoDuplicatesCountOnce | docs/script.js:15-19 | in a list without repeats every element is counted once |
| PrChart.Heights | docs/script.js:28 | one bar height per label |
| PrChart.ChartAsWritten | docs/script.js:15-28 | as written: the labels are the distinct authors, there is one height per label, and every height is 1 |
| PrChart.ChartAsWrittenUndercounts | docs/script.js:15-19 | two pull requests by one author are drawn as one bar of height 1 |
| PrChart.Chart | docs/script.js:15-28 | corrected: the labels are the distinct authors in first-occurrence order, and each height is that author's number of pull requests (at least 1) |

## Left out

- Rendering, Remix hooks and loading states. This covers JSX and styling, `useLoaderData`, `useNavigation`, the loading and error branches, and `links === undefined`. They have no logic beyond choosing what to show. The one condition the model uses is that the page controls are only shown when the list is non-empty.
- The network, the API server and its database. Calls are requests returned by the actions, and the answers are inputs. The `NotFound` and storage-error cases live in the server, which is not part of this model.
- The contents of an error body. `await response.json()` is modelled as a string, the empty string plays the role of a falsy body, and JSON decoding is left out.
- Time and randomness in the legacy loader. The `setTimeout` delays are left out, and the `createdAt` values from `Date.now()` and `Math.random()` are an input sequence.
- Unicode case mapping. `toLowerCase` is modelled on ASCII letters only.
- `Number()` on arbitrary tokens. The model gives a run of decimal digits its value and `''` the value 0, and maps every other token to `NaN`. JavaScript reads some of those (`' 5'`, `'+5'`, `'1.5'`, `'1e3'`) as numbers; the model does not. Ids are natural numbers, so negative and fractional ids are not modelled.
- Floating point. `Math.ceil(n / k)` is integer ceiling division.
- PageControls.ItemsSummaryShowsProps: the summary is stated for natural numbers. For a page number below 1 the hook's start and end can be negative, and that summary is not covered.
- PageControls.PageCaptionShowsProps: the caption is stated for natural page numbers, so a caption for page 0 or below is not covered.
- Route targets are not modelled: where a form is posted (`/delete-link?index`, `/create-link?index`, `/edit-link?index`) and the `replace`/`method` options.
- The wrappers `Pagination` and `DeleteLinkDialog` from `app/feature/…`, used by the admin page, are not part of this model. The admin page's page changes are modelled as arbitrary requests (`ChangePage`), and its confirm step as `HandleDeleteConfirm`.
- JavaScript's ordering of object keys for integer-like author names in the chart. The bar heights are taken in label order, which is insertion order for other keys.
- The toast library's internals. A toast is an entry in the `log`.
- Clamping of the page on a page change. Nothing clamps the requested page: `onPageChange` is `setCurrentPage` itself (app/routes/admin/index.tsx:344), and the model stores the request as given. Requests made through Previous/Next stay in range anyway (`PageControls.NavigationStaysInRange`).

## Findings

| source | as written | input that shows it | evidently intended | confidence | as-written member | corrected member |
|---|---|---|---|---|---|---|
| app/routes/admin/index.tsx:271 (also app/routes/admin.tsx:223) | the header checkbox is checked when `selectedLinks.length === currentLinks.length` | page of rows 3 and 4, selection `[1, 2]` made on another page: the header shows checked, but neither row is | checked when every row of the current page is selected | medium, not executed | Selection.HeaderCheckedAsWrittenMisreports | Selection.HeaderCheckedFollowsClicks |
| app/routes/delete-link/index.tsx:16-20 | `formData.get('ids')?.toString().split(',').map(Number)`, refused when `!ids?.length` | `ids` present and empty: `''.split(',')` is `['']`, so the ids are `[0]`, the guard passes and a delete of id 0 is sent | an empty field is refused with 'No links selected' | medium, not executed | DeleteLink.EmptyIdsFieldDeletesZero | DeleteLink.ActionCorrected |
| app/routes/admin/index.tsx:102-106 | the same parse and guard in the `delete` intent | `{intent: 'delete', ids: ''}`: a delete of id 0 is sent | an empty field is refused with 'No links selected' | medium, not executed | AdminIndex.EmptyIdsFieldDeletesZero | AdminIndex.ActionCorrected |
| docs/script.js:15-19 | the `reduce` that counts pull requests runs over the deduplicated `authors` | two pull requests by author `a`: the bar for `a` has height 1 | each bar is the number of pull requests by its author | high, not executed | PrChart.ChartAsWrittenUndercounts | PrChart.Chart |
