/**
 * The delete-link route: its action deletes the comma-separated `ids` through the
 * API, and its dialog, opened for one link or for a selection, asks for
 * confirmation and posts the ids.
 */
module DeleteLink {
  import opened Wrappers
  import opened Text
  import opened Links
  import opened IdList

  /**
   * The action as written: `ids` is `formData.get('ids')?.toString().split(',').map(Number)`
   * and only an absent field trips the guard `!ids?.length`. A present field, even an
   * empty one, is parsed and sent. There is no `try`: an API error leaves the action.
   */
  function Action(fd: FormData, response: ApiResponse): (h: Handled)
    ensures "ids" !in fd <==> h == Handled(None, Reply(false, "No links selected"))
    ensures "ids" in fd ==> h.sent == Some(DeleteLinks(ParseIds(fd["ids"])))
    ensures "ids" in fd ==> (h.result.Raised? <==> response.Threw?)
    ensures "ids" in fd && response.Responded? ==>
      h.result == ReplyFor(response.ok, response.body, "Links deleted successfully", "Failed to delete links")
  {
    var ids := IdsAsWritten(fd);
    if ids.None? || |ids.value| == 0 then Handled(None, Reply(false, "No links selected"))
    else Handled(Some(DeleteLinks(ids.value)), AnswerUncaught(response, "Links deleted successfully", "Failed to delete links"))
  }

  /** As written, an empty `ids` field is not refused: it is sent as a delete of the id 0. */
  lemma EmptyIdsFieldDeletesZero(response: ApiResponse)
    ensures Action(map["ids" := ""], response).sent == Some(DeleteLinks([Num(0)]))
  {
    EmptyListDoesNotRoundTrip();
  }

  /**
   * The action as intended: an absent or empty `ids` field is answered with
   * 'No links selected' and no call; otherwise it behaves as written.
   */
  function ActionCorrected(fd: FormData, response: ApiResponse): (h: Handled)
    ensures SelectedIds(fd).None? <==> h == Handled(None, Reply(false, "No links selected"))
    ensures SelectedIds(fd).Some? ==> h.sent == Some(DeleteLinks(SelectedIds(fd).value))
    ensures SelectedIds(fd).Some? ==> (h.result.Raised? <==> response.Threw?)
    ensures SelectedIds(fd).Some? && response.Responded? ==>
      h.result == ReplyFor(response.ok, response.body, "Links deleted successfully", "Failed to delete links")
    ensures Get(fd, "ids") != Some("") ==> h == Action(fd, response)
  {
    if Get(fd, "ids") == Some("") then Handled(None, Reply(false, "No links selected"))
    else Action(fd, response)
  }

  /** `{ids: ids.join(',')}`. */
  function DeleteForm(ids: seq<nat>): FormData {
    map["ids" := JoinIds(ids)]
  }

  /** The dialog's form reaches the API as the same ids in the same order, whatever the answer. */
  lemma DeleteFormRoundTrip(ids: seq<nat>, response: ApiResponse)
    requires |ids| >= 1
    ensures Action(DeleteForm(ids), response).sent == Some(DeleteLinks(Nums(ids)))
    ensures response == Responded(true, "") ==> Action(DeleteForm(ids), response).result == Reply(true, "Links deleted successfully")
  {
    ParseJoinRoundTrip(ids);
  }

  /** `Delete {ids.length > 1 ? 'Links' : 'Link'}`. */
  function Title(count: nat): (t: string)
    ensures t == "Delete Links" <==> count > 1
    ensures t == "Delete Link" <==> count <= 1
  {
    "Delete " + (if count > 1 then "Links" else "Link")
  }

  /** The question in the dialog's body. */
  function Confirmation(count: nat): string {
    "Are you sure you want to delete " + (if count > 1 then "these " + NatStr(count) + " links" else "this link") + "?"
  }

  /** For more than one link the question states their number. */
  lemma {:induction false} ConfirmationNamesCount(count: nat)
    requires count > 1
    ensures Includes(Confirmation(count), NatStr(count))
  {
    var prefix := "Are you sure you want to delete these ";
    var c := Confirmation(count);
    assert c == prefix + (NatStr(count) + " links?");
    assert c[|prefix|..|prefix| + |NatStr(count)|] == NatStr(count);
    assert OccursAt(c, NatStr(count), |prefix|);
    IncludesIffOccurs(c, NatStr(count));
  }

  /** For one link, or none, the question has no digit in it. */
  lemma ConfirmationForOneHasNoDigit(count: nat)
    requires count <= 1
    ensures forall i :: 0 <= i < |Confirmation(count)| ==> !IsDigit(Confirmation(count)[i])
  {
  }

  /**
   * The dialog with the button that opens it: a list of ids and an optional `afterDelete`
   * callback. The ids are props the parent may replace while the button is mounted; the
   * model fixes them for the dialog's lifetime, and a new list is a new dialog.
   */
  class DeleteLinkDialog {
    const ids: seq<nat>
    const hasAfterDelete: bool
    var isOpen: bool
    var log: seq<Effect>

    /** Every form the dialog has posted carries its own ids, so the action deletes exactly those. */
    ghost predicate Valid()
      reads this
    {
      forall e :: e in log ==> e.Submit? ==> |ids| >= 1 && e.form == DeleteForm(ids)
    }

    /** `DeleteLinkButton`: the dialog for one row, without a callback. */
    constructor ForLink(id: nat)
      ensures Valid()
      ensures ids == [id] && !hasAfterDelete && !isOpen && log == []
    {
      ids, hasAfterDelete := [id], false;
      isOpen, log := false, [];
    }

    /** `DeleteLinksButton`: the dialog for a selection, with or without a callback. */
    constructor ForSelection(selected: seq<nat>, afterDelete: bool)
      ensures Valid()
      ensures ids == selected && hasAfterDelete == afterDelete && !isOpen && log == []
    {
      ids, hasAfterDelete := selected, afterDelete;
      isOpen, log := false, [];
    }

    /** The button opens the dialog. */
    method Open()
      requires Valid()
      modifies this
      ensures Valid()
      ensures isOpen && log == old(log)
    {
      isOpen := true;
    }

    /** Cancel calls `onOpenChange(false)`. */
    method Cancel()
      requires Valid()
      modifies this
      ensures Valid()
      ensures !isOpen && log == old(log) + [CloseDialog]
    {
      log := log + [CloseDialog];
      isOpen := false;
    }

    /**
     * `handleDelete`: with no ids only an error toast appears; otherwise the ids are
     * posted, then the dialog closes, then the callback, if any, runs.
     */
    method HandleDelete()
      requires Valid()
      modifies this
      ensures Valid()
      ensures ids == [] ==> log == old(log) + [Toast("Error", "No links selected")] && isOpen == old(isOpen)
      ensures ids != [] ==>
        && log == old(log) + [Submit(DeleteForm(ids)), CloseDialog] + (if hasAfterDelete then [AfterDelete] else [])
        && !isOpen
    {
      if |ids| == 0 {
        log := log + [Toast("Error", "No links selected")];
        return;
      }
      log := log + [Submit(DeleteForm(ids)), CloseDialog];
      isOpen := false;
      if hasAfterDelete {
        log := log + [AfterDelete];
      }
    }

    /** Whatever the dialog posted, the action sends the API the dialog's own ids. */
    lemma PostedFormsDeleteOwnIds(e: Effect, response: ApiResponse)
      requires Valid() && e in log && e.Submit?
      ensures Action(e.form, response).sent == Some(DeleteLinks(Nums(ids)))
    {
      DeleteFormRoundTrip(ids, response);
    }
  }
}
