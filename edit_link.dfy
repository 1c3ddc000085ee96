/**
 * The edit-link route: its action checks `id`, `name` and `url` and asks the API to
 * update the link; its dialog starts from the link's own values and posts them.
 */
module EditLink {
  import opened Wrappers
  import opened Text
  import opened Links

  /**
   * The action: a missing or empty field is answered with 'ID, Name and URL are required'
   * and no call; otherwise the update is sent with `Number(id)`. There is no `try`:
   * an API error leaves the action.
   */
  function Action(fd: FormData, response: ApiResponse): (h: Handled)
    ensures !(Filled(fd, "id") && Filled(fd, "name") && Filled(fd, "url")) <==>
      h == Handled(None, Reply(false, "ID, Name and URL are required"))
    ensures Filled(fd, "id") && Filled(fd, "name") && Filled(fd, "url") ==>
      && h.sent == Some(UpdateLink(ToNumber(fd["id"]), fd["name"], fd["url"]))
      && (h.result.Raised? <==> response.Threw?)
      && (h.result.Reply? ==> (h.result.success <==> response.ok))
      && (response.Responded? ==>
            h.result == ReplyFor(response.ok, response.body, "Link updated successfully", "Failed to update link"))
  {
    if !Filled(fd, "id") || !Filled(fd, "name") || !Filled(fd, "url") then
      Handled(None, Reply(false, "ID, Name and URL are required"))
    else Handled(Some(UpdateLink(ToNumber(fd["id"]), fd["name"], fd["url"])),
                 AnswerUncaught(response, "Link updated successfully", "Failed to update link"))
  }

  /** `fetcher.submit(values)`: every field as a string, the id written in decimal. */
  function UpdateForm(v: AppLink): FormData {
    map["id" := NatStr(v.id), "name" := v.name, "url" := v.url]
  }

  /** The dialog's form reaches the API as the same id, name and url. */
  lemma UpdateFormRoundTrip(v: AppLink, response: ApiResponse)
    requires v.name != "" && v.url != ""
    ensures Action(UpdateForm(v), response).sent == Some(UpdateLink(Num(v.id), v.name, v.url))
  {
    ToNumberOfNatStr(v.id);
  }

  /** A form without a name is refused whatever the id, and nothing is sent. */
  lemma EmptyNameRefused(v: AppLink, response: ApiResponse)
    requires v.name == ""
    ensures Action(UpdateForm(v), response) == Handled(None, Reply(false, "ID, Name and URL are required"))
  {
  }

  /** The dialog with the button that opens it, for one link. */
  class EditLinkDialog {
    const link: AppLink
    var values: AppLink
    var isOpen: bool
    var log: seq<Effect>

    /** The dialog edits its own link: the id never changes, and every posted form is one the action accepts. */
    ghost predicate Valid()
      reads this
    {
      && values.id == link.id
      && forall e :: e in log ==> e.Submit? ==>
           && Filled(e.form, "name") && Filled(e.form, "url")
           && e.form == UpdateForm(AppLink(link.id, e.form["name"], e.form["url"]))
    }

    /** `useState(link)`: the fields start as the link's own. */
    constructor (appLink: AppLink)
      ensures Valid()
      ensures link == appLink && values == appLink && !isOpen && log == []
    {
      link, values := appLink, appLink;
      isOpen, log := false, [];
    }

    /** The button opens the dialog. */
    method Open()
      requires Valid()
      modifies this
      ensures Valid()
      ensures isOpen && values == old(values) && log == old(log)
    {
      isOpen := true;
    }

    /** Typing in the name box. */
    method SetName(name: string)
      requires Valid()
      modifies this
      ensures Valid()
      ensures values == old(values).(name := name) && isOpen == old(isOpen) && log == old(log)
    {
      values := values.(name := name);
    }

    /** Typing in the url box. */
    method SetUrl(url: string)
      requires Valid()
      modifies this
      ensures Valid()
      ensures values == old(values).(url := url) && isOpen == old(isOpen) && log == old(log)
    {
      values := values.(url := url);
    }

    /** `handleUpdateLink(v)`: an empty name or url gives an error toast; otherwise the form is posted and the dialog closes. */
    method HandleUpdateLink(v: AppLink)
      requires Valid() && v.id == link.id
      modifies this
      ensures Valid()
      ensures v.name == "" || v.url == "" ==>
        log == old(log) + [Toast("Error", "Name and URL are required")] && isOpen == old(isOpen)
      ensures v.name != "" && v.url != "" ==> log == old(log) + [Submit(UpdateForm(v)), CloseDialog] && !isOpen
      ensures values == old(values)
    {
      if v.name == "" || v.url == "" {
        log := log + [Toast("Error", "Name and URL are required")];
        return;
      }
      log := log + [Submit(UpdateForm(v)), CloseDialog];
      isOpen := false;
    }

    /** Update: handle the current fields; they are kept. */
    method HandleSubmit()
      requires Valid()
      modifies this
      ensures Valid()
      ensures old(values.name) == "" || old(values.url) == "" ==>
        log == old(log) + [Toast("Error", "Name and URL are required")] && isOpen == old(isOpen)
      ensures old(values.name) != "" && old(values.url) != "" ==> log == old(log) + [Submit(UpdateForm(old(values))), CloseDialog] && !isOpen
      ensures values == old(values)
    {
      HandleUpdateLink(AppLink(values.id, values.name, values.url));
    }

    /** Cancel calls `onOpenChange(false)`; the fields keep what was typed. */
    method Cancel()
      requires Valid()
      modifies this
      ensures Valid()
      ensures !isOpen && values == old(values) && log == old(log) + [CloseDialog]
    {
      log := log + [CloseDialog];
      isOpen := false;
    }

    /** Whatever the dialog posted, the action updates this dialog's link. */
    lemma PostedFormsUpdateOwnLink(e: Effect, response: ApiResponse)
      requires Valid() && e in log && e.Submit?
      ensures Action(e.form, response).sent == Some(UpdateLink(Num(link.id), e.form["name"], e.form["url"]))
    {
      UpdateFormRoundTrip(AppLink(link.id, e.form["name"], e.form["url"]), response);
    }
  }
}
