/**
 * The add-link route: its action checks `title` and `url` and asks the API to
 * create a link; its dialog collects the two fields and posts them.
 */
module AddLink {
  import opened Wrappers
  import opened Links

  /** The dialog's fields. */
  datatype Values = Values(title: string, url: string)

  const EmptyValues := Values("", "")

  /**
   * The action: a missing or empty field is answered with 'Title and URL are required'
   * and no call; otherwise a link named `title` is created, and an error thrown by the
   * call is caught as 'Action failed'.
   */
  function Action(fd: FormData, response: ApiResponse): (h: Handled)
    ensures !(Filled(fd, "title") && Filled(fd, "url")) <==> h == Handled(None, Reply(false, "Title and URL are required"))
    ensures Filled(fd, "title") && Filled(fd, "url") ==>
      && h.sent == Some(CreateLink(fd["title"], fd["url"]))
      && h.result.Reply?
      && (h.result.success <==> response.Responded? && response.ok)
      && (response.Threw? ==> h.result.message == "Action failed")
      && (response.Responded? ==>
            h.result == ReplyFor(response.ok, response.body, "Link created successfully", "Failed to create link"))
  {
    if !Filled(fd, "title") || !Filled(fd, "url") then Handled(None, Reply(false, "Title and URL are required"))
    else Handled(Some(CreateLink(fd["title"], fd["url"])),
                 Answer(response, "Link created successfully", "Failed to create link"))
  }

  /** The form data built from the fields. */
  function CreateForm(v: Values): FormData {
    map["title" := v.title, "url" := v.url]
  }

  /** The dialog posts only what the action accepts, and the link is created under the typed title and url. */
  lemma CreateFormAccepted(v: Values, response: ApiResponse)
    requires v.title != "" && v.url != ""
    ensures Action(CreateForm(v), response).sent == Some(CreateLink(v.title, v.url))
  {
  }

  /** The dialog with the button that opens it. */
  class AddLinkDialog {
    var values: Values
    var isOpen: bool
    var log: seq<Effect>

    /** Every form posted has both fields filled, so the action never rejects it. */
    ghost predicate Valid()
      reads this
    {
      forall e :: e in log ==> e.Submit? ==> Filled(e.form, "title") && Filled(e.form, "url")
    }

    constructor ()
      ensures Valid()
      ensures values == EmptyValues && !isOpen && log == []
    {
      values, isOpen, log := EmptyValues, false, [];
    }

    /** The Add Link button opens the dialog. */
    method Open()
      requires Valid()
      modifies this
      ensures Valid()
      ensures isOpen && values == old(values) && log == old(log)
    {
      isOpen := true;
    }

    /** Typing in the title box. */
    method SetTitle(title: string)
      requires Valid()
      modifies this
      ensures Valid()
      ensures values == Values(title, old(values.url)) && isOpen == old(isOpen) && log == old(log)
    {
      values := values.(title := title);
    }

    /** Typing in the url box. */
    method SetUrl(url: string)
      requires Valid()
      modifies this
      ensures Valid()
      ensures values == Values(old(values.title), url) && isOpen == old(isOpen) && log == old(log)
    {
      values := values.(url := url);
    }

    /** `handleCreateLink(v)`: an empty field gives an error toast; otherwise the form is posted and the dialog closes. */
    method HandleCreateLink(v: Values)
      requires Valid()
      modifies this
      ensures Valid()
      ensures v.title == "" || v.url == "" ==>
        log == old(log) + [Toast("Error", "Title and URL are required")] && isOpen == old(isOpen)
      ensures v.title != "" && v.url != "" ==> log == old(log) + [Submit(CreateForm(v)), CloseDialog] && !isOpen
      ensures values == old(values)
    {
      if v.title == "" || v.url == "" {
        log := log + [Toast("Error", "Title and URL are required")];
        return;
      }
      log := log + [Submit(CreateForm(v)), CloseDialog];
      isOpen := false;
    }

    /** Create: handle the current fields, then empty them whether or not anything was posted. */
    method HandleSubmit()
      requires Valid()
      modifies this
      ensures Valid()
      ensures old(values.title) == "" || old(values.url) == "" ==>
        log == old(log) + [Toast("Error", "Title and URL are required")] && isOpen == old(isOpen)
      ensures old(values.title) != "" && old(values.url) != "" ==>
        log == old(log) + [Submit(CreateForm(old(values))), CloseDialog] && !isOpen
      ensures values == EmptyValues
    {
      HandleCreateLink(values);
      values := EmptyValues;
    }

    /** Cancel calls `onOpenChange(false)` and empties the fields. */
    method Cancel()
      requires Valid()
      modifies this
      ensures Valid()
      ensures !isOpen && values == EmptyValues && log == old(log) + [CloseDialog]
    {
      log := log + [CloseDialog];
      isOpen := false;
      values := EmptyValues;
    }
  }
}
