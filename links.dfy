/**
 * The records, form submissions, API exchanges and UI effects shared by the routes.
 */
module Links {
  import opened Wrappers
  import opened Text

  /** A stored app link (`AppLink`); ids are assigned by storage and are natural numbers here. */
  datatype AppLink = AppLink(id: nat, name: string, url: string)

  /** An app link with the thumbnail URL the public loader adds (`AppLinkWithThumbnail`). */
  datatype AppCard = AppCard(id: nat, name: string, url: string, thumbnail: string)

  /** The admin table's row (`Link`): the link's name shown as its title. */
  datatype Link = Link(id: nat, url: string, title: string)

  /** A submitted form: field name to its string value. */
  type FormData = map<string, string>

  /** `formData.get(key)`: the value, or `None` (JavaScript `null`) when the field is absent. */
  function Get(fd: FormData, key: string): Option<string> {
    if key in fd then Some(fd[key]) else None
  }

  /** The truthiness test `!!formData.get(key)`: present and not the empty string. */
  predicate Filled(fd: FormData, key: string) {
    key in fd && fd[key] != ""
  }

  /** A request the server actions send to the link API. */
  datatype ApiRequest =
    | CreateLink(name: string, url: string)
    | UpdateLink(id: JsNumber, name: string, url: string)
    | DeleteLinks(ids: seq<JsNumber>)

  /** What the API did with a request: answered with a status and a JSON body, or threw. */
  datatype ApiResponse = Responded(ok: bool, body: string) | Threw

  /** What a server action produced: a `{success, message}` reply, or an exception it did not catch. */
  datatype ActionResult = Reply(success: bool, message: string) | Raised

  /** The request an action sent (if any) and what it returned. */
  datatype Handled = Handled(sent: Option<ApiRequest>, result: ActionResult)

  /**
   * The mapping of an answered request to a reply: a non-ok response gives
   * `{success: false, message: error || fallback}`, an ok one `{success: true, message: okMessage}`.
   */
  function ReplyFor(ok: bool, body: string, okMessage: string, fallback: string): (r: ActionResult)
    ensures r.Reply? && r.success == ok
    ensures !ok ==> r.message == (if body != "" then body else fallback)
    ensures ok ==> r.message == okMessage
  {
    if !ok then Reply(false, if body != "" then body else fallback) else Reply(true, okMessage)
  }

  /** The reply to an API call made inside `try`: a thrown error is caught and answered with 'Action failed'. */
  function Answer(response: ApiResponse, okMessage: string, fallback: string): (r: ActionResult)
    ensures r.Reply?
    ensures r.success <==> response.Responded? && response.ok
    ensures response.Threw? ==> r == Reply(false, "Action failed")
    ensures response.Responded? ==> r == ReplyFor(response.ok, response.body, okMessage, fallback)
  {
    match response
    case Threw => Reply(false, "Action failed")
    case Responded(ok, body) => ReplyFor(ok, body, okMessage, fallback)
  }

  /** The reply to an API call made without `try`: a thrown error leaves the action. */
  function AnswerUncaught(response: ApiResponse, okMessage: string, fallback: string): (r: ActionResult)
    ensures r.Raised? <==> response.Threw?
    ensures r.Reply? ==> (r.success <==> response.ok)
    ensures response.Responded? ==> r == ReplyFor(response.ok, response.body, okMessage, fallback)
  {
    match response
    case Threw => Raised
    case Responded(ok, body) => ReplyFor(ok, body, okMessage, fallback)
  }

  /** Side effects of UI handlers, in the order they happen. */
  datatype Effect =
    | Toast(title: string, description: string)
    | Submit(form: FormData)
    | CloseDialog
    | AfterDelete
}
