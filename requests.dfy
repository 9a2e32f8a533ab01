/** The request rules shared by the three scraping endpoints (the Netlify
    function, the deployment copy of it and the Express `/scrape` route):
    the HTTP method gate, the `slugs` array check and the response shapes. */
module Requests {
  import opened Common
  import opened Links

  const MaxSlugs := 50

  const SlugsRequired := "Invalid request: slugs array is required"
  const TooManySlugs := "Too many slugs. Maximum 50 allowed."
  const MethodNotAllowed := "Method not allowed"
  const InternalError := "Internal server error"

  /** The `slugs` member of the parsed request body, as far as the checks
      can tell values apart. */
  datatype SlugsField =
    | Falsy                          // absent, null, '', 0 or false
    | NotAnArray                     // a truthy value that is not an array
    | SlugArray(items: seq<string>)

  /** The request body once parsed and its `slugs` member read; `Unreadable`
      when either step throws (malformed JSON, a `null` body), keeping the
      message of what was thrown. */
  datatype Body = Unreadable(message: string) | Parsed(slugs: SlugsField)

  /** What a Netlify function receives: the HTTP method and the body. */
  datatype Event = Event(httpMethod: string, body: Body)

  datatype ResponseBody =
    | NoContent
    | ErrorMessage(error: string)
    | ErrorDetails(error: string, details: string)
    | RowsBody(rows: seq<SocialRow>)

  datatype Response = Response(status: nat, body: ResponseBody)

  /** The outcome of the `slugs` check. */
  datatype Checked = Rejected(message: string) | Accepted(slugs: seq<string>)

  /** A missing, non-array or empty `slugs` is rejected first, then more than
      `MaxSlugs` of them; anything else goes on to scraping unchanged. */
  function CheckSlugs(field: SlugsField): (r: Checked)
    ensures r.Accepted? <==> field.SlugArray? && 1 <= |field.items| <= MaxSlugs
    ensures r.Accepted? ==> r.slugs == field.items
    ensures r.Rejected? && r.message == TooManySlugs <==> field.SlugArray? && |field.items| > MaxSlugs
    ensures r.Rejected? && r.message == SlugsRequired <==> !field.SlugArray? || field.items == []
  {
    match field
    case Falsy => Rejected(SlugsRequired)
    case NotAnArray => Rejected(SlugsRequired)
    case SlugArray(items) =>
      if |items| == 0 then Rejected(SlugsRequired)
      else if |items| > MaxSlugs then Rejected(TooManySlugs)
      else Accepted(items)
  }

  function BadRequest(message: string): Response {
    Response(400, ErrorMessage(message))
  }

  function ServerError(details: string): Response {
    Response(500, ErrorDetails(InternalError, details))
  }

  /** The method gate of the two Netlify handlers: a preflight `OPTIONS` is
      answered 200 with an empty body, any other method but `POST` gets 405,
      and only `POST` (`None`) goes on to the body. */
  function MethodGate(httpMethod: string): (r: Option<Response>)
    ensures r.None? <==> httpMethod == "POST"
    ensures httpMethod == "OPTIONS" ==> r == Some(Response(200, NoContent))
    ensures r.Some? && httpMethod != "OPTIONS" ==> r == Some(Response(405, ErrorMessage(MethodNotAllowed)))
  {
    if httpMethod == "OPTIONS" then Some(Response(200, NoContent))
    else if httpMethod != "POST" then Some(Response(405, ErrorMessage(MethodNotAllowed)))
    else None
  }
}
