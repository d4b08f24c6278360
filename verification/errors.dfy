/** `handle_errors`: every handler is wrapped so that each exception kind
    becomes one HTTP response, and only the catch-all kind rolls back. */
module Errors {
  import opened Json
  import opened Wrappers
  import Plants

  const InternalErrorMessage := "Internal server error"

  /** The exception kinds the wrapper tells apart. The five HTTP kinds carry
      their description; `Other` is any other exception, with its text. */
  datatype Exception =
    | NotFound(description: string)
    | BadRequest(description: string)
    | Unauthorized(description: string)
    | Forbidden(description: string)
    | InternalServerError(description: string)
    | Other(text: string)

  /** What a handler body does: it returns a response and the session's
      store, or it raises, with `pending` the session's store at that point. */
  datatype Outcome =
    | Returned(status: int, body: Value, store: Plants.Store)
    | Raised(error: Exception, pending: Plants.Store)

  /** What the client sees, and the store the next request sees. */
  datatype Reply = Reply(status: int, body: Value, store: Plants.Store)

  /** The outcome of the one commit a writing handler makes. The store's own
      failures (constraint violations, I/O) are not visible to the handlers,
      so they enter the model as this parameter. */
  datatype Commit = Commits | Fails(message: string)

  /** `{"error": description}`. */
  function ErrorBody(description: string): Value
  {
    Single("error", Str(description))
  }

  /** `{"message": text}`. */
  function MessageBody(text: string): Value
  {
    Single("message", Str(text))
  }

  /** The wrapper, given the store as it was before the request and the
      handler body's outcome. */
  function HandleErrors(pre: Plants.Store, outcome: Outcome): (r: Reply)
    ensures outcome.Returned? ==> r == Reply(outcome.status, outcome.body, outcome.store)
    ensures outcome.Raised? && outcome.error.Other? ==>
      r == Reply(422, MessageBody(outcome.error.text), pre)
    ensures outcome.Raised? && !outcome.error.Other? ==>
      && r.store == outcome.pending
      && r.status == StatusOf(outcome.error)
      && r.body == ErrorBody(
           if outcome.error.InternalServerError? then InternalErrorMessage
           else outcome.error.description)
  {
    match outcome
    case Returned(status, body, store) => Reply(status, body, store)
    case Raised(e, pending) =>
      match e
      case NotFound(d) => Reply(404, ErrorBody(d), pending)
      case BadRequest(d) => Reply(400, ErrorBody(d), pending)
      case Unauthorized(d) => Reply(401, ErrorBody(d), pending)
      case Forbidden(d) => Reply(403, ErrorBody(d), pending)
      case InternalServerError(_) => Reply(500, ErrorBody(InternalErrorMessage), pending)
      case Other(text) => Reply(422, MessageBody(text), pre)
  }

  /** The status code each exception kind is reported with. */
  function StatusOf(e: Exception): int
  {
    match e
    case NotFound(_) => 404
    case BadRequest(_) => 400
    case Unauthorized(_) => 401
    case Forbidden(_) => 403
    case InternalServerError(_) => 500
    case Other(_) => 422
  }

  /** The kind of an exception with its payload forgotten. */
  function KindOf(e: Exception): Exception
  {
    match e
    case NotFound(_) => NotFound("")
    case BadRequest(_) => BadRequest("")
    case Unauthorized(_) => Unauthorized("")
    case Forbidden(_) => Forbidden("")
    case InternalServerError(_) => InternalServerError("")
    case Other(_) => Other("")
  }

  /** Reading the kind back off a status code a raised exception produced. */
  function KindOfStatus(status: int): (k: Option<Exception>)
  {
    if status == 404 then Some(NotFound(""))
    else if status == 400 then Some(BadRequest(""))
    else if status == 401 then Some(Unauthorized(""))
    else if status == 403 then Some(Forbidden(""))
    else if status == 500 then Some(InternalServerError(""))
    else if status == 422 then Some(Other(""))
    else None
  }

  /** The status of a raised exception's reply names its kind: no two kinds
      share a status code, and every one is an error status. */
  lemma RaisedStatusIdentifiesKind(pre: Plants.Store, e: Exception, pending: Plants.Store)
    ensures KindOfStatus(HandleErrors(pre, Raised(e, pending)).status) == Some(KindOf(e))
    ensures 400 <= HandleErrors(pre, Raised(e, pending)).status < 600
  {
  }

  /** Only the catch-all branch calls rollback and so restores the
      pre-request store; the other branches pass the session's store through
      untouched. No handler raises one of those kinds after writing (see
      `Resources.CreateRaisesBeforeWriting` and its neighbours), so for them
      it is the pre-request store as well. */
  lemma RollbackOnlyForOther(pre: Plants.Store, e: Exception, pending: Plants.Store)
    ensures HandleErrors(pre, Raised(e, pending)).store == (if e.Other? then pre else pending)
  {
  }
}
