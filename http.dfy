/** The few HTTP shapes the admin handlers produce. */
module Http {

  /** A 303 See Other redirect. */
  datatype HttpResponse = SeeOther(location: string)

  /**
    The error half of a handler's result: a 500 built by `e500`, or an
    error that carries its own response (the redirect to the login page).
   */
  datatype HandlerError =
    | InternalServerError(cause: string)
    | ErrorWithResponse(response: HttpResponse, cause: string)

  datatype FlashLevel = Info | Error

  /** A one-shot message shown on the next page the browser loads. */
  datatype FlashMessage = FlashMessage(level: FlashLevel, content: string)
}
