/** What a route handler sends back, reduced to what the client observes. */
module Http {

  /** `res.status(code).send()` / `.end()`, or `res.redirect(location)` (a 302). */
  datatype Response =
    | Status(code: int)
    | Redirect(location: string)

  /** A handler's outcome: the response it sends and the state it leaves behind. */
  datatype Step<S> = Step(response: Response, after: S)
}
