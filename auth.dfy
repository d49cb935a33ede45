/** The login gate placed in front of every cart route. */
module Auth {
  import opened Wrappers
  import opened Http
  import opened Sessions

  /** Either the request goes on to its handler (`next()`), or the gate answers it. */
  datatype Gate = Next | Respond(response: Response)

  /**
   * The gate lets a request through exactly when `loggedIn` is strictly `true`
   * (an unset attribute counts as logged out) and otherwise redirects to the
   * login page.  It is a function of the session: it writes nothing.
   */
  function CheckAuth(s: SessionState): (g: Gate)
    ensures g.Next? <==> s.loggedIn == Some(true)
    ensures !g.Next? ==> g == Respond(Redirect("/login"))
  {
    if s.loggedIn == Some(true) then Next else Respond(Redirect("/login"))
  }
}
