/**
 * The server-side session of one client: the two attributes this core reads
 * and writes (`req.session.loggedIn`, `req.session.userId`).  The session store
 * behind it is not modelled; the object is the one a request handler sees.
 */
module Sessions {
  import opened Wrappers

  /** The attributes as values; `None` is an attribute that was never set. */
  datatype SessionState = SessionState(loggedIn: Option<bool>, userId: Option<int>)

  /** A session nobody has logged into, and what a destroyed session is replaced by. */
  const Blank := SessionState(None, None)

  /** Login sets `userId` together with `loggedIn`, so a logged-in session always names its user. */
  predicate SessionOk(s: SessionState) {
    s.loggedIn == Some(true) ==> s.userId.Some?
  }

  class Session {
    var loggedIn: Option<bool>
    var userId: Option<int>

    constructor ()
      ensures State() == Blank
    {
      loggedIn := None;
      userId := None;
    }

    function State(): SessionState
      reads this
    {
      SessionState(loggedIn, userId)
    }

    ghost predicate Valid()
      reads this
    {
      SessionOk(State())
    }
  }
}
