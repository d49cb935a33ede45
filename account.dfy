/**
 * The account handlers, which need no login: registration writes the users
 * table, login and logout write only the session.
 */
module Account {
  import opened Wrappers
  import opened Http
  import opened Sessions
  import opened Db
  import opened Crypto

  /** A body field counts as given when it is present and not the empty string (JavaScript truthiness of a string). */
  predicate Present(field: Option<string>) {
    field.Some? && field.value != ""
  }

  /**
   * POST /user: 400 for a missing field; otherwise the password is hashed and
   * the row inserted.  `fault` stands for a store failure other than the
   * uniqueness violation (500); a taken username is that violation (409).
   * Success redirects to the login page.
   */
  function Register(t: Tables, h: Hasher, salt: nat, username: Option<string>, password: Option<string>, fault: bool)
    : Step<Tables>
  {
    if !Present(username) || !Present(password) then Step(Status(400), t)
    else
      var hashed := h.hash(password.value, salt);
      if fault then Step(Status(500), t)
      else if UsernameTaken(t.users, username.value) then Step(Status(409), t)
      else Step(Redirect("/login"), InsertUser(t, username.value, hashed))
  }

  /**
   * POST /login: 400 for a missing field, for no row with that username and for
   * a password that does not verify against the first row's hash.  On a match
   * the session is marked logged in for that row's id; `saveFails` stands for the
   * session store failing to save it (500), otherwise the answer redirects to `/`.
   */
  function Login(t: Tables, s: SessionState, h: Hasher, username: Option<string>, password: Option<string>, saveFails: bool)
    : Step<SessionState>
  {
    if !Present(username) || !Present(password) then Step(Status(400), s)
    else
      var found := SelectByUsername(t.users, username.value);
      if |found| == 0 then Step(Status(400), s)
      else if !h.compare(password.value, found[0].password) then Step(Status(400), s)
      else
        var s' := SessionState(Some(true), Some(found[0].id));
        Step(if saveFails then Status(500) else Redirect("/"), s')
  }

  /** GET /logout: the session is destroyed, whatever it held, and the answer redirects to `/`. */
  function Logout(s: SessionState): Step<SessionState> {
    Step(Redirect("/"), Blank)
  }
}
