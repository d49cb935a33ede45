/** What the account handlers guarantee, proved about the functions of module Account. */
module AccountProperties {
  import opened Wrappers
  import opened Http
  import opened Sessions
  import opened Auth
  import opened Db
  import opened Crypto
  import opened Account

  // ------------------------------------------------------------------ POST /user

  /** 400 for a missing field, 500 for a store fault, 409 for a taken username; none of them inserts. */
  lemma RegisterRejects(t: Tables, h: Hasher, salt: nat, username: Option<string>, password: Option<string>, fault: bool)
    ensures var r := Register(t, h, salt, username, password, fault);
      && (!Present(username) || !Present(password) ==> r == Step(Status(400), t))
      && (Present(username) && Present(password) && fault ==> r == Step(Status(500), t))
      && (Present(username) && Present(password) && !fault && UsernameTaken(t.users, username.value)
          ==> r == Step(Status(409), t))
  {
  }

  /** Otherwise one row (fresh id, username, hash of the password) is appended and the client goes to /login. */
  lemma RegisterInserts(t: Tables, h: Hasher, salt: nat, username: Option<string>, password: Option<string>)
    requires Present(username) && Present(password) && !UsernameTaken(t.users, username.value)
    ensures Register(t, h, salt, username, password, false)
         == Step(Redirect("/login"),
                 t.(users := t.users + [UserRow(t.nextUserId, username.value, h.hash(password.value, salt))],
                    nextUserId := t.nextUserId + 1))
  {
  }

  /** Registration never breaks the invariants; in particular no username is stored twice. */
  lemma RegisterKeepsWellFormed(t: Tables, h: Hasher, salt: nat, username: Option<string>, password: Option<string>, fault: bool)
    requires WellFormed(t)
    ensures WellFormed(Register(t, h, salt, username, password, fault).after)
  {
  }

  // ----------------------------------------------------------------- POST /login

  /** A missing field or an unknown username gives 400 and leaves the session as it was. */
  lemma LoginRejectsUnknown(t: Tables, s: SessionState, h: Hasher, username: Option<string>, password: Option<string>, saveFails: bool)
    requires !Present(username) || !Present(password) || !UsernameTaken(t.users, username.value)
    ensures Login(t, s, h, username, password, saveFails) == Step(Status(400), s)
  {
    if Present(username) {
      SelectEmptyIffFree(t.users, username.value);
    }
  }

  /**
   * For the user row with that username: a password that does not verify gives
   * 400 with the session unchanged; one that does marks the session logged in
   * for that row's id, and the answer is 500 if saving fails, else a redirect to `/`.
   */
  lemma LoginWithUser(t: Tables, s: SessionState, h: Hasher, i: int, password: Option<string>, saveFails: bool)
    requires UsernamesUnique(t.users)
    requires 0 <= i < |t.users| && t.users[i].username != "" && Present(password)
    ensures var r := Login(t, s, h, Some(t.users[i].username), password, saveFails);
      && (!h.compare(password.value, t.users[i].password) ==> r == Step(Status(400), s))
      && (h.compare(password.value, t.users[i].password) ==>
            r.after == SessionState(Some(true), Some(t.users[i].id))
            && r.response == (if saveFails then Status(500) else Redirect("/")))
  {
    SelectUnique(t.users, i);
  }

  /** An unknown username and a wrong password are answered identically, so the response does not reveal which. */
  lemma LoginFailuresIndistinguishable(
    t: Tables, s: SessionState, h: Hasher, unknown: string, i: int, password1: string, password2: string, saveFails: bool)
    requires UsernamesUnique(t.users)
    requires !UsernameTaken(t.users, unknown)
    requires 0 <= i < |t.users| && t.users[i].username != "" && password2 != ""
    requires !h.compare(password2, t.users[i].password)
    ensures Login(t, s, h, Some(unknown), Some(password1), saveFails)
         == Login(t, s, h, Some(t.users[i].username), Some(password2), saveFails)
  {
    LoginRejectsUnknown(t, s, h, Some(unknown), Some(password1), saveFails);
    LoginWithUser(t, s, h, i, Some(password2), saveFails);
  }

  /** Whatever login leaves behind satisfies the session invariant; a logged-in session passes the gate. */
  lemma LoginKeepsSessionOk(t: Tables, s: SessionState, h: Hasher, username: Option<string>, password: Option<string>, saveFails: bool)
    requires SessionOk(s)
    ensures var r := Login(t, s, h, username, password, saveFails);
      SessionOk(r.after) && (r.response == Redirect("/") ==> CheckAuth(r.after) == Next)
  {
  }

  /**
   * A user who has just registered can log in with the same password: the
   * session then belongs to the new row's id.
   */
  lemma RegisterThenLogin(t: Tables, s: SessionState, h: Hasher, salt: nat, username: string, password: string)
    requires WellFormed(t) && Sound(h)
    requires username != "" && password != "" && !UsernameTaken(t.users, username)
    ensures var reg := Register(t, h, salt, Some(username), Some(password), false);
            var login := Login(reg.after, s, h, Some(username), Some(password), false);
            && reg.response == Redirect("/login")
            && login == Step(Redirect("/"), SessionState(Some(true), Some(t.nextUserId)))
  {
    var row := UserRow(t.nextUserId, username, h.hash(password, salt));
    SelectEmptyIffFree(t.users, username);
    SelectAppend(t.users, row, username);
    assert h.compare(password, h.hash(password, salt));
  }

  // ----------------------------------------------------------------- GET /logout

  /** Logout always empties the session and redirects to `/`; the gate then sends the client to /login. */
  lemma LogoutClosesGate(s: SessionState)
    ensures var r := Logout(s);
      r == Step(Redirect("/"), Blank) && CheckAuth(r.after) == Respond(Redirect("/login")) && SessionOk(r.after)
  {
  }
}
