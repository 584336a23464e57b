/**
 * The admin login route (app/api/admin/login/route.ts): look the admin up by
 * e-mail, check the password against the stored hash, and on success issue
 * the session cookie that the projects route accepts.
 */
module LoginRoute {
  import opened Wrappers
  import opened Http
  import opened Cookies
  import ProjectsRoute

  /** A row of `admin_users`, as far as the login reads it. */
  datatype AdminUser = AdminUser(id: string, email: string, passwordHash: string)

  /** What `.eq('email', email).single()` gives: an error, no row, or the row. */
  datatype Lookup = LookupFailed | NoAdmin | Found(admin: AdminUser)

  /** The `{ email, password }` of the request body. */
  datatype Credentials = Credentials(email: string, password: string)

  /** One week, in seconds. */
  const SessionMaxAge: int := 60 * 60 * 24 * 7

  const InvalidCredentials: Response := Response(401, ErrorBody("Invalid credentials"))
  const InternalError: Response := Response(500, ErrorBody("Internal server error"))

  /** The options of the session cookie; `secure` only when `NODE_ENV` is `production`. */
  function SessionCookie(adminId: string, nodeEnv: string): (c: Cookie)
    ensures c.value == adminId && c.httpOnly && c.sameSite == Lax && c.path == "/"
    ensures c.maxAge == 604800
    ensures c.secure <==> nodeEnv == "production"
  {
    Cookie(adminId, true, nodeEnv == "production", Lax, "/", SessionMaxAge)
  }

  datatype Decision = Rejected | Accepted(cookie: Cookie)

  /**
   * The accept/reject decision: a failed or empty lookup and a password that
   * does not verify are both rejections; `verify(password, hash)` stands for
   * `bcrypt.compare`.
   */
  function Decide(lookup: Lookup, password: string, verify: (string, string) -> bool, nodeEnv: string): (d: Decision)
    ensures d.Accepted? <==> lookup.Found? && verify(password, lookup.admin.passwordHash)
    ensures d.Accepted? ==> d.cookie == SessionCookie(lookup.admin.id, nodeEnv)
  {
    match lookup
    case Found(admin) =>
      if verify(password, admin.passwordHash) then Accepted(SessionCookie(admin.id, nodeEnv)) else Rejected
    case _ => Rejected
  }

  /** The session cookie a successful login issues is one the projects route accepts. */
  lemma AcceptedAuthenticates(jar: map<string, Cookie>, lookup: Lookup, password: string,
                              verify: (string, string) -> bool, nodeEnv: string)
    requires Decide(lookup, password, verify, nodeEnv).Accepted?
    ensures ProjectsRoute.CheckAuth(jar[ProjectsRoute.SessionCookieName := Decide(lookup, password, verify, nodeEnv).cookie])
  {
  }

  /**
   * `POST /api/admin/login`. `body` is `None` when `request.json()` throws;
   * `lookup` is the `admin_users` query by e-mail.
   */
  method Login(store: CookieStore, body: Option<Credentials>, lookup: string -> Lookup,
               verify: (string, string) -> bool, nodeEnv: string) returns (r: Response)
    modifies store
    ensures body.None? ==> r == InternalError && store.entries == old(store.entries)
    ensures body.Some? && Decide(lookup(body.value.email), body.value.password, verify, nodeEnv).Rejected? ==>
      r == InvalidCredentials && store.entries == old(store.entries)
    ensures body.Some? && Decide(lookup(body.value.email), body.value.password, verify, nodeEnv).Accepted? ==>
      && r == Response(200, SuccessBody)
      && store.entries == old(store.entries)[ProjectsRoute.SessionCookieName :=
           Decide(lookup(body.value.email), body.value.password, verify, nodeEnv).cookie]
    ensures r.status == 200 ==> ProjectsRoute.CheckAuth(store.entries)
    ensures r.status != 200 ==> store.entries == old(store.entries)
  {
    if body.None? {
      return InternalError;
    }
    var d := Decide(lookup(body.value.email), body.value.password, verify, nodeEnv);
    match d
    case Rejected =>
      r := InvalidCredentials;
    case Accepted(cookie) =>
      store.Set(ProjectsRoute.SessionCookieName, cookie);
      r := Response(200, SuccessBody);
  }
}
