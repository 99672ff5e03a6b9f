/**
 * Requests in sequence, each handler seeing the cookie jar the previous one left behind
 * (the browser applies every Set-Cookie header before the next request).
 */
module Flows {
  import opened Wrappers
  import opened Js
  import opened IdentityProvider
  import opened Cookies
  import opened Http
  import PageGuard
  import AdminGate
  import AdminUsersList
  import SessionLogin
  import SessionLogout

  /** Logging out twice: both succeed, the second issues no call and leaves no session cookie. */
  method LogoutTwice(incoming: map<string, string>, auth: Provider)
    returns (first: Response<SessionLogout.LoggedOut>, second: Response<SessionLogout.LoggedOut>, secondTrace: seq<Action>)
    ensures first == Success(SessionLogout.LoggedOut) && second == Success(SessionLogout.LoggedOut)
    ensures secondTrace == []
  {
    var jar := new CookieJar(incoming);
    var trace;
    first, trace := SessionLogout.Post(jar, auth);
    second, secondTrace := SessionLogout.Post(jar, auth);
  }

  /** After logging out, a protected page sends the visitor to the login page. */
  method LogoutThenVisit(incoming: map<string, string>, auth: Provider, pathname: string)
    returns (page: PageGuard.LoadResult)
    requires pathname != "/login" && pathname != "/signup"
    ensures page == PageGuard.Redirect(303, "/login")
  {
    var jar := new CookieJar(incoming);
    var resp, trace := SessionLogout.Post(jar, auth);
    page, trace := PageGuard.Load(jar, pathname, auth);
  }

  /**
   * Logging in, then opening a protected page: when the provider accepts the cookie it minted,
   * the page renders for the user whose uid the login response reported.
   */
  method LoginThenVisit(idToken: string, auth: Provider, nodeEnv: string, pathname: string)
    returns (login: Response<SessionLogin.SessionCreated>, page: PageGuard.LoadResult)
    requires idToken != ""
    requires pathname != "/login" && pathname != "/signup"
    requires auth.verifyIdToken(Str(idToken)).Ok?
    requires var minted := auth.createSessionCookie(Str(idToken), SessionLogin.ExpiresIn);
             minted.Ok? && minted.value != ""
             && auth.verifySessionCookie(minted.value).Ok?
             && auth.verifySessionCookie(minted.value).value.uid == auth.verifyIdToken(Str(idToken)).value.uid
    ensures login.Success?
    ensures page.PageData? && page.user.Some? && page.user.value.uid == login.body.uid
  {
    var jar := new CookieJar(map[]);
    var trace;
    login, trace := SessionLogin.Post(jar, Ok(Obj(map["idToken" := Str(idToken)])), auth, nodeEnv);
    page, trace := PageGuard.Load(jar, pathname, auth);
  }

  /**
   * As written: the admin endpoints read the cookie "session" while the login endpoint writes
   * "__session", so a freshly signed-in browser is refused with 401 whatever its role.
   */
  method LoginThenListUsers(idToken: string, auth: Provider, nodeEnv: string)
    returns (login: Response<SessionLogin.SessionCreated>, list: Response<seq<AdminUsersList.UserSummary>>)
    ensures list == Failure(401)
  {
    var jar := new CookieJar(map[]);
    var trace;
    login, trace := SessionLogin.Post(jar, Ok(Obj(map["idToken" := Str(idToken)])), auth, nodeEnv);
    list, trace := AdminUsersList.Get(jar, AdminGate.AdminCookieName, auth);
  }

  /**
   * With the admin endpoints reading the cookie the login endpoint writes, an admin who has
   * just signed in receives the user list.
   */
  method LoginThenListUsersCorrected(idToken: string, auth: Provider, nodeEnv: string)
    returns (login: Response<SessionLogin.SessionCreated>, list: Response<seq<AdminUsersList.UserSummary>>)
    requires idToken != "" && auth.adminHandle
    requires auth.verifyIdToken(Str(idToken)).Ok?
    requires var minted := auth.createSessionCookie(Str(idToken), SessionLogin.ExpiresIn);
             minted.Ok? && minted.value != ""
             && auth.verifySessionCookie(minted.value).Ok?
             && auth.verifySessionCookie(minted.value).value.role == Str("admin")
    requires auth.listUsers(AdminUsersList.ListLimit).Ok?
    ensures login.Success?
    ensures list == Success(AdminUsersList.SummarizeAll(auth.listUsers(AdminUsersList.ListLimit).value))
  {
    var jar := new CookieJar(map[]);
    var trace;
    login, trace := SessionLogin.Post(jar, Ok(Obj(map["idToken" := Str(idToken)])), auth, nodeEnv);
    list, trace := AdminUsersList.Get(jar, SessionCookie, auth);
  }
}
