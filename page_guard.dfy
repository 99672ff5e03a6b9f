/**
 * The root layout's server `load`: it classifies the request's session cookie, clears a
 * cookie that fails verification, and decides between rendering and a 303 redirect.
 */
module PageGuard {
  import opened Wrappers
  import opened Js
  import opened IdentityProvider
  import opened Cookies

  /** The routes a visitor may see without being signed in (compared by exact equality). */
  const PublicRoutes: seq<string> := ["/login", "/signup"]

  /** The `user` object handed to the layout and its pages. */
  datatype User = User(uid: string, email: JsValue, emailVerified: JsValue)

  /** The three states of the session cookie on one request. */
  datatype Session = NoSession | ValidSession(claims: Claims) | InvalidSession(error: AuthError)

  /** What `load` produces: a thrown redirect, or the page data `{ user }`. */
  datatype LoadResult = Redirect(status: int, location: string) | PageData(user: Option<User>)

  /** The session state, given the cookie read and the outcome of `verifySessionCookie`. */
  function Classify(cookie: Option<string>, verify: string -> Result<Claims, AuthError>): (s: Session)
    ensures s.NoSession? <==> !Present(cookie)
    ensures s.ValidSession? <==> Present(cookie) && verify(cookie.value).Ok?
    ensures s.ValidSession? ==> s.claims == verify(cookie.value).value
    ensures s.InvalidSession? ==> verify(cookie.value) == Err(s.error)
  {
    if !Present(cookie) then NoSession
    else match verify(cookie.value)
      case Ok(claims) => ValidSession(claims)
      case Err(e) => InvalidSession(e)
  }

  /** The user the layout exposes: present exactly for a valid session, built from its claims. */
  function UserOf(s: Session): (u: Option<User>)
    ensures u.Some? <==> s.ValidSession?
    ensures u.Some? ==> u.value.uid == s.claims.uid && u.value.email == s.claims.email
                        && u.value.emailVerified == s.claims.emailVerified
  {
    if s.ValidSession? then Some(User(s.claims.uid, s.claims.email, s.claims.emailVerified)) else None
  }

  predicate IsPublicRoute(pathname: string) {
    pathname in PublicRoutes
  }

  /**
   * The two ordered redirect rules: a visitor without a user is sent to the login page from
   * any non-public route; a signed-in user is sent home from a public route.
   */
  function Decide(user: Option<User>, pathname: string): (r: LoadResult)
    ensures r == Redirect(303, "/login") <==> user.None? && pathname != "/login" && pathname != "/signup"
    ensures r == Redirect(303, "/") <==> user.Some? && (pathname == "/login" || pathname == "/signup")
    ensures r.Redirect? ==> r.status == 303 && (r.location == "/login" || r.location == "/")
    ensures r.PageData? ==> r.user == user
  {
    if user.None? && !IsPublicRoute(pathname) then Redirect(303, "/login")
    else if user.Some? && IsPublicRoute(pathname) then Redirect(303, "/")
    else PageData(user)
  }

  /** A page is rendered exactly when a user is present on a protected route or absent on a public one. */
  lemma RendersExactly(user: Option<User>, pathname: string)
    ensures Decide(user, pathname).PageData? <==> (user.Some? <==> !IsPublicRoute(pathname))
  {
  }

  /** Redirects do not loop: the target of a redirect renders for the same user. */
  lemma RedirectTargetRenders(user: Option<User>, pathname: string)
    ensures var r := Decide(user, pathname);
            r.Redirect? ==> Decide(user, r.location) == PageData(user)
  {
  }

  /**
   * `load({ cookies, url })`.  The cookie jar is changed only when a cookie was present and
   * failed verification: then `__session` is deleted with path `/`.
   */
  method Load(jar: CookieJar, pathname: string, auth: Provider) returns (r: LoadResult, trace: seq<Action>)
    modifies jar
    ensures trace == if Present(old(jar.Get(SessionCookie)))
                     then [VerifySessionCookie(old(jar.Get(SessionCookie)).value, true)] else []
    ensures Mutations(trace) == []
    ensures r == Decide(UserOf(Classify(old(jar.Get(SessionCookie)), auth.verifySessionCookie)), pathname)
    ensures Classify(old(jar.Get(SessionCookie)), auth.verifySessionCookie).InvalidSession? ==>
              jar.values == old(jar.values) - {SessionCookie}
              && jar.written == old(jar.written) + [DeleteCookie(SessionCookie, "/")]
    ensures !Classify(old(jar.Get(SessionCookie)), auth.verifySessionCookie).InvalidSession? ==>
              jar.values == old(jar.values) && jar.written == old(jar.written)
  {
    trace := [];
    var user: Option<User> := None;
    var sessionCookie := jar.Get(SessionCookie);
    if Present(sessionCookie) {
      trace := trace + [VerifySessionCookie(sessionCookie.value, true)];
      match auth.verifySessionCookie(sessionCookie.value)
      case Ok(decodedClaims) =>
        user := Some(User(decodedClaims.uid, decodedClaims.email, decodedClaims.emailVerified));
      case Err(_) =>
        jar.Delete(SessionCookie, "/");
        user := None;
    }

    var isPublicRoute := IsPublicRoute(pathname);
    if user.None? && !isPublicRoute {
      return Redirect(303, "/login"), trace;
    }
    if user.Some? && isPublicRoute {
      return Redirect(303, "/"), trace;
    }
    return PageData(user), trace;
  }
}
