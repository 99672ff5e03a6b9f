/**
 * The authorization prologue shared, line for line, by the admin API endpoints: a session
 * cookie must be present and verify (else 401), and its claims must carry role "admin"
 * (else 403).
 */
module AdminGate {
  import opened Wrappers
  import opened Js
  import opened IdentityProvider
  import opened Cookies

  /** The cookie name the admin endpoints read (the login endpoint writes "__session"). */
  const AdminCookieName: string := "session"

  datatype Gate = Unauthorized | Forbidden | Admitted(claims: Claims)

  /** The cookie is present, the SDK handle is obtained and the cookie verifies. */
  predicate Verified(cookie: Option<string>, auth: Provider) {
    Present(cookie) && auth.adminHandle && auth.verifySessionCookie(cookie.value).Ok?
  }

  function RequesterClaims(cookie: Option<string>, auth: Provider): Claims
    requires Verified(cookie, auth)
  {
    auth.verifySessionCookie(cookie.value).value
  }

  /** `claims.role === 'admin'` (strict equality: only the string "admin" qualifies). */
  predicate IsAdmin(claims: Claims) {
    claims.role == Str("admin")
  }

  /** The requester passes both checks. */
  predicate Admits(cookie: Option<string>, auth: Provider) {
    Verified(cookie, auth) && IsAdmin(RequesterClaims(cookie, auth))
  }

  /** The SDK calls the gate issues: a verification, once a cookie is present and a handle obtained. */
  function GateTrace(cookie: Option<string>, auth: Provider): seq<Action> {
    if Present(cookie) && auth.adminHandle then [VerifySessionCookie(cookie.value, true)] else []
  }

  /**
   * Steps 1 and 2 of each admin endpoint.  Every failure inside the first try block (no
   * cookie, no handle, a rejected cookie) becomes 401; a verified non-admin is 403.
   */
  method Authorize(jar: CookieJar, cookieName: string, auth: Provider) returns (gate: Gate, trace: seq<Action>)
    ensures gate.Unauthorized? <==> !Verified(jar.Get(cookieName), auth)
    ensures gate.Forbidden? <==> Verified(jar.Get(cookieName), auth) && !IsAdmin(RequesterClaims(jar.Get(cookieName), auth))
    ensures gate.Admitted? ==> gate.claims == RequesterClaims(jar.Get(cookieName), auth) && IsAdmin(gate.claims)
    ensures trace == GateTrace(jar.Get(cookieName), auth)
  {
    trace := [];
    var sessionCookie := jar.Get(cookieName);
    if !Present(sessionCookie) {
      return Unauthorized, trace;
    }
    if !auth.adminHandle {
      return Unauthorized, trace;
    }
    trace := trace + [VerifySessionCookie(sessionCookie.value, true)];
    var verified := auth.verifySessionCookie(sessionCookie.value);
    if verified.Err? {
      return Unauthorized, trace;
    }
    var requestingUserClaims := verified.value;
    if requestingUserClaims.role != Str("admin") {
      return Forbidden, trace;
    }
    gate := Admitted(requestingUserClaims);
  }

  function GateStatus(gate: Gate): (status: int)
    requires !gate.Admitted?
    ensures status == 401 <==> gate.Unauthorized?
    ensures status == 403 <==> gate.Forbidden?
  {
    if gate.Unauthorized? then 401 else 403
  }
}
