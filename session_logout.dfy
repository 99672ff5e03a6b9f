/**
 * `POST /api/auth/logout`: best-effort revocation of the session's refresh tokens, then an
 * unconditional deletion of the cookie; the response is always a success.
 */
module SessionLogout {
  import opened Wrappers
  import opened IdentityProvider
  import opened Cookies
  import opened Http

  /** The body of the response: `{ status: 'success' }`. */
  datatype LoggedOut = LoggedOut

  /**
   * The SDK calls issued for a present cookie: a verification, and a revocation for the
   * claims' `sub` only if the verification succeeded.
   */
  function LogoutCalls(cookie: string, auth: Provider): (calls: seq<Action>)
    ensures |calls| == if auth.verifySessionCookie(cookie).Ok? then 2 else 1
    ensures calls[0] == VerifySessionCookie(cookie, true)
    ensures Mutations(calls) != [] <==> auth.verifySessionCookie(cookie).Ok?
    ensures auth.verifySessionCookie(cookie).Ok? ==>
              Mutations(calls) == [RevokeRefreshTokens(auth.verifySessionCookie(cookie).value.sub)]
  {
    [VerifySessionCookie(cookie, true)]
    + match auth.verifySessionCookie(cookie)
      case Ok(decodedClaims) => [RevokeRefreshTokens(decodedClaims.sub)]
      case Err(_) => []
  }

  /** `POST({ cookies })` */
  method Post(jar: CookieJar, auth: Provider) returns (resp: Response<LoggedOut>, trace: seq<Action>)
    modifies jar
    ensures resp == Success(LoggedOut)
    ensures !Present(old(jar.Get(SessionCookie))) ==>
              trace == [] && jar.values == old(jar.values) && jar.written == old(jar.written)
    ensures Present(old(jar.Get(SessionCookie))) ==>
              trace == LogoutCalls(old(jar.Get(SessionCookie)).value, auth)
              && jar.values == old(jar.values) - {SessionCookie}
              && jar.written == old(jar.written) + [DeleteCookie(SessionCookie, "/")]
    ensures !Present(jar.Get(SessionCookie))
  {
    trace := [];
    var sessionCookie := jar.Get(SessionCookie);
    if Present(sessionCookie) {
      // verification or revocation errors are swallowed
      trace := trace + [VerifySessionCookie(sessionCookie.value, true)];
      var verified := auth.verifySessionCookie(sessionCookie.value);
      if verified.Ok? {
        trace := trace + [RevokeRefreshTokens(verified.value.sub)];
        var revoked := auth.revokeRefreshTokens(verified.value.sub);
      }
      jar.Delete(SessionCookie, "/");
    }
    resp := Success(LoggedOut);
  }
}
