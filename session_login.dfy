/**
 * `POST /api/auth/session`: exchange an ID token for a five-day session cookie, written
 * as `__session` only after both the verification and the exchange succeeded.
 */
module SessionLogin {
  import opened Wrappers
  import opened Js
  import opened IdentityProvider
  import opened Cookies
  import opened Http

  /** Five days, in milliseconds: `60 * 60 * 24 * 5 * 1000`. */
  const ExpiresIn: int := 60 * 60 * 24 * 5 * 1000

  /** The codes reported as an invalid or expired ID token. */
  const InvalidTokenCodes: seq<string> := ["auth/id-token-expired", "auth/argument-error"]

  /** The body of the success response: `{ status: 'success', uid }`. */
  datatype SessionCreated = SessionCreated(uid: string)

  /** The cookie policy: `maxAge` is `expiresIn / 1000` seconds; `secure` only in production. */
  function SessionCookieOptions(nodeEnv: string): (o: CookieOptions)
    ensures o.maxAge * 1000 == ExpiresIn && o.maxAge == 432000
    ensures o.httpOnly && o.path == "/" && o.sameSite == Lax
    ensures o.secure <==> nodeEnv == "production"
  {
    CookieOptions(ExpiresIn / 1000, true, nodeEnv == "production", "/", Lax)
  }

  /**
   * The catch block: the two invalid-token codes are 401; anything else, including an
   * error without a code (an unparsable body, a `null` body), is 500.
   */
  function SessionErrorStatus(code: Option<string>): (status: int)
    ensures status == 401 <==> code == Some("auth/id-token-expired") || code == Some("auth/argument-error")
    ensures status == 500 <==> !(code.Some? && code.value in InvalidTokenCodes)
  {
    if code.Some? && code.value in InvalidTokenCodes then 401 else 500
  }

  /** `const { idToken } = body`: `None` stands for the TypeError of destructuring `null`. */
  function IdTokenOf(body: Result<JsValue, SyntaxError>): Option<JsValue> {
    if body.Err? then None else Property(body.value, "idToken")
  }

  /** `POST({ request, cookies })`; `nodeEnv` is `process.env.NODE_ENV`. */
  method Post(jar: CookieJar, body: Result<JsValue, SyntaxError>, auth: Provider, nodeEnv: string)
    returns (resp: Response<SessionCreated>, trace: seq<Action>)
    modifies jar
    // the body is always read; a body that cannot be read is 500, a falsy token 400
    ensures IdTokenOf(body).None? ==> resp == Failure(500) && trace == [ReadRequestBody]
    ensures IdTokenOf(body).Some? && !Truthy(IdTokenOf(body).value) ==> resp == Failure(400) && trace == [ReadRequestBody]
    // with a token: verify it, then exchange it, each failure mapped by its code
    ensures IdTokenOf(body).Some? && Truthy(IdTokenOf(body).value) ==>
              var idToken := IdTokenOf(body).value;
              var decoded := auth.verifyIdToken(idToken);
              var minted := auth.createSessionCookie(idToken, ExpiresIn);
              && (decoded.Err? ==> resp == Failure(SessionErrorStatus(Some(decoded.error.code)))
                                   && trace == [ReadRequestBody, VerifyIdToken(idToken)])
              && (decoded.Ok? ==> trace == [ReadRequestBody, VerifyIdToken(idToken), CreateSessionCookie(idToken, ExpiresIn)])
              && (decoded.Ok? && minted.Err? ==> resp == Failure(SessionErrorStatus(Some(minted.error.code))))
              && (decoded.Ok? && minted.Ok? ==>
                    resp == Success(SessionCreated(decoded.value.uid))
                    && jar.values == old(jar.values)[SessionCookie := minted.value]
                    && jar.written == old(jar.written) + [SetCookie(SessionCookie, minted.value, SessionCookieOptions(nodeEnv))])
    // the jar changes only on success
    ensures resp.Failure? ==> jar.values == old(jar.values) && jar.written == old(jar.written)
    ensures Mutations(trace) == []
  {
    trace := [ReadRequestBody];
    var idToken := IdTokenOf(body);
    if idToken.None? {
      return Failure(SessionErrorStatus(None)), trace;
    }
    if !Truthy(idToken.value) {
      return Failure(400), trace;
    }

    var expiresIn := ExpiresIn;
    trace := trace + [VerifyIdToken(idToken.value)];
    var decodedIdToken := auth.verifyIdToken(idToken.value);
    if decodedIdToken.Err? {
      return Failure(SessionErrorStatus(Some(decodedIdToken.error.code))), trace;
    }
    trace := trace + [CreateSessionCookie(idToken.value, expiresIn)];
    var sessionCookie := auth.createSessionCookie(idToken.value, expiresIn);
    if sessionCookie.Err? {
      return Failure(SessionErrorStatus(Some(sessionCookie.error.code))), trace;
    }

    var options := SessionCookieOptions(nodeEnv);
    jar.Set(SessionCookie, sessionCookie.value, options);
    resp := Success(SessionCreated(decodedIdToken.value.uid));
  }
}
