/**
 * The identity-provider SDK as seen by the handlers.  Each SDK call is an uninterpreted
 * oracle: for a given argument it either yields a value or rejects with an error code.
 * Every call a handler issues, and its reading of the request body, is recorded in a
 * trace of `Action`s, so that "X is never called" and "Y is called with Z" can be stated.
 */
module IdentityProvider {
  import opened Wrappers
  import opened Js

  /** A rejected SDK call, identified by its `code` (for instance "auth/id-token-expired"). */
  datatype AuthError = AuthError(code: string)

  /** The decoded claims of a session cookie or of an ID token. */
  datatype Claims = Claims(uid: string, sub: string, email: JsValue, emailVerified: JsValue, role: JsValue)

  /** A user record as returned by `listUsers` and `createUser` (with `metadata` flattened). */
  datatype UserRecord = UserRecord(
    uid: string,
    email: JsValue,
    emailVerified: bool,
    disabled: bool,
    customClaims: Option<map<string, JsValue>>,
    lastSignInTime: JsValue,
    creationTime: JsValue)

  /** The properties passed to `createUser`. */
  datatype NewUser = NewUser(email: JsValue, password: JsValue, emailVerified: bool)

  /**
   * The outcome of every SDK call, as a function of its arguments.  `verifySessionCookie`
   * stands for the call with `checkRevoked` true, which every caller passes.  `adminHandle` says
   * whether `getAdminAuth()`, which the admin endpoints call to obtain the SDK handle,
   * returns at all rather than throwing.
   */
  datatype Provider = Provider(
    verifySessionCookie: string -> Result<Claims, AuthError>,
    verifyIdToken: JsValue -> Result<Claims, AuthError>,
    createSessionCookie: (JsValue, int) -> Result<string, AuthError>,
    revokeRefreshTokens: string -> Result<(), AuthError>,
    listUsers: int -> Result<seq<UserRecord>, AuthError>,
    createUser: NewUser -> Result<UserRecord, AuthError>,
    setCustomUserClaims: (string, map<string, JsValue>) -> Result<(), AuthError>,
    adminHandle: bool)

  /** One externally visible step of a handler, in the order it was taken. */
  datatype Action =
    | ReadRequestBody
    | VerifySessionCookie(cookie: string, checkRevoked: bool)
    | VerifyIdToken(idToken: JsValue)
    | CreateSessionCookie(token: JsValue, expiresIn: int)
    | RevokeRefreshTokens(uid: string)
    | ListUsers(maxResults: int)
    | CreateUser(properties: NewUser)
    | SetCustomUserClaims(uid: string, claims: map<string, JsValue>)

  /** The actions that change state held by the identity provider. */
  predicate IsMutation(a: Action) {
    a.RevokeRefreshTokens? || a.CreateUser? || a.SetCustomUserClaims?
  }

  /** The remote mutations of a trace, in order. */
  function Mutations(trace: seq<Action>): (m: seq<Action>)
    ensures |m| <= |trace|
    ensures forall a :: a in m <==> a in trace && IsMutation(a)
    ensures m == [] <==> forall a :: a in trace ==> !IsMutation(a)
  {
    if trace == [] then []
    else (if IsMutation(trace[0]) then [trace[0]] else []) + Mutations(trace[1..])
  }

  /** The mutations of a concatenation are those of each part, in order. */
  lemma {:induction false} MutationsAppend(a: seq<Action>, b: seq<Action>)
    ensures Mutations(a + b) == Mutations(a) + Mutations(b)
  {
    if a == [] {
      assert a + b == b;
    } else {
      assert (a + b)[1..] == a[1..] + b;
      MutationsAppend(a[1..], b);
    }
  }
}
