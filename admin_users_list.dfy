/** `GET /api/admin/users`: the admin gate, then `listUsers(1000)` projected to summaries. */
module AdminUsersList {
  import opened Wrappers
  import opened Js
  import opened IdentityProvider
  import opened Cookies
  import opened Http
  import opened AdminGate

  /** The page size requested from `listUsers`. */
  const ListLimit: int := 1000

  /** One entry of the response: `{ uid, email, role, disabled, lastSignInTime, creationTime }`. */
  datatype UserSummary = UserSummary(
    uid: string,
    email: JsValue,
    role: JsValue,
    disabled: bool,
    lastSignInTime: JsValue,
    creationTime: JsValue)

  /** `customClaims?.role || 'user'` */
  function RoleOrDefault(customClaims: Option<map<string, JsValue>>): (role: JsValue)
    ensures customClaims.Some? && "role" in customClaims.value && Truthy(customClaims.value["role"]) ==>
              role == customClaims.value["role"]
    ensures !(customClaims.Some? && "role" in customClaims.value && Truthy(customClaims.value["role"])) ==>
              role == Str("user")
    ensures Truthy(role)
  {
    match customClaims
    case None => Str("user")
    case Some(claims) => Or(if "role" in claims then claims["role"] else Undefined, Str("user"))
  }

  /** The projection of one user record; every field but `role` is copied unchanged. */
  function Summarize(u: UserRecord): (s: UserSummary)
    ensures s.uid == u.uid && s.email == u.email && s.disabled == u.disabled
    ensures s.lastSignInTime == u.lastSignInTime && s.creationTime == u.creationTime
    ensures s.role == RoleOrDefault(u.customClaims)
  {
    UserSummary(u.uid, u.email, RoleOrDefault(u.customClaims), u.disabled, u.lastSignInTime, u.creationTime)
  }

  /** `users.map(Summarize)`: same length, same order, entry i summarizes record i. */
  function SummarizeAll(users: seq<UserRecord>): (r: seq<UserSummary>)
    ensures |r| == |users|
    ensures forall i :: 0 <= i < |users| ==> r[i] == Summarize(users[i])
  {
    if users == [] then [] else [Summarize(users[0])] + SummarizeAll(users[1..])
  }

  /** `GET({ cookies })`, reading the session from the cookie named `cookieName`. */
  method Get(jar: CookieJar, cookieName: string, auth: Provider) returns (resp: Response<seq<UserSummary>>, trace: seq<Action>)
    ensures !Verified(jar.Get(cookieName), auth) ==>
              resp == Failure(401) && trace == GateTrace(jar.Get(cookieName), auth)
    ensures Verified(jar.Get(cookieName), auth) && !IsAdmin(RequesterClaims(jar.Get(cookieName), auth)) ==>
              resp == Failure(403) && trace == [VerifySessionCookie(jar.Get(cookieName).value, true)]
    ensures Verified(jar.Get(cookieName), auth) && IsAdmin(RequesterClaims(jar.Get(cookieName), auth)) ==>
              trace == [VerifySessionCookie(jar.Get(cookieName).value, true), ListUsers(ListLimit)]
              && resp == match auth.listUsers(ListLimit)
                         case Ok(users) => Success(SummarizeAll(users))
                         case Err(_) => Failure(500)
    ensures resp.Success? ==> Verified(jar.Get(cookieName), auth) && IsAdmin(RequesterClaims(jar.Get(cookieName), auth))
    ensures Mutations(trace) == []
  {
    var gate;
    gate, trace := Authorize(jar, cookieName, auth);
    if !gate.Admitted? {
      return Failure(GateStatus(gate)), trace;
    }
    trace := trace + [ListUsers(ListLimit)];
    var listUsersResult := auth.listUsers(ListLimit);
    if listUsersResult.Err? {
      return Failure(500), trace;
    }
    resp := Success(SummarizeAll(listUsersResult.value));
  }
}
