/**
 * `POST /api/admin/users/create`: the admin gate, body validation with a role default,
 * then `createUser` followed by `setCustomUserClaims`, with provider error codes mapped
 * to statuses.
 */
module AdminUsersCreate {
  import opened Wrappers
  import opened Js
  import opened IdentityProvider
  import opened Cookies
  import opened Http
  import opened AdminGate

  /** Why a body was refused with 400. */
  datatype BadRequest = InvalidBody | MissingCredentials | InvalidRole

  /** A validated body. */
  datatype UserRequest = UserRequest(email: JsValue, password: JsValue, role: JsValue)

  /** The `user` of the success response. */
  datatype CreatedUser = CreatedUser(
    uid: string,
    email: JsValue,
    role: JsValue,
    emailVerified: bool,
    disabled: bool,
    creationTime: JsValue)

  predicate AllowedRole(role: JsValue) {
    role in [Str("admin"), Str("user")]
  }

  /**
   * Step 3: read `email`, `password` and `role || 'user'` from the parsed body.  A body that
   * does not parse, or is `null`, is refused as invalid (the TypeError carries no status);
   * a falsy email or password, or a role outside {admin, user}, is refused too.
   */
  function ParseUserRequest(body: Result<JsValue, SyntaxError>): (r: Result<UserRequest, BadRequest>)
    ensures r == Err(InvalidBody) <==> body.Err? || body.value.Null? || body.value.Undefined?
    ensures r.Ok? <==> body.Ok? && Property(body.value, "email").Some?
                       && Truthy(Property(body.value, "email").value)
                       && Truthy(Property(body.value, "password").value)
                       && AllowedRole(Or(Property(body.value, "role").value, Str("user")))
    ensures r.Ok? ==> r.value.email == Property(body.value, "email").value
                      && r.value.password == Property(body.value, "password").value
                      && r.value.role == Or(Property(body.value, "role").value, Str("user"))
                      && (r.value.role == Str("admin") || r.value.role == Str("user"))
  {
    if body.Err? then Err(InvalidBody)
    else
      var email := Property(body.value, "email");
      var password := Property(body.value, "password");
      var role := Property(body.value, "role");
      if email.None? || password.None? || role.None? then Err(InvalidBody)
      else
        var roleOrDefault := Or(role.value, Str("user"));
        if !Truthy(email.value) || !Truthy(password.value) then Err(MissingCredentials)
        else if !AllowedRole(roleOrDefault) then Err(InvalidRole)
        else Ok(UserRequest(email.value, password.value, roleOrDefault))
  }

  /** The error codes reported as the client's fault. */
  const ClientErrorCodes: seq<string> := ["auth/email-already-exists", "auth/invalid-email", "auth/invalid-password"]

  /** Step 4's catch: known provider codes are 400, everything else 500. */
  function CreateErrorStatus(code: string): (status: int)
    ensures status == 400 <==> code == "auth/email-already-exists" || code == "auth/invalid-email"
                               || code == "auth/invalid-password"
    ensures status == 500 <==> code !in ClientErrorCodes
  {
    if code in ClientErrorCodes then 400 else 500
  }

  /**
   * Step 4 for a validated request: `createUser` with `emailVerified: false`, then, only if
   * that succeeded, `setCustomUserClaims(uid, { role })`.  Gives the response and the calls issued.
   */
  function Creation(req: UserRequest, auth: Provider, now: string): (o: (Response<CreatedUser>, seq<Action>))
    ensures var properties := NewUser(req.email, req.password, false);
            var created := auth.createUser(properties);
            && (created.Err? ==> o == (Failure(CreateErrorStatus(created.error.code)), [CreateUser(properties)]))
            && (created.Ok? ==>
                  var claims := map["role" := req.role];
                  var claimed := auth.setCustomUserClaims(created.value.uid, claims);
                  && o.1 == [CreateUser(properties), SetCustomUserClaims(created.value.uid, claims)]
                  && (claimed.Err? ==> o.0 == Failure(CreateErrorStatus(claimed.error.code)))
                  && (claimed.Ok? ==>
                        var record := created.value;
                        o.0 == Success(CreatedUser(record.uid, record.email, req.role, record.emailVerified,
                                                   record.disabled, Or(record.creationTime, Str(now))))))
    ensures o.0.Failure? ==> o.0.status == 400 || o.0.status == 500
    ensures forall a :: a in o.1 ==> IsMutation(a)
  {
    var properties := NewUser(req.email, req.password, false);
    match auth.createUser(properties)
    case Err(e) => (Failure(CreateErrorStatus(e.code)), [CreateUser(properties)])
    case Ok(userRecord) =>
      var claims := map["role" := req.role];
      var calls := [CreateUser(properties), SetCustomUserClaims(userRecord.uid, claims)];
      match auth.setCustomUserClaims(userRecord.uid, claims)
      case Err(e) => (Failure(CreateErrorStatus(e.code)), calls)
      case Ok(_) =>
        (Success(CreatedUser(userRecord.uid, userRecord.email, req.role, userRecord.emailVerified,
                             userRecord.disabled, Or(userRecord.creationTime, Str(now)))), calls)
  }

  /** `POST({ request, cookies })`; `now` stands for `new Date().toISOString()`. */
  method Post(jar: CookieJar, cookieName: string, body: Result<JsValue, SyntaxError>, auth: Provider, now: string)
    returns (resp: Response<CreatedUser>, trace: seq<Action>)
    // the gate comes first, and a rejected requester's body is never read
    ensures !Verified(jar.Get(cookieName), auth) ==> resp == Failure(401) && trace == GateTrace(jar.Get(cookieName), auth)
    ensures Verified(jar.Get(cookieName), auth) && !Admits(jar.Get(cookieName), auth) ==>
              resp == Failure(403) && trace == GateTrace(jar.Get(cookieName), auth)
    // an admin's invalid body is 400 and nothing is created
    ensures Admits(jar.Get(cookieName), auth) && ParseUserRequest(body).Err? ==>
              resp == Failure(400) && trace == GateTrace(jar.Get(cookieName), auth) + [ReadRequestBody]
    // an admin's valid body goes to step 4
    ensures Admits(jar.Get(cookieName), auth) && ParseUserRequest(body).Ok? ==>
              var o := Creation(ParseUserRequest(body).value, auth, now);
              resp == o.0 && trace == GateTrace(jar.Get(cookieName), auth) + [ReadRequestBody] + o.1
    // remote state is changed only on behalf of an admin with a valid body
    ensures Mutations(trace) != [] ==> Admits(jar.Get(cookieName), auth) && ParseUserRequest(body).Ok?
    // success reports the role that was set on the new user, which is "admin" or "user"
    ensures resp.Success? ==>
              AllowedRole(resp.body.role) && |trace| >= 2
              && trace[|trace| - 1] == SetCustomUserClaims(resp.body.uid, map["role" := resp.body.role])
              && trace[|trace| - 2].CreateUser? && !trace[|trace| - 2].properties.emailVerified
  {
    // 1 and 2: authorize the requester
    var gate;
    gate, trace := Authorize(jar, cookieName, auth);
    if !gate.Admitted? {
      return Failure(GateStatus(gate)), trace;
    }

    // 3: read and validate the body
    ghost var gateTrace := trace;
    trace := trace + [ReadRequestBody];
    var parsed := ParseUserRequest(body);
    if parsed.Err? {
      MutationsAppend(gateTrace, [ReadRequestBody]);
      return Failure(400), trace;
    }
    var email, password, role := parsed.value.email, parsed.value.password, parsed.value.role;

    // 4: create the user, then set its role claim
    var properties := NewUser(email, password, false);
    trace := trace + [CreateUser(properties)];
    var created := auth.createUser(properties);
    if created.Err? {
      return Failure(CreateErrorStatus(created.error.code)), trace;
    }
    var userRecord := created.value;
    trace := trace + [SetCustomUserClaims(userRecord.uid, map["role" := role])];
    var claimsSet := auth.setCustomUserClaims(userRecord.uid, map["role" := role]);
    if claimsSet.Err? {
      return Failure(CreateErrorStatus(claimsSet.error.code)), trace;
    }
    resp := Success(CreatedUser(userRecord.uid, userRecord.email, role, userRecord.emailVerified,
                                userRecord.disabled, Or(userRecord.creationTime, Str(now))));
  }
}
