# Session-cookie authentication of the ICF portal, modelled in Dafny

The portal is a SvelteKit application that signs users in through Firebase. This project
models the layer that decides what each request gets:

- **Page guard.** The root layout's `load` reads the `__session` cookie and classifies it
  as absent, valid or invalid. It deletes an invalid cookie. Then it applies two ordered
  redirect rules over the public routes `/login` and `/signup`.
- **Login and logout.** Login exchanges an ID token for a five-day session cookie. Logout
  acts only when a non-empty `__session` cookie is present: it then revokes the session's
  refresh tokens on a best-effort basis and deletes the cookie whatever the revocation's
  outcome. Without such a cookie it issues no call and changes nothing. Either way it
  answers success.
- **Admin API.** One endpoint lists users and one creates a user with a role. Both first
  require a session cookie that verifies (else 401) and role `admin` (else 403). The list
  endpoint then calls `listUsers(1000)`: a failure gives 500, otherwise the projected list.
  It reads no body. The create endpoint then validates the body (else 400), creates the
  user and sets its role. A provider error there gives 400 for three known codes and 500
  otherwise.
- **PDF index.** `GET /` filters a directory listing for `.pdf` names and maps each name
  to `{ name, url }`.

The Firebase Admin SDK is an uninterpreted oracle. `IdentityProvider.Provider` holds one
function per SDK call. Each function gives, for its arguments, either `Ok(value)` or
`Err(AuthError(code))`. Each handler records what it does, in order, as a trace of
`Action`s: reading the request body and every SDK call it issues. `Mutations(trace)` picks
out the calls that change remote state (revocation, user creation, setting claims).

The cookie jar is a class, `Cookies.CookieJar`:

- `values` is what `cookies.get` returns.
- `written` is the list of Set-Cookie headers sent back.
- Handlers that set or delete cookies are methods that modify the jar. The admin handlers
  only read it.

`Flows` chains requests. Each request sees the jar the previous one left behind.

JavaScript values that the handlers inspect go through `Js.JsValue`: parsed bodies, claim
values and user-record fields. Their truthiness (`!x`, `x || y`) and strict equality
(`role !== 'admin'`, `allowedRoles.includes(role)`) are modelled as in the language. This
matters for edge cases:

- A cookie whose value is empty counts as no cookie.
- A `null` body makes `body.email` throw.
- A truthy non-string role is copied into the user list unchanged.

The admin endpoints get the SDK handle from `getAdminAuth()`. `src/lib/server/admin.js`
exports `adminAuth` and defines no `getAdminAuth`. Whether that call returns or throws is
the oracle's `adminHandle` flag. A throw happens inside the first `try` block, so it ends
in the same 401 as a missing or rejected cookie. This reading assumes the missing import
resolves to `undefined` at run time, as under the development server; a production build
that rejects a missing named export would never run these endpoints, and the model does
not cover that case. The model covers that reading and the case where a handle is returned.

The model keeps these details of the code:

- The cookie is `__session` for login, logout and the page guard. It is `session` in the
  admin endpoints. See Findings.
- The public routes are `/login` and `/signup`.
- There is no admin-prefix redirect rule, and the layout's `user` carries no `role`.
- At login, only `auth/id-token-expired` and `auth/argument-error` give 401. Any other
  failure gives 500, including a body that does not parse.
- The cookie is `secure` only when `NODE_ENV` is `production`.
- The login response also carries the `uid`.

## Model

| member | source | states |
|---|---|---|
| PageGuard.Classify | src/routes/+layout.server.js:12-40 | No session iff `cookies.get('__session')` is absent or empty. Valid iff the cookie is present and `verifySessionCookie` accepts it, carrying its claims. Invalid carries the provider's error. |
| PageGuard.UserOf | src/routes/+layout.server.js:22-26 | A user exists exactly for a valid session. Its `uid`, `email` and `emailVerified` are the claims `uid`, `email` and `email_verified`. |
| PageGuard.Decide | src/routes/+layout.server.js:43-60 | Redirect 303 to `/login` iff there is no user and the path is neither `/login` nor `/signup`. Redirect 303 to `/` iff there is a user and the path is one of them. Otherwise the page data is `{ user }` unchanged. |
| PageGuard.RendersExactly | src/routes/+layout.server.js:43-60 | A page renders iff a user is present exactly when the route is not public. |
| PageGuard.RedirectTargetRenders | src/routes/+layout.server.js:45-55 | Redirects do not loop: a redirect's target renders for the same user. |
| PageGuard.Load | src/routes/+layout.server.js:8-61 | The result is the redirect decision for the classified session's user. The only SDK call is one `verifySessionCookie` with `checkRevoked` true, issued iff a non-empty cookie is present; no mutation is issued. The jar changes only for an invalid session: `__session` is removed and one delete header with path `/` is written. |
| AdminGate.Authorize | src/routes/api/admin/users/+server.js:11-32 | 401 iff the cookie is absent or empty, no handle is obtained, or verification fails. 403 iff a verified requester's role is not the string `admin`. Admitted claims are the verified ones. The only call is one verification with `checkRevoked` true, issued only when a cookie and a handle are there. |
| AdminGate.GateStatus | src/routes/api/admin/users/create/+server.js:12-32 | An unauthenticated requester gets 401 and a forbidden one gets 403. |
| AdminUsersList.RoleOrDefault | src/routes/api/admin/users/+server.js:42 | The role is `customClaims.role` when that is truthy, otherwise `'user'`. It is never falsy. |
| AdminUsersList.Summarize | src/routes/api/admin/users/+server.js:39-46 | `uid`, `email`, `disabled`, `lastSignInTime` and `creationTime` are copied unchanged. The role is the defaulted claim. |
| AdminUsersList.SummarizeAll | src/routes/api/admin/users/+server.js:39-46 | The output has the same length and order as the records. Entry i summarizes record i. |
| AdminUsersList.Get | src/routes/api/admin/users/+server.js:5-55 | 401 or 403 from the gate, with no `listUsers` call. For an admin, `listUsers(1000)` is called once. A failure gives 500; otherwise the response is the projected list. A 200 implies a verified admin. No mutation is issued. |
| AdminUsersCreate.ParseUserRequest | src/routes/api/admin/users/create/+server.js:35-62 | An unparsable or `null` body is refused as invalid. The body is accepted iff email and password are truthy and `role` or-`'user'` is `admin` or `user`. An accepted request carries those values. |
| AdminUsersCreate.CreateErrorStatus | src/routes/api/admin/users/create/+server.js:95-108 | 400 iff the code is `auth/email-already-exists`, `auth/invalid-email` or `auth/invalid-password`. 500 for every other code. |
| AdminUsersCreate.Creation | src/routes/api/admin/users/create/+server.js:64-94 | `createUser` gets `emailVerified: false`. `setCustomUserClaims(uid, { role })` follows only a successful creation. Either failure maps through the code table to 400 or 500. Success returns the record's fields with the validated role. Every call issued is a mutation. |
| AdminUsersCreate.Post | src/routes/api/admin/users/create/+server.js:5-109 | 401 or 403 before the body is read. An admin with a bad body gets 400 and nothing is created. An admin with a valid body runs step 4. Mutations are issued only for an admin with a valid body. A success reports the role set by the last call, always `admin` or `user`. |
| SessionLogin.SessionCookieOptions | src/routes/api/auth/session/+server.js:13-27 | `maxAge` is 432000 s, with `maxAge * 1000 == expiresIn`. `httpOnly` is set, `path` is `/`, `sameSite` is lax, and `secure` iff `NODE_ENV` is `production`. |
| SessionLogin.SessionErrorStatus | src/routes/api/auth/session/+server.js:34-41 | 401 iff the code is `auth/id-token-expired` or `auth/argument-error`. 500 otherwise, including errors with no code. |
| SessionLogin.Post | src/routes/api/auth/session/+server.js:5-42 | An unreadable body gives 500 and a falsy token 400, with no SDK call. Otherwise the token is verified, then exchanged for a cookie valid for 432000000 ms. `__session` is set with the cookie policy only when both succeed, and the response then carries the token's `uid`. On any failure the jar is unchanged. |
| SessionLogout.LogoutCalls | src/routes/api/auth/logout/+server.js:13-20 | Verification comes first. A revocation, for the claims' `sub`, is issued iff verification succeeded, and it is the only mutation. There are two calls after a successful verification and one otherwise. |
| SessionLogout.Post | src/routes/api/auth/logout/+server.js:5-35 | The response is always success. Without a cookie: no call and no jar change. With one: the calls above, then `__session` is deleted with path `/` whatever their outcome. Afterwards no session cookie is present. |
| PdfIndex.FilterPdf | src/routes/+server.js:7-8 | Every name kept ends in `.pdf` and comes from the listing. There are no more names than files. |
| PdfIndex.ToEntries | src/routes/+server.js:9-12 | One entry per name, in order, each `{ name, url: '/' + name }`. |
| PdfIndex.Listing | src/routes/+server.js:5-15 | The response body: every entry is a `.pdf` file of the listing, with url `/` followed by its name. The output is no longer than the listing. |
| PdfIndex.FilterPdfCounts | src/routes/+server.js:7-8 | A PDF name occurs in the output as often as in the listing. Any other name never occurs. |
| PdfIndex.FilterPdfIsSubsequence | src/routes/+server.js:7-8 | The filter keeps the relative order of the listing. |
| PdfIndex.ListingSpec | src/routes/+server.js:7-14 | The response's names are an order-preserving subsequence of the listing, with the multiplicities above. |
| PdfIndex.ListingOfDirectory | src/routes/+server.js:7-12 | For a listing without repeated names, every PDF appears in the response exactly once. |
| Flows.LogoutTwice | src/routes/api/auth/logout/+server.js:7-29 | Idempotence: two logouts in a row both succeed, and the second issues no call. |
| Flows.LogoutThenVisit | src/routes/api/auth/logout/+server.js:22-23 | After a logout, any protected page redirects 303 to `/login`. |
| Flows.LoginThenVisit | src/routes/api/auth/session/+server.js:29-32 | Take a provider that accepts the cookie it minted with the token's uid. After login, a protected page renders for the uid the login response reported. |
| Flows.LoginThenListUsers | src/routes/api/admin/users/+server.js:12-15 | As written: after a login, listing users answers 401, whatever the provider says. |
| Flows.LoginThenListUsersCorrected | src/routes/api/admin/users/+server.js:12-49 | Reading `__session` instead, an admin who just logged in receives the projected list. |

## Findings

| source | as written | input that shows it | evidently intended | confidence | as-written member | corrected member |
|---|---|---|---|---|---|---|
| src/routes/api/admin/users/+server.js:12 | The admin endpoints read cookie `session`. The login endpoint (`src/routes/api/auth/session/+server.js:29`) writes `__session`. | A fresh browser logs in with a valid admin ID token, then calls `GET /api/admin/users`. The jar holds only `__session`, so the answer is 401. | The admin endpoints read `__session`, the cookie that login writes and the page guard reads. The admin then gets the user list. This also assumes that `getAdminAuth()` returns a handle (`Provider.adminHandle`), which `src/lib/server/admin.js` does not export. | high (not executed) | Flows.LoginThenListUsers | Flows.LoginThenListUsersCorrected |

The same line appears at `src/routes/api/admin/users/create/+server.js:13`. The admin
handlers take the cookie name as a parameter. `AdminGate.AdminCookieName` is the name as
written, and `Cookies.SessionCookie` is the name the rest of the application uses.

## Left out

- Human-readable error and log messages, and all console logging. Responses carry statuses and structured bodies only.
- The directory read `fs.readdirSync('static')`. The listing is an input of `PdfIndex`.
- Credential loading and SDK initialisation in `src/lib/server/admin.js`. Only whether `getAdminAuth()` yields a handle is modelled, as `Provider.adminHandle`.
- `src/routes/api/admin/users/[uid]/role/+server.js` (role change) is not part of this model.
- The client store `src/lib/stores/authStore.js` and the email endpoint `src/routes/api/send-email/+server.js` are not part of this model.
- The SDK's internals: token signing, revocation bookkeeping, user storage. Its answers are oracle outcomes, so a revoked cookie is one the oracle rejects.
- `JsValue` has no array case. A JSON array body, or an array-valued claim, is modelled as an `Obj` without the keys the handlers read; that gives the same truthiness and the same `undefined` reads.
- JavaScript numbers are integers in `JsValue`. NaN and fractional values are not modelled in truthiness.
- Property access on primitives always reads `undefined`. Built-in properties such as a string's `length` do not occur on the keys read.
- `new Date().toISOString()` and `process.env.NODE_ENV` are parameters (`now`, `nodeEnv`). Timing and `async` scheduling are not modelled.
- SessionLogout.Post: the outer `catch` that answers 500 (lines 31-34) is not reachable in the model. No modelled step outside the inner `try` can throw.
- Errors thrown by SvelteKit's `cookies.set`/`cookies.delete`, and SDK errors without a `code`, are not modelled. Every SDK rejection carries a code.
