/**
 * The request's cookie jar (SvelteKit's `cookies`): `get` reads the cookies of the request
 * together with those set or deleted while handling it; `set` and `delete` also emit a
 * Set-Cookie header.
 */
module Cookies {
  import opened Wrappers

  /** The session cookie's name as the login, logout and page-guard code spell it. */
  const SessionCookie: string := "__session"

  datatype SameSite = Lax | Strict

  /** The attributes passed to `cookies.set`; `maxAge` is in seconds. */
  datatype CookieOptions = CookieOptions(maxAge: int, httpOnly: bool, secure: bool, path: string, sameSite: SameSite)

  /** A Set-Cookie header written while handling the request. */
  datatype CookieWrite =
    | SetCookie(name: string, value: string, options: CookieOptions)
    | DeleteCookie(name: string, path: string)

  /** JavaScript truthiness of `cookies.get(name)`: absent and empty both read as no cookie. */
  predicate Present(cookie: Option<string>) {
    cookie.Some? && cookie.value != ""
  }

  class CookieJar {
    /** What `cookies.get` returns, by name. */
    var values: map<string, string>
    /** The Set-Cookie headers written so far, oldest first. */
    var written: seq<CookieWrite>

    constructor (incoming: map<string, string>)
      ensures values == incoming && written == []
    {
      values := incoming;
      written := [];
    }

    /** `cookies.get(name)` */
    function Get(name: string): Option<string>
      reads this
    {
      if name in values then Some(values[name]) else None
    }

    /** `cookies.set(name, value, options)` */
    method Set(name: string, value: string, options: CookieOptions)
      modifies this
      ensures values == old(values)[name := value]
      ensures written == old(written) + [SetCookie(name, value, options)]
    {
      values := values[name := value];
      written := written + [SetCookie(name, value, options)];
    }

    /** `cookies.delete(name, { path })` */
    method Delete(name: string, path: string)
      modifies this
      ensures values == old(values) - {name}
      ensures written == old(written) + [DeleteCookie(name, path)]
    {
      values := values - {name};
      written := written + [DeleteCookie(name, path)];
    }
  }
}
