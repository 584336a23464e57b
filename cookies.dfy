/** The cookie store a route handler obtains from `cookies()` (next/headers). */
module Cookies {
  import opened Wrappers

  datatype SameSite = Lax | Strict | NoRestriction

  datatype Cookie = Cookie(
    value: string,
    httpOnly: bool,
    secure: bool,
    sameSite: SameSite,
    path: string,
    maxAge: int)

  class CookieStore {
    var entries: map<string, Cookie>

    constructor (initial: map<string, Cookie>)
      ensures entries == initial
    {
      entries := initial;
    }

    /** `cookieStore.get(name)`. */
    function Get(name: string): (r: Option<Cookie>)
      reads this
      ensures r.Some? <==> name in entries
      ensures r.Some? ==> r.value == entries[name]
    {
      if name in entries then Some(entries[name]) else None
    }

    /** `cookieStore.set(name, value, options)`: replaces any cookie of that name. */
    method Set(name: string, c: Cookie)
      modifies this
      ensures entries == old(entries)[name := c]
    {
      entries := entries[name := c];
    }
  }
}
