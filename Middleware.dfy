/** The request guard of middleware.ts and its stricter twin in proxy.ts.
    The next-intl middleware that runs first is an input: only the status of
    the response it produced matters to the guards. Cookies are given by
    name: None when the request has no such cookie, Some(value) otherwise. */
module Guards {
  import opened Js
  import opened Routing

  /** Where a redirect points: a path on the request's origin and the query
      parameters set on it, as `URL.searchParams` holds them (unencoded). */
  datatype Location = Location(path: string, query: seq<(string, string)>)

  /** Return what next-intl produced, or redirect to the login page. */
  datatype Decision = PassThrough | Redirect(location: Location)

  predicate IsIntlRedirect(status: int) {
    status == 307 || status == 308
  }

  /** `cookies.get(name)?.value` read through ToBoolean. */
  predicate HasValue(cookie: Option<string>) {
    cookie.Some? && cookie.value != ""
  }

  /** The `redirect` parameter: the pathname without its locale segment,
      then the search string. */
  function RedirectTarget(pathname: string, search: string): string {
    var segments := Split(pathname, '/');
    var redirectPath :=
      if |segments| > 1 && segments[1] in Locales then "/" + Join(segments[2..], "/") else pathname;
    redirectPath + search
  }

  /** middleware: the token is the admin cookie's value or else the user
      site's `wheelx_token` cookie value. */
  function Middleware(intlStatus: int, pathname: string, search: string,
                      adminToken: Option<string>, userToken: Option<string>): (d: Decision)
    ensures d.Redirect? <==>
      !IsIntlRedirect(intlStatus) && IsPrivatePage(pathname) && !HasValue(adminToken) && !HasValue(userToken)
    ensures d.Redirect? ==>
      d.location == Location(LoginPath(pathname), [("redirect", RedirectTarget(pathname, search))])
  {
    if IsIntlRedirect(intlStatus) then PassThrough
    else if IsPrivatePage(pathname) && !(HasValue(adminToken) || HasValue(userToken)) then
      Redirect(Location(LoginPath(pathname), [("redirect", RedirectTarget(pathname, search))]))
    else PassThrough
  }

  /** proxy: only the presence of the admin cookie is tested, so an empty
      value lets the request through; the login URL has no query. */
  function Proxy(intlStatus: int, pathname: string, adminCookie: Option<string>): (d: Decision)
    ensures d.Redirect? <==> !IsIntlRedirect(intlStatus) && IsPrivatePage(pathname) && adminCookie.None?
    ensures d.Redirect? ==> d.location == Location(LoginPath(pathname), [])
  {
    if IsIntlRedirect(intlStatus) then PassThrough
    else if IsPrivatePage(pathname) && adminCookie.None? then Redirect(Location(LoginPath(pathname), []))
    else PassThrough
  }

  /** A localised admin path loses its locale segment in the redirect target. */
  lemma {:induction false} RedirectStripsLocale(l: string, rest: string, search: string)
    requires l in Locales
    ensures RedirectTarget("/" + l + "/" + rest, search) == "/" + rest + search
  {
    var p := "/" + l + "/" + rest;
    assert '/' !in l;
    SplitAfterPiece(l, '/', rest);
    assert p == "" + ['/'] + (l + ['/'] + rest);
    SplitAfterPiece("", '/', l + ['/'] + rest);
    var segments := Split(p, '/');
    assert segments == [""] + ([l] + Split(rest, '/'));
    assert segments[1] == l;
    assert segments[2..] == Split(rest, '/');
  }

  /** A bare "/private..." path is kept whole: its first segment begins with
      "private" and so is not a locale. */
  lemma {:induction false} RedirectKeepsBarePath(pathname: string, search: string)
    requires StartsWith(pathname, "/private")
    ensures RedirectTarget(pathname, search) == pathname + search
  {
    var rest := pathname[1..];
    assert pathname == "" + ['/'] + rest;
    SplitAfterPiece("", '/', rest);
    assert rest[..7] == "private";
    SplitFirstPiece(rest, '/', 7);
    var segments := Split(pathname, '/');
    assert segments[1] == Split(rest, '/')[0];
    assert |segments[1]| >= 7;
  }

  /** An anonymous visit to a localised admin page goes to that locale's
      login page, with the locale-free path and the search as its target:
      /fr/private/users?foo=1 becomes /fr/auth/login?redirect=/private/users?foo=1. */
  lemma {:induction false} AnonymousLocalisedVisit(intlStatus: int, l: string, rest: string, search: string)
    requires l in Locales && !IsIntlRedirect(intlStatus)
    ensures Middleware(intlStatus, "/" + l + "/private" + rest, search, None, None)
      == Redirect(Location("/" + l + "/auth/login", [("redirect", "/private" + rest + search)]))
  {
    var p := "/" + l + "/private" + rest;
    var tail := "private" + rest;
    assert p == "/" + l + "/" + tail;
    RedirectStripsLocale(l, tail, search);
    assert RedirectTarget(p, search) == "/" + tail + search;
    assert "/" + tail == "/private" + rest;
    assert p == "/" + l + ("/private" + rest);
    LoginLocaleOf(l, "/private" + rest);
    assert StartsWith(p, "/" + l + "/private");
    var i :| 0 <= i < |Locales| && Locales[i] == l;
    assert StartsWith(p, "/" + Locales[i] + "/private");
    assert IsPrivatePage(p);
    var d := Middleware(intlStatus, p, search, None, None);
    assert d.Redirect?;
    assert LoginPath(p) == "/" + l + "/auth/login";
    assert RedirectTarget(p, search) == "/private" + rest + search;
  }

  /** Both guards send an anonymous visitor to the same login page. */
  lemma SameLoginPage(intlStatus: int, pathname: string, search: string)
    ensures Middleware(intlStatus, pathname, search, None, None).Redirect?
      <==> Proxy(intlStatus, pathname, None).Redirect?
    ensures Middleware(intlStatus, pathname, search, None, None).Redirect? ==>
      Middleware(intlStatus, pathname, search, None, None).location.path == Proxy(intlStatus, pathname, None).location.path
  {
  }

  /** The two guards disagree both ways: a user-site token alone passes the
      middleware but not the proxy, and an empty admin cookie passes the
      proxy but not the middleware. */
  lemma GuardsDisagree(pathname: string, token: string)
    requires IsPrivatePage(pathname) && token != ""
    ensures Middleware(200, pathname, "", None, Some(token)) == PassThrough
    ensures Proxy(200, pathname, None).Redirect?
    ensures Proxy(200, pathname, Some("")) == PassThrough
    ensures Middleware(200, pathname, "", Some(""), None).Redirect?
  {
  }

  /** Unlike the admin client, the middleware does not reject the
      placeholder texts: a cookie whose value is "undefined" lets the request through. */
  lemma PlaceholderTokenPasses(intlStatus: int, pathname: string, search: string)
    ensures Middleware(intlStatus, pathname, search, Some("undefined"), None) == PassThrough
    ensures Middleware(intlStatus, pathname, search, None, Some("null")) == PassThrough
  {
  }

  /** Pages outside the admin area, and next-intl's own redirects, are never blocked. */
  lemma OnlyAdminPagesGuarded(intlStatus: int, pathname: string, search: string,
                              adminToken: Option<string>, userToken: Option<string>)
    requires IsIntlRedirect(intlStatus) || !IsPrivatePage(pathname)
    ensures Middleware(intlStatus, pathname, search, adminToken, userToken) == PassThrough
    ensures Proxy(intlStatus, pathname, adminToken) == PassThrough
  {
  }
}
